/** The emulator's processor core: mutable registers and the five lazily kept flag words
    H, N, Z, OV and C, plus EFI, updated step by step.  Every method is proved to refine the
    architectural machine of module Arch, in which the condition codes are eight booleans. */
module Cpu6809 {
  import opened Words
  import opened Alu
  import opened Decoder
  import opened Arch
  import opened FlagWords
  import Budget

  class Cpu {
    var a: byte
    var b: byte
    var dp: byte
    var x: word
    var y: word
    var u: word
    var s: word
    var pc: word
    var H: nat
    var N: nat
    var Z: nat
    var OV: nat
    var C: nat
    var EFI: byte
    var mem: Memory
    var ea: word
    var clk: int
    var period: int  // cpu_period
    var ccChanged: bool
    var irqs: nat
    var firqs: nat
    var waiting: bool
    var halted: bool

    // ----- abstraction -----

    /** The condition codes the flag words stand for. */
    ghost function Cc(): Flags
      reads `EFI, `H, `N, `Z, `OV, `C
    {
      Flags(Bit(EFI, 7), Bit(EFI, 6), Bit(H, 4), Bit(EFI, 4), Bit(N, 7), Z == 0, Bit(OV, 7), C != 0)
    }

    ghost function Abs(): State
      reads this
    {
      State(a, b, dp, x, y, u, s, pc, Cc(), mem, clk, ccChanged, irqs, firqs, waiting)
    }

    ghost function View(): Outcome
      reads this
    {
      if halted then Halted else Running(Abs())
    }

    // ----- condition codes -----

    method GetCc() returns (res: byte)
      ensures res == Pack(Cc())
    {
      hide Bit, And, SetBit;
      MaskEfi(EFI);
      res := And(EFI, 0xd0);
      if Bit(H, 4) { SetByteBit(res, 5); res := SetBit(res, 5); }
      if Bit(N, 7) { SetByteBit(res, 3); res := SetBit(res, 3); }
      if Z == 0 { SetByteBit(res, 2); res := SetBit(res, 2); }
      if Bit(OV, 7) { SetByteBit(res, 1); res := SetBit(res, 1); }
      if C != 0 { SetByteBit(res, 0); res := SetBit(res, 0); }
      PackUnpack(res);
    }

    method SetCcByte(arg: byte)
      modifies `EFI, `H, `N, `Z, `OV, `C, `ccChanged
      ensures Cc() == Unpack(arg) && ccChanged
    {
      hide Bit, And;
      MaskEfi(arg);
      EFI := And(arg, 0xd0);
      H := if Bit(arg, 5) then 0x10 else 0;
      N := if Bit(arg, 3) then 0x80 else 0;
      Z := if Bit(arg, 2) then 0 else 4;
      OV := if Bit(arg, 1) then 0x80 else 0;
      C := arg % 2;
      ccChanged := true;
      SetCcWords(arg);
    }

    // ----- eight-bit accumulator and memory instructions -----

    method AddCarry(arg: byte, val: byte) returns (res: byte)
      modifies `C, `N, `Z, `OV, `H
      ensures Result(res, Cc()) == Binary(AdcOp, arg, val, old(Cc()))
    {
      hide SignedByte, Mask, Bit, Xor;
      var cin := if C != 0 then 1 else 0;
      AddOverflowWord(arg, val, cin);
      var sum := arg + val + cin;
      C := Mask(sum / 2, 7);
      res := sum % 256;
      N, Z := res, res;
      OV := Xor(Xor(Xor(arg, val), res), C);
      H := OV;
      TopBit(res);
    }

    method Add(arg: byte, val: byte) returns (res: byte)
      modifies `C, `N, `Z, `OV, `H
      ensures Result(res, Cc()) == Binary(AddOp, arg, val, old(Cc()))
    {
      hide SignedByte, Mask, Bit, Xor;
      var sum := arg + val;
      C := Mask(sum / 2, 7);
      res := sum % 256;
      N, Z := res, res;
      OV := Xor(Xor(Xor(arg, val), res), C);
      H := OV;
      AddOverflowWord(arg, val, 0);
      TopBit(res);
    }

    method Subtract(arg: byte, val: byte) returns (res: byte)
      modifies `C, `N, `Z, `OV
      ensures Result(res, Cc()) == Binary(SubOp, arg, val, old(Cc()))
    {
      hide SignedByte, Mask, Bit, Xor, And;
      SubOverflowWord(arg, val, 0);
      var diff := U32(arg - val);
      C := Mask(diff, 8);
      res := diff % 256;
      N, Z := res, res;
      OV := And(Xor(arg, val), Xor(arg, res));
      TopBit(res);
    }

    method SubtractCarry(arg: byte, val: byte) returns (res: byte)
      modifies `C, `N, `Z, `OV
      ensures Result(res, Cc()) == Binary(SbcOp, arg, val, old(Cc()))
    {
      hide SignedByte, Mask, Bit, Xor, And;
      var bin := if C != 0 then 1 else 0;
      SubOverflowWord(arg, val, bin);
      var diff := U32(arg - val - bin);
      C := Mask(diff, 8);
      res := diff % 256;
      N, Z := res, res;
      OV := And(Xor(arg, val), Xor(arg, res));
      TopBit(res);
    }

    method Compare(arg: byte, val: byte)
      modifies `C, `N, `Z, `OV
      ensures Cc() == Binary(CmpOp, arg, val, old(Cc())).cc
    {
      hide SignedByte, Mask, Bit, Xor, And;
      SubOverflowWord(arg, val, 0);
      var diff := U32(arg - val);
      C := Mask(diff, 8);
      N, Z := diff % 256, diff % 256;
      OV := And(Xor(arg, val), Xor(arg, diff % 256));
      TopBit(diff % 256);
    }

    /** The common tail of and, bit, ld, eor, or, st and tst. */
    method SetLogical(res: byte)
      modifies `N, `Z, `OV
      ensures Cc() == Logical(res, old(Cc())).cc
    {
      N, Z := res, res;
      OV := 0;
      TopBit(res);
      TopBit(0);
    }

    /** The accumulator instructions with an operand; the result of CMP and BIT is `arg`. */
    method BinaryDispatch(op: BinaryOp, arg: byte, val: byte) returns (res: byte)
      modifies `C, `N, `Z, `OV, `H
      ensures Result(res, Cc()) == Binary(op, arg, val, old(Cc()))
    {
      ByteOps(arg, val);
      res := arg;
      match op {
        case SubOp => res := Subtract(arg, val);
        case CmpOp => Compare(arg, val);
        case SbcOp => res := SubtractCarry(arg, val);
        case AndOp => res := And(arg, val); SetLogical(res);
        case BitOp => SetLogical(And(arg, val));
        case LdOp => res := val; SetLogical(res);
        case EorOp => res := Xor(arg, val); SetLogical(res);
        case AdcOp => res := AddCarry(arg, val);
        case OrOp => res := Or(arg, val); SetLogical(res);
        case AddOp => res := Add(arg, val);
      }
    }

    method ShiftLeft(arg: byte) returns (res: byte)
      modifies `C, `N, `Z, `OV, `clk
      ensures Result(res, Cc()) == Unary(Asl, arg, old(Cc())) && clk == old(clk) - 2
    {
      hide SignedByte, Mask, Bit, Xor;
      var wide := arg * 2;
      C := Mask(wide, 8);
      res := wide % 256;
      N, Z := res, res;
      OV := Xor(arg, res);
      clk := clk - 2;
      ShiftLeftWords(arg, 0);
    }

    method RotateLeft(arg: byte) returns (res: byte)
      modifies `C, `N, `Z, `OV, `clk
      ensures Result(res, Cc()) == Unary(Rol, arg, old(Cc())) && clk == old(clk) - 2
    {
      hide SignedByte, Mask, Bit, Xor;
      var cin := if C != 0 then 1 else 0;
      var wide := arg * 2 + cin;
      C := Mask(wide, 8);
      res := wide % 256;
      N, Z := res, res;
      OV := Xor(arg, res);
      clk := clk - 2;
      ShiftLeftWords(arg, cin);
    }

    method ArithmeticShiftRight(arg: byte) returns (res: byte)
      modifies `C, `N, `Z, `clk
      ensures Result(res, Cc()) == Unary(Asr, arg, old(Cc())) && clk == old(clk) - 2
    {
      var wide := U32(SignedByte(arg));
      C := wide % 2;
      res := wide / 2 % 256;
      N, Z := res, res;
      clk := clk - 2;
      AsrValue(arg);
      TopBit(res);
    }

    method LogicalShiftRight(arg: byte) returns (res: byte)
      modifies `C, `N, `Z, `clk
      ensures Result(res, Cc()) == Unary(Lsr, arg, old(Cc())) && clk == old(clk) - 2
    {
      res := arg / 2;
      N := 0;
      Z := res;
      C := arg % 2;
      clk := clk - 2;
      TopBit(0);
    }

    method RotateRight(arg: byte) returns (res: byte)
      modifies `C, `N, `Z, `clk
      ensures Result(res, Cc()) == Unary(Ror, arg, old(Cc())) && clk == old(clk) - 2
    {
      var wide := if C != 0 then arg + 0x100 else arg;
      C := wide % 2;
      res := wide / 2;
      N, Z := res, res;
      clk := clk - 2;
      TopBit(res);
    }

    method Negate(arg: byte) returns (res: byte)
      modifies `C, `N, `Z, `OV, `clk
      ensures Result(res, Cc()) == Unary(Neg, arg, old(Cc())) && clk == old(clk) - 2
    {
      hide SignedByte, Mask, Bit, And;
      res := U32(0 - arg) % 256;
      C, N, Z := res, res, res;
      OV := And(res, arg);
      clk := clk - 2;
      NegateWords(arg);
    }

    method Complement(arg: byte) returns (res: byte)
      modifies `C, `N, `Z, `OV, `clk
      ensures Result(res, Cc()) == Unary(Com, arg, old(Cc())) && clk == old(clk) - 2
    {
      ComplementByXor(arg);
      res := Xor(arg, 0xff);
      SetLogical(res);
      C := 1;
      clk := clk - 2;
    }

    method Decrement(arg: byte) returns (res: byte)
      modifies `N, `Z, `OV, `clk
      ensures Result(res, Cc()) == Unary(Dec, arg, old(Cc())) && clk == old(clk) - 2
    {
      hide SignedByte, Mask, Bit, And;
      res := U32(arg - 1) % 256;
      N, Z := res, res;
      OV := And(arg, 0xffff_ffff - res);
      clk := clk - 2;
      DecrementWords(arg);
    }

    method Increment(arg: byte) returns (res: byte)
      modifies `N, `Z, `OV, `clk
      ensures Result(res, Cc()) == Unary(Inc, arg, old(Cc())) && clk == old(clk) - 2
    {
      hide SignedByte, Mask, Bit, And;
      res := (arg + 1) % 256;
      N, Z := res, res;
      OV := And(0xffff_ffff - arg, res);
      clk := clk - 2;
      IncrementWords(arg);
    }

    method ClearByte() returns (res: byte)
      modifies `C, `N, `Z, `OV, `clk
      ensures forall arg: byte :: Result(res, Cc()) == Unary(Clr, arg, old(Cc()))
      ensures clk == old(clk) - 2
    {
      res, C, N, Z, OV := 0, 0, 0, 0, 0;
      clk := clk - 2;
      TopBit(0);
    }

    method UnaryDispatch(op: UnaryOp, arg: byte) returns (res: byte)
      modifies `C, `N, `Z, `OV, `clk
      ensures Result(res, Cc()) == Unary(op, arg, old(Cc())) && clk == old(clk) - 2
    {
      match op {
        case Neg => res := Negate(arg);
        case Com => res := Complement(arg);
        case Lsr => res := LogicalShiftRight(arg);
        case Ror => res := RotateRight(arg);
        case Asr => res := ArithmeticShiftRight(arg);
        case Asl => res := ShiftLeft(arg);
        case Rol => res := RotateLeft(arg);
        case Dec => res := Decrement(arg);
        case Inc => res := Increment(arg);
        case Tst => res := arg; SetLogical(arg); clk := clk - 2;
        case Clr => res := ClearByte();
      }
    }

    method DecimalAdjustA()
      modifies `a, `C, `N, `Z, `OV, `clk
      ensures Result(a, Cc()) == DecimalAdjust(old(a), old(Cc())) && clk == old(clk) - 2
    {
      hide Bit, Or;
      var res: nat := a;
      var msn := res / 16 * 16;
      var lsn := res % 16;
      if lsn > 0x09 || Bit(H, 4) { res := res + 0x06; }
      if msn > 0x80 && lsn > 0x09 { res := res + 0x60; }
      if msn > 0x90 || C != 0 { res := res + 0x60; }
      assert res == DaaSum(a, Bit(H, 4), C != 0);
      DaaCarry(C, res);
      C := Or(C, Mask(res, 8));
      a := res % 256;
      SetLogical(a);
      clk := clk - 2;
    }

    // ----- sixteen-bit instructions -----

    method AddD(val: word)
      modifies `a, `b, `C, `N, `Z, `OV
      ensures Result(Join(a, b), Cc()) == Add16(old(Join(a, b)), val, old(Cc()))
    {
      hide SignedWord, Mask, Bit, Xor, And, Join;
      var arg := Join(a, b);
      var sum := arg + val;
      Add16Words(arg, val);
      C := Mask(sum, 16);
      var res := sum % 65536;
      Z := res;
      OV := And(Xor(arg, res), Xor(val, res)) / 256;
      a := Hi(res);
      N := a;
      b := Lo(res);
      JoinHiLo(res);
      TopBit(a);
    }

    method SubtractD(val: word)
      modifies `a, `b, `C, `N, `Z, `OV
      ensures Result(Join(a, b), Cc()) == Sub16(old(Join(a, b)), val, old(Cc()))
    {
      hide SignedWord, Mask, Bit, Xor, And, Join;
      var arg := Join(a, b);
      var diff := U32(arg - val);
      Sub16Words(arg, val);
      C := Mask(diff, 16);
      var res := diff % 65536;
      Z := res;
      OV := And(Xor(arg, val), Xor(arg, res)) / 256;
      a := Hi(res);
      N := a;
      b := Lo(res);
      JoinHiLo(res);
      TopBit(a);
    }

    method Compare16(arg: word, val: word)
      modifies `C, `N, `Z, `OV
      ensures Cc() == Sub16(arg, val, old(Cc())).cc
    {
      hide SignedWord, Mask, Bit, Xor, And;
      var diff := U32(arg - val);
      Sub16Words(arg, val);
      C := Mask(diff, 16);
      var res := diff % 65536;
      Z := res;
      N := res / 256;
      OV := And(Xor(arg, val), Xor(arg, res)) / 256;
      TopBit(res / 256);
    }

    /** Flags of the 16-bit loads and stores. */
    method SetLoad16(res: word)
      modifies `N, `Z, `OV
      ensures Cc() == Load16Flags(res, old(Cc()))
    {
      Z := res;
      N := res / 256;
      OV := 0;
      TopBit(res / 256);
      TopBit(0);
    }

    method Multiply()
      modifies `a, `b, `Z, `C, `clk
      ensures Join(a, b) == Product(old(a), old(b)) && Cc() == MulFlags(Join(a, b), old(Cc()))
      ensures clk == old(clk) - 11
    {
      var res := (a * b) % 65536;
      Z := res;
      C := Mask(res, 7);
      a := res / 256;
      b := res % 256;
      clk := clk - 11;
      LowByteTopBit(res); Pow2Values();
    }

    method SignExtend()
      modifies `a, `Z, `N, `clk
      ensures a == (if b >= 128 then 0xff else 0) && Cc() == SexFlags(b, old(Cc())) && clk == old(clk) - 2
    {
      var res := b;
      TopBit(b); Pow2Values();
      Z := res;
      res := Mask(res, 7);
      N := res;
      if res != 0 { res := 0xff; }
      a := res;
      clk := clk - 2;
      TopBit(0);
      TopBit(128);
    }

    // ----- fetch and effective addresses -----

    method ImmByte() returns (val: byte)
      modifies `pc
      ensures val == mem[old(pc)] && pc == Plus(old(pc), 1)
    {
      val := mem[pc];
      pc := Plus(pc, 1);
    }

    method ImmWord() returns (val: word)
      modifies `pc
      ensures val == Read16(mem, old(pc)) && pc == Plus(old(pc), 2)
    {
      val := Join(mem[pc], mem[Plus(pc, 1)]);
      pc := Plus(pc, 2);
    }

    method ReadMem16(addr: word) returns (val: word)
      modifies `clk
      ensures val == Read16(mem, addr) && clk == old(clk) - 1
    {
      var hi := mem[addr];
      clk := clk - 1;
      val := Join(hi, mem[Plus(addr, 1)]);
    }

    method WriteMem16(addr: word, data: word)
      modifies `mem, `clk
      ensures mem == Write16(old(mem), addr, data) && clk == old(clk) - 1
    {
      mem := mem[addr := data / 256];
      clk := clk - 1;
      mem := mem[Plus(addr, 1) := data % 256];
    }

    function Reg16Value(r: Reg16): word
      reads `a, `b, `x, `y, `u, `s
    {
      match r case D => Join(a, b) case X => x case Y => y case U => u case S => s
    }

    method SetReg16Value(r: Reg16, v: word)
      modifies `a, `b, `x, `y, `u, `s
      ensures Abs() == SetReg16(old(Abs()), r, v)
    {
      match r {
        case D => a, b := v / 256, v % 256;
        case X => x := v;
        case Y => y := v;
        case U => u := v;
        case S => s := v;
      }
    }

    method IndexedMode()
      requires !halted
      modifies `a, `b, `dp, `x, `y, `u, `s, `pc, `EFI, `H, `N, `Z, `OV, `C, `mem, `ea, `clk, `ccChanged, `waiting, `halted
      ensures match IndexedAddress(old(Abs()))
              case BadPost => halted
              case At(t, e) => !halted && Abs() == t && ea == e
    {
      hide IndexedBase, Cc;
      var post := ImmByte();
      var r := IndexReg(post);
      if post < 128 {
        SmallOffset(post, r);
      } else {
        IndexedBranch(post, r);
        if !halted && Bit(post, 4) {
          ea := ReadMem16(ea);
          clk := clk - 2;
        }
      }
    }

    /** A five-bit signed offset held in the post byte itself. */
    method SmallOffset(post: byte, r: Reg16)
      requires post < 128 && r == IndexReg(post)
      modifies `ea, `clk
      ensures At(Abs(), ea) == IndexedBase(old(Abs()), post)
    {
      hide Cc;
      var k: int := post % 32;
      var offset := if k < 16 then k else k % 16 + 0xfff0;
      assert k >= 16 ==> Plus(Reg16Value(r), offset) == Plus(Reg16Value(r), k % 16 - 16);
      ea := Plus(Reg16Value(r), offset);
      clk := clk - 5;
    }

    /** The switch on a post byte with bit 7 set, up to the optional indirection. */
    method IndexedBranch(post: byte, r: Reg16)
      requires !halted && post >= 128 && r == IndexReg(post)
      modifies `a, `b, `dp, `x, `y, `u, `s, `pc, `EFI, `H, `N, `Z, `OV, `C, `mem, `ea, `clk, `ccChanged, `waiting, `halted
      ensures match IndexedBase(old(Abs()), post)
              case BadPost => halted
              case At(t, e) => !halted && Abs() == t && ea == e
    {
      var m := post % 32;
      var k := m % 16;
      if k < 4 {
        StepIndex(r, m);
      } else if k < 8 || k == 11 {
        OffsetIndex(r, k);
      } else {
        StreamIndex(r, m);
      }
    }

    method StepIndex(r: Reg16, m: nat)
      requires !halted
      modifies `a, `b, `x, `y, `u, `s, `ea, `clk, `halted
      ensures match IndexedStep(old(Abs()), r, m)
              case BadPost => halted
              case At(t, e) => !halted && Abs() == t && ea == e
    {
      hide Plus, Cc;
      var v := Reg16Value(r);
      var delta := 0;
      if m == 0 { ea, delta := v, 1; }
      else if m == 1 || m == 17 { ea, delta := v, 2; }
      else if m == 2 { ea, delta := Plus(v, -1), -1; }
      else if m == 3 || m == 19 { ea, delta := Plus(v, -2), -2; }
      if delta == 0 {
        ea := 0;
        halted := true;
      } else {
        clk := clk - if delta == 1 || delta == -1 then 6 else 7;
        SetReg16Value(r, Plus(v, delta));
      }
    }

    method OffsetIndex(r: Reg16, k: nat)
      requires !halted
      modifies `ea, `clk, `halted
      ensures match IndexedOffset(old(Abs()), r, k)
              case BadPost => halted
              case At(t, e) => !halted && Abs() == t && ea == e
    {
      var v := Reg16Value(r);
      if k == 4 { ea := v; clk := clk - 4; }
      else if k == 5 { ea := Plus(v, SignedByte(b)); clk := clk - 5; }
      else if k == 6 { ea := Plus(v, SignedByte(a)); clk := clk - 5; }
      else if k == 11 { ea := Plus(v, Join(a, b)); clk := clk - 8; }
      else { ea := 0; halted := true; }
    }

    method StreamIndex(r: Reg16, m: nat)
      requires !halted
      modifies `pc, `ea, `clk, `halted
      ensures match IndexedStream(old(Abs()), r, m)
              case BadPost => halted
              case At(t, e) => !halted && Abs() == t && ea == e
    {
      hide SignedByte, Read16, Cc, Plus;
      var v, k := Reg16Value(r), m % 16;
      if k == 8 { var d := ImmByte(); ea := Plus(v, SignedByte(d)); clk := clk - 5; }
      else if k == 9 { var d := ImmWord(); ea := Plus(v, d); clk := clk - 8; }
      else if k == 12 { var d := ImmByte(); ea := Plus(pc, SignedByte(d)); clk := clk - 5; }
      else if k == 13 { var d := ImmWord(); ea := Plus(pc, d); clk := clk - 9; }
      else if m == 31 { var d := ImmWord(); ea := d; clk := clk - 6; }
      else { ea := 0; halted := true; }
    }

    method DirectMode(base: int)
      modifies `pc, `ea, `clk
      ensures At(Abs(), ea) == Address(old(Abs()), Direct, base)
    {
      hide IndexedAddress;
      var low := ImmByte();
      ea := Join(dp, low);
      clk := clk - base;
    }

    method ExtendedMode(base: int)
      modifies `pc, `ea, `clk
      ensures At(Abs(), ea) == Address(old(Abs()), Extended, base)
    {
      hide IndexedAddress;
      ea := ImmWord();
      clk := clk - (base + 1);
    }

    /** direct(), indexed() or extended(), with the cycles the switch charges beside them. */
    method Locate(mode: Mode, base: int)
      requires !halted && !mode.Immediate?
      modifies `a, `b, `dp, `x, `y, `u, `s, `pc, `EFI, `H, `N, `Z, `OV, `C, `mem, `ea, `clk, `ccChanged, `waiting, `halted
      ensures match Address(old(Abs()), mode, base)
              case BadPost => halted
              case At(t, e) => !halted && Abs() == t && ea == e
    {
      hide IndexedAddress;
      match mode {
        case Direct =>
          DirectMode(base);
        case Indexed =>
          clk := clk - (base - 4);
          IndexedMode();
        case Extended =>
          ExtendedMode(base);
      }
    }

    method Operand8Value(mode: Mode) returns (val: byte)
      requires !halted
      modifies `a, `b, `dp, `x, `y, `u, `s, `pc, `EFI, `H, `N, `Z, `OV, `C, `mem, `ea, `clk, `ccChanged, `waiting, `halted
      ensures match Operand8(old(Abs()), mode)
              case BadOperand => halted
              case Got(t, v) => !halted && Abs() == t && val == v
    {
      val := 0;
      if mode.Immediate? {
        clk := clk - 2;
        val := ImmByte();
      } else {
        Locate(mode, 4);
        if !halted { val := mem[ea]; }
      }
    }

    method Operand16Value(mode: Mode, imm: int, base: int, extra: int) returns (val: word)
      requires !halted
      modifies `a, `b, `dp, `x, `y, `u, `s, `pc, `EFI, `H, `N, `Z, `OV, `C, `mem, `ea, `clk, `ccChanged, `waiting, `halted
      ensures match Operand16(old(Abs()), mode, imm, base, extra)
              case BadOperand => halted
              case Got(t, v) => !halted && Abs() == t && val == v
    {
      val := 0;
      if mode.Immediate? {
        clk := clk - imm;
        val := ImmWord();
      } else {
        Locate(mode, base);
        if !halted {
          val := ReadMem16(ea);
          clk := clk - (extra - 1);
        }
      }
    }

    // ----- stacks -----

    method PushByteOn(user: bool, v: byte)
      modifies `s, `u, `mem
      ensures Abs() == PushByte(old(Abs()), user, v)
    {
      if user {
        u := Plus(u, -1);
        mem := mem[u := v];
      } else {
        s := Plus(s, -1);
        mem := mem[s := v];
      }
    }

    method PushWordOn(user: bool, w: word)
      modifies `s, `u, `mem
      ensures Abs() == PushWord(old(Abs()), user, w)
    {
      hide Cc;
      var sp := if user then u else s;
      var p := Plus(sp, -2);
      PlusPlus(sp, -1, -1);
      PlusPlus(sp, -2, 1);
      if user { u := p; } else { s := p; }
      mem := mem[Plus(p, 1) := w % 256];
      mem := mem[p := w / 256];
    }

    /** One `if (post & bit)` block of pshs/pshu, once its condition holds. */
    method PushRegOn(user: bool, r: RegId)
      modifies `s, `u, `mem
      ensures Abs() == PushReg(old(Abs()), user, r)
    {
      if r.RCC? {
        var cc := GetCc();
        PushByteOn(user, cc);
      } else if Size(r) == 1 {
        PushByteOn(user, if r.RA? then a else if r.RB? then b else dp);
      } else {
        PushWordOn(user, if r.RX? then x else if r.RY? then y else if r.RPC? then pc else if user then s else u);
      }
    }

    /** One `if (post & bit)` block: after it the registers of this bit and the ones above are stacked. */
    method PushNamed(user: bool, named: bool, r: RegId, ghost t: State, ghost rest: seq<RegId>)
      requires Abs() == Pushed(t, user, rest)
      modifies `s, `u, `mem, `clk
      ensures Abs() == Pushed(t, user, If(named, r) + rest)
    {
      hide PushReg, Pushed, Cc;
      PushStep(t, user, named, r, rest);
      if named {
        PushRegOn(user, r);
        clk := clk - Size(r);
      }
    }

    method Advance(user: bool, n: nat)
      modifies `s, `u
      ensures Abs() == WithSp(old(Abs()), user, Plus(Sp(old(Abs()), user), n))
    {
      if user { u := Plus(u, n); } else { s := Plus(s, n); }
    }

    method AssignByte(r: RegId, v: byte)
      requires Size(r) == 1
      modifies `a, `b, `dp, `EFI, `H, `N, `Z, `OV, `C, `ccChanged
      ensures Abs() == PutByte(old(Abs()), r, v)
    {
      hide Cc, SetCc;
      match r {
        case RCC => ReplaceCc(v);
        case RA => a := v;
        case RB => b := v;
        case RDP => dp := v;
      }
    }

    method AssignWord(user: bool, r: RegId, v: word)
      requires Size(r) == 2
      modifies `x, `y, `u, `s, `pc
      ensures Abs() == PutWord(old(Abs()), user, r, v)
    {
      match r {
        case RX => x := v;
        case RY => y := v;
        case ROther => if user { s := v; } else { u := v; }
        case RPC => pc := v;
      }
    }

    method PullRegFrom(user: bool, r: RegId)
      modifies `a, `b, `dp, `x, `y, `u, `s, `pc, `EFI, `H, `N, `Z, `OV, `C, `ccChanged
      ensures Abs() == PullReg(old(Abs()), user, r)
    {
      var p := if user then u else s;
      Advance(user, Size(r));
      if Size(r) == 1 {
        AssignByte(r, mem[p]);
      } else {
        AssignWord(user, r, Read16(mem, p));
      }
    }

    /** One `if (post & bit)` block of puls/pulu; `goal` is where the remaining pulls lead. */
    method PullNamed(user: bool, named: bool, r: RegId, ghost rest: seq<RegId>, ghost goal: State)
      requires StillToPull(Abs(), user, If(named, r) + rest) == goal
      modifies `a, `b, `dp, `x, `y, `u, `s, `pc, `EFI, `H, `N, `Z, `OV, `C, `ccChanged, `clk
      ensures StillToPull(Abs(), user, rest) == goal
    {
      hide PullReg, StillToPull, Cc;
      PullStep(Abs(), user, named, r, rest);
      if named {
        PullRegFrom(user, r);
        clk := clk - Size(r);
      }
    }

    // ----- instructions with memory operands -----

    function AccValue(acc: Acc): byte
      reads `a, `b
    {
      if acc == AccA then a else b
    }

    method SetAccValue(acc: Acc, v: byte)
      modifies `a, `b
      ensures Abs() == SetAcc(old(Abs()), acc, v)
    {
      hide Cc;
      if acc == AccA { a := v; } else { b := v; }
    }

    method UnaryOnAcc(op: UnaryOp, acc: Acc)
      requires !halted
      modifies `a, `b, `dp, `x, `y, `u, `s, `pc, `EFI, `H, `N, `Z, `OV, `C, `mem, `ea, `clk, `ccChanged, `waiting, `halted
      ensures var r := Unary(op, GetAcc(old(Abs()), acc), old(Cc()));
              !halted && Abs() == SetAcc(Spend(old(Abs()), 2), acc, r.val).(cc := r.cc)
    {
      hide Unary, Cc;
      var res := UnaryDispatch(op, AccValue(acc));
      SetAccValue(acc, res);
    }

    method ModifyMem(op: UnaryOp)
      modifies `mem, `C, `N, `Z, `OV, `clk
      ensures var r := Unary(op, old(mem)[ea], old(Cc()));
              Abs() == Spend(old(Abs()), 2).(cc := r.cc, mem := if op.Tst? then old(mem) else old(mem)[ea := r.val])
    {
      hide Unary, Cc;
      var res := UnaryDispatch(op, mem[ea]);
      if !op.Tst? { mem := mem[ea := res]; }
    }

    method UnaryOnMem(op: UnaryOp, mode: Mode)
      requires !halted && !mode.Immediate?
      modifies `a, `b, `dp, `x, `y, `u, `s, `pc, `EFI, `H, `N, `Z, `OV, `C, `mem, `ea, `clk, `ccChanged, `waiting, `halted
      ensures View() == ExecUnaryMem(old(Abs()), op, mode)
    {
      hide Address, Unary, Cc;
      Locate(mode, 4);
      if !halted { ModifyMem(op); }
    }

    method ApplyBinary(op: BinaryOp, acc: Acc, val: byte)
      modifies `a, `b, `C, `N, `Z, `OV, `H
      ensures var r := Binary(op, GetAcc(old(Abs()), acc), val, old(Cc()));
              Abs() == SetAcc(old(Abs()), acc, r.val).(cc := r.cc)
    {
      hide Binary, Cc;
      var res := BinaryDispatch(op, AccValue(acc), val);
      SetAccValue(acc, res);
    }

    method BinaryOnAcc(op: BinaryOp, acc: Acc, mode: Mode)
      requires !halted
      modifies `a, `b, `dp, `x, `y, `u, `s, `pc, `EFI, `H, `N, `Z, `OV, `C, `mem, `ea, `clk, `ccChanged, `waiting, `halted
      ensures View() == ExecBinary(old(Abs()), op, acc, mode)
    {
      hide Operand8, Binary, Cc;
      var val := Operand8Value(mode);
      if !halted {
        ApplyBinary(op, acc, val);
      }
    }

    method StoreAcc(acc: Acc, mode: Mode)
      requires !halted && !mode.Immediate?
      modifies `a, `b, `dp, `x, `y, `u, `s, `pc, `EFI, `H, `N, `Z, `OV, `C, `mem, `ea, `clk, `ccChanged, `waiting, `halted
      ensures View() == ExecStore8(old(Abs()), acc, mode)
    {
      hide Address, Logical, Cc;
      Locate(mode, 4);
      if !halted {
        SetLogical(AccValue(acc));
        mem := mem[ea := AccValue(acc)];
      }
    }

    method ArithmeticD(subtract: bool, mode: Mode)
      requires !halted
      modifies `a, `b, `dp, `x, `y, `u, `s, `pc, `EFI, `H, `N, `Z, `OV, `C, `mem, `ea, `clk, `ccChanged, `waiting, `halted
      ensures View() == ExecArith16(old(Abs()), subtract, mode)
    {
      hide Operand16, Add16, Sub16, Cc;
      var val := Operand16Value(mode, 4, 4, 2);
      if !halted {
        if subtract { SubtractD(val); } else { AddD(val); }
        JoinSplit(a, b);
      }
    }

    method CompareReg(reg: Reg16, mode: Mode, base: int)
      requires !halted
      modifies `a, `b, `dp, `x, `y, `u, `s, `pc, `EFI, `H, `N, `Z, `OV, `C, `mem, `ea, `clk, `ccChanged, `waiting, `halted
      ensures View() == ExecCmp16(old(Abs()), reg, mode, base)
    {
      hide Operand16, Sub16, Cc;
      var val := Operand16Value(mode, base, base, 2);
      if !halted { Compare16(Reg16Value(reg), val); }
    }

    method LoadReg(reg: Reg16, mode: Mode, base: int)
      requires !halted
      modifies `a, `b, `dp, `x, `y, `u, `s, `pc, `EFI, `H, `N, `Z, `OV, `C, `mem, `ea, `clk, `ccChanged, `waiting, `halted
      ensures View() == ExecLoad16(old(Abs()), reg, mode, base)
    {
      hide Operand16, Load16Flags, Cc;
      var val := Operand16Value(mode, base - 1, base, 1);
      if !halted {
        SetLoad16(val);
        SetReg16Value(reg, val);
      }
    }

    method StoreReg(reg: Reg16, mode: Mode, base: int)
      requires !halted && !mode.Immediate?
      modifies `a, `b, `dp, `x, `y, `u, `s, `pc, `EFI, `H, `N, `Z, `OV, `C, `mem, `ea, `clk, `ccChanged, `waiting, `halted
      ensures View() == ExecStore16(old(Abs()), reg, mode, base)
    {
      hide Address, Load16Flags, Write16, Cc;
      Locate(mode, base);
      if !halted {
        var val := Reg16Value(reg);
        SetLoad16(val);
        WriteMem16(ea, val);
      }
    }

    // ----- control flow -----

    method Jump(mode: Mode)
      requires !halted && !mode.Immediate?
      modifies `a, `b, `dp, `x, `y, `u, `s, `pc, `EFI, `H, `N, `Z, `OV, `C, `mem, `ea, `clk, `ccChanged, `waiting, `halted
      ensures View() == ExecJmp(old(Abs()), mode)
    {
      hide Address, Cc;
      Locate(mode, 3);
      if !halted { pc := ea; }
    }

    method JumpSubroutine(mode: Mode)
      requires !halted && !mode.Immediate?
      modifies `a, `b, `dp, `x, `y, `u, `s, `pc, `EFI, `H, `N, `Z, `OV, `C, `mem, `ea, `clk, `ccChanged, `waiting, `halted
      ensures View() == ExecJsr(old(Abs()), mode)
    {
      hide Address, PushWord, Cc;
      Locate(mode, 7);
      if !halted {
        PushWordOn(false, pc);
        pc := ea;
      }
    }

    method BranchSubroutine()
      modifies `pc, `s, `u, `mem, `clk, `ea
      ensures Abs() == Call(Skip(Spend(old(Abs()), 7), 1), ShortTarget(old(Abs())))
    {
      hide Plus, SignedByte, PushWord, Cc;
      var d := ImmByte();
      ea := Plus(pc, SignedByte(d));
      clk := clk - 7;
      PushWordOn(false, pc);
      pc := ea;
    }

    method LongBranchSubroutine()
      modifies `pc, `s, `u, `mem, `clk, `ea
      ensures Abs() == Call(Skip(Spend(old(Abs()), 9), 2), LongTarget(old(Abs())))
    {
      hide Plus, SignedWord, Read16, PushWord, Cc;
      var d := ImmWord();
      ea := Plus(pc, SignedWord(d));
      clk := clk - 9;
      PushWordOn(false, pc);
      pc := ea;
    }

    /** The macros cond_HI() to cond_LE() on the flag words. */
    predicate CondHolds(k: Cond)
      reads `N, `Z, `OV, `C
    {
      match k
      case HI => Z != 0 && C == 0
      case LS => Z == 0 || C != 0
      case HS => C == 0
      case LO => C != 0
      case NE => Z != 0
      case EQ => Z == 0
      case VC => !Bit(OV, 7)
      case VS => Bit(OV, 7)
      case PL => !Bit(N, 7)
      case MI => Bit(N, 7)
      case GE => !Bit(Xor(N, OV), 7)
      case LT => Bit(Xor(N, OV), 7)
      case GT => !Bit(Xor(N, OV), 7) && Z != 0
      case LE => Bit(Xor(N, OV), 7) || Z == 0
    }

    /** The branch conditions read the flag words only through the condition codes. */
    lemma CondFromCc(k: Cond)
      ensures CondHolds(k) == Taken(k, Cc())
    {
      hide Bit, Xor;
      XorBit(N, OV, 7);
    }

    method ShortBranch(cond: bool)
      modifies `pc, `clk
      ensures Abs() == if cond then Spend(old(Abs()), 3).(pc := ShortTarget(old(Abs()))) else Skip(Spend(old(Abs()), 3), 1)
    {
      hide Cc;
      if cond {
        var d := ImmByte();
        pc := Plus(pc, SignedByte(d));
      } else {
        pc := Plus(pc, 1);
      }
      clk := clk - 3;
    }

    method LongBranchTo(cond: bool)
      modifies `pc, `clk
      ensures Abs() == if cond then Spend(old(Abs()), 6).(pc := LongTarget(old(Abs()))) else Skip(Spend(old(Abs()), 5), 2)
    {
      hide Cc;
      if cond {
        var d := ImmWord();
        pc := Plus(pc, SignedWord(d));
        clk := clk - 6;
      } else {
        pc := Plus(pc, 2);
        clk := clk - 5;
      }
    }

    method LongBranchAlways()
      modifies `pc, `clk
      ensures Abs() == Spend(old(Abs()), 5).(pc := LongTarget(old(Abs())))
    {
      hide Cc, Plus, SignedWord;
      var d := ImmWord();
      pc := Plus(pc, SignedWord(d));
      clk := clk - 5;
    }

    method LoadEffective(reg: Reg16)
      requires !halted
      modifies `a, `b, `dp, `x, `y, `u, `s, `pc, `EFI, `H, `N, `Z, `OV, `C, `mem, `ea, `clk, `ccChanged, `waiting, `halted
      ensures View() == ExecLea(old(Abs()), reg)
    {
      hide IndexedAddress, Bit;
      IndexedMode();
      if !halted {
        if reg.X? || reg.Y? { Z := ea; }
        SetReg16Value(reg, ea);
      }
    }

    // ----- push and pull -----

    method PushRegisters(user: bool)
      modifies `pc, `s, `u, `mem, `clk
      ensures Abs() == ExecPsh(old(Abs()), user)
    {
      hide PushList, TotalSize, Bit, Cc;
      var post := ImmByte();
      ghost var t := Abs();
      clk := clk - 5;
      PushNothing(t, user);
      PushNames(user, post, t);
    }

    method PushNames(user: bool, post: byte, ghost t: State)
      requires Abs() == Pushed(t, user, [])
      modifies `s, `u, `mem, `clk
      ensures Abs() == Pushed(t, user, RegList(post))
    {
      hide Pushed, Bit, Abs;
      ghost var r7 := If(Bit(post, 7), RPC);
      ghost var r6 := If(Bit(post, 6), ROther) + r7;
      ghost var r5 := If(Bit(post, 5), RY) + r6;
      ghost var r4 := If(Bit(post, 4), RX) + r5;
      ghost var r3 := If(Bit(post, 3), RDP) + r4;
      ghost var r2 := If(Bit(post, 2), RB) + r3;
      ghost var r1 := If(Bit(post, 1), RA) + r2;
      assert r7 + [] == r7;
      PushNamed(user, Bit(post, 7), RPC, t, []);
      PushNamed(user, Bit(post, 6), ROther, t, r7);
      PushNamed(user, Bit(post, 5), RY, t, r6);
      PushNamed(user, Bit(post, 4), RX, t, r5);
      PushNamed(user, Bit(post, 3), RDP, t, r4);
      PushNamed(user, Bit(post, 2), RB, t, r3);
      PushNamed(user, Bit(post, 1), RA, t, r2);
      PushNamed(user, Bit(post, 0), RCC, t, r1);
    }

    method PullRegisters(user: bool)
      modifies `a, `b, `dp, `x, `y, `u, `s, `pc, `EFI, `H, `N, `Z, `OV, `C, `ccChanged, `clk
      ensures Abs() == ExecPul(old(Abs()), user)
    {
      hide PullList, TotalSize, Bit, Cc, RegList;
      var post := ImmByte();
      ghost var t := Abs();
      clk := clk - 5;
      PullSpend(t, user, RegList(post), 5);
      PullNames(user, post, ExecPul(old(Abs()), user));
      PullNothing(Abs(), user);
    }

    method PullNames(user: bool, post: byte, ghost goal: State)
      requires StillToPull(Abs(), user, RegList(post)) == goal
      modifies `a, `b, `dp, `x, `y, `u, `s, `pc, `EFI, `H, `N, `Z, `OV, `C, `ccChanged, `clk
      ensures StillToPull(Abs(), user, []) == goal
    {
      hide StillToPull, Bit, Abs;
      ghost var r7 := If(Bit(post, 7), RPC);
      ghost var r6 := If(Bit(post, 6), ROther) + r7;
      ghost var r5 := If(Bit(post, 5), RY) + r6;
      ghost var r4 := If(Bit(post, 4), RX) + r5;
      ghost var r3 := If(Bit(post, 3), RDP) + r4;
      ghost var r2 := If(Bit(post, 2), RB) + r3;
      ghost var r1 := If(Bit(post, 1), RA) + r2;
      assert r7 + [] == r7;
      PullNamed(user, Bit(post, 0), RCC, r1, goal);
      PullNamed(user, Bit(post, 1), RA, r2, goal);
      PullNamed(user, Bit(post, 2), RB, r3, goal);
      PullNamed(user, Bit(post, 3), RDP, r4, goal);
      PullNamed(user, Bit(post, 4), RX, r5, goal);
      PullNamed(user, Bit(post, 5), RY, r6, goal);
      PullNamed(user, Bit(post, 6), ROther, r7, goal);
      PullNamed(user, Bit(post, 7), RPC, [], goal);
    }

    // ----- register transfers -----

    method RegNumber(nro: nat) returns (v: word)
      ensures v == GetReg(Abs(), nro)
    {
      hide Cc, Pack;
      var cc := GetCc();
      v := if nro == 0 then Join(a, b) else if nro == 1 then x else if nro == 2 then y
           else if nro == 3 then u else if nro == 4 then s else if nro == 5 then pc
           else if nro == 8 then a else if nro == 9 then b else if nro == 10 then cc
           else if nro == 11 then dp else 0xff;
    }

    method SetRegNumber(nro: nat, v: word)
      requires nro >= 8 ==> v < 256
      modifies `a, `b, `dp, `x, `y, `u, `s, `pc, `EFI, `H, `N, `Z, `OV, `C, `ccChanged
      ensures Abs() == SetReg(old(Abs()), nro, v)
    {
      if nro < 8 { SetWideRegister(nro, v); } else { SetByteRegister(nro, v); }
    }

    method SetWideRegister(nro: nat, v: word)
      requires nro < 8
      modifies `a, `b, `x, `y, `u, `s, `pc
      ensures Abs() == SetReg(old(Abs()), nro, v)
    {
      hide Cc;
      if nro == 0 { a, b := v / 256, v % 256; }
      else if nro == 1 { x := v; }
      else if nro == 2 { y := v; }
      else if nro == 3 { u := v; }
      else if nro == 4 { s := v; }
      else if nro == 5 { pc := v; }
    }

    method SetByteRegister(nro: nat, v: byte)
      requires nro >= 8
      modifies `a, `b, `dp, `EFI, `H, `N, `Z, `OV, `C, `ccChanged
      ensures Abs() == SetReg(old(Abs()), nro, v)
    {
      hide Cc, SetCc;
      if nro == 8 { a := v; }
      else if nro == 9 { b := v; }
      else if nro == 10 { ReplaceCc(v); }
      else if nro == 11 { dp := v; }
    }

    method Exchange()
      modifies `a, `b, `dp, `x, `y, `u, `s, `pc, `EFI, `H, `N, `Z, `OV, `C, `ccChanged, `clk
      ensures Abs() == ExecExg(old(Abs()))
    {
      hide Plus, GetReg, SetReg, Cc, Bit;
      var post := ImmByte();
      ghost var t := Abs();
      WidthBits(post);
      var v1: word, v2: word := 0xff, 0xff;
      if Bit(post, 7) == Bit(post, 3) {
        v1 := RegNumber(post / 16);
        v2 := RegNumber(post % 16);
      }
      assert v1 == Source(t, post, post / 16) && v2 == Source(t, post, post % 16);
      SetBoth(post % 16, v1, post / 16, v2);
      clk := clk - 8;
    }

    method SetBoth(n1: nat, v1: word, n2: nat, v2: word)
      requires (n1 >= 8 ==> v1 < 256) && (n2 >= 8 ==> v2 < 256)
      modifies `a, `b, `dp, `x, `y, `u, `s, `pc, `EFI, `H, `N, `Z, `OV, `C, `ccChanged
      ensures Abs() == SetReg(SetReg(old(Abs()), n1, v1), n2, v2)
    {
      hide Abs, SetReg;
      SetRegNumber(n1, v1);
      SetRegNumber(n2, v2);
    }

    method Transfer()
      modifies `a, `b, `dp, `x, `y, `u, `s, `pc, `EFI, `H, `N, `Z, `OV, `C, `ccChanged, `clk
      ensures Abs() == ExecTfr(old(Abs()))
    {
      hide Plus, GetReg, SetReg, Cc, Bit;
      var post := ImmByte();
      WidthBits(post);
      var v: word := 0xff;
      if Bit(post, 7) == Bit(post, 3) {
        v := RegNumber(post / 16);
      }
      SetRegNumber(post % 16, v);
      clk := clk - 6;
    }

    method FetchMask() returns (m: byte)
      modifies `pc, `clk
      ensures m == mem[old(pc)] && Abs() == Skip(Spend(old(Abs()), 3), 1)
    {
      hide Cc, Plus;
      m := ImmByte();
      clk := clk - 3;
    }

    method ReplaceCc(v: byte)
      modifies `EFI, `H, `N, `Z, `OV, `C, `ccChanged
      ensures Abs() == SetCc(old(Abs()), v)
    {
      hide Cc, Unpack;
      SetCcByte(v);
    }

    method OrCc()
      modifies `pc, `EFI, `H, `N, `Z, `OV, `C, `ccChanged, `clk
      ensures Abs() == ExecOrcc(old(Abs()))
    {
      hide Plus, Cc, Or, Pack, SetCc;
      var cc := GetCc();
      var m := FetchMask();
      ByteOps(cc, m);
      ReplaceCc(Or(cc, m));
    }

    method AndCc()
      modifies `pc, `EFI, `H, `N, `Z, `OV, `C, `ccChanged, `clk
      ensures Abs() == ExecAndcc(old(Abs()))
    {
      hide Plus, Cc, And, Pack, SetCc;
      var cc := GetCc();
      var m := FetchMask();
      ByteOps(cc, m);
      ReplaceCc(And(cc, m));
    }

    // ----- interrupts -----

    method SetEfi(k: nat, on: bool)
      requires k < 8
      modifies `EFI
      ensures forall j: nat :: Bit(EFI, j) == if j == k then on else Bit(old(EFI), j)
    {
      hide Bit;
      SetByteBit(EFI, k);
      EFI := if on then SetBit(EFI, k) else ClearBit(EFI, k);
    }

    method PushFullFrame()
      modifies `s, `u, `mem
      ensures Abs() == PushList(old(Abs()), false, FULL_FRAME)
    {
      hide PushReg, Abs;
      PushRegOn(false, RPC);
      PushRegOn(false, ROther);
      PushRegOn(false, RY);
      PushRegOn(false, RX);
      PushRegOn(false, RDP);
      PushRegOn(false, RB);
      PushRegOn(false, RA);
      PushRegOn(false, RCC);
      FullFrameUnrolled(old(Abs()));
    }

    method PushShortFrame()
      modifies `s, `u, `mem
      ensures Abs() == PushList(old(Abs()), false, SHORT_FRAME)
    {
      hide PushReg, Abs;
      PushRegOn(false, RPC);
      PushRegOn(false, RCC);
      ShortFrameUnrolled(old(Abs()));
    }

    method StackMachineState(full: bool)
      modifies `EFI, `s, `u, `mem, `clk
      ensures Abs() == StackState(old(Abs()), full)
    {
      hide PushList, Bit;
      clk := clk - if full then 19 else 6;
      SetEfi(7, full);
      if full { PushFullFrame(); } else { PushShortFrame(); }
    }

    method EnterInterrupt(full: bool)
      modifies `EFI, `s, `u, `mem, `clk, `waiting
      ensures Abs() == EnterHandler(old(Abs()), full)
    {
      hide StackState, Cc;
      if waiting {
        waiting := false;
      } else {
        StackMachineState(full);
      }
    }

    method TakeIrq()
      modifies `EFI, `s, `u, `mem, `clk, `waiting, `pc
      ensures Abs() == Irq(old(Abs()))
    {
      hide EnterHandler, Bit;
      EnterInterrupt(true);
      SetEfi(4, true);
      pc := Read16(mem, 0xfff8);
    }

    method TakeFirq()
      modifies `EFI, `s, `u, `mem, `clk, `waiting, `pc
      ensures Abs() == Firq(old(Abs()))
    {
      hide EnterHandler, Bit;
      EnterInterrupt(false);
      SetEfi(4, true);
      SetEfi(6, true);
      pc := Read16(mem, 0xfff6);
    }

    method SoftwareInterrupt()
      modifies `EFI, `s, `u, `mem, `clk, `pc
      ensures Abs() == ExecSwi(old(Abs()))
    {
      hide StackState, Bit;
      StackMachineState(true);
      SetEfi(4, true);
      SetEfi(6, true);
      pc := Read16(mem, 0xfffa);
    }

    method SoftwareInterruptN(vector: word)
      modifies `EFI, `s, `u, `mem, `clk, `pc
      ensures Abs() == ExecSwiN(old(Abs()), vector)
    {
      hide StackState, Cc;
      clk := clk - 1;
      StackMachineState(true);
      pc := Read16(mem, vector);
    }

    method PullFullFrame()
      modifies `a, `b, `dp, `x, `y, `u, `s, `pc, `EFI, `H, `N, `Z, `OV, `C, `ccChanged
      ensures Abs() == PullList(old(Abs()), false, [RA, RB, RDP, RX, RY, ROther])
    {
      hide PullReg, Abs;
      PullRegFrom(false, RA);
      PullRegFrom(false, RB);
      PullRegFrom(false, RDP);
      PullRegFrom(false, RX);
      PullRegFrom(false, RY);
      PullRegFrom(false, ROther);
      PullUnrolled(old(Abs()));
    }

    method PullRestOfFrame()
      modifies `a, `b, `dp, `x, `y, `u, `s, `pc, `EFI, `H, `N, `Z, `OV, `C, `ccChanged, `clk
      ensures Abs() == if old(Cc()).e then PullList(Spend(old(Abs()), 9), false, [RA, RB, RDP, RX, RY, ROther]) else old(Abs())
    {
      hide PullList, Bit;
      if Bit(EFI, 7) {
        clk := clk - 9;
        PullFullFrame();
      }
    }

    method ReturnFromInterrupt()
      modifies `a, `b, `dp, `x, `y, `u, `s, `pc, `EFI, `H, `N, `Z, `OV, `C, `ccChanged, `clk
      ensures Abs() == ExecRti(old(Abs()))
    {
      hide PullReg, PullList, Cc;
      clk := clk - 6;
      PullRegFrom(false, RCC);
      PullRestOfFrame();
      PullRegFrom(false, RPC);
    }

    method MaskEfiBits(m: byte)
      modifies `EFI
      ensures Cc() == CwaiMask(old(Cc()), m)
    {
      hide Bit, And;
      ByteOps(EFI, m);
      AndBit(EFI, m, 7); AndBit(EFI, m, 6); AndBit(EFI, m, 4);
      EFI := And(EFI, m);
    }

    method MaskForWait()
      modifies `pc, `EFI, `clk
      ensures Abs() == Skip(Spend(old(Abs()), 1), 1).(cc := CwaiMask(old(Cc()), mem[old(pc)]))
    {
      hide Plus, CwaiMask, Cc;
      var m := ImmByte();
      MaskEfiBits(m);
      clk := clk - 1;
    }

    method WaitForInterrupt()
      modifies `pc, `EFI, `s, `u, `mem, `clk, `waiting
      ensures Abs() == ExecCwai(old(Abs()))
    {
      hide Plus, StackState, CwaiMask, Cc;
      if waiting {
        clk := clk - 1;
        pc := Plus(pc, -1);
      } else {
        MaskForWait();
        StackMachineState(true);
        waiting := true;
        pc := Plus(pc, -2);
      }
    }

    method CheckPending()
      modifies `EFI, `s, `u, `mem, `clk, `waiting, `pc, `ccChanged
      ensures Abs() == CcModified(old(Abs()))
    {
      hide Irq, Firq, Bit;
      if firqs != 0 && !Bit(EFI, 6) {
        TakeFirq();
      } else if irqs != 0 && !Bit(EFI, 4) {
        TakeIrq();
      }
      ccChanged := false;
    }

    method RequestIrqLine(source: nat)
      modifies `irqs, `EFI, `s, `u, `mem, `clk, `waiting, `pc
      ensures Abs() == RequestIrq(old(Abs()), source)
    {
      hide Irq, Bit, SetBit;
      irqs := SetBit(irqs, source);
      if !Bit(EFI, 4) { TakeIrq(); }
    }

    method ReleaseIrqLine(source: nat)
      modifies `irqs
      ensures Abs() == ReleaseIrq(old(Abs()), source)
    {
      irqs := ClearBit(irqs, source);
    }

    method RequestFirqLine(source: nat)
      modifies `firqs, `EFI, `s, `u, `mem, `clk, `waiting, `pc
      ensures Abs() == RequestFirq(old(Abs()), source)
    {
      hide Firq, Bit, SetBit;
      firqs := SetBit(firqs, source);
      if !Bit(EFI, 6) { TakeFirq(); }
    }

    method ReleaseFirqLine(source: nat)
      modifies `firqs
      ensures Abs() == ReleaseFirq(old(Abs()), source)
    {
      firqs := ClearBit(firqs, source);
    }

    // ----- the execution loop -----

    predicate InMemory(i: Insn) {
      i.UnaryMem? || i.BinaryAcc? || i.Store8? || i.Arith16? || i.Cmp16? || i.Load16? || i.Store16? || i.Lea? || i.Jmp? || i.Jsr?
    }

    method DispatchMemory(i: Insn)
      requires !halted && InMemory(i) && Encodable(i)
      modifies `a, `b, `dp, `x, `y, `u, `s, `pc, `EFI, `H, `N, `Z, `OV, `C, `mem, `ea, `clk, `ccChanged, `waiting, `halted
      ensures View() == Exec(old(Abs()), i)
    {
      hide ExecUnaryMem, ExecBinary, ExecStore8, ExecArith16, ExecCmp16, ExecLoad16, ExecStore16, ExecLea, ExecJmp, ExecJsr, Abs;
      match i {
        case UnaryMem(op, mode) => UnaryOnMem(op, mode);
        case BinaryAcc(op, acc, mode) => BinaryOnAcc(op, acc, mode);
        case Store8(acc, mode) => StoreAcc(acc, mode);
        case Arith16(subtract, mode) => ArithmeticD(subtract, mode);
        case Cmp16(reg, mode, base) => CompareReg(reg, mode, base);
        case Load16(reg, mode, base) => LoadReg(reg, mode, base);
        case Store16(reg, mode, base) => StoreReg(reg, mode, base);
        case Lea(reg) => LoadEffective(reg);
        case Jmp(mode) => Jump(mode);
        case Jsr(mode) => JumpSubroutine(mode);
      }
    }

    predicate InFlow(i: Insn) {
      i.Bra? || i.LongBra? || i.Brn? || i.LongBrn? || i.Branch? || i.LongBranch?
    }

    method DispatchFlow(i: Insn)
      requires !halted && InFlow(i)
      modifies `pc, `clk
      ensures Running(Abs()) == Exec(old(Abs()), i)
    {
      hide Cc, Plus, ShortTarget, LongTarget, Taken;
      match i {
        case Bra => ShortBranch(true);
        case LongBra => LongBranchAlways();
        case Brn => pc := Plus(pc, 1); clk := clk - 3;
        case LongBrn => pc := Plus(pc, 2); clk := clk - 5;
        case Branch(k) => CondFromCc(k); ShortBranch(CondHolds(k));
        case LongBranch(k) => CondFromCc(k); LongBranchTo(CondHolds(k));
      }
    }

    predicate InSystem(i: Insn) {
      i.Rti? || i.Cwai? || i.Swi? || i.Swi2? || i.Swi3? || i.Orcc? || i.Andcc?
    }

    method DispatchSystem(i: Insn)
      requires InSystem(i)
      modifies `a, `b, `dp, `x, `y, `u, `s, `pc, `EFI, `H, `N, `Z, `OV, `C, `mem, `ea, `clk, `ccChanged, `waiting, `halted
      ensures Running(Abs()) == Exec(old(Abs()), i) && halted == old(halted)
    {
      hide ExecRti, ExecCwai, ExecSwi, ExecSwiN, ExecOrcc, ExecAndcc, Abs;
      match i {
        case Rti => ReturnFromInterrupt();
        case Cwai => WaitForInterrupt();
        case Swi => SoftwareInterrupt();
        case Swi2 => SoftwareInterruptN(0xfff4);
        case Swi3 => SoftwareInterruptN(0xfff2);
        case Orcc => OrCc();
        case Andcc => AndCc();
      }
    }

    method ReturnFromSubroutine()
      modifies `a, `b, `dp, `x, `y, `u, `s, `pc, `EFI, `H, `N, `Z, `OV, `C, `clk, `ccChanged
      ensures Abs() == PullReg(Spend(old(Abs()), 5), false, RPC)
    {
      hide PullReg, Cc;
      clk := clk - 5;
      PullRegFrom(false, RPC);
    }

    predicate InMoves(i: Insn) {
      i.Bsr? || i.LongBsr? || i.Rts? || i.Psh? || i.Pul? || i.Exg? || i.Tfr?
    }

    method DispatchMoves(i: Insn)
      requires InMoves(i)
      modifies `a, `b, `dp, `x, `y, `u, `s, `pc, `EFI, `H, `N, `Z, `OV, `C, `mem, `ea, `clk, `ccChanged, `waiting, `halted
      ensures Running(Abs()) == Exec(old(Abs()), i) && halted == old(halted)
    {
      hide ExecPsh, ExecPul, ExecExg, ExecTfr, Call, PullReg, Abs;
      match i {
        case Bsr => BranchSubroutine();
        case LongBsr => LongBranchSubroutine();
        case Rts => ReturnFromSubroutine();
        case Psh(user) => PushRegisters(user);
        case Pul(user) => PullRegisters(user);
        case Exg => Exchange();
        case Tfr => Transfer();
      }
    }

    /** The remaining instructions work on registers only. */
    method DispatchRegister(i: Insn)
      requires !halted && !InMemory(i) && !InFlow(i) && !InSystem(i) && !InMoves(i)
      modifies `a, `b, `dp, `x, `y, `u, `s, `pc, `EFI, `H, `N, `Z, `OV, `C, `mem, `ea, `clk, `ccChanged, `waiting, `halted
      ensures View() == Exec(old(Abs()), i)
    {
      hide Cc, Unary, MulFlags, Product, DecimalAdjust, SexFlags, Plus, Taken;
      match i {
        case UnaryAcc(op, acc) => UnaryOnAcc(op, acc);
        case Abx => x := Plus(x, b); clk := clk - 3;
        case Mul => Multiply(); JoinSplit(a, b);
        case Nop => clk := clk - 2;
        case Daa => DecimalAdjustA();
        case Sex => SignExtend();
        case Invalid => halted := true;
      }
    }

    method Dispatch(i: Insn)
      requires !halted && Encodable(i)
      modifies `a, `b, `dp, `x, `y, `u, `s, `pc, `EFI, `H, `N, `Z, `OV, `C, `mem, `ea, `clk, `ccChanged, `waiting, `halted
      ensures View() == Exec(old(Abs()), i)
    {
      hide Exec, Abs;
      if InMemory(i) {
        DispatchMemory(i);
      } else if InFlow(i) {
        DispatchFlow(i);
      } else if InSystem(i) {
        DispatchSystem(i);
      } else if InMoves(i) {
        DispatchMoves(i);
      } else {
        DispatchRegister(i);
      }
    }

    /** One turn of the loop in cpu_execute. */
    method StepOne()
      requires !halted
      modifies `a, `b, `dp, `x, `y, `u, `s, `pc, `EFI, `H, `N, `Z, `OV, `C, `mem, `ea, `clk, `ccChanged, `waiting, `halted
      ensures View() == Step(old(Abs()))
    {
      hide Exec, CcModified, Cc, Encodable, Decode, Decode10, Decode11;
      var opcode := ImmByte();
      var insn := Decode(opcode);
      DecodeEncodable(opcode);
      if opcode == 0x10 || opcode == 0x11 {
        var second := ImmByte();
        DecodeEncodable(second);
        insn := if opcode == 0x10 then Decode10(second) else Decode11(second);
      }
      PlusPlus(old(pc), 1, 1);
      Dispatch(insn);
      if !halted && ccChanged {
        CheckPending();
      }
    }

    /** cpu_execute: runs until the cycle budget is used up and returns the cycles spent. */
    method Execute(cycles: int) returns (spent: int)
      requires !halted && !ccChanged
      modifies this
      ensures halted <==> Budget.Run(old(Abs()).(clk := cycles)) == Halted
      ensures !halted ==> && Running(Abs().(clk := cycles - spent)) == Budget.Run(old(Abs()).(clk := cycles))
                          && clk == period == spent && !ccChanged
      ensures !halted && cycles >= 1 ==> cycles <= spent <= cycles + 35
      ensures !halted ==> spent == Budget.TotalCost(old(Abs()).(clk := cycles))
    {
      hide Step, Cc, Budget.TotalCost;
      clk := cycles;
      period := cycles;
      ghost var start := Abs();
      if cycles >= 1 { Budget.RunOverrun(start); }
      Budget.RunSumsCosts(start);
      Budget.StepCost(start);
      StepOne();
      while !halted && clk > 0
        invariant period == cycles
        invariant !halted ==> !ccChanged
        invariant Budget.Run(start) == if halted then Halted else if clk > 0 then Budget.Run(Abs()) else Running(Abs())
        decreases if halted || clk <= 0 then 0 else clk
      {
        Budget.StepCost(Abs());
        StepOne();
      }
      spent := 0;
      if !halted {
        period := period - clk;
        clk := period;
        spent := period;
      }
    }
  }

  /** Two processors that agree on everything but the contents of their flag words — in particular on
      get_cc — run any slice in step: same cycles, same registers, CC, memory and pending requests. */
  method RunBoth(p: Cpu, q: Cpu, cycles: int) returns (m: int, n: int)
    requires p != q && !p.halted && !q.halted && !p.ccChanged
    requires Pack(p.Cc()) == Pack(q.Cc()) && p.Abs().(cc := q.Cc()) == q.Abs()
    modifies p, q
    ensures p.halted == q.halted
    ensures !p.halted ==> m == n && p.Abs() == q.Abs() && Pack(p.Cc()) == Pack(q.Cc())
  {
    hide Pack, Unpack, Cpu.Cc, Budget.Run;
    UnpackPack(p.Cc()); UnpackPack(q.Cc());
    m := p.Execute(cycles);
    n := q.Execute(cycles);
  }

  /** What has been pushed after a block for bit k: the registers of the bits k and above. */
  function Pushed(t: State, user: bool, rs: seq<RegId>): State {
    Spend(PushList(t, user, rs), 5 + TotalSize(rs))
  }

  lemma PushNothing(t: State, user: bool)
    ensures Pushed(t, user, []) == Spend(t, 5)
  {
  }

  lemma PushStep(t: State, user: bool, named: bool, r: RegId, rest: seq<RegId>)
    ensures Pushed(t, user, If(named, r) + rest)
            == if named then Spend(PushReg(Pushed(t, user, rest), user, r), Size(r)) else Pushed(t, user, rest)
  {
    if named {
      assert ([r] + rest)[1..] == rest;
    } else {
      assert If(named, r) + rest == rest;
    }
  }

  /** What the machine will be once the remaining registers are pulled and paid for. */
  function StillToPull(s: State, user: bool, rs: seq<RegId>): State {
    Spend(PullList(s, user, rs), TotalSize(rs))
  }

  lemma PullNothing(s: State, user: bool)
    ensures StillToPull(s, user, []) == s
  {
  }

  lemma PullRegSpend(s: State, user: bool, r: RegId, n: int)
    ensures PullReg(Spend(s, n), user, r) == Spend(PullReg(s, user, r), n)
  {
    hide Unpack, Plus, Read16, Hi, Lo, Pack;
    match r { case RCC => case RA => case RB => case RDP => case RX => case RY => case ROther => case RPC => }
  }

  lemma {:induction false} PullSpend(s: State, user: bool, rs: seq<RegId>, n: int)
    ensures PullList(Spend(s, n), user, rs) == Spend(PullList(s, user, rs), n)
    decreases |rs|
  {
    hide PullReg;
    if rs != [] {
      PullRegSpend(s, user, rs[0], n);
      PullSpend(PullReg(s, user, rs[0]), user, rs[1..], n);
    }
  }

  lemma PullStep(s: State, user: bool, named: bool, r: RegId, rest: seq<RegId>)
    ensures StillToPull(s, user, If(named, r) + rest)
            == StillToPull(if named then Spend(PullReg(s, user, r), Size(r)) else s, user, rest)
  {
    if named {
      assert ([r] + rest)[1..] == rest;
      PullSpend(PullReg(s, user, r), user, rest, Size(r));
    } else {
      assert If(named, r) + rest == rest;
    }
  }

  lemma PushCons(t: State, r: RegId, rest: seq<RegId>)
    ensures PushList(t, false, [r] + rest) == PushReg(PushList(t, false, rest), false, r)
  {
    hide PushReg;
    assert ([r] + rest)[1..] == rest;
  }

  lemma ShortFrameUnrolled(t: State)
    ensures PushList(t, false, SHORT_FRAME) == PushReg(PushReg(t, false, RPC), false, RCC)
  {
    hide PushReg;
    PushCons(t, RPC, []); PushCons(t, RCC, [RPC]);
    assert [RPC] + [] == [RPC] && [RCC] + [RPC] == SHORT_FRAME;
  }

  lemma FullFrameUnrolled(t: State)
    ensures PushList(t, false, FULL_FRAME)
            == var p3 := PushReg(PushReg(PushReg(t, false, RPC), false, ROther), false, RY);
               var p5 := PushReg(PushReg(p3, false, RX), false, RDP);
               PushReg(PushReg(PushReg(p5, false, RB), false, RA), false, RCC)
  {
    hide PushReg, PushList;
    var l1 := [RPC] + [];
    var l2 := [ROther] + l1; var l3 := [RY] + l2; var l4 := [RX] + l3;
    var l5 := [RDP] + l4; var l6 := [RB] + l5; var l7 := [RA] + l6;
    assert [RCC] + l7 == FULL_FRAME;
    PushEmpty(t);
    PushCons(t, RPC, []); PushCons(t, ROther, l1); PushCons(t, RY, l2); PushCons(t, RX, l3);
    PushCons(t, RDP, l4); PushCons(t, RB, l5); PushCons(t, RA, l6); PushCons(t, RCC, l7);
  }

  lemma PushEmpty(t: State)
    ensures PushList(t, false, []) == t
  {
  }

  lemma PullUnrolled(t: State)
    ensures PullList(t, false, [RA, RB, RDP, RX, RY, ROther])
            == var p3 := PullReg(PullReg(PullReg(t, false, RA), false, RB), false, RDP);
               PullReg(PullReg(PullReg(p3, false, RX), false, RY), false, ROther)
  {
    hide PullReg;
    var p3 := PullReg(PullReg(PullReg(t, false, RA), false, RB), false, RDP);
    assert [RA, RB, RDP, RX, RY, ROther][1..] == [RB, RDP, RX, RY, ROther];
    assert [RB, RDP, RX, RY, ROther][1..] == [RDP, RX, RY, ROther];
    assert [RDP, RX, RY, ROther][1..] == [RX, RY, ROther];
    assert [RX, RY, ROther][1..] == [RY, ROther] && [RY, ROther][1..] == [ROther] && [ROther][1..] == [];
    assert PullList(t, false, [RA, RB, RDP, RX, RY, ROther]) == PullList(p3, false, [RX, RY, ROther]);
  }
}
