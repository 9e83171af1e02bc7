/** What one instruction does to the cycle counter, the program counter and the interrupt
    latches, summarised per instruction and proved from the architectural step. */
module Effects {
  import opened Words
  import opened Alu
  import opened Decoder
  import opened Arch

  // ----- cost and length tables -----

  /** Bytes an index post byte takes from the instruction stream after itself. */
  function PostExtra(post: byte): nat {
    var k := post % 16;
    if post < 128 then 0
    else if k == 8 || k == 12 then 1
    else if k == 9 || k == 13 || post % 32 == 31 then 2
    else 0
  }

  /** Cycles of an index post byte: the addressing mode, plus three for indirection. */
  function PostCost(post: byte): nat {
    var k := post % 16;
    if post < 128 then 5
    else (if k == 4 then 4
          else if k == 0 || k == 2 || k == 15 then 6
          else if k == 1 || k == 3 then 7
          else if k == 9 || k == 11 then 8
          else if k == 13 then 9
          else 5)
         + (if post % 32 >= 16 then 3 else 0)
  }

  function ModeLength(m: Memory, pc: word, mode: Mode, imm: nat): nat {
    match mode
    case Immediate => imm
    case Direct => 1
    case Indexed => 1 + PostExtra(m[pc])
    case Extended => 2
  }

  function ModeCost(m: Memory, pc: word, mode: Mode, base: int): int {
    match mode
    case Immediate => 0
    case Direct => base
    case Indexed => base - 4 + PostCost(m[pc])
    case Extended => base + 1
  }

  /** Operand bytes after the opcode. */
  function OperandLength(m: Memory, pc: word, i: Insn): nat {
    match i
    case UnaryMem(_, mode) => ModeLength(m, pc, mode, 0)
    case BinaryAcc(_, _, mode) => ModeLength(m, pc, mode, 1)
    case Store8(_, mode) => ModeLength(m, pc, mode, 0)
    case Arith16(_, mode) => ModeLength(m, pc, mode, 2)
    case Cmp16(_, mode, _) => ModeLength(m, pc, mode, 2)
    case Load16(_, mode, _) => ModeLength(m, pc, mode, 2)
    case Store16(_, mode, _) => ModeLength(m, pc, mode, 0)
    case Jmp(mode) => ModeLength(m, pc, mode, 0)
    case Jsr(mode) => ModeLength(m, pc, mode, 0)
    case Lea(_) => 1 + PostExtra(m[pc])
    case Bsr | Bra | Brn | Branch(_) | Psh(_) | Pul(_) | Cwai | Orcc | Andcc | Exg | Tfr => 1
    case LongBsr | LongBra | LongBrn | LongBranch(_) => 2
    case _ => 0
  }

  /** Cycles of an instruction that starts in state `s`, interrupt entry not included. */
  function InsnCost(s: State, i: Insn): int {
    match i
    case UnaryAcc(_, _) => 2
    case UnaryMem(_, mode) => ModeCost(s.mem, s.pc, mode, 4) + 2
    case BinaryAcc(_, _, mode) => if mode.Immediate? then 2 else ModeCost(s.mem, s.pc, mode, 4)
    case Store8(_, mode) => ModeCost(s.mem, s.pc, mode, 4)
    case Arith16(_, mode) => if mode.Immediate? then 4 else ModeCost(s.mem, s.pc, mode, 4) + 2
    case Cmp16(_, mode, base) => if mode.Immediate? then base else ModeCost(s.mem, s.pc, mode, base) + 2
    case Load16(_, mode, base) => if mode.Immediate? then base - 1 else ModeCost(s.mem, s.pc, mode, base) + 1
    case Store16(_, mode, base) => ModeCost(s.mem, s.pc, mode, base) + 1
    case Jmp(mode) => ModeCost(s.mem, s.pc, mode, 3)
    case Jsr(mode) => ModeCost(s.mem, s.pc, mode, 7)
    case Lea(_) => PostCost(s.mem[s.pc])
    case Bsr => 7
    case LongBsr => 9
    case Bra | Brn | Branch(_) | Abx | Orcc | Andcc => 3
    case LongBra | LongBrn | Rts => 5
    case LongBranch(k) => if Taken(k, s.cc) then 6 else 5
    case Psh(_) | Pul(_) => 5 + TotalSize(RegList(s.mem[s.pc]))
    case Rti => if Unpack(s.mem[s.s]).e then 15 else 6
    case Cwai => if s.waiting then 1 else 20
    case Mul => 11
    case Swi => 19
    case Swi2 | Swi3 => 20
    case Nop | Daa | Sex => 2
    case Exg => 8
    case Tfr => 6
    case Invalid => 0
  }

  // ----- effective addresses -----

  /** Nothing an interrupt depends on has changed. */
  predicate Quiet(s: State, t: State) {
    && t.irqs == s.irqs && t.firqs == s.firqs && t.waiting == s.waiting && t.ccChanged == s.ccChanged
    && t.cc.e == s.cc.e && t.cc.f == s.cc.f && t.cc.i == s.cc.i
  }

  /** An address computation that charges `cost` and consumes `len` bytes, and nothing else. */
  predicate Charged(s: State, l: Located, cost: int, len: nat) {
    match l
    case BadPost => true
    case At(t, ea) => Quiet(s, t) && t.mem == s.mem && t.cc == s.cc && t.clk == s.clk - cost && t.pc == Plus(s.pc, len)
  }

  lemma StepEffects(s: State, r: Reg16, m: nat)
    ensures Charged(s, IndexedStep(s, r, m), if m % 2 == 0 then 6 else 7, 0)
  {
    hide GetReg16;
  }

  lemma OffsetEffects(s: State, r: Reg16, k: nat)
    ensures Charged(s, IndexedOffset(s, r, k), if k == 4 then 4 else if k == 11 then 8 else 5, 0)
  {
    hide GetReg16, SignedByte;
  }

  lemma StreamEffects(s: State, r: Reg16, m: nat)
    requires m < 32
    ensures m % 16 == 10 || m % 16 == 14 || m == 15 ==> IndexedStream(s, r, m).BadPost?
    ensures var k := m % 16;
            Charged(s, IndexedStream(s, r, m),
                    if k == 9 then 8 else if k == 13 then 9 else if k == 15 then 6 else 5,
                    if k == 8 || k == 12 then 1 else 2)
  {
    hide GetReg16, SignedByte, Read16;
  }

  lemma BaseEffects(s: State, post: byte)
    ensures Charged(s, IndexedBase(s, post), PostCost(post) - (if post >= 128 && post % 32 >= 16 then 3 else 0), PostExtra(post))
  {
    hide GetReg16, SignedByte, Read16, IndexedStep, IndexedOffset, IndexedStream;
    var m := post % 32;
    assert m % 16 == post % 16;
    if post >= 128 {
      if m % 16 < 4 {
        StepEffects(s, IndexReg(post), m);
      } else if m % 16 < 8 || m % 16 == 11 {
        OffsetEffects(s, IndexReg(post), m % 16);
      } else {
        StreamEffects(s, IndexReg(post), m);
      }
    }
  }

  lemma IndexedEffects(s: State)
    ensures var post := s.mem[s.pc];
            Charged(s, IndexedAddress(s), PostCost(post), 1 + PostExtra(post))
  {
    hide IndexedBase, Read16, Bit, PostCost, PostExtra;
    var post := s.mem[s.pc];
    BaseEffects(Skip(s, 1), post);
    PlusPlus(s.pc, 1, PostExtra(post));
    LowBits(post);
  }

  lemma AddressEffects(s: State, mode: Mode, base: int)
    ensures Charged(s, Address(s, mode, base), ModeCost(s.mem, s.pc, mode, base), ModeLength(s.mem, s.pc, mode, 0))
  {
    hide IndexedAddress, Read16, PostCost, PostExtra;
    if mode.Indexed? {
      IndexedEffects(Spend(s, base - 4));
    }
  }

  // ----- instructions -----

  /** The outcome, when there is one, costs what the table says and moves PC past the operand. */
  predicate Ordinary(s: State, i: Insn, o: Outcome) {
    match o
    case Halted => true
    case Running(t) =>
      && Quiet(s, t) && t.clk == s.clk - InsnCost(s, i)
      && t.pc == Plus(s.pc, OperandLength(s.mem, s.pc, i))
  }

  lemma Memory8Effects(s: State, i: Insn)
    requires Encodable(i) && (i.UnaryMem? || i.BinaryAcc? || i.Store8?)
    ensures Ordinary(s, i, Exec(s, i))
  {
    hide Address, Unary, Binary, Logical;
    AddressEffects(s, i.mode, 4);
    FlagsKeepMasks();
  }

  lemma Memory16Effects(s: State, i: Insn)
    requires Encodable(i) && (i.Arith16? || i.Cmp16? || i.Load16? || i.Store16?)
    ensures Ordinary(s, i, Exec(s, i))
  {
    hide Exec, Ordinary;
    if i.Arith16? || i.Cmp16? { Compute16Effects(s, i); } else { Move16Effects(s, i); }
  }

  lemma Compute16Effects(s: State, i: Insn)
    requires Encodable(i) && (i.Arith16? || i.Cmp16?)
    ensures Ordinary(s, i, Exec(s, i))
  {
    hide Address, Read16, Plus, SignedWord;
    AddressEffects(s, i.mode, if i.Arith16? then 4 else i.base);
  }

  lemma Move16Effects(s: State, i: Insn)
    requires Encodable(i) && (i.Load16? || i.Store16?)
    ensures Ordinary(s, i, Exec(s, i))
  {
    hide Address, Read16, Write16, Plus;
    AddressEffects(s, i.mode, i.base);
  }

  predicate KeepsMasks(cc: Flags, d: Flags) { d.e == cc.e && d.f == cc.f && d.i == cc.i }

  lemma UnaryKeeps(op: UnaryOp, x: byte, cc: Flags)
    ensures KeepsMasks(cc, Unary(op, x, cc).cc)
  {
    hide SignedByte;
  }

  lemma BinaryKeeps(op: BinaryOp, x: byte, y: byte, cc: Flags)
    ensures KeepsMasks(cc, Binary(op, x, y, cc).cc)
  {
    hide SignedByte, And, Or, Xor;
  }

  /** No ALU operation touches E, F or I. */
  lemma FlagsKeepMasks()
    ensures forall op: UnaryOp, x: byte, cc: Flags :: KeepsMasks(cc, Unary(op, x, cc).cc)
    ensures forall op: BinaryOp, x: byte, y: byte, cc: Flags :: KeepsMasks(cc, Binary(op, x, y, cc).cc)
    ensures forall x: byte, cc: Flags :: KeepsMasks(cc, Logical(x, cc).cc)
  {
    hide Unary, Binary;
    forall op: UnaryOp, x: byte, cc: Flags ensures KeepsMasks(cc, Unary(op, x, cc).cc) { UnaryKeeps(op, x, cc); }
    forall op: BinaryOp, x: byte, y: byte, cc: Flags ensures KeepsMasks(cc, Binary(op, x, y, cc).cc) {
      BinaryKeeps(op, x, y, cc);
    }
  }

  lemma RegisterEffects(s: State, i: Insn)
    requires i.UnaryAcc? || i.Abx? || i.Mul? || i.Nop? || i.Daa? || i.Sex? || i.Brn? || i.LongBrn? || i.Invalid?
    ensures Ordinary(s, i, Exec(s, i))
  {
    hide Unary, Product, DecimalAdjust;
    FlagsKeepMasks();
    DaaKeeps(s.a, s.cc);
  }

  lemma LeaEffects(s: State, reg: Reg16)
    ensures Ordinary(s, Lea(reg), ExecLea(s, reg))
  {
    hide IndexedAddress, PostCost, PostExtra;
    IndexedEffects(s);
  }

  lemma DaaKeeps(a: byte, cc: Flags)
    ensures KeepsMasks(cc, DecimalAdjust(a, cc).cc)
  {
  }

  /** Transfers of control: everything as usual except where PC goes. */
  predicate Transfer(i: Insn) {
    i.Jmp? || i.Jsr? || i.Bsr? || i.LongBsr? || i.Bra? || i.LongBra? || i.Branch? || i.LongBranch? || i.Rts?
  }

  predicate Paid(s: State, i: Insn, o: Outcome) {
    match o
    case Halted => true
    case Running(t) => Quiet(s, t) && t.clk == s.clk - InsnCost(s, i)
  }

  lemma TransferEffects(s: State, i: Insn)
    requires Encodable(i) && Transfer(i)
    ensures Paid(s, i, Exec(s, i))
  {
    hide Address, ShortTarget, LongTarget, Taken, Read16;
    if i.Jmp? { AddressEffects(s, i.mode, 3); }
    if i.Jsr? { AddressEffects(s, i.mode, 7); }
  }

  lemma {:induction false} PushListFrame(s: State, user: bool, rs: seq<RegId>)
    ensures var t := PushList(s, user, rs); Quiet(s, t) && t.clk == s.clk && t.pc == s.pc && t.cc == s.cc
  {
    if rs != [] {
      PushListFrame(s, user, rs[1..]);
      PushRegFrame(PushList(s, user, rs[1..]), user, rs[0]);
    }
  }

  lemma PushRegFrame(s: State, user: bool, r: RegId)
    ensures var t := PushReg(s, user, r); Quiet(s, t) && t.clk == s.clk && t.pc == s.pc && t.cc == s.cc
  {
    hide Pack, Plus;
  }

  /** Pulling keeps the latches; the masks can change only together with ccChanged. */
  predicate Pulled(s: State, t: State) {
    && t.irqs == s.irqs && t.firqs == s.firqs && t.waiting == s.waiting && t.clk == s.clk && t.mem == s.mem
    && (t.ccChanged || Quiet(s, t))
  }

  lemma {:induction false} PullListFrame(s: State, user: bool, rs: seq<RegId>)
    ensures Pulled(s, PullList(s, user, rs))
    ensures RPC !in rs ==> PullList(s, user, rs).pc == s.pc
    decreases |rs|
  {
    hide PullReg;
    if rs != [] {
      PullRegFrame(s, user, rs[0]);
      PullListFrame(PullReg(s, user, rs[0]), user, rs[1..]);
    }
  }

  lemma PullRegFrame(s: State, user: bool, r: RegId)
    ensures Pulled(s, PullReg(s, user, r))
    ensures s.ccChanged ==> PullReg(s, user, r).ccChanged
    ensures r != RPC ==> PullReg(s, user, r).pc == s.pc
  {
    hide Unpack, Plus, Read16;
  }

  lemma PshEffects(s: State, user: bool)
    ensures Ordinary(s, Psh(user), Running(ExecPsh(s, user)))
  {
    hide RegList, PushList, TotalSize;
    PushListFrame(Skip(s, 1), user, RegList(s.mem[s.pc]));
  }

  /** The instructions that may load the condition code register as a whole. */
  predicate LoadsCc(i: Insn) { i.Pul? || i.Rti? || i.Orcc? || i.Andcc? || i.Exg? || i.Tfr? }

  /** Such an instruction either raises ccChanged or leaves the masks alone. */
  predicate Reloaded(s: State, i: Insn, t: State) {
    && t.irqs == s.irqs && t.firqs == s.firqs && t.clk == s.clk - InsnCost(s, i)
    && (t.ccChanged || Quiet(s, t))
  }

  lemma PulEffects(s: State, user: bool)
    ensures Reloaded(s, Pul(user), ExecPul(s, user))
  {
    hide RegList, PullList, TotalSize;
    PullListFrame(Skip(s, 1), user, RegList(s.mem[s.pc]));
  }

  lemma RtiEffects(s: State)
    ensures Reloaded(s, Rti, ExecRti(s)) && ExecRti(s).ccChanged
  {
    hide PullList, PullReg;
    var t := PullReg(Spend(s, 6), false, RCC);
    assert t.cc == Unpack(s.mem[s.s]) && t.ccChanged by { RtiFirst(Spend(s, 6)); }
    PullRegFrame(Spend(s, 6), false, RCC);
    PullListFrame(Spend(t, 9), false, [RA, RB, RDP, RX, RY, ROther]);
    PullCcKept(Spend(t, 9), [RA, RB, RDP, RX, RY, ROther]);
    PullRegFrame(if t.cc.e then PullList(Spend(t, 9), false, [RA, RB, RDP, RX, RY, ROther]) else t, false, RPC);
  }

  lemma RtiFirst(s: State)
    ensures var t := PullReg(s, false, RCC); t.cc == Unpack(s.mem[s.s]) && t.ccChanged
  {
    hide Unpack, Plus;
  }

  lemma {:induction false} PullCcKept(s: State, rs: seq<RegId>)
    ensures s.ccChanged ==> PullList(s, false, rs).ccChanged
    decreases |rs|
  {
    hide PullReg;
    if rs != [] {
      PullRegFrame(s, false, rs[0]);
      PullCcKept(PullReg(s, false, rs[0]), rs[1..]);
    }
  }

  lemma ReloadEffects(s: State, i: Insn)
    requires i.Orcc? || i.Andcc? || i.Exg? || i.Tfr?
    ensures Exec(s, i).Running? && Reloaded(s, i, Exec(s, i).st)
  {
    hide And, Or, Unpack, Pack, GetReg, SetReg, Source;
    if i.Exg? || i.Tfr? {
      var post := s.mem[s.pc];
      var t := Skip(s, 1);
      WidthBits(post);
      SetRegFrame(t, post % 16, Source(t, post, post / 16));
      SetRegFrame(SetReg(t, post % 16, Source(t, post, post / 16)), post / 16, Source(t, post, post % 16));
    }
  }

  lemma SetRegFrame(s: State, nro: nat, v: word)
    requires nro >= 8 ==> v < 256
    ensures var t := SetReg(s, nro, v);
            && t.irqs == s.irqs && t.firqs == s.firqs && t.clk == s.clk
            && (t.ccChanged || Quiet(s, t)) && (s.ccChanged ==> t.ccChanged)
  {
    hide Unpack;
  }

  predicate Assigned(nro: nat) { nro <= 5 || 8 <= nro <= 11 }

  /** Registers of one width are independent of each other, CC read and written through its byte. */
  lemma ReadBack(s: State, n: nat, v: word, m: nat)
    requires Assigned(n) && Assigned(m) && (n >= 8 <==> m >= 8) && (n >= 8 ==> v < 256)
    ensures GetReg(SetReg(s, n, v), m) == if m == n then v else GetReg(s, m)
  {
    hide Pack, Unpack, Join, Hi, Lo;
    JoinHiLo(v);
    if n == 10 { PackUnpack(v); }
  }

  /** EXG on two registers of one width swaps them and leaves every other register of that width. */
  lemma ExchangeSwaps(s: State, m: nat)
    requires var post := s.mem[s.pc];
             && Assigned(post / 16) && Assigned(post % 16) && Assigned(m)
             && (post / 16 >= 8 <==> post % 16 >= 8) && (m >= 8 <==> post % 16 >= 8)
    ensures var hi, lo := s.mem[s.pc] / 16, s.mem[s.pc] % 16;
            GetReg(ExecExg(s), m) == GetReg(Skip(s, 1), if m == hi then lo else if m == lo then hi else m)
  {
    hide GetReg, SetReg, Bit;
    var post := s.mem[s.pc];
    var t := Skip(s, 1);
    WidthBits(post);
    var v1, v2 := GetReg(t, post / 16), GetReg(t, post % 16);
    var u := SetReg(t, post % 16, v1);
    ReadBack(t, post % 16, v1, m);
    ReadBack(u, post / 16, v2, m);
    ClockKeeps(SetReg(u, post / 16, v2), 8, m);
  }

  /** TFR copies the first register to the second. */
  lemma TransferCopies(s: State, m: nat)
    requires var post := s.mem[s.pc];
             && Assigned(post / 16) && Assigned(post % 16) && Assigned(m)
             && (post / 16 >= 8 <==> post % 16 >= 8) && (m >= 8 <==> post % 16 >= 8)
    ensures var hi, lo := s.mem[s.pc] / 16, s.mem[s.pc] % 16;
            GetReg(ExecTfr(s), m) == GetReg(Skip(s, 1), if m == lo then hi else m)
  {
    hide GetReg, SetReg, Bit;
    var post := s.mem[s.pc];
    var t := Skip(s, 1);
    WidthBits(post);
    var v := GetReg(t, post / 16);
    ReadBack(t, post % 16, v, m);
    ClockKeeps(SetReg(t, post % 16, v), 6, m);
  }

  lemma ClockKeeps(s: State, n: int, m: nat)
    ensures GetReg(Spend(s, n), m) == GetReg(s, m)
  {
    hide Pack;
  }

  /** Stacking the machine changes E and nothing else an interrupt depends on. */
  lemma StackEffects(s: State, full: bool)
    ensures var t := StackState(s, full);
            && Quiet(s.(cc := s.cc.(e := full)), t) && t.clk == s.clk - (if full then 19 else 6) && t.pc == s.pc
  {
    hide PushList;
    PushListFrame(Spend(s, if full then 19 else 6).(cc := s.cc.(e := full)), false,
                  if full then FULL_FRAME else SHORT_FRAME);
  }

  lemma SwiEffects(s: State, i: Insn)
    requires i.Swi? || i.Swi2? || i.Swi3?
    ensures Exec(s, i).Running?
    ensures var t := Exec(s, i).st;
            && t.irqs == s.irqs && t.firqs == s.firqs && t.ccChanged == s.ccChanged && t.waiting == s.waiting
            && t.clk == s.clk - InsnCost(s, i)
            && (s.cc.f ==> t.cc.f) && (s.cc.i ==> t.cc.i)
  {
    hide StackState, Read16;
    StackEffects(s, true);
    StackEffects(Spend(s, 1), true);
  }

  lemma CwaiEffects(s: State)
    ensures var t := ExecCwai(s);
            && t.irqs == s.irqs && t.firqs == s.firqs && t.ccChanged == s.ccChanged && t.waiting
            && t.clk == s.clk - InsnCost(s, Cwai)
            && t.cc.f == (s.cc.f && (s.waiting || Bit(s.mem[s.pc], 6)))
            && t.cc.i == (s.cc.i && (s.waiting || Bit(s.mem[s.pc], 4)))
  {
    hide StackState, Bit;
    StackEffects(Skip(Spend(s, 1), 1).(cc := CwaiMask(s.cc, s.mem[s.pc])), true);
  }
}
