/** The architectural machine: the programmer-visible 6809 with an eight-bit condition code
    register, a flat 64K memory, the cycle counter and the interrupt latches.  `Step` is one
    turn of the execution loop.  The emulator proper (module Cpu6809) is proved to refine it. */
module Arch {
  import opened Words
  import opened Alu
  import opened Decoder

  type Memory = m: seq<byte> | |m| == 65536 witness seq(65536, _ => 0)

  /** `irqs` and `firqs` are the pending words, one bit a source line, `waiting` is CWAI_STATE_WAIT and `clk` is cpu_clk. */
  datatype State = State(a: byte, b: byte, dp: byte, x: word, y: word, u: word, s: word, pc: word,
                         cc: Flags, mem: Memory, clk: int,
                         ccChanged: bool, irqs: nat, firqs: nat, waiting: bool)

  /** sim_error ends the emulator. */
  datatype Outcome = Halted | Running(st: State)

  // ----- registers -----

  function GetAcc(s: State, acc: Acc): byte { if acc == AccA then s.a else s.b }
  function SetAcc(s: State, acc: Acc, v: byte): State { if acc == AccA then s.(a := v) else s.(b := v) }

  function GetReg16(s: State, r: Reg16): word {
    match r case D => Join(s.a, s.b) case X => s.x case Y => s.y case U => s.u case S => s.s
  }

  function SetReg16(s: State, r: Reg16, v: word): State {
    match r
    case D => s.(a := Hi(v), b := Lo(v))
    case X => s.(x := v)
    case Y => s.(y := v)
    case U => s.(u := v)
    case S => s.(s := v)
  }

  function SetCc(s: State, b: byte): State { s.(cc := Unpack(b), ccChanged := true) }

  /** Register numbers of EXG and TFR.  Unassigned numbers read 0xff and ignore writes. */
  function GetReg(s: State, nro: nat): (v: word)
    ensures nro >= 8 ==> v < 256
  {
    if nro == 0 then Join(s.a, s.b) else if nro == 1 then s.x else if nro == 2 then s.y
    else if nro == 3 then s.u else if nro == 4 then s.s else if nro == 5 then s.pc
    else if nro == 8 then s.a else if nro == 9 then s.b else if nro == 10 then Pack(s.cc)
    else if nro == 11 then s.dp else 0xff
  }

  function SetReg(s: State, nro: nat, v: word): State
    requires nro >= 8 ==> v < 256
  {
    if nro == 0 then s.(a := Hi(v), b := Lo(v)) else if nro == 1 then s.(x := v)
    else if nro == 2 then s.(y := v) else if nro == 3 then s.(u := v) else if nro == 4 then s.(s := v)
    else if nro == 5 then s.(pc := v) else if nro == 8 then s.(a := v) else if nro == 9 then s.(b := v)
    else if nro == 10 then SetCc(s, v) else if nro == 11 then s.(dp := v) else s
  }

  // ----- memory and fetch -----

  function Read16(m: Memory, a: word): word { Join(m[a], m[Plus(a, 1)]) }

  function Write16(m: Memory, a: word, v: word): Memory { m[a := Hi(v)][Plus(a, 1) := Lo(v)] }

  function Skip(s: State, n: int): State { s.(pc := Plus(s.pc, n)) }

  function Spend(s: State, n: int): State { s.(clk := s.clk - n) }

  // ----- stacks: user selects U, otherwise S -----

  datatype RegId = RCC | RA | RB | RDP | RX | RY | ROther | RPC

  function Size(r: RegId): nat { if r.RCC? || r.RA? || r.RB? || r.RDP? then 1 else 2 }

  function TotalSize(rs: seq<RegId>): nat { if rs == [] then 0 else Size(rs[0]) + TotalSize(rs[1..]) }

  function Sp(s: State, user: bool): word { if user then s.u else s.s }
  function WithSp(s: State, user: bool, p: word): State { if user then s.(u := p) else s.(s := p) }

  function PushByte(s: State, user: bool, v: byte): State {
    var p := Plus(Sp(s, user), -1);
    WithSp(s.(mem := s.mem[p := v]), user, p)
  }

  function PushWord(s: State, user: bool, w: word): State {
    PushByte(PushByte(s, user, Lo(w)), user, Hi(w))
  }

  /** The stack pointer that is not the one being used. */
  function Other(s: State, user: bool): word { if user then s.s else s.u }

  function PushReg(s: State, user: bool, r: RegId): State {
    match r
    case RCC => PushByte(s, user, Pack(s.cc))
    case RA => PushByte(s, user, s.a)
    case RB => PushByte(s, user, s.b)
    case RDP => PushByte(s, user, s.dp)
    case RX => PushWord(s, user, s.x)
    case RY => PushWord(s, user, s.y)
    case ROther => PushWord(s, user, Other(s, user))
    case RPC => PushWord(s, user, s.pc)
  }

  function PutByte(t: State, r: RegId, v: byte): State {
    match r
    case RA => t.(a := v)
    case RB => t.(b := v)
    case RDP => t.(dp := v)
    case _ => SetCc(t, v)
  }

  function PutWord(t: State, user: bool, r: RegId, v: word): State {
    match r
    case RX => t.(x := v)
    case RY => t.(y := v)
    case RPC => t.(pc := v)
    case _ => WithSp(t, !user, v)
  }

  function PullReg(s: State, user: bool, r: RegId): State {
    var p := Sp(s, user);
    if Size(r) == 1 then PutByte(WithSp(s, user, Plus(p, 1)), r, s.mem[p])
    else PutWord(WithSp(s, user, Plus(p, 2)), user, r, Read16(s.mem, p))
  }

  /** Lists are written in pull order, lowest address first; pushing works from the far end. */
  function PushList(s: State, user: bool, rs: seq<RegId>): State {
    if rs == [] then s else PushReg(PushList(s, user, rs[1..]), user, rs[0])
  }

  function PullList(s: State, user: bool, rs: seq<RegId>): State
    decreases |rs|
  {
    if rs == [] then s else PullList(PullReg(s, user, rs[0]), user, rs[1..])
  }

  function If(b: bool, r: RegId): seq<RegId> { if b then [r] else [] }

  /** The registers named by the post byte of PSH/PUL. */
  function RegList(post: byte): seq<RegId> {
    If(Bit(post, 0), RCC) + (If(Bit(post, 1), RA) + (If(Bit(post, 2), RB) + (If(Bit(post, 3), RDP)
    + (If(Bit(post, 4), RX) + (If(Bit(post, 5), RY) + (If(Bit(post, 6), ROther) + If(Bit(post, 7), RPC)))))))
  }

  // ----- effective addresses -----

  datatype Located = BadPost | At(st: State, ea: word)

  function IndexReg(post: byte): Reg16 {
    var k := post / 32 % 4;
    if k == 0 then X else if k == 1 then Y else if k == 2 then U else S
  }

  /** Auto-increment and auto-decrement by one or two; the single steps have no indirect form. */
  function StepDelta(m: nat): int {
    if m == 0 then 1 else if m == 1 || m == 17 then 2
    else if m == 2 then -1 else if m == 3 || m == 19 then -2 else 0
  }

  function IndexedStep(s: State, r: Reg16, m: nat): Located {
    var v, d := GetReg16(s, r), StepDelta(m);
    if d == 0 then BadPost
    else At(SetReg16(Spend(s, if d == 1 || d == -1 then 6 else 7), r, Plus(v, d)), if d > 0 then v else Plus(v, d))
  }

  /** No offset, or an accumulator as a signed offset. */
  function IndexedOffset(s: State, r: Reg16, k: nat): Located {
    var v := GetReg16(s, r);
    if k == 4 then At(Spend(s, 4), v)
    else if k == 5 then At(Spend(s, 5), Plus(v, SignedByte(s.b)))
    else if k == 6 then At(Spend(s, 5), Plus(v, SignedByte(s.a)))
    else if k == 11 then At(Spend(s, 8), Plus(v, Join(s.a, s.b)))
    else BadPost
  }

  /** Offsets and addresses taken from the instruction stream. */
  function IndexedStream(s: State, r: Reg16, m: nat): Located {
    var v, k := GetReg16(s, r), m % 16;
    if k == 8 then At(Skip(Spend(s, 5), 1), Plus(v, SignedByte(s.mem[s.pc])))
    else if k == 9 then At(Skip(Spend(s, 8), 2), Plus(v, Read16(s.mem, s.pc)))
    else if k == 12 then At(Skip(Spend(s, 5), 1), Plus(Plus(s.pc, 1), SignedByte(s.mem[s.pc])))
    else if k == 13 then At(Skip(Spend(s, 9), 2), Plus(Plus(s.pc, 2), Read16(s.mem, s.pc)))
    else if m == 31 then At(Skip(Spend(s, 6), 2), Read16(s.mem, s.pc))
    else BadPost
  }

  /** Indexed addressing without the optional indirection; `s.pc` is past the post byte. */
  function IndexedBase(s: State, post: byte): Located {
    var r, m := IndexReg(post), post % 32;
    var k := m % 16;
    if post < 128 then At(Spend(s, 5), Plus(GetReg16(s, r), if m < 16 then k else k - 16))
    else if k < 4 then IndexedStep(s, r, m)
    else if k < 8 || k == 11 then IndexedOffset(s, r, k)
    else IndexedStream(s, r, m)
  }

  function Indirect(l: Located): Located {
    match l
    case BadPost => BadPost
    case At(t, ea) => At(Spend(t, 3), Read16(t.mem, ea))
  }

  function IndexedAddress(s: State): Located {
    var post := s.mem[s.pc];
    var l := IndexedBase(Skip(s, 1), post);
    if post >= 128 && Bit(post, 4) then Indirect(l) else l
  }

  /** Effective address of a memory operand, charged from the base cost of the direct form. */
  function Address(s: State, mode: Mode, base: int): Located {
    match mode
    case Immediate => BadPost
    case Direct => At(Skip(Spend(s, base), 1), Join(s.dp, s.mem[s.pc]))
    case Indexed => IndexedAddress(Spend(s, base - 4))
    case Extended => At(Skip(Spend(s, base + 1), 2), Read16(s.mem, s.pc))
  }

  datatype Fetched<T> = BadOperand | Got(st: State, val: T)

  function Operand8(s: State, mode: Mode): Fetched<byte> {
    if mode.Immediate? then Got(Skip(Spend(s, 2), 1), s.mem[s.pc])
    else match Address(s, mode, 4) case BadPost => BadOperand case At(t, ea) => Got(t, t.mem[ea])
  }

  /** Sixteen-bit operand: an immediate costs `imm`, a memory operand `base` plus `extra`. */
  function Operand16(s: State, mode: Mode, imm: int, base: int, extra: int): Fetched<word> {
    if mode.Immediate? then Got(Skip(Spend(s, imm), 2), Read16(s.mem, s.pc))
    else match Address(s, mode, base)
         case BadPost => BadOperand
         case At(t, ea) => Got(Spend(t, extra), Read16(t.mem, ea))
  }

  // ----- instructions -----

  function ExecUnaryMem(s: State, op: UnaryOp, mode: Mode): Outcome {
    match Address(s, mode, 4)
    case BadPost => Halted
    case At(t, ea) =>
      var r := Unary(op, t.mem[ea], t.cc);
      Running(Spend(t, 2).(cc := r.cc, mem := if op.Tst? then t.mem else t.mem[ea := r.val]))
  }

  function ExecBinary(s: State, op: BinaryOp, acc: Acc, mode: Mode): Outcome {
    match Operand8(s, mode)
    case BadOperand => Halted
    case Got(t, v) => var r := Binary(op, GetAcc(t, acc), v, t.cc); Running(SetAcc(t, acc, r.val).(cc := r.cc))
  }

  function ExecStore8(s: State, acc: Acc, mode: Mode): Outcome {
    match Address(s, mode, 4)
    case BadPost => Halted
    case At(t, ea) =>
      Running(t.(mem := t.mem[ea := GetAcc(t, acc)], cc := Logical(GetAcc(t, acc), t.cc).cc))
  }

  function ExecArith16(s: State, subtract: bool, mode: Mode): Outcome {
    match Operand16(s, mode, 4, 4, 2)
    case BadOperand => Halted
    case Got(t, v) =>
      var d := Join(t.a, t.b);
      var r := if subtract then Sub16(d, v, t.cc) else Add16(d, v, t.cc);
      Running(SetReg16(t, D, r.val).(cc := r.cc))
  }

  function ExecCmp16(s: State, reg: Reg16, mode: Mode, base: int): Outcome {
    match Operand16(s, mode, base, base, 2)
    case BadOperand => Halted
    case Got(t, v) => Running(t.(cc := Sub16(GetReg16(t, reg), v, t.cc).cc))
  }

  function ExecLoad16(s: State, reg: Reg16, mode: Mode, base: int): Outcome {
    match Operand16(s, mode, base - 1, base, 1)
    case BadOperand => Halted
    case Got(t, v) => Running(SetReg16(t, reg, v).(cc := Load16Flags(v, t.cc)))
  }

  function ExecStore16(s: State, reg: Reg16, mode: Mode, base: int): Outcome {
    match Address(s, mode, base)
    case BadPost => Halted
    case At(t, ea) =>
      var v := GetReg16(t, reg);
      Running(Spend(t, 1).(mem := Write16(t.mem, ea, v), cc := Load16Flags(v, t.cc)))
  }

  function ExecJmp(s: State, mode: Mode): Outcome {
    match Address(s, mode, 3) case BadPost => Halted case At(t, ea) => Running(t.(pc := ea))
  }

  function Call(s: State, target: word): State { PushWord(s, false, s.pc).(pc := target) }

  function ExecJsr(s: State, mode: Mode): Outcome {
    match Address(s, mode, 7) case BadPost => Halted case At(t, ea) => Running(Call(t, ea))
  }

  function ShortTarget(s: State): word { Plus(Plus(s.pc, 1), SignedByte(s.mem[s.pc])) }
  function LongTarget(s: State): word { Plus(Plus(s.pc, 2), SignedWord(Read16(s.mem, s.pc))) }

  function ExecLea(s: State, reg: Reg16): Outcome {
    match IndexedAddress(s)
    case BadPost => Halted
    case At(t, ea) =>
      var w := SetReg16(t, reg, ea);
      Running(if reg.X? || reg.Y? then w.(cc := t.cc.(z := ea == 0)) else w)
  }

  function ExecPsh(s: State, user: bool): State {
    var rs := RegList(s.mem[s.pc]);
    Spend(PushList(Skip(s, 1), user, rs), 5 + TotalSize(rs))
  }

  function ExecPul(s: State, user: bool): State {
    var rs := RegList(s.mem[s.pc]);
    Spend(PullList(Skip(s, 1), user, rs), 5 + TotalSize(rs))
  }

  /** Bits 7 and 3 of the post byte separate the 16-bit from the 8-bit register numbers. */
  lemma WidthBits(post: byte)
    ensures Bit(post, 7) == (post / 16 >= 8) && Bit(post, 3) == (post % 16 >= 8)
  {
    hide Bit;
    TopBit(post);
    LowBits(post);
  }

  predicate SameWidth(post: byte) { Bit(post, 7) == Bit(post, 3) }

  function Source(s: State, post: byte, nro: nat): (v: word)
    requires nro == post / 16 || nro == post % 16
    ensures (post / 16 >= 8 || post % 16 >= 8) ==> v < 256
  {
    WidthBits(post);
    if SameWidth(post) then GetReg(s, nro) else 0xff
  }

  function ExecExg(s: State): State {
    var post := s.mem[s.pc];
    var t := Skip(s, 1);
    var v1, v2 := Source(t, post, post / 16), Source(t, post, post % 16);
    Spend(SetReg(SetReg(t, post % 16, v1), post / 16, v2), 8)
  }

  function ExecTfr(s: State): State {
    var post := s.mem[s.pc];
    var t := Skip(s, 1);
    Spend(SetReg(t, post % 16, Source(t, post, post / 16)), 6)
  }

  function ExecOrcc(s: State): State {
    ByteOps(Pack(s.cc), s.mem[s.pc]);
    SetCc(Skip(Spend(s, 3), 1), Or(Pack(s.cc), s.mem[s.pc]))
  }

  function ExecAndcc(s: State): State {
    ByteOps(Pack(s.cc), s.mem[s.pc]);
    SetCc(Skip(Spend(s, 3), 1), And(Pack(s.cc), s.mem[s.pc]))
  }

  // ----- interrupts -----

  const FULL_FRAME: seq<RegId> := [RCC, RA, RB, RDP, RX, RY, ROther, RPC]
  const SHORT_FRAME: seq<RegId> := [RCC, RPC]

  function StackState(s: State, full: bool): State {
    PushList(Spend(s, if full then 19 else 6).(cc := s.cc.(e := full)), false,
             if full then FULL_FRAME else SHORT_FRAME)
  }

  function EnterHandler(s: State, full: bool): State {
    if s.waiting then s.(waiting := false) else StackState(s, full)
  }

  function Irq(s: State): State {
    var t := EnterHandler(s, true);
    t.(cc := t.cc.(i := true), pc := Read16(t.mem, 0xfff8))
  }

  function Firq(s: State): State {
    var t := EnterHandler(s, false);
    t.(cc := t.cc.(i := true, f := true), pc := Read16(t.mem, 0xfff6))
  }

  function ExecSwi(s: State): State {
    var t := StackState(s, true);
    t.(cc := t.cc.(i := true, f := true), pc := Read16(t.mem, 0xfffa))
  }

  /** SWI2 and SWI3 leave the masks alone. */
  function ExecSwiN(s: State, vector: word): State {
    var t := StackState(Spend(s, 1), true);
    t.(pc := Read16(t.mem, vector))
  }

  function ExecRti(s: State): State {
    var t := PullReg(Spend(s, 6), false, RCC);
    PullReg(if t.cc.e then PullList(Spend(t, 9), false, [RA, RB, RDP, RX, RY, ROther]) else t, false, RPC)
  }

  /** CWAI clears interrupt masks only (H, N, Z, V and C survive) and does not raise ccChanged. */
  function CwaiMask(cc: Flags, m: byte): Flags {
    cc.(e := cc.e && Bit(m, 7), f := cc.f && Bit(m, 6), i := cc.i && Bit(m, 4))
  }

  function ExecCwai(s: State): State {
    if s.waiting then Skip(Spend(s, 1), -1)
    else
      var t := Skip(Spend(s, 1), 1).(cc := CwaiMask(s.cc, s.mem[s.pc]));
      Skip(StackState(t, true), -2).(waiting := true)
  }

  function CcModified(s: State): State {
    (if s.firqs != 0 && !s.cc.f then Firq(s) else if s.irqs != 0 && !s.cc.i then Irq(s) else s)
    .(ccChanged := false)
  }

  function RequestIrq(s: State, source: nat): State {
    var t := s.(irqs := SetBit(s.irqs, source));
    if t.cc.i then t else Irq(t)
  }

  function ReleaseIrq(s: State, source: nat): State { s.(irqs := ClearBit(s.irqs, source)) }

  function RequestFirq(s: State, source: nat): State {
    var t := s.(firqs := SetBit(s.firqs, source));
    if t.cc.f then t else Firq(t)
  }

  function ReleaseFirq(s: State, source: nat): State { s.(firqs := ClearBit(s.firqs, source)) }

  // ----- one instruction -----

  /** The instruction proper; `s.pc` is past the opcode. */
  function Exec(s: State, insn: Insn): Outcome {
    match insn
    case UnaryAcc(op, acc) =>
      var r := Unary(op, GetAcc(s, acc), s.cc); Running(SetAcc(Spend(s, 2), acc, r.val).(cc := r.cc))
    case UnaryMem(op, mode) => ExecUnaryMem(s, op, mode)
    case BinaryAcc(op, acc, mode) => ExecBinary(s, op, acc, mode)
    case Store8(acc, mode) => ExecStore8(s, acc, mode)
    case Arith16(subtract, mode) => ExecArith16(s, subtract, mode)
    case Cmp16(reg, mode, base) => ExecCmp16(s, reg, mode, base)
    case Load16(reg, mode, base) => ExecLoad16(s, reg, mode, base)
    case Store16(reg, mode, base) => ExecStore16(s, reg, mode, base)
    case Jmp(mode) => ExecJmp(s, mode)
    case Jsr(mode) => ExecJsr(s, mode)
    case Bsr => Running(Call(Skip(Spend(s, 7), 1), ShortTarget(s)))
    case LongBsr => Running(Call(Skip(Spend(s, 9), 2), LongTarget(s)))
    case Bra => Running(Spend(s, 3).(pc := ShortTarget(s)))
    case LongBra => Running(Spend(s, 5).(pc := LongTarget(s)))
    case Brn => Running(Skip(Spend(s, 3), 1))
    case LongBrn => Running(Skip(Spend(s, 5), 2))
    case Branch(k) => Running(if Taken(k, s.cc) then Spend(s, 3).(pc := ShortTarget(s)) else Skip(Spend(s, 3), 1))
    case LongBranch(k) => Running(if Taken(k, s.cc) then Spend(s, 6).(pc := LongTarget(s)) else Skip(Spend(s, 5), 2))
    case Lea(reg) => ExecLea(s, reg)
    case Psh(user) => Running(ExecPsh(s, user))
    case Pul(user) => Running(ExecPul(s, user))
    case Rts => Running(PullReg(Spend(s, 5), false, RPC))
    case Abx => Running(Spend(s, 3).(x := Plus(s.x, s.b)))
    case Rti => Running(ExecRti(s))
    case Cwai => Running(ExecCwai(s))
    case Mul => var r := Product(s.a, s.b); Running(SetReg16(Spend(s, 11), D, r).(cc := MulFlags(r, s.cc)))
    case Swi => Running(ExecSwi(s))
    case Swi2 => Running(ExecSwiN(s, 0xfff4))
    case Swi3 => Running(ExecSwiN(s, 0xfff2))
    case Nop => Running(Spend(s, 2))
    case Daa => var r := DecimalAdjust(s.a, s.cc); Running(Spend(s, 2).(a := r.val, cc := r.cc))
    case Orcc => Running(ExecOrcc(s))
    case Andcc => Running(ExecAndcc(s))
    case Sex => Running(Spend(s, 2).(a := if s.b >= 128 then 0xff else 0, cc := SexFlags(s.b, s.cc)))
    case Exg => Running(ExecExg(s))
    case Tfr => Running(ExecTfr(s))
    case Invalid => Halted
  }

  /** Fetch and decode, with the two prefix bytes. */
  function OpcodeLength(m: Memory, pc: word): nat { if m[pc] == 0x10 || m[pc] == 0x11 then 2 else 1 }

  function InsnAt(m: Memory, pc: word): Insn {
    if m[pc] == 0x10 then Decode10(m[Plus(pc, 1)])
    else if m[pc] == 0x11 then Decode11(m[Plus(pc, 1)])
    else Decode(m[pc])
  }

  /** One turn of the execution loop: an instruction, then the pending-interrupt check. */
  function Step(s: State): Outcome {
    match Exec(Skip(s, OpcodeLength(s.mem, s.pc)), InsnAt(s.mem, s.pc))
    case Halted => Halted
    case Running(t) => Running(if t.ccChanged then CcModified(t) else t)
  }

  function Steps(s: State, n: nat): Outcome
    decreases n
  {
    if n == 0 then Running(s) else match Step(s) case Halted => Halted case Running(t) => Steps(t, n - 1)
  }

  /** The pending check would take an interrupt in this state. */
  predicate Delivers(t: State) { (t.firqs != 0 && !t.cc.f) || (t.irqs != 0 && !t.cc.i) }

  lemma {:induction false} StepsThenStep(s: State, n: nat)
    ensures Steps(s, n + 1) == match Steps(s, n) case Halted => Halted case Running(t) => Step(t)
    decreases n
  {
    hide Step;
    if n > 0 {
      match Step(s)
      case Halted =>
      case Running(t) => StepsThenStep(t, n - 1);
    } else {
      match Step(s)
      case Halted =>
      case Running(t) => assert Steps(t, 0) == Running(t);
    }
  }
}
