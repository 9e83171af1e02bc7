/** Pending interrupts and their masks over whole runs.  Between instructions a request is
    pending only while its mask is set, with one exact exception: CWAI lowers the masks without
    telling the pending check. */
module Masks {
  import opened Words
  import opened Alu
  import opened Decoder
  import opened Arch
  import opened Effects
  import Budget

  /** At an instruction boundary nothing that could be delivered is left waiting. */
  predicate Settled(s: State) {
    !s.ccChanged && (s.firqs != 0 ==> s.cc.f) && (s.irqs != 0 ==> s.cc.i)
  }

  /** The next instruction is a CWAI, not yet waiting, whose operand clears the mask of a latched request. */
  predicate UnmasksLatched(s: State) {
    && InsnAt(s.mem, s.pc) == Cwai && !s.waiting
    && var m := s.mem[Plus(s.pc, 1)];
       (s.firqs != 0 && !Bit(m, 6)) || (s.irqs != 0 && !Bit(m, 4))
  }

  lemma CwaiOpcode(m: Memory, pc: word)
    requires InsnAt(m, pc) == Cwai
    ensures m[pc] == 0x3c && OpcodeLength(m, pc) == 1
  {
  }

  /** The pending check delivers FIRQ first and leaves every remaining request masked. */
  lemma CheckSettles(s: State)
    ensures Settled(CcModified(s))
    ensures CcModified(s).irqs == s.irqs && CcModified(s).firqs == s.firqs
    ensures s.firqs != 0 && !s.cc.f ==> CcModified(s) == Firq(s).(ccChanged := false)
  {
    hide StackState, Read16;
    StackEffects(s, false);
    StackEffects(s, true);
  }

  lemma RequestsSettle(s: State, source: nat)
    requires Settled(s)
    ensures Settled(RequestIrq(s, source)) && Settled(RequestFirq(s, source))
    ensures Settled(ReleaseIrq(s, source)) && Settled(ReleaseFirq(s, source))
  {
    hide StackState, Read16, SetBit, ClearBit;
    StackEffects(s.(irqs := SetBit(s.irqs, source)), true);
    StackEffects(s.(firqs := SetBit(s.firqs, source)), false);
    ClearZero(source);
  }

  lemma ClearZero(source: nat)
    ensures ClearBit(0, source) == 0
  {
    if Bit(0, source) {
      BitWeight(0, source);
    }
  }

  /** Apart from CWAI, an instruction keeps the pending words and either raises ccChanged or keeps the masks. */
  lemma ExecKeepsMasks(s: State, i: Insn)
    requires Encodable(i) && i != Cwai && !s.ccChanged
    ensures match Exec(s, i)
            case Halted => true
            case Running(t) => && t.irqs == s.irqs && t.firqs == s.firqs
                               && (t.ccChanged || ((s.cc.f ==> t.cc.f) && (s.cc.i ==> t.cc.i)))
  {
    hide InsnCost, ExecUnaryMem, ExecBinary, ExecStore8, ExecArith16, ExecCmp16, ExecLoad16, ExecStore16,
         ExecLea, ExecPsh, ExecPul, ExecRti;
    if i.UnaryMem? || i.BinaryAcc? || i.Store8? { hide Exec; Memory8Effects(s, i); }
    else if i.Arith16? || i.Cmp16? || i.Load16? || i.Store16? { hide Exec; Memory16Effects(s, i); }
    else if Effects.Transfer(i) { hide Exec; TransferEffects(s, i); }
    else if i.Lea? { LeaEffects(s, i.reg); }
    else if i.Psh? { PshEffects(s, i.user); }
    else if i.Pul? { PulEffects(s, i.user); }
    else if i.Rti? { RtiEffects(s); }
    else if i.Orcc? || i.Andcc? || i.Exg? || i.Tfr? { hide Exec; ReloadEffects(s, i); }
    else if i.Swi? || i.Swi2? || i.Swi3? { hide Exec; SwiEffects(s, i); }
    else { hide Exec; RegisterEffects(s, i); }
  }

  /** One instruction keeps the machine settled exactly when it is not such a CWAI. */
  lemma StepSettles(s: State)
    requires Settled(s)
    ensures match Step(s)
            case Halted => true
            case Running(t) => Settled(t) <==> !UnmasksLatched(s)
  {
    hide Exec, CcModified, Decode, Decode10, Decode11, Encodable, Bit;
    var i := InsnAt(s.mem, s.pc);
    var s1 := Skip(s, OpcodeLength(s.mem, s.pc));
    DecodeEncodable(s.mem[s.pc]);
    DecodeEncodable(s.mem[Plus(s.pc, 1)]);
    if i == Cwai {
      CwaiOpcode(s.mem, s.pc);
      CwaiRuns(s1);
      CwaiEffects(s1);
    } else {
      ExecKeepsMasks(s1, i);
      match Exec(s1, i)
      case Halted =>
      case Running(t) => CheckSettles(t);
    }
  }

  /** The processor itself never changes the request lines. */
  lemma StepKeepsLines(s: State)
    requires !s.ccChanged
    ensures match Step(s)
            case Halted => true
            case Running(t) => t.irqs == s.irqs && t.firqs == s.firqs
  {
    hide Exec, CcModified, Decode, Decode10, Decode11, Encodable, Bit;
    var i := InsnAt(s.mem, s.pc);
    var s1 := Skip(s, OpcodeLength(s.mem, s.pc));
    DecodeEncodable(s.mem[s.pc]);
    DecodeEncodable(s.mem[Plus(s.pc, 1)]);
    if i == Cwai {
      CwaiRuns(s1);
      CwaiEffects(s1);
    } else {
      ExecKeepsMasks(s1, i);
    }
    match Exec(s1, i)
    case Halted =>
    case Running(t) => CheckSettles(t);
  }

  lemma {:induction false} RunKeepsLines(s: State)
    requires !s.ccChanged
    ensures match Budget.Run(s)
            case Halted => true
            case Running(t) => t.irqs == s.irqs && t.firqs == s.firqs
    decreases if s.clk > 0 then s.clk else 0
  {
    hide Step;
    Budget.StepCost(s);
    StepKeepsLines(s);
    match Step(s)
    case Halted =>
    case Running(t) => if t.clk > 0 { RunKeepsLines(t); }
  }

  lemma CwaiRuns(s: State)
    ensures Exec(s, Cwai) == Running(ExecCwai(s))
  {
    hide ExecCwai;
  }

  // ----- whole runs -----

  datatype Event = Instruction | Request(firq: bool, source: nat) | Release(firq: bool, source: nat)

  function Apply(s: State, e: Event): Outcome {
    match e
    case Instruction => Step(s)
    case Request(firq, n) => Running(if firq then RequestFirq(s, n) else RequestIrq(s, n))
    case Release(firq, n) => Running(if firq then ReleaseFirq(s, n) else ReleaseIrq(s, n))
  }

  function ApplyAll(s: State, es: seq<Event>): Outcome
    decreases |es|
  {
    if es == [] then Running(s)
    else match Apply(s, es[0]) case Halted => Halted case Running(t) => ApplyAll(t, es[1..])
  }

  /** Some instruction of the run is a CWAI that clears the mask of a latched request. */
  predicate MeetsUnmaskingCwai(s: State, es: seq<Event>)
    decreases |es|
  {
    es != [] && ((es[0].Instruction? && UnmasksLatched(s))
                 || match Apply(s, es[0])
                    case Halted => false
                    case Running(t) => MeetsUnmaskingCwai(t, es[1..]))
  }

  /** The machine is settled now and at every later boundary of the run. */
  predicate AlwaysSettled(s: State, es: seq<Event>)
    decreases |es|
  {
    Settled(s) && (es != [] ==> match Apply(s, es[0])
                                case Halted => true
                                case Running(t) => AlwaysSettled(t, es[1..]))
  }

  /** A run stays settled at every boundary exactly when it meets no such CWAI, whatever requests
      and releases it contains. */
  lemma {:induction false} RunSettles(s: State, es: seq<Event>)
    requires Settled(s)
    ensures AlwaysSettled(s, es) <==> !MeetsUnmaskingCwai(s, es)
    decreases |es|
  {
    hide Step, RequestIrq, RequestFirq, ReleaseIrq, ReleaseFirq, UnmasksLatched, Settled;
    if es != [] {
      match es[0] {
        case Instruction => StepSettles(s); if UnmasksLatched(s) { UnmaskingRuns(s); }
        case Request(_, n) => RequestsSettle(s, n);
        case Release(_, n) => RequestsSettle(s, n);
      }
      match Apply(s, es[0])
      case Halted =>
      case Running(t) => if Settled(t) { RunSettles(t, es[1..]); }
    }
  }

  lemma UnmaskingRuns(s: State)
    requires UnmasksLatched(s)
    ensures Step(s).Running?
  {
    hide Exec, CcModified, Bit;
    CwaiRuns(Skip(s, OpcodeLength(s.mem, s.pc)));
  }

  // ----- the flags CWAI does not clear -----

  /** `CC & m` as ANDCC computes it. */
  function Masked(cc: Flags, m: byte): Flags {
    ByteOps(Pack(cc), m);
    Unpack(And(Pack(cc), m))
  }

  /** CWAI should AND its operand into all of CC, as ANDCC does.  It does so exactly when the operand
      keeps every arithmetic flag that is set. */
  lemma CwaiMasksAllIff(cc: Flags, m: byte)
    ensures CwaiMask(cc, m) == Masked(cc, m)
            <==> && (cc.h ==> Bit(m, 5)) && (cc.n ==> Bit(m, 3)) && (cc.z ==> Bit(m, 2))
                 && (cc.v ==> Bit(m, 1)) && (cc.c ==> Bit(m, 0))
  {
    hide Bit, And, Pack;
    var b := Pack(cc);
    UnpackPack(cc);
    ByteOps(b, m);
    AndBit(b, m, 0); AndBit(b, m, 1); AndBit(b, m, 2); AndBit(b, m, 3);
    AndBit(b, m, 4); AndBit(b, m, 5); AndBit(b, m, 6); AndBit(b, m, 7);
  }

  /** CWAI #0 with the carry set: ANDCC #0 clears it, CWAI and the frame it stacks keep it. */
  lemma CwaiKeepsCarry(cc: Flags)
    requires cc.c
    ensures CwaiMask(cc, 0).c && !Masked(cc, 0).c
  {
    hide Bit, And, Pack;
    ByteOps(Pack(cc), 0);
    AndBit(Pack(cc), 0, 0);
    assert !Bit(0, 0) by { ZeroBit(); }
  }

  lemma ZeroBit()
    ensures !Bit(0, 0)
  {
  }

  // ----- the exception is real -----

  /** A processor waiting at its CWAI only burns cycles, even with an unmasked request latched. */
  lemma {:induction false} WaitingForever(s: State, n: nat)
    requires s.waiting && !s.ccChanged && s.mem[s.pc] == 0x3c
    ensures ApplyAll(s, seq(n, _ => Instruction)) == Running(Spend(s, n))
    decreases n
  {
    hide ExecCwai, StackState;
    if n > 0 {
      var es := seq(n, _ => Instruction);
      assert es[1..] == seq(n - 1, _ => Instruction);
      WaitingStep(s);
      WaitingForever(Spend(s, 1), n - 1);
    }
  }

  lemma WaitingStep(s: State)
    requires s.waiting && !s.ccChanged && s.mem[s.pc] == 0x3c
    ensures Step(s) == Running(Spend(s, 1))
  {
    hide Exec;
    assert InsnAt(s.mem, s.pc) == Cwai;
    CwaiRuns(Skip(s, 1));
    PlusPlus(s.pc, 1, -1);
  }

  /** An IRQ latched behind its mask, then CWAI #0: the machine waits with the request deliverable
      and never takes it, however many cycles pass. */
  lemma LostRequest(s: State, n: nat)
    requires Settled(s) && s.pc == 0x1000 && s.s == 0x8000 && !s.waiting && s.irqs != 0
    requires s.mem[0x1000] == 0x3c && s.mem[0x1001] == 0
    ensures exists t :: && ApplyAll(s, [Instruction] + seq(n, _ => Instruction)) == Running(t)
                        && t.waiting && t.irqs != 0 && !t.cc.i && t.pc == 0x1000
  {
    hide Step, ExecCwai, Exec, StackState, Bit, Apply;
    assert InsnAt(s.mem, s.pc) == Cwai;
    var s1 := Skip(s, 1);
    CwaiRuns(s1);
    CwaiEffects(s1);
    var u := ExecCwai(s1);
    assert Step(s) == Running(u) by { StepIsCwai(s); }
    assert !Bit(0, 4) by { LowBits(0); }
    CwaiKeepsCode(s1);
    WaitingForever(u, n);
    var es := [Instruction] + seq(n, _ => Instruction);
    assert es[1..] == seq(n, _ => Instruction);
    assert Apply(s, Instruction) == Step(s) by { ApplyInstruction(s); }
    assert ApplyAll(s, es) == Running(Spend(u, n));
  }

  lemma ApplyInstruction(s: State)
    ensures Apply(s, Instruction) == Step(s)
  {
    hide Step;
  }

  lemma StepIsCwai(s: State)
    requires s.mem[s.pc] == 0x3c && !s.ccChanged
    ensures Step(s) == Running(ExecCwai(Skip(s, 1)))
  {
    hide Exec, ExecCwai;
    assert InsnAt(s.mem, s.pc) == Cwai;
    CwaiRuns(Skip(s, 1));
    CwaiEffects(Skip(s, 1));
  }

  /** The twelve stacked bytes lie below 0x8000 and miss the instruction. */
  lemma CwaiKeepsCode(s: State)
    requires s.pc == 0x1001 && s.s == 0x8000 && !s.waiting
    ensures var t := ExecCwai(s); t.pc == 0x1000 && t.mem[0x1000] == s.mem[0x1000]
  {
    hide StackState, Bit;
    var u := Skip(Spend(s, 1), 1).(cc := CwaiMask(s.cc, s.mem[s.pc]));
    StackEffects(u, true);
    StackKeeps(u, 0x1000);
  }

  lemma StackKeeps(s: State, a: word)
    requires s.s == 0x8000 && a < 0x7000
    ensures StackState(s, true).mem[a] == s.mem[a]
  {
    hide PushList;
    PushListKeeps(Spend(s, 19).(cc := s.cc.(e := true)), FULL_FRAME, a);
    assert TotalSize(FULL_FRAME) <= 16 by { SizeBound(FULL_FRAME); }
  }

  lemma {:induction false} SizeBound(rs: seq<RegId>)
    ensures TotalSize(rs) <= 2 * |rs|
  {
    if rs != [] {
      SizeBound(rs[1..]);
    }
  }

  lemma {:induction false} PushListKeeps(s: State, rs: seq<RegId>, a: word)
    requires s.s - TotalSize(rs) > a
    ensures PushList(s, false, rs).mem[a] == s.mem[a] && PushList(s, false, rs).s == s.s - TotalSize(rs)
  {
    hide Pack;
    if rs != [] {
      PushListKeeps(s, rs[1..], a);
      PushRegKeeps(PushList(s, false, rs[1..]), rs[0], a);
    }
  }

  lemma PushByteKeeps(s: State, v: byte, a: word)
    requires s.s - 1 > a
    ensures PushByte(s, false, v).mem[a] == s.mem[a] && PushByte(s, false, v).s == s.s - 1
  {
  }

  lemma PushRegKeeps(s: State, r: RegId, a: word)
    requires s.s - Size(r) > a
    ensures PushReg(s, false, r).mem[a] == s.mem[a] && PushReg(s, false, r).s == s.s - Size(r)
  {
    hide Pack, PushByte;
    if Size(r) == 1 {
      PushByteKeeps(s, if r.RCC? then Pack(s.cc) else if r.RA? then s.a else if r.RB? then s.b else s.dp, a);
    } else {
      var w := if r.RX? then s.x else if r.RY? then s.y else if r.RPC? then s.pc else s.u;
      PushByteKeeps(s, Lo(w), a);
      PushByteKeeps(PushByte(s, false, Lo(w)), Hi(w), a);
    }
  }
}
