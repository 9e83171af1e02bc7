/** The cycle budget of cpu_execute: every instruction costs at least one cycle and at most a
    fixed number, so the loop terminates with the remaining budget as measure and overruns its
    slice by a bounded amount. */
module Budget {
  import opened Words
  import opened Alu
  import opened Decoder
  import opened Arch
  import opened Effects

  lemma TotalSizeOf(post: byte)
    ensures TotalSize(RegList(post)) <= 12
  {
    hide Bit, If, TotalSize;
    var r4 := If(Bit(post, 4), RX) + (If(Bit(post, 5), RY) + (If(Bit(post, 6), ROther) + If(Bit(post, 7), RPC)));
    assert TotalSize(r4) <= 8 by {
      var r7 := If(Bit(post, 7), RPC);
      var r6 := If(Bit(post, 6), ROther) + r7;
      SizeIf(Bit(post, 7), RPC, []); assert r7 + [] == r7;
      SizeIf(Bit(post, 6), ROther, r7);
      SizeIf(Bit(post, 5), RY, r6);
      SizeIf(Bit(post, 4), RX, If(Bit(post, 5), RY) + r6);
    }
    var r3 := If(Bit(post, 3), RDP) + r4;
    var r2 := If(Bit(post, 2), RB) + r3;
    SizeIf(Bit(post, 3), RDP, r4);
    SizeIf(Bit(post, 2), RB, r3);
    SizeIf(Bit(post, 1), RA, r2);
    SizeIf(Bit(post, 0), RCC, If(Bit(post, 1), RA) + r2);
  }

  lemma SizeIf(b: bool, r: RegId, rest: seq<RegId>)
    ensures TotalSize(If(b, r) + rest) <= Size(r) + TotalSize(rest)
    ensures TotalSize([]) == 0
  {
    if b {
      assert ([r] + rest)[1..] == rest;
    } else {
      assert If(b, r) + rest == rest;
    }
  }

  /** Bounds of the cost table; a load of the condition codes costs at most a full PULS. */
  lemma CostBounds(s: State, i: Insn)
    requires Encodable(i)
    ensures i != Invalid ==> 1 <= InsnCost(s, i) <= 20
    ensures LoadsCc(i) ==> InsnCost(s, i) <= 17
  {
    hide RegList, TotalSize, Taken, Unpack;
    TotalSizeOf(s.mem[s.pc]);
    PostBounds(s.mem[s.pc]);
  }

  lemma PostBounds(post: byte)
    ensures 4 <= PostCost(post) <= 12
  {
  }

  /** The cost table is exact for every instruction, and ccChanged comes only from a load of CC. */
  lemma ExecCost(s: State, i: Insn)
    requires Encodable(i) && !s.ccChanged
    ensures match Exec(s, i)
            case Halted => true
            case Running(t) => t.clk == s.clk - InsnCost(s, i) && (t.ccChanged ==> LoadsCc(i))
  {
    hide InsnCost, ExecUnaryMem, ExecBinary, ExecStore8, ExecArith16, ExecCmp16, ExecLoad16, ExecStore16,
         ExecLea, ExecPsh, ExecPul, ExecRti, ExecCwai;
    if i.UnaryMem? || i.BinaryAcc? || i.Store8? { hide Exec; Memory8Effects(s, i); }
    else if i.Arith16? || i.Cmp16? || i.Load16? || i.Store16? { hide Exec; Memory16Effects(s, i); }
    else if Effects.Transfer(i) { hide Exec; TransferEffects(s, i); }
    else if i.Lea? { LeaEffects(s, i.reg); }
    else if i.Psh? { PshEffects(s, i.user); }
    else if i.Pul? { PulEffects(s, i.user); }
    else if i.Rti? { RtiEffects(s); }
    else if i.Orcc? || i.Andcc? || i.Exg? || i.Tfr? { hide Exec; ReloadEffects(s, i); }
    else if i.Swi? || i.Swi2? || i.Swi3? { hide Exec; SwiEffects(s, i); }
    else if i.Cwai? { CwaiEffects(s); }
    else { hide Exec; RegisterEffects(s, i); }
  }

  /** An interrupt entry costs nothing from CWAI, six cycles for a short frame, nineteen for a full one. */
  lemma CcModifiedCost(s: State)
    ensures 0 <= s.clk - CcModified(s).clk <= 19 && !CcModified(s).ccChanged
  {
    hide StackState, Read16;
    StackEffects(s, false);
    StackEffects(s, true);
  }

  const MAX_STEP := 36

  /** One turn of the loop costs between 1 and 36 cycles: a full PULS that unmasks an IRQ is the worst. */
  lemma StepCost(s: State)
    requires !s.ccChanged
    ensures match Step(s)
            case Halted => true
            case Running(t) => 1 <= s.clk - t.clk <= MAX_STEP && !t.ccChanged
  {
    hide Exec, CcModified, InsnCost, Decode, Decode10, Decode11, Encodable;
    var i := InsnAt(s.mem, s.pc);
    var s1 := Skip(s, OpcodeLength(s.mem, s.pc));
    DecodeEncodable(s.mem[s.pc]);
    DecodeEncodable(s.mem[Plus(s.pc, 1)]);
    ExecCost(s1, i);
    CostBounds(s1, i);
    match Exec(s1, i)
    case Halted =>
    case Running(t) =>
      if i == Invalid { InvalidHalts(s1); }
      CcModifiedCost(t);
  }

  /** The bound is reached by every PULS of all registers that pulls a CC with I clear while only an
      IRQ is latched. */
  lemma WorstStep(s: State)
    requires !s.ccChanged && !s.waiting && s.mem[s.pc] == 0x35 && s.mem[Plus(s.pc, 1)] == 0xff
    requires s.irqs != 0 && s.firqs == 0 && !Unpack(s.mem[s.s]).i
    ensures Step(s).Running? && s.clk - Step(s).st.clk == MAX_STEP
  {
    hide Exec, CcModified, PullList, RegList, Unpack;
    var s1 := Skip(s, 1);
    assert InsnAt(s.mem, s.pc) == Pul(false);
    FullList();
    PulRuns(s1);
    PullsCc(Skip(s1, 1));
    PullListFrame(Skip(s1, 1), false, FULL_FRAME);
    IrqCost(ExecPul(s1, false));
  }

  lemma FullList()
    ensures RegList(0xff) == FULL_FRAME && TotalSize(FULL_FRAME) == 12
  {
    hide Bit, TotalSize;
    OnesBits();
    assert TotalSize(FULL_FRAME) == 12 by { FullSize(); }
  }

  lemma OnesBits()
    ensures Bit(0xff, 0) && Bit(0xff, 1) && Bit(0xff, 2) && Bit(0xff, 3)
    ensures Bit(0xff, 4) && Bit(0xff, 5) && Bit(0xff, 6) && Bit(0xff, 7)
  {
    BitDown4(0xff, 4); BitDown4(0xff, 5); BitDown4(0xff, 6); BitDown4(0xff, 7);
    assert Bit(0xff, 0) && Bit(0x7f, 0) && Bit(0x3f, 0) && Bit(0x1f, 0);
    assert Bit(0xf, 0) && Bit(7, 0) && Bit(3, 0) && Bit(1, 0);
  }

  lemma FullSize()
    ensures TotalSize(FULL_FRAME) == 12
  {
    assert TotalSize([RX, RY, ROther, RPC]) == 8 by {
      assert [RX, RY, ROther, RPC][1..] == [RY, ROther, RPC] && [RY, ROther, RPC][1..] == [ROther, RPC];
      assert [ROther, RPC][1..] == [RPC] && [RPC][1..] == [];
    }
    assert FULL_FRAME[1..] == [RA, RB, RDP, RX, RY, ROther, RPC];
    assert [RA, RB, RDP, RX, RY, ROther, RPC][1..] == [RB, RDP, RX, RY, ROther, RPC];
    assert [RB, RDP, RX, RY, ROther, RPC][1..] == [RDP, RX, RY, ROther, RPC];
    assert [RDP, RX, RY, ROther, RPC][1..] == [RX, RY, ROther, RPC];
  }

  lemma PulRuns(s: State)
    ensures Exec(s, Pul(false)) == Running(ExecPul(s, false))
  {
    hide ExecPul;
  }

  /** A pull of all registers takes CC from the first byte and keeps it. */
  lemma PullsCc(s: State)
    ensures var t := PullList(s, false, FULL_FRAME); t.cc == Unpack(s.mem[s.s]) && t.ccChanged
  {
    hide PullReg;
    RtiFirst(s);
    KeepsCc(PullReg(s, false, RCC), FULL_FRAME[1..]);
  }

  lemma {:induction false} KeepsCc(s: State, rs: seq<RegId>)
    requires RCC !in rs
    ensures var t := PullList(s, false, rs); t.cc == s.cc && t.ccChanged == s.ccChanged
    decreases |rs|
  {
    hide PullReg;
    if rs != [] {
      assert rs[0] in rs;
      OtherPull(s, rs[0]);
      KeepsCc(PullReg(s, false, rs[0]), rs[1..]);
    }
  }

  lemma OtherPull(s: State, r: RegId)
    requires r != RCC
    ensures var t := PullReg(s, false, r); t.cc == s.cc && t.ccChanged == s.ccChanged
  {
    hide Unpack, Plus, Read16;
  }

  lemma IrqCost(s: State)
    requires s.irqs != 0 && s.firqs == 0 && !s.cc.i && !s.waiting
    ensures CcModified(s).clk == s.clk - 19
  {
    hide StackState, Read16;
    StackEffects(s, true);
  }

  lemma InvalidHalts(s: State)
    ensures Exec(s, Invalid) == Halted
  {
  }

  /** cpu_execute: turns of the loop until the budget is used up. */
  function Run(s: State): Outcome
    requires !s.ccChanged
    decreases if s.clk > 0 then s.clk else 0
  {
    StepCost(s);
    match Step(s)
    case Halted => Halted
    case Running(t) => if t.clk > 0 then Run(t) else Running(t)
  }

  /** The slice is used up and overrun by at most 35 cycles. */
  lemma {:induction false} RunOverrun(s: State)
    requires !s.ccChanged && s.clk >= 1
    ensures match Run(s)
            case Halted => true
            case Running(t) => 1 - MAX_STEP <= t.clk <= 0 && !t.ccChanged
    decreases s.clk
  {
    StepCost(s);
    match Step(s)
    case Halted =>
    case Running(t) => if t.clk > 0 { RunOverrun(t); }
  }

  // ----- what a run costs -----

  /** Cycles of the interrupt entry, if the pending check after an instruction makes one. */
  function EntryCost(t: State): nat {
    if !t.ccChanged || t.waiting then 0
    else if t.firqs != 0 && !t.cc.f then 6
    else if t.irqs != 0 && !t.cc.i then 19
    else 0
  }

  /** Table cost of the next instruction plus its interrupt entry. */
  function TurnCost(s: State): int
    requires !s.ccChanged
  {
    var s1 := Skip(s, OpcodeLength(s.mem, s.pc));
    match Exec(s1, InsnAt(s.mem, s.pc))
    case Halted => 0
    case Running(t) => InsnCost(s1, InsnAt(s.mem, s.pc)) + EntryCost(t)
  }

  lemma TurnIsExact(s: State)
    requires !s.ccChanged
    ensures match Step(s)
            case Halted => true
            case Running(t) => t.clk == s.clk - TurnCost(s)
  {
    hide Exec, CcModified, InsnCost, Decode, Decode10, Decode11, Encodable;
    var i := InsnAt(s.mem, s.pc);
    var s1 := Skip(s, OpcodeLength(s.mem, s.pc));
    DecodeEncodable(s.mem[s.pc]);
    DecodeEncodable(s.mem[Plus(s.pc, 1)]);
    ExecCost(s1, i);
    match Exec(s1, i)
    case Halted =>
    case Running(t) => if t.ccChanged { EntryIsExact(t); }
  }

  lemma EntryIsExact(t: State)
    requires t.ccChanged
    ensures CcModified(t).clk == t.clk - EntryCost(t)
  {
    hide StackState, Read16;
    StackEffects(t, false);
    StackEffects(t, true);
  }

  /** The costs of all turns of a run, added up. */
  function TotalCost(s: State): int
    requires !s.ccChanged
    decreases if s.clk > 0 then s.clk else 0
  {
    StepCost(s);
    match Step(s)
    case Halted => 0
    case Running(t) => TurnCost(s) + if t.clk > 0 then TotalCost(t) else 0
  }

  /** A run uses exactly the sum of its instructions' table costs and interrupt entries. */
  lemma {:induction false} RunSumsCosts(s: State)
    requires !s.ccChanged
    ensures match Run(s)
            case Halted => true
            case Running(t) => t.clk == s.clk - TotalCost(s)
    decreases if s.clk > 0 then s.clk else 0
  {
    hide Step, TurnCost;
    StepCost(s);
    TurnIsExact(s);
    match Step(s)
    case Halted =>
    case Running(t) => if t.clk > 0 { RunSumsCosts(t); }
  }
}
