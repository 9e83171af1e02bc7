/** Interrupt entries and their RTIs, nested to any depth: hardware interrupts, software
    interrupts and interrupts that end a CWAI wait. */
module Nesting {
  import opened Words
  import opened Alu
  import opened Decoder
  import opened Arch
  import opened Effects
  import Budget
  import Addressing
  import opened Stacking

  /** The ways into a handler.  A CWAI waits `cycles` turns of the loop before the interrupt comes. */
  datatype Entry =
    | ByIrq | ByFirq | BySwi | BySwi2 | BySwi3
    | ByCwaiIrq(cycles: nat) | ByCwaiFirq(cycles: nat)

  /** The state in which the handler starts; for software entries and CWAI, `s.pc` is past the opcode. */
  function Enter(s: State, k: Entry): State {
    match k
    case ByIrq => Irq(s)
    case ByFirq => Firq(s)
    case BySwi => ExecSwi(s)
    case BySwi2 => ExecSwiN(s, 0xfff4)
    case BySwi3 => ExecSwiN(s, 0xfff2)
    case ByCwaiIrq(n) => Irq(Spend(ExecCwai(s), n))
    case ByCwaiFirq(n) => Firq(Spend(ExecCwai(s), n))
  }

  /** Only a FIRQ outside CWAI stacks the short frame. */
  predicate Full(k: Entry) { !k.ByFirq? }

  /** What the interrupted program should find again: CWAI has consumed its operand and masked CC. */
  function Interrupted(s: State, k: Entry): State {
    if k.ByCwaiIrq? || k.ByCwaiFirq? then Skip(s, 1).(cc := CwaiMask(s.cc, s.mem[s.pc])) else s
  }

  function FrameRegs(full: bool): seq<RegId> { if full then FULL_FRAME else SHORT_FRAME }
  function FrameSize(full: bool): nat { if full then 12 else 3 }

  lemma FrameSizes(full: bool)
    ensures TotalSize(FrameRegs(full)) == FrameSize(full)
  {
    Budget.FullSize();
    assert [RCC, RPC][1..] == [RPC] && [RPC][1..] == [];
  }

  // ----- one entry -----

  /** The bytes of a frame: the registers of `saved`, with the E bit telling the frame's size. */
  function FrameImage(saved: State, full: bool): (bs: seq<byte>)
    ensures |bs| == FrameSize(full)
  {
    FrameSizes(full);
    Image(saved.(cc := saved.cc.(e := full)), false, FrameRegs(full))
  }

  lemma StackStateStored(s: State, full: bool)
    ensures var t := StackState(s, full);
            && t.s == Plus(s.s, 0 - FrameSize(full)) && Stored(t.mem, t.s, FrameImage(s, full))
            && forall x: word :: !Within(x, t.s, FrameSize(full)) ==> t.mem[x] == s.mem[x]
  {
    hide PushList, Image, Within, Stored;
    var u := Spend(s, if full then 19 else 6).(cc := s.cc.(e := full));
    FrameSizes(full);
    PushListStored(u, false, FrameRegs(full));
    ImageIgnoresClock(s.(cc := s.cc.(e := full)), if full then 19 else 6, FrameRegs(full));
  }

  lemma {:induction false} ImageIgnoresClock(s: State, n: int, rs: seq<RegId>)
    ensures Image(Spend(s, n), false, rs) == Image(s, false, rs)
  {
    if rs != [] {
      ImageIgnoresClock(s, n, rs[1..]);
    }
  }

  /** Every way in leaves the frame of the interrupted program just above S and touches no other byte. */
  lemma EnterStores(s: State, k: Entry)
    requires !s.waiting
    ensures var t := Enter(s, k);
            && t.s == Plus(s.s, 0 - FrameSize(Full(k)))
            && Stored(t.mem, t.s, FrameImage(Interrupted(s, k), Full(k)))
            && (forall x: word :: !Within(x, t.s, FrameSize(Full(k))) ==> t.mem[x] == s.mem[x])
            && !t.waiting
  {
    hide StackState, FrameImage, Within, Stored, Read16;
    var v := Interrupted(s, k);
    StackStateStored(v, Full(k));
    StackStateStored(Spend(v, 1), Full(k));
    StackEffects(v, Full(k));
    StackEffects(Spend(v, 1), Full(k));
    assert FrameImage(Spend(v, 1), Full(k)) == FrameImage(v, Full(k)) by { FrameIgnoresClock(v, Full(k)); }
    assert (k.ByCwaiIrq? || k.ByCwaiFirq?) ==> Skip(Spend(s, 1), 1).(cc := CwaiMask(s.cc, s.mem[s.pc])) == Spend(v, 1);
  }

  lemma FrameIgnoresClock(s: State, full: bool)
    ensures FrameImage(Spend(s, 1), full) == FrameImage(s, full)
  {
    ImageIgnoresClock(s.(cc := s.cc.(e := full)), 1, FrameRegs(full));
  }

  // ----- where the handler starts -----

  /** The `n` bytes below stack pointer `p` lie clear of the vectors. */
  predicate MissesVectors(p: word, n: nat) {
    var base := Plus(p, 0 - n);
    forall x: word :: 0xfff2 <= x <= 0xfffb ==> !Within(x, base, n)
  }

  lemma VectorKept(m: Memory, m': Memory, p: word, n: nat, v: word)
    requires MissesVectors(p, n) && 0xfff2 <= v <= 0xfffa
    requires forall x: word :: !Within(x, Plus(p, 0 - n), n) ==> m'[x] == m[x]
    ensures Read16(m', v) == Addressing.WordAt(m, v)
  {
    hide Within;
  }

  /** Every entry starts the handler at the word its own vector held, with its own masks set: IRQ at
      0xfff8, FIRQ at 0xfff6, SWI at 0xfffa, SWI2 at 0xfff4 and SWI3 at 0xfff2; an interrupt that ends
      a CWAI like any other of its kind.  FIRQ and SWI mask both interrupts, IRQ its own kind, SWI2 and
      SWI3 none. */
  lemma HandlerStarts(s: State, k: Entry)
    requires !s.waiting && MissesVectors(s.s, FrameSize(Full(k)))
    ensures Enter(s, k).pc == Addressing.WordAt(s.mem, match k
                                            case ByIrq => 0xfff8
                                            case ByFirq => 0xfff6
                                            case BySwi => 0xfffa
                                            case BySwi2 => 0xfff4
                                            case BySwi3 => 0xfff2
                                            case ByCwaiIrq(_) => 0xfff8
                                            case ByCwaiFirq(_) => 0xfff6)
    ensures var cc := Interrupted(s, k).cc;
            Enter(s, k).cc == cc.(e := Full(k), i := cc.i || !(k.BySwi2? || k.BySwi3?),
                                  f := cc.f || k.ByFirq? || k.ByCwaiFirq? || k.BySwi?)
  {
    hide StackState, Read16, Addressing.WordAt, MissesVectors, Within, Stored, FrameImage, Interrupted;
    EnterStores(s, k);
    InterruptedS(s, k);
    forall v: word | 0xfff2 <= v <= 0xfffa ensures Read16(Enter(s, k).mem, v) == Addressing.WordAt(s.mem, v) {
      VectorKept(s.mem, Enter(s, k).mem, s.s, FrameSize(Full(k)), v);
    }
    EntryVector(s, k);
    EntryMasks(s, k);
  }

  /** The vector is fetched after stacking. */
  lemma EntryVector(s: State, k: Entry)
    requires !s.waiting
    ensures var t := Enter(s, k);
            t.pc == Read16(t.mem, match k
                                  case ByIrq => 0xfff8
                                  case ByFirq => 0xfff6
                                  case BySwi => 0xfffa
                                  case BySwi2 => 0xfff4
                                  case BySwi3 => 0xfff2
                                  case ByCwaiIrq(_) => 0xfff8
                                  case ByCwaiFirq(_) => 0xfff6)
  {
    hide StackState, Read16, ExecCwai;
  }

  lemma EntryMasks(s: State, k: Entry)
    requires !s.waiting
    ensures var cc := Interrupted(s, k).cc;
            Enter(s, k).cc == cc.(e := Full(k), i := cc.i || !(k.BySwi2? || k.BySwi3?),
                                  f := cc.f || k.ByFirq? || k.ByCwaiFirq? || k.BySwi?)
  {
    hide Irq, Firq, ExecSwi, ExecSwiN, ExecCwai, CwaiMask;
    match k
    case ByIrq | ByFirq => HardMasks(s);
    case BySwi | BySwi2 | BySwi3 => SoftMasks(s);
    case ByCwaiIrq(n) => CwaiCc(s); WaitedMasks(s, n);
    case ByCwaiFirq(n) => CwaiCc(s); WaitedMasks(s, n);
  }

  /** A CWAI has stacked the full frame already. */
  lemma WaitedMasks(s: State, n: nat)
    requires ExecCwai(s).waiting
    ensures Irq(Spend(ExecCwai(s), n)).cc == ExecCwai(s).cc.(i := true)
    ensures Firq(Spend(ExecCwai(s), n)).cc == ExecCwai(s).cc.(i := true, f := true)
  {
    hide Irq, Firq, ExecCwai;
    HardMasks(Spend(ExecCwai(s), n));
  }

  lemma HardMasks(s: State)
    ensures Irq(s).cc == s.cc.(e := if s.waiting then s.cc.e else true, i := true)
    ensures Firq(s).cc == s.cc.(e := if s.waiting then s.cc.e else false, i := true, f := true)
  {
    hide StackState, Read16;
    StackedCc(s, true); StackedCc(s, false);
  }

  lemma SoftMasks(s: State)
    ensures ExecSwi(s).cc == s.cc.(e := true, i := true, f := true)
    ensures forall v: word :: ExecSwiN(s, v).cc == s.cc.(e := true)
  {
    hide StackState, Read16;
    StackedCc(s, true); StackedCc(Spend(s, 1), true);
  }

  lemma CwaiCc(s: State)
    requires !s.waiting
    ensures ExecCwai(s).cc == CwaiMask(s.cc, s.mem[s.pc]).(e := true) && ExecCwai(s).waiting
  {
    hide StackState, CwaiMask;
    StackedCc(Skip(Spend(s, 1), 1).(cc := CwaiMask(s.cc, s.mem[s.pc])), true);
  }

  lemma StackedCc(s: State, full: bool)
    ensures StackState(s, full).cc == s.cc.(e := full)
  {
    hide PushList;
    PushListFrame(Spend(s, if full then 19 else 6).(cc := s.cc.(e := full)), false, if full then FULL_FRAME else SHORT_FRAME);
  }

  /** A request that is not masked starts its handler; so does a pending one when an instruction has
      lowered its mask, FIRQ before IRQ. */
  lemma RequestStarts(s: State, source: nat)
    requires s.waiting || (MissesVectors(s.s, 12) && MissesVectors(s.s, 3))
    ensures !s.cc.i ==> RequestIrq(s, source).pc == Addressing.WordAt(s.mem, 0xfff8)
    ensures !s.cc.f ==> RequestFirq(s, source).pc == Addressing.WordAt(s.mem, 0xfff6)
  {
    hide StackState, Read16, Addressing.WordAt, MissesVectors, SetBit, Stored, Within, FrameImage;
    IrqStarts(s.(irqs := SetBit(s.irqs, source)));
    IrqStarts(s.(firqs := SetBit(s.firqs, source)));
  }

  lemma IrqStarts(s: State)
    requires s.waiting || (MissesVectors(s.s, 12) && MissesVectors(s.s, 3))
    ensures Irq(s).pc == Addressing.WordAt(s.mem, 0xfff8) && Firq(s).pc == Addressing.WordAt(s.mem, 0xfff6)
  {
    if s.waiting {
      assert Read16(s.mem, 0xfff8) == Addressing.WordAt(s.mem, 0xfff8) && Read16(s.mem, 0xfff6) == Addressing.WordAt(s.mem, 0xfff6);
    } else {
      hide StackState, Read16, Addressing.WordAt, MissesVectors, Stored, Within, FrameImage;
      HandlerStarts(s, ByIrq);
      HandlerStarts(s, ByFirq);
    }
  }

  lemma StepStarts(s: State)
    requires match Exec(Skip(s, OpcodeLength(s.mem, s.pc)), InsnAt(s.mem, s.pc))
             case Halted => false
             case Running(t) => t.ccChanged && Delivers(t) && (t.waiting || (MissesVectors(t.s, 12) && MissesVectors(t.s, 3)))
    ensures var t := Exec(Skip(s, OpcodeLength(s.mem, s.pc)), InsnAt(s.mem, s.pc)).st;
            Step(s).Running? && Step(s).st.pc == Addressing.WordAt(t.mem, if t.firqs != 0 && !t.cc.f then 0xfff6 else 0xfff8)
  {
    hide Exec, InsnAt, Irq, Firq, Addressing.WordAt, MissesVectors;
    IrqStarts(Exec(Skip(s, OpcodeLength(s.mem, s.pc)), InsnAt(s.mem, s.pc)).st);
  }

  /** The bytes of a full frame from S up, as every handler finds them: CC, A, B, DP, X, Y, U, PC. */
  lemma FrameLayout(w: State)
    ensures Image(w, false, FULL_FRAME)
            == [Pack(w.cc), w.a, w.b, w.dp] + ([w.x / 256, w.x % 256] + ([w.y / 256, w.y % 256]
               + ([w.u / 256, w.u % 256] + [w.pc / 256, w.pc % 256])))
    ensures Image(w, false, SHORT_FRAME) == [Pack(w.cc)] + [w.pc / 256, w.pc % 256]
  {
    hide Image, Pack;
    var tail := [RX, RY, ROther, RPC];
    ImageCons(w, RPC, []); ImageCons(w, ROther, [RPC]); ImageCons(w, RY, [ROther, RPC]); ImageCons(w, RX, [RY, ROther, RPC]);
    assert [RPC] + [] == [RPC] && [ROther] + [RPC] == [ROther, RPC] && [RY] + [ROther, RPC] == [RY, ROther, RPC];
    assert [RX] + [RY, ROther, RPC] == tail;
    assert Image(w, false, [RPC]) == [w.pc / 256, w.pc % 256];
    HeadLayout(w, tail);
    assert [RCC, RA, RB, RDP] + tail == FULL_FRAME;
    ImageCons(w, RCC, [RPC]);
    assert [RCC] + [RPC] == SHORT_FRAME;
  }

  lemma HeadLayout(w: State, tail: seq<RegId>)
    ensures Image(w, false, [RCC, RA, RB, RDP] + tail) == [Pack(w.cc), w.a, w.b, w.dp] + Image(w, false, tail)
  {
    hide Image, Pack;
    ImageCons(w, RDP, tail); ImageCons(w, RB, [RDP] + tail); ImageCons(w, RA, [RB] + ([RDP] + tail));
    ImageCons(w, RCC, [RA] + ([RB] + ([RDP] + tail)));
    assert [RCC] + ([RA] + ([RB] + ([RDP] + tail))) == [RCC, RA, RB, RDP] + tail;
    assert [Pack(w.cc)] + ([w.a] + ([w.b] + ([w.dp] + Image(w, false, tail)))) == [Pack(w.cc), w.a, w.b, w.dp] + Image(w, false, tail);
  }

  lemma ImageCons(w: State, r: RegId, rest: seq<RegId>)
    ensures Image(w, false, [r] + rest) == RegImage(w, false, r) + Image(w, false, rest) && Image(w, false, []) == []
  {
    assert ([r] + rest)[1..] == rest;
  }

  // ----- one return -----

  /** RTI is a pull of exactly the frame that is there. */
  lemma RtiPullsFrame(t: State, saved: State, full: bool)
    requires Stored(t.mem, t.s, FrameImage(saved, full))
    ensures Unpack(t.mem[t.s]).e == full
    ensures exists n :: ExecRti(t) == PullList(Spend(t, n), false, FrameRegs(full))
  {
    hide PullReg, Image, RegImage, Pack, Unpack;
    var w := saved.(cc := saved.cc.(e := full));
    var t6 := Spend(t, 6);
    FirstOfFrame(w, full);
    assert t.mem[Plus(t.s, 0)] == FrameImage(saved, full)[0] && Plus(t.s, 0) == t.s;
    UnpackPack(w.cc);
    RtiFirst(t6);
    var u := PullReg(t6, false, RCC);
    if full {
      PullLater(t6, RCC, 9);
      var mid := [RA, RB, RDP, RX, RY, ROther];
      assert FULL_FRAME == [RCC] + (mid + [RPC]);
      PullSplit(Spend(t, 15), mid);
      assert Spend(t6, 9) == Spend(t, 15);
    } else {
      assert SHORT_FRAME == [RCC] + [RPC];
      assert SHORT_FRAME[1..] == [RPC] && [RPC][1..] == [];
      assert PullList(u, false, [RPC]) == PullReg(u, false, RPC);
      assert PullList(t6, false, SHORT_FRAME) == PullList(u, false, [RPC]);
    }
  }

  lemma FirstOfFrame(w: State, full: bool)
    requires w.cc.e == full
    ensures Image(w, false, FrameRegs(full)) != [] && Image(w, false, FrameRegs(full))[0] == Pack(w.cc)
  {
    hide Pack;
    assert FrameRegs(full)[0] == RCC;
  }

  lemma PullLater(t: State, r: RegId, n: int)
    ensures Spend(PullReg(t, false, r), n) == PullReg(Spend(t, n), false, r)
  {
    hide Unpack, Plus, Read16;
  }

  lemma PullSplit(t: State, mid: seq<RegId>)
    ensures PullList(t, false, [RCC] + (mid + [RPC]))
            == PullReg(PullList(PullReg(t, false, RCC), false, mid), false, RPC)
  {
    hide PullReg;
    var u := PullReg(t, false, RCC);
    assert ([RCC] + (mid + [RPC]))[1..] == mid + [RPC];
    PullConcat(u, false, mid, [RPC]);
    var v := PullList(u, false, mid);
    assert [RPC][1..] == [];
    assert PullList(v, false, [RPC]) == PullList(PullReg(v, false, RPC), false, []);
  }

  /** What a return has to give back: S, PC and CC always, everything else after a full frame. */
  predicate Restored(saved: State, full: bool, t: State, u: State) {
    && u.s == saved.s && u.pc == saved.pc && u.cc == saved.cc.(e := full)
    && (full ==> u.a == saved.a && u.b == saved.b && u.dp == saved.dp && u.x == saved.x && u.y == saved.y && u.u == saved.u)
    && (!full ==> u.a == t.a && u.b == t.b && u.dp == t.dp && u.x == t.x && u.y == t.y && u.u == t.u)
    && u.mem == t.mem
  }

  lemma RtiRestores(t: State, saved: State, full: bool)
    requires t.s == Plus(saved.s, 0 - FrameSize(full)) && Stored(t.mem, t.s, FrameImage(saved, full))
    ensures Restored(saved, full, t, ExecRti(t))
  {
    hide PullList, ExecRti, Image, Stored, RegImage;
    RtiPullsFrame(t, saved, full);
    var n :| ExecRti(t) == PullList(Spend(t, n), false, FrameRegs(full));
    var w := saved.(cc := saved.cc.(e := full));
    var rs := FrameRegs(full);
    FrameSizes(full);
    PullListReads(Spend(t, n), w, false, rs);
    var u := ExecRti(t);
    PlusPlus(saved.s, 0 - FrameSize(full), FrameSize(full));
    RestoredFromImages(u, w, Spend(t, n), full);
  }

  lemma RestoredFromImages(u: State, w: State, t: State, full: bool)
    requires forall q: RegId :: RegImage(u, false, q) == RegImage(if q in FrameRegs(full) then w else t, false, q)
    ensures u.pc == w.pc && u.cc == w.cc
    ensures var v := if full then w else t;
            u.a == v.a && u.b == v.b && u.dp == v.dp && u.x == v.x && u.y == v.y && u.u == v.u
  {
    hide RegImage;
    ImagesAreRegisters(u, w, false);
    ImagesAreRegisters(u, t, false);
    assert RCC in FrameRegs(full) && RPC in FrameRegs(full);
    assert RegImage(u, false, RPC) == RegImage(w, false, RPC) && RegImage(u, false, RCC) == RegImage(w, false, RCC);
    var v := if full then w else t;
    assert full ==> RA in FULL_FRAME && RB in FULL_FRAME && RDP in FULL_FRAME && RX in FULL_FRAME && RY in FULL_FRAME
                    && ROther in FULL_FRAME;
    assert RA !in SHORT_FRAME && RB !in SHORT_FRAME && RDP !in SHORT_FRAME && RX !in SHORT_FRAME && RY !in SHORT_FRAME
           && ROther !in SHORT_FRAME;
    assert RegImage(u, false, RA) == RegImage(v, false, RA) && RegImage(u, false, RB) == RegImage(v, false, RB);
    assert RegImage(u, false, RDP) == RegImage(v, false, RDP) && RegImage(u, false, RX) == RegImage(v, false, RX);
    assert RegImage(u, false, RY) == RegImage(v, false, RY) && RegImage(u, false, ROther) == RegImage(v, false, ROther);
    ByteImages(u, v);
  }

  lemma ByteImages(u: State, v: State)
    ensures RegImage(u, false, RA) == RegImage(v, false, RA) ==> u.a == v.a
    ensures RegImage(u, false, RB) == RegImage(v, false, RB) ==> u.b == v.b
    ensures RegImage(u, false, RDP) == RegImage(v, false, RDP) ==> u.dp == v.dp
  {
  }

  // ----- whole runs -----

  /** An open frame: whom it interrupted and how much was stacked. */
  datatype Frame = Frame(saved: State, full: bool)
  datatype Config = Config(st: State, frames: seq<Frame>)

  /** `Code(after)` stands for any stretch of ordinary instructions, ending in state `after`. */
  datatype Event = Interrupt(k: Entry) | Code(after: State) | Return

  function FrameBase(f: Frame): word { Plus(f.saved.s, 0 - FrameSize(f.full)) }

  predicate Disjoint(a: word, m: nat, b: word, n: nat) {
    forall x: word :: !(Within(x, a, m) && Within(x, b, n))
  }

  /** Handlers keep the bytes of the open frames, the stack does not run into them, and a handler
      returns with S back at its own frame. */
  predicate Legal(c: Config, e: Event) {
    match e
    case Interrupt(k) =>
      !c.st.waiting && forall f :: f in c.frames ==>
        Disjoint(Plus(c.st.s, 0 - FrameSize(Full(k))), FrameSize(Full(k)), FrameBase(f), FrameSize(f.full))
    case Code(t) =>
      !t.waiting && forall f :: f in c.frames ==> SameBytes(c.st.mem, t.mem, FrameBase(f), FrameSize(f.full))
    case Return => c.frames != [] && c.st.s == FrameBase(c.frames[0])
  }

  function Apply(c: Config, e: Event): Config
    requires Legal(c, e)
  {
    match e
    case Interrupt(k) => Config(Enter(c.st, k), [Frame(Interrupted(c.st, k), Full(k))] + c.frames)
    case Code(t) => Config(t, c.frames)
    case Return => Config(ExecRti(c.st), c.frames[1..])
  }

  /** Every open frame still lies in memory, with its E bit telling its true size. */
  predicate FramesIntact(c: Config) {
    !c.st.waiting && forall f :: f in c.frames ==> Stored(c.st.mem, FrameBase(f), FrameImage(f.saved, f.full))
  }

  lemma EventKeepsFrames(c: Config, e: Event)
    requires FramesIntact(c) && Legal(c, e)
    ensures FramesIntact(Apply(c, e))
  {
    hide Stored, FrameImage, SameBytes, Enter, ExecRti, Interrupted;
    match e
    case Interrupt(k) =>
      EnterStores(c.st, k);
      var t := Enter(c.st, k);
      InterruptedS(c.st, k);
      forall f | f in c.frames ensures Stored(t.mem, FrameBase(f), FrameImage(f.saved, f.full)) {
        DisjointSame(c.st.mem, t.mem, t.s, FrameSize(Full(k)), FrameBase(f), FrameSize(f.full));
        StoredCopy(c.st.mem, t.mem, FrameBase(f), FrameImage(f.saved, f.full));
      }
    case Code(t) =>
      forall f | f in c.frames ensures Stored(t.mem, FrameBase(f), FrameImage(f.saved, f.full)) {
        StoredCopy(c.st.mem, t.mem, FrameBase(f), FrameImage(f.saved, f.full));
      }
    case Return =>
      var f := c.frames[0];
      RtiRestores(c.st, f.saved, f.full);
      RtiKeepsWaiting(c.st);
  }

  lemma InterruptedS(s: State, k: Entry)
    ensures Interrupted(s, k).s == s.s
  {
  }

  lemma RtiKeepsWaiting(s: State)
    ensures ExecRti(s).waiting == s.waiting
  {
    hide PullReg, PullList;
    var t := PullReg(Spend(s, 6), false, RCC);
    PullRegFrame(Spend(s, 6), false, RCC);
    PullListFrame(Spend(t, 9), false, [RA, RB, RDP, RX, RY, ROther]);
    PullRegFrame(if t.cc.e then PullList(Spend(t, 9), false, [RA, RB, RDP, RX, RY, ROther]) else t, false, RPC);
  }

  lemma DisjointSame(m: Memory, m': Memory, a: word, n: nat, b: word, k: nat)
    requires Disjoint(a, n, b, k) && k <= M64K
    requires forall x: word :: !Within(x, a, n) ==> m'[x] == m[x]
    ensures SameBytes(m, m', b, k)
  {
    hide Within;
    forall i | 0 <= i < k ensures m'[Plus(b, i)] == m[Plus(b, i)] {
      WithinPlus(b, k, i);
    }
  }

  predicate LegalRun(c: Config, es: seq<Event>)
    decreases |es|
  {
    es != [] ==> Legal(c, es[0]) && LegalRun(Apply(c, es[0]), es[1..])
  }

  function RunEvents(c: Config, es: seq<Event>): Config
    requires LegalRun(c, es)
    decreases |es|
  {
    if es == [] then c else RunEvents(Apply(c, es[0]), es[1..])
  }

  /** The entries and returns of `es` match up, after `d` returns for entries made before. */
  predicate Balanced(es: seq<Event>, d: nat)
    decreases |es|
  {
    if es == [] then d == 0
    else match es[0]
         case Interrupt(_) => Balanced(es[1..], d + 1)
         case Code(_) => Balanced(es[1..], d)
         case Return => d > 0 && Balanced(es[1..], d - 1)
  }

  /** Every legal run keeps the open frames intact, and a balanced one closes what it opened. */
  lemma {:induction false} RunKeepsFrames(c: Config, es: seq<Event>, d: nat)
    requires FramesIntact(c) && LegalRun(c, es) && d <= |c.frames|
    ensures FramesIntact(RunEvents(c, es))
    ensures Balanced(es, d) ==> RunEvents(c, es).frames == c.frames[d..]
    decreases |es|
  {
    hide FramesIntact, Legal, Enter, ExecRti, Interrupted;
    if es != [] {
      var c' := Apply(c, es[0]);
      EventKeepsFrames(c, es[0]);
      match es[0] {
        case Interrupt(_) =>
          RunKeepsFrames(c', es[1..], d + 1);
          assert c'.frames[d + 1..] == c.frames[d..];
        case Code(_) =>
          RunKeepsFrames(c', es[1..], d);
        case Return =>
          if d > 0 {
            assert c.frames != [] by { ReturnNeedsFrame(c); }
            RunKeepsFrames(c', es[1..], d - 1);
            assert c'.frames[d - 1..] == c.frames[d..];
          } else {
            RunKeepsFrames(c', es[1..], 0);
          }
      }
    }
  }

  lemma ReturnNeedsFrame(c: Config)
    requires Legal(c, Return)
    ensures c.frames != []
  {
  }

  /** For every balanced handler body, whatever interrupts it takes in turn, the matching RTI gives
      the interrupted program back its S, PC and CC (E tells the frame size), and after a full frame
      all its registers. */
  lemma NestedReturn(c: Config, k: Entry, body: seq<Event>)
    requires FramesIntact(c) && Legal(c, Interrupt(k))
    requires LegalRun(Apply(c, Interrupt(k)), body) && Balanced(body, 0)
    requires Legal(RunEvents(Apply(c, Interrupt(k)), body), Return)
    ensures var inner := RunEvents(Apply(c, Interrupt(k)), body);
            var after := Apply(inner, Return);
            && after.frames == c.frames && FramesIntact(after)
            && Unpack(inner.st.mem[inner.st.s]).e == Full(k)
            && Restored(Interrupted(c.st, k), Full(k), inner.st, after.st)
            && after.st.s == c.st.s
  {
    hide Enter, ExecRti, Interrupted, Legal, LegalRun, RunEvents, Balanced, Unpack, FramesIntact;
    var c1 := Apply(c, Interrupt(k));
    EventKeepsFrames(c, Interrupt(k));
    RunKeepsFrames(c1, body, 0);
    var inner := RunEvents(c1, body);
    assert c1.frames[0..] == c1.frames;
    assert c1.frames[1..] == c.frames;
    EventKeepsFrames(inner, Return);
    ReturnRestores(inner);
    InterruptedS(c.st, k);
  }

  /** One return from the innermost open frame. */
  lemma ReturnRestores(c: Config)
    requires FramesIntact(c) && Legal(c, Return)
    ensures var f := c.frames[0];
            && Unpack(c.st.mem[c.st.s]).e == f.full
            && Restored(f.saved, f.full, c.st, Apply(c, Return).st)
  {
    hide ExecRti, Stored, Unpack, FrameImage, Restored;
    var f := c.frames[0];
    RtiPullsFrame(c.st, f.saved, f.full);
    RtiRestores(c.st, f.saved, f.full);
  }
}
