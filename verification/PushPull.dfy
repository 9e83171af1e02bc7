/** Runs of PSH instructions and the PUL instructions that undo them, of any length: fetch, stack,
    program counter and cycles included. */
module PushPull {
  import opened Words
  import opened Alu
  import opened Decoder
  import opened Arch
  import opened Stacking
  import Effects
  import Budget

  /** The register lists of the post bytes, in pull order: the last pushed lies lowest. */
  function Names(posts: seq<byte>): seq<RegId> {
    if posts == [] then [] else Names(posts[1..]) + RegList(posts[0])
  }

  function Bytes(posts: seq<byte>): nat { TotalSize(Names(posts)) }

  lemma {:induction false} TotalSizeConcat(xs: seq<RegId>, ys: seq<RegId>)
    ensures TotalSize(xs + ys) == TotalSize(xs) + TotalSize(ys)
  {
    if xs == [] {
      assert xs + ys == ys;
    } else {
      assert (xs + ys)[1..] == xs[1..] + ys;
      TotalSizeConcat(xs[1..], ys);
    }
  }

  lemma BytesStep(posts: seq<byte>)
    requires posts != []
    ensures Bytes(posts) == Bytes(posts[1..]) + TotalSize(RegList(posts[0]))
  {
    hide RegList;
    TotalSizeConcat(Names(posts[1..]), RegList(posts[0]));
  }

  lemma BytesNone()
    ensures Bytes([]) == 0
  {
  }

  // ----- pushing -----

  /** The next instruction is a PSH of `post`. */
  predicate AtPsh(s: State, user: bool, post: byte) {
    InsnAt(s.mem, s.pc) == Psh(user) && s.mem[Plus(s.pc, 1)] == post && !s.ccChanged
  }

  /** The next instructions are PSHs of these post bytes, each as memory spells it when its turn comes. */
  predicate Pushes(s: State, user: bool, posts: seq<byte>)
    decreases |posts|
  {
    posts != [] ==> AtPsh(s, user, posts[0]) && match Step(s) case Halted => false case Running(t) => Pushes(t, user, posts[1..])
  }

  lemma OneOpcodeByte(m: Memory, pc: word, user: bool)
    requires InsnAt(m, pc) == Psh(user) || InsnAt(m, pc) == Pul(user)
    ensures OpcodeLength(m, pc) == 1
  {
  }

  lemma ExecIsPsh(s: State, user: bool)
    ensures Exec(s, Psh(user)) == Running(ExecPsh(s, user)) && Exec(s, Pul(user)) == Running(ExecPul(s, user))
  {
    hide ExecPsh, ExecPul;
  }

  lemma PshStep(s: State, user: bool, post: byte)
    requires AtPsh(s, user, post)
    ensures var t := PushList(Skip(s, 2), user, RegList(post));
            Step(s) == Running(Spend(t, 5 + TotalSize(RegList(post)))) && t.clk == s.clk && t.pc == Plus(s.pc, 2)
  {
    hide Exec, PushList, RegList, InsnAt;
    OneOpcodeByte(s.mem, s.pc, user);
    ExecIsPsh(Skip(s, 1), user);
    PlusPlus(s.pc, 1, 1);
    Effects.PushListFrame(Skip(s, 2), user, RegList(post));
  }

  /** What the pushes leave on the stack.  Each one stacks the PC just past its own post byte. */
  function Frames(s: State, user: bool, posts: seq<byte>): (bs: seq<byte>)
    ensures |bs| == Bytes(posts)
    decreases |posts|
  {
    if posts == [] then []
    else
      TotalSizeConcat(Names(posts[1..]), RegList(posts[0]));
      Frames(Skip(s, 2), user, posts[1..]) + Image(Skip(s, 2), user, RegList(posts[0]))
  }

  lemma {:induction false} SameImages(s: State, t: State, user: bool, rs: seq<RegId>)
    requires SameRegisters(s, t, user)
    ensures Image(t, user, rs) == Image(s, user, rs)
  {
    hide RegImage, SameRegisters;
    if rs != [] {
      SameImage(s, t, user, rs[0]);
      SameImages(s, t, user, rs[1..]);
    }
  }

  lemma {:induction false} SameFrames(s: State, t: State, user: bool, posts: seq<byte>)
    requires SameRegisters(s, t, user)
    ensures Frames(t, user, posts) == Frames(s, user, posts)
    decreases |posts|
  {
    hide RegList, Image, Names;
    if posts != [] {
      SameFrames(Skip(s, 2), Skip(t, 2), user, posts[1..]);
      SameImages(Skip(s, 2), Skip(t, 2), user, RegList(posts[0]));
    }
  }

  /** All that a push run changes besides memory, the stack pointer, PC and the clock: nothing. */
  predicate KeepsRegisters(s: State, t: State, user: bool) { SameRegisters(s.(pc := t.pc), t, user) }

  /** One PSH instruction. */
  lemma PshStores(s: State, user: bool, post: byte, bs: seq<byte>)
    requires AtPsh(s, user, post) && Stored(s.mem, Sp(s, user), bs) && TotalSize(RegList(post)) + |bs| <= M64K
    ensures Step(s).Running?
    ensures var t, k := Step(s).st, TotalSize(RegList(post));
            && Sp(t, user) == Plus(Sp(s, user), 0 - k) && t.clk == s.clk - 5 - k
            && Stored(t.mem, Sp(t, user), Image(Skip(s, 2), user, RegList(post)) + bs)
            && SameRegisters(Skip(s, 2), t, user)
            && forall x: word :: !Within(x, Sp(t, user), k) ==> t.mem[x] == s.mem[x]
  {
    hide Stored, Within, Step, PushList, RegList, Image, AtPsh, Plus;
    PshStep(s, user, post);
    PushListOnto(Skip(s, 2), user, RegList(post), bs);
  }

  lemma RegistersThrough(s: State, t: State, p: State, user: bool)
    requires SameRegisters(Skip(s, 2), t, user) && KeepsRegisters(t, p, user)
    ensures KeepsRegisters(s, p, user) && t.pc == Plus(s.pc, 2)
  {
  }

  lemma {:induction false} PushesStore(s: State, user: bool, posts: seq<byte>, bs: seq<byte>)
    requires Pushes(s, user, posts) && Stored(s.mem, Sp(s, user), bs) && Bytes(posts) + |bs| <= M64K
    ensures Steps(s, |posts|).Running?
    ensures var p := Steps(s, |posts|).st;
            && Sp(p, user) == Plus(Sp(s, user), 0 - Bytes(posts))
            && Stored(p.mem, Sp(p, user), Frames(s, user, posts) + bs)
            && KeepsRegisters(s, p, user) && p.pc == Plus(s.pc, 2 * |posts|)
            && p.clk == s.clk - 5 * |posts| - Bytes(posts)
            && forall x: word :: !Within(x, Sp(p, user), Bytes(posts)) ==> p.mem[x] == s.mem[x]
    decreases |posts|
  {
    hide Stored, Within, Step, RegList, Image, AtPsh, Plus, SameRegisters, KeepsRegisters, Sp, Frames, Bytes, TotalSize;
    if posts == [] {
      BytesNone();
      PlusZero(Sp(s, user)); PlusZero(s.pc);
      NothingChanged(s, user, bs);
    } else {
      var rs := RegList(posts[0]);
      var s2 := Skip(s, 2);
      var k: int, n: int := TotalSize(rs), Bytes(posts[1..]);
      BytesStep(posts);
      PshStores(s, user, posts[0], bs);
      var t := Step(s).st;
      PushesStore(t, user, posts[1..], Image(s2, user, rs) + bs);
      RegistersThrough(s, t, Steps(s, |posts|).st, user);
      FramesThrough(s, t, user, posts, bs);
      PlusPlus(s.pc, 2, 2 * (|posts| - 1));
      PlusPlus(Sp(s, user), 0 - k, 0 - n);
      var p := Plus(Sp(s, user), 0 - k - n);
      PlusPlus(Sp(s, user), 0 - k - n, n);
      MemoryThrough(s.mem, t.mem, Steps(s, |posts|).st.mem, p, n, k);
    }
  }

  lemma FramesThrough(s: State, t: State, user: bool, posts: seq<byte>, bs: seq<byte>)
    requires posts != [] && SameRegisters(Skip(s, 2), t, user)
    ensures Frames(t, user, posts[1..]) + (Image(Skip(s, 2), user, RegList(posts[0])) + bs) == Frames(s, user, posts) + bs
  {
    hide RegList, Image, Names;
    SameFrames(Skip(s, 2), t, user, posts[1..]);
  }

  lemma MemoryThrough(m0: Memory, m1: Memory, m2: Memory, p: word, n: nat, k: nat)
    requires n + k <= M64K
    requires forall x: word :: !Within(x, Plus(p, n), k) ==> m1[x] == m0[x]
    requires forall x: word :: !Within(x, p, n) ==> m2[x] == m1[x]
    ensures forall x: word :: !Within(x, p, n + k) ==> m2[x] == m0[x]
  {
    hide Within, Plus;
    forall x: word | !Within(x, p, n + k) ensures m2[x] == m0[x] {
      WithinSplit(x, p, n, k);
    }
  }

  lemma NothingChanged(s: State, user: bool, bs: seq<byte>)
    ensures KeepsRegisters(s, s, user) && Frames(s, user, []) + bs == bs
  {
  }

  lemma PlusZero(w: word)
    ensures Plus(w, 0) == w
  {
  }

  // ----- pulling -----

  /** The next instruction is a PUL of `post`, and what it pulls does not let an interrupt in. */
  predicate AtPul(s: State, user: bool, post: byte) {
    && InsnAt(s.mem, s.pc) == Pul(user) && s.mem[Plus(s.pc, 1)] == post && !s.ccChanged
    && !Delivers(PullList(Skip(s, 2), user, RegList(post)))
  }

  /** The next instructions are PULs of these post bytes, the last of the list first. */
  predicate Pulls(s: State, user: bool, posts: seq<byte>)
    decreases |posts|
  {
    posts != [] ==>
      Pulls(s, user, posts[1..]) && match Steps(s, |posts| - 1) case Halted => false case Running(t) => AtPul(t, user, posts[0])
  }

  lemma PulStep(s: State, user: bool, post: byte)
    requires AtPul(s, user, post)
    ensures var t := PullList(Skip(s, 2), user, RegList(post));
            Step(s) == Running(Spend(t, 5 + TotalSize(RegList(post))).(ccChanged := false)) && t.clk == s.clk
  {
    hide Exec, PullList, RegList, InsnAt;
    OneOpcodeByte(s.mem, s.pc, user);
    ExecIsPsh(Skip(s, 1), user);
    PlusPlus(s.pc, 1, 1);
    Effects.PullListFrame(Skip(s, 2), user, RegList(post));
  }

  /** Where the pulls end: past their own code, or past the first push that stacked PC and as many
      pulls as came after its own. */
  function PcAfter(s: State, t: State, posts: seq<byte>): word
    decreases |posts|
  {
    if posts == [] then t.pc
    else if RPC in RegList(posts[0]) then Plus(s.pc, 2)
    else Plus(PcAfter(Skip(s, 2), t, posts[1..]), 2)
  }

  lemma {:induction false} PcAfterPlain(s: State, t: State, posts: seq<byte>)
    requires RPC !in Names(posts)
    ensures PcAfter(s, t, posts) == Plus(t.pc, 2 * |posts|)
    decreases |posts|
  {
    hide RegList, Plus;
    if posts == [] {
      PlusZero(t.pc);
    } else {
      PcAfterPlain(Skip(s, 2), t, posts[1..]);
      PlusPlus(t.pc, 2 * (|posts| - 1), 2);
    }
  }

  lemma {:induction false} PcAfterStacked(s: State, t: State, posts: seq<byte>, k: nat)
    requires k < |posts| && RPC in RegList(posts[k]) && forall i :: 0 <= i < k ==> RPC !in RegList(posts[i])
    ensures PcAfter(s, t, posts) == Plus(s.pc, 4 * k + 2)
    decreases k
  {
    hide RegList, Plus;
    if k > 0 {
      assert forall i :: 0 <= i < k - 1 ==> posts[1..][i] == posts[i + 1];
      PcAfterStacked(Skip(s, 2), t, posts[1..], k - 1);
      PlusPlus(s.pc, 2, 4 * (k - 1) + 2);
      PlusPlus(s.pc, 4 * k, 2);
    }
  }

  lemma PcImage(s: State, user: bool, q: RegId)
    requires q != RPC
    ensures RegImage(Skip(s, 2), user, q) == RegImage(s, user, q)
  {
    hide Pack;
  }

  /** The clock and ccChanged are no part of a register's image. */
  lemma ClockImage(s: State, user: bool, n: int, q: RegId)
    ensures RegImage(Spend(s, n).(ccChanged := false), user, q) == RegImage(s, user, q)
  {
    hide Pack;
  }

  lemma {:induction false} PullsRead(t: State, s: State, user: bool, posts: seq<byte>)
    requires Pulls(t, user, posts) && Stored(t.mem, Sp(t, user), Frames(s, user, posts))
    ensures Steps(t, |posts|).Running?
    ensures var u := Steps(t, |posts|).st;
            && Sp(u, user) == Plus(Sp(t, user), Bytes(posts)) && u.mem == t.mem
            && u.pc == PcAfter(s, t, posts) && u.clk == t.clk - 5 * |posts| - Bytes(posts)
            && forall q: RegId :: q != RPC ==> RegImage(u, user, q) == RegImage(if q in Names(posts) then s else t, user, q)
    decreases |posts|
  {
    hide Stored, Step, PullList, RegList, Image, AtPul, Plus, RegImage;
    if posts == [] {
      PlusZero(Sp(t, user));
    } else {
      var rs := RegList(posts[0]);
      var s2 := Skip(s, 2);
      var rest := Frames(s2, user, posts[1..]);
      var image := Image(s2, user, rs);
      StoredPrefix(t.mem, Sp(t, user), rest, image);
      PullsRead(t, s2, user, posts[1..]);
      var v := Steps(t, |posts| - 1).st;
      StepsThenStep(t, |posts| - 1);
      PulStep(v, user, posts[0]);
      TotalSizeConcat(Names(posts[1..]), rs);
      PullListReads(Skip(v, 2), s2, user, rs);
      PlusPlus(Sp(t, user), Bytes(posts[1..]), TotalSize(rs));
      PulledRegisters(t, s, user, posts, v, Steps(t, |posts|).st);
    }
  }

  /** One more pull, register by register. */
  lemma PulledRegisters(t: State, s: State, user: bool, posts: seq<byte>, v: State, u: State)
    requires posts != [] && v.pc == PcAfter(Skip(s, 2), t, posts[1..])
    requires forall q: RegId :: q != RPC ==>
               RegImage(v, user, q) == RegImage(if q in Names(posts[1..]) then Skip(s, 2) else t, user, q)
    requires var w := PullList(Skip(v, 2), user, RegList(posts[0]));
             && (exists n :: u == Spend(w, n).(ccChanged := false))
             && forall q: RegId :: RegImage(w, user, q)
                                   == RegImage(if q in RegList(posts[0]) then Skip(s, 2) else Skip(v, 2), user, q)
    ensures u.pc == PcAfter(s, t, posts)
    ensures forall q: RegId :: q != RPC ==> RegImage(u, user, q) == RegImage(if q in Names(posts) then s else t, user, q)
  {
    hide RegImage, PullList, RegList;
    var rs := RegList(posts[0]);
    var w := PullList(Skip(v, 2), user, rs);
    var n :| u == Spend(w, n).(ccChanged := false);
    ImagesAreRegisters(w, Skip(s, 2), user);
    ImagesAreRegisters(w, Skip(v, 2), user);
    assert RegImage(w, user, RPC) == RegImage(if RPC in rs then Skip(s, 2) else Skip(v, 2), user, RPC);
    forall q: RegId | q != RPC ensures RegImage(u, user, q) == RegImage(if q in Names(posts) then s else t, user, q) {
      ClockImage(w, user, n, q);
      PcImage(s, user, q);
      PcImage(v, user, q);
      assert q in Names(posts) <==> q in rs || q in Names(posts[1..]);
    }
  }

  // ----- together -----

  /** Execute any number of PSH instructions, at most 64K bytes in all; do anything that leaves the
      stacked bytes and the stack pointer in place; execute the PULs in reverse.  The stack pointer
      and every named register are back and the other registers are as the code in between left them.
      PC, if it was stacked, comes back as the address after the first push that stacked it and goes
      on over the remaining pulls.  The pushes write only below the stack; either run costs 5 cycles
      an instruction and one for each byte. */
  lemma PushPullRestores(s: State, user: bool, posts: seq<byte>, t: State)
    requires Pushes(s, user, posts) && Bytes(posts) <= M64K && Pulls(t, user, posts)
    requires match Steps(s, |posts|)
             case Halted => false
             case Running(p) => Sp(t, user) == Sp(p, user) && SameBytes(p.mem, t.mem, Sp(p, user), Bytes(posts))
    ensures Steps(s, |posts|).Running? && Steps(t, |posts|).Running?
    ensures var p := Steps(s, |posts|).st;
            && Sp(p, user) == Plus(Sp(s, user), 0 - Bytes(posts)) && KeepsRegisters(s, p, user)
            && p.pc == Plus(s.pc, 2 * |posts|) && p.clk == s.clk - 5 * |posts| - Bytes(posts)
            && forall x: word :: !Within(x, Sp(p, user), Bytes(posts)) ==> p.mem[x] == s.mem[x]
    ensures var u := Steps(t, |posts|).st;
            && Sp(u, user) == Sp(s, user) && u.mem == t.mem && u.clk == t.clk - 5 * |posts| - Bytes(posts)
            && (forall q: RegId :: q != RPC ==> RegImage(u, user, q) == RegImage(if q in Names(posts) then s else t, user, q))
            && (RPC !in Names(posts) ==> u.pc == Plus(t.pc, 2 * |posts|))
            && (forall k :: 0 <= k < |posts| && RPC in RegList(posts[k]) && (forall i :: 0 <= i < k ==> RPC !in RegList(posts[i]))
                  ==> u.pc == Plus(s.pc, 4 * k + 2))
  {
    hide RegImage, RegList, Names, Bytes, Within, Stored, SameBytes, Steps, Pushes, Pulls, PcAfter, Plus, KeepsRegisters, Frames;
    StoredNothing(s.mem, Sp(s, user));
    PushesStore(s, user, posts, []);
    var p := Steps(s, |posts|).st;
    var fs := Frames(s, user, posts);
    assert fs + [] == fs;
    StoredCopy(p.mem, t.mem, Sp(t, user), fs);
    PullsRead(t, s, user, posts);
    PlusPlus(Sp(s, user), 0 - Bytes(posts), Bytes(posts));
    PlusZero(Sp(s, user));
    if RPC !in Names(posts) { PcAfterPlain(s, t, posts); }
    forall k | 0 <= k < |posts| && RPC in RegList(posts[k]) && (forall i :: 0 <= i < k ==> RPC !in RegList(posts[i]))
      ensures Steps(t, |posts|).st.pc == Plus(s.pc, 4 * k + 2)
    {
      PcAfterStacked(s, t, posts, k);
    }
  }

  /** Such runs exist: a PSH with the matching PUL right behind it, out of reach of the stack and with
      no request latched. */
  lemma PairRuns(s: State, user: bool, post: byte)
    requires AtPsh(s, user, post) && s.irqs == 0 && s.firqs == 0
    requires InsnAt(s.mem, Plus(s.pc, 2)) == Pul(user) && s.mem[Plus(s.pc, 3)] == post
    requires var k := TotalSize(RegList(post));
             && k <= M64K && !Within(Plus(s.pc, 2), Plus(Sp(s, user), 0 - k), k)
             && !Within(Plus(s.pc, 3), Plus(Sp(s, user), 0 - k), k)
    ensures Pushes(s, user, [post]) && Steps(s, 1).Running? && Pulls(Steps(s, 1).st, user, [post])
  {
    hide Step, PushList, PullList, RegList, Stored, Image, Within, InsnAt, Plus;
    StoredNothing(s.mem, Sp(s, user));
    PshStores(s, user, post, []);
    PshStep(s, user, post);
    var s2 := Skip(s, 2);
    var t := Step(s).st;
    Effects.PushListFrame(s2, user, RegList(post));
    PlusPlus(s.pc, 2, 1);
    SameInsn(s.mem, t.mem, t.pc);
    Effects.PullListFrame(Skip(t, 2), user, RegList(post));
    assert AtPul(t, user, post);
    assert [post][1..] == [] && Steps(t, 0) == Running(t);
  }

  lemma SameInsn(m: Memory, m': Memory, pc: word)
    requires m'[pc] == m[pc] && m'[Plus(pc, 1)] == m[Plus(pc, 1)]
    ensures InsnAt(m', pc) == InsnAt(m, pc)
  {
    hide Decode, Decode10, Decode11;
  }

  // ----- what the post byte names -----

  /** One bit a register: bit 0 CC, 1 A, 2 B, 3 DP, 4 X, 5 Y, 6 the other stack pointer, 7 PC. */
  function BitOf(r: RegId): nat {
    match r
    case RCC => 0 case RA => 1 case RB => 2 case RDP => 3 case RX => 4 case RY => 5 case ROther => 6 case RPC => 7
  }

  lemma NamesByBit(post: byte, r: RegId)
    ensures r in RegList(post) <==> Bit(post, BitOf(r))
  {
    hide Bit, If;
    var high := If(Bit(post, 4), RX) + (If(Bit(post, 5), RY) + (If(Bit(post, 6), ROther) + If(Bit(post, 7), RPC)));
    FourNames(Bit(post, 4), RX, Bit(post, 5), RY, Bit(post, 6), ROther, Bit(post, 7), RPC, r);
    FourNames(Bit(post, 0), RCC, Bit(post, 1), RA, Bit(post, 2), RB, Bit(post, 3), RDP, r);
    var low := If(Bit(post, 0), RCC) + (If(Bit(post, 1), RA) + (If(Bit(post, 2), RB) + If(Bit(post, 3), RDP)));
    assert RegList(post) == low + high;
  }

  lemma FourNames(b0: bool, q0: RegId, b1: bool, q1: RegId, b2: bool, q2: RegId, b3: bool, q3: RegId, r: RegId)
    ensures r in If(b0, q0) + (If(b1, q1) + (If(b2, q2) + If(b3, q3)))
            <==> (b0 && r == q0) || (b1 && r == q1) || (b2 && r == q2) || (b3 && r == q3)
  {
    hide If;
    InIf(b0, q0, r); InIf(b1, q1, r); InIf(b2, q2, r); InIf(b3, q3, r);
  }

  lemma InIf(b: bool, q: RegId, r: RegId)
    ensures r in If(b, q) <==> b && r == q
  {
  }

  /** The bytes each of them puts on the stack, from the lower address up. */
  lemma RegisterBytes(s: State, user: bool)
    ensures RegImage(s, user, RCC) == [Pack(s.cc)] && RegImage(s, user, RA) == [s.a] && RegImage(s, user, RB) == [s.b]
    ensures RegImage(s, user, RDP) == [s.dp] && RegImage(s, user, RX) == [s.x / 256, s.x % 256]
    ensures RegImage(s, user, RY) == [s.y / 256, s.y % 256] && RegImage(s, user, RPC) == [s.pc / 256, s.pc % 256]
    ensures RegImage(s, user, ROther) == if user then [s.s / 256, s.s % 256] else [s.u / 256, s.u % 256]
  {
    hide Pack;
  }

  /** PSHS of everything stacks the bytes of an interrupt frame: CC lowest, PC highest. */
  lemma PushAllIsFrame()
    ensures RegList(0xff) == [RCC, RA, RB, RDP, RX, RY, ROther, RPC]
  {
    Budget.FullList();
  }
}
