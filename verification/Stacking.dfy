/** What pushing a list of registers leaves in memory and what pulling it gets back. */
module Stacking {
  import opened Words
  import opened Alu
  import opened Decoder
  import opened Arch

  // ----- bytes in memory -----

  /** `bs` lies at addresses `a`, `a + 1`, ... modulo 64K. */
  predicate Stored(m: Memory, a: word, bs: seq<byte>) {
    forall i :: 0 <= i < |bs| ==> m[Plus(a, i)] == bs[i]
  }

  /** `x` is one of the `n` addresses from `a` on. */
  predicate Within(x: word, a: word, n: nat) { (x - a) % M64K < n }

  lemma WithinPlus(a: word, n: nat, i: nat)
    requires i < n <= M64K
    ensures Within(Plus(a, i), a, n)
  {
  }

  lemma StoreBelow(m: Memory, p: word, v: byte, bs: seq<byte>)
    requires Stored(m, Plus(p, 1), bs) && |bs| < M64K
    ensures Stored(m[p := v], p, [v] + bs)
  {
    forall i | 0 <= i < |bs| + 1
      ensures m[p := v][Plus(p, i)] == ([v] + bs)[i]
    {
      if i > 0 {
        PlusPlus(p, 1, i - 1);
        assert Plus(p, i) != p;
        assert m[Plus(p, i)] == bs[i - 1];
      }
    }
  }

  lemma StoredPrefix(m: Memory, a: word, bs: seq<byte>, cs: seq<byte>)
    requires Stored(m, a, bs + cs)
    ensures Stored(m, a, bs) && Stored(m, Plus(a, |bs|), cs)
  {
    forall i | 0 <= i < |bs| ensures m[Plus(a, i)] == bs[i] { assert (bs + cs)[i] == bs[i]; }
    forall i | 0 <= i < |cs| ensures m[Plus(Plus(a, |bs|), i)] == cs[i] {
      PlusPlus(a, |bs|, i);
      assert (bs + cs)[|bs| + i] == cs[i];
    }
  }

  /** The `n` bytes from `a` on are the same in both memories. */
  predicate SameBytes(m: Memory, m': Memory, a: word, n: nat) {
    forall i :: 0 <= i < n ==> m'[Plus(a, i)] == m[Plus(a, i)]
  }

  lemma StoredCopy(m: Memory, m': Memory, a: word, bs: seq<byte>)
    requires Stored(m, a, bs) && SameBytes(m, m', a, |bs|)
    ensures Stored(m', a, bs)
  {
  }

  // ----- register images -----

  /** The bytes of a register as they lie on the stack. */
  function RegImage(s: State, user: bool, r: RegId): (bs: seq<byte>)
    ensures |bs| == Size(r)
  {
    match r
    case RCC => [Pack(s.cc)]
    case RA => [s.a]
    case RB => [s.b]
    case RDP => [s.dp]
    case RX => [Hi(s.x), Lo(s.x)]
    case RY => [Hi(s.y), Lo(s.y)]
    case ROther => [Hi(Other(s, user)), Lo(Other(s, user))]
    case RPC => [Hi(s.pc), Lo(s.pc)]
  }

  function Image(s: State, user: bool, rs: seq<RegId>): (bs: seq<byte>)
    ensures |bs| == TotalSize(rs)
  {
    if rs == [] then [] else RegImage(s, user, rs[0]) + Image(s, user, rs[1..])
  }

  /** Everything a frame can hold, except the pointer of the stack it is pushed on. */
  predicate SameRegisters(s: State, t: State, user: bool) {
    && t.a == s.a && t.b == s.b && t.dp == s.dp && t.x == s.x && t.y == s.y && t.pc == s.pc && t.cc == s.cc
    && Other(t, user) == Other(s, user)
  }

  lemma PushByteStored(s: State, user: bool, v: byte, bs: seq<byte>)
    requires Stored(s.mem, Sp(s, user), bs) && |bs| < M64K
    ensures var t := PushByte(s, user, v);
            && Sp(t, user) == Plus(Sp(s, user), -1) && Stored(t.mem, Sp(t, user), [v] + bs)
            && SameRegisters(s, t, user)
            && forall x: word :: x != Sp(t, user) ==> t.mem[x] == s.mem[x]
  {
    hide Stored;
    PlusPlus(Sp(s, user), -1, 1);
    StoreBelow(s.mem, Plus(Sp(s, user), -1), v, bs);
  }

  lemma PushWordStored(s: State, user: bool, w: word, bs: seq<byte>)
    requires Stored(s.mem, Sp(s, user), bs) && |bs| + 2 <= M64K
    ensures var t := PushWord(s, user, w);
            && Sp(t, user) == Plus(Sp(s, user), -2) && Stored(t.mem, Sp(t, user), [Hi(w), Lo(w)] + bs)
            && SameRegisters(s, t, user)
            && forall x: word :: !Within(x, Sp(t, user), 2) ==> t.mem[x] == s.mem[x]
  {
    hide Stored, PushByte;
    var u := PushByte(s, user, Lo(w));
    PushByteStored(s, user, Lo(w), bs);
    PushByteStored(u, user, Hi(w), [Lo(w)] + bs);
    assert [Hi(w)] + ([Lo(w)] + bs) == [Hi(w), Lo(w)] + bs;
    PlusPlus(Sp(s, user), -1, -1);
    PlusPlus(Sp(s, user), -2, 1);
    var p := Plus(Sp(s, user), -2);
    WithinPlus(p, 2, 1); WithinPlus(p, 2, 0);
  }

  /** Pushing one register: its image appears just below what is stacked already. */
  lemma PushRegStored(s: State, user: bool, r: RegId, bs: seq<byte>)
    requires Stored(s.mem, Sp(s, user), bs) && |bs| + Size(r) <= M64K
    ensures var t := PushReg(s, user, r);
            && Sp(t, user) == Plus(Sp(s, user), 0 - Size(r))
            && Stored(t.mem, Sp(t, user), RegImage(s, user, r) + bs)
            && SameRegisters(s, t, user)
            && forall x: word :: !Within(x, Sp(t, user), Size(r)) ==> t.mem[x] == s.mem[x]
  {
    hide Stored, PushByte, PushWord, Pack;
    if Size(r) == 1 {
      var v := RegImage(s, user, r)[0];
      PushByteStored(s, user, v, bs);
      WithinPlus(Plus(Sp(s, user), -1), 1, 0);
    } else {
      var w := if r.RX? then s.x else if r.RY? then s.y else if r.RPC? then s.pc else Other(s, user);
      PushWordStored(s, user, w, bs);
    }
  }

  lemma WithinSplit(x: word, a: word, m: nat, n: nat)
    requires m + n <= M64K
    ensures Within(x, a, m + n) <==> Within(x, a, m) || Within(x, Plus(a, m), n)
  {
    var d := (x - a) % M64K;
    assert (x - Plus(a, m)) % M64K == if d >= m then d - m else d - m + M64K;
  }

  /** Pushing a list on top of what is stacked, at most 64K bytes in all, puts its image below that
      and changes nothing else. */
  lemma {:induction false} PushListOnto(s: State, user: bool, rs: seq<RegId>, bs: seq<byte>)
    requires Stored(s.mem, Sp(s, user), bs) && TotalSize(rs) + |bs| <= M64K
    ensures var t := PushList(s, user, rs);
            && Sp(t, user) == Plus(Sp(s, user), 0 - TotalSize(rs))
            && Stored(t.mem, Sp(t, user), Image(s, user, rs) + bs)
            && SameRegisters(s, t, user)
            && forall x: word :: !Within(x, Sp(t, user), TotalSize(rs)) ==> t.mem[x] == s.mem[x]
  {
    hide Stored, PushReg, RegImage, Within;
    if rs == [] {
      assert [] + bs == bs;
    } else {
      var u := PushList(s, user, rs[1..]);
      var n: int, k: int := TotalSize(rs[1..]), Size(rs[0]);
      var image := Image(s, user, rs[1..]);
      PushListOnto(s, user, rs[1..], bs);
      PushRegStored(u, user, rs[0], image + bs);
      SameImage(s, u, user, rs[0]);
      assert RegImage(s, user, rs[0]) + (image + bs) == Image(s, user, rs) + bs;
      PlusPlus(Sp(s, user), 0 - n, 0 - k);
      var p := Plus(Sp(s, user), 0 - (n + k));
      PlusPlus(Sp(s, user), 0 - (n + k), k);
      forall x: word | !Within(x, p, k + n) ensures !Within(x, p, k) && !Within(x, Plus(p, k), n) {
        WithinSplit(x, p, k, n);
      }
    }
  }

  /** Pushing a list of at most 64K bytes stores its image and changes nothing else. */
  lemma PushListStored(s: State, user: bool, rs: seq<RegId>)
    requires TotalSize(rs) <= M64K
    ensures var t := PushList(s, user, rs);
            && Sp(t, user) == Plus(Sp(s, user), 0 - TotalSize(rs))
            && Stored(t.mem, Sp(t, user), Image(s, user, rs))
            && SameRegisters(s, t, user)
            && forall x: word :: !Within(x, Sp(t, user), TotalSize(rs)) ==> t.mem[x] == s.mem[x]
  {
    hide PushList, Stored, Within, Image;
    StoredNothing(s.mem, Sp(s, user));
    PushListOnto(s, user, rs, []);
    assert Image(s, user, rs) + [] == Image(s, user, rs);
  }

  lemma StoredNothing(m: Memory, a: word)
    ensures Stored(m, a, [])
  {
  }

  lemma SameImage(s: State, t: State, user: bool, r: RegId)
    requires SameRegisters(s, t, user)
    ensures RegImage(t, user, r) == RegImage(s, user, r)
  {
  }

  // ----- pulling -----

  predicate OthersKept(t: State, u: State, user: bool, r: RegId) {
    forall q: RegId :: q != r ==> RegImage(u, user, q) == RegImage(t, user, q)
  }

  lemma PutByteReads(t: State, s: State, user: bool, r: RegId, v: byte)
    requires Size(r) == 1 && RegImage(s, user, r) == [v]
    ensures var u := PutByte(t, r, v);
            Sp(u, user) == Sp(t, user) && u.mem == t.mem
            && RegImage(u, user, r) == [v] && OthersKept(t, u, user, r)
  {
    hide Pack, Unpack;
    PackUnpack(v);
  }

  lemma PutWordReads(t: State, s: State, user: bool, r: RegId, v: word)
    requires Size(r) == 2 && RegImage(s, user, r) == [Hi(v), Lo(v)]
    ensures var u := PutWord(t, user, r, v);
            Sp(u, user) == Sp(t, user) && u.mem == t.mem
            && RegImage(u, user, r) == [Hi(v), Lo(v)] && OthersKept(t, u, user, r)
  {
    hide Pack;
  }

  lemma MoveSp(t: State, user: bool, p: word)
    ensures forall q: RegId :: RegImage(WithSp(t, user, p), user, q) == RegImage(t, user, q)
  {
    hide Pack;
  }

  /** Pulling one register reads its image back; the others and memory keep their contents. */
  lemma PullRegReads(t: State, s: State, user: bool, r: RegId)
    requires Stored(t.mem, Sp(t, user), RegImage(s, user, r))
    ensures var u := PullReg(t, user, r);
            && Sp(u, user) == Plus(Sp(t, user), Size(r)) && u.mem == t.mem
            && RegImage(u, user, r) == RegImage(s, user, r)
            && OthersKept(t, u, user, r)
  {
    hide RegImage, PutByte, PutWord;
    var p := Sp(t, user);
    var bs := RegImage(s, user, r);
    assert t.mem[Plus(p, 0)] == bs[0] && Plus(p, 0) == p;
    MoveSp(t, user, Plus(p, Size(r)));
    if Size(r) == 1 {
      assert bs == [t.mem[p]];
      PutByteReads(WithSp(t, user, Plus(p, 1)), s, user, r, t.mem[p]);
    } else {
      assert t.mem[Plus(p, 1)] == bs[1];
      var v := Read16(t.mem, p);
      JoinSplit(bs[0], bs[1]);
      assert bs == [Hi(v), Lo(v)];
      PutWordReads(WithSp(t, user, Plus(p, 2)), s, user, r, v);
    }
  }

  /** Pulling a list whose image lies on the stack restores every register it names. */
  lemma {:induction false} PullListReads(t: State, s: State, user: bool, rs: seq<RegId>)
    requires Stored(t.mem, Sp(t, user), Image(s, user, rs))
    ensures var u := PullList(t, user, rs);
            && Sp(u, user) == Plus(Sp(t, user), TotalSize(rs)) && u.mem == t.mem
            && forall q: RegId :: RegImage(u, user, q) == RegImage(if q in rs then s else t, user, q)
    decreases |rs|
  {
    hide Stored, PullReg, RegImage;
    if rs != [] {
      var r := rs[0];
      StoredPrefix(t.mem, Sp(t, user), RegImage(s, user, r), Image(s, user, rs[1..]));
      PullRegReads(t, s, user, r);
      var v := PullReg(t, user, r);
      PullListReads(v, s, user, rs[1..]);
      PlusPlus(Sp(t, user), Size(r), TotalSize(rs[1..]));
      forall q: RegId
        ensures RegImage(PullList(t, user, rs), user, q) == RegImage(if q in rs then s else t, user, q)
      {
        assert q in rs <==> q == r || q in rs[1..];
      }
    }
  }

  lemma {:induction false} PullConcat(s: State, user: bool, xs: seq<RegId>, ys: seq<RegId>)
    ensures PullList(s, user, xs + ys) == PullList(PullList(s, user, xs), user, ys)
    decreases |xs|
  {
    hide PullReg;
    if xs == [] {
      assert xs + ys == ys;
    } else {
      assert (xs + ys)[1..] == xs[1..] + ys;
      PullConcat(PullReg(s, user, xs[0]), user, xs[1..], ys);
    }
  }

  /** Equal images are equal registers. */
  lemma ImagesAreRegisters(s: State, t: State, user: bool)
    ensures RegImage(s, user, RCC) == RegImage(t, user, RCC) ==> s.cc == t.cc
    ensures RegImage(s, user, RX) == RegImage(t, user, RX) ==> s.x == t.x
    ensures RegImage(s, user, RY) == RegImage(t, user, RY) ==> s.y == t.y
    ensures RegImage(s, user, ROther) == RegImage(t, user, ROther) ==> Other(s, user) == Other(t, user)
    ensures RegImage(s, user, RPC) == RegImage(t, user, RPC) ==> s.pc == t.pc
  {
    hide Pack, Unpack;
    UnpackPack(s.cc); UnpackPack(t.cc);
    JoinHiLo(s.x); JoinHiLo(t.x); JoinHiLo(s.y); JoinHiLo(t.y);
    JoinHiLo(Other(s, user)); JoinHiLo(Other(t, user)); JoinHiLo(s.pc); JoinHiLo(t.pc);
  }
}
