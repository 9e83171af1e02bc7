/** Which byte an instruction reaches: every form of the index post byte, direct and extended
    addresses, and the stack idioms they make possible. */
module Addressing {
  import opened Words
  import opened Alu
  import opened Decoder
  import opened Arch
  import opened Stacking
  import Effects
  import PushPull
  import Budget

  /** The pointer registers in the order of the post byte's bits 5 and 6. */
  function Pointer(s: State, k: nat): word
    requires k < 4
  {
    if k == 0 then s.x else if k == 1 then s.y else if k == 2 then s.u else s.s
  }

  function WithPointer(s: State, k: nat, v: word): State
    requires k < 4
  {
    if k == 0 then s.(x := v) else if k == 1 then s.(y := v) else if k == 2 then s.(u := v) else s.(s := v)
  }

  /** A word lies in memory with its high byte first. */
  function WordAt(m: Memory, a: word): word {
    var hi: int, lo: int := m[a], m[(a + 1) % 65536];
    256 * hi + lo
  }

  /** The indirect forms, bit 4 of the post byte, go on to the word found there for three cycles more. */
  function Through(ind: bool, s: State, cycles: int, a: word): Located {
    if ind then At(Spend(s, cycles + 3), WordAt(s.mem, a)) else At(Spend(s, cycles), a)
  }

  function Post(k: nat, ind: bool, form: nat): nat { 0x80 + 32 * k + (if ind then 16 else 0) + form }

  lemma Fields(k: nat, ind: bool, form: nat)
    requires k < 4 && form < 16
    ensures var post := Post(k, ind, form);
            && post < 256 && post / 32 % 4 == k && post % 32 == (if ind then 16 else 0) + form && Bit(post, 4) == ind
  {
    hide Bit;
    var post := Post(k, ind, form);
    LowBits(post);
    assert post / 32 == 4 + k && post / 16 == 8 + 2 * k + (if ind then 1 else 0);
  }

  /** Without the indirection, from the state past the post byte. */
  lemma BaseForm(s: State, k: nat, ind: bool, form: nat)
    requires k < 4 && form < 16 && s.mem[s.pc] == Post(k, ind, form)
    ensures IndexedAddress(s) ==
            var l := IndexedBase(Skip(s, 1), s.mem[s.pc]);
            if ind then Indirect(l) else l
    ensures var s1 := Skip(s, 1); var m := (if ind then 16 else 0) + form;
            var r := if k == 0 then X else if k == 1 then Y else if k == 2 then U else S;
            && GetReg16(s1, r) == Pointer(s, k) && (forall v: word, t: State :: SetReg16(t, r, v) == WithPointer(t, k, v))
            && IndexedBase(s1, s.mem[s.pc]) == if form < 4 then IndexedStep(s1, r, m)
                                               else if form < 8 || form == 11 then IndexedOffset(s1, r, form)
                                               else IndexedStream(s1, r, m)
  {
    hide Bit, IndexedStep, IndexedOffset, IndexedStream;
    Fields(k, ind, form);
  }

  // ----- offsets -----

  /** `,R` and the accumulator offsets `B,R`, `A,R` (signed bytes) and `D,R`. */
  lemma AccumulatorOffsets(s: State, k: nat, ind: bool)
    requires k < 4
    ensures s.mem[s.pc] == Post(k, ind, 4) ==> IndexedAddress(s) == Through(ind, Skip(s, 1), 4, Pointer(s, k))
    ensures s.mem[s.pc] == Post(k, ind, 5) ==>
              IndexedAddress(s) == Through(ind, Skip(s, 1), 5, Plus(Pointer(s, k), SignedByte(s.b)))
    ensures s.mem[s.pc] == Post(k, ind, 6) ==>
              IndexedAddress(s) == Through(ind, Skip(s, 1), 5, Plus(Pointer(s, k), SignedByte(s.a)))
    ensures s.mem[s.pc] == Post(k, ind, 11) ==>
              IndexedAddress(s) == Through(ind, Skip(s, 1), 8, Plus(Pointer(s, k), SignedWord(256 * s.a + s.b)))
  {
    hide IndexedAddress, IndexedBase, IndexedStep, IndexedStream, Pointer, WithPointer, SignedByte, SignedWord, Plus, Read16, WordAt;
    ReadWord(s.mem);
    SignedOffset(Pointer(s, k), 256 * s.a + s.b);
    if s.mem[s.pc] == Post(k, ind, 4) { BaseForm(s, k, ind, 4); }
    if s.mem[s.pc] == Post(k, ind, 5) { BaseForm(s, k, ind, 5); }
    if s.mem[s.pc] == Post(k, ind, 6) { BaseForm(s, k, ind, 6); }
    if s.mem[s.pc] == Post(k, ind, 11) { BaseForm(s, k, ind, 11); }
  }

  /** Added modulo 64K, a word counts as a signed one. */
  lemma SignedOffset(v: word, w: word)
    ensures Plus(v, w) == Plus(v, SignedWord(w))
  {
  }

  /** The five-bit offset held in the post byte itself. */
  lemma SmallOffset(s: State, k: nat, n: int)
    requires k < 4 && -16 <= n < 16 && s.mem[s.pc] == 32 * k + n % 32
    ensures IndexedAddress(s) == At(Spend(Skip(s, 1), 5), Plus(Pointer(s, k), n))
  {
    hide Bit, IndexedStep, IndexedOffset, IndexedStream, Plus;
    SmallFields(k, n);
  }

  lemma SmallFields(k: nat, n: int)
    requires k < 4 && -16 <= n < 16
    ensures var post := 32 * k + n % 32; post < 128 && post / 32 % 4 == k && post % 32 == (if n < 0 then n + 32 else n)
  {
    var m := if n < 0 then n + 32 else n;
    assert n % 32 == m;
    assert (32 * k + m) / 32 == k && (32 * k + m) % 32 == m;
  }

  /** Byte offsets from the instruction stream, to a pointer register or to the address of the next instruction. */
  lemma ByteOffsets(s: State, k: nat, ind: bool)
    requires k < 4
    ensures var n := SignedByte(s.mem[Plus(s.pc, 1)]);
            && (s.mem[s.pc] == Post(k, ind, 8) ==> IndexedAddress(s) == Through(ind, Skip(s, 2), 5, Plus(Pointer(s, k), n)))
            && (s.mem[s.pc] == Post(k, ind, 12) ==> IndexedAddress(s) == Through(ind, Skip(s, 2), 5, Plus(s.pc, 2 + n)))
  {
    hide IndexedAddress, IndexedBase, IndexedStep, IndexedOffset, Pointer, WithPointer, SignedByte, SignedWord, Plus;
    PlusPlus(s.pc, 1, 1);
    PlusPlus(s.pc, 2, SignedByte(s.mem[Plus(s.pc, 1)]));
    ReadWord(s.mem);
    if s.mem[s.pc] == Post(k, ind, 8) { BaseForm(s, k, ind, 8); }
    if s.mem[s.pc] == Post(k, ind, 12) { BaseForm(s, k, ind, 12); }
  }

  /** The same with a signed word. */
  lemma WordOffsets(s: State, k: nat, ind: bool)
    requires k < 4
    ensures var n := SignedWord(WordAt(s.mem, Plus(s.pc, 1)));
            && (s.mem[s.pc] == Post(k, ind, 9) ==> IndexedAddress(s) == Through(ind, Skip(s, 3), 8, Plus(Pointer(s, k), n)))
            && (s.mem[s.pc] == Post(k, ind, 13) ==> IndexedAddress(s) == Through(ind, Skip(s, 3), 9, Plus(s.pc, 3 + n)))
  {
    hide IndexedAddress, IndexedBase, IndexedStep, IndexedOffset, Pointer, WithPointer, SignedByte, SignedWord, Plus, Read16, WordAt;
    var w := WordAt(s.mem, Plus(s.pc, 1));
    PlusPlus(s.pc, 1, 2);
    PlusPlus(s.pc, 3, SignedWord(w));
    SignedOffset(Pointer(s, k), w);
    SignedOffset(Plus(s.pc, 3), w);
    ReadWord(s.mem);
    if s.mem[s.pc] == Post(k, ind, 9) { BaseForm(s, k, ind, 9); }
    if s.mem[s.pc] == Post(k, ind, 13) { BaseForm(s, k, ind, 13); }
  }

  lemma ReadWord(m: Memory)
    ensures forall a: word :: Read16(m, a) == WordAt(m, a)
  {
  }

  /** `[addr]`. */
  lemma ExtendedIndirect(s: State, k: nat)
    requires k < 4 && s.mem[s.pc] == Post(k, true, 15)
    ensures IndexedAddress(s) == Through(true, Skip(s, 3), 6, WordAt(s.mem, Plus(s.pc, 1)))
  {
    hide IndexedAddress, IndexedBase, IndexedStep, IndexedOffset, Plus, Read16, WordAt, Pointer, WithPointer;
    PlusPlus(s.pc, 1, 2);
    ReadWord(s.mem);
    BaseForm(s, k, true, 15);
  }

  // ----- stepping pointers -----

  /** `,R+` and `,-R`, which have no indirect form. */
  lemma SingleSteps(s: State, k: nat)
    requires k < 4
    ensures var p := Pointer(s, k);
            && (s.mem[s.pc] == Post(k, false, 0) ==> IndexedAddress(s) == At(WithPointer(Spend(Skip(s, 1), 6), k, Plus(p, 1)), p))
            && (s.mem[s.pc] == Post(k, false, 2) ==>
                  IndexedAddress(s) == At(WithPointer(Spend(Skip(s, 1), 6), k, Plus(p, -1)), Plus(p, -1)))
  {
    hide IndexedAddress, IndexedBase, IndexedOffset, IndexedStream, Pointer, WithPointer;
    if s.mem[s.pc] == Post(k, false, 0) { BaseForm(s, k, false, 0); }
    if s.mem[s.pc] == Post(k, false, 2) { BaseForm(s, k, false, 2); }
  }

  /** `,R++` and `,--R`. */
  lemma DoubleSteps(s: State, k: nat, ind: bool)
    requires k < 4
    ensures var p := Pointer(s, k);
            && (s.mem[s.pc] == Post(k, ind, 1) ==> IndexedAddress(s) == Through(ind, WithPointer(Skip(s, 1), k, Plus(p, 2)), 7, p))
            && (s.mem[s.pc] == Post(k, ind, 3) ==>
                  IndexedAddress(s) == Through(ind, WithPointer(Skip(s, 1), k, Plus(p, -2)), 7, Plus(p, -2)))
  {
    hide IndexedAddress, IndexedBase, IndexedOffset, IndexedStream, Pointer, WithPointer, Plus, Read16, WordAt;
    ReadWord(s.mem);
    ChargedPointer(Skip(s, 1), k, 7, Plus(Pointer(s, k), 2));
    ChargedPointer(Skip(s, 1), k, 7, Plus(Pointer(s, k), -2));
    if s.mem[s.pc] == Post(k, ind, 1) { BaseForm(s, k, ind, 1); }
    if s.mem[s.pc] == Post(k, ind, 3) { BaseForm(s, k, ind, 3); }
  }

  lemma ChargedPointer(s: State, k: nat, n: int, v: word)
    requires k < 4
    ensures WithPointer(Spend(s, n), k, v) == Spend(WithPointer(s, k, v), n) && WithPointer(s, k, v).mem == s.mem
  {
  }

  /** The post bytes that stop the emulator. */
  lemma IllegalPosts(s: State)
    ensures var post := s.mem[s.pc]; var m := post % 32;
            IndexedAddress(s) == BadPost <==>
              post >= 128 && (m == 7 || m == 10 || m == 14 || m == 15 || m == 16 || m == 18 || m == 23 || m == 26 || m == 30)
  {
    hide Bit, GetReg16, SetReg16, Read16, SignedByte;
  }

  /** Direct addresses put DP above the operand byte; extended ones are the operand word. */
  lemma PlainAddresses(s: State, base: int)
    ensures Address(s, Direct, base) == At(Spend(Skip(s, 1), base), 256 * s.dp + s.mem[s.pc])
    ensures Address(s, Extended, base) == At(Spend(Skip(s, 2), base + 1), WordAt(s.mem, s.pc))
  {
  }

  // ----- stack idioms -----

  lemma StaOpcode(m: Memory, pc: word)
    ensures m[pc] == 0xa7 ==> InsnAt(m, pc) == Store8(AccA, Indexed) && OpcodeLength(m, pc) == 1
    ensures m[pc] == 0xa6 ==> InsnAt(m, pc) == BinaryAcc(LdOp, AccA, Indexed) && OpcodeLength(m, pc) == 1
    ensures m[pc] == 0x30 ==> InsnAt(m, pc) == Lea(X) && OpcodeLength(m, pc) == 1
    ensures m[pc] == 0x31 ==> InsnAt(m, pc) == Lea(Y) && OpcodeLength(m, pc) == 1
    ensures m[pc] == 0x32 ==> InsnAt(m, pc) == Lea(S) && OpcodeLength(m, pc) == 1
    ensures m[pc] == 0x33 ==> InsnAt(m, pc) == Lea(U) && OpcodeLength(m, pc) == 1
    ensures m[pc] == 0x1f ==> InsnAt(m, pc) == Tfr && OpcodeLength(m, pc) == 1
  {
  }

  lemma ExecForms(s: State, r: Reg16)
    ensures Exec(s, Store8(AccA, Indexed)) == ExecStore8(s, AccA, Indexed)
    ensures Exec(s, BinaryAcc(LdOp, AccA, Indexed)) == ExecBinary(s, LdOp, AccA, Indexed)
    ensures Exec(s, Lea(r)) == ExecLea(s, r) && Exec(s, Tfr) == Running(ExecTfr(s))
  {
    hide ExecStore8, ExecBinary, ExecLea, ExecTfr;
  }

  lemma AccAt(s: State, t: State, ea: word)
    requires IndexedAddress(s) == At(t, ea)
    ensures ExecStore8(s, AccA, Indexed)
            == Running(t.(mem := t.mem[ea := t.a], cc := t.cc.(n := t.a >= 128, z := t.a == 0, v := false)))
  {
    hide IndexedAddress;
    assert Spend(s, 0) == s;
  }

  lemma AccFrom(s: State, t: State, ea: word)
    requires IndexedAddress(s) == At(t, ea)
    ensures var v := t.mem[ea];
            ExecBinary(s, LdOp, AccA, Indexed) == Running(t.(a := v, cc := t.cc.(n := v >= 128, z := v == 0, v := false)))
  {
    hide IndexedAddress, Binary;
    assert Spend(s, 0) == s;
    assert Operand8(s, Indexed) == Got(t, t.mem[ea]);
    LoadFlags(t.a, t.mem[ea], t.cc);
  }

  lemma LoadFlags(x: byte, v: byte, cc: Flags)
    ensures Binary(LdOp, x, v, cc) == Result(v, cc.(n := v >= 128, z := v == 0, v := false))
  {
  }

  lemma SkipKeeps(s: State, k: nat)
    requires k < 4
    ensures Pointer(Skip(s, 1), k) == Pointer(s, k)
  {
  }

  lemma WithPointerKeeps(s: State, k: nat, v: word)
    requires k < 4
    ensures var t := WithPointer(s, k, v);
            && t.a == s.a && t.mem == s.mem && t.cc == s.cc && t.ccChanged == s.ccChanged
            && (forall j :: 0 <= j < 4 ==> Pointer(t, j) == if j == k then v else Pointer(s, j))
            && (forall pc: word, clk: int :: WithPointer(s.(pc := pc, clk := clk), k, v) == t.(pc := pc, clk := clk))
  {
  }

  /** STA ,-R: A below the pointer, the pointer one lower, nothing else but N, Z, V, PC and the clock. */
  lemma StorePushes(s: State, k: nat)
    requires k < 4 && !s.ccChanged && s.mem[s.pc] == 0xa7 && s.mem[Plus(s.pc, 1)] == Post(k, false, 2)
    ensures var p := Plus(Pointer(s, k), -1);
            Step(s) == Running(WithPointer(s, k, p).(mem := s.mem[p := s.a], pc := Plus(s.pc, 2), clk := s.clk - 6,
                                                     cc := s.cc.(n := s.a >= 128, z := s.a == 0, v := false)))
  {
    hide Exec, IndexedAddress, InsnAt, Plus, Pointer, WithPointer, ExecStore8, ExecBinary, Post;
    StaOpcode(s.mem, s.pc);
    var s1 := Skip(s, 1);
    ExecForms(s1, X);
    SingleSteps(s1, k);
    PlusPlus(s.pc, 1, 1);
    SkipKeeps(s, k);
    WithPointerKeeps(s, k, Plus(Pointer(s, k), -1));
    AccAt(s1, WithPointer(Spend(Skip(s1, 1), 6), k, Plus(Pointer(s, k), -1)), Plus(Pointer(s, k), -1));
  }

  /** LDA ,R+: A from the pointer, the pointer one higher. */
  lemma LoadPulls(s: State, k: nat)
    requires k < 4 && !s.ccChanged && s.mem[s.pc] == 0xa6 && s.mem[Plus(s.pc, 1)] == Post(k, false, 0)
    ensures var p := Pointer(s, k); var v := s.mem[p];
            Step(s) == Running(WithPointer(s, k, Plus(p, 1)).(a := v, pc := Plus(s.pc, 2), clk := s.clk - 6,
                                                              cc := s.cc.(n := v >= 128, z := v == 0, v := false)))
  {
    hide Exec, IndexedAddress, InsnAt, Plus, Pointer, WithPointer, ExecStore8, ExecBinary, Post;
    StaOpcode(s.mem, s.pc);
    var s1 := Skip(s, 1);
    ExecForms(s1, X);
    SingleSteps(s1, k);
    PlusPlus(s.pc, 1, 1);
    SkipKeeps(s, k);
    WithPointerKeeps(s, k, Plus(Pointer(s, k), 1));
    AccFrom(s1, WithPointer(Spend(Skip(s1, 1), 6), k, Plus(Pointer(s, k), 1)), Pointer(s, k));
  }

  /** STA ,-R, then anything that leaves the pointer and the byte alone, then LDA ,R+: the pointer is
      back and A is the byte stored. */
  lemma StoreThenLoad(s: State, t: State, k: nat)
    requires k < 4 && !s.ccChanged && s.mem[s.pc] == 0xa7 && s.mem[Plus(s.pc, 1)] == Post(k, false, 2)
    requires !t.ccChanged && t.mem[t.pc] == 0xa6 && t.mem[Plus(t.pc, 1)] == Post(k, false, 0)
    requires match Step(s)
             case Halted => false
             case Running(w) => Pointer(t, k) == Pointer(w, k) && t.mem[Pointer(w, k)] == w.mem[Pointer(w, k)]
    ensures Step(t).Running? && Step(t).st.a == s.a && Pointer(Step(t).st, k) == Pointer(s, k)
  {
    hide Step, Plus;
    StorePushes(s, k);
    LoadPulls(t, k);
    PlusPlus(Pointer(s, k), -1, 1);
    PushPull.PlusZero(Pointer(s, k));
  }

  lemma OnlyA()
    ensures RegList(0x02) == [RA] && TotalSize([RA]) == 1
  {
    hide Bit;
    TwoBits();
    assert [RA][1..] == [];
  }

  lemma TwoBits()
    ensures !Bit(2, 0) && Bit(2, 1) && !Bit(2, 2) && !Bit(2, 3) && !Bit(2, 4) && !Bit(2, 5) && !Bit(2, 6) && !Bit(2, 7)
  {
    BitDown4(2, 4); BitDown4(2, 5); BitDown4(2, 6); BitDown4(2, 7);
    assert Bit(1, 0) && !Bit(0, 0) && !Bit(0, 1) && !Bit(0, 2) && !Bit(0, 3);
  }

  /** PSHS A and STA ,-S (PSHU A and STA ,-U) do the same to memory and to the stack pointer. */
  lemma StoreIsPush(s: State, t: State, user: bool)
    requires !s.ccChanged && s.mem[s.pc] == 0xa7 && s.mem[Plus(s.pc, 1)] == Post(if user then 2 else 3, false, 2)
    requires !t.ccChanged && t.mem[t.pc] == (if user then 0x36 else 0x34) && t.mem[Plus(t.pc, 1)] == 0x02
    requires t.a == s.a && Sp(t, user) == Sp(s, user)
    ensures Step(s).Running? && Step(t).Running?
    ensures var v, w, p := Step(s).st, Step(t).st, Plus(Sp(s, user), -1);
            Sp(v, user) == Sp(w, user) == p && v.mem == s.mem[p := s.a] && w.mem == t.mem[p := s.a]
  {
    hide Step, Plus;
    StorePushes(s, if user then 2 else 3);
    PshA(t, user);
  }

  lemma PshA(t: State, user: bool)
    requires !t.ccChanged && t.mem[t.pc] == (if user then 0x36 else 0x34) && t.mem[Plus(t.pc, 1)] == 0x02
    ensures var p := Plus(Sp(t, user), -1);
            Step(t) == Running(WithSp(t, user, p).(mem := t.mem[p := t.a], pc := Plus(t.pc, 2), clk := t.clk - 6))
  {
    hide Step, Plus, InsnAt;
    assert InsnAt(t.mem, t.pc) == Psh(user) by { PshOpcode(t.mem, t.pc, user); }
    PushPull.PshStep(t, user, 0x02);
    OnlyA();
    assert [RA][1..] == [] && PushList(Skip(t, 2), user, []) == Skip(t, 2);
    assert PushList(Skip(t, 2), user, [RA]) == PushReg(Skip(t, 2), user, RA);
  }

  lemma PshOpcode(m: Memory, pc: word, user: bool)
    requires m[pc] == (if user then 0x36 else 0x34)
    ensures InsnAt(m, pc) == Psh(user)
  {
  }

  /** PULS A and LDA ,S+ (PULU A and LDA ,U+) load the same byte and move the pointer alike. */
  lemma LoadIsPull(s: State, t: State, user: bool)
    requires !s.ccChanged && s.mem[s.pc] == 0xa6 && s.mem[Plus(s.pc, 1)] == Post(if user then 2 else 3, false, 0)
    requires !t.ccChanged && t.mem[t.pc] == (if user then 0x37 else 0x35) && t.mem[Plus(t.pc, 1)] == 0x02
    requires Sp(t, user) == Sp(s, user) && t.mem[Sp(s, user)] == s.mem[Sp(s, user)]
    ensures Step(s).Running? && Step(t).Running?
    ensures var v, w := Step(s).st, Step(t).st;
            && v.a == w.a == s.mem[Sp(s, user)] && Sp(v, user) == Sp(w, user) == Plus(Sp(s, user), 1)
            && v.mem == s.mem && w.mem == t.mem
  {
    hide Step, Plus;
    LoadPulls(s, if user then 2 else 3);
    PulA(t, user);
  }

  lemma PulA(t: State, user: bool)
    requires !t.ccChanged && t.mem[t.pc] == (if user then 0x37 else 0x35) && t.mem[Plus(t.pc, 1)] == 0x02
    ensures Step(t) == Running(WithSp(t, user, Plus(Sp(t, user), 1)).(a := t.mem[Sp(t, user)], pc := Plus(t.pc, 2), clk := t.clk - 6))
  {
    hide Exec, InsnAt, Plus;
    assert InsnAt(t.mem, t.pc) == Pul(user) by { PulOpcode(t.mem, t.pc, user); }
    PushPull.OneOpcodeByte(t.mem, t.pc, user);
    PushPull.ExecIsPsh(Skip(t, 1), user);
    PlusPlus(t.pc, 1, 1);
    OnlyA();
    var s2 := Skip(t, 2);
    assert [RA][1..] == [];
    assert PullList(s2, user, [RA]) == PullList(PullReg(s2, user, RA), user, []);
    assert PullReg(s2, user, RA).ccChanged == t.ccChanged;
  }

  lemma PulOpcode(m: Memory, pc: word, user: bool)
    requires m[pc] == (if user then 0x37 else 0x35)
    ensures InsnAt(m, pc) == Pul(user)
  {
  }

  // ----- pointers loaded and moved -----

  /** The opcode of LEA for pointer `k`. */
  function LeaOpcode(k: nat): byte { if k == 0 then 0x30 else if k == 1 then 0x31 else if k == 2 then 0x33 else 0x32 }

  /** LEA ,Q loads one pointer register with another; Z follows for X and Y only. */
  lemma LeaMoves(s: State, k: nat, q: nat)
    requires k < 4 && q < 4 && !s.ccChanged && s.mem[s.pc] == LeaOpcode(k) && s.mem[Plus(s.pc, 1)] == Post(q, false, 4)
    ensures var v := Pointer(s, q);
            Step(s) == Running(WithPointer(s, k, v).(pc := Plus(s.pc, 2), clk := s.clk - 4,
                                                     cc := if k < 2 then s.cc.(z := v == 0) else s.cc))
  {
    hide Exec, IndexedAddress, InsnAt, Plus;
    StaOpcode(s.mem, s.pc);
    ExecForms(Skip(s, 1), if k == 0 then X else if k == 1 then Y else if k == 2 then U else S);
    AccumulatorOffsets(Skip(s, 1), q, false);
    PlusPlus(s.pc, 1, 1);
  }

  /** TFR numbers the pointer registers 1 to 4 in the same order: it moves what LEA moves. */
  lemma TransferIsLea(s: State, t: State, k: nat, q: nat)
    requires k < 4 && q < 4 && !s.ccChanged && s.mem[s.pc] == LeaOpcode(k) && s.mem[Plus(s.pc, 1)] == Post(q, false, 4)
    requires !t.ccChanged && t.mem[t.pc] == 0x1f && t.mem[Plus(t.pc, 1)] == 16 * (q + 1) + (k + 1)
    requires forall j :: 0 <= j < 4 ==> Pointer(t, j) == Pointer(s, j)
    ensures Step(s).Running? && Step(t).Running?
    ensures forall j :: 0 <= j < 4 ==> Pointer(Step(t).st, j) == Pointer(Step(s).st, j)
    ensures Step(t).st.cc == t.cc && Step(t).st.mem == t.mem
  {
    hide Step, Plus, WithPointer;
    LeaMoves(s, k, q);
    TransferMoves(t, k, q);
    WithPointerKeeps(s, k, Pointer(s, q));
    WithPointerKeeps(t, k, Pointer(t, q));
    forall j | 0 <= j < 4 ensures Pointer(Step(t).st, j) == Pointer(Step(s).st, j) {
      assert Pointer(Step(t).st, j) == Pointer(WithPointer(t, k, Pointer(t, q)), j);
      assert Pointer(Step(s).st, j) == Pointer(WithPointer(s, k, Pointer(s, q)), j);
    }
  }

  lemma TransferMoves(t: State, k: nat, q: nat)
    requires k < 4 && q < 4 && !t.ccChanged && t.mem[t.pc] == 0x1f && t.mem[Plus(t.pc, 1)] == 16 * (q + 1) + (k + 1)
    ensures Step(t) == Running(WithPointer(t, k, Pointer(t, q)).(pc := Plus(t.pc, 2), clk := t.clk - 6))
  {
    hide Exec, InsnAt, Plus, Bit;
    StaOpcode(t.mem, t.pc);
    ExecForms(Skip(t, 1), X);
    PlusPlus(t.pc, 1, 1);
    var post := t.mem[Plus(t.pc, 1)];
    assert post / 16 == q + 1 && post % 16 == k + 1;
    WidthBits(post);
  }
}
