/** What short instruction sequences do, from the bytes in memory: compare and branch, call and
    return, store and load. */
module Programs {
  import opened Words
  import opened Alu
  import opened Decoder
  import opened Arch
  import opened Stacking
  import Addressing
  import Effects

  // ----- compare and branch -----

  /** The relation that the branches 0x22 to 0x2f (BHI ... BLE) test after a comparison: unsigned order,
      equality, overflow, sign and signed order of two numbers with `modulus` values. */
  predicate Related(op: byte, x: int, y: int, modulus: int)
    requires modulus > 0
  {
    var sx, sy := if 2 * x < modulus then x else x - modulus, if 2 * y < modulus then y else y - modulus;
    var d := if x >= y then x - y else x - y + modulus;
    if op == 0x22 then x > y else if op == 0x23 then x <= y
    else if op == 0x24 then x >= y else if op == 0x25 then x < y
    else if op == 0x26 then x != y else if op == 0x27 then x == y
    else if op == 0x28 then 0 - modulus <= 2 * (sx - sy) < modulus else if op == 0x29 then !(0 - modulus <= 2 * (sx - sy) < modulus)
    else if op == 0x2a then 2 * d < modulus else if op == 0x2b then 2 * d >= modulus
    else if op == 0x2c then sx >= sy else if op == 0x2d then sx < sy
    else if op == 0x2e then sx > sy else sx <= sy
  }

  /** The flags of a comparison of bytes or words, in terms of the wrapped difference. */
  predicate ComparedFlags(cc: Flags, x: int, y: int, modulus: int)
    requires modulus > 0
  {
    var sx, sy := if 2 * x < modulus then x else x - modulus, if 2 * y < modulus then y else y - modulus;
    var d := if x >= y then x - y else x - y + modulus;
    && cc.c == (x < y) && cc.z == (x == y) && cc.n == (2 * d >= modulus)
    && cc.v == (sx - sy != if 2 * d < modulus then d else d - modulus)
  }

  lemma CompareBytes(x: byte, y: byte, cc: Flags)
    ensures ComparedFlags(Binary(CmpOp, x, y, cc).cc, x, y, 256)
  {
    var d: int := if x >= y then x - y else x - y + 256;
    assert (x - y - 0) % 256 == d;
  }

  lemma CompareWords(x: word, y: word, cc: Flags)
    ensures ComparedFlags(Sub16(x, y, cc).cc, x, y, 65536)
  {
    var d: int := if x >= y then x - y else x - y + 65536;
    assert (x - y) % M64K == d;
  }

  lemma BranchTests(op: byte, cc: Flags, x: int, y: int, modulus: int)
    requires 0x22 <= op < 0x30 && (modulus == 256 || modulus == 65536) && 0 <= x < modulus && 0 <= y < modulus
    requires ComparedFlags(cc, x, y, modulus)
    ensures Taken(CondOf(op - 0x20), cc) <==> Related(op, x, y, modulus)
  {
  }

  lemma Opcodes(m: Memory, pc: word)
    ensures m[pc] == 0x81 ==> InsnAt(m, pc) == BinaryAcc(CmpOp, AccA, Immediate) && OpcodeLength(m, pc) == 1
    ensures m[pc] == 0xc1 ==> InsnAt(m, pc) == BinaryAcc(CmpOp, AccB, Immediate) && OpcodeLength(m, pc) == 1
    ensures m[pc] == 0x8c ==> InsnAt(m, pc) == Cmp16(X, Immediate, 4) && OpcodeLength(m, pc) == 1
    ensures m[pc] == 0x7e ==> InsnAt(m, pc) == Jmp(Extended) && OpcodeLength(m, pc) == 1
    ensures m[pc] == 0xbd ==> InsnAt(m, pc) == Jsr(Extended) && OpcodeLength(m, pc) == 1
    ensures m[pc] == 0x8d ==> InsnAt(m, pc) == Bsr && OpcodeLength(m, pc) == 1
    ensures m[pc] == 0x17 ==> InsnAt(m, pc) == LongBsr && OpcodeLength(m, pc) == 1
    ensures m[pc] == 0x39 ==> InsnAt(m, pc) == Rts && OpcodeLength(m, pc) == 1
    ensures m[pc] == 0x20 ==> InsnAt(m, pc) == Bra && OpcodeLength(m, pc) == 1
    ensures m[pc] == 0x16 ==> InsnAt(m, pc) == LongBra && OpcodeLength(m, pc) == 1
    ensures 0x22 <= m[pc] < 0x30 ==> InsnAt(m, pc) == Branch(CondOf(m[pc] - 0x20)) && OpcodeLength(m, pc) == 1
    ensures m[pc] == 0x10 && 0x22 <= m[Plus(pc, 1)] < 0x30 ==>
              InsnAt(m, pc) == LongBranch(CondOf(m[Plus(pc, 1)] - 0x20)) && OpcodeLength(m, pc) == 2
  {
    hide CondOf, Plus;
  }

  /** CMPA #v and CMPB #v. */
  lemma CompareStep(s: State)
    requires !s.ccChanged && (s.mem[s.pc] == 0x81 || s.mem[s.pc] == 0xc1)
    ensures Step(s).Running?
    ensures var t, v := Step(s).st, s.mem[Plus(s.pc, 1)];
            && ComparedFlags(t.cc, if s.mem[s.pc] == 0x81 then s.a else s.b, v, 256)
            && t == s.(pc := Plus(s.pc, 2), clk := s.clk - 2, cc := t.cc)
  {
    hide InsnAt, Plus, Binary, ComparedFlags;
    Opcodes(s.mem, s.pc);
    PlusPlus(s.pc, 1, 1);
    var x, v: byte := if s.mem[s.pc] == 0x81 then s.a else s.b, s.mem[Plus(s.pc, 1)];
    CompareBytes(x, v, s.cc);
    CompareKeeps(x, v, s.cc);
  }

  lemma CompareKeeps(x: byte, y: byte, cc: Flags)
    ensures Binary(CmpOp, x, y, cc).val == x
  {
  }

  /** CMPX #w. */
  lemma CompareXStep(s: State)
    requires !s.ccChanged && s.mem[s.pc] == 0x8c
    ensures Step(s).Running?
    ensures var t, w := Step(s).st, Addressing.WordAt(s.mem, Plus(s.pc, 1));
            ComparedFlags(t.cc, s.x, w, 65536) && t == s.(pc := Plus(s.pc, 3), clk := s.clk - 4, cc := t.cc)
  {
    hide InsnAt, Plus, Sub16, ComparedFlags, Read16, Addressing.WordAt;
    Opcodes(s.mem, s.pc);
    PlusPlus(s.pc, 1, 2);
    Addressing.ReadWord(s.mem);
    CompareWords(s.x, Read16(s.mem, Plus(s.pc, 1)), s.cc);
  }

  /** A short conditional branch goes to its target or to the next instruction. */
  lemma BranchStep(s: State)
    requires !s.ccChanged && 0x22 <= s.mem[s.pc] < 0x30
    ensures Step(s) == Running(s.(pc := Plus(s.pc, if Taken(CondOf(s.mem[s.pc] - 0x20), s.cc)
                                                   then 2 + SignedByte(s.mem[Plus(s.pc, 1)]) else 2),
                                  clk := s.clk - 3))
  {
    hide InsnAt, Plus, Taken, CondOf, SignedByte;
    Opcodes(s.mem, s.pc);
    PlusPlus(s.pc, 1, 1);
    PlusPlus(s.pc, 2, SignedByte(s.mem[Plus(s.pc, 1)]));
  }

  lemma LongBranchStep(s: State)
    requires !s.ccChanged && s.mem[s.pc] == 0x10 && 0x22 <= s.mem[Plus(s.pc, 1)] < 0x30
    ensures var yes := Taken(CondOf(s.mem[Plus(s.pc, 1)] - 0x20), s.cc);
            Step(s) == Running(s.(pc := Plus(s.pc, if yes then 4 + SignedWord(Addressing.WordAt(s.mem, Plus(s.pc, 2))) else 4),
                                  clk := s.clk - if yes then 6 else 5))
  {
    hide InsnAt, Plus, Taken, CondOf, SignedWord, Read16, Addressing.WordAt;
    Opcodes(s.mem, s.pc);
    Addressing.ReadWord(s.mem);
    PlusPlus(s.pc, 2, 2);
    PlusPlus(s.pc, 4, SignedWord(Read16(s.mem, Plus(s.pc, 2))));
  }

  lemma TwoSteps(s: State)
    ensures Steps(s, 2) == match Step(s) case Halted => Halted case Running(t) => Step(t)
  {
    hide Step;
    StepsThenStep(s, 1);
    StepsThenStep(s, 0);
    assert Steps(s, 0) == Running(s);
  }

  /** CMPA #v or CMPB #v, then a short conditional branch: control goes to the target exactly when
      accumulator and operand stand in the relation the branch opcode names. */
  lemma CompareThenBranch(s: State)
    requires !s.ccChanged && (s.mem[s.pc] == 0x81 || s.mem[s.pc] == 0xc1) && 0x22 <= s.mem[Plus(s.pc, 2)] < 0x30
    ensures var acc, v, op := if s.mem[s.pc] == 0x81 then s.a else s.b, s.mem[Plus(s.pc, 1)], s.mem[Plus(s.pc, 2)];
            && Steps(s, 2).Running?
            && Steps(s, 2).st.pc == Plus(s.pc, if Related(op, acc, v, 256) then 4 + SignedByte(s.mem[Plus(s.pc, 3)]) else 4)
  {
    hide Step, Steps, Plus, SignedByte, Related, ComparedFlags, Taken, CondOf;
    TwoSteps(s);
    CompareStep(s);
    var t := Step(s).st;
    BranchStep(t);
    BranchTests(s.mem[Plus(s.pc, 2)], t.cc, if s.mem[s.pc] == 0x81 then s.a else s.b, s.mem[Plus(s.pc, 1)], 256);
    PlusPlus(s.pc, 2, 1); PlusPlus(s.pc, 2, 2);
    PlusPlus(s.pc, 2, 2 + SignedByte(s.mem[Plus(s.pc, 3)]));
  }

  /** CMPX #w, then a long conditional branch. */
  lemma CompareThenLongBranch(s: State)
    requires !s.ccChanged && s.mem[s.pc] == 0x8c && s.mem[Plus(s.pc, 3)] == 0x10 && 0x22 <= s.mem[Plus(s.pc, 4)] < 0x30
    ensures var w, op := Addressing.WordAt(s.mem, Plus(s.pc, 1)), s.mem[Plus(s.pc, 4)];
            && Steps(s, 2).Running?
            && Steps(s, 2).st.pc == Plus(s.pc, if Related(op, s.x, w, 65536)
                                               then 7 + SignedWord(Addressing.WordAt(s.mem, Plus(s.pc, 5))) else 7)
  {
    hide Step, Steps, Plus, SignedWord, Related, ComparedFlags, Taken, CondOf, Addressing.WordAt;
    TwoSteps(s);
    CompareXStep(s);
    var t := Step(s).st;
    PlusPlus(s.pc, 3, 1); PlusPlus(s.pc, 3, 2); PlusPlus(s.pc, 3, 4);
    LongBranchStep(t);
    BranchTests(s.mem[Plus(s.pc, 4)], t.cc, s.x, Addressing.WordAt(s.mem, Plus(s.pc, 1)), 65536);
    PlusPlus(s.pc, 3, 4 + SignedWord(Addressing.WordAt(s.mem, Plus(s.pc, 5))));
  }

  // ----- jumps, calls and returns -----

  lemma Jumps(s: State)
    requires !s.ccChanged
    ensures s.mem[s.pc] == 0x7e ==> Step(s) == Running(s.(pc := Addressing.WordAt(s.mem, Plus(s.pc, 1)), clk := s.clk - 4))
    ensures s.mem[s.pc] == 0x20 ==>
              Step(s) == Running(s.(pc := Plus(s.pc, 2 + SignedByte(s.mem[Plus(s.pc, 1)])), clk := s.clk - 3))
    ensures s.mem[s.pc] == 0x16 ==>
              Step(s) == Running(s.(pc := Plus(s.pc, 3 + SignedWord(Addressing.WordAt(s.mem, Plus(s.pc, 1)))), clk := s.clk - 5))
  {
    hide InsnAt, Plus, SignedByte, SignedWord, Read16, Addressing.WordAt;
    Opcodes(s.mem, s.pc);
    Addressing.ReadWord(s.mem);
    PlusPlus(s.pc, 1, 1); PlusPlus(s.pc, 1, 2);
    PlusPlus(s.pc, 2, SignedByte(s.mem[Plus(s.pc, 1)]));
    PlusPlus(s.pc, 3, SignedWord(Addressing.WordAt(s.mem, Plus(s.pc, 1))));
  }

  /** The return address of a call goes high byte first below S. */
  function Called(s: State, ret: word, target: word, cycles: int): State {
    s.(s := Plus(s.s, -2), mem := s.mem[Plus(s.s, -1) := ret % 256][Plus(s.s, -2) := ret / 256], pc := target, clk := s.clk - cycles)
  }

  lemma CallIs(s: State, n: int, cycles: int, target: word)
    ensures Call(Skip(Spend(s, cycles), n), target) == Called(s, Plus(s.pc, n), target, cycles)
  {
    PlusPlus(s.s, -1, -1);
  }

  lemma Calls(s: State)
    requires !s.ccChanged
    ensures s.mem[s.pc] == 0xbd ==>
              Step(s) == Running(Called(s, Plus(s.pc, 3), Addressing.WordAt(s.mem, Plus(s.pc, 1)), 8))
    ensures s.mem[s.pc] == 0x8d ==>
              Step(s) == Running(Called(s, Plus(s.pc, 2), Plus(s.pc, 2 + SignedByte(s.mem[Plus(s.pc, 1)])), 7))
    ensures s.mem[s.pc] == 0x17 ==>
              Step(s) == Running(Called(s, Plus(s.pc, 3), Plus(s.pc, 3 + SignedWord(Addressing.WordAt(s.mem, Plus(s.pc, 1)))), 9))
  {
    hide Step, Plus, SignedByte, SignedWord, Called, Addressing.WordAt;
    if s.mem[s.pc] == 0xbd { ExtendedCall(s); }
    if s.mem[s.pc] == 0x8d { ShortCall(s); }
    if s.mem[s.pc] == 0x17 { LongCall(s); }
  }

  lemma ExecCalls(s: State)
    ensures Exec(s, Jsr(Extended)) == Running(Call(Skip(Spend(s, 8), 2), Read16(s.mem, s.pc)))
    ensures Exec(s, Bsr) == Running(Call(Skip(Spend(s, 7), 1), Plus(Plus(s.pc, 1), SignedByte(s.mem[s.pc]))))
    ensures Exec(s, LongBsr) == Running(Call(Skip(Spend(s, 9), 2), Plus(Plus(s.pc, 2), SignedWord(Read16(s.mem, s.pc)))))
  {
    hide Call, Plus, SignedByte, SignedWord, Read16;
  }

  lemma SkipSkip(s: State, cycles: int, n: nat)
    ensures Skip(Spend(Skip(s, 1), cycles), n) == Skip(Spend(s, cycles), n + 1)
  {
    hide Plus;
    PlusPlus(s.pc, 1, n);
  }

  lemma NotChanged(s: State, ret: word, target: word, cycles: int)
    ensures Called(s, ret, target, cycles).ccChanged == s.ccChanged
  {
  }

  lemma ExtendedCall(s: State)
    requires !s.ccChanged && s.mem[s.pc] == 0xbd
    ensures Step(s) == Running(Called(s, Plus(s.pc, 3), Addressing.WordAt(s.mem, Plus(s.pc, 1)), 8))
  {
    hide CcModified, Exec, Called, InsnAt, Plus, Read16, Addressing.WordAt, Call;
    Opcodes(s.mem, s.pc);
    Addressing.ReadWord(s.mem);
    PlusPlus(s.pc, 1, 2);
    SkipSkip(s, 8, 2);
    ExecCalls(Skip(s, 1));
    NotChanged(s, Plus(s.pc, 3), Addressing.WordAt(s.mem, Plus(s.pc, 1)), 8);
    CallIs(s, 3, 8, Addressing.WordAt(s.mem, Plus(s.pc, 1)));
  }

  lemma ShortCall(s: State)
    requires !s.ccChanged && s.mem[s.pc] == 0x8d
    ensures Step(s) == Running(Called(s, Plus(s.pc, 2), Plus(s.pc, 2 + SignedByte(s.mem[Plus(s.pc, 1)])), 7))
  {
    hide CcModified, Exec, Called, InsnAt, Plus, SignedByte, Call;
    Opcodes(s.mem, s.pc);
    var n := SignedByte(s.mem[Plus(s.pc, 1)]);
    PlusPlus(s.pc, 1, 1); PlusPlus(s.pc, 2, n);
    SkipSkip(s, 7, 1);
    ExecCalls(Skip(s, 1));
    NotChanged(s, Plus(s.pc, 2), Plus(s.pc, 2 + n), 7);
    CallIs(s, 2, 7, Plus(s.pc, 2 + n));
  }

  lemma LongCall(s: State)
    requires !s.ccChanged && s.mem[s.pc] == 0x17
    ensures Step(s) == Running(Called(s, Plus(s.pc, 3), Plus(s.pc, 3 + SignedWord(Addressing.WordAt(s.mem, Plus(s.pc, 1)))), 9))
  {
    hide CcModified, Exec, Called, InsnAt, Plus, SignedWord, Read16, Addressing.WordAt, Call;
    Opcodes(s.mem, s.pc);
    Addressing.ReadWord(s.mem);
    var n := SignedWord(Addressing.WordAt(s.mem, Plus(s.pc, 1)));
    PlusPlus(s.pc, 1, 2); PlusPlus(s.pc, 3, n);
    SkipSkip(s, 9, 2);
    ExecCalls(Skip(s, 1));
    NotChanged(s, Plus(s.pc, 3), Plus(s.pc, 3 + n), 9);
    CallIs(s, 3, 9, Plus(s.pc, 3 + n));
  }

  lemma ReturnStep(s: State)
    requires !s.ccChanged && s.mem[s.pc] == 0x39
    ensures Step(s) == Running(s.(pc := Addressing.WordAt(s.mem, s.s), s := Plus(s.s, 2), clk := s.clk - 5))
  {
    hide InsnAt, Plus, Read16, Addressing.WordAt;
    Opcodes(s.mem, s.pc);
    Addressing.ReadWord(s.mem);
  }

  /** JSR, BSR or LBSR, then any code that leaves the two bytes and S in place, then RTS: control is
      back behind the call and S where it was. */
  lemma CallThenReturn(s: State, t: State)
    requires !s.ccChanged && (s.mem[s.pc] == 0xbd || s.mem[s.pc] == 0x8d || s.mem[s.pc] == 0x17)
    requires !t.ccChanged && t.mem[t.pc] == 0x39
    requires match Step(s)
             case Halted => false
             case Running(w) => t.s == w.s && t.mem[w.s] == w.mem[w.s] && t.mem[Plus(w.s, 1)] == w.mem[Plus(w.s, 1)]
    ensures Step(t).Running? && Step(t).st.s == s.s
    ensures Step(t).st.pc == Plus(s.pc, if s.mem[s.pc] == 0x8d then 2 else 3)
  {
    hide Step, SignedByte, SignedWord;
    Calls(s);
    ReturnStep(t);
    PlusPlus(s.s, -2, 1); PlusPlus(s.s, -2, 2);
    assert Plus(s.s, 0) == s.s && Plus(s.s, -1) != Plus(s.s, -2);
  }

  // ----- words in memory -----

  function RegWord(s: State, r: Reg16): word {
    var a: int, b: int := s.a, s.b;
    match r case D => 256 * a + b case X => s.x case Y => s.y case U => s.u case S => s.s
  }

  /** A 16-bit store to an extended address puts the high byte first, and the load of the same
      address gives the register back. */
  lemma StoreThenLoadWord(s: State, r: Reg16, base: int, t: State)
    requires Addressing.WordAt(t.mem, t.pc) == Addressing.WordAt(s.mem, s.pc)
    requires match ExecStore16(s, r, Extended, base)
             case Halted => false
             case Running(w) => var a := Addressing.WordAt(s.mem, s.pc); t.mem[a] == w.mem[a] && t.mem[Plus(a, 1)] == w.mem[Plus(a, 1)]
    ensures var a, v := Addressing.WordAt(s.mem, s.pc), RegWord(s, r);
            && ExecStore16(s, r, Extended, base).Running?
            && ExecStore16(s, r, Extended, base).st.mem == s.mem[a := v / 256][Plus(a, 1) := v % 256]
            && ExecLoad16(t, r, Extended, base).Running?
            && RegWord(ExecLoad16(t, r, Extended, base).st, r) == v
  {
    hide Addressing.WordAt;
    Addressing.ReadWord(s.mem); Addressing.ReadWord(t.mem);
    hide Read16;
    var a, v := Addressing.WordAt(s.mem, s.pc), RegWord(s, r);
    assert Plus(a, 1) != a;
    Addressing.PlainAddresses(s, base); Addressing.PlainAddresses(t, base);
    assert RegWord(s, r) == GetReg16(s, r);
    assert Read16(t.mem, a) == v by { WordBack(t.mem, a, v); }
    LoadedWord(t, r, base, v);
  }

  lemma WordBack(m: Memory, a: word, v: word)
    requires m[a] == v / 256 && m[Plus(a, 1)] == v % 256
    ensures Read16(m, a) == v
  {
  }

  lemma LoadedWord(t: State, r: Reg16, base: int, v: word)
    requires Read16(t.mem, Read16(t.mem, t.pc)) == v
    ensures var o := ExecLoad16(t, r, Extended, base); o.Running? && RegWord(o.st, r) == v
  {
    hide Read16;
    JoinHiLo(v);
  }

  // ----- the remaining register instructions -----

  /** ABX adds B unsigned, NOP does nothing, SEX extends its sign into A, MUL multiplies. */
  lemma AbxNop(s: State)
    ensures Exec(s, Abx) == Running(s.(x := (s.x + s.b) % 65536, clk := s.clk - 3))
    ensures Exec(s, Nop) == Running(s.(clk := s.clk - 2))
  {
  }

  lemma SexMul(s: State)
    ensures Exec(s, Sex).Running? && SignedWord(RegWord(Exec(s, Sex).st, D)) == SignedByte(s.b) && Exec(s, Sex).st.b == s.b
    ensures Exec(s, Mul).Running? && RegWord(Exec(s, Mul).st, D) == Product(s.a, s.b) && Exec(s, Mul).st.x == s.x
  {
    hide Product;
    JoinHiLo(Product(s.a, s.b));
  }

  /** For all flags, not only those of a comparison: the branches come in opposite pairs, and the mixed
      tests are made of the simple ones. */
  lemma BranchPairs(cc: Flags)
    ensures Taken(LO, cc) == cc.c && Taken(EQ, cc) == cc.z && Taken(VS, cc) == cc.v && Taken(MI, cc) == cc.n
    ensures Taken(LT, cc) == (Taken(MI, cc) != Taken(VS, cc))
    ensures Taken(LS, cc) == (Taken(LO, cc) || Taken(EQ, cc)) && Taken(LE, cc) == (Taken(LT, cc) || Taken(EQ, cc))
    ensures Taken(HI, cc) == !Taken(LS, cc) && Taken(HS, cc) == !Taken(LO, cc) && Taken(NE, cc) == !Taken(EQ, cc)
    ensures Taken(VC, cc) == !Taken(VS, cc) && Taken(PL, cc) == !Taken(MI, cc)
    ensures Taken(GE, cc) == !Taken(LT, cc) && Taken(GT, cc) == !Taken(LE, cc)
  {
  }

  /** TFR between registers by number: D to X, X to PC, B to A, A to DP, CC to B; and between different
      widths, where 0xff is what arrives. */
  lemma TransferNumbers(s: State)
    ensures s.mem[s.pc] == 0x01 ==> ExecTfr(s).x == RegWord(s, D)
    ensures s.mem[s.pc] == 0x10 ==> RegWord(ExecTfr(s), D) == s.x
    ensures s.mem[s.pc] == 0x15 ==> ExecTfr(s).pc == s.x
    ensures s.mem[s.pc] == 0x98 ==> ExecTfr(s).a == s.b
    ensures s.mem[s.pc] == 0x8b ==> ExecTfr(s).dp == s.a
    ensures s.mem[s.pc] == 0xa9 ==> ExecTfr(s).b == Pack(s.cc)
    ensures s.mem[s.pc] == 0x80 ==> RegWord(ExecTfr(s), D) == 0xff
  {
    hide Pack, Bit;
    WidthBits(s.mem[s.pc]);
    JoinHiLo(s.x);
  }

  /** ADDD and SUBD with an immediate word. */
  lemma WordArithmetic(s: State)
    ensures ExecArith16(s, false, Immediate).Running? && ExecArith16(s, true, Immediate).Running?
    ensures var d, w := RegWord(s, D), Addressing.WordAt(s.mem, s.pc);
            && RegWord(ExecArith16(s, false, Immediate).st, D) == (if d + w < 65536 then d + w else d + w - 65536)
            && RegWord(ExecArith16(s, true, Immediate).st, D) == (if d >= w then d - w else d - w + 65536)
            && ExecArith16(s, false, Immediate).st.cc.c == (d + w >= 65536) && ExecArith16(s, true, Immediate).st.cc.c == (d < w)
  {
    hide SignedWord, Read16, Addressing.WordAt, Join;
    Addressing.ReadWord(s.mem);
    var d, w := RegWord(s, D), Addressing.WordAt(s.mem, s.pc);
    assert Join(s.a, s.b) == d by { DIsJoin(s); }
    SumWraps(d, w);
    JoinHiLo((d + w) % M64K); JoinHiLo((d - w) % M64K);
    DIsJoin(ExecArith16(s, false, Immediate).st); DIsJoin(ExecArith16(s, true, Immediate).st);
  }

  lemma DIsJoin(s: State)
    ensures RegWord(s, D) == Join(s.a, s.b)
  {
  }

  lemma SumWraps(d: word, w: word)
    ensures (d + w) % M64K == (if d + w < 65536 then d + w else d + w - 65536)
    ensures (d - w) % M64K == (if d >= w then d - w else d - w + 65536)
  {
  }

  /** A read-modify-write instruction replaces the byte at its address by the operation's result; TST only looks. */
  lemma ModifiesMemory(s: State, op: UnaryOp)
    ensures var a := Addressing.WordAt(s.mem, s.pc); var r := Unary(op, s.mem[a], s.cc);
            ExecUnaryMem(s, op, Extended)
            == Running(s.(pc := Plus(s.pc, 2), clk := s.clk - 7, cc := r.cc, mem := if op == Tst then s.mem else s.mem[a := r.val]))
  {
    hide Unary;
    Addressing.PlainAddresses(s, 4);
  }

  /** ORCC sets the flags its operand names, ANDCC clears those it does not. */
  lemma OrccSets(s: State)
    ensures var m, cc := s.mem[s.pc], s.cc;
            ExecOrcc(s).cc == Flags(cc.e || Bit(m, 7), cc.f || Bit(m, 6), cc.h || Bit(m, 5), cc.i || Bit(m, 4),
                                    cc.n || Bit(m, 3), cc.z || Bit(m, 2), cc.v || Bit(m, 1), cc.c || Bit(m, 0))
    ensures ExecOrcc(s).ccChanged
  {
    hide Bit, And, Or, Pack;
    UnpackPack(s.cc);
    ByteOps(Pack(s.cc), s.mem[s.pc]);
    MaskedBits(Pack(s.cc), s.mem[s.pc]);
  }

  lemma AndccClears(s: State)
    ensures var m, cc := s.mem[s.pc], s.cc;
            ExecAndcc(s).cc == Flags(cc.e && Bit(m, 7), cc.f && Bit(m, 6), cc.h && Bit(m, 5), cc.i && Bit(m, 4),
                                     cc.n && Bit(m, 3), cc.z && Bit(m, 2), cc.v && Bit(m, 1), cc.c && Bit(m, 0))
    ensures ExecAndcc(s).ccChanged
  {
    hide Bit, And, Or, Pack;
    UnpackPack(s.cc);
    ByteOps(Pack(s.cc), s.mem[s.pc]);
    MaskedBits(Pack(s.cc), s.mem[s.pc]);
  }

  lemma MaskedBits(b: byte, m: byte)
    ensures forall k: nat {:trigger Bit(And(b, m), k)} :: Bit(And(b, m), k) == (Bit(b, k) && Bit(m, k))
    ensures forall k: nat {:trigger Bit(Or(b, m), k)} :: Bit(Or(b, m), k) == (Bit(b, k) || Bit(m, k))
  {
    forall k: nat ensures Bit(And(b, m), k) == (Bit(b, k) && Bit(m, k)) && Bit(Or(b, m), k) == (Bit(b, k) || Bit(m, k)) {
      AndBit(b, m, k);
      OrBit(b, m, k);
    }
  }
}
