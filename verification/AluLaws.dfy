/** What the ALU operations are good for, stated without naming how they are computed: they shift,
    negate and combine numbers, undo each other, and build wider operations. */
module AluLaws {
  import opened Words
  import opened Alu
  import opened WideArithmetic

  // ----- shifts and rotates -----

  /** Through the carry, ROL and ROR undo each other. */
  lemma RotatesInvert(x: byte, cc: Flags)
    ensures var l := Unary(Rol, x, cc); var r := Unary(Ror, l.val, l.cc); r.val == x && r.cc.c == cc.c
    ensures var r := Unary(Ror, x, cc); var l := Unary(Rol, r.val, r.cc); l.val == x && l.cc.c == cc.c
  {
    hide Unary;
    var l, r := Unary(Rol, x, cc), Unary(Ror, x, cc);
    RotateLeft(x, cc); RotateRight(l.val, l.cc);
    RotateRight(x, cc); RotateLeft(r.val, r.cc);
  }

  lemma RotateLeft(x: byte, cc: Flags)
    ensures var l := Unary(Rol, x, cc); l.val + 256 * Carry(l.cc) == 2 * x + Carry(cc)
  {
    hide SignedByte;
    var t: nat := x + x + Carry(cc);
    assert t % 256 == if t < 256 then t else t - 256;
  }

  lemma RotateRight(x: byte, cc: Flags)
    ensures var r := Unary(Ror, x, cc); 2 * r.val + Carry(r.cc) == x + 256 * Carry(cc)
  {
    assert x == 2 * (x / 2) + x % 2;
  }

  /** ASL on the low byte and ROL on the high one double a word, the carry out of the word in C. */
  lemma DoubleWord(hi: byte, lo: byte, cc: Flags)
    ensures var l := Unary(Asl, lo, cc); var h := Unary(Rol, hi, l.cc);
            h.val * 256 + l.val + 65536 * Carry(h.cc) == 2 * (hi * 256 + lo)
  {
    hide Unary;
    ShiftLeft(lo, cc);
    RotateLeft(hi, Unary(Asl, lo, cc).cc);
  }

  lemma ShiftLeft(x: byte, cc: Flags)
    ensures var l := Unary(Asl, x, cc); l.val + 256 * Carry(l.cc) == 2 * x
  {
    hide SignedByte;
  }

  /** LSR (ASR) on the high byte and ROR on the low one halve an unsigned (signed) word, rounding down,
      the remainder in C. */
  lemma HalveWord(hi: byte, lo: byte, cc: Flags)
    ensures var h := Unary(Lsr, hi, cc); var l := Unary(Ror, lo, h.cc);
            2 * (h.val * 256 + l.val) + Carry(l.cc) == hi * 256 + lo
    ensures var h := Unary(Asr, hi, cc); var l := Unary(Ror, lo, h.cc);
            2 * (SignedByte(h.val) * 256 + l.val) + Carry(l.cc) == SignedByte(hi) * 256 + lo
  {
    assert lo == 2 * (lo / 2) + lo % 2 && hi == 2 * (hi / 2) + hi % 2;
    HalveSigned(hi);
  }

  lemma HalveSigned(x: byte)
    ensures SignedByte(SignedByte(x) / 2 % 256) == SignedByte(x) / 2 && SignedByte(x) == 2 * (SignedByte(x) / 2) + x % 2
  {
    var h, b := x / 2, x % 2;
    assert x == 2 * h + b;
    if x >= 128 {
      assert SignedByte(x) == 2 * (h - 128) + b && SignedByte(x) / 2 == h - 128;
      assert (h - 128) % 256 == h + 128;
    } else {
      assert SignedByte(x) / 2 == h && h % 256 == h;
    }
  }

  // ----- negation and counting -----

  /** NEG gives the number that adds up to zero, COM the one that adds up to all ones; the carries say
      whether the operand was zero, and always one. */
  lemma Negations(x: byte, cc: Flags)
    ensures (Unary(Neg, x, cc).val + x) % 256 == 0 && Unary(Neg, x, cc).cc.c == (x != 0)
    ensures Unary(Com, x, cc).val + x == 255 && Unary(Com, x, cc).cc.c
    ensures Unary(Inc, Unary(Com, x, cc).val, cc).val == Unary(Neg, x, cc).val
    ensures Unary(Neg, x, cc).cc.v == (x == 0x80) && !Unary(Com, x, cc).cc.v
  {
  }

  /** INC and DEC undo each other, leave the carry alone and overflow at 0x7f and 0x80 only. */
  lemma Counting(x: byte, cc: Flags)
    ensures Unary(Dec, Unary(Inc, x, cc).val, cc).val == x && Unary(Inc, Unary(Dec, x, cc).val, cc).val == x
    ensures Unary(Inc, x, cc).val == Binary(AddOp, x, 1, cc).val
    ensures Unary(Inc, x, cc).cc.c == Unary(Dec, x, cc).cc.c == cc.c
    ensures Unary(Inc, x, cc).cc.v == (x == 0x7f) && Unary(Dec, x, cc).cc.v == (x == 0x80)
  {
    hide Unary, SignedByte;
    CountOne(x, cc);
    CountOne(Unary(Inc, x, cc).val, cc);
    CountOne(Unary(Dec, x, cc).val, cc);
  }

  lemma CountOne(x: byte, cc: Flags)
    ensures var r := Unary(Inc, x, cc); r.val == (if x == 255 then 0 else x + 1) && r.cc.c == cc.c && r.cc.v == (x == 0x7f)
    ensures var r := Unary(Dec, x, cc); r.val == (if x == 0 then 255 else x - 1) && r.cc.c == cc.c && r.cc.v == (x == 0x80)
  {
  }

  /** TST and CLR. */
  lemma TestAndClear(x: byte, cc: Flags)
    ensures Unary(Tst, x, cc).val == x && Unary(Tst, x, cc).cc == Binary(CmpOp, x, 0, cc).cc.(c := cc.c)
    ensures Unary(Clr, x, cc).val == 0 && Unary(Clr, x, cc).cc == Binary(SubOp, x, x, cc).cc
  {
  }

  /** N and Z of every result are its sign and whether it is zero; compares and tests keep the operand. */
  lemma SignAndZero(op: UnaryOp, bop: BinaryOp, x: byte, y: byte, cc: Flags)
    ensures var r := Unary(op, x, cc); r.cc.n == (SignedByte(r.val) < 0) && r.cc.z == (r.val == 0)
    ensures bop != CmpOp && bop != BitOp ==>
              var r := Binary(bop, x, y, cc); r.cc.n == (SignedByte(r.val) < 0) && r.cc.z == (r.val == 0)
    ensures Binary(CmpOp, x, y, cc).val == x && Binary(BitOp, x, y, cc).val == x
    ensures Binary(CmpOp, x, y, cc).cc == Binary(SubOp, x, y, cc).cc && Binary(BitOp, x, y, cc).cc == Binary(AndOp, x, y, cc).cc
  {
    hide Binary, Unary, SignedByte;
    UnarySign(op, x, cc);
    BinarySign(bop, x, y, cc);
  }

  lemma BinarySign(bop: BinaryOp, x: byte, y: byte, cc: Flags)
    ensures bop != CmpOp && bop != BitOp ==>
              var r := Binary(bop, x, y, cc); r.cc.n == (SignedByte(r.val) < 0) && r.cc.z == (r.val == 0)
    ensures Binary(CmpOp, x, y, cc).val == x && Binary(BitOp, x, y, cc).val == x
    ensures Binary(CmpOp, x, y, cc).cc == Binary(SubOp, x, y, cc).cc && Binary(BitOp, x, y, cc).cc == Binary(AndOp, x, y, cc).cc
  {
    hide And, Or, Xor, SignedByte;
    SignOf(Binary(bop, x, y, cc).val);
  }

  lemma SignOf(x: byte)
    ensures SignedByte(x) < 0 <==> x >= 128
  {
  }

  lemma UnarySign(op: UnaryOp, x: byte, cc: Flags)
    ensures var r := Unary(op, x, cc); r.cc.n == (SignedByte(r.val) < 0) && r.cc.z == (r.val == 0)
  {
    hide SignedByte;
    SignOf(Unary(op, x, cc).val);
  }

  // ----- logic -----

  /** AND, OR and EOR work on each bit by itself; V is cleared and C kept.  LD takes the operand. */
  lemma LogicBits(x: byte, y: byte, k: nat, cc: Flags)
    ensures Bit(Binary(AndOp, x, y, cc).val, k) == (Bit(x, k) && Bit(y, k))
    ensures Bit(Binary(OrOp, x, y, cc).val, k) == (Bit(x, k) || Bit(y, k))
    ensures Bit(Binary(EorOp, x, y, cc).val, k) == (Bit(x, k) != Bit(y, k))
    ensures Binary(LdOp, x, y, cc).val == y
    ensures forall op :: op == AndOp || op == OrOp || op == EorOp || op == LdOp || op == BitOp ==>
              !Binary(op, x, y, cc).cc.v && Binary(op, x, y, cc).cc.c == cc.c
  {
    hide Bit, And, Or, Xor;
    AndBit(x, y, k); OrBit(x, y, k); XorBit(x, y, k);
  }

  // ----- sums -----

  /** ADD and SUB undo each other; without carry in, ADC is ADD and SBC is SUB, operation for operation. */
  lemma SumsInvert(x: byte, y: byte, cc: Flags)
    ensures Binary(SubOp, Binary(AddOp, x, y, cc).val, y, cc).val == x
    ensures Binary(AddOp, x, y, cc).val + 256 * Carry(Binary(AddOp, x, y, cc).cc) == x + y
    ensures !cc.c ==> Binary(AdcOp, x, y, cc) == Binary(AddOp, x, y, cc) && Binary(SbcOp, x, y, cc) == Binary(SubOp, x, y, cc)
    ensures Binary(AddOp, x, y, cc).cc.h == (x % 16 + y % 16 >= 16) && Binary(SubOp, x, y, cc).cc.h == cc.h
  {
    hide SignedByte;
  }

  /** ADDD is ADD on the low bytes and ADC on the high ones, SUBD is SUB and SBC, with the same C, V and N. */
  lemma WordsFromBytes(xh: byte, xl: byte, yh: byte, yl: byte, cc: Flags)
    ensures var l := Binary(AddOp, xl, yl, cc); var h := Binary(AdcOp, xh, yh, l.cc);
            var w := Add16(Join(xh, xl), Join(yh, yl), cc);
            w.val == Join(h.val, l.val) && w.cc.c == h.cc.c && w.cc.v == h.cc.v && w.cc.n == h.cc.n && w.cc.z == (w.val == 0)
    ensures var l := Binary(SubOp, xl, yl, cc); var h := Binary(SbcOp, xh, yh, l.cc);
            var w := Sub16(Join(xh, xl), Join(yh, yl), cc);
            w.val == Join(h.val, l.val) && w.cc.c == h.cc.c && w.cc.v == h.cc.v && w.cc.n == h.cc.n && w.cc.z == (w.val == 0)
  {
    WordSum(xh, xl, yh, yl, cc);
    WordDifference(xh, xl, yh, yl, cc);
  }

  lemma WordSum(xh: byte, xl: byte, yh: byte, yl: byte, cc: Flags)
    ensures var l := Binary(AddOp, xl, yl, cc); var h := Binary(AdcOp, xh, yh, l.cc);
            var w := Add16(Join(xh, xl), Join(yh, yl), cc);
            w.val == Join(h.val, l.val) && w.cc.c == h.cc.c && w.cc.v == h.cc.v && w.cc.n == h.cc.n
  {
    hide Binary, SignedByte, SignedWord, Add16;
    var l := Binary(AddOp, xl, yl, cc);
    var h := Binary(AdcOp, xh, yh, l.cc);
    ByteSum(xl, yl, cc);
    AdcByte(xh, yh, l.cc);
    SumIs(Join(xh, xl), Join(yh, yl), Join(h.val, l.val), Carry(h.cc), cc);
    SignedJoin(xh, xl); SignedJoin(yh, yl); SignedJoin(h.val, l.val);
  }

  lemma SumIs(x: word, y: word, r: word, c: nat, cc: Flags)
    requires c <= 1 && r + 65536 * c == x + y
    ensures var w := Add16(x, y, cc);
            w.val == r && w.cc.c == (c == 1) && w.cc.v == (SignedWord(x) + SignedWord(y) != SignedWord(r)) && w.cc.n == (r >= 32768)
  {
    hide SignedWord;
    ModMultiple(c, r);
  }

  lemma DifferenceIs(x: word, y: word, r: word, c: nat, cc: Flags)
    requires c <= 1 && r == x - y + 65536 * c
    ensures var w := Sub16(x, y, cc);
            w.val == r && w.cc.c == (c == 1) && w.cc.v == (SignedWord(x) - SignedWord(y) != SignedWord(r)) && w.cc.n == (r >= 32768)
  {
    hide SignedWord;
    ModMultiple(0 - c, r);
  }

  lemma ByteSum(x: byte, y: byte, cc: Flags)
    ensures var r := Binary(AddOp, x, y, cc); r.val + 256 * Carry(r.cc) == x + y
    ensures var r := Binary(SubOp, x, y, cc); r.val == x - y + 256 * Carry(r.cc)
  {
    hide SignedByte;
    assert (x + y + 0) % 256 == if x + y < 256 then x + y else x + y - 256;
    assert (x - y - 0) % 256 == if x >= y then x - y else x - y + 256;
  }

  lemma SignedJoin(h: byte, l: byte)
    ensures SignedWord(Join(h, l)) == 256 * SignedByte(h) + l && (Join(h, l) >= 32768 <==> SignedByte(h) < 0)
  {
  }

  lemma WordDifference(xh: byte, xl: byte, yh: byte, yl: byte, cc: Flags)
    ensures var l := Binary(SubOp, xl, yl, cc); var h := Binary(SbcOp, xh, yh, l.cc);
            var w := Sub16(Join(xh, xl), Join(yh, yl), cc);
            w.val == Join(h.val, l.val) && w.cc.c == h.cc.c && w.cc.v == h.cc.v && w.cc.n == h.cc.n
  {
    hide Binary, SignedByte, SignedWord, Sub16;
    var l := Binary(SubOp, xl, yl, cc);
    var h := Binary(SbcOp, xh, yh, l.cc);
    ByteSum(xl, yl, cc);
    SbcByte(xh, yh, l.cc);
    DifferenceIs(Join(xh, xl), Join(yh, yl), Join(h.val, l.val), Carry(h.cc), cc);
    SignedJoin(xh, xl); SignedJoin(yh, yl); SignedJoin(h.val, l.val);
  }

  /** The product of two bytes fits a word; its C is bit 7, so that ADCA #0 rounds it to a byte. */
  lemma ProductRounds(x: byte, y: byte, cc: Flags)
    ensures Product(x, y) == x * y
    ensures var f := MulFlags(Product(x, y), cc); f.z == (x == 0 || y == 0) && f.c == (x * y % 256 >= 128)
    ensures var f := MulFlags(Product(x, y), cc);
            Binary(AdcOp, Hi(Product(x, y)), 0, f).val == (x * y + 128) / 256 % 256
  {
    hide SignedByte;
    ProductBound(x, y);
    var p := x * y;
    assert p == 256 * (p / 256) + p % 256;
    if p % 256 >= 128 {
      assert p + 128 == 256 * (p / 256 + 1) + (p % 256 - 128) && (p + 128) / 256 == p / 256 + 1;
    } else {
      assert p + 128 == 256 * (p / 256) + (p % 256 + 128) && (p + 128) / 256 == p / 256;
    }
  }

  lemma ProductBound(x: nat, y: nat)
    requires x < 256 && y < 256
    ensures x * y <= 255 * 255 && (x * y == 0 <==> x == 0 || y == 0)
  {
    assert x * y <= 255 * y;
  }
}
