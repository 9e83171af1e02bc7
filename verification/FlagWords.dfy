/** What the expressions stored in the flag words OV, H and C mean: overflow, half carry, carry
    and borrow in terms of signed and unsigned arithmetic. */
module FlagWords {
  import opened Words

  /** The high nibble of an eight-bit sum, from the nibbles of its operands. */
  lemma SumHighNibble(xh: nat, xl: nat, yh: nat, yl: nat, cin: nat)
    requires xh < 16 && xl < 16 && yh < 16 && yl < 16 && cin <= 1
    ensures var k := if xl + yl + cin > 15 then 1 else 0;
            (16 * xh + xl + (16 * yh + yl) + cin) % 256 / 16 == (xh + yh + k) % 16
  {
    var k := if xl + yl + cin > 15 then 1 else 0;
    var t, low := xh + yh + k, xl + yl + cin - 16 * k;
    assert 16 * xh + xl + (16 * yh + yl) + cin == 16 * t + low && 0 <= low < 16;
    LowBlock(if t < 16 then 0 else 1, if t < 16 then t else t - 16, low);
    assert t % 16 == if t < 16 then t else t - 16;
  }

  lemma LowBlock(carry: nat, t: nat, low: nat)
    requires carry <= 1 && t < 16 && low < 16
    ensures (256 * carry + (16 * t + low)) % 256 / 16 == t
  {
    assert (256 * carry + (16 * t + low)) % 256 == 16 * t + low;
  }

  lemma Parity(m: nat, n: nat, k: nat)
    requires k <= 1
    ensures (((m % 2 == 1) != (n % 2 == 1)) != ((m + n + k) % 16 % 2 == 1)) == (k == 1)
  {
    var t := m + n + k;
    assert t == 2 * (8 * (t / 16)) + t % 16;
    assert t == 2 * (m / 2 + n / 2) + (m % 2 + n % 2 + k);
  }

  /** The carry into bit 4 is the parity of the three bits 4 of operands and result. */
  lemma HalfCarry(x: byte, y: byte, cin: nat)
    requires cin <= 1
    ensures var r := (x + y + cin) % 256;
            ((Bit(x, 4) != Bit(y, 4)) != Bit(r, 4)) == (x % 16 + y % 16 + cin > 15)
  {
    hide Bit;
    var r := (x + y + cin) % 256;
    var k := if x % 16 + y % 16 + cin > 15 then 1 else 0;
    LowBits(x); LowBits(y); LowBits(r);
    SumHighNibble(x / 16, x % 16, y / 16, y % 16, cin);
    Parity(x / 16, y / 16, k);
  }

  lemma Overflow(x: byte, y: byte, cin: nat)
    requires cin <= 1
    ensures var r := (x + y + cin) % 256;
            (((x >= 128) != (y >= 128)) != (r >= 128)) != (x + y + cin > 255)
            <==> SignedByte(x) + SignedByte(y) + cin != SignedByte(r)
  {
  }

  /** `arg ^ val ^ res ^ C` carries the half carry in bit 4 and the overflow in bit 7. */
  lemma AddOverflowWord(x: byte, y: byte, cin: nat)
    requires cin <= 1
    ensures
      var sum := x + y + cin;
      var r := sum % 256;
      var carry := Mask(sum / 2, 7);
      var w := Xor(Xor(Xor(x, y), r), carry);
      && carry == (if sum > 255 then 128 else 0)
      && Bit(w, 4) == (x % 16 + y % 16 + cin > 15)
      && Bit(w, 7) == (SignedByte(x) + SignedByte(y) + cin != SignedByte(r))
  {
    hide Bit, Xor, And;
    var sum := x + y + cin;
    var r := sum % 256;
    var carry := Mask(sum / 2, 7);
    TopBit(sum / 2); Pow2Values();
    var w := Xor(Xor(x, y), r);
    XorBit(w, carry, 4); XorBit(Xor(x, y), r, 4); XorBit(x, y, 4);
    XorBit(w, carry, 7); XorBit(Xor(x, y), r, 7); XorBit(x, y, 7);
    TopBit(carry); LowBits(carry);
    TopBit(x); TopBit(y); TopBit(r);
    HalfCarry(x, y, cin);
    Overflow(x, y, cin);
  }

  lemma Underflow(x: byte, y: byte, bin: nat)
    requires bin <= 1
    ensures var r := (x - y - bin) % 256;
            ((x >= 128) != (y >= 128)) && ((x >= 128) != (r >= 128))
            <==> SignedByte(x) - SignedByte(y) - bin != SignedByte(r)
  {
  }

  lemma BorrowBit(d: int)
    requires -256 <= d < 256
    ensures Mask(U32(d), 8) == (if d < 0 then 256 else 0) && U32(d) % 256 == d % 256
  {
    hide Bit;
    BitEight(U32(d));
    assert U32(d) == if d < 0 then d + 0x1_0000_0000 else d;
    Pow2Values();
  }

  /** `(arg ^ val) & (arg ^ res)` carries the overflow of a subtraction in bit 7, and bit 8 of
      the wrapped difference is the borrow. */
  lemma SubOverflowWord(x: byte, y: byte, bin: nat)
    requires bin <= 1
    ensures
      var diff := U32(x - y - bin);
      && Mask(diff, 8) == (if x < y + bin then 256 else 0)
      && diff % 256 == (x - y - bin) % 256
      && Bit(And(Xor(x, y), Xor(x, diff % 256)), 7)
         == (SignedByte(x) - SignedByte(y) - bin != SignedByte(diff % 256))
  {
    hide Bit, Xor, And;
    var diff := U32(x - y - bin);
    var r := diff % 256;
    BorrowBit(x - y - bin);
    AndBit(Xor(x, y), Xor(x, r), 7); XorBit(x, y, 7); XorBit(x, r, 7);
    TopBit(x); TopBit(y); TopBit(r);
    Underflow(x, y, bin);
  }

  /** Bit 16 of the 32-bit sum or difference is the carry or borrow. */
  lemma CarryBit16(d: int)
    requires -65536 <= d < 131072
    ensures Mask(U32(d), 16) == (if 0 <= d < 65536 then 0 else 65536) && U32(d) % 65536 == d % 65536
  {
    hide Bit;
    var w := U32(d);
    BitSixteen(w);
    assert w == if d < 0 then d + 0x1_0000_0000 else d;

    Pow2Values();
  }

  lemma Overflow16(x: word, y: word)
    ensures var r := (x + y) % 65536;
            ((x >= 32768) != (r >= 32768)) && ((y >= 32768) != (r >= 32768))
            <==> SignedWord(x) + SignedWord(y) != SignedWord(r)
  {
  }

  lemma Underflow16(x: word, y: word)
    ensures var r := (x - y) % 65536;
            ((x >= 32768) != (y >= 32768)) && ((x >= 32768) != (r >= 32768))
            <==> SignedWord(x) - SignedWord(y) != SignedWord(r)
  {
  }

  lemma Add16Words(x: word, y: word)
    ensures
      var r := (x + y) % 65536;
      && Mask(x + y, 16) == (if x + y >= 65536 then 65536 else 0)
      && Bit(And(Xor(x, r), Xor(y, r)) / 256, 7) == (SignedWord(x) + SignedWord(y) != SignedWord(r))
  {
    hide Bit, Xor, And;
    var r := (x + y) % 65536;
    assert Mask(x + y, 16) == (if x + y >= 65536 then 65536 else 0) by {
      CarryBit16(x + y);
      assert U32(x + y) == x + y;
    }
    HighBit(And(Xor(x, r), Xor(y, r)));
    AndBit(Xor(x, r), Xor(y, r), 15); XorBit(x, r, 15); XorBit(y, r, 15);
    TopBit16(x); TopBit16(y); TopBit16(r);
    Overflow16(x, y);
  }

  lemma Sub16Words(x: word, y: word)
    ensures
      var diff := U32(x - y);
      var r := diff % 65536;
      && Mask(diff, 16) == (if x < y then 65536 else 0)
      && r == (x - y) % 65536
      && Bit(And(Xor(x, y), Xor(x, r)) / 256, 7) == (SignedWord(x) - SignedWord(y) != SignedWord(r))
  {
    hide Bit, Xor, And;
    CarryBit16(x - y);
    var r := (x - y) % 65536;
    HighBit(And(Xor(x, y), Xor(x, r)));
    AndBit(Xor(x, y), Xor(x, r), 15); XorBit(x, y, 15); XorBit(x, r, 15);
    TopBit16(x); TopBit16(y); TopBit16(r);
    Underflow16(x, y);
  }

  lemma EfiBits()
    ensures Bit(0xd0, 7) && Bit(0xd0, 6) && !Bit(0xd0, 5) && Bit(0xd0, 4)
    ensures !Bit(0xd0, 3) && !Bit(0xd0, 2) && !Bit(0xd0, 1) && !Bit(0xd0, 0)
  {
    BitDown4(0xd0, 7); BitDown4(0xd0, 6); BitDown4(0xd0, 5); BitDown4(0xd0, 4);
    assert !Bit(0xd0, 0) && !Bit(0x68, 0) && !Bit(0x34, 0) && !Bit(0x1a, 0);
  }

  /** Masking with E_FLAG | F_FLAG | I_FLAG keeps exactly those three bits. */
  lemma MaskEfi(w: byte)
    ensures And(w, 0xd0) < 256
    ensures forall k: nat {:trigger Bit(And(w, 0xd0), k)} :: k < 8 ==>
              Bit(And(w, 0xd0), k) == (Bit(w, k) && (k == 7 || k == 6 || k == 4))
  {
    hide Bit, And;
    Pow2Values();
    WidthBound(w, 0xd0, 8);
    EfiBits();
    forall k: nat | k < 8
      ensures Bit(And(w, 0xd0), k) == (Bit(w, k) && (k == 7 || k == 6 || k == 4))
    {
      AndBit(w, 0xd0, k);
    }
  }

  lemma ComplementByXor(x: byte)
    ensures Xor(x, 0xff) == 255 - x
  {
    XorOnes(x, 8);
    Pow2Values();
  }

  lemma {:induction false} XorOnes(x: nat, k: nat)
    requires x < Pow2(k)
    ensures Xor(x, Pow2(k) - 1) == Pow2(k) - 1 - x
  {
    if k > 0 {
      XorOnes(x / 2, k - 1);
    }
  }

  lemma LowByteTopBit(x: nat)
    ensures Bit(x, 7) == (x % 256 >= 128)
  {
    hide Bit;
    BitDown4(x, 7);
    LowBits(x / 16);
    assert x / 16 / 8 == x / 128;
    UpperHalf(x / 256, x % 256);
  }

  lemma UpperHalf(q: nat, r: byte)
    ensures (256 * q + r) / 128 % 2 == 1 <==> r >= 128
  {
    if r < 128 {
      assert 256 * q + r == 128 * (2 * q) + r && (256 * q + r) / 128 == 2 * q;
    } else {
      assert 256 * q + r == 128 * (2 * q + 1) + (r - 128) && (256 * q + r) / 128 == 2 * q + 1;
    }
  }

  /** Bit 7 of `~x` in 32 bits. */
  lemma NotBit7(x: byte)
    ensures Bit(0xffff_ffff - x, 7) == (x < 128)
  {
    hide Bit;
    LowByteTopBit(0xffff_ffff - x);
  }

  /** The flag words written by set_cc test true on the same bits as its argument. */
  lemma SetCcWords(arg: byte)
    ensures Bit(0x10, 4) && !Bit(0, 4) && Bit(0x80, 7) && !Bit(0, 7)
    ensures Bit(arg, 0) == (arg % 2 != 0)
  {
    LowBits(0x10); LowBits(0); TopBit(0x80); TopBit(0);
  }

  lemma AsrValue(x: byte)
    ensures U32(SignedByte(x)) % 2 == x % 2 && U32(SignedByte(x)) / 2 % 256 == SignedByte(x) / 2 % 256
  {
    var h, b := x / 2, x % 2;
    assert x == 2 * h + b;
    if x < 128 {
      assert U32(SignedByte(x)) == x;
    } else {
      assert U32(SignedByte(x)) == 2 * (0x7fff_ff80 + h) + b;
      assert SignedByte(x) == 2 * (h - 128) + b && SignedByte(x) / 2 == h - 128;
      assert (0x7fff_ff80 + h) % 256 == h + 128 - 256 * ((h + 128) / 256);
    }
  }

  /** The 9-bit result of a left shift: bit 8 is the carry, `arg ^ res` the overflow. */
  lemma ShiftLeftWords(x: byte, cin: nat)
    requires cin <= 1
    ensures
      var wide := 2 * x + cin;
      var r := wide % 256;
      && Mask(wide, 8) == (if x + x + cin > 255 then 256 else 0)
      && Bit(Xor(x, r), 7) == (SignedByte(x) + SignedByte(x) + cin != SignedByte(r))
      && Bit(r, 7) == (r >= 128)
  {
    hide Bit, Xor, And;
    var wide := 2 * x + cin;
    var r := wide % 256;
    BitEight(wide); Pow2Values();
    XorBit(x, r, 7); TopBit(x); TopBit(r);
    Overflow(x, x, cin);
  }

  lemma DecrementWords(x: byte)
    ensures
      var r := U32(x - 1) % 256;
      && r == (x - 1) % 256
      && Bit(And(x, 0xffff_ffff - r), 7) == (SignedByte(x) - 1 != SignedByte(r))
      && Bit(r, 7) == (r >= 128)
  {
    hide Bit, And;
    BorrowBit(x - 1);
    var r: byte := (x - 1) % 256;
    AndBit(x, 0xffff_ffff - r, 7); TopBit(x); TopBit(r); NotBit7(r);
    assert SignedByte(x) - 1 != SignedByte(r) <==> x >= 128 && r < 128;
  }

  lemma NegateWords(x: byte)
    ensures
      var r := U32(0 - x) % 256;
      && r == (0 - x) % 256
      && Bit(And(r, x), 7) == (SignedByte(0) - SignedByte(x) != SignedByte(r))
      && Bit(r, 7) == (r >= 128)
  {
    hide Bit, And;
    BorrowBit(0 - x);
    var r: byte := (0 - x) % 256;
    AndBit(r, x, 7); TopBit(x); TopBit(r);
    assert SignedByte(0) - SignedByte(x) != SignedByte(r) <==> x >= 128 && r >= 128;
  }

  lemma IncrementWords(x: byte)
    ensures
      var r := (x + 1) % 256;
      && Bit(And(0xffff_ffff - x, r), 7) == (SignedByte(x) + 1 != SignedByte(r))
      && Bit(r, 7) == (r >= 128)
  {
    hide Bit, And;
    var r := (x + 1) % 256;
    AndBit(0xffff_ffff - x, r, 7); TopBit(r); NotBit7(x);
    assert SignedByte(x) + 1 != SignedByte(r) <==> x < 128 && r >= 128;
  }

  /** `C |= res & 0x100` for a sum of at most nine bits. */
  lemma DaaCarry(c: nat, res: nat)
    requires res < 512
    ensures Or(c, Mask(res, 8)) != 0 <==> c != 0 || res > 255
  {
    hide Bit;
    BitEight(res); Pow2Values();
    OrZero(c, Mask(res, 8));
  }
}
