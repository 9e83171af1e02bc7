/** Bytes, 16-bit words and the bitwise operators the emulator applies to C's `unsigned`.

    Registers are mathematical integers with an explicit range.  The bitwise operators are
    defined one binary digit at a time, so every fact about a masked word is proved from
    arithmetic rather than from bit-vectors. */
module Words {
  type byte = x: int | 0 <= x < 256
  type word = x: int | 0 <= x < 65536

  const M64K := 65536

  /** Reduction of a C `unsigned` result, 32 bits wide. */
  function U32(x: int): nat { x % 0x1_0000_0000 }

  function Hi(w: word): byte { w / 256 }
  function Lo(w: word): byte { w % 256 }
  function Join(hi: byte, lo: byte): word { hi * 256 + lo }

  lemma JoinSplit(hi: byte, lo: byte)
    ensures Hi(Join(hi, lo)) == hi && Lo(Join(hi, lo)) == lo
  {
  }

  lemma JoinHiLo(w: word)
    ensures Join(Hi(w), Lo(w)) == w
  {
  }

  /** `(w + d) & 0xffff` for a possibly negative displacement. */
  function Plus(w: word, d: int): word { (w + d) % M64K }

  lemma PlusPlus(w: word, d: int, e: int)
    ensures Plus(Plus(w, d), e) == Plus(w, d + e)
  {
    ModShift(w + d, e);
  }

  lemma ModShift(n: int, d: int)
    ensures Plus(n % M64K, d) == (n + d) % M64K
  {
    assert n + d == M64K * (n / M64K) + (n % M64K + d);
    ModMultiple(n / M64K, n % M64K + d);
  }

  lemma {:induction false} ModMultiple(q: int, r: int)
    ensures (M64K * q + r) % M64K == r % M64K
  {
  }

  /** The casts `(INT8) b` and `(INT16) w`. */
  function SignedByte(b: byte): int { if b < 128 then b else b - 256 }
  function SignedWord(w: word): int { if w < 32768 then w else w - 65536 }

  function Pow2(k: nat): (p: nat)
    ensures p > 0
  {
    if k == 0 then 1 else 2 * Pow2(k - 1)
  }

  /** Bit `k` of `x` is set. */
  predicate Bit(x: nat, k: nat)
    decreases k, x
  {
    if k == 0 then x % 2 == 1 else Bit(x / 2, k - 1)
  }

  /** `x & (1 << k)`. */
  function Mask(x: nat, k: nat): nat
  {
    if Bit(x, k) then Pow2(k) else 0
  }

  /** `x | (1 << k)` and `x & ~(1 << k)`. */
  function SetBit(x: nat, k: nat): nat
  {
    if Bit(x, k) then x else x + Pow2(k)
  }

  function ClearBit(x: nat, k: nat): nat
  {
    if Bit(x, k) then BitWeight(x, k); x - Pow2(k) else x
  }

  lemma {:induction false} BitWeight(x: nat, k: nat)
    ensures Bit(x, k) ==> x >= Pow2(k)
    decreases k
  {
    if k > 0 {
      BitWeight(x / 2, k - 1);
    }
  }

  function And(x: nat, y: nat): nat
    decreases x
  {
    if x == 0 then 0 else 2 * And(x / 2, y / 2) + (if x % 2 == 1 && y % 2 == 1 then 1 else 0)
  }

  function Or(x: nat, y: nat): nat
    decreases x + y
  {
    if x == 0 && y == 0 then 0
    else 2 * Or(x / 2, y / 2) + (if x % 2 == 1 || y % 2 == 1 then 1 else 0)
  }

  function Xor(x: nat, y: nat): nat
    decreases x + y
  {
    if x == 0 && y == 0 then 0
    else 2 * Xor(x / 2, y / 2) + (if x % 2 != y % 2 then 1 else 0)
  }

  lemma {:induction false} AndBit(x: nat, y: nat, k: nat)
    ensures Bit(And(x, y), k) == (Bit(x, k) && Bit(y, k))
    decreases k
  {
    if k > 0 {
      assert And(x, y) / 2 == And(x / 2, y / 2);
      AndBit(x / 2, y / 2, k - 1);
    }
  }

  lemma {:induction false} OrBit(x: nat, y: nat, k: nat)
    ensures Bit(Or(x, y), k) == (Bit(x, k) || Bit(y, k))
    decreases k
  {
    if k > 0 {
      assert Or(x, y) / 2 == Or(x / 2, y / 2);
      OrBit(x / 2, y / 2, k - 1);
    }
  }

  lemma {:induction false} XorBit(x: nat, y: nat, k: nat)
    ensures Bit(Xor(x, y), k) == (Bit(x, k) != Bit(y, k))
    decreases k
  {
    if k > 0 {
      assert Xor(x, y) / 2 == Xor(x / 2, y / 2);
      XorBit(x / 2, y / 2, k - 1);
    }
  }

  /** The operators stay within the width of their operands. */
  lemma {:induction false} WidthBound(x: nat, y: nat, k: nat)
    requires x < Pow2(k) && y < Pow2(k)
    ensures And(x, y) <= x && And(x, y) <= y
    ensures Or(x, y) < Pow2(k) && Xor(x, y) < Pow2(k)
    decreases k
  {
    if k > 0 {
      WidthBound(x / 2, y / 2, k - 1);
    }
  }

  lemma {:induction false} OrZero(x: nat, y: nat)
    ensures Or(x, y) == 0 <==> x == 0 && y == 0
    decreases x + y
  {
    if x + y > 0 {
      OrZero(x / 2, y / 2);
    }
  }

  lemma {:induction false} SetClearBit(x: nat, k: nat, j: nat)
    ensures Bit(SetBit(x, k), j) == (j == k || Bit(x, j))
    ensures Bit(ClearBit(x, k), j) == (j != k && Bit(x, j))
    decreases k
  {
    BitWeight(x, k);
    if k > 0 {
      BitWeight(x / 2, k - 1);
      assert SetBit(x, k) / 2 == SetBit(x / 2, k - 1);
      assert ClearBit(x, k) / 2 == ClearBit(x / 2, k - 1);
      if j > 0 {
        SetClearBit(x / 2, k - 1, j - 1);
      }
    }
  }

  lemma {:induction false} SetBitBound(x: nat, k: nat, n: nat)
    requires x < Pow2(n) && k < n
    ensures SetBit(x, k) < Pow2(n)
    decreases k
  {
    if k > 0 {
      assert SetBit(x, k) / 2 == SetBit(x / 2, k - 1);
      SetBitBound(x / 2, k - 1, n - 1);
    }
  }

  /** Setting a flag bit in a byte. */
  lemma SetByteBit(x: byte, k: nat)
    requires k < 8
    ensures SetBit(x, k) < 256 && ClearBit(x, k) < 256
    ensures forall j: nat {:trigger Bit(SetBit(x, k), j)} :: Bit(SetBit(x, k), j) == (j == k || Bit(x, j))
    ensures forall j: nat {:trigger Bit(ClearBit(x, k), j)} :: Bit(ClearBit(x, k), j) == (j != k && Bit(x, j))
  {
    Pow2Values();
    SetBitBound(x, k, 8);
    forall j: nat
      ensures Bit(SetBit(x, k), j) == (j == k || Bit(x, j)) && Bit(ClearBit(x, k), j) == (j != k && Bit(x, j))
    {
      SetClearBit(x, k, j);
    }
  }

  /** Closed forms of the bits the emulator tests. */
  lemma LowBits(x: nat)
    ensures Bit(x, 3) == (x / 8 % 2 == 1) && Bit(x, 4) == (x / 16 % 2 == 1)
  {
    assert Bit(x, 3) == Bit(x / 2, 2) == Bit(x / 2 / 2, 1) == Bit(x / 2 / 2 / 2, 0);
    assert Bit(x, 4) == Bit(x / 2, 3) == Bit(x / 2 / 2, 2) == Bit(x / 2 / 2 / 2, 1) == Bit(x / 2 / 2 / 2 / 2, 0);
  }

  lemma BitDown4(x: nat, k: nat)
    requires k >= 4
    ensures Bit(x, k) == Bit(x / 16, k - 4)
  {
    assert Bit(x, k) == Bit(x / 2, k - 1) == Bit(x / 2 / 2, k - 2) == Bit(x / 2 / 2 / 2, k - 3);
    assert x / 2 / 2 / 2 / 2 == x / 16;
  }

  lemma TopBit(x: byte)
    ensures Bit(x, 7) == (x >= 128)
  {
    BitDown4(x, 7);
    LowBits(x / 16);
  }

  lemma TopBit16(x: word)
    ensures Bit(x, 15) == (x >= 32768)
  {
    HighBit(x);
    TopBit(x / 256);
  }

  lemma HighBit(x: nat)
    ensures Bit(x, 15) == Bit(x / 256, 7)
  {
    BitDown4(x, 15);
    BitDown4(x / 16, 11);
    assert x / 16 / 16 == x / 256;
  }

  lemma BitEight(x: nat)
    ensures Bit(x, 8) == (x / 256 % 2 == 1)
  {
    BitDown4(x, 8);
    LowBits(x / 16);
    assert x / 16 / 16 == x / 256;
  }

  lemma BitSixteen(x: nat)
    ensures Bit(x, 16) == (x / 65536 % 2 == 1)
  {
    BitDown4(x, 16);
    BitDown4(x / 16, 12);
    assert x / 16 / 16 == x / 256;
    BitEight(x / 256);
    assert x / 256 / 256 == x / 65536;
  }

  lemma Pow2Values()
    ensures Pow2(4) == 16 && Pow2(7) == 128 && Pow2(8) == 256 && Pow2(15) == 32768 && Pow2(16) == 65536
  {
    assert Pow2(12) == 4096;
    assert Pow2(16) == 2 * Pow2(15) == 4 * Pow2(14) == 8 * Pow2(13) == 16 * Pow2(12);
  }
}
