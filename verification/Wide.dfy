/** Multi-byte arithmetic built from the eight-bit ALU: chains of ADC and SBC of any length
    compute whole-number sums and differences, and chains of ADC and DAA compute packed-decimal
    sums except where DAA adds 0x60 twice. */
module WideArithmetic {
  import opened Words
  import opened Alu
  import FlagWords

  // ----- numbers spelled in bytes, least significant first -----

  function Value(xs: seq<byte>): nat {
    if xs == [] then 0 else xs[0] + 256 * Value(xs[1..])
  }

  function Base(n: nat): (b: nat)
    ensures b > 0
  {
    if n == 0 then 1 else 256 * Base(n - 1)
  }

  /** Two's-complement reading: only the most significant byte is signed. */
  function Signed(xs: seq<byte>): int
    requires xs != []
  {
    if |xs| == 1 then SignedByte(xs[0]) else xs[0] + 256 * Signed(xs[1..])
  }

  lemma {:induction false} SignedIsValue(xs: seq<byte>)
    requires xs != []
    ensures Value(xs) < Base(|xs|)
    ensures Signed(xs) == Value(xs) - (if xs[|xs| - 1] >= 128 then Base(|xs|) else 0)
  {
    if |xs| == 1 {
      assert Value(xs[1..]) == 0 && Base(1) == 256 * Base(0);
    } else {
      SignedIsValue(xs[1..]);
    }
  }

  // ----- addition -----

  /** ADC on each byte from the least significant, the carry handed on in C. */
  function AddChain(xs: seq<byte>, ys: seq<byte>, cc: Flags): (r: Result<seq<byte>>)
    requires |xs| == |ys|
    ensures |r.val| == |xs|
    decreases |xs|
  {
    if xs == [] then Result([], cc)
    else
      var low := Binary(AdcOp, xs[0], ys[0], cc);
      var rest := AddChain(xs[1..], ys[1..], low.cc);
      Result([low.val] + rest.val, rest.cc)
  }

  lemma AdcByte(x: byte, y: byte, cc: Flags)
    ensures var r := Binary(AdcOp, x, y, cc);
            && r.val + 256 * Carry(r.cc) == x + y + Carry(cc)
            && r.cc.v == (SignedByte(x) + SignedByte(y) + Carry(cc) != SignedByte(r.val))
            && r.cc.n == (SignedByte(r.val) < 0) && r.cc.z == (r.val == 0)
  {
  }

  /** The chain spells the sum; the last C is the carry out of the whole number. */
  lemma {:induction false} AddChainSum(xs: seq<byte>, ys: seq<byte>, cc: Flags)
    requires |xs| == |ys|
    ensures var r := AddChain(xs, ys, cc);
            Value(r.val) + Carry(r.cc) * Base(|xs|) == Value(xs) + Value(ys) + Carry(cc)
    decreases |xs|
  {
    hide Binary;
    if xs != [] {
      var low := Binary(AdcOp, xs[0], ys[0], cc);
      var rest := AddChain(xs[1..], ys[1..], low.cc);
      AdcByte(xs[0], ys[0], cc);
      AddChainSum(xs[1..], ys[1..], low.cc);
      assert ([low.val] + rest.val)[1..] == rest.val;
      assert Carry(rest.cc) * Base(|xs|) == 256 * (Carry(rest.cc) * Base(|xs| - 1));
    }
  }

  /** The last V is two's-complement overflow of the whole number and the last N its sign;
      the last Z, however, speaks of the most significant byte only. */
  lemma {:induction false} AddChainFlags(xs: seq<byte>, ys: seq<byte>, cc: Flags)
    requires |xs| == |ys| > 0
    ensures var r := AddChain(xs, ys, cc);
            && r.cc.v == (Signed(xs) + Signed(ys) + Carry(cc) != Signed(r.val))
            && r.cc.n == (Signed(r.val) < 0)
            && r.cc.z == (r.val[|xs| - 1] == 0)
    decreases |xs|
  {
    hide Binary;
    var low := Binary(AdcOp, xs[0], ys[0], cc);
    var rest := AddChain(xs[1..], ys[1..], low.cc);
    AdcByte(xs[0], ys[0], cc);
    assert ([low.val] + rest.val)[1..] == rest.val;
    if |xs| > 1 {
      AddChainFlags(xs[1..], ys[1..], low.cc);
    }
  }

  // ----- subtraction and comparison -----

  function SubChain(xs: seq<byte>, ys: seq<byte>, cc: Flags): (r: Result<seq<byte>>)
    requires |xs| == |ys|
    ensures |r.val| == |xs|
    decreases |xs|
  {
    if xs == [] then Result([], cc)
    else
      var low := Binary(SbcOp, xs[0], ys[0], cc);
      var rest := SubChain(xs[1..], ys[1..], low.cc);
      Result([low.val] + rest.val, rest.cc)
  }

  lemma SbcByte(x: byte, y: byte, cc: Flags)
    ensures var r := Binary(SbcOp, x, y, cc);
            && r.val == x - y - Carry(cc) + 256 * Carry(r.cc)
            && r.cc.v == (SignedByte(x) - SignedByte(y) - Carry(cc) != SignedByte(r.val))
            && r.cc.n == (SignedByte(r.val) < 0) && r.cc.z == (r.val == 0)
            && (r.cc.n != r.cc.v) == (SignedByte(x) - SignedByte(y) - Carry(cc) < 0)
  {
  }

  lemma {:induction false} SubChainDifference(xs: seq<byte>, ys: seq<byte>, cc: Flags)
    requires |xs| == |ys|
    ensures var r := SubChain(xs, ys, cc);
            Value(r.val) == Value(xs) - Value(ys) - Carry(cc) + Carry(r.cc) * Base(|xs|)
    decreases |xs|
  {
    hide Binary;
    if xs != [] {
      var low := Binary(SbcOp, xs[0], ys[0], cc);
      var rest := SubChain(xs[1..], ys[1..], low.cc);
      SbcByte(xs[0], ys[0], cc);
      SubChainDifference(xs[1..], ys[1..], low.cc);
      assert ([low.val] + rest.val)[1..] == rest.val;
      assert Carry(rest.cc) * Base(|xs|) == 256 * (Carry(rest.cc) * Base(|xs| - 1));
    }
  }

  lemma {:induction false} SubChainFlags(xs: seq<byte>, ys: seq<byte>, cc: Flags)
    requires |xs| == |ys| > 0
    ensures var r := SubChain(xs, ys, cc);
            && r.cc.v == (Signed(xs) - Signed(ys) - Carry(cc) != Signed(r.val))
            && r.cc.n == (Signed(r.val) < 0)
            && r.cc.z == (r.val[|xs| - 1] == 0)
            && (r.cc.n != r.cc.v) == (Signed(xs) - Signed(ys) - Carry(cc) < 0)
    decreases |xs|
  {
    hide Binary;
    var low := Binary(SbcOp, xs[0], ys[0], cc);
    var rest := SubChain(xs[1..], ys[1..], low.cc);
    SbcByte(xs[0], ys[0], cc);
    assert ([low.val] + rest.val)[1..] == rest.val;
    if |xs| > 1 {
      SubChainFlags(xs[1..], ys[1..], low.cc);
    }
  }

  /** After a subtract chain without borrow in, the branches LO/HS decide the unsigned order and
      LT/GE the signed order of numbers of any length. */
  lemma BranchesDecideOrder(xs: seq<byte>, ys: seq<byte>, cc: Flags)
    requires |xs| == |ys| > 0 && !cc.c
    ensures var after := SubChain(xs, ys, cc).cc;
            && Taken(LO, after) == (Value(xs) < Value(ys)) && Taken(HS, after) == (Value(xs) >= Value(ys))
            && Taken(LT, after) == (Signed(xs) < Signed(ys)) && Taken(GE, after) == (Signed(xs) >= Signed(ys))
  {
    hide SubChain, Signed, Value, Base;
    var r := SubChain(xs, ys, cc);
    SubChainDifference(xs, ys, cc);
    SubChainFlags(xs, ys, cc);
    SignedIsValue(r.val);
    assert Carry(r.cc) * Base(|xs|) == if r.cc.c then Base(|xs|) else 0;
  }

  /** The difference as it is spelled, wrapped into n bytes. */
  function Wrapped(xs: seq<byte>, ys: seq<byte>): int
    requires |xs| == |ys|
  {
    if Value(xs) >= Value(ys) then Value(xs) - Value(ys) else Value(xs) - Value(ys) + Base(|xs|)
  }

  lemma {:induction false} TopByteZero(xs: seq<byte>)
    requires xs != []
    ensures Value(xs) < Base(|xs| - 1) <==> xs[|xs| - 1] == 0
  {
    if |xs| == 1 {
      assert Value(xs[1..]) == 0;
    } else {
      TopByteZero(xs[1..]);
    }
  }

  /** The equality branch looks at the most significant byte alone.  It tells whether the numbers
      are equal exactly when their wrapped difference is zero or reaches that byte. */
  lemma EqualityBranchRightIff(xs: seq<byte>, ys: seq<byte>, cc: Flags)
    requires |xs| == |ys| > 0 && !cc.c
    ensures Taken(EQ, SubChain(xs, ys, cc).cc) == (Value(xs) == Value(ys))
            <==> Wrapped(xs, ys) == 0 || Wrapped(xs, ys) >= Base(|xs| - 1)
  {
    hide SubChain, Value, Base, Signed, Wrapped;
    var r := SubChain(xs, ys, cc);
    SubChainFlags(xs, ys, cc);
    SubChainValue(xs, ys, cc);
    TopByteZero(r.val);
  }

  lemma SubChainValue(xs: seq<byte>, ys: seq<byte>, cc: Flags)
    requires |xs| == |ys| > 0 && !cc.c
    ensures Value(SubChain(xs, ys, cc).val) == Wrapped(xs, ys)
    ensures Wrapped(xs, ys) == 0 <==> Value(xs) == Value(ys)
  {
    hide SubChain, Value, Base, Signed;
    var r := SubChain(xs, ys, cc);
    SubChainDifference(xs, ys, cc);
    SignedIsValue(r.val); SignedIsValue(xs); SignedIsValue(ys);
    if r.cc.c {
      assert Carry(r.cc) * Base(|xs|) == Base(|xs|);
    } else {
      assert Carry(r.cc) * Base(|xs|) == 0;
    }
  }

  /** 1 and 0 as 16-bit numbers: the branch takes them for equal. */
  lemma EqualityBranchMisled(cc: Flags)
    requires !cc.c
    ensures Taken(EQ, SubChain([1, 0], [0, 0], cc).cc) && Value([1, 0]) != Value([0, 0])
  {
    hide SubChain, Taken;
    EqualityBranchRightIff([1, 0], [0, 0], cc);
    assert [1, 0][1..] == [0] && [0, 0][1..] == [0] && [0][1..] == [];
    assert Value([1, 0]) == 1 && Value([0, 0]) == 0 && Base(1) == 256;
  }

  // ----- packed decimal -----

  predicate IsBcd(x: byte) { x / 16 <= 9 && x % 16 <= 9 }
  function Dec(x: byte): nat { x / 16 * 10 + x % 16 }
  function Bcd(d: nat): byte
    requires d < 100
  {
    d / 10 * 16 + d % 10
  }

  /** ADC followed by DAA, on one byte. */
  function DecimalByte(x: byte, y: byte, cc: Flags): Result<byte> {
    var r := Binary(AdcOp, x, y, cc);
    DecimalAdjust(r.val, r.cc)
  }

  /** Both nibbles of the binary sum exceed nine: DAA adds 0x60 twice. */
  predicate Doubled(x: byte, y: byte, cin: nat) {
    var s := (x + y + cin) % 256;
    s % 16 > 9 && s / 16 > 9
  }

  lemma DecimalNibbles(xh: nat, xl: nat, yh: nat, yl: nat, cin: nat)
    requires xh <= 9 && xl <= 9 && yh <= 9 && yl <= 9 && cin <= 1
    ensures
      var sum := 16 * xh + xl + (16 * yh + yl) + cin;
      var s := sum % 256;
      var low := xl + yl + cin;
      var k := if low > 15 then 1 else 0;
      && s % 16 == low - 16 * k
      && s / 16 == (xh + yh + k) % 16
      && (sum > 255 <==> xh + yh + k > 15)
  {
    var low := xl + yl + cin;
    var k := if low > 15 then 1 else 0;
    var t := xh + yh + k;
    var sum := 16 * xh + xl + (16 * yh + yl) + cin;
    assert sum == 16 * t + (low - 16 * k);
    FlagWords.SumHighNibble(xh, xl, yh, yl, cin);
  }

  /** The decimal digits that two digit sums should produce, and the carry out of the pair. */
  predicate CarryOut(h: nat, low: nat) { (if low > 9 then h + 1 else h) > 9 }

  function Pair(h: nat, low: nat): (z: byte)
    requires h <= 18 && low <= 19
    ensures z < 0xa0
  {
    var hi := if low > 9 then h + 1 else h;
    16 * (if hi > 9 then hi - 10 else hi) + (if low > 9 then low - 10 else low)
  }

  /** What DAA makes of a binary sum with nibble sums `h` and `low`. */
  lemma DaaCases(h: nat, low: nat, s: byte)
    requires h <= 18 && low <= 19
    requires var k := if low > 15 then 1 else 0;
             s == 16 * ((h + k) % 16) + (low - 16 * k)
    ensures
      var k := if low > 15 then 1 else 0;
      var carry := h + k > 15;
      var sum := DaaSum(s, low > 15, carry);
      && (carry || sum > 255) == CarryOut(h, low)
      && sum % 256 == Smudge(Pair(h, low), 10 <= low <= 15 && 10 <= h <= 15)
  {
    hide Pair, Smudge, CarryOut;
    var k := if low > 15 then 1 else 0;
    var sl := low - 16 * k;
    var sh := if h + k > 15 then h + k - 16 else h + k;
    assert (h + k) % 16 == sh;
    assert s == 16 * sh + sl && s / 16 == sh && s % 16 == sl;
    var sum := DaaSum(s, low > 15, h + k > 15);
    DaaDigits(h, low, sh, sl, sum);
    assert sum % 256 == if sum > 255 then sum - 256 else sum;
  }

  /** The same on nibbles, without division. */
  lemma DaaDigits(h: nat, low: nat, sh: nat, sl: nat, sum: nat)
    requires h <= 18 && low <= 19
    requires var k := if low > 15 then 1 else 0;
             sl == low - 16 * k && sh == if h + k > 15 then h + k - 16 else h + k
    requires var carry := h + (if low > 15 then 1 else 0) > 15;
             sum == 16 * sh + sl + Weight(sl > 9 || low > 15, 0x06) + Weight(sh > 8 && sl > 9, 0x60)
                    + Weight(sh > 9 || carry, 0x60)
    ensures var carry := h + (if low > 15 then 1 else 0) > 15;
            && sum < 512 && (carry || sum > 255) == CarryOut(h, low)
            && (if sum > 255 then sum - 256 else sum) == Smudge(Pair(h, low), 10 <= low <= 15 && 10 <= h <= 15)
  {
    assert (Pair(h, low) + 0x60) % 256 == Pair(h, low) + 0x60;
  }

  /** The decimal carry of one byte is always exact; the digits are off by 0x60 exactly when doubled. */
  lemma DecimalByteValue(x: byte, y: byte, cc: Flags)
    requires IsBcd(x) && IsBcd(y)
    ensures
      var d := Dec(x) + Dec(y) + Carry(cc);
      var r := DecimalByte(x, y, cc);
      && r.cc.c == (d >= 100)
      && r.val == Smudge(Bcd(d % 100), Doubled(x, y, Carry(cc)))
    ensures Doubled(x, y, Carry(cc)) <==>
              10 <= x % 16 + y % 16 + Carry(cc) <= 15 && 10 <= x / 16 + y / 16 <= 15
  {
    hide DaaSum, Binary, Bcd, Doubled, Pair, CarryOut, Smudge;
    var h, low := x / 16 + y / 16, x % 16 + y % 16 + Carry(cc);
    AdcNibbles(x, y, cc);
    DaaCases(h, low, Binary(AdcOp, x, y, cc).val);
    DigitPair(h, low);
    assert Dec(x) + Dec(y) + Carry(cc) == 10 * h + low;
  }

  lemma AdcNibbles(x: byte, y: byte, cc: Flags)
    requires IsBcd(x) && IsBcd(y)
    ensures
      var h, low := x / 16 + y / 16, x % 16 + y % 16 + Carry(cc);
      var k := if low > 15 then 1 else 0;
      var r := Binary(AdcOp, x, y, cc);
      && r.val == 16 * ((h + k) % 16) + (low - 16 * k)
      && r.cc.h == (low > 15) && r.cc.c == (h + k > 15)
      && (Doubled(x, y, Carry(cc)) <==> 10 <= low <= 15 && 10 <= h <= 15)
  {
    hide SignedByte, Doubled;
    DecimalNibbles(x / 16, x % 16, y / 16, y % 16, Carry(cc));
    assert x == 16 * (x / 16) + x % 16 && y == 16 * (y / 16) + y % 16;
    var r := Binary(AdcOp, x, y, cc);
    assert r.val == 16 * (r.val / 16) + r.val % 16;
    DoubledNibbles(x, y, Carry(cc));
  }

  lemma DoubledNibbles(x: byte, y: byte, cin: nat)
    requires IsBcd(x) && IsBcd(y) && cin <= 1
    ensures Doubled(x, y, cin) <==> 10 <= x % 16 + y % 16 + cin <= 15 && 10 <= x / 16 + y / 16 <= 15
  {
    DecimalNibbles(x / 16, x % 16, y / 16, y % 16, cin);
    assert x == 16 * (x / 16) + x % 16 && y == 16 * (y / 16) + y % 16;
  }

  function Smudge(z: byte, bad: bool): byte { if bad then (z + 0x60) % 256 else z }

  lemma DigitPair(h: nat, low: nat)
    requires h <= 18 && low <= 19
    ensures var d := 10 * h + low;
            (d >= 100) == CarryOut(h, low) && Bcd(d % 100) == Pair(h, low)
  {
    var d := 10 * h + low;
    var hi := if low > 9 then h + 1 else h;
    var lo := if low > 9 then low - 10 else low;
    assert d == 10 * hi + lo && lo <= 9;
    if hi <= 9 {
      assert d % 100 == d && d / 10 == hi;
    } else {
      assert d % 100 == 10 * (hi - 10) + lo && (10 * (hi - 10) + lo) / 10 == hi - 10;
    }
  }

  function DecimalChain(xs: seq<byte>, ys: seq<byte>, cc: Flags): (r: Result<seq<byte>>)
    requires |xs| == |ys|
    ensures |r.val| == |xs|
    decreases |xs|
  {
    if xs == [] then Result([], cc)
    else
      var low := DecimalByte(xs[0], ys[0], cc);
      var rest := DecimalChain(xs[1..], ys[1..], low.cc);
      Result([low.val] + rest.val, rest.cc)
  }

  predicate AllBcd(xs: seq<byte>) { forall i :: 0 <= i < |xs| ==> IsBcd(xs[i]) }

  function DecValue(xs: seq<byte>): nat {
    if xs == [] then 0 else Dec(xs[0]) + 100 * DecValue(xs[1..])
  }

  function Base100(n: nat): nat { if n == 0 then 1 else 100 * Base100(n - 1) }

  /** Schoolbook decimal addition: the digit pairs and the carry that should come out. */
  function Schoolbook(xs: seq<byte>, ys: seq<byte>, cin: nat): (r: (seq<byte>, nat))
    requires |xs| == |ys| && AllBcd(xs) && AllBcd(ys) && cin <= 1
    ensures |r.0| == |xs| && r.1 <= 1
    decreases |xs|
  {
    if xs == [] then ([], cin)
    else
      var d := Dec(xs[0]) + Dec(ys[0]) + cin;
      var rest := Schoolbook(xs[1..], ys[1..], d / 100);
      ([Bcd(d % 100)] + rest.0, rest.1)
  }

  lemma {:induction false} SchoolbookSum(xs: seq<byte>, ys: seq<byte>, cin: nat)
    requires |xs| == |ys| && AllBcd(xs) && AllBcd(ys) && cin <= 1
    ensures var r := Schoolbook(xs, ys, cin);
            AllBcd(r.0) && DecValue(r.0) + r.1 * Base100(|xs|) == DecValue(xs) + DecValue(ys) + cin
    decreases |xs|
  {
    hide Bcd, Dec, IsBcd;
    if xs != [] {
      var d := Dec(xs[0]) + Dec(ys[0]) + cin;
      DecBound(xs[0]); DecBound(ys[0]);
      var rest := Schoolbook(xs[1..], ys[1..], d / 100);
      SchoolbookSum(xs[1..], ys[1..], d / 100);
      BcdDigits(d % 100);
      assert ([Bcd(d % 100)] + rest.0)[1..] == rest.0;
      assert rest.1 * Base100(|xs|) == 100 * (rest.1 * Base100(|xs| - 1));
      assert d == 100 * (d / 100) + d % 100;
    }
  }

  lemma BcdDigits(d: nat)
    requires d < 100
    ensures IsBcd(Bcd(d)) && Dec(Bcd(d)) == d
  {
    var h, l := d / 10, d % 10;
    assert h <= 9 && l <= 9;
    assert (16 * h + l) / 16 == h && (16 * h + l) % 16 == l;
  }

  /** Positions at which the emulator's DAA goes wrong; the carry into each is the schoolbook one. */
  function DoubledAt(xs: seq<byte>, ys: seq<byte>, cin: nat): (r: seq<bool>)
    requires |xs| == |ys| && AllBcd(xs) && AllBcd(ys) && cin <= 1
    ensures |r| == |xs|
    decreases |xs|
  {
    if xs == [] then []
    else [Doubled(xs[0], ys[0], cin)] + DoubledAt(xs[1..], ys[1..], (Dec(xs[0]) + Dec(ys[0]) + cin) / 100)
  }

  function SmudgeAll(zs: seq<byte>, bad: seq<bool>): (r: seq<byte>)
    requires |zs| == |bad|
    ensures |r| == |zs|
  {
    if zs == [] then [] else [Smudge(zs[0], bad[0])] + SmudgeAll(zs[1..], bad[1..])
  }

  lemma {:induction false} SmudgeShows(zs: seq<byte>, bad: seq<bool>)
    requires |zs| == |bad|
    ensures SmudgeAll(zs, bad) == zs <==> true !in bad
  {
    if zs != [] {
      SmudgeShows(zs[1..], bad[1..]);
      assert bad == [bad[0]] + bad[1..] && zs == [zs[0]] + zs[1..];
    }
  }

  /** Packed-decimal addition of any length: the carry out is exact for every input, and every byte
      is the schoolbook digit pair or, at the doubled positions, that pair plus 0x60 modulo 256. */
  lemma {:induction false} DecimalChainBytes(xs: seq<byte>, ys: seq<byte>, cc: Flags)
    requires |xs| == |ys| && AllBcd(xs) && AllBcd(ys)
    ensures
      var r := DecimalChain(xs, ys, cc);
      var ideal := Schoolbook(xs, ys, Carry(cc));
      Carry(r.cc) == ideal.1 && r.val == SmudgeAll(ideal.0, DoubledAt(xs, ys, Carry(cc)))
    decreases |xs|
  {
    hide DecimalByte, Doubled, Dec, Bcd, Smudge;
    if xs != [] {
      var low := DecimalByte(xs[0], ys[0], cc);
      DecimalByteValue(xs[0], ys[0], cc);
      var d := Dec(xs[0]) + Dec(ys[0]) + Carry(cc);
      DecBound(xs[0]); DecBound(ys[0]);
      assert Carry(low.cc) == d / 100;
      var rest := Schoolbook(xs[1..], ys[1..], d / 100);
      var bad := DoubledAt(xs[1..], ys[1..], d / 100);
      DecimalChainBytes(xs[1..], ys[1..], low.cc);
      assert ([Bcd(d % 100)] + rest.0)[1..] == rest.0;
      assert ([Doubled(xs[0], ys[0], Carry(cc))] + bad)[1..] == bad;
    }
  }

  lemma DecBound(x: byte)
    requires IsBcd(x)
    ensures Dec(x) < 100
  {
  }

  /** The chain spells the decimal sum exactly when no position has both nibble sums above nine. */
  lemma DecimalChainExact(xs: seq<byte>, ys: seq<byte>, cc: Flags)
    requires |xs| == |ys| && AllBcd(xs) && AllBcd(ys)
    ensures
      var r := DecimalChain(xs, ys, cc);
      var sum := DecValue(xs) + DecValue(ys) + Carry(cc);
      (AllBcd(r.val) && DecValue(r.val) + Carry(r.cc) * Base100(|xs|) == sum)
      <==> true !in DoubledAt(xs, ys, Carry(cc))
  {
    hide DecimalChain, Schoolbook, DoubledAt, DecValue, SmudgeAll;
    var r := DecimalChain(xs, ys, cc);
    var ideal := Schoolbook(xs, ys, Carry(cc));
    DecimalChainBytes(xs, ys, cc);
    SchoolbookSum(xs, ys, Carry(cc));
    SmudgeShows(ideal.0, DoubledAt(xs, ys, Carry(cc)));
    if AllBcd(r.val) && DecValue(r.val) == DecValue(ideal.0) {
      DecValueInjective(r.val, ideal.0);
    }
  }

  lemma DecInjective(x: byte, y: byte)
    requires IsBcd(x) && IsBcd(y) && Dec(x) == Dec(y)
    ensures x == y
  {
    var a, b, c, d := x / 16, x % 16, y / 16, y % 16;
    assert 10 * a + b == 10 * c + d && b <= 9 && d <= 9;
    assert a == c && b == d;
  }

  lemma {:induction false} DecValueInjective(xs: seq<byte>, ys: seq<byte>)
    requires |xs| == |ys| && AllBcd(xs) && AllBcd(ys) && DecValue(xs) == DecValue(ys)
    ensures xs == ys
    decreases |xs|
  {
    hide Dec, IsBcd;
    if xs != [] {
      DecBound(xs[0]); DecBound(ys[0]);
      assert Dec(xs[0]) == Dec(ys[0]) && DecValue(xs[1..]) == DecValue(ys[1..]);
      DecInjective(xs[0], ys[0]);
      DecValueInjective(xs[1..], ys[1..]);
      assert xs == [xs[0]] + xs[1..] && ys == [ys[0]] + ys[1..];
    }
  }

  /** 55 + 55: DAA yields 70 with the carry, not 10. */
  lemma DoubledExample(cc: Flags)
    requires !cc.c
    ensures var r := DecimalByte(0x55, 0x55, cc); r.cc.c && r.val == 0x70
  {
    hide DecimalByte, Doubled;
    DecimalByteValue(0x55, 0x55, cc);
    assert Dec(0x55) == 55 && Bcd(10) == 0x10;
  }
}
