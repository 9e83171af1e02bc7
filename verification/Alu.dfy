/** The architectural view of the arithmetic unit: an eight-bit condition code register and
    the value and flags of every ALU operation, stated in terms of signed and unsigned
    arithmetic.  Nothing here mentions the emulator's lazily kept flag words. */
module Alu {
  import opened Words

  /** The condition code register, most significant flag first. */
  datatype Flags = Flags(e: bool, f: bool, h: bool, i: bool, n: bool, z: bool, v: bool, c: bool)

  function Weight(b: bool, w: nat): nat { if b then w else 0 }

  /** The flags as binary digits, least significant first, and the byte they spell. */
  function Digits(cc: Flags): seq<bool> { [cc.c, cc.v, cc.z, cc.n, cc.i, cc.h, cc.f, cc.e] }

  function FromDigits(ds: seq<bool>): (x: nat)
    ensures x < Pow2(|ds|)
  {
    if ds == [] then 0 else Weight(ds[0], 1) + 2 * FromDigits(ds[1..])
  }

  function Pack(cc: Flags): byte {
    assert Pow2(8) == 256;
    FromDigits(Digits(cc))
  }

  function Unpack(b: byte): Flags {
    Flags(Bit(b, 7), Bit(b, 6), Bit(b, 5), Bit(b, 4), Bit(b, 3), Bit(b, 2), Bit(b, 1), Bit(b, 0))
  }

  lemma {:induction false} DigitsAreBits(ds: seq<bool>, k: nat)
    requires k < |ds|
    ensures Bit(FromDigits(ds), k) == ds[k]
  {
    if k > 0 {
      DigitsAreBits(ds[1..], k - 1);
    }
  }

  function DigitsOf(x: nat, n: nat): (ds: seq<bool>)
    ensures |ds| == n
  {
    if n == 0 then [] else [x % 2 == 1] + DigitsOf(x / 2, n - 1)
  }

  lemma {:induction false} DigitsOfNumber(x: nat, n: nat)
    requires x < Pow2(n)
    ensures FromDigits(DigitsOf(x, n)) == x
    ensures forall k :: 0 <= k < n ==> DigitsOf(x, n)[k] == Bit(x, k)
    decreases n
  {
    if n > 0 {
      DigitsOfNumber(x / 2, n - 1);
    }
  }

  /** Reading the packed register back gives the same flags... */
  lemma UnpackPack(cc: Flags)
    ensures Unpack(Pack(cc)) == cc
  {
    forall k | 0 <= k < 8
      ensures Bit(Pack(cc), k) == Digits(cc)[k]
    {
      DigitsAreBits(Digits(cc), k);
    }
  }

  /** ...and every byte is the packing of its own flags. */
  lemma PackUnpack(b: byte)
    ensures Pack(Unpack(b)) == b
  {
    DigitsOfNumber(b, 8);
    assert Digits(Unpack(b)) == DigitsOf(b, 8);
  }

  // ----- eight-bit operations -----

  datatype UnaryOp = Neg | Com | Lsr | Ror | Asr | Asl | Rol | Dec | Inc | Tst | Clr
  datatype BinaryOp = SubOp | CmpOp | SbcOp | AndOp | BitOp | LdOp | EorOp | AdcOp | OrOp | AddOp

  datatype Result<T> = Result(val: T, cc: Flags)

  function NZ(cc: Flags, r: byte): Flags { cc.(n := r >= 128, z := r == 0) }

  /** Sum with carry in; `v` is two's-complement overflow and `h` the carry out of bit 3. */
  function AddWithCarry(x: byte, y: byte, cin: nat, cc: Flags): Result<byte>
    requires cin <= 1
  {
    var r := (x + y + cin) % 256;
    Result(r, NZ(cc, r).(h := x % 16 + y % 16 + cin > 15,
                         v := SignedByte(x) + SignedByte(y) + cin != SignedByte(r),
                         c := x + y + cin > 255))
  }

  /** Difference with borrow in; `c` is the borrow out and `h` is left alone. */
  function SubWithBorrow(x: byte, y: byte, bin: nat, cc: Flags): Result<byte>
    requires bin <= 1
  {
    var r := (x - y - bin) % 256;
    Result(r, NZ(cc, r).(v := SignedByte(x) - SignedByte(y) - bin != SignedByte(r),
                         c := x < y + bin))
  }

  function Logical(r: byte, cc: Flags): Result<byte> { Result(r, NZ(cc, r).(v := false)) }

  function Carry(cc: Flags): nat { Weight(cc.c, 1) }

  function Unary(op: UnaryOp, x: byte, cc: Flags): Result<byte> {
    match op
    case Neg => SubWithBorrow(0, x, 0, cc)
    case Com => Result(255 - x, NZ(cc, 255 - x).(v := false, c := true))
    case Lsr => Result(x / 2, NZ(cc, x / 2).(c := x % 2 == 1))
    case Ror => var r := x / 2 + Weight(cc.c, 128); Result(r, NZ(cc, r).(c := x % 2 == 1))
    case Asr => var r := SignedByte(x) / 2 % 256; Result(r, NZ(cc, r).(c := x % 2 == 1))
    case Asl => AddWithCarry(x, x, 0, cc).(cc := AddWithCarry(x, x, 0, cc).cc.(h := cc.h))
    case Rol => AddWithCarry(x, x, Carry(cc), cc).(cc := AddWithCarry(x, x, Carry(cc), cc).cc.(h := cc.h))
    case Dec => var r := (x - 1) % 256; Result(r, NZ(cc, r).(v := SignedByte(x) - 1 != SignedByte(r)))
    case Inc => var r := (x + 1) % 256; Result(r, NZ(cc, r).(v := SignedByte(x) + 1 != SignedByte(r)))
    case Tst => Logical(x, cc)
    case Clr => Result(0, NZ(cc, 0).(v := false, c := false))
  }

  function Binary(op: BinaryOp, x: byte, y: byte, cc: Flags): Result<byte> {
    match op
    case SubOp => SubWithBorrow(x, y, 0, cc)
    case CmpOp => SubWithBorrow(x, y, 0, cc).(val := x)
    case SbcOp => SubWithBorrow(x, y, Carry(cc), cc)
    case AndOp => ByteOps(x, y); Logical(And(x, y), cc)
    case BitOp => ByteOps(x, y); Logical(And(x, y), cc).(val := x)
    case LdOp => Logical(y, cc)
    case EorOp => ByteOps(x, y); Logical(Xor(x, y), cc)
    case AdcOp => AddWithCarry(x, y, Carry(cc), cc)
    case OrOp => ByteOps(x, y); Logical(Or(x, y), cc)
    case AddOp => AddWithCarry(x, y, 0, cc)
  }

  lemma ByteOps(x: byte, y: byte)
    ensures And(x, y) < 256 && Or(x, y) < 256 && Xor(x, y) < 256
  {
    WidthBound(x, y, 8);
  }

  // ----- sixteen-bit operations -----

  function NZ16(cc: Flags, r: word): Flags { cc.(n := r >= 32768, z := r == 0) }

  function Add16(x: word, y: word, cc: Flags): Result<word> {
    var r := (x + y) % M64K;
    Result(r, NZ16(cc, r).(v := SignedWord(x) + SignedWord(y) != SignedWord(r), c := x + y >= M64K))
  }

  function Sub16(x: word, y: word, cc: Flags): Result<word> {
    var r := (x - y) % M64K;
    Result(r, NZ16(cc, r).(v := SignedWord(x) - SignedWord(y) != SignedWord(r), c := x < y))
  }

  function Load16Flags(r: word, cc: Flags): Flags { NZ16(cc, r).(v := false) }

  /** Sign extension of B into D: A becomes 0x00 or 0xff, V and C keep their values. */
  function SexFlags(b: byte, cc: Flags): Flags { NZ(cc, b) }

  function Product(x: byte, y: byte): word { (x * y) % M64K }

  function MulFlags(r: word, cc: Flags): Flags { cc.(z := r == 0, c := r % 256 >= 128) }

  /** Decimal adjust exactly as the emulator computes it: 0x60 may be added twice. */
  function DaaSum(a: byte, h: bool, c: bool): nat {
    a + Weight(a % 16 > 9 || h, 0x06)
      + Weight(a / 16 > 8 && a % 16 > 9, 0x60)
      + Weight(a / 16 > 9 || c, 0x60)
  }

  function DecimalAdjust(a: byte, cc: Flags): Result<byte> {
    var sum := DaaSum(a, cc.h, cc.c);
    Result(sum % 256, NZ(cc, sum % 256).(v := false, c := cc.c || sum > 255))
  }

  // ----- branch conditions -----

  datatype Cond = HI | LS | HS | LO | NE | EQ | VC | VS | PL | MI | GE | LT | GT | LE

  predicate Taken(k: Cond, cc: Flags) {
    match k
    case HI => !cc.z && !cc.c
    case LS => cc.z || cc.c
    case HS => !cc.c
    case LO => cc.c
    case NE => !cc.z
    case EQ => cc.z
    case VC => !cc.v
    case VS => cc.v
    case PL => !cc.n
    case MI => cc.n
    case GE => cc.n == cc.v
    case LT => cc.n != cc.v
    case GT => cc.n == cc.v && !cc.z
    case LE => cc.n != cc.v || cc.z
  }
}
