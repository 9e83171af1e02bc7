/** The opcode map of the execution switch: which operation, on which register, with which
    addressing mode, and the base cycle count the switch charges for it. */
module Decoder {
  import opened Words
  import opened Alu

  datatype Mode = Immediate | Direct | Indexed | Extended
  datatype Acc = AccA | AccB
  datatype Reg16 = D | X | Y | U | S

  /** `base` is the charge of the direct form; the extended form costs one more and the
      indexed form `base - 4` on top of what the post byte costs. */
  datatype Insn =
    | UnaryAcc(uop: UnaryOp, acc: Acc)
    | UnaryMem(uop: UnaryOp, mode: Mode)
    | BinaryAcc(bop: BinaryOp, acc: Acc, mode: Mode)
    | Store8(acc: Acc, mode: Mode)
    | Arith16(subtract: bool, mode: Mode)
    | Cmp16(reg: Reg16, mode: Mode, base: int)
    | Load16(reg: Reg16, mode: Mode, base: int)
    | Store16(reg: Reg16, mode: Mode, base: int)
    | Jmp(mode: Mode)
    | Jsr(mode: Mode)
    | Bsr | LongBsr | Bra | LongBra | Brn | LongBrn
    | Branch(cond: Cond)
    | LongBranch(cond: Cond)
    | Lea(reg: Reg16)
    | Psh(user: bool)
    | Pul(user: bool)
    | Rts | Abx | Rti | Cwai | Mul | Swi | Swi2 | Swi3 | Nop | Daa | Orcc | Andcc | Sex | Exg | Tfr
    | Invalid  // SYNC, undefined opcodes: the emulator stops with sim_error

  /** Column of a read-modify-write row (0x00, 0x40, 0x50, 0x60, 0x70), JMP excepted. */
  function UnaryColumn(lo: nat): (r: seq<UnaryOp>)
    requires lo < 16
    ensures |r| <= 1
  {
    if lo == 0 then [Neg] else if lo == 3 then [Com] else if lo == 4 then [Lsr] else if lo == 6 then [Ror]
    else if lo == 7 then [Asr] else if lo == 8 then [Asl] else if lo == 9 then [Rol] else if lo == 10 then [Dec]
    else if lo == 12 then [Inc] else if lo == 13 then [Tst] else if lo == 15 then [Clr] else []
  }

  /** Columns 0-2, 4-6 and 8-11 of the accumulator rows 0x80-0xff. */
  function BinaryColumn(lo: nat): BinaryOp
    requires lo < 16
  {
    if lo == 0 then SubOp else if lo == 1 then CmpOp else if lo == 2 then SbcOp else if lo == 4 then AndOp
    else if lo == 5 then BitOp else if lo == 6 then LdOp else if lo == 8 then EorOp else if lo == 9 then AdcOp
    else if lo == 10 then OrOp else AddOp
  }

  function RowMode(hi: nat): Mode {
    if hi % 4 == 0 then Immediate else if hi % 4 == 1 then Direct else if hi % 4 == 2 then Indexed else Extended
  }

  function CondOf(lo: nat): Cond
    requires 2 <= lo < 16
  {
    if lo == 2 then HI else if lo == 3 then LS else if lo == 4 then HS else if lo == 5 then LO
    else if lo == 6 then NE else if lo == 7 then EQ else if lo == 8 then VC else if lo == 9 then VS
    else if lo == 10 then PL else if lo == 11 then MI else if lo == 12 then GE else if lo == 13 then LT
    else if lo == 14 then GT else LE
  }

  function DecodeMem(lo: nat, mode: Mode): Insn
    requires lo < 16
  {
    if lo == 14 then Jmp(mode)
    else if UnaryColumn(lo) == [] then Invalid else UnaryMem(UnaryColumn(lo)[0], mode)
  }

  function DecodeAcc(lo: nat, acc: Acc): Insn
    requires lo < 16
  {
    if UnaryColumn(lo) == [] then Invalid else UnaryAcc(UnaryColumn(lo)[0], acc)
  }

  /** Rows 0x10, 0x20 and 0x30 of the first page. */
  function DecodeMisc(op: byte): Insn
    requires 0x10 <= op < 0x40
  {
    if op == 0x12 then Nop else if op == 0x16 then LongBra else if op == 0x17 then LongBsr
    else if op == 0x19 then Daa else if op == 0x1a then Orcc else if op == 0x1c then Andcc
    else if op == 0x1d then Sex else if op == 0x1e then Exg else if op == 0x1f then Tfr
    else if op == 0x20 then Bra else if op == 0x21 then Brn
    else if 0x22 <= op < 0x30 then Branch(CondOf(op - 0x20))
    else if op == 0x30 then Lea(X) else if op == 0x31 then Lea(Y) else if op == 0x32 then Lea(S)
    else if op == 0x33 then Lea(U) else if op == 0x34 then Psh(false) else if op == 0x35 then Pul(false)
    else if op == 0x36 then Psh(true) else if op == 0x37 then Pul(true) else if op == 0x39 then Rts
    else if op == 0x3a then Abx else if op == 0x3b then Rti else if op == 0x3c then Cwai
    else if op == 0x3d then Mul else if op == 0x3f then Swi
    else Invalid
  }

  /** Rows 0x80-0xff: accumulator A, X, D-subtract and JSR in the lower half; B, D, U in the upper. */
  function DecodeHigh(op: byte): Insn
    requires 0x80 <= op
  {
    var lo, mode := op % 16, RowMode(op / 16);
    var upper := op >= 0xc0;
    var acc := if upper then AccB else AccA;
    if lo == 3 then Arith16(!upper, mode)
    else if lo == 7 then (if mode == Immediate then Invalid else Store8(acc, mode))
    else if lo < 12 then BinaryAcc(BinaryColumn(lo), acc, mode)
    else if lo == 12 then (if upper then Load16(D, mode, 4) else Cmp16(X, mode, 4))
    else if lo == 13 then
      (if mode == Immediate then (if upper then Invalid else Bsr)
       else if upper then Store16(D, mode, 4) else Jsr(mode))
    else if lo == 14 then Load16(if upper then U else X, mode, 4)
    else if mode == Immediate then Invalid else Store16(if upper then U else X, mode, 4)
  }

  /** The first page.  0x10 and 0x11 are prefixes and are handled by the fetch. */
  function Decode(op: byte): Insn {
    if op < 0x10 then DecodeMem(op, Direct)
    else if op < 0x40 then DecodeMisc(op)
    else if op < 0x50 then DecodeAcc(op - 0x40, AccA)
    else if op < 0x60 then DecodeAcc(op - 0x50, AccB)
    else if op < 0x70 then DecodeMem(op - 0x60, Indexed)
    else if op < 0x80 then DecodeMem(op - 0x70, Extended)
    else DecodeHigh(op)
  }

  /** The 0x10 page. */
  function Decode10(op: byte): Insn {
    if op == 0x21 then LongBrn
    else if 0x22 <= op < 0x30 then LongBranch(CondOf(op - 0x20))
    else if op == 0x3f then Swi2
    else if op < 0x80 then Invalid
    else
      var lo, mode := op % 16, RowMode(op / 16);
      if op < 0xc0 then
        (if lo == 3 then Cmp16(D, mode, 5)
         else if lo == 12 then Cmp16(Y, mode, 5)
         else if lo == 14 then Load16(Y, mode, 5)
         else if lo == 15 && mode != Immediate then Store16(Y, mode, 5)
         else Invalid)
      else if lo == 14 then Load16(S, mode, 5)
      else if lo == 15 && mode != Immediate then Store16(S, mode, 5)
      else Invalid
  }

  /** The 0x11 page. */
  function Decode11(op: byte): Insn {
    if op == 0x3f then Swi3
    else if op < 0x80 || op >= 0xc0 then Invalid
    else if op % 16 == 3 then Cmp16(U, RowMode(op / 16), 5)
    else if op % 16 == 12 then Cmp16(S, RowMode(op / 16), 5)
    else Invalid
  }

  /** Instructions that need an address never decode to the immediate column, and the base
      cost is 4 on the first page and 5 on the prefixed ones. */
  predicate Encodable(i: Insn) {
    && ((i.UnaryMem? || i.Store8? || i.Store16? || i.Jmp? || i.Jsr?) ==> !i.mode.Immediate?)
    && ((i.Cmp16? || i.Load16? || i.Store16?) ==> 4 <= i.base <= 5)
  }

  lemma DecodeEncodable(op: byte)
    ensures Encodable(Decode(op)) && Encodable(Decode10(op)) && Encodable(Decode11(op))
  {
  }
}
