/** The mnemonic column of the disassembler's opcode tables, and its agreement with the executor: for
    every opcode, what is executed is what the listing calls it. */
module Mnemonics {
  import opened Words
  import opened Alu
  import opened Decoder
  import opened Arch

  /** The enumeration of mnemonics, with its own numbering. */
  type Mnemonic = nat

  const UNDOC := 0  const ABX := 1  const ADCA := 2  const ADCB := 3  const ADDA := 4  const ADDB := 5
  const ADDD := 6  const ANDA := 7  const ANDB := 8  const ANDCC := 9  const ASLA := 10  const ASLB := 11
  const ASL := 12  const ASRA := 13  const ASRB := 14  const ASR := 15  const BCC := 16  const LBCC := 17
  const BCS := 18  const LBCS := 19  const BEQ := 20  const LBEQ := 21  const BGE := 22  const LBGE := 23
  const BGT := 24  const LBGT := 25  const BHI := 26  const LBHI := 27  const BITA := 28  const BITB := 29
  const BLE := 30  const LBLE := 31  const BLS := 32  const LBLS := 33  const BLT := 34  const LBLT := 35
  const BMI := 36  const LBMI := 37  const BNE := 38  const LBNE := 39  const BPL := 40  const LBPL := 41
  const BRA := 42  const LBRA := 43  const BRN := 44  const LBRN := 45  const BSR := 46  const LBSR := 47
  const BVC := 48  const LBVC := 49  const BVS := 50  const LBVS := 51  const CLRA := 52  const CLRB := 53
  const CLR := 54  const CMPA := 55  const CMPB := 56  const CMPD := 57  const CMPS := 58  const CMPU := 59
  const CMPX := 60  const CMPY := 61  const COMA := 62  const COMB := 63  const COM := 64  const CWAI := 65
  const DAA := 66  const DECA := 67  const DECB := 68  const DEC := 69  const EORA := 70  const EORB := 71
  const EXG := 72  const INCA := 73  const INCB := 74  const INC := 75  const JMP := 76  const JSR := 77
  const LDA := 78  const LDB := 79  const LDD := 80  const LDS := 81  const LDU := 82  const LDX := 83
  const LDY := 84  const LEAS := 85  const LEAU := 86  const LEAX := 87  const LEAY := 88  const LSRA := 89
  const LSRB := 90  const LSR := 91  const MUL := 92  const NEGA := 93  const NEGB := 94  const NEG := 95
  const NOP := 96  const ORA := 97  const ORB := 98  const ORCC := 99  const PSHS := 100  const PSHU := 101
  const PULS := 102  const PULU := 103  const ROLA := 104  const ROLB := 105  const ROL := 106  const RORA := 107
  const RORB := 108  const ROR := 109  const RTI := 110  const RTS := 111  const SBCA := 112  const SBCB := 113
  const SEX := 114  const STA := 115  const STB := 116  const STD := 117  const STS := 118  const STU := 119
  const STX := 120  const STY := 121  const SUBA := 122  const SUBB := 123  const SUBD := 124  const SWI := 125
  const SWI2 := 126  const SWI3 := 127  const SYNC := 128  const TFR := 129  const TSTA := 130  const TSTB := 131
  const TST := 132  const RESET := 133

  // ----- the tables -----

  /** The rows of the table `codes`. */
  const MEMORY_ROW: seq<Mnemonic> :=
    [NEG, UNDOC, UNDOC, COM, LSR, UNDOC, ROR, ASR, ASL, ROL, DEC, UNDOC, INC, TST, JMP, CLR]
  const CONTROL_ROW: seq<Mnemonic> :=
    [UNDOC, UNDOC, NOP, SYNC, UNDOC, UNDOC, LBRA, LBSR, UNDOC, DAA, ORCC, UNDOC, ANDCC, SEX, EXG, TFR]
  const BRANCH_ROW: seq<Mnemonic> :=
    [BRA, BRN, BHI, BLS, BCC, BCS, BNE, BEQ, BVC, BVS, BPL, BMI, BGE, BLT, BGT, BLE]
  const STACK_ROW: seq<Mnemonic> :=
    [LEAX, LEAY, LEAS, LEAU, PSHS, PULS, PSHU, PULU, UNDOC, RTS, ABX, RTI, CWAI, MUL, RESET, SWI]
  const A_ROW: seq<Mnemonic> :=
    [NEGA, UNDOC, UNDOC, COMA, LSRA, UNDOC, RORA, ASRA, ASLA, ROLA, DECA, UNDOC, INCA, TSTA, UNDOC, CLRA]
  const B_ROW: seq<Mnemonic> :=
    [NEGB, UNDOC, UNDOC, COMB, LSRB, UNDOC, RORB, ASRB, ASLB, ROLB, DECB, UNDOC, INCB, TSTB, UNDOC, CLRB]
  const A_IMMEDIATE_ROW: seq<Mnemonic> :=
    [SUBA, CMPA, SBCA, SUBD, ANDA, BITA, LDA, UNDOC, EORA, ADCA, ORA, ADDA, CMPX, BSR, LDX, UNDOC]
  const A_MEMORY_ROW: seq<Mnemonic> :=
    [SUBA, CMPA, SBCA, SUBD, ANDA, BITA, LDA, STA, EORA, ADCA, ORA, ADDA, CMPX, JSR, LDX, STX]
  const B_IMMEDIATE_ROW: seq<Mnemonic> :=
    [SUBB, CMPB, SBCB, ADDD, ANDB, BITB, LDB, UNDOC, EORB, ADCB, ORB, ADDB, LDD, UNDOC, LDU, UNDOC]
  const B_MEMORY_ROW: seq<Mnemonic> :=
    [SUBB, CMPB, SBCB, ADDD, ANDB, BITB, LDB, STB, EORB, ADCB, ORB, ADDB, LDD, STD, LDU, STU]

  function Row(hi: nat): (r: seq<Mnemonic>)
    requires hi < 16
    ensures |r| == 16
  {
    if hi == 0 || hi == 6 || hi == 7 then MEMORY_ROW
    else if hi == 1 then CONTROL_ROW
    else if hi == 2 then BRANCH_ROW
    else if hi == 3 then STACK_ROW
    else if hi == 4 then A_ROW
    else if hi == 5 then B_ROW
    else if hi == 8 then A_IMMEDIATE_ROW
    else if hi < 12 then A_MEMORY_ROW
    else if hi == 12 then B_IMMEDIATE_ROW
    else B_MEMORY_ROW
  }

  function Codes(op: byte): Mnemonic { Row(op / 16)[op % 16] }

  /** The long branches of the table `codes10`, from 0x20 on. */
  const LONG_BRANCHES: seq<Mnemonic> :=
    [UNDOC, LBRN, LBHI, LBLS, LBCC, LBCS, LBNE, LBEQ, LBVC, LBVS, LBPL, LBMI, LBGE, LBLT, LBGT, LBLE]

  /** The mnemonic column of the table `codes10`. */
  function Codes10(op: byte): Mnemonic {
    if 0x20 <= op < 0x30 then LONG_BRANCHES[op - 0x20]
    else if op == 0x3f then SWI2
    else if op == 0x83 || op == 0x93 || op == 0xa3 || op == 0xb3 then CMPD
    else if op == 0x8c || op == 0x9c || op == 0xac || op == 0xbc then CMPY
    else if op == 0x8e || op == 0x9e || op == 0xae || op == 0xbe then LDY
    else if op == 0x9f || op == 0xaf || op == 0xbf then STY
    else if op == 0xce || op == 0xde || op == 0xee || op == 0xfe then LDS
    else if op == 0xdf || op == 0xef || op == 0xff then STS
    else UNDOC
  }

  /** The mnemonic column of the table `codes11`. */
  function Codes11(op: byte): Mnemonic {
    if op == 0x3f then SWI3
    else if op == 0x83 || op == 0x93 || op == 0xa3 || op == 0xb3 then CMPU
    else if op == 0x8c || op == 0x9c || op == 0xac || op == 0xbc then CMPS
    else UNDOC
  }

  function MnemonicAt(m: Memory, pc: word): Mnemonic {
    if m[pc] == 0x10 then Codes10(m[Plus(pc, 1)])
    else if m[pc] == 0x11 then Codes11(m[Plus(pc, 1)])
    else Codes(m[pc])
  }

  // ----- the name of an instruction -----

  /** Written on an accumulator or on memory. */
  function UnaryName(op: UnaryOp, onA: bool, onB: bool): Mnemonic {
    match op
    case Neg => if onA then NEGA else if onB then NEGB else NEG
    case Com => if onA then COMA else if onB then COMB else COM
    case Lsr => if onA then LSRA else if onB then LSRB else LSR
    case Ror => if onA then RORA else if onB then RORB else ROR
    case Asr => if onA then ASRA else if onB then ASRB else ASR
    case Asl => if onA then ASLA else if onB then ASLB else ASL
    case Rol => if onA then ROLA else if onB then ROLB else ROL
    case Dec => if onA then DECA else if onB then DECB else DEC
    case Inc => if onA then INCA else if onB then INCB else INC
    case Tst => if onA then TSTA else if onB then TSTB else TST
    case Clr => if onA then CLRA else if onB then CLRB else CLR
  }

  function BinaryName(op: BinaryOp, acc: Acc): Mnemonic {
    match op
    case SubOp => if acc == AccA then SUBA else SUBB
    case CmpOp => if acc == AccA then CMPA else CMPB
    case SbcOp => if acc == AccA then SBCA else SBCB
    case AndOp => if acc == AccA then ANDA else ANDB
    case BitOp => if acc == AccA then BITA else BITB
    case LdOp => if acc == AccA then LDA else LDB
    case EorOp => if acc == AccA then EORA else EORB
    case AdcOp => if acc == AccA then ADCA else ADCB
    case OrOp => if acc == AccA then ORA else ORB
    case AddOp => if acc == AccA then ADDA else ADDB
  }

  function CompareName(r: Reg16): Mnemonic {
    match r case D => CMPD case X => CMPX case Y => CMPY case U => CMPU case S => CMPS
  }

  function LoadName(r: Reg16): Mnemonic {
    match r case D => LDD case X => LDX case Y => LDY case U => LDU case S => LDS
  }

  function StoreName(r: Reg16): Mnemonic {
    match r case D => STD case X => STX case Y => STY case U => STU case S => STS
  }

  /** LEA exists for the pointer registers. */
  function LeaName(r: Reg16): Mnemonic {
    match r case D => UNDOC case X => LEAX case Y => LEAY case U => LEAU case S => LEAS
  }

  /** Carry clear is "higher or same", carry set "lower". */
  function BranchName(k: Cond, long: bool): Mnemonic {
    match k
    case HI => if long then LBHI else BHI
    case LS => if long then LBLS else BLS
    case HS => if long then LBCC else BCC
    case LO => if long then LBCS else BCS
    case NE => if long then LBNE else BNE
    case EQ => if long then LBEQ else BEQ
    case VC => if long then LBVC else BVC
    case VS => if long then LBVS else BVS
    case PL => if long then LBPL else BPL
    case MI => if long then LBMI else BMI
    case GE => if long then LBGE else BGE
    case LT => if long then LBLT else BLT
    case GT => if long then LBGT else BGT
    case LE => if long then LBLE else BLE
  }

  /** What a listing calls the instruction, whatever its addressing mode. */
  function Name(i: Insn): Mnemonic {
    match i
    case UnaryAcc(op, acc) => UnaryName(op, acc == AccA, acc == AccB)
    case UnaryMem(op, _) => UnaryName(op, false, false)
    case BinaryAcc(op, acc, _) => BinaryName(op, acc)
    case Store8(acc, _) => if acc == AccA then STA else STB
    case Arith16(subtract, _) => if subtract then SUBD else ADDD
    case Cmp16(r, _, _) => CompareName(r)
    case Load16(r, _, _) => LoadName(r)
    case Store16(r, _, _) => StoreName(r)
    case Branch(k) => BranchName(k, false)
    case LongBranch(k) => BranchName(k, true)
    case Lea(r) => LeaName(r)
    case Psh(user) => if user then PSHU else PSHS
    case Pul(user) => if user then PULU else PULS
    case Jmp(_) => JMP
    case Jsr(_) => JSR
    case Bra => BRA
    case LongBra => LBRA
    case Brn => BRN
    case LongBrn => LBRN
    case Bsr => BSR
    case LongBsr => LBSR
    case Rts => RTS
    case Abx => ABX
    case Rti => RTI
    case Cwai => CWAI
    case Mul => MUL
    case Swi => SWI
    case Swi2 => SWI2
    case Swi3 => SWI3
    case Nop => NOP
    case Daa => DAA
    case Orcc => ORCC
    case Andcc => ANDCC
    case Sex => SEX
    case Exg => EXG
    case Tfr => TFR
    case Invalid => UNDOC
  }

  /** The executor stops on the undocumented opcodes, SYNC and RESET, and runs every other one under its
      own name. */
  predicate Agrees(i: Insn, m: Mnemonic) {
    if m == UNDOC || m == SYNC || m == RESET then i == Invalid else i != Invalid && Name(i) == m
  }

  // ----- agreement -----

  lemma MemoryColumn(lo: nat, mode: Mode)
    requires lo < 16
    ensures Agrees(DecodeMem(lo, mode), MEMORY_ROW[lo])
  {
    hide BinaryName, BranchName, LoadName, StoreName, CompareName, LeaName;
  }

  lemma AccumulatorColumn(lo: nat, acc: Acc)
    requires lo < 16
    ensures Agrees(DecodeAcc(lo, acc), (if acc == AccA then A_ROW else B_ROW)[lo])
  {
    hide BinaryName, BranchName, LoadName, StoreName, CompareName, LeaName;
  }

  lemma BranchColumn(lo: nat)
    requires 2 <= lo < 16
    ensures Agrees(Branch(CondOf(lo)), BRANCH_ROW[lo]) && Agrees(LongBranch(CondOf(lo)), LONG_BRANCHES[lo])
  {
    hide UnaryName, BinaryName, LoadName, StoreName, CompareName, LeaName;
  }

  lemma ControlRow(op: byte)
    requires 0x10 <= op < 0x20
    ensures Agrees(DecodeMisc(op), CONTROL_ROW[op - 0x10])
  {
    hide CondOf, UnaryName, BinaryName, BranchName, LoadName, StoreName, CompareName, LeaName;
  }

  lemma BranchRow(op: byte)
    requires 0x20 <= op < 0x30
    ensures Agrees(DecodeMisc(op), BRANCH_ROW[op - 0x20])
  {
    hide CondOf, BranchName;
    if op >= 0x22 { BranchColumn(op - 0x20); }
  }

  lemma StackRow(op: byte)
    requires 0x30 <= op < 0x40
    ensures Agrees(DecodeMisc(op), STACK_ROW[op - 0x30])
  {
    hide CondOf, UnaryName, BinaryName, BranchName, LoadName, StoreName, CompareName;
  }

  lemma HighRow(op: byte)
    requires 0x80 <= op
    ensures Agrees(DecodeHigh(op), Row(op / 16)[op % 16])
  {
    hide UnaryName, BranchName, LeaName;
  }

  lemma FirstPage(op: byte)
    ensures Agrees(Decode(op), Codes(op))
  {
    hide DecodeMem, DecodeAcc, DecodeMisc, DecodeHigh, Agrees;
    if op < 0x10 { MemoryColumn(op, Direct); }
    else if op < 0x20 { ControlRow(op); }
    else if op < 0x30 { BranchRow(op); }
    else if op < 0x40 { StackRow(op); }
    else if op < 0x50 { AccumulatorColumn(op - 0x40, AccA); }
    else if op < 0x60 { AccumulatorColumn(op - 0x50, AccB); }
    else if op < 0x70 { MemoryColumn(op - 0x60, Indexed); }
    else if op < 0x80 { MemoryColumn(op - 0x70, Extended); }
    else { HighRow(op); }
  }

  lemma Page10(op: byte)
    ensures Agrees(Decode10(op), Codes10(op))
  {
    hide UnaryName, BinaryName, LeaName, CondOf, BranchName;
    if 0x22 <= op < 0x30 { BranchColumn(op - 0x20); }
  }

  lemma Page11(op: byte)
    ensures Agrees(Decode11(op), Codes11(op))
  {
    hide UnaryName, BinaryName, LeaName, BranchName;
  }

  /** Whatever bytes memory holds, the executor runs the operation, on the register and under the
      condition, that the disassembler's mnemonic names. */
  lemma ExecutesWhatItIsCalled(m: Memory, pc: word)
    ensures Agrees(InsnAt(m, pc), MnemonicAt(m, pc))
  {
    hide Agrees, Decode, Decode10, Decode11, Codes, Codes10, Codes11;
    FirstPage(m[pc]);
    Page10(m[Plus(pc, 1)]);
    Page11(m[Plus(pc, 1)]);
  }
}
