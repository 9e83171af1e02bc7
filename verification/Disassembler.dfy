/** The disassembler's idea of instruction lengths, from its own opcode tables, and its agreement
    with what the processor executes. */
module Disassembler {
  import opened Words
  import opened Alu
  import opened Decoder
  import opened Arch
  import opened Effects
  import opened Stacking

  datatype AddrMode =
    | Illegal | Implied | ImmByte | ImmWord | DirectByte | ExtendedWord | IndexedPost
    | RelByte | RelWord | RegPost | SysPost | UsrPost

  /** Columns 1, 2, 5 and 11 of the read-modify-write rows are undefined. */
  function RmwMode(lo: nat, mode: AddrMode): AddrMode {
    if lo == 1 || lo == 2 || lo == 5 || lo == 11 then Illegal else mode
  }

  /** The mode column of the table `codes`. */
  function Codes(op: byte): AddrMode {
    if op < 0x10 then RmwMode(op, DirectByte)
    else if op < 0x20 then
      if op == 0x16 || op == 0x17 then RelWord
      else if op == 0x1a || op == 0x1c then ImmByte
      else if op == 0x1e || op == 0x1f then RegPost
      else if op == 0x12 || op == 0x13 || op == 0x19 || op == 0x1d then Implied
      else Illegal
    else if op < 0x30 then RelByte
    else if op < 0x40 then
      if op < 0x34 then IndexedPost
      else if op < 0x36 then SysPost
      else if op < 0x38 then UsrPost
      else if op == 0x38 then Illegal
      else if op == 0x3c then ImmByte
      else Implied
    else if op < 0x60 then (if op % 16 == 14 then Illegal else RmwMode(op % 16, Implied))
    else if op < 0x70 then RmwMode(op - 0x60, IndexedPost)
    else if op < 0x80 then RmwMode(op - 0x70, ExtendedWord)
    else if op < 0x90 || 0xc0 <= op < 0xd0 then
      if op == 0x8d then RelByte
      else if op % 16 == 7 || op % 16 == 15 || op == 0xcd then Illegal
      else if op % 16 == 3 || op % 16 == 12 || op % 16 == 14 then ImmWord
      else ImmByte
    else if op / 16 % 4 == 1 then DirectByte
    else if op / 16 % 4 == 2 then IndexedPost
    else ExtendedWord
  }

  /** The mode column of the table `codes10`. */
  function Codes10(op: byte): AddrMode {
    if 0x21 <= op < 0x30 then RelWord
    else if op == 0x3f then Implied
    else if op == 0x83 || op == 0x8c || op == 0x8e || op == 0xce then ImmWord
    else if op == 0x93 || op == 0x9c || op == 0x9e || op == 0x9f || op == 0xde || op == 0xdf then DirectByte
    else if op == 0xa3 || op == 0xac || op == 0xae || op == 0xaf || op == 0xee || op == 0xef then IndexedPost
    else if op == 0xb3 || op == 0xbc || op == 0xbe || op == 0xbf || op == 0xfe || op == 0xff then ExtendedWord
    else Illegal
  }

  /** The mode column of the table `codes11`. */
  function Codes11(op: byte): AddrMode {
    if op == 0x3f then Implied
    else if op == 0x83 || op == 0x8c then ImmWord
    else if op == 0x93 || op == 0x9c then DirectByte
    else if op == 0xa3 || op == 0xac then IndexedPost
    else if op == 0xb3 || op == 0xbc then ExtendedWord
    else Illegal
  }

  /** Bytes the index post byte makes the disassembler fetch. */
  function IndexBytes(post: byte): nat {
    var k := post % 32;
    if post < 0x80 then 0
    else if k == 0x08 || k == 0x0c || k == 0x18 || k == 0x1c then 1
    else if k == 0x09 || k == 0x0d || k == 0x19 || k == 0x1d || k == 0x1f then 2
    else 0
  }

  /** Bytes fetched for an operand; `post` is the byte at the cursor. */
  function OperandBytes(am: AddrMode, post: byte): nat {
    match am
    case Illegal | Implied => 0
    case ImmByte | DirectByte | RelByte | RegPost | SysPost | UsrPost => 1
    case ImmWord | ExtendedWord | RelWord => 2
    case IndexedPost => 1 + IndexBytes(post)
  }

  function ModeAt(m: Memory, pc: word): AddrMode {
    if m[pc] == 0x10 then Codes10(m[Plus(pc, 1)])
    else if m[pc] == 0x11 then Codes11(m[Plus(pc, 1)])
    else Codes(m[pc])
  }

  /** The length dasm reports with OS-9 call decoding off. */
  function DasmLength(m: Memory, pc: word): nat {
    var n := OpcodeLength(m, pc);
    n + OperandBytes(ModeAt(m, pc), m[Plus(pc, n)])
  }

  /** dasm itself: a cursor moved by its fetch macros. */
  method Dasm(m: Memory, opc: word) returns (length: nat)
    ensures length == DasmLength(m, opc)
  {
    var pc := 1;
    var op := m[opc];
    var am: AddrMode;
    if op == 0x10 || op == 0x11 {
      var second := m[Plus(opc, pc)];
      pc := pc + 1;
      am := if op == 0x10 then Codes10(second) else Codes11(second);
    } else {
      am := Codes(op);
    }
    match am {
      case Illegal | Implied =>
      case ImmByte | DirectByte | RelByte | RegPost | SysPost | UsrPost => pc := pc + 1;
      case ImmWord | ExtendedWord | RelWord => pc := pc + 2;
      case IndexedPost =>
        var post := m[Plus(opc, pc)];
        pc := pc + 1;
        if post >= 0x80 {
          var k := post % 32;
          if k == 0x08 || k == 0x0c || k == 0x18 || k == 0x1c { pc := pc + 1; }
          else if k == 0x09 || k == 0x0d || k == 0x19 || k == 0x1d || k == 0x1f { pc := pc + 2; }
        }
    }
    length := pc;
  }

  // ----- agreement with the executor -----

  lemma PostsAgree(post: byte)
    ensures IndexBytes(post) == PostExtra(post)
  {
    assert post % 32 % 16 == post % 16;
  }

  /** Operand bytes by mode, for an instruction the executor accepts. */
  predicate ModeFits(i: Insn, am: AddrMode) {
    match i
    case UnaryMem(_, mode) => am == Spelled(mode, Illegal)
    case BinaryAcc(_, _, mode) => am == Spelled(mode, ImmByte)
    case Store8(_, mode) => am == Spelled(mode, Illegal)
    case Arith16(_, mode) => am == Spelled(mode, ImmWord)
    case Cmp16(_, mode, _) => am == Spelled(mode, ImmWord)
    case Load16(_, mode, _) => am == Spelled(mode, ImmWord)
    case Store16(_, mode, _) => am == Spelled(mode, Illegal)
    case Jmp(mode) => am == Spelled(mode, Illegal)
    case Jsr(mode) => am == Spelled(mode, Illegal)
    case Lea(_) => am == IndexedPost
    case Bsr | Bra | Brn | Branch(_) => am == RelByte
    case Psh(_) | Pul(_) => am == SysPost || am == UsrPost
    case Cwai | Orcc | Andcc => am == ImmByte
    case Exg | Tfr => am == RegPost
    case LongBsr | LongBra | LongBrn | LongBranch(_) => am == RelWord
    case Invalid => true
    case _ => am == Implied
  }

  function Spelled(mode: Mode, imm: AddrMode): AddrMode {
    match mode
    case Immediate => imm
    case Direct => DirectByte
    case Indexed => IndexedPost
    case Extended => ExtendedWord
  }

  lemma MiscPageFits(op: byte)
    requires 0x10 <= op < 0x40
    ensures ModeFits(Decode(op), Codes(op))
  {
    hide DecodeMem, DecodeAcc, DecodeHigh, RmwMode;
  }

  lemma LowPageFits(op: byte)
    requires op < 0x10 || 0x40 <= op < 0x80
    ensures ModeFits(Decode(op), Codes(op))
  {
    hide DecodeMisc, DecodeHigh;
  }

  lemma HighPageFits(op: byte)
    requires 0x80 <= op
    ensures ModeFits(Decode(op), Codes(op))
  {
  }

  lemma Prefixed10Fits(op: byte)
    ensures ModeFits(Decode10(op), Codes10(op))
  {
  }

  lemma Prefixed11Fits(op: byte)
    ensures ModeFits(Decode11(op), Codes11(op))
  {
  }

  /** For every instruction the executor accepts, both agree on its length. */
  lemma LengthsAgree(m: Memory, pc: word)
    requires InsnAt(m, pc) != Invalid
    ensures var n := OpcodeLength(m, pc);
            DasmLength(m, pc) == n + OperandLength(m, Plus(pc, n), InsnAt(m, pc))
  {
    hide Decode, Decode10, Decode11, Codes, Codes10, Codes11, IndexBytes, PostExtra;
    var n := OpcodeLength(m, pc);
    var i := InsnAt(m, pc);
    assert ModeFits(i, ModeAt(m, pc)) by {
      if m[pc] >= 0x80 { HighPageFits(m[pc]); }
      else if 0x10 <= m[pc] < 0x40 { MiscPageFits(m[pc]); }
      else { LowPageFits(m[pc]); }
      Prefixed10Fits(m[Plus(pc, 1)]); Prefixed11Fits(m[Plus(pc, 1)]);
    }
    DecodeEncodable(m[pc]);
    DecodeEncodable(m[Plus(pc, 1)]);
    PostsAgree(m[Plus(pc, n)]);
  }

  /** The next instruction neither transfers control nor lets an interrupt in. */
  predicate StraightLine(s: State) {
    var i := InsnAt(s.mem, s.pc);
    var post := s.mem[Plus(s.pc, OpcodeLength(s.mem, s.pc))];
    && (match Exec(Skip(s, OpcodeLength(s.mem, s.pc)), i) case Halted => true case Running(t) => !(t.ccChanged && Delivers(t)))
    && match i
       case UnaryAcc(_, _) | UnaryMem(_, _) | BinaryAcc(_, _, _) | Store8(_, _) | Arith16(_, _) | Cmp16(_, _, _)
          | Load16(_, _, _) | Store16(_, _, _) | Lea(_) | Psh(_) | Abx | Mul | Nop | Daa | Sex
          | Brn | LongBrn | Orcc | Andcc => true
       case Branch(k) => !Taken(k, s.cc)
       case LongBranch(k) => !Taken(k, s.cc)
       case Pul(_) => RPC !in RegList(post)
       case Exg => post / 16 != 5 && post % 16 != 5
       case Tfr => post % 16 != 5
       case _ => false
  }

  lemma ExecStraight(s: State, i: Insn)
    requires Encodable(i) && !s.ccChanged
    requires match i
             case Branch(k) => !Taken(k, s.cc)
             case LongBranch(k) => !Taken(k, s.cc)
             case Pul(_) => RPC !in RegList(s.mem[s.pc])
             case Exg => s.mem[s.pc] / 16 != 5 && s.mem[s.pc] % 16 != 5
             case Tfr => s.mem[s.pc] % 16 != 5
             case Jmp(_) | Jsr(_) | Bsr | LongBsr | Bra | LongBra | Rts | Rti | Cwai | Swi | Swi2 | Swi3 => false
             case _ => true
    ensures match Exec(s, i)
            case Halted => true
            case Running(t) => t.irqs == s.irqs && t.firqs == s.firqs && t.pc == Plus(s.pc, OperandLength(s.mem, s.pc, i))
  {
    hide ExecUnaryMem, ExecBinary, ExecStore8, ExecArith16, ExecCmp16, ExecLoad16, ExecStore16, OperandLength,
         ExecLea, ExecPsh, ExecPul, ExecRti, ExecCwai, ExecOrcc, ExecAndcc, ExecExg, ExecTfr, RegList, Taken;
    if i.UnaryMem? || i.BinaryAcc? || i.Store8? { hide Exec; Memory8Effects(s, i); }
    else if i.Arith16? || i.Cmp16? || i.Load16? || i.Store16? { hide Exec; Memory16Effects(s, i); }
    else if i.Branch? || i.LongBranch? { NotTaken(s, i); }
    else if i.Lea? { LeaEffects(s, i.reg); }
    else if i.Psh? { PshEffects(s, i.user); }
    else if i.Pul? { PulStraight(s, i.user); }
    else if i.Orcc? || i.Andcc? { CcStraight(s); assert OperandLength(s.mem, s.pc, i) == 1 by { OneByte(s, i); } }
    else if i.Exg? || i.Tfr? { TfrStraight(s); assert OperandLength(s.mem, s.pc, i) == 1 by { OneByte(s, i); } }
    else { hide Exec; RegisterEffects(s, i); }
  }

  lemma OneByte(s: State, i: Insn)
    requires i.Orcc? || i.Andcc? || i.Exg? || i.Tfr?
    ensures OperandLength(s.mem, s.pc, i) == 1
  {
  }

  lemma NotTaken(s: State, i: Insn)
    requires (i.Branch? || i.LongBranch?) && !Taken(i.cond, s.cc)
    ensures Exec(s, i) == Running(if i.Branch? then Skip(Spend(s, 3), 1) else Skip(Spend(s, 5), 2))
    ensures OperandLength(s.mem, s.pc, i) == if i.Branch? then 1 else 2
  {
    hide Taken;
  }

  lemma PulStraight(s: State, user: bool)
    requires RPC !in RegList(s.mem[s.pc])
    ensures var t := ExecPul(s, user); t.irqs == s.irqs && t.firqs == s.firqs && t.pc == Plus(s.pc, 1)
    ensures OperandLength(s.mem, s.pc, Pul(user)) == 1
  {
    hide RegList, PullList, TotalSize;
    PullListFrame(Skip(s, 1), user, RegList(s.mem[s.pc]));
  }

  lemma CcStraight(s: State)
    ensures ExecOrcc(s).pc == Plus(s.pc, 1) && ExecAndcc(s).pc == Plus(s.pc, 1)
    ensures ExecOrcc(s).irqs == s.irqs && ExecOrcc(s).firqs == s.firqs
    ensures ExecAndcc(s).irqs == s.irqs && ExecAndcc(s).firqs == s.firqs
  {
    hide Or, And, Pack, Unpack;
  }

  lemma TfrStraight(s: State)
    ensures ExecExg(s).irqs == s.irqs && ExecExg(s).firqs == s.firqs
    ensures ExecTfr(s).irqs == s.irqs && ExecTfr(s).firqs == s.firqs
    ensures s.mem[s.pc] % 16 != 5 ==> ExecTfr(s).pc == Plus(s.pc, 1)
    ensures s.mem[s.pc] % 16 != 5 && s.mem[s.pc] / 16 != 5 ==> ExecExg(s).pc == Plus(s.pc, 1)
  {
    hide GetReg, SetReg, Source;
    var post := s.mem[s.pc];
    var t := Skip(s, 1);
    WidthBits(post);
    var v1, v2 := Source(t, post, post / 16), Source(t, post, post % 16);
    SetRegFrame(t, post % 16, v1);
    SetRegFrame(SetReg(t, post % 16, v1), post / 16, v2);
    SetRegPc(t, post % 16, v1);
    SetRegPc(SetReg(t, post % 16, v1), post / 16, v2);
  }

  lemma SetRegPc(s: State, nro: nat, v: word)
    requires nro >= 8 ==> v < 256
    ensures nro != 5 ==> SetReg(s, nro, v).pc == s.pc
  {
    hide Unpack;
  }

  /** One straight-line instruction moves PC by the length the disassembler reports. */
  lemma StraightStep(s: State)
    requires StraightLine(s) && !s.ccChanged
    ensures match Step(s)
            case Halted => true
            case Running(t) => t.pc == Plus(s.pc, DasmLength(s.mem, s.pc)) && !t.ccChanged
  {
    hide Exec, Decode, Decode10, Decode11, DasmLength, OperandLength, Encodable;
    var n := OpcodeLength(s.mem, s.pc);
    var i := InsnAt(s.mem, s.pc);
    DecodeEncodable(s.mem[s.pc]);
    DecodeEncodable(s.mem[Plus(s.pc, 1)]);
    LengthsAgree(s.mem, s.pc);
    ExecStraight(Skip(s, n), i);
    PlusPlus(s.pc, n, OperandLength(s.mem, Plus(s.pc, n), i));
  }

  // ----- runs -----

  /** Each of the next `n` instructions is straight-line and still spelled as in memory `m`. */
  predicate StraightRun(s: State, n: nat, m: Memory)
    decreases n
  {
    n > 0 ==> && StraightLine(s) && SameBytes(m, s.mem, s.pc, 3)
              && match Step(s) case Halted => true case Running(t) => StraightRun(t, n - 1, m)
  }

  /** Repeated disassembly of a fixed memory. */
  function DasmWalk(m: Memory, pc: word, n: nat): word
    decreases n
  {
    if n == 0 then pc else DasmWalk(m, Plus(pc, DasmLength(m, pc)), n - 1)
  }

  lemma SameCodeSameLength(m: Memory, m': Memory, pc: word)
    requires SameBytes(m, m', pc, 3)
    ensures DasmLength(m', pc) == DasmLength(m, pc)
  {
    hide Codes, Codes10, Codes11, IndexBytes;
    assert m'[Plus(pc, 0)] == m[Plus(pc, 0)] && m'[Plus(pc, 1)] == m[Plus(pc, 1)] && m'[Plus(pc, 2)] == m[Plus(pc, 2)];
    assert Plus(pc, 0) == pc;
  }

  /** After any number of straight-line instructions PC is where that many dasm steps lead. */
  lemma {:induction false} ExecutionFollowsDasm(s: State, n: nat, m: Memory)
    requires StraightRun(s, n, m) && !s.ccChanged
    ensures match Steps(s, n)
            case Halted => true
            case Running(t) => t.pc == DasmWalk(m, s.pc, n)
    decreases n
  {
    hide Step, DasmLength, StraightLine, SameBytes;
    if n > 0 {
      StraightStep(s);
      SameCodeSameLength(m, s.mem, s.pc);
      match Step(s)
      case Halted =>
      case Running(t) => ExecutionFollowsDasm(t, n - 1, m);
    }
  }

  // ----- subroutine calls -----

  lemma CallStacks(s: State, target: word)
    ensures var t := Call(s, target); Read16(t.mem, t.s) == s.pc && t.pc == target
  {
    hide PushWord;
    PushWordStored(s, false, s.pc, []);
    var u := PushWord(s, false, s.pc);
    assert u.mem[Plus(u.s, 0)] == ([Hi(s.pc), Lo(s.pc)] + [])[0] && u.mem[Plus(u.s, 1)] == ([Hi(s.pc), Lo(s.pc)] + [])[1];
    assert Plus(u.s, 0) == u.s;
    JoinHiLo(s.pc);
  }

  /** JSR, BSR and LBSR stack the address right after the instruction, as the disassembler sees it. */
  lemma CallPushesNext(s: State)
    requires !s.ccChanged
    requires var i := InsnAt(s.mem, s.pc); i.Jsr? || i.Bsr? || i.LongBsr?
    ensures match Step(s)
            case Halted => true
            case Running(t) => Read16(t.mem, t.s) == Plus(s.pc, DasmLength(s.mem, s.pc))
  {
    hide Exec, Decode, Decode10, Decode11, DasmLength, OperandLength, Encodable, Read16;
    var n := OpcodeLength(s.mem, s.pc);
    var i := InsnAt(s.mem, s.pc);
    DecodeEncodable(s.mem[s.pc]);
    DecodeEncodable(s.mem[Plus(s.pc, 1)]);
    LengthsAgree(s.mem, s.pc);
    PlusPlus(s.pc, n, OperandLength(s.mem, Plus(s.pc, n), i));
    CallOutcome(Skip(s, n), i);
    TransferEffects(Skip(s, n), i);
  }

  lemma CallOutcome(s: State, i: Insn)
    requires Encodable(i) && (i.Jsr? || i.Bsr? || i.LongBsr?)
    ensures match Exec(s, i)
            case Halted => true
            case Running(t) => Read16(t.mem, t.s) == Plus(s.pc, OperandLength(s.mem, s.pc, i))
  {
    hide Address, Call, Read16, ShortTarget, LongTarget;
    if i.Jsr? {
      AddressEffects(s, i.mode, 7);
      match Address(s, i.mode, 7)
      case BadPost =>
      case At(t, ea) => CallStacks(t, ea);
    } else {
      CallStacks(Skip(Spend(s, 7), 1), ShortTarget(s));
      CallStacks(Skip(Spend(s, 9), 2), LongTarget(s));
    }
  }
}
