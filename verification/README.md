# exec09 in Dafny

A model of the 6809 emulator exec09: its CPU core, its system bus and MMU, the multicomp09 memory
mapper, SD controller and UART, the cycle timer, the interrupt multiplexer, the serial queue, the
symbol table and the length rules of its disassembler, with proofs of what these parts promise.

Check the whole project with `dafny verify dfyconfig.toml`.

## How it is organised

| file | content |
|---|---|
| `Words.dfy`, `FlagWords.dfy` | bytes, words, C's bitwise operators on `unsigned`; what the expressions kept in the flag words mean arithmetically |
| `Alu.dfy`, `Decoder.dfy`, `Arch.dfy` | the eager semantics of this emulator, called the architectural machine below: a CC of eight flags, arithmetic defined by signed and unsigned values, the opcode pages, the meaning of every instruction, interrupts, one step |
| `Cpu.dfy` | the emulator's processor: a class with the lazy flag words H, N, Z, OV, C and EFI, changed in place; every method is proved to do what the architectural machine does |
| `Effects.dfy`, `Budget.dfy`, `Masks.dfy` | what an instruction can touch and what it costs; the execution loop; pending interrupts over whole runs |
| `Stacking.dfy`, `PushPull.dfy`, `Nesting.dfy` | what a push leaves in memory; runs of PSH and PUL instructions; nested interrupts and returns |
| `Wide.dfy` | multi-byte binary and packed-decimal arithmetic built from ADC, SBC and DAA |
| `Disassembler.dfy`, `Mnemonics.dfy` | instruction lengths; the mnemonic of every opcode |
| `Addressing.dfy`, `Programs.dfy`, `AluLaws.dfy` | which byte every form of address reaches; what short instruction sequences do, from the bytes in memory; laws of the ALU operations |
| `Bus.dfy`, `Mapper.dfy`, `SdCard.dfy` | map cells, MMU, aliasing; the multicomp09 address space; the block protocol |
| `Queues.dfy`, `Lines.dfy`, `Timer.dfy`, `Symtab.dfy` | receive queues; interrupt lines; timer and main loop; symbol table |

The refinement runs through two definitions written differently. `Arch` and `Alu` give the eager
semantics of this emulator, its own DAA, CWAI and mixed-width EXG and TFR included: overflow is "the signed result does not fit", half carry is "the low nibbles sum to more than
15". `Cpu` says what the code does: `arg ^ val ^ res ^ C` is stored and looked at later. The
abstraction function `Cpu.Abs` reads a CC register off the flag words, and `Cpu.StepOne` proves that
one turn of the loop in `cpu_execute` maps to `Arch.Step`. Properties of runs are then proved once,
on `Arch`. That `Arch` itself gives the opcodes, addresses, vectors and flags their documented meaning is
stated separately, without its own functions, in `Mnemonics`, `Addressing`, `Programs`, `AluLaws` and
`Nesting`. `sim_error` is the outcome `Halted`.

## What the code does that its documentation does not promise

Each of these is modelled as coded, with the exact condition under which the expected property holds
and an input at which it fails.

- DAA adds 0x60 twice when both nibbles of the binary sum exceed nine (`WideArithmetic.DecimalChainExact`;
  `WideArithmetic.DoubledExample`: 55 + 55 gives 70 with carry).
- CWAI lowers the masks without setting `cc_changed`, so a latched request is not delivered
  (`Masks.RunSettles`; `Masks.LostRequest`).
- CWAI masks E, F and I only, not all of CC as ANDCC does (`Masks.CwaiMasksAllIff`; `Masks.CwaiKeepsCarry`).
- The equality branch after a multi-byte subtraction looks at the last byte only
  (`WideArithmetic.EqualityBranchRightIff`; `WideArithmetic.EqualityBranchMisled`); the order branches
  are right (`WideArithmetic.BranchesDecideOrder`).
- `cpu_read16` translates one address (`Bus.FastReadExact`; `Mapper.FastReadMisled`: the word at 0xdfff
  of a freshly booted multicomp09).
- SDCONTROL falls through into SDLBA0 (`SdCard.RereadRightIff`; `SdCard.RereadMisled`: sector 0).
- UART0 master reset clears `wr` twice and never `rd` (`Queues.ResetWorksIff`; `Queues.ResetBreaks`).
- The write flags of the Fixed-RAM-Top cells are the opposite of what the comments beside them say,
  and the expander cell makes the top 128 bytes writable even over ROM
  (`Mapper.PermissionAsCommentedIff`; `Mapper.PermissionsOpposite`).
- `sym_set` leaves the symbol in its old value bucket (`Symtab.LookupRightIff`; `Symtab.MovedSymbolLost`).
- A timer that counts down to exactly zero asks for an interrupt and asks again when it is reloaded
  at the next update (`Timer.AsksOnceIff`; `Timer.AsksTwice`).
- Cycles charged for an interrupt taken between two slices disappear when the next slice starts, so
  get_cycles jumps (`Timer.Eon2.Slice`, `Timer.Eon2.RequestThenSlice`, `Timer.EntryShowsIff`; an unmasked
  request is such an input).

## Modelling decisions

- Registers are integers in an explicit range; 32-bit wrap-around of `unsigned` is written out as `U32`.
  PC is kept modulo 64K. The C code does not mask PC on a fetch, so reading an instruction past 0xFFFF
  is outside the map in the original and wraps here.
- DP is kept as the byte the program sees, not shifted left by eight.
- The processor works on a flat 64K memory without devices. The console byte of the `simple` machine
  and other device side effects are not part of the processor proofs.
- The switch of `cpu_execute` is a decode table followed by dispatch on the decoded instruction; the
  pairs pshs/pshu and puls/pulu are one method each, with the stack as parameter.
- `Cpu.Execute` and the run lemmas start with `cc_changed` clear. The loop clears it in every turn and
  nothing but the interactive monitor sets it between slices.
- `bus_map` only warns about a request past the 512 cells and then writes outside the array; staying
  within them is a precondition of `Bus.Machine.BusMap`, and the mapper and the MMU are proved to meet it.
- An SD address of 2^31 or more is negative as C `int` and cannot be sought: a write to it is dropped
  when it is complete, as coded; a read command for it never returns, so a seekable address is required
  of read commands and of the round trips.
- The host is a parameter: bytes that arrive at the UART or the serial port, and the cycle count.

## Model

| member | source | states |
|---|---|---|
| `Alu.UnpackPack` | src/6809.c:568-595 | packing eight flags into a CC byte and unpacking it gives the flags back |
| `Alu.PackUnpack` | src/6809.c:568-595 | get_cc after set_cc is the byte that was set, for all 256 bytes |
| `Cpu6809.Cpu.GetCc` | src/6809.c:568-584 | the byte assembled from EFI and the lazy words is the CC register they stand for |
| `Cpu6809.Cpu.SetCcByte` | src/6809.c:586-595 | afterwards the lazy words stand for exactly that CC byte and cc_changed is set |
| `FlagWords.AddOverflowWord` | src/6809.c:722-742 | bit 4 of `arg ^ val ^ res ^ C` is the half carry and bit 7 signed overflow, with and without carry in |
| `FlagWords.SubOverflowWord` | src/6809.c:963-993 | bit 8 of the wrapped difference is the borrow and bit 7 of the OV word signed overflow |
| `FlagWords.Add16Words` | src/6809.c:1025-1035 | the same for the 16-bit sum |
| `FlagWords.Sub16Words` | src/6809.c:1037-1045 | the same for the 16-bit difference |
| `FlagWords.ShiftLeftWords` | src/6809.c:754-764 | carry and overflow of ASL and ROL |
| `Cpu6809.Cpu.AddCarry` | src/6809.c:722-731 | result and all flags are those of an 8-bit add with carry |
| `Cpu6809.Cpu.Add` | src/6809.c:733-742 | result and all flags are those of an 8-bit add |
| `Cpu6809.Cpu.SubtractCarry` | src/6809.c:963-972 | result and all flags are those of an 8-bit subtract with borrow |
| `Cpu6809.Cpu.Subtract` | src/6809.c:984-993 | result and all flags are those of an 8-bit subtract |
| `Cpu6809.Cpu.BinaryDispatch` | src/6809.c:722-993 | each two-operand ALU function agrees with its architectural meaning |
| `Cpu6809.Cpu.UnaryDispatch` | src/6809.c:754-1002 | each one-operand ALU function agrees with its architectural meaning |
| `Cpu6809.Cpu.DecimalAdjustA` | src/6809.c:814-832 | A and flags after DAA, double correction included |
| `Cpu6809.Cpu.AddD` | src/6809.c:1025-1035 | D and flags after ADDD |
| `Cpu6809.Cpu.SubtractD` | src/6809.c:1100-1110 | D and flags after SUBD |
| `Cpu6809.Cpu.Multiply` | src/6809.c:906-915 | D is the product of A and B, with its flags |
| `Cpu6809.Cpu.IndexedMode` | src/6809.c:237-386 | every post byte yields the architectural address, register update and cycle charge, or a halt |
| `Cpu6809.Cpu.PushRegisters` | src/6809.c:1114-1224 | PSHS and PSHU stack exactly the registers the post byte names |
| `Cpu6809.Cpu.PullRegisters` | src/6809.c:1226-1340 | PULS and PULU load exactly the registers the post byte names |
| `Cpu6809.Cpu.Exchange` | src/6809.c:855-871 | EXG, with the 0xff read for a mixed pair |
| `Cpu6809.Cpu.Transfer` | src/6809.c:1004-1017 | TFR, with the 0xff read for a mixed pair |
| `Cpu6809.Cpu.StackMachineState` | src/6809.c:1344-1372 | stacks the full or short frame with E telling which |
| `Cpu6809.Cpu.TakeIrq` | src/6809.c:1425-1438 | IRQ entry: frame unless waiting, I set, vector fetched |
| `Cpu6809.Cpu.TakeFirq` | src/6809.c:1440-1452 | FIRQ entry: short frame unless waiting, F and I set, vector fetched |
| `Cpu6809.Cpu.ReturnFromInterrupt` | src/6809.c:1387-1414 | RTI pulls as much as the stacked E bit says |
| `Cpu6809.Cpu.WaitForInterrupt` | src/6809.c:1505-1533 | CWAI stacks once, then burns a cycle and comes back |
| `Cpu6809.Cpu.CheckPending` | src/6809.c:597-605 | FIRQ before IRQ, then cc_changed is clear |
| `Cpu6809.Cpu.CondFromCc` | src/6809.c:1559-1572 | each condition macro on the lazy words tests what the branch tests on the CC register |
| `Cpu6809.Cpu.Dispatch` | src/6809.c:1652-2999 | every decoded instruction refines its architectural meaning |
| `Cpu6809.Cpu.StepOne` | src/6809.c:1649-3002 | one turn of the loop refines one architectural step, whatever the flag words contain |
| `Cpu6809.Cpu.Execute` | src/6809.c:1633-3010 | the loop is the architectural run; it terminates and for a slice of n >= 1 cycles returns n to n + 35, the sum of the instruction costs |
| `Cpu6809.RunBoth` | src/6809.c:568-595 | two processors that agree on get_cc, registers, memory and requests still agree after any slice, whatever their flag words hold |
| `Effects.AddressEffects` | src/6809.c:230-393 | an address computation charges the tabulated cycles, moves PC by the tabulated bytes and changes neither memory, CC nor requests |
| `Effects.PshEffects` | src/6809.c:1114-1224 | a push costs 5 plus its byte count and changes no flag, mask or request |
| `Effects.PulEffects` | src/6809.c:1226-1340 | a pull costs 5 plus its byte count; masks change only together with cc_changed |
| `Effects.ExchangeSwaps` | src/6809.c:855-871 | EXG on two registers of one width swaps them, CC included, and leaves the other registers of that width |
| `Effects.TransferCopies` | src/6809.c:1004-1017 | TFR on two registers of one width copies the first to the second and leaves the others of that width |
| `Mnemonics.ExecutesWhatItIsCalled` | src/monitor.c:99-874 | for all bytes in memory the executor runs the operation, register and condition that the mnemonic tables name, and stops on exactly the undocumented opcodes, SYNC and RESET |
| `Addressing.AccumulatorOffsets` | src/6809.c:237-386 | `,R`, `A,R`, `B,R` and `D,R` and their indirect forms: address, charge and nothing else changed |
| `Addressing.SmallOffset` | src/6809.c:237-386 | the five-bit signed offset |
| `Addressing.ByteOffsets` | src/6809.c:237-386 | signed byte offsets to a pointer or to the next instruction |
| `Addressing.WordOffsets` | src/6809.c:237-386 | signed word offsets to a pointer or to the next instruction |
| `Addressing.ExtendedIndirect` | src/6809.c:237-386 | the address found at the operand word |
| `Addressing.SingleSteps` | src/6809.c:237-386 | `,R+` and `,-R`: the address before and after the step |
| `Addressing.DoubleSteps` | src/6809.c:237-386 | `,R++` and `,--R` and their indirect forms |
| `Addressing.IllegalPosts` | src/6809.c:237-386 | exactly which post bytes stop the emulator |
| `Addressing.PlainAddresses` | src/6809.c:230-235 | direct addresses put DP above the operand, extended ones are the operand word, high byte first |
| `Addressing.StoreThenLoad` | src/6809.c:237-386 | STA ,-R then LDA ,R+ restores the pointer and reads the byte back, whatever happens in between |
| `Addressing.StoreIsPush` | src/6809.c:1114-1224 | STA ,-S does to memory and S what PSHS A does; the same for U |
| `Addressing.LoadIsPull` | src/6809.c:1226-1340 | LDA ,S+ loads what PULS A loads; the same for U |
| `Addressing.LeaMoves` | src/6809.c:237-386 | LEA ,Q copies one pointer to another, with Z for X and Y only |
| `Addressing.TransferIsLea` | src/6809.c:1004-1017 | TFR numbers the pointers as the post byte does: it moves what LEA moves |
| `Programs.CompareThenBranch` | src/6809.c:1559-1588 | CMPA or CMPB, then any short conditional branch: control goes to the target exactly when the two numbers stand in the relation of the opcode |
| `Programs.CompareThenLongBranch` | src/6809.c:1559-1608 | CMPX, then any long conditional branch, likewise |
| `Programs.BranchPairs` | src/6809.c:1559-1572 | for all flags the branches come in opposite pairs and the mixed tests are made of the simple ones |
| `Programs.Jumps` | src/6809.c:1574-1594 | where JMP, BRA and LBRA go |
| `Programs.Calls` | src/6809.c:1379-1385 | where JSR, BSR and LBSR go, what they stack and what they cost |
| `Programs.CallThenReturn` | src/6809.c:1416-1423 | RTS after a call comes back behind it with S restored |
| `Programs.StoreThenLoadWord` | src/6809.c:1057-1098 | a 16-bit store puts the high byte first, and the load of the address gives the register back |
| `Programs.WordArithmetic` | src/6809.c:1025-1110 | ADDD adds and SUBD subtracts the operand, with their carries |
| `Programs.ModifiesMemory` | src/6809.c:1656-1660 | a read-modify-write instruction replaces the byte at its address by the result; TST only looks |
| `Programs.OrccSets` | src/6809.c:1541-1547 | each flag the operand names is set, no other changes |
| `Programs.AndccClears` | src/6809.c:1549-1555 | each flag the operand does not name is cleared, no other changes |
| `Programs.TransferNumbers` | src/6809.c:607-717 | the register numbers of D, PC, A, B, CC and DP, and 0xff between widths |
| `Programs.AbxNop` | src/6809.c:1019-1023 | ABX adds B unsigned; NOP does nothing |
| `Programs.SexMul` | src/6809.c:906-915 | SEX extends the sign of B into A; MUL puts the product into D |
| `AluLaws.RotatesInvert` | src/6809.c:938-961 | ROL and ROR undo each other through the carry |
| `AluLaws.DoubleWord` | src/6809.c:754-764 | ASL and ROL double a word |
| `AluLaws.HalveWord` | src/6809.c:766-775 | LSR or ASR and ROR halve an unsigned or signed word, rounding down |
| `AluLaws.Negations` | src/6809.c:802-812 | NEG and COM give the two's and one's complement, with their carries and overflow |
| `AluLaws.Counting` | src/6809.c:834-882 | INC and DEC undo each other, keep the carry and overflow at one value each |
| `AluLaws.LogicBits` | src/6809.c:744-752 | AND, OR and EOR bit by bit; V cleared, C kept |
| `AluLaws.SumsInvert` | src/6809.c:733-742 | ADD and SUB undo each other; without carry in ADC is ADD and SBC is SUB |
| `AluLaws.WordsFromBytes` | src/6809.c:1025-1035 | ADDD is ADD and ADC, SUBD is SUB and SBC, with the same C, V and N |
| `AluLaws.ProductRounds` | src/6809.c:906-915 | MUL is exact, and its C rounds the product to a byte |
| `Nesting.HandlerStarts` | src/6809.c:1425-1476 | each of the seven entries starts at the word its own vector held before the entry, with its own masks set |
| `Nesting.RequestStarts` | src/6809.c:51-92 | an unmasked request starts at the IRQ or FIRQ vector |
| `Nesting.StepStarts` | src/6809.c:3001-3002 | an instruction that lets a pending request in goes on at its vector, FIRQ before IRQ |
| `Nesting.FrameLayout` | src/6809.c:1344-1372 | the twelve bytes of a full frame and the three of a short one, in order |
| `Budget.CostBounds` | src/6809.c:1633-3010 | every valid instruction costs 1 to 20 cycles, one that loads CC at most 17 |
| `Budget.ExecCost` | src/6809.c:1652-2999 | the cost table is exact for every instruction, and only a load of CC raises cc_changed |
| `Budget.StepCost` | src/6809.c:1649-3002 | a turn of the loop costs 1 to 36 cycles, an interrupt entry included |
| `Budget.WorstStep` | src/6809.c:1226-1282 | 36 is reached: every PULS of all registers that unmasks a latched IRQ costs exactly that |
| `Budget.RunOverrun` | src/6809.c:1633-3010 | a run ends with 0 to 35 cycles overrun |
| `Budget.RunSumsCosts` | src/6809.c:1633-3010 | the cycles a run uses are exactly the table costs of its instructions plus its interrupt entries |
| `Masks.CheckSettles` | src/6809.c:597-605 | after the pending check every request is masked; a deliverable FIRQ goes first |
| `Masks.StepSettles` | src/6809.c:1505-1533 | from a settled state an instruction leaves a settled state exactly when it is not a CWAI that unmasks a latched request |
| `Masks.RunSettles` | src/6809.c:51-92 | over any run of requests, releases and instructions, every boundary is settled if and only if no such CWAI is met |
| `Masks.CwaiMasksAllIff` | src/6809.c:1513 | CWAI masks CC as ANDCC would if and only if its operand keeps every set flag among H, N, Z, V and C |
| `Masks.CwaiKeepsCarry` | src/6809.c:1513 | CWAI #0 keeps a set carry that ANDCC #0 clears |
| `Masks.LostRequest` | src/6809.c:1505-1533 | a masked IRQ followed by CWAI #0 waits for ever with the request deliverable |
| `Masks.WaitingForever` | src/6809.c:1505-1533 | a waiting processor only burns cycles |
| `Masks.RunKeepsLines` | src/6809.c:1633-3010 | executing instructions never changes the request words |
| `WideArithmetic.AddChainSum` | src/6809.c:722-731 | folding ADC over n bytes gives the n-byte sum and its carry, any n |
| `WideArithmetic.AddChainFlags` | src/6809.c:722-731 | the final OV is the two's-complement overflow of the whole number |
| `WideArithmetic.SubChainDifference` | src/6809.c:963-972 | folding SBC over n bytes gives the n-byte difference and its borrow |
| `WideArithmetic.SubChainFlags` | src/6809.c:963-972 | the final OV is the overflow of the whole difference |
| `WideArithmetic.BranchesDecideOrder` | src/6809.c:1559-1572 | after the chain LO/HS decide the unsigned and LT/GE the signed order of the two numbers |
| `WideArithmetic.EqualityBranchRightIff` | src/6809.c:1563-1564 | after the chain EQ decides equality of the two numbers if and only if their wrapped difference is zero or reaches the most significant byte |
| `WideArithmetic.EqualityBranchMisled` | src/6809.c:1563-1564 | EQ after the chain is taken for 1 and 0 as 16-bit numbers |
| `WideArithmetic.DecimalByteValue` | src/6809.c:814-832 | ADC then DAA on two packed-decimal bytes: the carry is exact, the digits are off by 0x60 exactly when both nibbles of the binary sum exceed nine |
| `WideArithmetic.SchoolbookSum` | src/6809.c:814-832 | the reference digits spell the decimal sum |
| `WideArithmetic.DecimalChainBytes` | src/6809.c:814-832 | any length: the carry out is exact and each byte is the reference pair, plus 0x60 at the doubled positions |
| `WideArithmetic.DecimalChainExact` | src/6809.c:822-825 | the chain spells the decimal sum if and only if no position is doubled |
| `WideArithmetic.DoubledExample` | src/6809.c:822-825 | 55 + 55 becomes 70 with carry |
| `Stacking.PushListStored` | src/6809.c:1114-1224 | a push of at most 64K bytes stores the registers' image at the new stack pointer and no other byte |
| `Stacking.PullListReads` | src/6809.c:1226-1340 | a pull of a stored image restores every named register and no other |
| `PushPull.PushPullRestores` | src/6809.c:1114-1340 | any run of PSH instructions up to 64K bytes, undone by the PULs in reverse: named registers, CC and the stack pointer are back whatever happened in between, PC comes back as the address after the first push that stacked it, only the pushed bytes change, and each run costs 5 an instruction plus its bytes |
| `PushPull.NamesByBit` | src/6809.c:1114-1340 | which bit of the post byte names which register |
| `PushPull.RegisterBytes` | src/6809.c:1114-1224 | the bytes of each register on the stack, the other stack pointer under bit 6 |
| `PushPull.PairRuns` | src/6809.c:1114-1340 | a PSH with its PUL right behind it is such a run |
| `PushPull.PushesStore` | src/6809.c:1114-1224 | a run of PSH instructions stacks the registers, each with the PC past its own post byte, below what was there |
| `PushPull.PullsRead` | src/6809.c:1226-1340 | a run of PUL instructions on such a stack restores them |
| `Nesting.EnterStores` | src/6809.c:1344-1372 | each of the seven ways into a handler leaves the frame of the interrupted program above S and touches no other byte |
| `Nesting.RtiRestores` | src/6809.c:1387-1414 | RTI on a stored frame restores S, PC and CC, and all registers after a full frame |
| `Nesting.RunKeepsFrames` | src/6809.c:1344-1476 | every legal run keeps the open frames with E telling their size; a balanced one closes what it opened |
| `Nesting.NestedReturn` | src/6809.c:1387-1476 | after any balanced handler body the matching RTI gives the interrupted program its S, PC, CC and, after a full frame, all registers |
| `Disassembler.Dasm` | src/monitor.c:892-1093 | the cursor ends at the specified length |
| `Disassembler.LengthsAgree` | src/monitor.c:99-874 | for every instruction the executor accepts, the table length is opcode bytes plus operand bytes consumed |
| `Disassembler.StraightStep` | src/monitor.c:892-1093 | one straight-line instruction that lets no interrupt in moves PC by the disassembler's length |
| `Disassembler.ExecutionFollowsDasm` | src/monitor.c:892-1093 | after n straight-line instructions PC is where n disassembly steps lead |
| `Disassembler.CallPushesNext` | src/6809.c:1379-1385 | JSR, BSR and LBSR stack the address plus the disassembler's length |
| `Bus.Machine.BusMap` | src/machine.c:93-132 | the loop rewrites exactly the covered cells that are not fixed, the offset advancing by 128 |
| `Bus.CellAfterHistory` | src/machine.c:93-132 | after any history a cell holds the first covering fixed mapping, else the last covering one |
| `Bus.FixedAfterHistory` | src/machine.c:93-132 | a cell is fixed if and only if some fixed mapping covered it |
| `Bus.CellUntouched` | src/machine.c:93-132 | a cell nothing covered keeps its entry |
| `Bus.AbsoluteIsInjective` | src/machine.c:187-190 | equal absolute addresses mean the same byte of the same device |
| `Bus.Machine.CpuWrite8` | src/machine.c:283-312 | writes, ignores or faults by the cell's flags and by whether a device answers |
| `Bus.ReadOverWrite` | src/machine.c:253-337 | after a write the byte shows at exactly the addresses with the same absolute address |
| `Bus.FastReadExact` | src/machine.c:266-281 | the 16-bit read equals two 8-bit reads for all device contents if and only if the address does not end a cell or the next cell continues the device |
| `Bus.Machine.WriteMmu` | src/machine.c:595-606 | register store and remap of its page |
| `Bus.PageRegisters` | src/machine.c:595-606 | what each register of a page means for its unfixed cells: device, block, right to read, right to write |
| `Bus.WriteOutcomes` | src/machine.c:283-312 | exactly when a write is stored and when it faults |
| `Bus.UnitsRoundUp` | src/machine.c:109-112 | addresses and lengths are rounded up to whole cells |
| `Bus.MmuInvariant` | src/machine.c:595-606 | under any register writes fixed cells never change and every written page agrees with its registers |
| `Bus.Machine.SyncMmu` | src/machine.c:619-636 | loads each page's registers from its fifth cell |
| `Bus.SampleAgrees` | src/machine.c:619-636 | on a page mapped as a whole the loaded registers describe all its cells |
| `Bus.EonWindow` | src/eon.c:18-37 | the eon MMU window survives the later mappings and every register write |
| `Mapper.SdMapper.Load` | src/miscsbc.c:515-567 | the register part of a remap, with entry to and exit from Fixed-RAM-Top |
| `Mapper.SdMapper.Remap` | src/miscsbc.c:570-663 | ten map calls and sixteen expander slots from the registers |
| `Mapper.SdMapper.WriteRegister` | src/miscsbc.c:864-874 | a write with bit 4 set changes nothing, any other one updates and remaps |
| `Mapper.BlockIsProgrammed` | src/miscsbc.c:426-455 | after any register writes, CPU block b is the RAM block whose number was last written to register b of the bank shown, writable unless bit 7 of it is set |
| `Mapper.TopBlockIsProgrammed` | src/miscsbc.c:570-663 | the same for block 7 up to the top, with ROM off and Fixed-RAM-Top not entered |
| `Mapper.MmuOffIsFlat` | src/miscsbc.c:426-455 | with the MMU off the first 56K of RAM are in place and unprotected |
| `Mapper.BlocksAliasIff` | src/miscsbc.c:426-455 | two programmed blocks share bytes if and only if the low seven bits of their registers agree |
| `Mapper.SelectAndWrite` | src/miscsbc.c:515-567 | selecting a register and writing a block number shows that block at once |
| `Mapper.RemapDecodes` | src/miscsbc.c:570-663 | map cells and expander slots decode every address by one formula, the I/O page included |
| `Mapper.AlwaysConsistent` | src/miscsbc.c:515-663 | that formula holds after every sequence of register writes, and FRT implies ROMDIS and MMUEN |
| `Mapper.BootConsistent` | src/miscsbc.c:914-986 | the initial mapping is consistent |
| `Mapper.UpdateKeepsFrt` | src/miscsbc.c:515-567 | FRT implies ROMDIS and MMUEN after every write |
| `Mapper.RomStaysOff` | src/miscsbc.c:515-567 | with ROM off and the MMU on, ROM cannot return while MMUEN stays 1 |
| `Mapper.WritePermission` | src/miscsbc.c:600-628 | exactly which addresses the CPU may write, as coded |
| `Mapper.PermissionAsCommentedIff` | src/miscsbc.c:603-628 | from 0xfe00 the code grants what its comments say exactly over ROM or an unprotected block 7 below 0xff80, and over RAM that is fixed or unprotected above |
| `Mapper.PermissionsOpposite` | src/miscsbc.c:607-614 | register writes from boot that make a protected 0xfe00 writable, and a fixed one read-only |
| `Mapper.FastReadMisled` | src/machine.c:266-281 | after boot the word read at 0xdfff is wrong for some contents of RAM and ROM |
| `Mapper.DecodeTop` | src/ioexpand.c:34-74 | in the top 128 bytes, slot selection plus the slot's offset leads to the promised byte of ROM or RAM |
| `SdCard.Controller.SdDataRead` | src/miscsbc.c:666-757 | the byte handed out and the next state |
| `SdCard.Controller.SdStatusRead` | src/miscsbc.c:666-757 | the status byte and the poll count |
| `SdCard.Controller.SdDataWrite` | src/miscsbc.c:766-796 | the next state, with the sector committed at the 512th byte |
| `SdCard.Controller.SdControlWrite` | src/miscsbc.c:797-843 | commands, and the fall-through into SDLBA0 |
| `SdCard.AlwaysSound` | src/miscsbc.c:666-850 | in every reachable state a transfer's index is below 512, so the "too much data" branches are dead |
| `SdCard.WriteStores` | src/miscsbc.c:766-796 | a write takes exactly the bytes offered when the status allows, stores them after the 512th unless the seek fails, and is then idle; nothing changes before |
| `SdCard.ReadDelivers` | src/miscsbc.c:666-757 | a read hands out the sector in order and is idle after exactly 512 bytes |
| `SdCard.RoundTrip` | src/miscsbc.c:666-850 | a sector written is read back byte for byte when the LBA registers are loaded before each command |
| `SdCard.OtherSectorsKept` | src/miscsbc.c:776-786 | no byte of another sector changes |
| `SdCard.DriverRoundTrip` | src/miscsbc.c:666-850 | a driver that polls and moves a byte at a time writes any 512 bytes and reads them back |
| `SdCard.StatusMeans` | src/miscsbc.c:702-740 | what each status bit says is so at the next access: byte to read, room to write, transfer going on, card not ready |
| `SdCard.ReadyAfterSixteen` | src/miscsbc.c:702-740 | a card becomes ready with the sixteenth status read |
| `SdCard.PollingRoundTrip` | src/miscsbc.c:666-850 | a driver that polls until the status shows the bit writes any 512 bytes to a sector and reads them back |
| `SdCard.SectorNumber` | src/miscsbc.c:806 | the three registers spell the sector number |
| `SdCard.SectorsHoldLastWrite` | src/miscsbc.c:666-850 | after any register accesses every sector holds the bytes of the last write completed to it, a read command loads them, and all other bytes are as they were |
| `SdCard.CommandClobbersLba` | src/miscsbc.c:841-843 | a command keeps the sector address if and only if SDLBA0 already held its code |
| `SdCard.RereadRightIff` | src/miscsbc.c:797-843 | reading a written sector back without reloading the LBA registers is right for every image if and only if SDLBA0 was 1 |
| `SdCard.RereadMisled` | src/miscsbc.c:797-843 | a write to sector 0 read back at once goes to sector 1 |
| `Queues.Conservation` | src/serial.c:80-98 | for a bounded queue and any events: initial contents plus accepted bytes equal bytes taken plus what is left, in order |
| `Queues.SerialPort.Push` | src/serial.c:80-88 | the ring is the bounded queue; refused exactly when full |
| `Queues.SerialPort.Pop` | src/serial.c:90-98 | the ring is the bounded queue; fails exactly when empty |
| `Queues.SerialPort.Inject` | src/serial.c:250-257 | accepts the longest prefix that fits and says whether that was all |
| `Queues.SerialPort.ReadData` | src/serial.c:122-139 | queued bytes come before any host byte |
| `Queues.FifoRefines` | src/miscsbc.c:255-320 | over any run the UART0 FIFO holds and hands out what the bounded queue of eight does |
| `Queues.ResetWorksIff` | src/miscsbc.c:359-368 | after a master reset the FIFO works if and only if the read index was zero |
| `Queues.ResetBreaks` | src/miscsbc.c:359-368 | a byte received, read, then a reset: the next byte received hides behind a stale one |
| `Lines.MulticompIo.TickTimer` | src/miscsbc.c:903-909 | a tick of an enabled timer sets its bit and requests line 0 of the processor, which is otherwise left alone |
| `Lines.MulticompIo.WriteTimer` | src/miscsbc.c:851-863 | enable bit stored, interrupt bit and line cleared by a one; the processor sees that release and nothing else |
| `Lines.MulticompIo.ReadUart` | src/miscsbc.c:303-320 | the oldest byte, converted; the line is released with the last, the processor otherwise left alone |
| `Lines.MulticompIo.WriteUartStatus` | src/miscsbc.c:359-368 | master reset with its release, or a new status |
| `Lines.MulticompIo.UpdateConsole` | src/miscsbc.c:417-423 | requests line 1 when a byte waits and the interrupt is enabled, and otherwise leaves the processor alone |
| `Lines.AlwaysAgree` | src/miscsbc.c:285-423 | in every reachable state line 0 is up exactly while the timer bit is set, and line 1 implies a byte to read |
| `Lines.TickObeysWrite` | src/miscsbc.c:851-909 | the timer's enable and acknowledge bits do what they say |
| `Lines.UpdateObeysControl` | src/miscsbc.c:417-423 | a waiting byte raises the line exactly if bit 7 of the control value is set |
| `Lines.CpuStepLines` | src/miscsbc.c:285-423 | the requests and releases of each event give the processor the lines of the device model |
| `Lines.RequestSetsLine` | src/6809.c:51-92 | a request sets its bit even when it is taken at once |
| `Lines.Imux.Refresh` | src/imux.c:34-50 | line 1 is up exactly while an enabled source is pending; the processor sees exactly that request or release |
| `Lines.Imux.Write` | src/imux.c:75-94 | enables replaced or pending sources cleared, the line follows |
| `Lines.Imux.Assert` | src/imux.c:105-110 | a source becomes pending, the line follows |
| `Timer.FailsIff` | src/timer.c:33-71 | the timer stops the emulator if and only if an update covers more than the rest of the period and another whole one |
| `Timer.Conservation` | src/timer.c:33-71 | count plus elapsed cycles is the initial count plus one period per reload; the count stays in range; every reload asks for an interrupt |
| `Timer.OneShot` | src/timer.c:33-71 | without a reload value the timer expires once, with the update that reaches the count, and rests at zero |
| `Timer.AsksOnceIff` | src/timer.c:41-64 | the timer asks exactly once for each reload if and only if no update ends on a period's end, a whole period that began there excepted |
| `Timer.AsksOnceIffOffGrid` | src/timer.c:41-64 | for a counter not at zero: if and only if no nonempty prefix of the updates adds up to the rest of the period and any number of further ones |
| `Timer.WholePeriodFromZero` | src/timer.c:41-64 | the exception is needed: a whole period counted from zero asks once and reloads once |
| `Timer.AsksTwice` | src/timer.c:41-64 | an update that ends on zero asks, and the next one reloads and asks again |
| `Timer.HwTimer.Elapse` | src/timer.c:33-71 | the device follows the counter and asserts its line exactly at an expiry with the interrupt enabled |
| `Timer.HwTimer.Update` | src/timer.c:73-79 | the same for the cycles since the last update |
| `Timer.Eon2.Slice` | src/main.c:433-438 | across `total +=` get_cycles advances by the cycles spent, without a jump, if and only if nothing was charged since the last slice |
| `Timer.Eon2.Turn` | src/main.c:429-445 | with slices of 1024 the oscillator cannot stop the emulator, the multiplexer's line stays right, a turn takes 1024 to 1059 cycles, and the processor runs on from the state the timer's request left |
| `Timer.Eon2.RunTurns` | src/main.c:429-445 | the same for any number of turns |
| `Timer.Eon2.RequestThenSlice` | src/6809.c:121-124 | after an IRQ request between slices get_cycles goes on without a jump if and only if the request was masked or ended a CWAI; otherwise the 19 cycles shown are gone |
| `Timer.EntryShowsIff` | src/6809.c:51-66 | an IRQ request between slices leaves get_cycles alone if and only if it is masked or finds the processor waiting |
| `Timer.FastEntryShowsIff` | src/6809.c:74-87 | the same for FIRQ, with 6 cycles |
| `Symtab.NewestName` | src/symtab.c:97-132 | the newest symbol of a name in the plain list |
| `Symtab.SymbolTable.FindSymbol` | src/symtab.c:97-132 | the chain walk finds the newest symbol of the name, subject to its kind |
| `Symtab.SymbolTable.AddSymbol` | src/symtab.c:161-185 | both indexes list the new symbol first |
| `Symtab.SymbolTable.SetSymbol` | src/symtab.c:188-196 | both indexes stay as specified; only the value changes |
| `Symtab.FindMeans` | src/symtab.c:97-140 | what is found is the newest symbol of the name, and only if its kind is the one wanted |
| `Symtab.SetThenFind` | src/symtab.c:188-196 | a value set under a name is found there and no other name is affected |
| `Symtab.SymbolTable.LookupValue` | src/symtab.c:142-158 | the chain walk finds the newest symbol of the bucket with that value |
| `Symtab.LookupRightIff` | src/symtab.c:188-196 | that is the newest symbol with the value if and only if the latter was added under a value of the same hash |
| `Symtab.SymbolTable.LookupNewest` | src/symtab.c:142-158 | on a table built by sym_add alone the lookup by value is right |
| `Symtab.MovedSymbolLost` | src/symtab.c:188-196 | a symbol moved by sym_set is not found under its new value |

## Left out

- H6309 instructions and registers: off by default and mostly empty cases.
- SYNC, undefined opcodes and undefined index post bytes: they stop the emulator and are the outcome `Halted`.
- Device side effects inside an instruction (reads and writes that raise or release lines, or rewrite the map under a running program): the processor proofs use plain memory.
- A fetch past 0xFFFF, map requests past cell 512, and memory offsets past the end of a device: outside the model.
- The loop after a failed seek in the SD read command, which never ends.
- Breakpoints, hooks, the interactive monitor, the call stack trace and the expression evaluator.
- The text the disassembler prints, and its OS-9 call decoding: only lengths are modelled.
- Parent symbol tables: the code never links one.
- Symbol storage and chains are sequences of indices, not linked nodes: sharing of string space is not captured.
- The timer's own register interface (hwtimer_read, hwtimer_write) and a timer without an interrupt device.
- UART1, UART2, GPIO and the output side of UART0, batch-file input past its end, and the status register value read from UART0.
- Host files, sockets and terminals, real-time pacing, option parsing, loaders for S19, hex and map files.
- The wpc, kipper1 and smii machines, the disk device and src/mmu.c: further device tables on the same bus.
