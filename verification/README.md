# rk65c02 in Dafny

rk65c02 emulates a WDC 65C02S. It runs guest code in two engines: a reference
interpreter (`src/emulation.c`, `src/instruction.c`, `src/rk65c02.c`) and a block
JIT (`src/jit.c`) that compiles up to 64 instructions of one page into native code
and keeps the code cache consistent while the guest rewrites itself and the host
remaps memory through an MMU with a software TLB. This project models both engines,
the code cache, the MMU, the bus and the assembler, and proves that the fast forms
agree with the simple ones.

Main results:

- **Refinement.** `Dispatcher.System.Start`: every run of the JIT dispatcher ends in
  the state of an interpreter run with the same host events, whatever
  self-modification, flushes, page demotions, run-disables and remaps happen on the
  way, remaps made by a store inside a running block included. That run executes an
  instruction only while the machine runs, and makes progress: the host is called at
  most four times per instruction, and three times more.
  `Simulation.NativeIsInterpreted` is the per-instruction simulation: the emitted code
  has its own semantics (`Emitter`), transcribed from the emitter.
- **Interrupts.** `Emulators.Emulator.RunBlock`: a dispatch of n instructions is n
  interpreter steps if no interrupt fell due during them, and for a block of native
  code only if. Late interrupts are bounded: with the line up no back-edge is taken, so
  a native dispatch ends less than 64 instructions after an interrupt fell due
  (`Dispatcher.LateBy`). An unsafe dispatch in the log of a run is a real one: it entered from
  the run's own state, and an interrupt fell due inside it, or its block lies on an
  aliased physical page $FF (`Dispatcher.GenuineAt`).
- **Coherence.** At every dispatch point each live block equals a decode of current
  memory (`Emulators.Emulator.Settled`, kept by every method), under every page map for
  blocks whose physical span ends below $FFFF, and for the others while page $FF has
  one virtual page. While a block runs, the first store into compiled code, and a store
  that makes the host remap, end it after that same instruction.
- **Index exactness.** Every reference counter equals the number of live blocks it
  stands for, so the counter test for a store event is a full scan
  (`Cache.EventIffTracked`), no counter wraps and the clamp is never used.
- **MMU.** The TLB answers as the host callback would through any history of
  accesses, switches, flushes and bracketed remaps (`Mmu.Mmu.Replay`). It is invisible
  on a page exactly when a base and a set of rights describe all the callback says
  about the page, or nothing on it is cached (`Mmu.UniformIffTransparent`);
  `Mmu.FaultCodeLost` is a host for which it is not. Answers follow the permission
  bits, on a hit and on a miss, and a reported range of addresses leaves no entry and
  no block on any of them (`Mmu.Mmu.UpdateRange`).
- **Single steps from bytes.** `Instructions` says what the interpreter does with the
  bytes at PC for interrupts, BRK, WAI, STP, JMP (a,X), branches, flags and single
  bits, in terms of bits and addresses; `Bits` ties AND, OR and EOR to arithmetic.
- **Arithmetic, stack, status.** Multi-byte ADC/SBC chains are exact in binary and
  BCD; RTS and RTI return to where they came from in every balanced run; bit 5 of P is
  set and B clear between instructions.
- **Bus and assembler.** Device lists behave as one byte map; assembling and decoding
  are inverse.

Where a property is false of the code, module `Limits` gives the exact condition: a
native instruction is an interpreter step if and only if no interrupt is due before
it; store events discard every block they touch if and only if physical page $FF has
at most one virtual page; a live block equals a fresh build if and only if the builder
would stop where the block stops.

## How it is laid out

| module | role |
|---|---|
| `Machine`, `Isa`, `Alu` | bytes, flags, memory with a page map; the opcode table; ADC and SBC |
| `Bits`, `Instructions` | bit operations as arithmetic; single steps read off the bytes of memory |
| `Interpreter`, `Processors` | one instruction as an effect; the interpreter updating its fields in place |
| `Emitter`, `Simulation` | emitted code per opcode; its agreement with the interpreter |
| `Blocks`, `Cache`, `Coherence` | building and tagging blocks; the table and its counters; staleness |
| `BlockRun`, `Emulators`, `Dispatcher` | control inside a block; the emulator object; the run loops with the host |
| `Mmu` | translation, TLB, update protocol |
| `Limits` | exact conditions behind the guarantees |
| `Chains`, `Stack`, `Status` | multi-byte arithmetic; stack discipline; the status register |
| `Bus`, `Assembler` | device lists; the assembler |

Conventions. `Memory` is the flat 64K the guest sees through an optional page map; a
store to an address without a device is ignored. `Exec` is one interpreter step and
`ExecN` a run of them. The host follows a script: each time it is called, by a poll,
by a wait in WAI or by a store of a running block, it does the next event, and a run
ends when the machine stops or the script does. `NotDue(c, n)` says that no interrupt
is due at the next n interpreter steps; `IrqSafe` is a condition known at entry that
implies it; a run in which the host never raises the line and never aliases physical
page $FF has only safe dispatches (`Dispatcher.PlainSafe`).

## Model

| member | source | states |
|---|---|---|
| `Isa.Def` | src/65c02isa.csv:2-257 | Every row of the table has operands that fit its size, a mode its routine can use (so the "unhandled addressing mode" panics are unreachable), and modify_pc exactly for the routines that set PC; the opcodes the JIT tests for by number are the routines it takes them for, and undefined opcodes have their sizes of one to three bytes. |
| `Bits.PackedBit` | src/rk65c02.h:129-136 | P is pushed with each flag in its own bit: N in bit 7, then V, bit 5, B, D, I, Z, and C in bit 0. |
| `Bits.BitwiseBits` | src/emulation.c:113-655 | Bit by bit AND is the product of the operands, OR the sum without it, EOR the sum without it twice. |
| `Bits.BitwiseSum` | src/emulation.c:113-655 | AND and OR add up to the sum of the operands; EOR is OR minus AND. |
| `Bits.BitMaskIsPow2` | src/emulation.c:748-755 | The mask of bit k is 1 doubled k times. |
| `Bits.SingleBit` | src/emulation.c:146-1010 | The masks of RMB, SMB, BBR and BBS clear, set and test one bit and leave the other seven. |
| `Instructions.JumpIndexed` | src/emulation.c:544-568 | With the bytes $7C lo hi at PC, a step goes to the word at lo hi plus X, wrapping at 64K, and changes nothing else. |
| `Instructions.WaitSleeps` | src/emulation.c:1183-1188 | $CB stops the processor just after itself, asleep in WAI. |
| `Instructions.StopHalts` | src/emulation.c:1056-1061 | $DB stops it just after itself for good. |
| `Instructions.InterruptEnters` | src/rk65c02.c:505-543 | A due interrupt stores PC and P at $0100+SP downwards and continues at the word at $FFFE as memory is then, with I set, D and B clear and the line down. |
| `Instructions.BreakSaves` | src/emulation.c:352-358 | $00 does the same with the address two bytes on and B set in the saved status. |
| `Instructions.BranchesOnFlag` | src/emulation.c:284-379 | For all eight conditional branches the upper bits of the opcode pick the flag and the value on which it branches, two bytes on plus the signed offset. |
| `Instructions.ChangesFlag` | src/emulation.c:382-1000 | The seven flag instructions set or clear the bit they name and no other. |
| `Instructions.FromBcdMasks` | src/emulation.c:34-42 | from_bcd, with its mask, on every byte. |
| `Instructions.LogicImmediate` | src/emulation.c:113-655 | ORA, AND and EOR with an immediate byte, bit by bit, with Z and N of the result. |
| `Instructions.ChangesBit` | src/emulation.c:748-1010 | RMBk and SMBk write the zero-page byte back with bit k cleared or set and nothing else changed. |
| `Instructions.ChangesMasked` | src/emulation.c:1112-1142 | TSB and TRB set or clear in the zero-page byte exactly the bits that are set in A, with Z when none of them was set. |
| `Instructions.BranchesOnBit` | src/emulation.c:146-257 | BBRk and BBSk branch exactly when bit k of the zero-page byte is clear or set. |
| `Alu.ToBcdLoop` | src/emulation.c:45-60 | The digit loop packs the two low decimal digits for every byte, the third digit of values over 99 included. |
| `Alu.EmulAdc` | src/emulation.c:68-109 | The statements of ADC give the sum modulo 256 (or the BCD sum), C as carry out, V as signed overflow, Z and N of the result, for all operands and both modes. |
| `Alu.Difference` | src/emulation.c:877-885 | The uint16_t difference with borrow has the low byte, the signed value and the two range tests of the exact difference. |
| `Alu.EmulSbc` | src/emulation.c:872-919 | SBC in both modes, statement by statement: difference modulo 256 (or BCD), C as no borrow, V as signed overflow, Z and N of the result. |
| `Alu.DoAdcBcd` | src/emulation.c:927-948 | The helper the JIT calls in decimal mode agrees with the decimal branch of ADC on all inputs, invalid BCD included. |
| `Alu.DoSbcBcd` | src/emulation.c:951-978 | The same for SBC, through the truncating remainder of C. |
| `Alu.AdcOverflow` | src/emulation.c:82-85 | The sign-bit test is signed overflow of the sum. |
| `Alu.SbcOverflow` | src/emulation.c:887-890 | The same for the difference. |
| `Chains.NativeChain` | src/jit.c:1256-1312 | A chain of emitted ADC or SBC computes what the interpreted chain computes. |
| `Chains.ChainExact` | src/emulation.c:68-919 | For every length, a chain of ADC (SBC) in either engine is the exact sum (difference) modulo the power of the base, 256 or 100, with final C the carry (no borrow), and decimal results are valid BCD. |
| `Chains.SubUndoesAdd` | src/emulation.c:872-919 | Subtracting what was added returns the first operand byte for byte; the borrow is the carry. |
| `Chains.ChainOverflow` | src/jit.c:1411-1450 | In binary mode the final V is exactly the signed overflow of the n-byte numbers, in either engine; without it the result is the exact signed number. |
| `Processors.PulledStatus` | src/emulation.c:697-700 | Masking a pulled byte sets bit 5 and clears B and keeps the other six flags. |
| `Processors.Processor.AdjustStatus` | src/instruction.c:244-259 | Z and N follow the value; other flags stay. |
| `Processors.Processor.StackPush` | src/instruction.c:349-353 | One byte at $0100+SP, SP down by one modulo 256. |
| `Processors.Processor.StackPop` | src/instruction.c:357-365 | SP up by one modulo 256, then the byte there. |
| `Processors.Processor.DataWrite1` | src/instruction.c:262-277 | The result goes to A or is the only store of the routine. |
| `Processors.Processor.TakeIrq` | src/rk65c02.c:505-528 | Interrupt entry: the three pushes in order, I set, D and B cleared, PC from the two bytes at $FFFE and $FFFF as memory is after the pushes, line dropped. |
| `Processors.Processor.ReadRoutine` | src/emulation.c:68-655 | The loads, logic operations, ADC, SBC, compares and BIT, against their meaning on values. |
| `Processors.Processor.Compare` | src/emulation.c:410-460 | C is unsigned at-least; Z and N are those of the difference. |
| `Processors.Processor.BitRoutine` | src/emulation.c:260-280 | Z from A AND operand; V and N from bits 6 and 7 unless immediate. |
| `Processors.Processor.ModifyRoutine` | src/emulation.c:464-1142 | The read-modify-write routines: one store of the new value to the address read, flags of the new value. |
| `Processors.Processor.ShiftRoutine` | src/emulation.c:802-868 | Shifts and rotates by masks are doubling and halving with the carry shifted in and out. |
| `Processors.Processor.MoveRoutine` | src/emulation.c:479-1179 | Transfers, increments and decrements; TXS leaves the flags alone. |
| `Processors.Processor.PutRoutine` | src/emulation.c:1064-1088 | The stores write A, X, Y or zero to the effective address. |
| `Processors.Processor.PushRoutine` | src/emulation.c:659-683 | PHA, PHX, PHY push the register; PHP pushes P with B and bit 5 set. |
| `Processors.Processor.PullRoutine` | src/emulation.c:687-718 | The pulled byte reaches its register; PLP restores six flags. |
| `Processors.Processor.CallRoutine` | src/emulation.c:572-586 | JSR pushes the address of its last byte, high byte first. |
| `Processors.Processor.ReturnRoutine` | src/emulation.c:736-744 | RTS takes PC from the two bytes above SP. |
| `Processors.Processor.ResumeRoutine` | src/emulation.c:722-732 | RTI takes status and PC from the three bytes above SP. |
| `Processors.Processor.JumpTo` | src/emulation.c:544-568 | The three modes of JMP: the operand, or the word in memory at the operand or at the operand plus X, wrapping at 64K. |
| `Processors.Processor.FlagRoutine` | src/emulation.c:382-406 | Each flag routine changes its one flag. |
| `Processors.Processor.JumpRoutine` | src/emulation.c:146-568 | Branches and jumps set PC modulo 64K, taken or not. |
| `Processors.Processor.Routine` | src/emulation.c:68-1197 | The routine the table names has exactly the effect the reference interpreter gives the instruction, for all 256 opcodes. |
| `Processors.Processor.Exec1` | src/rk65c02.c:534-571 | In-place execution of one instruction, interrupt entry first when due, is one step of the reference interpreter. |
| `Simulation.SwitchAgrees` | src/jit.c:1015-2012 | For each of the 256 opcodes the template the emitter picks is the routine and mode of the table row, or the fallback. |
| `Simulation.EmittedAddIsAdc` | src/jit.c:1256-1312 | The emitted addition with its mask tests is ADC on all operands. |
| `Simulation.EmittedSubtractIsSbc` | src/jit.c:1393-1450 | Adding the complement is SBC. |
| `Simulation.CompareAgrees` | src/jit.c:1315-1391 | The emitted compare sets C, Z and N as the interpreter does. |
| `Simulation.BitAgrees` | src/jit.c:1661-1690 | One read and three flag updates are the interpreter's two reads. |
| `Simulation.ShiftAgrees` | src/jit.c:1487-1659 | Emitted shifts and rotates agree, carry included. |
| `Simulation.PhpAgrees` | src/jit.c:1785-1806 | The byte PHP pushes is the interpreter's. |
| `Simulation.AddressAgrees` | src/jit.c:908-984 | The unmasked emitted address, truncated by the callee, is the interpreter's effective address. |
| `Simulation.OperandAgrees` | src/jit.c:992-999 | The operand the emitted code loads is the one the interpreter reads, in every mode. |
| `Simulation.NativeIsInterpreted` | src/jit.c:1008-2039 | For every machine state and every natively compiled instruction, the emitted code gives the registers, flags, stores in order and PC that the interpreter gives. |
| `Blocks.BuildBlockInsns` | src/jit.c:236-301 | The built list is a decode of memory, of at most 64 instructions, on one page, nothing after an instruction that ends a block, and it stops only for one of these reasons. |
| `Blocks.EndsBlockIff` | src/jit.c:266-295 | A block ends after BBR, BBS, BRA, JMP, JSR, RTS, BRK, RTI, STP and WAI and after no other routine of the table. |
| `Blocks.BuiltEnds` | src/jit.c:236-301 | A built list has at most 64 instructions on one page and stops only at 64, after an instruction that ends it, or before one that does not fit; it is empty exactly when the first instruction crosses the page. |
| `Blocks.FreshBuildExtends` | src/jit.c:246-298 | A block equal to memory is a prefix of what the builder would produce now. |
| `Blocks.SpanExact` | src/jit.c:529-543 | The wrapping span test holds exactly for the bytes of the block; the full-64K case is unreachable and wrap means end 0 on page $FF. |
| `Blocks.PageConfined` | src/jit.c:577-593 | A block overlaps a page if and only if the page is its entry page. |
| `Blocks.TouchesIsAlias` | src/jit.c:736-741 | A store reaches a physical byte of a block if and only if its address aliases a byte the block covers. |
| `Blocks.FetchFrame` | src/instruction.c:77-111 | A fetch depends on the bytes of the instruction only. |
| `Blocks.UntouchedMatches` | src/jit.c:720-743 | Stores that touch no byte of a block, through any alias, leave it equal to memory. |
| `Blocks.SamePageMatches` | src/rk65c02.c:824-834 | A remap of other pages leaves a block equal to memory. |
| `Blocks.PhysMatchExact` | src/jit.c:661-698 | The physical match finds a block holding the byte if and only if its physical span ends below $FFFF; the counters always count it. |
| `Blocks.DiscardsTouched` | src/jit.c:661-698 | An event discards every block it touched when physical page $FF is not aliased, and always below it. |
| `Blocks.DiscardsOnlyTouched` | src/jit.c:546-574 | An event never discards a block it did not touch. |
| `Cache.BumpSpan` | src/jit.c:408-440 | The walk updates exactly the counters of the span and reports exactly the pages it overlaps. |
| `Cache.CountZero` | src/jit.c:729-743 | A counter is zero if and only if a full scan finds no block for it. |
| `Cache.EventIffTracked` | src/jit.c:729-743 | A store is an event by the counters if and only if some live block holds the byte it reaches, through any alias. |
| `Cache.EndOf` | src/jit.c:2083-2086 | The 16-bit running sum is the end address of the block. |
| `Cache.ComputeTag` | src/jit.c:2088-2120 | A page-confined block has no tag without an MMU mapping and is always tagged byte-precisely with one, inside 64K; the coarser page tag never arises. |
| `Cache.NewBlockOk` | src/jit.c:2088-2120 | A built list makes a block that fits the table and carries the tag of the map. |
| `Cache.CodeCache.constructor` | src/jit.c:306-346 | A new cache is exact and empty. |
| `Cache.CodeCache.RefsUpdate` | src/jit.c:398-476 | Every counter moves by one exactly for the blocks it counts; the clamp and the 16-bit cast change nothing when the counters are in range. |
| `Cache.CodeCache.CountersInRange` | src/jit.c:398-476 | The counters of a live block lie between 1 and 1024, so neither clamp nor wrap happens. |
| `Cache.CodeCache.Release` | src/jit.c:558-572 | Discarding one block keeps the counters exact. |
| `Cache.CodeCache.Install` | src/jit.c:2166-2171 | Adding one block keeps the counters exact and the table at most 1024. |
| `Cache.CodeCache.InvalidateWhere` | src/jit.c:546-574 | Exactly the blocks selected by address, page, code page or physical byte are discarded; counters stay exact. |
| `Cache.CodeCache.InvalidateCodePage` | src/jit.c:629-658 | The early exit on the code-page counter changes nothing. |
| `Cache.CodeCache.RequestFlush` | src/jit.c:2245-2252 | In a running block a flush is requested and use_jit is cleared; no block goes. |
| `Cache.CodeCache.Compile` | src/jit.c:2043-2181 | A compiled block is a fresh build of memory at PC; compilation fails exactly when the first instruction crosses the page, and then changes nothing. |
| `Cache.CodeCache.ProcessEvent` | src/jit.c:2308-2322 | One event discards what it hit, counts against its page and demotes the page at the threshold. |
| `Cache.DemotedAtFour` | src/jit.c:2308-2322 | Through any run of events, a page is demoted exactly when its count reaches four, its blocks are then gone, and it stays demoted; each event counts once against the run. |
| `Cache.CodeCache.Probe` | src/jit.c:720-743 | The counter tests decide as a full scan does, and record the physical address when there was a physical hit. |
| `Cache.CodeCache.NoteGuestWrite` | src/jit.c:720-779 | Outside a block an event is processed at once; inside it clears use_jit and is recorded in a slot, or flagged as overflow, and the table is untouched. |
| `Cache.CodeCache.ProcessPending` | src/jit.c:2297-2327 | All recorded events are processed in order; after an overflow no block is left; the result tells whether the event budget of the run is spent. |
| `Cache.CodeCache.StartRun` | src/jit.c:479-493 | A new run forgets demotions and event counts and keeps the blocks. |
| `Cache.CodeCache.Flush` | src/jit.c:349-385 | A flush leaves an exact empty cache with nothing pending. |
| `Coherence.SurvivorUntouched` | src/jit.c:546-574 | Under every page map, a block that survives an event was not touched by its store, unless its physical span ends at $FFFF and page $FF is aliased. |
| `Coherence.ProcessOneSettles` | src/jit.c:2308-2322 | After one event, what is still stale, such blocks aside, was touched by a later event. |
| `Coherence.ProcessAllSettles` | src/jit.c:2297-2327 | After all recorded events every live block whose physical span ends below $FFFF equals memory, under every page map; all others do while page $FF has one virtual page. |
| `Coherence.StoresLeaveStaleOnlyAt` | src/jit.c:720-779 | If every tracked store is recorded, a block that differs from memory was touched by a recorded event. |
| `BlockRun.RunInsnIsExec` | src/jit.c:2014-2038 | One emitted instruction, native or fallback, is one interpreter step when no interrupt is due. |
| `BlockRun.FindTarget` | src/jit.c:1868-1876 | The label search returns the first instruction of the block at the branch target, if any. |
| `BlockRun.AfterBounds` | src/jit.c:881-899 | Control moves forward or takes a back-edge that costs budget; a back-edge stays in the block exactly when budget is left, no stop was requested and the interrupt line is down. |
| `BlockRun.StraightOn` | src/jit.c:2014-2038 | While use_jit stays set, control goes on to the next instruction after everything but a conditional branch and a fallback that set PC or stopped. |
| `BlockRun.GotoPc` | src/jit.c:1909-1923 | Control stays in a block only at the instruction PC is at. |
| `BlockRun.GotoSafe` | src/jit.c:1909-1923 | It stays only while the processor runs, and interrupts kept out by the line, or by I in a block without CLI and PLP, stay out. |
| `BlockRun.StoresLeave` | src/jit.c:1183-1218 | Every emitted instruction that stores checks for the bail-out, so a block never goes on after a store into code. |
| `BlockRun.SafeStep` | src/jit.c:1008-2039 | In a block equal to memory, with no interrupt due, each emitted instruction is one interpreter step and control follows the interpreter. |
| `BlockRun.LateDrops` | src/rk65c02.c:527-543 | An interpreter run in which an interrupt fell due began with the line up and ends with it down. |
| `BlockRun.ExactlyNotDue` | src/jit.c:1035-1040 | A machine that keeps the line, as native code does, is at the interpreter state exactly when no interrupt fell due. |
| `Emulators.Emulator.constructor` | src/jit.c:2184-2197 | A new emulator with the JIT enabled is at a dispatch point. |
| `Emulators.Emulator.NoteInRun` | src/jit.c:746-765 | In a running block use_jit stays set if and only if no store is an event; every event is recorded unless the slots overflow. |
| `Emulators.Emulator.NoteInterpreted` | src/jit.c:767-779 | After an interpreted instruction every live block equals memory again. |
| `Emulators.Emulator.ExecOne` | src/rk65c02.c:866-879 | One interpreted instruction is one step of the reference interpreter and keeps the cache coherent. |
| `Emulators.Emulator.StepBlock` | src/jit.c:704-709 | One emitted instruction with its stores noted; a store into code disables the JIT and leaves the block. |
| `Emulators.Emulator.RemapInRun` | src/rk65c02.c:760-839 | A begin/mark/end bracket inside a running block leaves the blocks alone, requests a full flush, clears use_jit and drops the marked TLB entries. |
| `Emulators.Emulator.StepRemap` | src/rk65c02.c:866-879 | An emitted instruction whose store makes the host remap: its own effect, then the new page map, then its stores noted. |
| `Emulators.Emulator.RunUntil` | src/jit.c:2472-2475 | The loop of a dispatch follows the interpreter, instruction by instruction, within the loop budget. |
| `Emulators.Emulator.Finish` | src/jit.c:2245-2252 | The block returns after the very instruction whose store made the host remap, with a flush requested. |
| `Emulators.Emulator.RunBlock` | src/jit.c:2472-2475 | A dispatch is n interpreter steps, all taken while running, followed by the remap if a store made one: if no interrupt fell due, and for native code only if. n is 1 to 64*256, at most 64 after a stop request, and at most 64 with the interrupt line up (at the end, or at entry of native code); straight-line native code retires whole unless a store cleared use_jit; only the last instruction may store into code, at most three events are recorded, and the slots do not overflow. |
| `Emulators.PaceStep` | src/jit.c:872-890 | Each instruction of a dispatch keeps its pace: with the line up control has only moved forward. |
| `Emulators.Emulator.SettleEvents` | src/jit.c:2476-2484 | Processing the pending events leaves every block whose stores are caught equal to memory, or no block after an overflow. |
| `Emulators.Emulator.Settle` | src/jit.c:2476-2490 | After the pending work of a block the cache is coherent; after an overflow or a requested flush it is empty; use_jit is restored unless the run was disabled, which happens exactly when processed events reach 128. |
| `Emulators.Emulator.Lookup` | src/jit.c:2437-2466 | Finding or compiling the block at PC, with the flush at 1024 blocks, keeps the cache exact and coherent, and the tag check that follows succeeds; a block is missing only when the first instruction crosses the page, and below 1024 blocks no other block goes. |
| `Emulators.Emulator.Dispatch` | src/jit.c:2468-2490 | A dispatch with its settlement moves the machine as RunBlock says and ends at a dispatch point; after a remap by a store no block is left before the next dispatch. |
| `Emulators.TagStillMatches` | src/jit.c:2457-2466 | The dispatcher's check of the physical tag cannot fail at a dispatch point. |
| `Mmu.UniformIffTransparent` | src/rk65c02.c:79-133 | The TLB is invisible on a page, for every pair of accesses, if and only if nothing on it is cached or a base and a set of rights describe it: granted accesses map to base plus offset, others are refused with $FFFE, cached answers carry the rights. |
| `Mmu.SamePageUniform` | src/rk65c02.c:105-131 | A page the host answers alike for every address and access (mapped, read-only, unmapped or out of range) is uniform. |
| `Mmu.FaultCodeLost` | src/rk65c02.c:91-99 | A host that refuses writes with its own fault code loses that code once a read is cached. |
| `Mmu.PermitsByBits` | src/rk65c02.h:70-72 | Read, write and fetch need the bits 1, 2 and 4; higher bits do not matter. |
| `Mmu.LookupAnswers` | src/rk65c02.c:79-133 | Hit or miss, an access with the right gets its address, one without it $FFFE, an address from 16M up $FFFF, no callback $FFFD. |
| `Mmu.MarksIff` | src/rk65c02.c:772-806 | A mark covers exactly the pages that hold one of the reported addresses. |
| `Mmu.Mmu.TranslateAddr` | src/rk65c02.c:79-133 | Hit or miss, the physical address or fault code is the callback's own, granted or refused by the permission bits; a fill is right for the whole page. |
| `Mmu.Mmu.FlushTlb` | src/rk65c02.c:280-284 | No entry is valid afterwards. |
| `Mmu.Mmu.FlushPage` | src/rk65c02.c:287-291 | The entry of the page is invalid, others keep. |
| `Mmu.Mmu.SetTlb` | src/rk65c02.c:294-300 | Switching off flushes; switching on keeps entries that agree. |
| `Mmu.Mmu.Configure` | src/rk65c02.c:710-737 | An enabled MMU needs a callback; a new configuration has an empty TLB and an empty code cache, or inside a block a requested flush and use_jit cleared. |
| `Mmu.Mmu.Install` | src/rk65c02.c:740-757 | Clearing the MMU empties the TLB and forgets marks; nothing is said about the code cache. |
| `Mmu.Mmu.JitFlush` | src/jit.c:2200-2210 | Outside a block everything goes; inside a flush is requested and use_jit is cleared. |
| `Mmu.Mmu.BeginUpdate` | src/rk65c02.c:760-769 | A new bracket forgets marks made before it. |
| `Mmu.Mmu.MarkChanged` | src/rk65c02.c:772-806 | A mark adds exactly the pages that hold an address of the page or range, all pages when the range wraps. |
| `Mmu.Mmu.EndUpdate` | src/rk65c02.c:809-839 | Exactly the TLB entries and live blocks of marked pages go; inside a block a full flush is requested and use_jit cleared instead. |
| `Mmu.Mmu.DropTlb` | src/rk65c02.c:819-829 | Marked entries go, others stay, and every valid entry carries the current epoch, through the wrap of the epoch. |
| `Mmu.Mmu.DropCode` | src/jit.c:2255-2288 | The code-cache half of the update. |
| `Mmu.Mmu.Update` | src/rk65c02.c:760-839 | A whole bracket around a host remap leaves only entries and blocks that agree with the new mapping: none for a reported address, all of the pages that hold none. |
| `Mmu.Mmu.UpdateRange` | src/rk65c02.c:784-839 | After a bracket that marks a range, no TLB entry translates and no live block covers an address of it; entries and blocks of pages outside it are unchanged; a range that wraps is all of memory. |
| `Mmu.Mmu.Replay` | src/rk65c02.c:79-133 | Through any history of accesses, TLB switches, flushes and bracketed remaps every answer is the one a machine without a TLB gives. |
| `Dispatcher.RemapCoherent` | src/rk65c02.c:809-839 | Blocks that survive a marked remap equal memory under the new page map. |
| `Dispatcher.RunStatus` | src/rk65c02.c:424-426 | From the initial status register, bit 5 is set and B clear after every interpreter run with any host events. |
| `Dispatcher.WaitWakes` | src/rk65c02.c:477-494 | In any run, WAI followed by a raised line leaves a running machine just after the WAI, with the interrupt due exactly if I is clear. |
| `Dispatcher.StopStays` | src/rk65c02.c:477-502 | After STP the machine stays stopped however often the line moves. |
| `Dispatcher.LateBy` | src/jit.c:872-890 | In the log of any run, a native dispatch in which an interrupt fell due ended less than 64 instructions later. |
| `Dispatcher.PlainSafe` | src/jit.c:2425-2428 | With the line low at the start, never raised, and physical page $FF never aliased, every dispatch of a run is safe. |
| `Dispatcher.System.constructor` | src/rk65c02.c:417-474 | A new system is at a dispatch point, under any page map. |
| `Dispatcher.System.Translate` | src/rk65c02.c:216-242 | At every dispatch point a guest access through the TLB reaches the byte the page map names. |
| `Dispatcher.System.HostActs` | src/rk65c02.c:477-502 | A host event stops the machine, moves the interrupt line or remaps, and changes nothing else; a raised line wakes a machine asleep in WAI and no other stopped one. |
| `Dispatcher.System.Poll` | src/rk65c02.c:310-358 | A poll takes a stop request always and any other event only while the machine runs or steps; the event is logged. |
| `Dispatcher.System.WaitOnIdle` | src/rk65c02.c:361-373 | A machine asleep in WAI waits for the host if waiting is enabled, and runs again when the host raises the line; no other machine waits. |
| `Dispatcher.System.Remap` | src/rk65c02.c:760-839 | A marked remap changes the page map and nothing else the guest sees, and keeps cache and TLB coherent. |
| `Dispatcher.System.Interpret` | src/jit.c:2425-2435 | An interpreted turn adds exactly one step to the logged run. |
| `Dispatcher.System.Enter` | src/jit.c:2468-2490 | A native turn adds at least one step, all of them while running, and the remap its last store made. |
| `Dispatcher.System.Turn` | src/jit.c:2424-2490 | A turn adds at least one step and at most one host event; it is native exactly when no interrupt is due, the page is not demoted and a block exists or fits, and one interpreted step otherwise. |
| `Dispatcher.System.RunInterpreted` | src/jit.c:2405-2423 | The interpreter loop steps only a running machine, makes progress, and stops only when the machine does or the script ends. |
| `Dispatcher.System.RunJit` | src/jit.c:2387-2498 | So does the JIT loop, which follows an interpreter run with the same host events. |
| `Dispatcher.System.Begin` | src/rk65c02.c:583-592 | Entering a run sets the run state and use_jit, keeps the blocks, and for a JIT run clears the event counts and demotions. |
| `Dispatcher.System.Start` | src/rk65c02.c:574-615 | A whole run of either engine ends in the state of an interpreter run with the same host events in the same order, stepping only while running, with at most four host calls per step and three more, until the machine stops or the script ends; or a logged dispatch was really unsafe, which none is with a plain host. The status invariant holds unconditionally. |
| `Dispatcher.System.Step` | src/rk65c02.c:618-646 | Stepping executes exactly the given number of instructions while stepping unless something stops it, then ends STEPPED; the cache stays coherent. |
| `Limits.NativeIffNotDue` | src/jit.c:1035-1040 | A natively compiled instruction is an interpreter step if and only if no interrupt is due before it. |
| `Limits.LateInterrupt` | src/jit.c:1035-1040 | A family of failures: every block that starts with CLI and goes on natively is late when entered with the line high and I set. |
| `Limits.EventsSufficeIff` | src/jit.c:675-684 | Events discard every block they touch if and only if physical page $FF has at most one virtual page. |
| `Limits.RebuildIff` | src/jit.c:246-298 | A live block equals a fresh build if and only if the builder would stop where the block stops. |
| `Limits.RebuildDiffers` | src/jit.c:246-264 | A concrete block for which it would not, after a store that does not touch it. |
| `Stack.Lifo` | src/instruction.c:349-365 | Any run of pushes and pops within 256 bytes pops what an ideal stack pops, across the wrap of SP. |
| `Stack.BalancedRestoresSp` | src/instruction.c:349-365 | A balanced run restores SP. |
| `Stack.PushesAreStackPushes` | src/rk65c02.c:508-511 | The stores of interrupt entry and JSR are stack pushes in order. |
| `Stack.StepSp` | src/instruction.c:349-365 | Every instruction but TXS moves SP by what it pushes and pops. |
| `Stack.LiveKept` | src/instruction.c:349-365 | In a run whose pushes have room, the bytes above its start survive, whatever it calls, whatever interrupts it and wherever TXS moves SP in between. |
| `Stack.NestedIsBalanced` | src/instruction.c:349-365 | Nested pushes, pops, calls, returns and interrupts are such a run and restore SP. |
| `Stack.CallReturns` | src/emulation.c:572-586 | After a balanced run RTS lands just after its JSR with SP restored. |
| `Stack.EntryReturns` | src/emulation.c:722-732 | After interrupt entry and a balanced handler RTI restores SP, the pushed PC and N, V, D, I, Z, C. |
| `Stack.IrqReturns` | src/rk65c02.c:542-543 | A hardware interrupt returns to the interrupted instruction. |
| `Stack.BreakReturns` | src/emulation.c:352-358 | BRK returns two bytes after itself. |
| `Status.ExecStatus` | src/rk65c02.c:534-571 | An interpreter step keeps bit 5 set and B clear. |
| `Status.NativeStatus` | src/jit.c:1785-1840 | So does every emitted instruction, interrupts or not. |
| `Status.PushedStatus` | src/emulation.c:666-669 | A hardware interrupt pushes B clear; BRK and PHP push B set. |
| `Bus.Ram.constructor` | src/device_ram.c:57-75 | A RAM device starts zeroed. |
| `Bus.Ram.Write1` | src/device_ram.c:45-54 | A write changes the byte at the offset only. |
| `Bus.AccessDevice` | src/bus.c:102-125 | The walk over all mappings finds the last one that answers. |
| `Bus.AccessDevicePhys` | src/bus.c:128-145 | The walk from 64K up finds the first, with the range end computed in 32 bits. |
| `Bus.AddressBus.CellsDistinct` | src/bus.c:102-145 | With no device mapped twice, two addresses never share a device byte. |
| `Bus.AddressBus.Read1Phys` | src/bus.c:148-165 | A read is the byte of the flat map, $FF where nothing answers, and below 64K the load of the processor model. |
| `Bus.AddressBus.Write1Phys` | src/bus.c:168-188 | A write changes exactly the addresses that reach its device byte: one if no device is mapped twice, none where nothing answers. |
| `Bus.AddressBus.Write1` | src/bus.c:212-233 | Below 64K a write is the store of the processor model. |
| `Bus.AddressBus.DeviceAdd` | src/bus.c:43-63 | A device hides what it overlaps; one that does not fit is refused. |
| `Bus.AddressBus.DeviceAddPhys` | src/bus.c:66-81 | A device answers only from 64K up and only where no earlier one does. |
| `Bus.AddressBus.LoadBuf` | src/bus.c:260-279 | A buffer is stored byte by byte, or not at all when it would pass 64K. |
| `Assembler.ParseMnemonic` | src/65c02isa.csv:2-257 | Mnemonics name routines uniquely. |
| `Assembler.TableEncodes` | src/65c02isa.csv:2-257 | Every valid row sits at the opcode the layout of the opcode matrix gives its routine and mode. |
| `Assembler.OpcodeByMnemonic` | src/instruction.c:389-401 | The search returns the first row with the mnemonic and mode, or nothing when there is none. |
| `Assembler.NamedOnce` | src/instruction.c:389-401 | For every valid opcode the search by its own mnemonic and mode returns it. |
| `Assembler.AssembleSingleBuf` | src/assembler.c:78-110 | The buffer is the opcode and as many operands as the size allows. |
| `Assembler.Program.AssembleSingle` | src/assembler.c:54-68 | The bytes are loaded at PC if they fit; PC moves on either way; an unknown mnemonic changes nothing. |
| `Assembler.Program.Assemble` | src/assembler.c:54-68 | Assembling a program that fits and decoding from its start returns its mnemonics, modes and operands. |
| `Assembler.DecodesProgram` | src/instruction.c:37-74 | Decoding memory that holds the code of a program returns the program, line by line. |
| `Assembler.Reassembles` | src/assembler.c:78-110 | What the decoder reads from any memory, the assembler writes back, opcode and operands. |

## Left out

- Emulators.Emulator.RunBlock: the only-if half of the interrupt condition is stated for blocks without a fallback instruction; a fallback can take the interrupt itself and leave control in the block, and then the end state may or may not coincide. The line is constant during a dispatch: hosts that move it from another thread or from a device callback are not modelled.
- Dispatcher.System.Start: after a dispatch that was unsafe, nothing is said about the machine but the status register.
- Emulators.Emulator.StepRemap: a remap by a store takes effect after the last store of the instruction; JSR and BRK, which store more than once, could see it earlier. A remap by an interpreted store is the remap of the poll after it.
- Dispatcher.System.HostActs: a remap needs the MMU on and must mark what it changes, as the source demands; on-stop callbacks and tick intervals are further polls.
- Mmu.Mmu.Configure: the identity fast path and its accessor pointers are not modelled.
- Mmu.Mmu.MarkChanged: dropping identity mode on a mark is not modelled.
- Mmu.Mmu.Install: clearing the MMU does not flush the code cache in the source, so the dispatcher theorems do not cover it.
- Mmu.Mmu.TranslateAddr: hit and miss counters and the fault callback are not modelled.
- Processors.Processor.DataWrite1: the panic on an immediate operand is not modelled; `Isa.Def` shows that no row reaches it.
- Processors.Processor.Exec1: breakpoints, tracing, run-time disassembly and MMU faults are not modelled; P is a record of eight flags, packed when it is pushed.
- Bus.AddressBus.LoadBuf: stated for buses on which no device is mapped twice; device callbacks and `bus_load_file` are not modelled.
- Assembler.Program.Assemble: rows named "invalid" share mnemonic and mode, so only the first of each group can be assembled; they still decode to what was written.
- Physical memory from 64K up under the JIT, context-dependent `no_fill_tlb` mappings and precise restart after an MMU fault: code there is not tagged or tracked by the block cache, or the source promises less.
- Host writes that bypass the store hook (`bus_write_1` from the host) and remaps triggered from a load: outside the store-tracking contract of the source.
- Native code generation itself (GNU Lightning, registers, `setjmp`): emitted code is a step function over decoded instructions.
- JIT statistics and debug counters: not visible to the guest.
- Trace list, breakpoints, disassembly text, logging and file loading: output and file access, which the model has no state for.
- Code and documentation disagree in one place: the comment of `rk65c02_irq` says the status is pushed with the break flag set, the code pushes P as it is; the model follows the code.
