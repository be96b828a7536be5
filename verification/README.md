# Verified model of the emulator core

This project models the deterministic heart of a multi-system console emulator in Dafny and proves what its
parts promise. `dafny verify dfyconfig.toml` checks all of it.

Code that updates fields in place is a class here with the same fields, and each of its methods is proved
against a function of the old state; what the source promises is then proved about those functions, over all
inputs, runs and interleavings. Value code is functions. What a class and its function share, fields, conditions,
vectors, flags and tables, is stated once more without their names: in numbers, digit by digit, or as the inverse
of an assembler.

| files | what they model |
|---|---|
| `scheduler.dfy`, `scheduler_runs.dfy` | the event scheduler: a binary heap keyed by timestamp and insertion, its operations, runs of them, save states |
| `mock_system.dfy` | the canonical frame loop on top of it, with the toy CPU and bus it runs |
| `frame_pipe.dfy` | the two-thread frame pipe as interleaved channel operations |
| `resampler.dfy` | the streaming linear resampler |
| `arm_shift.dfy`, `arm_psr.dfy`, `arm_registers.dfy`, `arm_memory.dfy`, `arm_core.dfy` | the ARM7TDMI's shifter, status registers, banks, bus and single operations |
| `arm_block.dfy`, `arm_exceptions.dfy`, `arm_thumb.dfy`, `arm_transfer.dfy` | block transfers, exception nesting, THUMB operations, single transfers |
| `arm_machine.dfy`, `arm_confinement.dfy`, `arm7tdmi.dfy` | whole instructions and steps of both instruction sets, what User code can reach, and the core itself |
| `arm_meaning.dfy`, `arm_encoding.dfy` | what the instructions come to in numbers, and that decoding undoes assembling |
| `sm83_timing.dfy`, `sm83_alu.dfy`, `sm83_machine.dfy`, `sm83.dfy`, `sm83_programs.dfy` | the SM83's cycle tables, decimal arithmetic, instructions, the core with its bus accounting, and short programs |
| `sm83_meaning.dfy` | what SM83 instructions come to in numbers |
| `flash.dfy`, `eeprom.dfy` | the two serial save chips |
| `mbc3_rtc.dfy`, `gba_rtc.dfy` | the two cartridge clocks |
| `tcm.dfy` | the ARM946E-S's tightly coupled memories spliced over a bus |
| `apu_units.dfy`, `apu_channels.dfy`, `apu_noise.dfy`, `apu_noise_period.dfy` | envelope, length and sweep units, the square channel, the noise channel and its sequences |
| `words.dfy`, `arith.dfy`, `digits.dfy` | fixed-width words, arithmetic, positional digits |

Words are integers with their width in their type; every wrap-around and truncation of registers, addresses and
counters that the source relies on is written out. Instruction words are bit vectors.

Where the code and its own comments differ, the model follows the code, and a lemma says so:

- STOP uses the bus for eight cycles and is charged four (`Sm83Timing.CostCoversAccesses`); the step therefore
  tells the bus of four cycles it does not return.
- The Flash erase unlock ends in the idle state, so that an erase needs no unlock (`FlashChip.StrayEraseNeedsNoUnlock`,
  with the exact condition in `FlashChip.ErasesExactlyWhenIdle`).
- The EEPROM commits on the 64th payload bit and counts a terminating bit towards the next command, so that it is idle
  after a write exactly if none is sent (`EepromChip.IdleUnlessTerminated`). The exchange after a terminated write is
  answered right, stored right and ends in idle only if it is a read after a one that hits a block of the same contents
  (`EepromChip.ServedAfterTerminatorWhen`); what it does instead is `ZeroSwallowsCommand`, `OneShiftsCommand`,
  `WriteAfterZero` and `WriteAfterOne`. Commands are therefore framed without a terminating bit in `SessionRefinesStore`.
- The frame pipe's comment bounds its return channel by the depth plus the initial spares; the true bound is depth + 3,
  and the two agree only from depth 2 up (`FramePipe.DocumentedBoundNeedsDepthTwo`).
- `MSR` can store a mode field that names no mode (`ArmMachine.MsrStoresNoMode`, with the exact condition in
  `ArmMachine.StatusNamesModeWhen`).
- The decode order of ARM instructions matters only to data processing (`ArmMachine.DecodeOrderIsFree`).
- The GBA clock accepts dates that do not exist (`GbaClock.ImpossibleDate`, exactly when in `GbaClock.SetIsValidWhen`,
  and repaired by `GbaClock.RepairedWithinADay`).
- A TCM size field above 22 maps nothing and does not read back (`TightlyCoupled.SizeRegisterReadsBack`).
- Switching the noise channel to short mode can freeze its output for good (`NoiseSound.SwitchingCanLock`, exactly when in
  `NoiseSound.ShortModeLocksWhen`).

## Model

| member | source | states |
|---|---|---|
| `Scheduling.RootIsSoonest` | crates/core-common/src/scheduler.rs:84-100 | in any heap whose parents are never later than their children, nothing is sooner than the root, by timestamp and then by insertion |
| `Scheduling.OrderIsUnique` | crates/core-common/src/scheduler.rs:84-100 | one set of entries has one firing order: two ordered sequences with the same entries are equal |
| `Scheduling.Scheduler.PendingFacts` | crates/core-common/src/scheduler.rs:104-107 | the pending sequence holds exactly the entries of the heap, ordered, with distinct sequence numbers below the next one, and starts with the root of the heap |
| `Scheduling.Scheduler.Push` | crates/core-common/src/scheduler.rs:135-140 | sifting up restores the heap order and adds exactly the new entry |
| `Scheduling.Scheduler.PopRoot` | crates/core-common/src/scheduler.rs:195-203 | removing the root and sifting down restores the heap order and removes exactly the root |
| `Scheduling.Scheduler.Rebuild` | crates/core-common/src/scheduler.rs:148-162 | the heap rebuilt after a retain holds exactly the entries kept |
| `Scheduling.Scheduler.Schedule` | crates/core-common/src/scheduler.rs:135-140 | the new event lands at its place in the sorted pending sequence, after every equal timestamp already there; the handle is the sequence number, and it is used up |
| `Scheduling.Scheduler.Cancel` | crates/core-common/src/scheduler.rs:148-152 | removes the entry with that handle and no other, and says whether there was one |
| `Scheduling.Scheduler.CancelMatching` | crates/core-common/src/scheduler.rs:158-162 | keeps exactly the entries whose event does not match, in order, and counts the others |
| `Scheduling.Scheduler.NextEventTime` | crates/core-common/src/scheduler.rs:165-167 | the timestamp of the first pending entry, if any |
| `Scheduling.Scheduler.CyclesUntilNext` | crates/core-common/src/scheduler.rs:177-179 | exactly the distance from now to the next event, zero when it is overdue, nothing when there is none |
| `Scheduling.Scheduler.PopDue` | crates/core-common/src/scheduler.rs:195-203 | takes the first pending entry exactly if it is due, and otherwise changes nothing |
| `Scheduling.Scheduler.Clear` | crates/core-common/src/scheduler.rs:214-216 | nothing is pending afterwards, and sequence numbers are not reused |
| `SchedulerRuns.Perform` | crates/core-common/src/scheduler.rs:115-224 | each operation of the class does to the heap what it does to the sorted sequence |
| `SchedulerRuns.PerformAll` | crates/core-common/src/scheduler.rs:115-224 | so does any sequence of operations |
| `SchedulerRuns.RunsStaySound` | crates/core-common/src/scheduler.rs:115-224 | over any run the pending entries stay sorted with distinct sequence numbers below the next, which never goes back |
| `SchedulerRuns.TiesFireInSchedulingOrder` | crates/core-common/src/scheduler.rs:84-100 | after any run from an empty scheduler, events with equal timestamps fire in the order they were scheduled |
| `SchedulerRuns.StaleHandleCancelsNothing` | crates/core-common/src/scheduler.rs:20-62 | a handle that is no longer pending cancels nothing after any further operations |
| `SchedulerRuns.Save` | crates/core-common/src/scheduler.rs:228-242 | the bytes depend on the pending sequence and the next sequence number only, not on the layout of the heap |
| `SchedulerRuns.Load` | crates/core-common/src/scheduler.rs:244-263 | succeeds exactly on bytes that decode, consumes exactly them, and leaves a heap of exactly the decoded entries |
| `SchedulerRuns.RoundTrip` | crates/core-common/src/scheduler.rs:228-263 | decoding what was encoded gives back the contents and the bytes after them, for any faithful event codec |
| `SchedulerRuns.SaveThenLoad` | crates/core-common/src/scheduler.rs:228-263 | loading a saved scheduler gives the same pending sequence and the same next sequence number |
| `MockSystems.MockCodecIsFaithful` | crates/core-common/src/mock_system.rs:49-69 | the event encoding decodes to the event and leaves the rest of the input |
| `MockSystems.MockBus.Read8` | crates/core-common/src/mock_system.rs:113-129 | registers answer before memory, the input register first; an unmapped address answers the last value seen, and every read is remembered as that |
| `MockSystems.MockBus.Write8` | crates/core-common/src/mock_system.rs:131-141 | only the addressed byte changes, and only a write into save memory marks it dirty |
| `MockSystems.StoredBytesAreApart` | crates/core-common/src/mock_system.rs:113-141 | each address of the memory map, in numbers, is a byte of its own that reads as last written; the input register reads as the input, every other address as the last value seen, and only save memory is marked dirty |
| `MockSystems.TinyStepped` | crates/core-common/src/mock_system.rs:216-254 | every instruction, and a halted core, costs 4, 8, 12 or 16 cycles, and none changes the input |
| `MockSystems.TinyCpu.Step` | crates/core-common/src/mock_system.rs:216-254 | the core does exactly what its eight encodings say to its registers and the bus |
| `MockSystems.ShapeAfter` | crates/core-common/src/mock_system.rs:342-365 | after the head of the queue is popped and rescheduled from its own timestamp, every event is again at the next multiple of its period |
| `MockSystems.MockSystem.constructor` | crates/core-common/src/mock_system.rs:313-327 | a new system is on schedule: the first scanline at 100, the first audio tick at 50 |
| `MockSystems.MockSystem.Reset` | crates/core-common/src/mock_system.rs:381-390 | reset puts the system back on schedule at cycle 0 |
| `MockSystems.MockSystem.LoadCartridge` | crates/core-common/src/mock_system.rs:452-471 | accepts exactly the sizes 4 to 0x1000, then holds the program at address 0 and starts over; otherwise nothing changes |
| `MockSystems.MockSystem.Handle` | crates/core-common/src/mock_system.rs:342-365 | each event is rescheduled from its own timestamp; a scanline draws its row only, an audio tick adds one sample only |
| `MockSystems.MockSystem.Drain` | crates/core-common/src/mock_system.rs:425-429 | the drain loop terminates with nothing overdue, and reports the end of the frame exactly when it was due |
| `MockSystems.MockSystem.TakeAudioSamples` | crates/core-common/src/mock_system.rs:477-481 | hands out each accumulated sample once |
| `MockSystems.MockSystem.StepInstruction` | crates/core-common/src/mock_system.rs:398-406 | everything due is handled first, then exactly one instruction runs |
| `MockSystems.MockSystem.RunUntil` | crates/core-common/src/mock_system.rs:440-443 | the slice is overshot by less than one instruction |
| `MockSystems.MockSystem.StepFrame` | crates/core-common/src/mock_system.rs:412-450 | terminates 800 to 815 cycles later; every event handled so far was fewer than 16 cycles late, the n-th audio tick was stamped 50n and the n-th scanline 100n, exactly floor(now/50) and floor(now/100) have fired, and every tick left one sample |
| `MockSystems.RunCommands` | crates/core-common/src/mock_system.rs:368-492 | the same after any run of frames, single steps, cartridge loads and audio reads |
| `FramePipe.StepKeepsInvariant` | crates/frontend-core/src/frame.rs:77-183 | every atomic step of either thread keeps conservation, the bound, the pictures and their order |
| `FramePipe.ExecutionInvariant` | crates/frontend-core/src/frame.rs:54-183 | so every state of every interleaving has them |
| `FramePipe.PipeIsSafe` | crates/frontend-core/src/frame.rs:54-183 | under every interleaving each buffer is in exactly one place, at most depth + 3 are alive, what was received is a prefix of what was accepted and that an in-order subsequence of what was published, and the frame on show has the pixels it arrived with |
| `FramePipe.NothingLeaks` | crates/frontend-core/src/frame.rs:54-183 | when both ends have been dropped, at any points of any interleaving, every buffer ever made has been freed exactly once |
| `FramePipe.DroppedEndsStayGone` | crates/frontend-core/src/frame.rs:54-183 | after its end is dropped nothing more is published or accepted, or taken |
| `FramePipe.PublishIsWaitFree` | crates/frontend-core/src/frame.rs:84-139 | whatever the other thread does, one publish ends within depth + 6 of its own steps |
| `FramePipe.BoundIsAttained` | crates/frontend-core/src/frame.rs:54-74 | the bound is exact: some interleaving leaves depth + 3 buffers in the return channel |
| `FramePipe.DocumentedBoundNeedsDepthTwo` | crates/frontend-core/src/frame.rs:57-60 | the bound the comment gives, depth plus the initial spares, holds for all reachable states exactly when depth is at least 2 |
| `FramePipe.Pipe.constructor` | crates/frontend-core/src/frame.rs:54-74 | a depth below one counts as one, and one spare more than the depth exists |
| `FramePipe.Pipe.CollectReturned` | crates/frontend-core/src/frame.rs:134-138 | draining the return channel is the publisher reaching the end of its collecting steps |
| `FramePipe.Pipe.Publish` | crates/frontend-core/src/frame.rs:88-119 | run alone it is the publisher's steps from start to rest, and it sends exactly when there is room |
| `FramePipe.Pipe.Poll` | crates/frontend-core/src/frame.rs:158-167 | run alone it is the subscriber's steps, and reports a frame exactly if one was queued |
| `FramePipe.Pipe.Clear` | crates/frontend-core/src/frame.rs:176-183 | run alone it is the subscriber's steps |
| `FramePipe.PollTakesTheNewest` | crates/frontend-core/src/frame.rs:158-167 | polling leaves the newest queued frame current, and returns the old one and every frame in between, in order |
| `FramePipe.ClearReleasesEverything` | crates/frontend-core/src/frame.rs:176-183 | clearing returns every queued frame and leaves none |
| `FramePipe.PublishReclaims` | crates/frontend-core/src/frame.rs:88-119 | publishing collects every returned buffer first, makes a new one only if there was none, and either queues exactly the given picture or counts one dropped |
| `FramePipe.SteadyStateNeverAllocates` | crates/frontend-core/src/frame.rs:13-27 | publishing and polling in turn never makes a new buffer nor drops a frame once two are free |
| `Resampling.Resampler.constructor` | crates/frontend-core/src/audio.rs:172-180 | starts empty, and takes a rate of zero as one |
| `Resampling.Resampler.SetTargetRate` | crates/frontend-core/src/audio.rs:182-184 | changes the rate only, zero counting as one |
| `Resampling.Resampler.Reset` | crates/frontend-core/src/audio.rs:253-257 | forgets position and carried sample |
| `Resampling.Resampler.Process` | crates/frontend-core/src/audio.rs:213-250 | the loop terminates, appends exactly the interpolated samples to the output and leaves exactly the position and sample to carry |
| `Resampling.InterpolatesLinearly` | crates/frontend-core/src/audio.rs:213-250 | an output sample is the two input samples weighted by nearness, in each channel |
| `Resampling.SplitInvariant` | crates/frontend-core/src/audio.rs:213-250 | processing a block and then another appends the same samples and leaves the same state as processing both at once, at any rates and from any state |
| `Resampling.BlocksDoNotMatter` | crates/frontend-core/src/audio.rs:213-250 | so does any split into blocks, empty ones included |
| `Resampling.StreamIsInterpolated` | crates/frontend-core/src/audio.rs:196-250 | from a fresh resampler output k is the linear interpolation of the input at k times source over target, and N inputs give exactly ceil((N-1) target / source) outputs |
| `Resampling.EqualRatesPassThrough` | crates/frontend-core/src/audio.rs:196-250 | at equal rates the samples come out unchanged, one behind |
| `ArmShift.ShiftIsRepeatedOneBit` | crates/cpu-arm7tdmi/src/arm.rs:161-220 | a shift by any non-zero amount, of any kind, is that many one-bit shifts with the last bit out as carry, 32, more than 32 and multiples of 32 included; a zero register amount changes nothing, and a zero immediate is a move, LSR #32, ASR #32 or RRX |
| `ArmPsr.PsrRoundTrip` | crates/cpu-arm7tdmi/src/psr.rs:91-140 | the status record and the 32-bit word carry the same information |
| `ArmPsr.ModeEncodingsRoundTrip` | crates/cpu-arm7tdmi/src/psr.rs:25-41 | each mode is found again from its encoding |
| `ArmPsr.AddChainAdds` | crates/cpu-arm7tdmi/src/arm.rs:223-234 | an ADDS then ADCS chain over n words gives the sum modulo 2 to the 32n, with C the carry out, for every n |
| `ArmPsr.SubChainSubtracts` | crates/cpu-arm7tdmi/src/arm.rs:238-249 | a SUBS then SBCS chain gives the difference modulo 2 to the 32n, with C clear exactly on borrow |
| `ArmPsr.ChainDecidesUnsigned` | crates/cpu-arm7tdmi/src/psr.rs:238-257 | after such a chain HS and LO decide the unsigned order of the whole numbers |
| `ArmPsr.ChainDecidesSigned` | crates/cpu-arm7tdmi/src/psr.rs:238-257 | and GE and LT their signed order |
| `ArmPsr.ConditionsAfterCompare` | crates/cpu-arm7tdmi/src/psr.rs:238-257 | after a comparison of two words each of the fourteen conditions but AL and NV holds exactly when its relation does: equality, the unsigned and signed orders, the sign of the 32-bit difference, and whether the signed difference fits in 32 bits |
| `ArmRegisters.BanksAreApart` | crates/cpu-arm7tdmi/src/registers.rs:63-122 | no two modes share R13, R14 or a saved status, but System, which shares User's registers and, like User, has no saved status |
| `ArmRegisters.BankingLaw` | crates/cpu-arm7tdmi/src/registers.rs:63-122 | a register written in one mode is read in another exactly if the two name the same storage, and no write disturbs a saved status |
| `ArmMachine.DecodeOrderIsFree` | crates/cpu-arm7tdmi/src/arm.rs:53-97 | every encoding but data processing is recognised by its own mask alone, whatever is asked before it; the order matters only to data processing, which takes the rest |
| `ArmMachine.StatusNamesModeWhen` | crates/cpu-arm7tdmi/src/arm.rs:350-399 | after MSR the mode field names a mode exactly if the value written does, when control bits are written, and otherwise if it did before |
| `ArmMachine.MsrStoresNoMode` | crates/cpu-arm7tdmi/src/arm.rs:350-399 | a privileged MSR can store a mode field that names no mode, unlike the comment on mode says |
| `ArmMachine.ReturnIsAnInstruction` | crates/cpu-arm7tdmi/src/arm.rs:251-335 | SUBS PC,LR,#4 and MOVS PC,LR decode to the return that unwinding uses |
| `ArmMachine.ThumbAbbreviatesArm` | crates/cpu-arm7tdmi/src/thumb.rs:37-98 | every THUMB instruction of formats 1 to 5, 7 to 15 and 17 that names no R15 and moves something does exactly what its ARM form does, to registers, status, memory and cycles, from any state; both decodings included |
| `ArmMeaning.ConditionTable` | crates/cpu-arm7tdmi/src/psr.rs:238-257 | all sixteen conditions of every status, as a truth table over the top four bits of the status word |
| `ArmMeaning.ConditionDecides` | crates/cpu-arm7tdmi/src/arm.rs:25-36 | in ARM state with nothing to interrupt it, a step runs the word at R15 exactly if its top four bits name a condition that the table passes: always for 0xE, never for 0xF; otherwise only R15 moves, in one cycle |
| `ArmMeaning.ExceptionsInNumbers` | crates/cpu-arm7tdmi/src/exception.rs:53-134 | reset, undefined, SWI, prefetch abort, data abort, IRQ and FIQ land at base plus 0, 4, 8, 0xC, 0x10, 0x18 and 0x1C in modes 0x13, 0x1B, 0x13, 0x17, 0x17, 0x12 and 0x11, with R14 0 or 4 past R15; reset and FIQ mask FIQ and the others leave F as it was |
| `ArmMeaning.WhatEnters` | crates/cpu-arm7tdmi/src/lib.rs:305-335 | an unmasked FIQ, else an unmasked IRQ, enters its exception; every SWI encoding and every encoding that neither instruction set defines enters its own |
| `ArmMeaning.MultiplyInNumbers` | crates/cpu-arm7tdmi/src/arm.rs:417-437 | MUL and MLA leave (Rm * Rs + Rn) mod 2^32 in Rd, N and Z are those of that number, and C and V stay |
| `ArmMeaning.MultiplyLongInNumbers` | crates/cpu-arm7tdmi/src/arm.rs:439-469 | UMULL, UMLAL, SMULL and SMLAL into distinct registers leave hi * 2^32 + lo equal to the product, signed exactly with bit 22, plus the old pair with bit 21, mod 2^64, with N and Z of that number |
| `ArmMeaning.ThumbMultiplyInNumbers` | crates/cpu-arm7tdmi/src/thumb.rs:172-262 | THUMB MUL leaves Rd * Rs mod 2^32 with N and Z of that number |
| `ArmMeaning.MultiplierStopsEarly` | crates/cpu-arm7tdmi/src/arm.rs:405-415 | the multiplier takes at most b cycles exactly if the operand, signed, lies from -2^8b up to 2^8b |
| `ArmMeaning.LogicBitByBit` | crates/cpu-arm7tdmi/src/arm.rs:251-335 | AND, EOR, TST, TEQ, ORR, MOV, BIC and MVN do to each binary digit what they do to one |
| `ArmMeaning.MemoryIsLittleEndian` | crates/cpu-arm7tdmi/src/arm.rs:502-566 | an aligned word and its halfwords are made of its bytes, lowest address first |
| `ArmMeaning.HalfStoreIsLocal` | crates/cpu-arm7tdmi/src/arm.rs:568-633 | a stored halfword reads back from both its addresses, and no other halfword changes |
| `ArmMeaning.LoadsInNumbers` | crates/cpu-arm7tdmi/src/arm.rs:498-633 | what each kind of load brings from each alignment: a word turned a bit at a time, a byte or halfword extended or not |
| `ArmMeaning.TransferInNumbers` | crates/cpu-arm7tdmi/src/arm.rs:502-566 | for distinct base and register, R15 as base included: the base plus or minus the offset mod 2^32, before or after the access, written back when it should be; the register or memory takes exactly the datum; nothing else changes |
| `ArmEncoding.DataAssembles` | crates/cpu-arm7tdmi/src/arm.rs:127-335 | every word that a data-processing instruction assembles to, any condition, opcode, registers and operand, is executed as that instruction, the operand being one-bit shifts of what it names and R15 reading 8 or 12 past the instruction |
| `ArmEncoding.SingleAssembles` | crates/cpu-arm7tdmi/src/arm.rs:502-566 | every word that LDR, STR or a byte form assembles to is executed as that transfer, immediate and shifted offsets included |
| `ArmEncoding.HalfAssembles` | crates/cpu-arm7tdmi/src/arm.rs:568-633 | so is every word of STRH, LDRH, LDRSB and LDRSH |
| `ArmEncoding.BlockAssembles` | crates/cpu-arm7tdmi/src/arm.rs:635-733 | every word that LDM or STM assembles to decodes to that block transfer |
| `ArmEncoding.ListDigits` | crates/cpu-arm7tdmi/src/arm.rs:635-733 | a register is listed exactly if its binary digit of the word is a one |
| `ArmEncoding.SwapAssembles` | crates/cpu-arm7tdmi/src/arm.rs:473-493 | every word that SWP or SWPB assembles to exchanges register and memory |
| `ArmEncoding.BranchLands` | crates/cpu-arm7tdmi/src/arm.rs:107-119 | B and BL go exactly the signed number of words from 8 past themselves, and BL leaves the address after itself in R14 |
| `ArmEncoding.ExchangeLands` | crates/cpu-arm7tdmi/src/arm.rs:101-105 | BX goes to the register with its low bits cleared for the instruction set that bit 0 names |
| `ArmEncoding.MsrOperand` | crates/cpu-arm7tdmi/src/arm.rs:350-399 | MSR writes an immediate turned right by twice its rotation, or a register as it is |
| `ArmEncoding.MergeInNumbers` | crates/cpu-arm7tdmi/src/arm.rs:350-399 | of a status word MSR replaces the top four bits for the flags and the low byte for the control field, and nothing else |
| `ArmEncoding.PcRelativeLoads` | crates/cpu-arm7tdmi/src/thumb.rs:320-327 | LDR Rd,[PC,#4i] loads from 4 past the instruction, word-aligned, plus 4i |
| `ArmEncoding.PcRelativeAdds` | crates/cpu-arm7tdmi/src/thumb.rs:475-486 | ADD Rd,PC,#4i is that address |
| `ArmEncoding.ConditionalBranchLands` | crates/cpu-arm7tdmi/src/thumb.rs:604-616 | a conditional branch goes exactly the signed number of halfwords from 4 past itself if the table passes its condition, and otherwise nothing changes |
| `ArmEncoding.ThumbBranchLands` | crates/cpu-arm7tdmi/src/thumb.rs:618-624 | so does B, always |
| `ArmEncoding.LongBranchLands` | crates/cpu-arm7tdmi/src/thumb.rs:631-648 | the two halves of BL together go exactly the signed number of halfwords, up to 4 MiB either way, from 4 past the first, and leave the address after the second plus one in R14 |
| `ArmConfinement.EntryLands` | crates/cpu-arm7tdmi/src/exception.rs:94-112 | an entry lands at base plus the vector of its exception (in numbers in ArmMeaning.ExceptionsInNumbers) in the mode of the exception with IRQ masked, and touches no storage but R15, its own R14 and its own SPSR |
| `ArmConfinement.ArmIsConfined` | crates/cpu-arm7tdmi/src/arm.rs:53-97 | an ARM instruction in User mode either is an exception taken there or leaves mode, I, F, every SPSR and every other bank alone |
| `ArmConfinement.ThumbIsConfined` | crates/cpu-arm7tdmi/src/thumb.rs:37-98 | so does every THUMB instruction |
| `ArmConfinement.StepIsConfined` | crates/cpu-arm7tdmi/src/lib.rs:305-335 | so does every step, interrupts and failed conditions included |
| `ArmConfinement.UserRunIsConfined` | crates/cpu-arm7tdmi/src/lib.rs:305-335 | over any number of steps and whatever the interrupt lines do, User code stays in User mode with all of that unchanged until the first exception, which is entered at base plus vector from such a state |
| `ArmBlock.StoreThenLoadRestores` | crates/cpu-arm7tdmi/src/arm.rs:635-733 | for every list without base or R15, any base and any addressing, STM with writeback and then the inverse LDM restores the listed registers and the base whatever happened to them in between, and changes nothing else |
| `ArmBlock.RegistersGoToTheirRank` | crates/cpu-arm7tdmi/src/arm.rs:635-733 | register r is stored at the slot of its rank in the list, whatever the direction, across address wrap |
| `ArmExceptions.ReturnRestores` | crates/cpu-arm7tdmi/src/arm.rs:300-348 | SUBS PC,LR,#4 and MOVS PC,LR restore CPSR from the saved status of the current mode and R15 from its link register |
| `ArmExceptions.UnwindingRestores` | crates/cpu-arm7tdmi/src/exception.rs:89-134 | for any nesting of exceptions into distinct banks, whatever the handlers write to registers of their own banks other than R14, unwinding restores CPSR, R15 and every register the interrupted code can see |
| `ArmTransfer.LoadWinsOverWriteback` | crates/cpu-arm7tdmi/src/arm.rs:502-633 | a load into its own base register leaves the loaded value |
| `ArmTransfer.WordStoreLoad` | crates/cpu-arm7tdmi/src/arm.rs:498-566 | a stored word loads back rotated by its misalignment, and unchanged from an aligned address |
| `ArmTransfer.ByteStoreIsLocal` | crates/cpu-arm7tdmi/src/arm.rs:502-566 | a stored byte reads back, and no other byte of memory changes |
| `Arm7.Arm7Tdmi.constructor` | crates/cpu-arm7tdmi/src/lib.rs:149-162 | the boot state fixes R15, mode, instruction set, the stack pointer of that mode and the masks; everything else is clear |
| `Arm7.Arm7Tdmi.EnterException` | crates/cpu-arm7tdmi/src/exception.rs:94-112 | the update in place, status saved before the mode changes and the link register written after, is the entry |
| `Arm7.Arm7Tdmi.RestoreCpsrFromSpsr` | crates/cpu-arm7tdmi/src/arm.rs:342-348 | restores the saved status where the mode has one, and otherwise nothing |
| `Arm7.Arm7Tdmi.ExceptionReturn` | crates/cpu-arm7tdmi/src/lib.rs:288-295 | restores the saved status, its mode field made to name the mode it reads as, and aligns R15 for the instruction set restored |
| `Arm7.Arm7Tdmi.BranchExchange` | crates/cpu-arm7tdmi/src/lib.rs:256-261 | bit 0 of the target selects the instruction set and R15 is aligned for it |
| `Arm7.Arm7Tdmi.SetPcFromLoad` | crates/cpu-arm7tdmi/src/lib.rs:269-279 | bit 0 selects the instruction set only on a core whose loads interwork |
| `Arm7.Arm7Tdmi.DoAdd` | crates/cpu-arm7tdmi/src/arm.rs:223-234 | sum and N Z C V, the flags only when asked for |
| `Arm7.Arm7Tdmi.DoSub` | crates/cpu-arm7tdmi/src/arm.rs:238-249 | difference and N Z C V, the flags only when asked for |
| `Arm7.Arm7Tdmi.ArmBx` | crates/cpu-arm7tdmi/src/arm.rs:101-105 | branches to the register with exchange |
| `Arm7.Arm7Tdmi.ArmBranch` | crates/cpu-arm7tdmi/src/arm.rs:107-119 | target from the signed offset and the pipeline lead, and R14 the return address with the L bit |
| `Arm7.Arm7Tdmi.ArmDataProcessing` | crates/cpu-arm7tdmi/src/arm.rs:251-335 | all sixteen opcodes, the return through R15, the status carve-out, and the cycles |
| `Arm7.Arm7Tdmi.ArmPsrTransfer` | crates/cpu-arm7tdmi/src/arm.rs:350-399 | MRS and MSR of either status, by field, control bits out of reach of User code |
| `Arm7.Arm7Tdmi.ArmMultiply` | crates/cpu-arm7tdmi/src/arm.rs:405-437 | the low word of the product with or without addend, N and Z, and the early-out cycles |
| `Arm7.Arm7Tdmi.ArmMultiplyLong` | crates/cpu-arm7tdmi/src/arm.rs:439-469 | the 64-bit product, signed or not, plus the destination pair if accumulating |
| `Arm7.Arm7Tdmi.ArmSwap` | crates/cpu-arm7tdmi/src/arm.rs:473-493 | register and memory change places, with the rotation of a load |
| `Arm7.Arm7Tdmi.ArmSingleTransfer` | crates/cpu-arm7tdmi/src/arm.rs:502-566 | registers, memory and cycles of every word and byte transfer |
| `Arm7.Arm7Tdmi.ArmHalfwordTransfer` | crates/cpu-arm7tdmi/src/arm.rs:568-633 | registers, memory and cycles of every halfword and signed transfer, odd addresses included |
| `Arm7.Arm7Tdmi.ArmBlockTransfer` | crates/cpu-arm7tdmi/src/arm.rs:635-733 | the loop over registers is the block transfer: start address, order, writeback, user bank, empty list and cycles |
| `Arm7.Arm7Tdmi.ExecuteArm` | crates/cpu-arm7tdmi/src/arm.rs:53-97 | the decoder in the order of the source does what the instruction's format says |
| `Arm7.Arm7Tdmi.ThumbMoveShifted` | crates/cpu-arm7tdmi/src/thumb.rs:102-115 | format 1 |
| `Arm7.Arm7Tdmi.ThumbAddSubtract` | crates/cpu-arm7tdmi/src/thumb.rs:119-139 | format 2 |
| `Arm7.Arm7Tdmi.ThumbImmediate` | crates/cpu-arm7tdmi/src/thumb.rs:143-168 | format 3 |
| `Arm7.Arm7Tdmi.ThumbAlu` | crates/cpu-arm7tdmi/src/thumb.rs:172-262 | format 4, with the cycles of shifts and MUL |
| `Arm7.Arm7Tdmi.ThumbHighRegister` | crates/cpu-arm7tdmi/src/thumb.rs:266-316 | format 5, R15 as source and destination included |
| `Arm7.Arm7Tdmi.ThumbPcRelativeLoad` | crates/cpu-arm7tdmi/src/thumb.rs:320-327 | format 6, from the word-aligned R15 |
| `Arm7.Arm7Tdmi.ThumbLoadStoreRegister` | crates/cpu-arm7tdmi/src/thumb.rs:331-359 | format 7 |
| `Arm7.Arm7Tdmi.ThumbLoadStoreExtended` | crates/cpu-arm7tdmi/src/thumb.rs:361-399 | format 8 |
| `Arm7.Arm7Tdmi.ThumbLoadStoreImmediate` | crates/cpu-arm7tdmi/src/thumb.rs:403-434 | format 9, word offsets scaled |
| `Arm7.Arm7Tdmi.ThumbLoadStoreHalfword` | crates/cpu-arm7tdmi/src/thumb.rs:436-456 | format 10 |
| `Arm7.Arm7Tdmi.ThumbSpRelative` | crates/cpu-arm7tdmi/src/thumb.rs:458-471 | format 11 |
| `Arm7.Arm7Tdmi.ThumbLoadAddress` | crates/cpu-arm7tdmi/src/thumb.rs:475-486 | format 12, from R15 or R13 |
| `Arm7.Arm7Tdmi.ThumbAdjustStackPointer` | crates/cpu-arm7tdmi/src/thumb.rs:488-498 | format 13 |
| `Arm7.Arm7Tdmi.ThumbPushPop` | crates/cpu-arm7tdmi/src/thumb.rs:502-546 | the two loops over R13 are STMDB R13! and LDMIA R13! in registers, memory and cycles; an empty list moves nothing |
| `Arm7.Arm7Tdmi.ThumbBlockTransfer` | crates/cpu-arm7tdmi/src/thumb.rs:548-600 | the loop is STMIA! or LDMIA!; an empty list moves R15 alone and steps the base by 0x40 |
| `Arm7.Arm7Tdmi.ThumbConditionalBranch` | crates/cpu-arm7tdmi/src/thumb.rs:604-616 | format 16 |
| `Arm7.Arm7Tdmi.ThumbBranch` | crates/cpu-arm7tdmi/src/thumb.rs:618-624 | format 18 |
| `Arm7.Arm7Tdmi.ThumbLongBranchLink` | crates/cpu-arm7tdmi/src/thumb.rs:631-648 | both halves of format 19 |
| `Arm7.Arm7Tdmi.ExecuteThumb` | crates/cpu-arm7tdmi/src/thumb.rs:37-98 | the decoder does what the format of the instruction says, the undefined encodings included |
| `Arm7.Arm7Tdmi.StepArm` | crates/cpu-arm7tdmi/src/arm.rs:25-36 | fetch, condition, execution; a failed condition costs one cycle |
| `Arm7.Arm7Tdmi.StepThumb` | crates/cpu-arm7tdmi/src/thumb.rs:21-26 | fetch and execution |
| `Arm7.Arm7Tdmi.Step` | crates/cpu-arm7tdmi/src/lib.rs:305-335 | FIQ before IRQ before sleep before an instruction; a masked line wakes but is not served; every step costs at least one cycle |
| `Sm83Timing.CostCoversAccesses` | crates/cpu-sm83/src/lib.rs:66-137 | for every opcode, taken or not, the tables come to exactly four cycles for each bus access and the internal cycles of the instruction; STOP alone uses more than it is charged, eight against four |
| `Sm83Timing.ZeroMeansUndefined` | crates/cpu-sm83/src/lib.rs:66-96 | a zero in the table is exactly an opcode that does not exist |
| `Sm83Core.Sm83.TickRemaining` | crates/cpu-sm83/src/lib.rs:389-397 | reports what is left of the total and settles the counter |
| `Sm83Core.Sm83.FetchOpcode` | crates/cpu-sm83/src/lib.rs:404-412 | the byte at PC, which moves on unless the HALT bug holds it |
| `Sm83Core.Sm83.Push16` | crates/cpu-sm83/src/lib.rs:429-435 | high byte first, SP wrapping, eight cycles ticked |
| `Sm83Core.Sm83.Pop16` | crates/cpu-sm83/src/lib.rs:438-444 | low byte first, SP wrapping, eight cycles ticked |
| `Sm83Core.Sm83.AluAdd` | crates/cpu-sm83/src/exec.rs:63-71 | sum, half-carry and carry with carry in |
| `Sm83Core.Sm83.AluSub` | crates/cpu-sm83/src/exec.rs:74-82 | difference, half-borrow and borrow with borrow in |
| `Sm83Core.Sm83.AluOp` | crates/cpu-sm83/src/exec.rs:572-583 | the eight operations, CP keeping the accumulator |
| `Sm83Core.Sm83.AluInc` | crates/cpu-sm83/src/exec.rs:114-120 | carry left alone |
| `Sm83Core.Sm83.AluDec` | crates/cpu-sm83/src/exec.rs:123-129 | carry left alone |
| `Sm83Core.Sm83.AddHl` | crates/cpu-sm83/src/exec.rs:133-141 | half-carry out of bit 11, Z left alone |
| `Sm83Core.Sm83.AddSpOffset` | crates/cpu-sm83/src/exec.rs:149-156 | signed sum, flags of the unsigned low byte |
| `Sm83Core.Sm83.Daa` | crates/cpu-sm83/src/exec.rs:163-184 | the decimal correction, N kept, H cleared, carry never cleared |
| `Sm83Core.Sm83.Halt` | crates/cpu-sm83/src/exec.rs:270-278 | sleeps, or with IME clear and a source pending arms the HALT bug |
| `Sm83Core.Sm83.ExecuteLow` | crates/cpu-sm83/src/exec.rs:288-418 | registers, memory, branch and bus cycles of every opcode below 0x40; where branches go in numbers is Sm83Meaning |
| `Sm83Core.Sm83.ExecuteRegister` | crates/cpu-sm83/src/exec.rs:420-430 | the same for 0x40 to 0xBF |
| `Sm83Core.Sm83.ExecuteHigh` | crates/cpu-sm83/src/exec.rs:432-566 | the same from 0xC0 up, the second opcode page included |
| `Sm83Core.Sm83.ExecuteCb` | crates/cpu-sm83/src/exec.rs:586-627 | rotates, shifts, BIT, RES and SET on every operand, one or two accesses for memory |
| `Sm83Core.Sm83.Execute` | crates/cpu-sm83/src/exec.rs:283-568 | what each opcode does, what it costs by the tables, and how often it used the bus |
| `Sm83Core.Sm83.DispatchInterrupt` | crates/cpu-sm83/src/lib.rs:460-473 | lowest source first, only its request acknowledged, PC pushed, twenty cycles |
| `Sm83Core.Sm83.Step` | crates/cpu-sm83/src/lib.rs:477-523 | locked, dispatch, sleep or instruction, exactly; the bus is told of what is returned, four more for a STOP; at least four cycles and a multiple of four |
| `Sm83Core.Sm83.Run` | crates/cpu-sm83/src/lib.rs:477-523 | over any run the cycles told to the bus are the sum of what the steps returned plus four for every STOP, and nothing is left pending at an instruction boundary |
| `Sm83Meaning.FlagsInNumbers` | crates/cpu-sm83/src/lib.rs:229-290 | F is 128 for Z, 64 for N, 32 for H and 16 for C |
| `Sm83Meaning.ConditionInNumbers` | crates/cpu-sm83/src/exec.rs:51-58 | NZ, Z, NC and C by the digits of F |
| `Sm83Meaning.RelativeJumps` | crates/cpu-sm83/src/exec.rs:288-418 | JR goes the signed offset from the next instruction if its condition holds, and otherwise to the next instruction |
| `Sm83Meaning.Jumps` | crates/cpu-sm83/src/exec.rs:432-566 | JP goes to its operand, low byte first, if its condition holds |
| `Sm83Meaning.Calls` | crates/cpu-sm83/src/exec.rs:471-505 | CALL pushes the address after it, high byte first, and goes to its operand if its condition holds |
| `Sm83Meaning.Returns` | crates/cpu-sm83/src/exec.rs:471-505 | RET goes to the word at SP and drops it if its condition holds |
| `Sm83Meaning.BranchesAfterCompare` | crates/cpu-sm83/src/exec.rs:432-566 | after CP B, from any state and memory, each of the sixteen conditional branches is taken exactly if its relation, equal, unequal, below or not below, holds of A and B, and both outcomes leave PC, SP and memory as given in numbers |
| `Sm83Meaning.RotatesInNumbers` | crates/cpu-sm83/src/exec.rs:192-255 | RLC, RRC, RL and RR as equations between operand, result and the carries in and out |
| `Sm83Meaning.ShiftsInNumbers` | crates/cpu-sm83/src/exec.rs:192-255 | SLA, SRA and SRL likewise, and SWAP as the exchange of the two hexadecimal digits |
| `Sm83Meaning.LogicBitByBit` | crates/cpu-sm83/src/exec.rs:572-583 | AND, OR and XOR do to each binary digit what they do to one |
| `Sm83Meaning.AluInNumbers` | crates/cpu-sm83/src/exec.rs:572-583 | ADD, ADC, SUB, SBC and CP: A modulo 256 and F as a number, half-carry out of the low hexadecimal digit |
| `Sm83Meaning.AluOpcodes` | crates/cpu-sm83/src/exec.rs:572-583 | the opcodes of the eight operations, on each operand and on the next byte |
| `Sm83Meaning.RotateOpcodes` | crates/cpu-sm83/src/exec.rs:586-627 | the second-page opcodes of the rotates on each operand, and their flags |
| `Sm83Meaning.BitOpcodes` | crates/cpu-sm83/src/exec.rs:586-627 | those of RES and SET, flags left alone |
| `Sm83Meaning.TestOpcodes` | crates/cpu-sm83/src/exec.rs:586-627 | those of BIT: Z the complement of the digit, N clear, H set, C kept |
| `Sm83Meaning.LogicInNumbers` | crates/cpu-sm83/src/exec.rs:572-583 | AND, XOR and OR by their number in the opcode, and F as a number |
| `Sm83Meaning.BitTests` | crates/cpu-sm83/src/exec.rs:586-627 | BIT looks at exactly the digit it names |
| `Sm83Meaning.SingleBits` | crates/cpu-sm83/src/exec.rs:586-627 | SET and RES change exactly the digit they name |
| `Sm83Meaning.LowestIsServed` | crates/cpu-sm83/src/lib.rs:460-473 | with interrupts on, a step serves the lowest source both requested at 0xFF0F and enabled at 0xFFFF: PC goes to 0x40 plus eight times its number, PC is pushed, its request alone is cleared, twenty cycles |
| `Sm83Meaning.NoneIsServed` | crates/cpu-sm83/src/lib.rs:477-523 | with no such source nothing is pending |
| `Sm83Meaning.PairLoads` | crates/cpu-sm83/src/exec.rs:288-418 | the four 16-bit immediate loads, low byte first |
| `Sm83Meaning.ImmediateLoads` | crates/cpu-sm83/src/exec.rs:288-418 | the eight LD r,n, register by register |
| `Sm83Meaning.AccumulatorLoads` | crates/cpu-sm83/src/exec.rs:22-47 | the eight LD A,r, register by register |
| `Sm83Meaning.RegisterLoads` | crates/cpu-sm83/src/exec.rs:420-430 | each of the 63 LD r,r copies one operand to the other |
| `Sm83Meaning.OperandsAreApart` | crates/cpu-sm83/src/exec.rs:22-47 | a written operand reads back and no other register changes |
| `Sm83Meaning.PointerLoads` | crates/cpu-sm83/src/exec.rs:288-418 | A to and from (BC) and (DE) |
| `Sm83Meaning.MovingLoads` | crates/cpu-sm83/src/exec.rs:288-418 | A to and from (HL), HL going up or down by one modulo 65536 |
| `Sm83Meaning.HighLoads` | crates/cpu-sm83/src/exec.rs:432-566 | A to and from 0xFF00 plus a byte or C |
| `Sm83Meaning.AbsoluteLoads` | crates/cpu-sm83/src/exec.rs:432-566 | A to and from the operand address |
| `Sm83Meaning.StackPointerLoads` | crates/cpu-sm83/src/exec.rs:288-566 | SP from HL, and SP to memory, low byte first |
| `Sm83Meaning.CountsInNumbers` | crates/cpu-sm83/src/exec.rs:114-129 | INC and DEC modulo 256, F as a number, half-carry exactly when the low hexadecimal digit wraps, C kept |
| `Sm83Meaning.WideSumInNumbers` | crates/cpu-sm83/src/exec.rs:133-141 | ADD HL modulo 65536, F as a number, half-carry out of bit 11, Z kept |
| `Sm83Meaning.StackSumInNumbers` | crates/cpu-sm83/src/exec.rs:149-156 | the signed sum of SP and a byte modulo 65536, F as a number from the unsigned low bytes |
| `Sm83Meaning.StackSums` | crates/cpu-sm83/src/exec.rs:432-566 | where ADD SP,e and LD HL,SP+e put that sum and F |
| `Sm83Meaning.FlagOperations` | crates/cpu-sm83/src/exec.rs:288-418 | CPL, SCF and CCF: A and F as numbers |
| `Sm83Meaning.Pushes` | crates/cpu-sm83/src/exec.rs:438-459 | the four pushes, high register at the higher address, F as a byte |
| `Sm83Meaning.PopsFlags` | crates/cpu-sm83/src/exec.rs:438-459 | POP AF takes the high byte into A and the low byte without its low four bits into F |
| `Sm83Programs.RunsStayClean` | crates/cpu-sm83/src/lib.rs:229-290 | over any run the low nibble of F stays zero and time passes with every step |
| `Sm83Programs.PushPopIsIdentity` | crates/cpu-sm83/src/exec.rs:438-459 | PUSH and then POP of the same pair leave every register as it was, F included, wherever SP is |
| `Sm83Programs.CallThenReturn` | crates/cpu-sm83/src/exec.rs:471-487 | whatever a routine entered by CALL does to the other registers and to memory, if SP is back where it was on entry and the word there is the one pushed then, RET goes to just after the CALL with SP as before it, and changes nothing else |
| `Sm83Programs.RestartThenReturn` | crates/cpu-sm83/src/exec.rs:487-505 | the same of RST, whose target is the one its opcode names |
| `Sm83Programs.InterruptThenReturn` | crates/cpu-sm83/src/lib.rs:460-473 | a handler may do the same and return by RETI to the interrupted instruction, with SP as before it and interrupts enabled |
| `Sm83Programs.HaltBugReadsTwice` | crates/cpu-sm83/src/exec.rs:270-278 | with IME clear and a source pending the CPU runs on and executes the byte after HALT without moving past it |
| `Sm83Programs.HaltSleepsUntilPending` | crates/cpu-sm83/src/lib.rs:477-523 | otherwise it sleeps until, and only until, a source is both requested and enabled |
| `Sm83Programs.EnableIsDelayed` | crates/cpu-sm83/src/lib.rs:477-523 | whatever is pending, the instruction after EI runs before an interrupt is served, and then it is served at once |
| `Sm83Alu.DecimalAddition` | crates/cpu-sm83/src/exec.rs:163-184 | on packed decimal numbers of any length ADC and DAA byte by byte give the decimal sum modulo 100 to the n, carry exactly when it overflows |
| `Sm83Alu.DecimalSubtraction` | crates/cpu-sm83/src/exec.rs:163-184 | and SBC and DAA the difference, borrow exactly when it is negative |
| `Sm83Programs.DecimalByInstructions` | crates/cpu-sm83/src/exec.rs:63-184 | the same for the instructions themselves, executed in a loop with the carry kept in F |
| `FlashChip.Flash.constructor` | crates/cart-common/src/save.rs:189-205 | every byte erased, bank 0, and the chip id of the capacity |
| `FlashChip.Flash.ReadByte` | crates/cart-common/src/save.rs:233-243 | identification bytes at the two id addresses while asked for, else the banked byte |
| `FlashChip.Flash.EraseAll` | crates/cart-common/src/save.rs:212-215 | every byte becomes 0xFF |
| `FlashChip.Flash.EraseSector` | crates/cart-common/src/save.rs:218-223 | exactly the bytes of the 4 KiB around the address become 0xFF |
| `FlashChip.Flash.WriteByte` | crates/cart-common/src/save.rs:245-288 | one write of the recogniser: bytes, bank, identification and protocol state |
| `FlashChip.Flash.LoadFromBytes` | crates/cart-common/src/save.rs:294-298 | accepts exactly a file of the chip's size |
| `FlashChip.CellsInNumbers` | crates/cart-common/src/save.rs:186-210 | an address names the byte of its low sixteen bits, in the only bank of a 64 KiB chip or in the selected one of a 128 KiB chip |
| `FlashChip.SectorEraseInNumbers` | crates/cart-common/src/save.rs:218-223 | a sector erase clears exactly the bytes of the same 4 KiB as the addressed one |
| `FlashChip.BytesAreTheirHistory` | crates/cart-common/src/save.rs:207-288 | after any run of writes each byte is 0xFF, or what it started as, ANDed with every value programmed at its offset since the last erase covering it |
| `FlashChip.BitsOnlyClear` | crates/cart-common/src/save.rs:245-288 | without an erase covering a byte no run of writes sets any of its bits |
| `FlashChip.ProgramsOnlyWhenUnlocked` | crates/cart-common/src/save.rs:245-288 | from an idle chip a write programs exactly if the three before it were (5555,AA), (2AAA,55), (5555,A0) from idle |
| `FlashChip.BankChangesOnlyWhenUnlocked` | crates/cart-common/src/save.rs:245-288 | and selects a bank exactly if they ended in B0 |
| `FlashChip.EraseUnlockChangesNothing` | crates/cart-common/src/save.rs:277-282 | the five-write erase unlock leaves the chip in the state it started in |
| `FlashChip.ErasesExactlyWhenIdle` | crates/cart-common/src/save.rs:283-286 | a write erases exactly if the chip is idle and it is 30 anywhere or 10 at 5555 |
| `FlashChip.StrayEraseNeedsNoUnlock` | crates/cart-common/src/save.rs:283-286 | so one stray write of 30 to an idle chip erases a sector: the comment that an erase lands after its own unlock does not describe the code |
| `FlashChip.BanksAreSeparate` | crates/cart-common/src/save.rs:208-210 | two addresses in two banks are one cell exactly if bank and low sixteen bits agree |
| `FlashChip.ProgramThenRead` | crates/cart-common/src/save.rs:233-257 | a programmed byte reads back as what it was AND the value, and every other address of either bank as before |
| `EepromChip.Eeprom.constructor` | crates/cart-common/src/save.rs:381-392 | idle, every byte erased |
| `EepromChip.Eeprom.StartRead` | crates/cart-common/src/save.rs:408-419 | the loop collects the eight bytes of the block, most significant first |
| `EepromChip.Eeprom.CommitWrite` | crates/cart-common/src/save.rs:421-432 | the loop stores the payload in the addressed block only |
| `EepromChip.Eeprom.ReadByte` | crates/cart-common/src/save.rs:443-463 | one bit of the answer, or idle-high |
| `EepromChip.Eeprom.WriteByte` | crates/cart-common/src/save.rs:466-502 | one bit of a command or payload |
| `EepromChip.CommandLength` | crates/cart-common/src/save.rs:394-406 | a command is 9 bits for a chip of 512 bytes and 17 for a larger one |
| `EepromChip.ExchangeServed` | crates/cart-common/src/save.rs:394-502 | from idle any framed command ends in idle having done exactly what a store of 64-bit blocks does: a read answers four zeros and then the block, most significant bit first, and a write replaces that block only |
| `EepromChip.SessionRefinesStore` | crates/cart-common/src/save.rs:394-502 | for any sequence of framed commands the bit machine and the block store give the same answers and hold the same blocks |
| `EepromChip.LeadingZeroIgnored` | crates/cart-common/src/save.rs:466-502 | a command that starts with a zero bit is read and forgotten |
| `EepromChip.IdleUnlessTerminated` | crates/cart-common/src/save.rs:490-500 | after a write and fewer further bits than a command has, the chip is idle exactly if there were none: the comment's terminating bit is counted towards the next command |
| `EepromChip.ZeroSwallowsCommand` | crates/cart-common/src/save.rs:466-502 | a terminating zero and the whole command after it leave what that command's trailing bit alone would, for any command and anything sent after it, and the line reads high |
| `EepromChip.OneShiftsCommand` | crates/cart-common/src/save.rs:466-502 | a terminating one makes the next command one bit late: it reads if its first bit was a one and otherwise writes, at the block made of its second bit and its address without the last bit |
| `EepromChip.WriteAfterZero` | crates/cart-common/src/save.rs:466-502 | a write after a terminating zero stores nothing and does not end in idle; its payload is taken for commands, and with a trailing one its first bits start a read or a write at a block of their own |
| `EepromChip.WriteAfterOne` | crates/cart-common/src/save.rs:466-502 | a write after a terminating one stores nothing and starts a read at half its address |
| `EepromChip.ServedAfterTerminatorWhen` | crates/cart-common/src/save.rs:394-502 | of all exchanges after a terminating bit, answered right, stored right and ending in idle are exactly the reads after a one whose shifted address names a block of the same contents |
| `Mbc3Clock.Mbc3Rtc.Tick` | crates/cart-common/src/rtc.rs:93-102 | the accumulator loop advances one second for every full one |
| `Mbc3Clock.Mbc3Rtc.AdvanceOneSecond` | crates/cart-common/src/rtc.rs:104-129 | the carry chain, days modulo 512, with the sticky overflow |
| `Mbc3Clock.Mbc3Rtc.WriteLatch` | crates/cart-common/src/rtc.rs:132-143 | 0 and then 1 latches all fields at once |
| `Mbc3Clock.Mbc3Rtc.ReadRegister` | crates/cart-common/src/rtc.rs:146-159 | a register the clock has gives its latched field, and the high day byte splits into the ninth bit of the days, the carry and the halt flag |
| `Mbc3Clock.ReadsShowExactlyTheLatch` | crates/cart-common/src/rtc.rs:146-159 | two clocks read alike in every register exactly if their latched times, carries and halt flags are equal: reads show all of the latch and nothing of the live counter |
| `Mbc3Clock.RegistersGiveTheLatch` | crates/cart-common/src/rtc.rs:146-159 | the five registers give back the whole latched time, carry and halt flag; every other register reads 0xFF |
| `Mbc3Clock.Mbc3Rtc.WriteRegister` | crates/cart-common/src/rtc.rs:165-188 | live and latched together; a write to seconds resets the accumulator |
| `Mbc3Clock.Mbc3Rtc.FromTrailerBytes` | crates/cart-common/src/rtc.rs:254-283 | every field restored in range |
| `Mbc3Clock.SecondsAdd` | crates/cart-common/src/rtc.rs:104-129 | from any time in range n seconds add n to s + 60m + 3600h + 86400d modulo 512 days, and set the overflow exactly if it wraps |
| `Mbc3Clock.TickAdds` | crates/cart-common/src/rtc.rs:93-102 | a tick adds floor((accumulated + cycles)/hz) seconds and keeps the remainder |
| `Mbc3Clock.TicksCompose` | crates/cart-common/src/rtc.rs:93-102 | two ticks are one of the sum |
| `Mbc3Clock.HaltedStandsStill` | crates/cart-common/src/rtc.rs:93-102 | a halted clock, or a rate of zero, changes nothing |
| `Mbc3Clock.LatchShowsOneInstant` | crates/cart-common/src/rtc.rs:132-159 | registers show the latched instant however the clock runs on, and latching again shows the later one whole |
| `Mbc3Clock.SettingTheClock` | crates/cart-common/src/rtc.rs:165-188 | writing the five registers sets the time, out-of-range values reduced |
| `Mbc3Clock.TrailerRoundTrip` | crates/cart-common/src/rtc.rs:216-283 | the 48-byte trailer restores everything but the accumulator and the latch arming |
| `GbaClock.GbaGpioRtc.Tick` | crates/cart-common/src/rtc.rs:386-395 | the accumulator loop advances one second for every full one |
| `GbaClock.GbaGpioRtc.AdvanceOneSecond` | crates/cart-common/src/rtc.rs:397-425 | the calendar carry; where months and years end in numbers is MonthEnds below |
| `GbaClock.GbaGpioRtc.SetDateTimeBytes` | crates/cart-common/src/rtc.rs:461-469 | seven BCD bytes, each reduced or clamped on its own |
| `GbaClock.SecondsAdd` | crates/cart-common/src/rtc.rs:397-425 | from any valid date n seconds keep it valid and add n to an absolute count modulo 36525 days |
| `GbaClock.DayNumberInClosedForm` | crates/cart-common/src/rtc.rs:427-437 | the number that every date has in the count of days, in closed form: 365 days and a leap day every four years, 31 days for January, 28 or 29 for February, and 153 days for each five months from March on |
| `GbaClock.MonthEnds` | crates/cart-common/src/rtc.rs:397-437 | midnight leaves a month exactly after day 30 of months 4, 6, 9 and 11, after day 28 or 29 of month 2 by whether four divides the year, and after day 31 of the rest; month 12 is followed by month 1 of the next year, 99 by 00 |
| `GbaClock.BytesInNumbers` | crates/cart-common/src/rtc.rs:440-450 | the seven bytes digit by digit, bit 7 of the hour set exactly from noon on |
| `GbaClock.SettingInNumbers` | crates/cart-common/src/rtc.rs:461-469 | what any seven bytes set: month and day clamped to 1 to 12 and 1 to 31, the rest reduced |
| `GbaClock.WeekdayInStep` | crates/cart-common/src/rtc.rs:397-425 | with the weekday advanced once a midnight |
| `GbaClock.TickAdds` | crates/cart-common/src/rtc.rs:386-395 | a tick adds the whole seconds and keeps the remainder |
| `GbaClock.TickKeepsWeekday` | crates/cart-common/src/rtc.rs:386-395 | the weekday stays in step over a tick |
| `GbaClock.TicksCompose` | crates/cart-common/src/rtc.rs:386-395 | two ticks are one of the sum |
| `GbaClock.DateTimeRoundTrip` | crates/cart-common/src/rtc.rs:440-469 | a clock in range is restored by its own seven bytes |
| `GbaClock.SetIsValidWhen` | crates/cart-common/src/rtc.rs:461-469 | setting always leaves fields in range, and a valid date exactly if the weekday is not 7 and the day exists in that month |
| `GbaClock.ImpossibleDate` | crates/cart-common/src/rtc.rs:461-469 | the 31st of February with weekday 7 can be set |
| `GbaClock.MidnightRepairs` | crates/cart-common/src/rtc.rs:397-425 | the next midnight makes any date in range valid |
| `GbaClock.RepairedWithinADay` | crates/cart-common/src/rtc.rs:397-425 | so the clock is valid again within a day |
| `TightlyCoupled.Tcm.Configure` | crates/cpu-arm946e/src/tcm.rs:81-89 | base and region size from the register |
| `TightlyCoupled.Tcm.RespondsToRead` | crates/cpu-arm946e/src/tcm.rs:103-105 | enabled, not in load mode, and in the region |
| `TightlyCoupled.Tcm.RespondsToWrite` | crates/cpu-arm946e/src/tcm.rs:109-111 | load mode does not stop writes |
| `TightlyCoupled.Tcm.Read8` | crates/cpu-arm946e/src/tcm.rs:125-127 | the mirrored byte |
| `TightlyCoupled.Tcm.Write8` | crates/cpu-arm946e/src/tcm.rs:130-133 | only the mirrored byte changes |
| `TightlyCoupled.TcmBus.Read8` | crates/cpu-arm946e/src/lib.rs:179-187 | the instruction memory answers before the data memory before the bus |
| `TightlyCoupled.TcmBus.Write8` | crates/cpu-arm946e/src/lib.rs:190-198 | one of the three is written |
| `TightlyCoupled.TcmBus.Read16` | crates/cpu-arm946e/src/lib.rs:212-218 | two bytes composed, or one halfword of the bus |
| `TightlyCoupled.TcmBus.Read32` | crates/cpu-arm946e/src/lib.rs:221-232 | four bytes composed, or one word of the bus |
| `TightlyCoupled.TcmBus.Write16` | crates/cpu-arm946e/src/lib.rs:235-243 | two bytes, or one halfword of the bus |
| `TightlyCoupled.TcmBus.Write32` | crates/cpu-arm946e/src/lib.rs:246-256 | four bytes, or one word of the bus |
| `TightlyCoupled.ConfiguredIsAligned` | crates/cpu-arm946e/src/tcm.rs:81-89 | every configuration has a page-aligned base and a region of whole 512-byte sectors |
| `TightlyCoupled.SizeRegisterReadsBack` | crates/cpu-arm946e/src/tcm.rs:81-99 | the register reads back as written, page and size field, exactly when the size field is at most 22 |
| `TightlyCoupled.ReconfigureIsIdentity` | crates/cpu-arm946e/src/tcm.rs:81-99 | configuring from what reads back changes nothing exactly if the size field is at most 22; above, where no region was mapped, it maps one of 512 bytes |
| `TightlyCoupled.WordStaysTogether` | crates/cpu-arm946e/src/tcm.rs:114-122 | for every configuration the bytes of an aligned word are all in the region or all out |
| `TightlyCoupled.WideReadIsOneMemory` | crates/cpu-arm946e/src/lib.rs:221-232 | an aligned wide read served by a memory gets every byte from that one and leaves the bus untouched |
| `TightlyCoupled.WriteReadsBack` | crates/cpu-arm946e/src/tcm.rs:125-133 | outside load mode a written byte is read at exactly the addresses served by that memory and congruent under its mirror, and every other address reads as before |
| `TightlyCoupled.LoadModeHidesWrites` | crates/cpu-arm946e/src/tcm.rs:103-111 | in load mode a write to the instruction memory shows nowhere until load mode ends, and then reads back |
| `TightlyCoupled.WordReadsBack` | crates/cpu-arm946e/src/lib.rs:221-256 | outside load mode an aligned word written to a memory reads back |
| `SoundUnits.Envelope.Clock` | crates/apu-shared/src/lib.rs:100-119 | one envelope step, stopping at the ends |
| `SoundUnits.EnvelopeLevel` | crates/apu-shared/src/lib.rs:94-119 | after n clocks from a trigger the volume has moved floor(n/period) towards its end and no further; a zero period freezes it |
| `SoundUnits.LengthCounter.Clock` | crates/apu-shared/src/lib.rs:168-174 | counts down and reports the clock on which it reaches zero |
| `SoundUnits.LengthRunsOut` | crates/apu-shared/src/lib.rs:168-174 | the channel is silenced by exactly the clock the counter was set to, once |
| `SoundUnits.Sweep.WriteRegister` | crates/apu-shared/src/lib.rs:225-236 | the period, direction and shift, and whether leaving negate mode kills the channel |
| `SoundUnits.Sweep.Trigger` | crates/apu-shared/src/lib.rs:247-257 | reloads the timer and kills the channel exactly if the first calculation overflows |
| `SoundUnits.Sweep.Clock` | crates/apu-shared/src/lib.rs:284-315 | writes back a frequency in range and checks the next one |
| `SoundUnits.SweepStaysInField` | crates/apu-shared/src/lib.rs:284-315 | a frequency written back is at most 2047 and equals the shadow |
| `SoundUnits.SweepInNumbers` | crates/apu-shared/src/lib.rs:263-318 | the step is the shadow divided by two to the shift, rounded down, up or down as the register says; above 2047 it ends the note, and up to it is written back |
| `SoundUnits.FallingSweepNeverEnds` | crates/apu-shared/src/lib.rs:284-315 | a falling sweep survives any number of clocks and never raises the frequency |
| `SoundUnits.RisingSweepEnds` | crates/apu-shared/src/lib.rs:247-316 | a rising sweep with non-zero period, shift and step kills its channel within period times (2048 - shadow) clocks of the trigger |
| `SoundUnits.StillSweepNeverEnds` | crates/apu-shared/src/lib.rs:247-316 | and one whose step is zero never does |
| `SoundChannels.SquareChannel.Tick` | crates/apu-shared/src/channels.rs:69-75 | the timer loop terminates and advances the duty step once a reload |
| `SoundChannels.SquareChannel.Trigger` | crates/apu-shared/src/channels.rs:78-90 | timer, envelope, length and sweep restarted; off if the DAC is off or the sweep overflows |
| `SoundChannels.SquareChannel.ClockSweep` | crates/apu-shared/src/channels.rs:102-113 | takes the swept frequency, or goes off |
| `SoundChannels.SquareChannel.ClockLength` | crates/apu-shared/src/channels.rs:92-96 | goes off on the clock the counter expires |
| `SoundChannels.SquareChannel.WriteEnvelope` | crates/apu-shared/src/channels.rs:130-136 | a silent envelope switches the DAC and the channel off |
| `SoundChannels.SquareChannel.WriteSweep` | crates/system-gb/src/apu.rs:244-399 | the sweep register, leaving negate mode switching the channel off where it should |
| `SoundChannels.SquareChannel.WriteDutyLength` | crates/system-gb/src/apu.rs:244-399 | duty and length from one register |
| `SoundChannels.SquareChannel.WriteFrequencyLow` | crates/system-gb/src/apu.rs:244-399 | the low eight bits of the frequency, the rest kept |
| `SoundChannels.SquareChannel.WriteFrequencyHigh` | crates/system-gb/src/apu.rs:244-399 | the upper three bits, the rest kept |
| `SoundChannels.SquareChannel.Output` | crates/apu-shared/src/channels.rs:117-122 | the duty pattern at its step times the volume, silent with channel or DAC off |
| `SoundChannels.FrequencyIsWritten` | crates/system-gb/src/apu.rs:244-399 | the two frequency registers, written in either order, set the whole field to low + 256 * (high mod 8), whatever was there |
| `SoundChannels.DutyLengthIsWritten` | crates/system-gb/src/apu.rs:244-399 | the duty is the top two bits of its register, and the length counter runs out after 64 less the low six |
| `SoundChannels.DutyCycles` | crates/apu-shared/src/channels.rs:6-16 | the four duty cycles are high for 1, 2, 4 and 6 of 8 steps, and the last is the second inverted, as documented |
| `SoundChannels.RunsStayInField` | crates/system-gb/src/apu.rs:290-312 | over any run of register writes, triggers and clocks the frequency stays within 2047, so that every period is at least four and the tick loop terminates |
| `SoundChannels.SquareTicksCompose` | crates/apu-shared/src/channels.rs:69-75 | two ticks are one of the sum |
| `SoundChannels.WholeWaveform` | crates/apu-shared/src/channels.rs:69-75 | eight periods bring the channel back to exactly the same point of its waveform |
| `SoundChannels.RisingNoteEnds` | crates/apu-shared/src/channels.rs:78-113 | the bound on rising sweeps for the channel itself |
| `NoiseSound.NoiseChannel.Tick` | crates/apu-shared/src/channels.rs:452-471 | the timer loop terminates and shifts the register once a reload |
| `NoiseSound.NoiseChannel.Trigger` | crates/apu-shared/src/channels.rs:473-480 | register and timer restarted |
| `NoiseSound.NoisePeriodInNumbers` | crates/apu-shared/src/channels.rs:430-456 | a noise step takes 8 cycles for divisor code 0 and 16 times the code otherwise, doubled for each unit of the shift up to 15 |
| `NoiseSound.NoiseTicksCompose` | crates/apu-shared/src/channels.rs:452-458 | two ticks are one of the sum |
| `NoiseSound.LongModeNeverLocks` | crates/apu-shared/src/channels.rs:464-471 | in long mode a non-zero register never becomes zero |
| `NoiseSound.ShortModeIsSevenBits` | crates/apu-shared/src/channels.rs:464-471 | in short mode the low seven bits evolve on their own |
| `NoiseSound.ShortModePeriod` | crates/apu-shared/src/channels.rs:464-471 | and repeat every 127 shifts and no sooner, from every state whose low seven bits are not all zero |
| `NoiseSound.ShortModeLocksWhen` | crates/apu-shared/src/channels.rs:464-471 | they are zero after any number of shifts exactly if they were |
| `NoiseSound.SwitchingCanLock` | crates/apu-shared/src/channels.rs:464-471 | fifteen shifts of long mode from the trigger reach such a state, so that switching modes then freezes the output |
| `NoisePeriods.LongModePeriod` | crates/apu-shared/src/channels.rs:464-471 | in long mode every non-empty register is back after 32767 shifts and no sooner |
| `NoiseSound.NoiseChannel.Output` | crates/apu-shared/src/channels.rs:494-503 | the envelope volume when the low bit is clear and the channel and its DAC are on, else silence |
| `SoundUnits.Envelope.WriteRegister` | crates/apu-shared/src/lib.rs:75-79 | volume, direction and period of the register |
| `SoundUnits.Envelope.Trigger` | crates/apu-shared/src/lib.rs:94-97 | volume and timer reloaded |
| `SoundUnits.LengthCounter.WriteLength` | crates/apu-shared/src/lib.rs:163-165 | the counter is the maximum less the value written |
| `SoundUnits.LengthCounter.Trigger` | crates/apu-shared/src/lib.rs:178-182 | an expired counter is reloaded, another left alone |
| `SoundUnits.Sweep.Calculate` | crates/apu-shared/src/lib.rs:263-278 | the next frequency, remembering that a decreasing one was calculated |
| `TightlyCoupled.Tcm.constructor` | crates/cpu-arm946e/src/tcm.rs:34-42 | zeroed, disabled and unmapped |
| `Sm83Core.Sm83.BusRead` | crates/cpu-sm83/src/lib.rs:371-375 | time first, then the access |
| `Sm83Core.Sm83.BusWrite` | crates/cpu-sm83/src/lib.rs:378-382 | time first, then the access |
| `Sm83Core.Sm83.Fetch16` | crates/cpu-sm83/src/lib.rs:422-426 | low byte first, PC wrapping |
| `Sm83Core.Sm83.ReadR` | crates/cpu-sm83/src/exec.rs:22-33 | the eight operands, one access for memory |
| `Sm83Core.Sm83.WriteR` | crates/cpu-sm83/src/exec.rs:36-47 | one operand changes and no other |
| `Sm83Core.Sm83.Rotate` | crates/cpu-sm83/src/exec.rs:192-255 | the eight rotates and shifts, Z from the result |
| `Mbc3Clock.Mbc3Rtc.constructor` | crates/cart-common/src/rtc.rs:56-91 | a new clock is in range |
| `GbaClock.GbaGpioRtc.constructor` | crates/cart-common/src/rtc.rs:364-366 | a new clock holds a valid date |
| `MockSystems.TinyCpu.Fetch16` | crates/core-common/src/mock_system.rs:208-212 | low byte first, each read remembered by the bus |
| `Scheduling.Scheduler.constructor` | crates/core-common/src/scheduler.rs:116-121 | nothing is pending |

## Left out

- Scheduling: the sequence counter and clocks are unbounded where the source has 64 bits; a run long enough to wrap them is not modelled. The handle that stands for no event is outside the modelled handles.
- Scheduling: the binary heap of the standard library is modelled as the textbook sift-up and sift-down over a sequence.
- MockSystems: pixels are one shade per row, and an audio sample is the accumulator it is made from; float conversion, framebuffer colours, battery-file loading and the system's own save state are not modelled.
- FramePipe: each channel operation is one atomic step; the memory ordering inside the channel library is not modelled. The frame's pixel buffer is one sequence of bytes, and its reallocation on a size change is not modelled.
- FramePipe.Pipe.Poll: states the effect of a poll that no publish interleaves; the interleaved case is covered by `PipeIsSafe`. A poll has no bound of its own while frames keep arriving.
- Resampling: samples and positions are real numbers, so the rounding of the source's floating point is not modelled; the loop therefore cannot drift here, and in the source does so only by rounding.
- Resampling: the audio ring between producer and consumer, with its drop and underrun counters, is not modelled.
- ArmMemory: the bus is plain little-endian memory, words aligned by the access; wait states, open bus and device side effects are not modelled, and bytes never written read as zero.
- Arm7: the register file and status register are values inside the core object, as the source's are inside its struct; the ARMv5 extensions, coprocessor registers, the debugger's view, disassembly and save states are not modelled.
- ArmExceptions.UnwindingRestores: handlers do any work on registers other than the link registers and statuses they return through; handlers that run arbitrary instructions are not modelled.
- ArmBlock.StoreThenLoadRestores: does not cover a list that names its own base or R15, for which the pair does not restore the base.
- Sm83Core: memory is a plain map and the interrupt registers are two of its bytes; devices that react to a tick or a write during an instruction, and writes the memory map would ignore, are not modelled.
- Sm83Core: `clear_stop`, the boot-state presets, disassembly and save states are not modelled.
- FlashChip, EepromChip: the save-state formats are not modelled; SRAM is left out because it has no protocol.
- EepromChip.SessionRefinesStore: requires a capacity of a whole number of blocks, as every capacity in use is; `Eeprom.WriteByte` and `Eeprom.ReadByte` are stated for all.
- Mbc3Clock, GbaClock: the accumulators are unbounded; the save-state formats and the GPIO pin protocol in front of the GBA clock are not modelled.
- TightlyCoupled: the memories behind the bus are an oracle that sees the exact sequence of accesses; the coprocessor registers that configure the memories and the ARM946E-S's own instructions are not modelled.
- TightlyCoupled.WordReadsBack: requires a memory whose size is a whole number of words, as both are.
- SoundUnits, SoundChannels: timers are unbounded, so one tick of more cycles than a signed 32-bit timer holds is not modelled; the digital-to-analogue output, the mixer and the length quirks of the trigger registers are not modelled.
- SoundChannels: the wave channel is not modelled.
- Everything outside the core: windowing, audio devices, the game library, configuration, logging and the build tool.
