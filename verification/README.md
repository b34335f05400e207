# LECERF: a verified model of the Cortex-M emulator's fast paths

LECERF interprets ARMv7-M firmware and has several fast or clever layers beside the
interpreter: a compiler from decoded blocks to x86-64 bytes, a block cache with chained
dispatch, a decode cache, batched timers, and time travel by snapshot and replay. Each of
them promises to give what the plain interpreter gives. This project models the layers and
the interpreter in Dafny and proves those promises, with the exact condition where one is
conditional.

How the pieces fit:

- `Words`, `Cpu`, `Insn`, `Bus`, `Nvic`, `Executor`: machine words, register file and flag
  setters, decoded instructions, the memory map, exception entry and return, one step of the
  interpreter.
- `Asm`, `X86`, `Codegen`, `Emitter`: the instructions the generator emits as bytes, an x86
  machine that decodes and runs bytes, the code of every emitter in continuation style, and
  the code buffer the emitters append to in place.
- `NativeRun` to `NativeRefines`, `Layout`, `Reservation`: emitted bytes against the interpreter,
  jump displacements, the space reservation.
- `NativeForms`, `NativeLimits`: the instruction forms on which generator and interpreter agree, and
  the proof that they are all of them.
- `SysTick`, `Arbitration`, `RunLoop`, `Machine`, `Activity`: timer, interrupt lines, the run
  loop without translator, the interpreter on a whole board, single activity.
- `Jit`, `Translator`, `Translated`, `Thunks`: the block cache, the run loop with translator,
  the laws of the interpreter they need, and the emulator with real emitted code.
- `Snapshot`, `Replay`, `Reinjection`, `TimeTravel`: checksum, save and restore, `run_until_cycle`,
  events injected a second time, the event log, the snapshot index, rewind.
- `ContextSwitch`, `Threads`, `Rtos`: the firmware's PendSV switch executed by the interpreter,
  threads over whole runs, scheduler, sleeping and semaphores.
- `EchoReply`: the loopback Ethernet device's ICMP reply.

Words are integers in range, so wrap-around is written out; memory is a sequence of flat
regions, the first match wins. The host's helper functions, the x86 flags that instructions
leave undefined, clobbered registers and the bytes around a thunk are parameters that may be
anything.

## Model

| member | source | states |
|---|---|---|
| NativeRefines.NativeRefinesInterpreter | src/core/codegen.c:1369-1390 | Running the emitted bytes of any accepted block of `NativeForm` instructions, whatever follows them in the buffer, returns true exactly when folding the interpreter over the block meets no fault, and then leaves every register, flag and byte of memory as the fold does, cycle counter excepted; on a fault it returns false with the core halted; the caller's saved registers and stack come back and read-only memory is untouched either way |
| NativeBlock.ExecBlock | src/core/codegen.c:265-315 | The same for the described code: prologue, operations, PC store and both exits |
| NativeOps.RunOp | src/core/codegen.c:1084-1319 | Every supported instruction in every form the generator takes: its emitted code leaves exactly the guest and memory that one function describes, or sets the fault register and goes on |
| NativeForms.SimOp | src/core/codegen.c:1084-1319 | For instructions of `NativeForm`, from every state, one emitted operation has the effect of one interpreted instruction, or sets the fault register exactly when that one faults |
| NativeLimits.FormIsExact | src/core/codegen.c:1350-1367 | Among the instructions the decoder produces and the generator accepts, those of `NativeForm` are exactly the ones whose emitted code simulates the interpreter from every state, the stale PC of a block's inner instructions included |
| NativeLimits.DataRefuted | src/core/codegen.c:1214-1225 | Every data operation of another form has registers from which the two leave different registers or flags: shifted CMP and CMN, R15 as an operand other than compared with itself, a move to or from R15, a move that names the flags |
| NativeLimits.MemoryRefuted | src/core/codegen.c:1284-1293 | Every load or store of another form has registers and a memory on which one side faults and the other does not, or the memories differ: scaled offsets, literals below the instruction, LDRD into its own base, R15 in the address or stored |
| NativeLimits.MultiRefuted | src/core/codegen.c:764-995 | The same for LDM and STM: base R15, and a load of its own base that is written back or not last |
| NativeLimits.BranchRefuted | src/core/codegen.c:1036-1082 | The same for the Thumb-2 branch with condition 14, always taken by native code and never by the interpreter |
| NativeRun.RunIsExec | src/core/codegen.c:18-25 | Decoding and stepping through the bytes is executing the described instructions: no jump lands inside an instruction and none leaves the code |
| Asm.DecodeEmitted | src/core/codegen.c:18-205 | Every byte sequence a helper emits is decoded by the x86 machine as the instruction the helper names, and no more of the stream is consumed |
| NativeFlags.RunNzcv | src/core/codegen.c:205-239 | The lahf/seto shuffle puts the host's sign, zero, carry (inverted after a subtraction) and overflow into the guest APSR, the other bits untouched |
| NativeBranch.RunBCond | src/core/codegen.c:1036-1082 | The emitted flag test of each of the fourteen conditions takes the branch exactly when the interpreter's condition passes |
| NativeMulti.PathsAgree | src/core/codegen.c:498-595 | For a transfer that lies inside SRAM, and does not overwrite its base before the last word, the inline path and the helper path end with the same guest, memory, stack and fault register |
| NativeMulti.RunMulti | src/core/codegen.c:764-995 | The whole transfer, base writeback included, is the register-by-register transfer, with a fault recorded exactly when one word faults, whichever path the bounds checks choose; a load that overwrites its own base before the last word reads the words after it from the loaded base, along the helper path |
| Layout.JumpsLand | src/core/codegen.c:498-995 | For every list and mode: the sizes computed before emission are the bytes emitted, both bounds checks reach the first slow-path instruction, the closing jump reaches the end, no short displacement exceeds 127 |
| Reservation.BlockSize | src/core/codegen.c:1372 | The exact byte count of a block as a sum over its instructions, and so the exact condition under which it fits the space the guard asked for |
| Reservation.ReservationSuffices | src/core/codegen.c:1369-1390 | A block without PUSH, POP, LDM or STM always fits |
| Reservation.TransferOutgrowsReservation | src/core/codegen.c:498-995 | A one-instruction block with a multi-register transfer does not fit exactly in the listed cases: with SRAM inlined from PUSH of two, POP of one, LDM or STM of two registers (or of one with most writebacks); without it one register later |
| Emitter.CodeBuffer.CodegenEmit | src/core/codegen.c:1369-1390 | Accepts exactly supported blocks with room by the guard's formula; refusal appends nothing; otherwise the block's code is appended, what was in the buffer stays, and all of the code is in the buffer exactly when the bytes left suffice |
| Emitter.CodeBuffer.EmitOp | src/core/codegen.c:1084-1319 | The in-place emitters append the described code of each operation, byte for byte |
| Cpu.AddFlagsMeaning | src/core/cpu.c:36-47 | The four flags after an addition are sign, zero, unsigned carry out and signed overflow, for all operands and carry in |
| Cpu.SubFlagsMeaning | src/core/cpu.c:61-68 | The same for a subtraction, carry meaning no borrow |
| Cpu.SubIsAddComplement | src/core/cpu.c:36-68 | Subtracting is adding the complement with carry, result and flags, which is what SBC relies on |
| Bus.WriteLaws | src/core/bus.c:39-65 | A write is read back, changes no other bytes, faults where a read of those bytes would or the region is read-only, and leaves map and read-only regions alone |
| Bus.WordsRoundTrip | src/core/nvic.c:96-139 | Words pushed in full are the words popped |
| ExceptionRoundTrip.EntryReturnIsIdentity | src/core/nvic.c:96-189 | Around any handler that keeps R4-R11, both stack pointers and the frame, entry and return restore the interrupted context if and only if it was in Thread mode, outside an IT block, at an even address, with no APSR bit below Q |
| ExceptionRoundTrip.ReturnKeepsExceptionNumber | src/core/nvic.c:120-189 | IPSR is not restored: the frame carries the new exception's number |
| Arbitration.BestIsBest | src/core/nvic.c:52-64 | The chosen line is ready, has the least priority value below 0xFF and the least number among those; none is chosen exactly when there is none |
| Arbitration.Registers.Pick | src/core/nvic.c:52-64 | The scan over words and their lowest set bits finds that line, or -1 |
| Activity.ActivityInvariant | src/core/run.c:83-139 | Over every run without nested exceptions the active lines are exactly the one being handled |
| SysTick.TickAdds | src/periph/systick.c:35-56 | Ticking by a and then by b is ticking by a + b: counter, count flag and request |
| SysTick.ExpiriesAdd | src/periph/systick.c:35-56 | The number of expiries adds up over any split of the ticks |
| SysTick.OneExpiry | src/periph/systick.c:35-56 | A stretch no longer than the ticks left sees at most one expiry, and sees it exactly at its last tick |
| SysTick.Device.Tick | src/periph/systick.c:35-56 | The loop over whole periods computes the closed form |
| RunLoop.BatchLaw | src/core/run.c:83-139 | Running a + b steps is running a and then b: board, count, halts and interrupts taken |
| RunLoop.RunCount | src/core/run.c:83-139 | Never more steps than asked for, and fewer only when the core has halted |
| RunLoop.Runner.CacheDecode | src/core/run.c:41-52 | The decode cache never returns anything but what memory decodes to now |
| RunLoop.Runner.Steps | src/core/run.c:83-139 | The loop with its decode cache, over read-only code, is the reference run |
| RunLoop.BudgetSeesOneExpiry | src/core/run.c:63-77 | Within the budget SysTick, enabled, interrupting and not rewritten, expires at most once |
| Jit.Cache.Compile | src/core/jit.c:18-62 | A compiled block is the consecutive decodes from its address up to the first terminator or 32, it is what its slot finds, and coherence survives, generation flush included |
| Jit.Cache.Flush | src/core/jit.c:135-148 | After a flush nothing survives and the cache is coherent with any memory |
| Jit.Cache.RunBlock | src/core/jit.c:64-109 | On coherent cache and read-only straight code a block run without thunk is exactly as many sequential decode-and-execute steps; with faithful thunks it is so but for the cycle counter, or both halt; coherence is kept either way |
| Jit.Cache.RunChained | src/core/jit.c:111-128 | Chained dispatch never exceeds its step budget, and is sequential execution in the same sense over the whole chain |
| Jit.SequentialAdds | src/core/jit.c:64-109 | Sequential steps can be split anywhere |
| Translator.RunFull | src/core/run.c:83-139 | The loop with translator never exceeds its steps, stops short only when halted, and its board and count are those of sequential batches that each stay within the interrupt budget; when the last batch halts the core both have halted, and without thunks the board is still determined: what that batch leaves, or one more turn of the loop on it |
| Translator.EveryBatchSeesOneExpiry | src/core/run.c:63-106 | In such a run every batch that leaves SysTick alone sees it expire at most once between two looks at the interrupts |
| Translator.BatchedIsRun | src/core/run.c:83-139 | When no exception could have been taken inside a batch, the loop with translator is the loop without it, same board and count, same interrupts at the same instructions |
| Translator.BudgetedBatchIsRun | src/core/run.c:63-77 | A batch within its budget takes SysTick at the instruction where the plain loop does; only PendSV and external interrupts raised inside it can be late |
| Machine.InterpreterLawful | src/core/executor.c:74-1400 | No instruction of the interpreter changes read-only memory or the map, and one that fails leaves the core halted |
| Translated.StraightInterpreter | src/core/jit.c:25-36 | Every instruction that ends no block goes on at the next address, undefined ones and moves or additions to the PC excepted |
| Translated.InterpreterBlind | src/core/executor.c:74-1400 | No instruction's effect depends on the cycle counter |
| Translated.InterpreterHaltSticks | src/core/executor.c:74-1400 | No instruction restarts a halted core |
| Translated.InterpreterPaced | src/core/executor.c:1397-1399 | A turn of the loop advances the cycle counter by one or not at all |
| Translated.InterpreterBatchIsRun | src/core/run.c:63-106 | The translator's batches at the interpreter itself |
| Translated.InterpreterReplays | src/core/tt.c:225-238 | Replay at the interpreter itself |
| Translated.InterpreterRingAlone | src/core/executor.c:74-1400 | No instruction on flat memory reads or writes the receive ring, so for the interpreter the bytes decide |
| Thunks.CallAgrees | src/core/jit.c:83-87 | Calling a thunk, the bytes of the code buffer from its first one on, entered with processor and bus in the argument registers, is folding the interpreter over the block, whatever else the buffer holds |
| Thunks.Stock | src/core/jit.c:58 | Compiling one more block keeps every earlier thunk whole, and the new one is exactly when the generator refused it or all its bytes went into the buffer |
| Thunks.CompiledFaithful | src/core/jit.c:83-95 | Thunks whose code is whole in the buffer are faithful to sequential execution and keep read-only memory |
| Thunks.RunFirmware | src/core/run.c:83-139 | Run loop, block cache and code buffer together: whatever mix runs, board and count are those of decoding and executing one instruction after another in budgeted batches, cycle counter excepted, or both halt; for thunks the buffer holds whole |
| Snapshot.SnapXor32 | src/core/tt.c:105-112 | The two loops compute the exclusive-or of the zero-padded little-endian words, for every length |
| Snapshot.OneWordDetected | src/core/tt.c:105-112 | Any change confined to one aligned word changes the checksum |
| Snapshot.TamperingRejected | src/core/tt.c:141-148 | A blob altered within one aligned word, or in its checksum, is rejected |
| Snapshot.Restore | src/core/tt.c:141-173 | Restores everything and empties both caches, or changes nothing, and says exactly when; into a region smaller than the snapshot it copies past the end, and only the empty caches are promised |
| Snapshot.RestoreInvertsSave | src/core/tt.c:114-173 | Restoring a saved board gives that board back if and only if the memories differ in the saved part of SRAM only |
| Snapshot.SnapshotSurvivesRun | src/core/tt.c:114-173 | However the machine ran in between, when SRAM of the saved size is all it can write, its snapshot brings it back |
| Replay.RunUntil | src/core/run.c:248-267 | Terminates without overshooting; injects events in order, none before its stamp and exactly at it when the log is sorted; stops short of the target only after a batch without progress; the zero-gap exit is dead; on a run that advances with every instruction it is the one-instruction-at-a-time reference |
| Replay.RefIsOriginal | src/core/run.c:248-267 | The reference over the log a host recorded is the original run at the target, however the host batched it |
| TimeTravel.EventLog.Append | src/core/tt.c:24-40 | Appends one event, doubling the buffer, and refuses with nothing changed exactly when the log is full |
| TimeTravel.EventLog.Seek | src/core/tt.c:43-51 | On a sorted log, the first entry stamped at or after the cycle |
| TimeTravel.BsearchLe | src/core/tt.c:292-300 | The last entry not after the target, or -1 exactly when there is none |
| TimeTravel.Session.OnCycle | src/core/tt.c:269-285 | Takes a snapshot exactly when one is due and there is room, and keeps the index well formed: strides apart, entry k for snapshot k, within the maximum |
| TimeTravel.Session.Rewind | src/core/tt.c:302-318 | Fails, machine untouched, exactly when no snapshot is early enough; otherwise, for every run the log can be the recording of, the board is the one that run had when it first reached the target, as long as the events stamped at the snapshot's cycle and fed before it are harmless, and else the one with those injected twice |
| TimeTravel.Session.StepBack | src/core/tt.c:320-324 | The same relative to the current cycle; fails when that many have not passed |
| Reinjection.DueFirst | src/core/run.c:254-257 | Events already due are injected before anything runs: a replay over them and a rest is the replay of the rest from the board with all of them injected |
| Reinjection.HarmlessIs | src/core/tt.c:202-211 | Injecting events again leaves a board as it was if and only if every line they raise is pending and their bytes come full circle over what the ring held: a multiple of 256 of them, the last 64 equal to the 64 slots |
| Reinjection.ExactWhenHarmless | src/core/tt.c:225-238 | Whatever the firmware, run and target, replay with events of the snapshot's cycle injected again is the original run, if and only if those events are harmless in that sense |
| TimeTravel.ReplayIsTwice | src/core/tt.c:225-238 | The entry found by the seek is the first of those stamped at the snapshot's cycle, and what replay gives is the run from the snapshot with these injected once more |
| TimeTravel.RingDecidesReplay | src/core/tt.c:225-238 | For firmware that leaves the receive ring alone, with the lines raised again pending, the replayed board is the original one if and only if the bytes injected again go unnoticed behind those fed later |
| TimeTravel.ReplayIsOriginal | src/core/tt.c:225-238 | With harmless events only at the snapshot's cycle, replay from the entry found by the seek is the original run at the target |
| TimeTravel.AnySnapshotWillDo | src/core/tt.c:302-318 | Which snapshot of a run is used makes no difference, unless the target is the snapshot's very cycle and input was fed at it before |
| TimeTravel.StampAtSnapshotReplaysTwice | src/core/tt.c:225-238 | A concrete input that is not harmless: a byte stamped at the snapshot's cycle but fed before it is one byte too many in the receive ring |
| ContextSwitch.SwitchResumes | firmware/test13_zephyr_lite/startup.s:82-98 | Exception entry, the thirteen handler instructions executed by the interpreter, and exception return store the running thread's sixteen words and resume the context found at the next thread's stack pointer |
| ContextSwitch.SavedIsOwn | src/core/nvic.c:96-189 | The words a thread saves stand for its own context exactly when it is at an even address, outside an IT block, with flags only in its APSR |
| ContextSwitch.StartsAtEntry | firmware/test13_zephyr_lite/zephyr_lite.c:17-40 | A created thread's frame resumes at its entry point with its argument in R0 and its stack empty |
| Threads.SwitchKeeps | firmware/test13_zephyr_lite/startup.s:82-98 | A switch succeeds, keeps every suspended thread's words and stack pointers in place, and resumes the chosen one |
| Threads.SuspendedWordsStay | firmware/test13_zephyr_lite/startup.s:82-98 | Over every run of switches, threads, kernel calls and handlers that leave the running-thread word and the other threads' stacks and stack pointers alone, a suspended thread's sixteen words do not change |
| Threads.ThreadResumesAsStopped | firmware/test13_zephyr_lite/startup.s:82-98 | Over every such run a thread resumes with the registers, stack pointer, PC and flags it was stopped with, if and only if it was stopped at an even address, outside an IT block, with only flags in its APSR |
| Rtos.Kernel.PickNext | firmware/test13_zephyr_lite/zephyr_lite.c:42-53 | The ready thread nearest after the current one, cyclically; the first when none is ready |
| Rtos.PickedOnce | firmware/test13_zephyr_lite/zephyr_lite.c:42-53 | That choice is unique |
| Rtos.RoundRobinIsFair | firmware/test13_zephyr_lite/zephyr_lite.c:42-58 | A thread that stays ready runs within as many switches as there are threads |
| Rtos.SleepIsExact | firmware/test13_zephyr_lite/zephyr_lite.c:62-110 | A sleep of t ticks ends on exactly the max(1, t)-th tick |
| Rtos.Kernel.Tick | firmware/test13_zephyr_lite/zephyr_lite.c:101-110 | Every sleeping thread counts down once, no other changes, and the next one is chosen |
| Rtos.CallsConserveUnits | firmware/test13_zephyr_lite/zephyr_lite.c:73-99 | Over any sequence of the kernel's calls, takes, gives, sleeps, ticks and switches, each semaphore's count stays within bounds, and every unit given was taken once, is still there, or met a full semaphore |
| Rtos.UnitsAreConserved | firmware/test13_zephyr_lite/zephyr_lite.c:73-99 | The same over any order of takes and gives of one semaphore |
| Rtos.Kernel.TryTake | firmware/test13_zephyr_lite/zephyr_lite.c:73-83 | A unit is taken exactly when there is one; otherwise the running thread blocks on it and another is chosen |
| Rtos.Kernel.SemGive | firmware/test13_zephyr_lite/zephyr_lite.c:85-99 | One unit unless full, and exactly the first thread waiting for it becomes ready |
| EchoReply.Send | src/periph/eth.c:8-42 | A long enough frame is answered with its reply at the destination, at most 1600 bytes; a shorter one is copied byte by byte |
| EchoReply.MakeReply | src/periph/eth.c:24-39 | In place: addresses exchanged, type zero, a valid checksum, nothing else changed |
| EchoReply.ReplyToReply | src/periph/eth.c:24-39 | Replying to a reply restores every header field but the type, with a valid checksum |
| EchoReply.Checksum | src/periph/eth.c:34-37 | The sum fits 32 bits, the folding loop ends, and the result is the complement of the folded sum |
| EchoReply.ComplementFolds | src/periph/eth.c:34-39 | With that complement added the words fold to all ones, as section 1 of RFC 1071 asks |
| EchoReply.PutGet | src/periph/eth.c:41 | Bytes written to writable memory are the bytes found there |

## Left out

- NativeRefines.NativeRefinesInterpreter: restricted to `NativeForm`, which the generator's own acceptance test does not check; `NativeLimits.FormIsExact` proves the restriction exact, instruction by instruction. `NativeLimits.Decoded` lists what is used of the decoder: POP of SP, BL of two bytes, sixteen-bit conditions from 14 and a few others are never decoded. A register move that names the flags is kept among the failing forms, because src/core/decoder.c:8-11 leaves `set_flags` unwritten there and src/core/jit.c:49-50 decodes into an uninitialised local. The failing states given for loads of their own base run code without an inlined SRAM region.
- Thunks.RunFirmware: `NativeForm` code in read-only memory, no thunk entered inside an IT block, where the emitted code ignores the conditions, and no thunk cut off at the end of the buffer, which `Thunks.Stock` says when to expect.
- Translator.RunFull: a chain whose first instruction fails falls through to the interpreter in the source, which then executes once more on the halted core; the model does the same. Where thunks are used the board of a run that ends halted is not promised, as a failed thunk leaves later instructions of its block executed.
- RunLoop.Runner.Steps: the debugger's loop and the legacy wrappers around the same loop are not modelled.
- Replay.RefIsOriginal: byte and interrupt events only; recorded Ethernet frames live in a side table reached through a global.
- TimeTravel.Session.Rewind: without translator, as emitted code does not advance the cycle counter that replay runs by.
- Snapshot.Restore: what lies behind a region smaller than the snapshot is not modelled, so nothing is said of the board then.
- Snapshot.Save: the layout of the blob's bytes is a parameter; MPU, STM32, Ethernet state and the file functions are not part of this model.
- Threads.ThreadResumesAsStopped: the running thread, kernel calls and handlers are trusted not to store to the other threads' stacks and stack pointers or to the running-thread word; SVC start-up is not modelled.
- Rtos.Kernel.TryTake: interrupts are taken between calls, not inside them; a thread control block registered twice is not modelled.
- Activity.ActivityInvariant: nested exceptions (SVC, faults inside handlers, returns to Handler mode) are excluded by `CalmRun`.
- Decoding tables: the decoder is any function of the address and its two halfwords.
- Opcodes not listed in `Insn.Op` (shifts, BIC, MVN, multiply and divide, extensions, register-offset byte and halfword accesses, bit fields, table branches, floating point), none of which the code generator takes.
- Memory-mapped registers: instructions reach flat memory only, so writes that reprogram SysTick or the interrupt controller are changes an arbitrary `Env` may make.
- The 64-bit cycle counter and step counts do not wrap in the model.
- Executable memory allocation, Win64 stack alignment, statistics counters, tracing, the debugger, sockets and command-line tools.
