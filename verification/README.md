# A verified model of the debugger

The repository is a debugger for macOS. This project models its state machines and
algorithms and proves what they promise. It verifies with `dafny verify dfyconfig.toml`.

## What is modelled

**The breakpoint engine on x86_64** (`Machine`, `Overlay`, `Disasm`, `Engine`,
`Transparency`, `Stops`, `Session`, `Passes`, `Commands`, `NoPanic`, `Fair`, `Solo`,
`Reports`, `SoloPasses`, `Stepping`, `SoloStepping`, `Debugger`; `Defects`, `Witnesses` and `Walkthrough` hold concrete sessions).
A target is memory, threads with registers, and an instruction set given by functions that see
only the bytes of the current instruction, the registers and the memory it loads. `Engine` is
the debugger as functions on its state, error exits included: `int3` patches and saved bytes,
the PC-only test for "this thread has just trapped", the rewind, the disarm / temporary
breakpoint / re-arm dance, `step`, `cont`, `finish`. `DebuggerObject` is the same code as
classes with fields updated in place; every method is proved to be its `Engine` function. The
scheduler, the kernel's thread listing and the stop event are parameters (`Env`), so a statement
about all `Env` is one about all schedules. The central results:

* while the target lives, no sequence of commands, schedules and stops whatsoever makes the
  `expect` on a missing breakpoint fail (`NoPanic.NeverPanics`, without side conditions);
* over any session that meets the conditions below, any number of threads and any schedule,
  the invariant `Consistent` holds (patches at exactly the armed addresses, the saved bytes
  are the originals, `at_breakpoint` is armed and current), and what the user sees
  (registers and un-patched memory) is a run of the unpatched program
  (`Commands.SessionTransparent`, `Fair.FairSessionTransparent`);
* for one thread, `step` is exactly one instruction and `cont` stops in exactly the first
  state it should (`Solo.StepIExact`, `Solo.ContExact`), `finish` in the first state at the
  return address or another breakpoint (`Reports.FinishExact`), and `step_line` and
  `soft_watch_cont` stop at the first instruction they should within their bounds;
* for any number of threads, what `step`, `cont` and `finish` report at a stop: the selected
  thread, the recorded breakpoint, the signal and the PC, and when they fail
  (`Reports.StepSays`, `ContSays`, `FinishReports`).

The side conditions of transparency: the user arms no address twice, writes over no armed
byte and selects no other thread between a hit and the resume; instructions that are executed
keep away from patched bytes (`CleanRun`); the thread listing is complete; and at a stop a
thread stands one past a breakpoint exactly if it has trapped there (`PcTellsTruth`, which is
about state the kernel hides). The last one follows, at a SIGTRAP stop, if no thread of the
unpatched program has stopped one past a breakpoint (`Stops.TruthFromProgram`), and
`FairSessionTransparent` asks only for that; with no breakpoint one past another it is also
necessary (`Stops.StopIsTrueIff`).

**Hardware slots on ARM64** (`DebugRegs`, `HwSlots`, `HwAgreement`, `HwRuns`, `HwStops`,
`HwSessions`, `HwDebugger`, concrete sessions in `HwWitnesses`) and the four watchpoint slots on x86_64
(`X86Watches`). Every thread's debug registers equal what the two slot tables call for after any
sequence of commands, with threads appearing and disappearing at every stop; and at every stop
the first thread that stands on a breakpoint is selected, recorded and reported
(`HwStops.ContSees`). Below that, DR7, BCR and WVR/WCR bit by bit.

**The leak tracker** (`LeakTracker`, `LeakHeap`, `LeakSession`, `LeakCalls`, `LeakRuns`,
`LeakSolo`, `LeakCommands`, `LeakBalance`; concrete runs in `LeakWalkthrough`, `LeakWitness`,
`LeakMissed` and `LeakStub`). The program's calls and returns are read off the instructions it
executes (`LeakCalls.Observe`: executing the instruction at an entry point is a call, executing
the one at the return address of a call in flight is its return). For any number of threads and
any schedule, the program makes exactly the noted event during the `cont` after a handled stop
if and only if, in the resume that has the stop's breakpoint out, the first instruction executed
at the stop is the noted event and no later one there is an event; and the calls made from a
stop at an entry point are the executions of that entry point in that resume: none, and the stop
is repeated; one; or more, and calls are missed (`LeakRuns.CarriedIff`). Over a whole run that
gives the balance of calls made and calls counted (`LeakBalance.CallsBalance`). For one thread
the condition at a stop is that the thread, once it has left the stop, reaches a temporary or
another breakpoint before it is back there (`LeakSolo.CarriedOnceIff`); a run without repeated
stops misses no call if and only if this holds at each entry point (`LeakSolo.MissesNoneIff`),
and where it holds at every stop the tracker's tables are those of the heap made by the calls
and returns executed (`LeakSolo.OneThreadCalls`). It always holds if the instruction at the stop
leads to a candidate other than itself (`LeakSolo.SteppableLeavesStop`); but the entry points of
the tracker are import stubs (`src/main.rs:1663-1666`), which are indirect jumps and do not.
Enabling the tracker, any session, and disabling it leave the user's own breakpoints
(`LeakCommands.TrackerLeavesNoTrace`).

**Expressions** (`ExprAst`, `ExprLexer`, `ExprGrammar`, `ExprEval`, over `Bits`), **DWARF
lookups** (`Scopes`, `ScopeTies`, `Lines`, `Leb128`), **stack frames** (`Frames`) and **stub
addresses** (`Stubs`).

## Where the code does not meet a promise

For each: the lemma with the exact condition under which the promise holds, then a lemma with
an input for which it does not.

* Setting a breakpoint twice saves `int3` as the original byte (`SetTwiceExactIff`;
  `Witnesses.SetTwiceShowsPatch`), and on ARM64 takes a second slot (`SetNeatIff`;
  `HwWitnesses.SetTwiceTakesTwo`).
* `write_memory` over an armed byte is lost or destroys the patch (`WriteExactIff`;
  `Witnesses.WriteIsLost`).
* The trap test looks only at PC and signal: a bystander one past an armed one-byte instruction
  is moved back, and a thread that has trapped while the stop carries another signal is not
  (`StopIsExactIff`, `StopIsTrueIff`; `BystanderIsRewound`, `Witnesses.InterruptedNotRewound`).
* Selecting another thread between a hit and the resume moves that thread's PC
  (`ForcePcExactIff`; `Witnesses.SelectedIsMoved`).
* An instruction that may jump to itself, or a breakpoint at the PC that was not recorded as
  a stop, makes `step` execute nothing (`Stalls` in `StepIExact`; `Witnesses.LoopsNowhere`,
  `Witnesses.StepsNowhere`).
* An indirect branch or `ret` leads to none of the candidates unless it goes to the next
  instruction (`SuccessorIsCandidateIff`).
* If the target ends during a step-over, the caller gets an error instead of the exit status
  and the breakpoint is gone (`StepOverTransparent`; `Witnesses.ExitIsAnError`).
* The `expect` of `cont` fails exactly if the recorded breakpoint is not in the table
  (`PanicsIff`). While the target lives that does not happen (`NeverPanics`), but after an end by
  a signal it does, in two ways. `finish` stopped at a breakpoint, whose next instruction leads
  to the return address, leaves `at_breakpoint` dangling (`AbortsAfterKillIff`;
  `Witnesses.ContAborts`). And deleting a breakpoint that a `cont` had landed on in its
  step-over removes the entry, fails on the memory, and keeps the record
  (`AbortsAfterDeleteIff`, `AbortsAfterKillDeleteIff`; `Witnesses.DeleteAborts`). The command
  loop leaves on an exit (`src/main.rs:1346-1349`), so only an end by a signal gets that far.
* With several threads a stop at an allocator entry may be reported again before the thread
  has moved, and the tracker counts one call twice; at a return address it then takes another
  call's entry (`CarriedIff`, `NotRunRepeats`; `LeakWitness.CountedTwice`).
* While a thread is stepped over a breakpoint the patch is out until some armed address is
  reached (`src/debugger.rs:306`, `1013-1031`), and any thread may pass it without a stop, but
  no other breakpoint (`PassesOnlyAtStop`). Another thread does so when it gets turns meanwhile
  (`LeakMissed.PassedUnseen`). The stepped thread itself does so when it is back at the
  breakpoint before it reaches a temporary or another breakpoint (`PassedOnceIff`), which an
  indirect jump or a `ret` makes possible because its target is no candidate
  (`LeakStub.PassedTwice`).
* At an allocator entry the leak tracker misses such calls, of another thread (`CarriedIff`,
  `CallsBalance`; `LeakMissed.CallMissed`) and of the one thread alone: the entry points are
  import stubs, so of two calls to `free` in a row, with no breakpoint reached in between, the
  second is missed and its block stays in the leak list (`CarriedOnceIff`, `MissesNoneIff`;
  `LeakStub.FreeMissed`).
* A failed `realloc` hides a block from the leak list (`LiveIsExactIff`;
  `FailedReallocHides`), and sizes of overlapping calls with one return address may be swapped
  (`SizesAreExact`, `RequestsAreConserved`).
* On ARM64 `finish` out of a recursive call, stopped at the call itself, leaks a slot
  (`FinishRestoresIff`; `HwWitnesses.FinishLeaksSlot`); a step-over does not disarm an address
  that another slot also holds (`StepOverDisarmsIff`; `HwWitnesses.StepOverStillArmed`).
* A watchpoint that crosses an 8-byte boundary watches only its first part
  (`WatchesAllIff`; `HwWitnesses.CrossingIsCut`).
* A block with the same range as its function, or another scope around it with that range,
  loses a variable declared there earlier (`FlatIsLexicalIff`; `EqualRangesHideTheInner`).
* The prologue-end row is to be preferred (`src/symbols.rs:310-313`) but counts only at the
  entry; otherwise the next row is taken, marked or not (`FlagHonouredIff`; `FlagPassedOver`).
* At `ret` the guessed return address is the caller's (`ReturnAddressAtRet`; `GuessAtRet`).
* A number literal that does not fit 64 bits silently becomes zero (`LiteralExactIff`;
  `FirstTooBig`).
* The comments at `src/register.rs:496-499` put the R/W and LEN fields of DR7 one bit too
  high; the code is right and is what the model follows.

## Model

| member | source | states |
|---|---|---|
| Overlay.TrapIsInvisible | src/debugger.rs:881-892 | a turn in which a thread runs into a patch leaves the unpatched target as it was |
| Overlay.MoveIsTrue | src/breakpoint.rs:54-62 | any other turn is the same turn of the unpatched program, and keeps every patch in place |
| Overlay.RunSimulates | src/breakpoint.rs:54-82 | a whole patched run is the unpatched run of the turns that executed an instruction |
| Disasm.TargetsAreSuccessors | src/disasm.rs:42-73 | if the report names the flow of the instruction (`jmp` and `call` jump, any other name in `j` or `loop` may, everything else is sequential), the candidates are exactly the places the instruction may go |
| Disasm.SomeTargets | src/disasm.rs:52-72 | the candidates of nine concrete instructions, conditional, unconditional, indirect and sequential |
| Disasm.NothingDecoded | src/disasm.rs:43-48 | one byte on when nothing is decoded or no length is reported |
| Disasm.SuccessorIsCandidateIff | src/disasm.rs:31-41 | with a decoder that agrees with the instruction set, executing the instruction leads to a candidate exactly when its flow is direct or it goes to the next instruction |
| DebuggerObject.Breakpoint.Enable | src/breakpoint.rs:54-62 | saves the byte at the address and patches it, once; on failure nothing changes |
| DebuggerObject.Breakpoint.Disable | src/breakpoint.rs:66-72 | puts the saved byte back and is then disabled; on failure stays enabled |
| DebuggerObject.Breakpoint.ReEnable | src/breakpoint.rs:77-82 | patches again, saving the byte found now |
| DebuggerObject.Debugger.SetBreakpoint | src/debugger.rs:567-573 | the new state and the error result are those of `Engine.SetBp`, whose meaning is `SetBpInvisible` and `SetTwiceExactIff` |
| DebuggerObject.Debugger.RemoveBreakpoint | src/debugger.rs:754-762 | `Engine.RemoveBp`, whose meaning is `RemoveBpInvisible` and `SetRemoveRoundTrip` |
| DebuggerObject.Debugger.ReadMemory | src/debugger.rs:816-829 | `Engine.ReadMem`: raw bytes with every armed byte in the range replaced, whatever the order the table yields |
| DebuggerObject.Debugger.WriteMemory | src/debugger.rs:809-811 | `Engine.WriteMem`, whose meaning is `WriteExactIff` and `WriteFailsIff` |
| DebuggerObject.Debugger.RefreshThreads | src/debugger.rs:163-190 | `Engine.Refresh`: the new listing, the selected thread kept by id, else the first |
| DebuggerObject.Debugger.Registers | src/debugger.rs:152-157 | the selected thread's registers, or an error without such a thread |
| DebuggerObject.Debugger.ContinueAndWait | src/debugger.rs:1039-1079 | runs the target and records the status; only a stop refreshes the threads |
| DebuggerObject.Debugger.RewindThread | src/debugger.rs:899-909 | one thread one past an enabled breakpoint is moved back onto it |
| DebuggerObject.Debugger.RewindTrapped | src/debugger.rs:898-912 | all such threads are moved back and the first of them is found |
| DebuggerObject.Debugger.HandleBreakpointHit | src/debugger.rs:893-922 | `Engine.Handle`: only on SIGTRAP, selects the first hit and reports its address; its meaning is `ContSays` and `StopIsExactIff` |
| DebuggerObject.Debugger.PlantTemporaries | src/debugger.rs:297-304 | temporary breakpoints only at candidates that are not armed, skipping failures |
| DebuggerObject.Debugger.RemoveTemporaries | src/debugger.rs:311-313 | removes exactly those, ignoring failures |
| DebuggerObject.Debugger.StepCurrentThread | src/debugger.rs:284-316 | `Engine.StepCurrent`, whose meaning is `StepCurrentTransparent` and `StepCurrentExact` |
| DebuggerObject.Debugger.TakeOut | src/debugger.rs:1014-1019 | takes the breakpoint out of the table and disarms it |
| DebuggerObject.Debugger.PutBack | src/debugger.rs:1030-1031 | re-arms it and puts it back |
| DebuggerObject.Debugger.StepAndPutBack | src/debugger.rs:1022-1032 | forces the PC, steps, re-arms; an error on the way leaves the breakpoint out |
| DebuggerObject.Debugger.StepOverBreakpoint | src/debugger.rs:1012-1033 | `Engine.StepOver`, whose meaning is `StepOverTransparent` and `StepOverExact` |
| DebuggerObject.Debugger.NoteLandingSite | src/debugger.rs:326-331 | a landing on an enabled breakpoint is recorded |
| DebuggerObject.Debugger.StepInstruction | src/debugger.rs:319-333 | `Engine.StepI`, whose meaning is `StepITransparent`, `StepIExact` and `StepSays` |
| DebuggerObject.Debugger.ContinueToStop | src/debugger.rs:343-348 | the second resume of `cont`, an error once the target is gone |
| DebuggerObject.Debugger.Continue | src/debugger.rs:336-349 | `Engine.Cont`, whose meaning is `ContTransparent`, `ContExact` and `ContSays` |
| DebuggerObject.Debugger.FindReturnAddress | src/debugger.rs:353-381 | `Engine.ReturnAddress`, whose meaning is `ReturnAddressIsTop` |
| DebuggerObject.Debugger.RunToAddress | src/debugger.rs:439-453 | `Engine.RunTo`, whose meaning is `RunToTransparent`, `RunToReports` and `FinishExact` |
| DebuggerObject.Debugger.FinishFunction | src/debugger.rs:431-453 | `Engine.Finish`: the return address found, then `RunTo`; its meaning is `FinishReports` |
| DebuggerObject.Debugger.SelectThread | src/debugger.rs:241-247 | selects an existing thread, else an error and no change |
| Transparency.SetBpInvisible | src/debugger.rs:567-573 | arming a new address changes nothing the user can see and succeeds exactly where memory can be reached |
| Transparency.SetTwiceExactIff | src/debugger.rs:567-573 | arming an armed address keeps the view exactly when the original byte is itself `int3` |
| Transparency.RemoveBpInvisible | src/debugger.rs:754-762 | removal succeeds, changes nothing visible, and restores the one byte |
| Transparency.SetRemoveRoundTrip | src/debugger.rs:736-762 | set then remove gives the whole session back, raw memory included |
| Transparency.ReadShowsView | src/debugger.rs:816-829 | every read equals the original slice |
| Transparency.WriteExactIff | src/debugger.rs:809-811 | a write is the write the user meant and keeps the table in order exactly when it changes no patched byte |
| Transparency.WriteFailsIff | src/mach.rs:437-470 | a write fails exactly when the target is gone or an address is not mapped, and then changes nothing |
| Stops.ThreadShownIff | src/debugger.rs:898-912 | one thread is shown where the program has it exactly when the PC test tells the truth about it |
| Stops.StopIsExactIff | src/debugger.rs:893-922 | the same for all threads at once |
| Stops.TruthFromProgram | src/debugger.rs:893-904 | the PC test is right whenever no thread of the unpatched program has stopped one past a breakpoint (nor at one, for another signal than SIGTRAP) |
| Stops.StopIsTrueIff | src/debugger.rs:893-922 | at a SIGTRAP stop with no breakpoint one past another, all threads are shown where the unpatched program has them exactly when no thread of the program has stopped one past a breakpoint |
| Stops.ParkedStays | src/debugger.rs:893-904 | a thread in front of a patch cannot get past it, whatever the schedule |
| Stops.StintTransparent | src/debugger.rs:343-346 | a resume and its stop show the unpatched run of the executed instructions |
| Stops.AtSurvives | src/debugger.rs:893-922 | `at_breakpoint` is still armed and current after a stop at which nobody hit a breakpoint |
| Stops.HitIsCurrent | src/debugger.rs:913-920 | a hit selects a thread that stands at the reported, armed address |
| Stops.StintConsistent | src/debugger.rs:893-922 | the invariant survives every resume that ends in a stop |
| Session.PlantInvisible | src/debugger.rs:297-304 | temporary breakpoints keep view and invariant, and are disjoint from the user's |
| Session.UnplantInvisible | src/debugger.rs:311-313 | removing them leaves exactly the other breakpoints and the same view |
| Session.StepCurrentTransparent | src/debugger.rs:284-316 | a single step leaves no temporary, keeps the table and shows a run of the program |
| Session.ForcePcExactIff | src/debugger.rs:1022-1026 | forcing the PC is invisible exactly when the selected thread stands at the breakpoint |
| Session.StepOverTransparent | src/debugger.rs:1012-1033 | a step-over keeps the armed addresses and shows a run of the program; an exit during it is an error that loses the breakpoint |
| Session.StepITransparent | src/debugger.rs:319-333 | `step` never aborts, keeps the invariant and the armed addresses, and shows a run of the program |
| Session.ContTransparent | src/debugger.rs:336-349 | `cont` never aborts, fails exactly when the target ends in the step-over, keeps the invariant, and shows a run of the program |
| Session.ContReportsEnd | src/debugger.rs:336-349 | when the target ends in the second resume, its exit code or signal is what `cont` returns |
| Session.RunToTransparent | src/debugger.rs:439-453 | `finish` leaves exactly the breakpoints that were there, and shows a run of the program |
| Passes.PassesOnlyAtStop | src/debugger.rs:336-349 | any number of threads: a `cont` executes no instruction at an armed address, except in its first resume at the breakpoint that is being stepped over |
| LeakMissed.PassedUnseen | src/debugger.rs:1012-1033 | a concrete `cont` in which the instruction at an armed breakpoint is executed by two threads and no stop there is reported |
| SoloPasses.PassedOnceIff | src/debugger.rs:284-349 | one thread, wherever its instruction leads: the breakpoint being stepped over is passed exactly once if and only if the thread reaches a temporary or another breakpoint before it is back |
| LeakStub.PassedTwice | src/disasm.rs:38-70 | a concrete `cont` from a breakpoint on an indirect jump in which the one thread executes that instruction twice and no stop there is reported |
| Commands.AttachConsistent | src/debugger.rs:120-148 | a session starts consistent |
| Commands.DoShows | src/debugger.rs:284-349 | each command keeps the invariant and the expected armed addresses, and shows the program's state |
| Commands.SessionTransparent | src/debugger.rs:284-349 | the same over any sequence of commands, threads and schedules that meets the conditions of each command: the final state shown is a run of the unpatched program |
| Fair.FairSessionTransparent | src/debugger.rs:284-349 | the same with conditions on the program alone: where its threads are when it stops, not whether the kernel holds them trapped |
| NoPanic.NeverPanics | src/debugger.rs:1012-1018 | over any sequence of commands, schedules and stops, with no condition on user or program, `at_breakpoint` names an armed entry while the target lives, and the "missing breakpoint" `expect` never fires |
| Solo.StintLenIsFirst | src/debugger.rs:336-349 | the turn a stint ends at is the first at a breakpoint, at the program's own trap or at the thread's end |
| Solo.StepCurrentExact | src/debugger.rs:284-316 | the raw single step executes exactly one instruction, or none when the PC itself is armed meanwhile |
| Solo.StepOverExact | src/debugger.rs:1012-1033 | the step-over executes exactly one instruction (none where it stalls) and re-arms |
| Solo.StepIExact | src/debugger.rs:319-333 | `step` executes exactly one instruction of the unpatched program except where it stalls, keeps the breakpoints, and sets `at_breakpoint` iff it lands on one |
| Solo.ContMainExact | src/debugger.rs:343-348 | the second resume stops in the first state at a breakpoint or past the program's own trap |
| Solo.ContExact | src/debugger.rs:336-349 | `cont` stops in the first such state after at least one instruction, landing of the step-over included, with the PC at the breakpoint |
| Reports.ContSays | src/debugger.rs:336-349 | any number of threads and any schedule, at the stop of `cont`: at a SIGTRAP the first listed thread one past an armed byte is selected and that byte recorded; with no such thread, or at another signal, the selected thread stays (the first one if it is gone) and the record too; reported are the signal of the stop and the PC the selected thread is shown at |
| Reports.StepSays | src/debugger.rs:319-333 | the same of `step`, with its temporary breakpoints armed; recorded is exactly a breakpoint the selected thread stands at |
| Reports.StepReportsEnd | src/debugger.rs:319-333 | when the target ends in a plain step its exit code or signal is what `step` returns, in a step-over it is an error |
| Reports.ContReports | src/debugger.rs:336-349 | `cont` is an error exactly when the target ends in the step-over, else a stop exactly when the target lives, with its signal and PC, or the end of the target |
| Reports.RunToReports | src/debugger.rs:439-453 | the same of `finish`, which is also an error when the return address is unmapped: the stop or end of its `cont` is what it returns |
| Reports.FinishReports | src/debugger.rs:431-453 | the same with the return address it finds itself |
| Reports.FinishExact | src/debugger.rs:439-453 | one thread: `finish` stops in the first state of the program's run at a breakpoint or at the return address, and reports that PC |
| Walkthrough.ContWalks | src/debugger.rs:336-349 | a concrete session meets the conditions of `ContExact` and goes from one breakpoint to the next |
| Walkthrough.FinishWalks | src/debugger.rs:439-453 | a concrete `finish` that plants its own breakpoint returns the stop at it |
| Defects.BystanderIsRewound | src/debugger.rs:902-904 | two threads and a one-byte armed instruction: a thread that never ran is moved back |
| Defects.PanicsAfterExitIff | src/debugger.rs:443-449 | any number of threads: after `finish` ended with the target, a later `cont` aborts exactly when the step-over had landed on the return address |
| Defects.AbortsAfterKillIff | src/debugger.rs:443-449 | one thread, target killed by a signal: a later `cont` aborts exactly when the next instruction of the program leads to the return address (and `step` does not stall there) |
| Defects.PanicsIff | src/debugger.rs:1012-1018 | in any state, `cont` aborts exactly when a breakpoint is recorded that is not in the table |
| Defects.DeadCont | src/debugger.rs:1012-1019 | with the target gone, `cont` from a recorded breakpoint is an error and takes the entry out of the table |
| Defects.AbortsAfterDeleteIff | src/debugger.rs:754-762 | after the end of the target, deleting an armed breakpoint fails, and the next `cont` aborts exactly when it was the one recorded |
| Defects.AbortsAfterKillDeleteIff | src/debugger.rs:336-349 | for one thread: `cont` from a breakpoint, the end by a signal and the deletion of a breakpoint make the next `cont` abort exactly when the next instruction of the program leads to that breakpoint |
| Witnesses.ContAborts | src/debugger.rs:443-449 | a concrete `finish`, kill and `cont` that abort |
| Witnesses.DeleteAborts | src/debugger.rs:754-762 | a concrete session: `cont`, killed by a signal, a breakpoint deleted, the next `cont` aborts |
| Witnesses.SetTwiceShowsPatch | src/debugger.rs:567-573 | a concrete second breakpoint at one address: memory reads show `int3` |
| Witnesses.WriteIsLost | src/debugger.rs:809-811 | a concrete write over a breakpoint that shows in no read and destroys the patch |
| Witnesses.StepsNowhere | src/debugger.rs:319-333 | a concrete breakpoint set at the PC: `step` executes nothing |
| Witnesses.LoopsNowhere | src/debugger.rs:297-304 | a concrete stop at an instruction that may jump to itself: `step` executes nothing |
| Witnesses.ExitIsAnError | src/debugger.rs:336-342 | a concrete exit during the step-over of `cont`: an error, and the breakpoint is gone |
| Witnesses.InterruptedNotRewound | src/debugger.rs:893-897 | a concrete stop by another signal: a thread that has trapped is shown past its breakpoint |
| Witnesses.SelectedIsMoved | src/debugger.rs:1022-1026 | a concrete selection after a hit: the step-over puts the other thread at the breakpoint |
| Stepping.StepLine | src/main.rs:428-453 | single-steps until the source line differs, the target ends or fails, or 100000 steps; all earlier states are on the first line |
| Stepping.CheckSoftWatches | src/main.rs:150-168 | reports the first watch whose cell changed and updates only its previous value |
| Stepping.WatchStep | src/main.rs:185-205 | one step and one check |
| Stepping.SoftWatchCont | src/main.rs:172-209 | stops at the first step after which a watched cell differs, a breakpoint is reached or the target ended, within 5000000 steps, with the first changed watch brought up to date |
| SoloStepping.StepsAreInstructions | src/main.rs:428-453 | n steps show the state after exactly n instructions of the unpatched program |
| SoloStepping.LineStopsFirst | src/main.rs:428-453 | so the stop is the first instruction of the program's run on another line |
| SoloStepping.ChangedIsTrue | src/main.rs:150-168 | a watch fires exactly when the cell differs in the unpatched memory |
| SoloStepping.WatchStopsFirst | src/main.rs:172-209 | so the stop is the first instruction of the program's run after which a cell differs or a breakpoint is reached |
| DebugRegs.BitOfSet | src/register.rs:493-512 | every bit of DR7 after a slot is set, by its position: L at 2s, R/W at 16+4s, LEN at 18+4s; zero in the rest of the slot, unchanged elsewhere |
| DebugRegs.BitOfClear | src/register.rs:515-521 | clearing zeroes exactly the slot's bits |
| DebugRegs.DecodeAfter | src/register.rs:493-521 | a set slot reads back its condition and length, a cleared one is off, the others read as before |
| DebugRegs.HistoryDecodes | src/mach.rs:665-702 | over any history of sets and clears DR0-DR3 and DR7 read exactly the slot table, and no bit outside the slots changes |
| DebugRegs.LengthsRead | src/register.rs:524-564 | LEN 00, 01, 11 and 10 are one, two, four and eight bytes, and condition and length are read back from their codes |
| DebugRegs.WatchedBytes | src/register.rs:456-470 | a WVR/WCR pair watches byte b iff it is one of the requested bytes and in the same aligned 8-byte group |
| DebugRegs.WatchesAllIff | src/register.rs:456-470 | it watches all requested bytes exactly when they do not cross an 8-byte boundary |
| DebugRegs.WatchedAccesses | src/register.rs:460-463 | stores are always watched, loads exactly unless the condition is write |
| X86Watches.ApplyReadsAs | src/mach.rs:665-702 | one slot function changes exactly one entry of what a thread's registers read |
| X86Watches.Debugger.ApplyToAll | src/debugger.rs:637-639 | the slot function reaches every thread |
| X86Watches.Debugger.SetWatchpoint | src/debugger.rs:614-642 | a watched address keeps its slot, a new one takes the first free slot, only a full table refuses; all threads agree with the table |
| X86Watches.Debugger.RemoveWatchpoint | src/debugger.rs:646-655 | frees exactly that slot in the table and in all threads |
| X86Watches.Debugger.Refresh | src/debugger.rs:163-193 | after any change of the thread set all threads agree with the table |
| X86Watches.Debugger.ApplyExisting | src/debugger.rs:211-218 | a new thread's registers read exactly the table |
| HwDebuggerObject.Kernel.EditSlot | src/mach.rs:350-394 | reads one thread's debug state, changes one slot, writes it back; fails when the thread is gone |
| HwDebuggerObject.HwDebugger.EditThreads | src/debugger.rs:560-562 | applies it thread by thread up to the first failure |
| HwDebuggerObject.HwDebugger.ClearQuietly | src/debugger.rs:485-487 | the same with failures skipped |
| HwDebuggerObject.HwDebugger.AllocSlot | src/debugger.rs:580-591 | claims the first free slot, refuses only a full table |
| HwDebuggerObject.HwDebugger.ReleaseSlot | src/debugger.rs:595-597 | frees the slot |
| HwDebuggerObject.HwDebugger.FindSlot | src/debugger.rs:601-603 | the first slot with the address |
| HwDebuggerObject.HwDebugger.SetBreakpoint | src/debugger.rs:555-565 | `HwSlots.SetBp`, whose meaning is `SetFits` |
| HwDebuggerObject.HwDebugger.RemoveBreakpoint | src/debugger.rs:736-751 | `HwSlots.RemoveBp`, whose meaning is `RemoveFits` |
| HwDebuggerObject.HwDebugger.SetWatchpoint | src/debugger.rs:675-704 | `HwSlots.SetWatch`, whose meaning is `SetWatchAgrees` |
| HwDebuggerObject.HwDebugger.RemoveWatchpoint | src/debugger.rs:708-717 | `HwSlots.RemoveWatch`, whose meaning is `RemoveWatchAgrees` |
| HwDebuggerObject.HwDebugger.ApplyBreakpoints | src/debugger.rs:195-200 | programs the occupied breakpoint slots into a thread |
| HwDebuggerObject.HwDebugger.ApplyExisting | src/debugger.rs:195-207 | and the occupied watchpoint slots; what that amounts to is `ApplyPrograms` |
| HwDebuggerObject.HwDebugger.Relist | src/debugger.rs:168-181 | the new list with each known thread's suspended flag; new threads get the slots |
| HwDebuggerObject.HwDebugger.RefreshThreads | src/debugger.rs:163-193 | `HwSlots.Refresh`, whose meaning is `RefreshKeeps` and `RefreshKeepsFlags` |
| HwDebuggerObject.HwDebugger.HandleBreakpointHit | src/debugger.rs:893-922 | `HwSlots.Handle`: selects the first thread standing on a breakpoint, nothing is rewound; its meaning is `ContSees` and `StepSees` |
| HwDebuggerObject.HwDebugger.StepCurrentThread | src/debugger.rs:284-316 | `HwSlots.StepCurrent`: one temporary breakpoint four bytes on |
| HwDebuggerObject.HwDebugger.StepOverBreakpoint | src/debugger.rs:992-1011 | `HwSlots.StepOver`, whose meaning is `StepOverAgrees` |
| HwDebuggerObject.HwDebugger.StepInstruction | src/debugger.rs:319-333 | `HwSlots.StepI`, whose meaning is `StepIAgrees` and `StepSees` |
| HwDebuggerObject.HwDebugger.Continue | src/debugger.rs:336-349 | `HwSlots.Cont`, whose meaning is `ContAgrees` and `ContSees` |
| HwDebuggerObject.HwDebugger.FinishWithHwBp | src/debugger.rs:459-494 | `HwSlots.Finish`, whose meaning is `FinishAgrees`, `FinishRestoresIff` and `FinishSees` |
| HwDebuggerObject.HwDebugger.SetSuspended | src/debugger.rs:251-272 | `HwSlots.SetSuspended`, whose meaning is `SuspendIs` |
| HwAgreement.EditProgrammed | src/mach.rs:350-394 | an edit turns the registers a table calls for into those the edited table calls for |
| HwAgreement.ApplyPrograms | src/debugger.rs:195-207 | a new thread with clear registers ends up with exactly those of the tables |
| HwAgreement.EditReachesAll | src/debugger.rs:560-562 | on a live session an edit succeeds and reaches every thread |
| HwAgreement.SetFits | src/debugger.rs:555-565 | setting takes the first free slot in table and threads alike; only an exhausted pool refuses |
| HwAgreement.RemoveFits | src/debugger.rs:736-751 | removing frees the first slot with the address in table and threads alike |
| HwAgreement.SetWatchAgrees | src/debugger.rs:675-704 | registers agree after setting a watchpoint; refused exactly when full of other addresses |
| HwAgreement.RemoveWatchAgrees | src/debugger.rs:708-717 | registers agree after removing one; an invalid slot is an error |
| HwAgreement.RefreshKeeps | src/debugger.rs:187-189 | a refresh keeps the selected thread by id |
| HwAgreement.RefreshKeepsFlags | src/debugger.rs:171-178 | and every surviving thread's suspended flag |
| HwAgreement.ResumeFits | src/debugger.rs:163-193 | agreement survives a stop with arbitrary threads gone and new |
| HwAgreement.BcrEnables | src/register.rs:442-447 | the breakpoint control value bit by bit: enabled, user mode, all four bytes of the instruction |
| HwRuns.TempRestoresIff | src/debugger.rs:297-313 | a temporary breakpoint leaves the slot table as it was exactly when no lower slot has its address |
| HwRuns.StepOverDisarmsIff | src/debugger.rs:995-1004 | the step-over disarms its address exactly when no other slot holds it |
| HwRuns.StepOverAgrees | src/debugger.rs:992-1011 | registers agree after a step-over, also for threads born during the step |
| HwRuns.StepIAgrees | src/debugger.rs:319-333 | registers agree after `step`; breakpoints and watchpoints unchanged |
| HwRuns.ContAgrees | src/debugger.rs:336-349 | registers agree after `cont`; breakpoints and watchpoints unchanged |
| HwRuns.FinishAgrees | src/debugger.rs:459-494 | registers agree after `finish`; it fails exactly when no slot is free |
| HwStops.ContSees | src/debugger.rs:336-349 | at the stop of `cont`, whatever the threads: at a SIGTRAP the first listed thread whose PC is a breakpoint is selected and its PC recorded; with no such thread, or at another signal, selection (the first thread if the selected one is gone) and record stay; reported are the signal and the selected thread's PC |
| HwStops.StepSees | src/debugger.rs:319-333 | the same of `step`, with its temporary breakpoint armed; recorded is exactly a breakpoint the selected thread stands at |
| HwStops.FinishSees | src/debugger.rs:459-494 | the same of `finish`, which is an error exactly when no slot is free or the target ends in its step-over; a stop at its own address records no breakpoint |
| HwStops.ContReportsEnd | src/debugger.rs:336-349 | when the target ends in the last resume of `cont`, its exit code or signal is returned |
| HwStops.StepReportsEnd | src/debugger.rs:319-342 | in a plain step it is returned, in a step-over it is an error |
| HwStops.FinishReportsEnd | src/debugger.rs:459-494 | and the same of `finish` |
| HwStops.AfterTheEnd | src/debugger.rs:555-717 | with the target gone setting and removing fail, except for an address no slot holds; the failed set keeps its slot, the failed removal its slot and entry |
| HwStops.EndedStays | src/debugger.rs:284-494 | and so do `step`, `cont` and `finish` |
| HwStops.SelectIs | src/debugger.rs:241-247 | selecting takes effect exactly for a listed thread, and changes nothing else |
| HwStops.SuspendIs | src/debugger.rs:251-272 | one living thread's flag is set and nothing else |
| HwSessions.AttachAgrees | src/debugger.rs:120-148 | a session starts in agreement with empty, injective tables |
| HwSessions.DoAgrees | src/debugger.rs:459-603 | every command keeps agreement, `at_breakpoint` in the table, and every breakpoint in a slot |
| HwSessions.RunAgrees | src/debugger.rs:459-603 | the same over any sequence of commands |
| HwSessions.SetNeatIff | src/debugger.rs:555-565 | setting keeps slots injective exactly when the address is new |
| HwSessions.StepKeepsSlots | src/debugger.rs:284-316 | steps and continues leave the slot table as it was |
| HwSessions.FinishRestoresIff | src/debugger.rs:459-494 | `finish` gives the pool back exactly when its breakpoint and that of its step-over do not share their address; else one slot stays taken by the return address |
| HwSessions.RunNeat | src/debugger.rs:459-603 | over any session without a doubled address or a colliding `finish` the slots are injective and are exactly the breakpoints |
| HwWitnesses.HitExists | src/debugger.rs:555-565 | there is a session stopped at a breakpoint at 100 in slot 0; the next three lemmas hold of it |
| HwWitnesses.SetTwiceTakesTwo | src/debugger.rs:555-565 | setting 100 again there takes slot 1 |
| HwWitnesses.StepOverStillArmed | src/debugger.rs:995-1004 | and the step-over then leaves the thread stopping at 100 |
| HwWitnesses.FinishLeaksSlot | src/debugger.rs:459-494 | `finish` back to 104 there leaves slot 2 taken, whatever happens meanwhile |
| HwWitnesses.CrossingIsCut | src/register.rs:456-470 | four watched bytes from 6 on: bytes 8 and 9 are not watched |
| ExprGrammar.ParseComplete | src/expr_grammar.lalrpop:19-78 | the parser finds every derivable tree from its tokens |
| ExprGrammar.ParseSound | src/expr_grammar.lalrpop:19-78 | what it returns is derivable and accounts for every token |
| ExprGrammar.ParseExactIff | src/expr_grammar.lalrpop:19-78 | it accepts exactly the sentences of the grammar |
| ExprGrammar.Unambiguous | src/expr_grammar.lalrpop:1-8 | a token sequence has at most one tree: the layering alone resolves unary and binary `&` and `*` |
| ExprGrammar.TighterFirst | src/expr_grammar.lalrpop:23-55 | for any operators of two layers, listed in the order of the productions: that of the later layer takes its operands first, on either side |
| ExprGrammar.LeftFirst | src/expr_grammar.lalrpop:23-55 | operators of one layer group to the left |
| ExprGrammar.PrefixBetween | src/expr_grammar.lalrpop:57-71 | a prefix binds tighter than any binary operator and less tight than `.` and `->`; unary `+` is its operand |
| ExprGrammar.ParensFirst | src/expr_grammar.lalrpop:73-78 | parentheses come before everything |
| ExprGrammar.ParensExactIff | src/expr_grammar.lalrpop:23-78 | a printed operand fits a layer without parentheses exactly when its operator binds at least as tightly |
| ExprGrammar.RoundTrip | src/expr_grammar.lalrpop:19-90 | printing any expression with the fewest parentheses and parsing gives it back |
| ExprGrammar.ParsedIsWellFormed | src/expr.rs:25-36 | whatever parses is an expression with unary and binary operators where they belong |
| ExprLexer.NoSpaceInside | src/expr_grammar.lalrpop:13-17 | no token contains white space |
| ExprLexer.LiteralExactIff | src/expr_grammar.lalrpop:80-85 | a decimal literal is its value exactly when that fits 64 bits, otherwise zero |
| ExprLexer.FirstTooBig | src/expr_grammar.lalrpop:80-85 | 2^64 in decimal reads as zero |
| ExprLexer.RadixReads | src/expr_grammar.lalrpop:80-83 | a number written in base 16, 2 or 8 after its prefix, in either case, is read back if it fits 64 bits, and is zero if not |
| ExprLexer.BarePrefix | src/expr_grammar.lalrpop:80-85 | a prefix without digits is no number: the zero alone is read |
| ExprLexer.NameIs | src/expr_grammar.lalrpop:87-90 | a name is a word of letters, underscores and digits that begins with no digit |
| ExprLexer.SpaceSkipped | src/expr_grammar.lalrpop:13-17 | each of the six white-space characters is skipped |
| ExprLexer.WriteLexes | src/expr_grammar.lalrpop:80-90 | tokens written with spaces are read back, longest match included |
| ExprLexer.TextRoundTrip | src/expr_grammar.lalrpop:19-90 | an expression printed as text and read again is the same expression |
| ExprEval.OpReduces | src/expr.rs:103-160 | each 64-bit operator is the unbounded one reduced modulo 2^64 |
| ExprEval.DivMod | src/expr.rs:154-165 | `/` and `%` are quotient and remainder, errors exactly for a zero divisor |
| ExprEval.BitOfShift64 | src/expr.rs:169-170 | every bit of `<<` and `>>`: the count is taken modulo 64, and zeros come in |
| ExprEval.BitOfBitwise | src/expr.rs:166-168 | every bit of bitwise and, or and exclusive or |
| ExprEval.MemberReads | src/expr.rs:184-252 | `v.field` reads the bytes of the field at its offset from the address of `v`, in its type or, for a pointer, in the type it points to |
| ExprEval.ArrowIsMember | src/expr.rs:184-252 | `p->field` for a pointer to `v` is `v.field` |
| ExprEval.RegistersRead | src/expr.rs:82-90 | `$base` is the image base, any other name the register or an error |
| ExprEval.EvalIsIntMod | src/expr.rs:79-182 | on numbers, negation, complement and ring or bitwise operators evaluation is unbounded two's complement evaluation modulo 2^64 |
| ExprEval.DerefOfAddress | src/expr.rs:96-132 | for a readable variable of n bytes `*&x` and `x` agree modulo 2^(8n) |
| Leb128.FinishedIsValue | src/symbols.rs:775-784 | the shifted and sign-extended pattern is the number's value modulo 2^64 |
| Leb128.DecodeSleb128 | src/symbols.rs:772-790 | the value of the number at the front, reduced to 64-bit two's complement, and its length; nothing without an end in ten bytes |
| Leb128.NothingIff | src/symbols.rs:772-790 | nothing is decoded exactly when none of the first ten bytes ends a number |
| Leb128.RoundTrip | src/symbols.rs:772-790 | every 64-bit integer comes back from its encoding, whatever follows it |
| Leb128.ParseLocationExpr | src/symbols.rs:751-769 | frame offset, static address of eight bytes, or nothing |
| Leb128.OffsetRoundTrip | src/symbols.rs:751-758 | a written frame offset is read back |
| Scopes.CollectVariables | src/symbols.rs:543-618 | the stack walk over depth differences is the walk whose meaning is `CollectsTheTree` |
| Scopes.NearestRange | src/symbols.rs:593 | the nearest enclosing scope that has a range |
| Scopes.WalkCollects | src/symbols.rs:543-618 | walking siblings appends what the tree declares there and restores the stacks below them |
| Scopes.CollectsTheTree | src/symbols.rs:543-618 | for every tree each variable gets the range of its nearest ranged ancestor and the frame base of its nearest subprogram; dropped without a range, global without a scope |
| Scopes.WidthFindsInnermost | src/symbols.rs:200-215 | the narrowest range around the PC belongs to the innermost scope with the name |
| Scopes.GlobalsAgree | src/symbols.rs:216-220 | the global fallback is the first declaration outside all scopes |
| Scopes.FoundWhere | src/symbols.rs:200-221 | a scope begins at its low address and ends before its high one; without a scope a variable is found everywhere |
| Scopes.FlatIsLexical | src/symbols.rs:200-221 | on strictly nested scopes the flat search is recursive innermost-scope lookup |
| Scopes.FlatFindsTheScope | src/symbols.rs:200-221 | with equal ranges allowed the scope found is still right |
| ScopeTies.FlatIsLexicalIff | src/symbols.rs:200-221 | on nested scopes, equal ranges allowed, the flat search is recursive lookup exactly when no scope around the innermost answer has its range and declares the name earlier in depth-first order |
| ScopeTies.EqualRangesHideTheInner | src/symbols.rs:200-221 | a concrete function and block of one range: the function's variable wins exactly when it is declared first |
| Lines.HoldsOnce | src/symbols.rs:406-426 | on a tidy table at most one row holds an address |
| Lines.FindLocation | src/symbols.rs:406-426 | the first row whose half-open interval holds the address, if any |
| Lines.LocationIsTheRow | src/symbols.rs:406-426 | on a tidy table that is the one row, never bridging an end marker |
| Lines.FindLine | src/symbols.rs:282-308 | the lexicographic minimum of line distance and address among the file's rows from the line on |
| Lines.BestIsUnique | src/symbols.rs:282-308 | that minimum is determined by the table |
| Lines.LookupsAreInverse | src/symbols.rs:282-426 | looking up the address found for a line gives the smallest recorded line of that file from there on, at its smallest address |
| Lines.SkipPrologue | src/symbols.rs:314-352 | the scan whose meaning is `SkipIsNextRow`, with the least symbol above as bound |
| Lines.SkipIsNextRow | src/symbols.rs:314-352 | the entry if it is marked, else the next row of its sequence below the next symbol, else the entry |
| Lines.FlagHonouredIff | src/symbols.rs:310-352 | the first row marked as prologue end is the answer exactly when it is the entry or the row right after it |
| Lines.FlagPassedOver | src/symbols.rs:310-352 | a concrete table in which the marked third row is passed over |
| Lines.NoRowNoSkip | src/symbols.rs:351 | an address without a row stays as it is |
| Lines.SkipStaysInside | src/symbols.rs:314-352 | on any table the answer stays between the entry and the next symbol |
| LeakTracking.LeakTracker.Enable | src/leak_tracker.rs:52-71 | sets the entry breakpoints up to the first failure (`SetAllStops`), then starts empty |
| LeakTracking.LeakTracker.Disable | src/leak_tracker.rs:74-87 | removes entry and return breakpoints, the latter in any order |
| LeakTracking.LeakTracker.Push | src/leak_tracker.rs:206-223 | a breakpoint on a return address that has none yet, and one more pending call |
| LeakTracking.LeakTracker.Pop | src/leak_tracker.rs:134-155 | the newest pending call becomes a live block if not null; the last one takes its breakpoint along |
| LeakTracking.LeakTracker.Reallocate | src/leak_tracker.rs:116-124 | the old block is dropped before the new call is pending |
| LeakTracking.LeakTracker.HandleStop | src/leak_tracker.rs:91-158 | what the registers say the target is about to do, entry points before return addresses |
| LeakTracking.ContinueHidden | src/leak_tracker.rs:266-281 | handles and continues until a stop is not the tracker's; its meaning is `HiddenRunEnds` and `TrackedRun` |
| LeakHeap.TrackStep | src/leak_tracker.rs:91-158 | every stop keeps the tracker's tables in step with the program's heap |
| LeakHeap.SaturatesToTotal | src/leak_tracker.rs:107-112 | the size of a `calloc` is the product, or 2^64 - 1 when that does not fit |
| LeakHeap.LiveIsHeap | src/leak_tracker.rs:91-158 | for any list of events: pending entries count the calls in flight, live blocks are those returned and not freed except for failed reallocs, every call site is right |
| LeakHeap.LiveIsExactIff | src/leak_tracker.rs:116-124 | after any history live is a subset of the allocated blocks, and all of them exactly when no failed realloc kept one |
| LeakHeap.FailedReallocHides | src/leak_tracker.rs:116-124 | a concrete failed realloc: the program owns a block and the leak list is empty |
| LeakHeap.NothingLost | src/leak_tracker.rs:116-124 | without a failing realloc nothing is lost |
| LeakHeap.SizesAreExact | src/leak_tracker.rs:135-146 | sizes are exact when calls with one return address never overlap |
| LeakHeap.RequestsAreConserved | src/leak_tracker.rs:135-223 | in any case recorded, dropped and pending entries of a call site are exactly its requests |
| LeakHeap.SizesAtQuiet | src/leak_tracker.rs:135-146 | so with all calls back and none failed the recorded sizes are the requested ones as a multiset |
| LeakSession.ReturnArmedIff | src/leak_tracker.rs:148-153 | after any hidden run a breakpoint that is neither the user's nor an entry point is armed exactly at the return addresses of the calls in flight |
| LeakSession.FreshTracks | src/leak_tracker.rs:63-69 | just enabled, the tracker is in step with a program without calls or blocks |
| LeakSession.EnableBooks | src/leak_tracker.rs:52-71 | enabling on new addresses is invisible and books exactly them |
| LeakSession.SetAllStops | src/leak_tracker.rs:52-71 | the entry breakpoints are all set exactly if all can be reached; the first that cannot stops it with those before it set |
| LeakSession.DisableRestores | src/leak_tracker.rs:74-87 | disabling leaves exactly the user's breakpoints, in any order of removal |
| LeakSession.HandlingIsInvisible | src/leak_tracker.rs:91-158 | handling a stop keeps the books and changes nothing the user can see |
| LeakSession.StopIsTracked | src/leak_tracker.rs:91-158 | what the tracker reads off registers and stack is the program's event |
| LeakSession.TrackedRun | src/leak_tracker.rs:266-281 | over a whole hidden run whose stops show the events `es`, the tracker tracks the heap after `es`, the breakpoints stay in order, and the user sees the unpatched program having run on |
| LeakSession.HiddenRunEnds | src/leak_tracker.rs:266-281 | in any state, a hidden run ends at the first stop that is not the tracker's and reports it, or reports the end of the target, an error of `cont`, or an error in handling a stop |
| LeakRuns.StageIff | src/debugger.rs:336-349 | any number of threads and any schedule: from a stop that announces an event, the `cont` makes exactly that event exactly when the first instruction its stage executes at the stop is that event and no later one there is an event, and none exactly when its stage executes nothing there |
| LeakRuns.CallsCounted | src/debugger.rs:336-349 | the calls a `cont` from a stop at an entry point makes are the executions of that entry point while it is out; from any other stop none |
| LeakRuns.CarriedIff | src/leak_tracker.rs:266-281 | any number of threads and any schedule: the event the tracker has just noted is the one event of the `cont` that follows, no event happens, or calls are missed, each exactly under the condition on the executed instructions above; where nothing happens the stopped thread has not run |
| LeakRuns.NotRunRepeats | src/leak_tracker.rs:266-281 | a thread that did not run stands there unchanged in front of the breakpoint armed again |
| LeakRuns.CallsAreStops | src/leak_tracker.rs:266-281 | over a hidden run with any number of threads in which each stop meets that exact condition, the tables are those of the heap made by the calls and returns the program executed |
| LeakBalance.CallsBalance | src/leak_tracker.rs:266-281 | over any hidden run under the conditions of transparency, with any number of threads and any schedule, the calls the program makes are the calls the tracker counts plus, for each of them, the executions of the entry point while it is out less one |
| LeakBalance.NoneMissedIff | src/leak_tracker.rs:266-281 | any number of threads, no stop repeated: the tracker counts no call that is not made, and it counts them all exactly when each counted entry point is executed once while it is out |
| LeakBalance.RunsAreActs | src/leak_tracker.rs:266-281 | unless the target ends in a step-over, the runs whose calls are counted are those the user is shown |
| LeakSolo.CarriedOnceIff | src/leak_tracker.rs:266-281 | for one thread, wherever the instruction at the stop leads: the noted event is the one event of the `cont` exactly when the thread, having left the stop, reaches an armed address before it is back |
| LeakSolo.SteppableLeavesStop | src/debugger.rs:284-316 | a stop whose instruction leads to a candidate is always left in time |
| LeakSolo.OneThreadCalls | src/leak_tracker.rs:91-281 | for one thread that leaves every stop in time: the tracker's tables are those of the heap made by the calls and returns executed, each counted once |
| LeakSolo.MissesNoneIff | src/leak_tracker.rs:91-281 | for one thread and any run without repeated stops: the tracker counts all the calls the program makes exactly when each entry point is left in time |
| LeakWalkthrough.OneCallTracked | src/leak_tracker.rs:91-281 | a concrete one-thread run that meets the conditions, with the one call it makes |
| LeakWitness.CountedTwice | src/leak_tracker.rs:266-281 | a concrete two-thread run from a session in order, in which one call is noted twice although nothing was executed |
| LeakMissed.CallMissed | src/leak_tracker.rs:266-281 | a concrete two-thread run from a session in order that meets the conditions of the theorem: the program calls `malloc` twice and one call is noted |
| LeakStub.FreeMissed | src/leak_tracker.rs:126-131 | a concrete run of one thread that frees two blocks through an indirect jump: the program's heap is empty, one call is noted and the other block stays in the live table |
| LeakCommands.RoundsInOrder | src/leak_tracker.rs:148-281 | over any sequence of user commands and hidden runs, armed are exactly the user's breakpoints, the entry points and the pending return addresses |
| LeakCommands.NeverEmpty | src/leak_tracker.rs:134-155 | over any session whatsoever no list of pending calls is empty, so the entry popped is always there |
| LeakCommands.TrackerLeavesNoTrace | src/leak_tracker.rs:52-87 | enable, any session, disable: exactly the user's own breakpoints are left and the user sees the unpatched program having run |
| Frames.StepFramed | src/debugger.rs:353-381 | call, push, move, body, pop and return keep the frames of any call depth in place |
| Frames.ReturnAddressIsTop | src/debugger.rs:353-381 | in every phase before the pop the guess is the innermost return address |
| Frames.ReturnAddressOverRuns | src/debugger.rs:353-381 | the same after any run of framed code |
| Frames.ReturnAddressAtRet | src/debugger.rs:374-379 | after the pop it is the caller's, the innermost one exactly when both are equal |
| Frames.GuessAtRet | src/debugger.rs:374-379 | a concrete stop at `ret` and its wrong guess |
| Frames.Backtrace | src/main.rs:512-549 | the walk with its stop conditions, cut at 64 frames, of the uncapped walk, which ends because the frame pointer grows |
| Frames.WalkIsChain | src/main.rs:512-549 | on completed frames the walk yields the call chain in order up to its stop conditions |
| Frames.BacktraceIsChain | src/main.rs:512-549 | a stop in a function's body shows exactly the ghost call chain |
| Stubs.ReadSections | src/stub_finder.rs:143-166 | the section loop, every slice in range on any bytes |
| Stubs.ReadCommands | src/stub_finder.rs:104-171 | the load-command loop, whose meaning is `CommandsRead` |
| Stubs.ParseThin | src/stub_finder.rs:81-225 | nothing without the magic number of a thin 64-bit image; else each wanted name among the stubs looked at, and nothing else, maps to the last stub with it |
| Stubs.CommandsRead | src/stub_finder.rs:104-171 | on commands laid out as in `<mach-o/loader.h>`, byte by byte, the loop recovers what they declare, later ones overriding earlier ones |
| Stubs.TablesRead | src/stub_finder.rs:81-171 | so the tables of a laid-out image are what its commands declare, zero where none does |
| Stubs.StubNamed | src/stub_finder.rs:184-217 | stub to indirect table to symbol to string gives the symbol's name, without the underscore at its front |
| Stubs.Unresolved | src/stub_finder.rs:184-211 | an entry outside the image ends the search; one that names no symbol, or a symbol without a readable string, is skipped |
| Stubs.NoText | src/stub_finder.rs:196-208 | a symbol or a string outside the image is none, a string without a zero is empty |
| Stubs.ImageLookup | src/stub_finder.rs:174-225 | on a laid-out image a wanted name is found iff one of the whole stubs in the section is bound to it, at the address of the last such stub |
| Stubs.FoundInSection | src/stub_finder.rs:218-221 | every address found lies in the stub section |

## Left out

- The Mach and ptrace calls, page protection, entitlements and signal decoding are the abstract machine and a nondeterministic stop event; a call fails exactly when the target or the thread is gone or the address is unmapped.
- The REPL, printing, source listing, SIGINT forwarding and session management: user interface.
- Capstone, gimli and the generated parser: the decoder is a parameter, entries and line rows are data, the parser is written from the grammar.
- Watchpoint hits (DR6 on x86_64, value comparison on ARM64) and their change of the selected thread after `cont`: the engine is the debugger without watchpoints set.
- `set_registers` by the user, suspended threads while running, and memory unmapped by the program do not occur in the engine's sessions.
- Indirect branches and `ret` in single stepping: the candidates miss their targets by design, so `Steppable`, which the exactness of `step` and `cont` asks for, wants the successor to be among them. What `cont` does at such an instruction is `SoloPasses.PassedOnceIff`, and for the import stubs of the leak tracker `LeakSolo.CarriedOnceIff`.
- ARM64 execution: the hardware model proves the registers, not what instructions do between stops; PCs at a stop are part of the environment. `finish` there takes the return address as given.
- `wait` on an unknown status word, and duplicate thread ids from a failing id query.
- `refresh_threads` that fails half way on ARM64 (a new thread that dies before it is programmed).
- `next_line`'s frame-pointer heuristic, and `skip_prologue_insns`: instruction matching with no state.
- `(*p).field` and other non-variable member bases, which always return an error; struct layouts come from callbacks.
- The register name tables, FPU and NEON state: long case lists with shallow properties.
- `resolve_type_info_full`, struct and type-name collection, location lists: attribute reading without a stack.
- The fat-image slice of the stub finder: its CPU-type constant never matches a real header.
- White space and letters of the lexer are ASCII.
- X86Watches.Debugger.SetWatchpoint: sessions whose target is alive, so the register calls succeed; a call that fails half way is modelled on ARM64.
- Frames.Backtrace: the symbol lookup that recognises `main` is a set of addresses.
- The ARM64 branches of `return_address` and the backtrace: the x86_64 ones are modelled.
- Stubs.ParseThin: offsets are unbounded integers, because reads past the end of the data stop the loops before 64-bit overflow for data below 2^60 bytes.
- LeakHeap.LiveIsHeap: takes the events as given; when they are the calls the program executes is `LeakRuns.CallsAreStops` and `LeakSolo.OneThreadCalls`. An execution of the instruction at the return address of a call in flight counts as its return, also when a jump led there.
- Solo.ContExact: one thread; with more threads the exact stop depends on the schedule, and `SessionTransparent` is the statement.
- LeakSession.TrackedRun: the events are those the stops show; a stop repeated for one call is a second event here, and a call that another thread makes during a step-over is none. `LeakRuns.CarriedIff` says exactly when either happens, and `LeakBalance.CallsBalance` how often.
- LeakRuns.CallsAreStops: its hypothesis depends on the program and the schedule. For one thread it is the condition of `LeakSolo.CarriedOnceIff` at each stop; where it fails the tables differ from the heap by the calls of `LeakBalance.CallsBalance`. After a missed or repeated call the identities of the later returns are not followed.
- LeakCalls.EventAt: a return is taken to be that of the newest call in flight with this return address, which is the tracker's own last-in-first-out choice. Where calls of several threads with one return address overlap, a stack or thread identity would tell them apart, and the returns may pair with other calls; the theorems of `LeakHeap` hold for any pairing.
- Commands.SessionTransparent: under the conditions of `GoodSession`; the absence of aborts without them is `NoPanic.NeverPanics`.
- Defects.PanicsAfterExitIff: its condition is on the state after the step-over; `AbortsAfterKillIff` puts it on the program, for one thread.
- DebuggerObject.Debugger.RefreshThreads: the suspended flags and the programming of new threads' debug registers are in the hardware modules.
- DebuggerObject.Debugger.ContinueAndWait: the unknown wait status and the retry of an interrupted wait do not occur.
- DebuggerObject.Debugger.ContinueToStop: the scan for a watchpoint hit after the breakpoint test.
- DebuggerObject.Debugger.Continue: the scan for a watchpoint hit after the breakpoint test.
- X86Watches.Debugger.Refresh: the selected thread and the suspended flags, which `DebuggerObject.Debugger.RefreshThreads` and `HwDebuggerObject.HwDebugger.RefreshThreads` have.
- HwDebuggerObject.HwDebugger.SetWatchpoint: the previous value read from memory for the later comparison.
- HwDebuggerObject.HwDebugger.Continue: the comparison of watched values after the stop.
