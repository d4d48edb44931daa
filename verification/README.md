# Verified model of Revizor's contract model, kernel-module protocols and minimisers

Revizor looks for information leaks in CPUs. It runs random test cases on a CPU and on a *contract
model* — an emulator that also explores mispredicted paths and records what the contract lets an
attacker observe — and reports inputs with equal contract traces but different hardware traces. This
project models three parts of it and proves what they are relied on for.

**1. The speculative contract model.** The emulator is an arbitrary deterministic function from a
program counter and a machine state to accesses, a possible fault, registers, flags and a next
address. Everything around it is modelled: the checkpoint stack, the store logs, the speculation
window, the misprediction of conditional branches (`cond`) and of store-to-load ordering (`bpas`), the
taint tracker, the constant-time tracer, fault handling and the state machine.

| file | content |
|---|---|
| `Memory.dfy`, `UndoLogs.dfy` | byte memory, store logs of eight-byte entries, the layered undo invariant |
| `BranchDecoder.dfy` | the speculator's branch decoder against the Jcc and LOOP entries in chapter 3 of Intel SDM Vol. 2A |
| `Instructions.dfy`, `Taint.dfy`, `ContractModel.dfy` | instructions, taint tracking and one step of the machine, as functions on values |
| `TaintTracker.dfy`, `Speculator.dfy`, `UnicornModel.dfy` | the objects that work in place, proved against those functions |
| `Runs.dfy`, `Transparency.dfy`, `Termination.dfy` | runs, erasure of speculation, termination |
| `SpeculativeSemantics.dfy` | what the clauses mean, with a whole machine state for every path: no checkpoint, store log or decoder; every run of the machine is such a run, trace included |
| `TaintFlow.dfy` | taints are exactly the initial values that can flow into what a path shows |
| `Coverage.dfy`, `Noninterference.dfy`, `Untracked.dfy`, `Boosting.dfy` | taint soundness and fast contract tracing |
| `ExampleProgram.dfy`, `RegisterFault.dfy` | a program that meets all hypotheses, and one that misses a single one and leaks |

The main theorems: every run of the machine is, path by path and trace entry by trace entry, a run of the
semantics in which each path has its own machine state (`SpeculativeSemantics.CompleteRefines`); a run
under `cond` or `bpas`, at any nesting bound and window, ends in the state of the sequential run
(`Termination.SpeculationInvisible`); two inputs that agree on the taint of one of
them are traced alike (`Noninterference.TaintSound`); therefore replicating the contract traces of the
original inputs equals tracing every boosted input (`Boosting.FastTracingIsFullTracing`); and the state
machine halts on forward-only code (`Termination.Halts`), with `UnicornModel.RunStateMachine` — the loop
with its hooks — computing exactly that complete run.

Assumptions are predicates over the program: `NarrowStores` (stores of at most eight bytes),
`SingleStores` (one store per instruction, for `bpas`), `ManualBranches` (the emulator executes
conditional branches as the manual says), `FaithfulDisplacements` (no negative one-byte displacement),
`Covered` (declared operands cover an instruction's effects; one without memory accesses faults in every
state or in none) and `ForwardOnly`. They hold together:
`ExampleProgram.HypothesesMet` exhibits a program with a branch, a load and a store that meets them under
every clause, and `ExampleProgram.ExampleIsGenerated` shows that it is also laid out like a generated
function. Where one of them is exactly what a property needs, a lemma says so: `Memory.EightBytesUndoStore`,
`BranchDecoder.DecodedTarget`, `Transparency.MispredictOutsideSpeculation` and
`RegisterFault.FaultsMustAgree` are equivalences, with `Memory.WideStoreEscapesUndo`,
`BranchDecoder.BackwardShortBranchMisread` and `RegisterFault.RegisterFaultsLeak` as counterexamples.

**2. The kernel module's protocols.** `MacroPatcher.dfy` links macro placeholders with macro bodies by
relative jumps; `PageTables.dfy` saves, modifies and restores page-table entries around the measurement
loop; `ReadOut.dfy` prints measurements into small buffers and files them by input and repetition;
`InputParser.dfy` receives input batches in chunks.

**3. The analyser, the generator and the minimisers.** `Analyser.dfy` groups measurements and reports
violations; `ControlFlow.dfy` generates control-flow graphs and their branches, and `GeneratedProgram.dfy`
ties them to termination; `InputMinimizer.dfy` and `InstructionPasses.dfy` shrink inputs and programs while an oracle still finds the violation.

Properties that the code does not have in general are stated with their exact condition:

* the checkpoint's undo log restores a store iff the store changes nothing behind its eighth byte;
* a negative one-byte branch displacement is read as a positive one;
* under store bypassing, a store that faults outside speculation is performed by the next rollback unless
  its value was there already (`UndoLogs.FaultingStoreReinstated`); theorems about that clause therefore ask
  that no architectural fault occurs;
* a repeated memory hook for the store that waits to be bypassed is an error unless the value is below 256
  (`UndoLogs.RepeatedStoreTolerated`);
* a macro listed behind its place is silently left unexpanded (`MacroPatcher.ExpandsAllIffSpaced`);
* taint tracking misses the operand of an instruction that faults on a mispredicted path without
  accessing memory; executing such an instruction keeps two runs in lockstep alike on the trace iff it
  faults in both or in neither (`RegisterFault.FaultsMustAgree`, with `RegisterFault.RegisterFaultsLeak`),
  so the theorem asks that it faults in every state, as UD2 does, or in none;
* after a corrupted measurement the entries behind it keep what an earlier experiment wrote, marks
  included (`PageTables.MarksTellValid`, before an experiment `PageTables.MarksRightForEveryOutcome`, with
  `PageTables.OldMarkSurvives`);
* the bound on the input count is compared in 32 bits and misses larger counts
  (`InputParser.AcceptedCounts`, `InputParser.LargeCountAccepted`);
* the analyser reports exactly the contract traces with a counterexample iff the comparison of hardware
  traces is an equivalence relation (`Analyser.ExactIffEquivalence`); the comparison of merged bitmaps is
  one iff subsets count as violations or the outlier threshold is above one
  (`Analyser.BitmapsEquivalence`, for any fixed number of samples `Analyser.BitmapDetectionExact`), so
  with the default settings a violation can be missed (`Analyser.CoveredCounterexampleMissed`);
* a call of the measurement read-out stays within its page iff the last line and the end marker still fit
  (`ReadOut.CallStaysInPage`, with `ReadOut.EndMarkerOverruns`);
* the rebuilt program of instruction removal is the verified one iff no kept line with the tag stands
  right in front of a removed one (`InstructionPasses.RunRemoval`, with `InstructionPasses.TagLost`).

`dafny verify dfyconfig.toml` checks the whole project.

## Model

| member | source | states |
|---|---|---|
| Memory.EightBytesUndoStore | rvzr/model_unicorn/speculator_abc.py:155-158 | Writing back the eight bytes saved before a store undoes it if and only if the store changes no byte behind the eighth; so always for stores of at most eight bytes |
| Memory.WideStoreEscapesUndo | rvzr/model_unicorn/speculator_abc.py:155-158 | A sixteen-byte store exists that the saved eight bytes do not undo |
| Memory.LoggedStoreUndone | rvzr/model_unicorn/speculator_abc.py:108-112 | Logging a narrow store and performing it leaves the undone memory as it was, whatever overlapping entries the log already holds |
| Memory.CancelledStoreReinstated | rvzr/model_unicorn/speculators_basic.py:396-403 | Undoing the log entry of a bypassed store brings the stored value back |
| BranchDecoder.DecodedOutcome | rvzr/model_unicorn/speculators_basic.py:59-157 | For every conditional branch, flags and count, the decoder's outcome and count equal those of the manual |
| BranchDecoder.DecodedTarget | rvzr/model_unicorn/speculators_basic.py:197-208 | The decoder recognises exactly the branches with a non-zero displacement, and reads the displacement correctly if and only if it is not a negative rel8 |
| BranchDecoder.BackwardShortBranchMisread | rvzr/model_unicorn/speculators_basic.py:205-208 | The bytes 74 FE, a branch to itself, are decoded as a branch 254 bytes ahead |
| ContractModel.Step | rvzr/model_unicorn/model.py:401-466 | Every turn of the machine keeps the stacks in agreement: equally many checkpoints, store logs and taint checkpoints, at most the nesting bound; in speculation exactly when there are some; saved windows grow from zero |
| ContractModel.Decide | rvzr/model_unicorn/speculator_abc.py:122-142 | The speculator's decision keeps that agreement, so no rollback finds an empty stack |
| Runs.Run | rvzr/model_unicorn/model.py:401-466 | Stack agreement in every reachable state of every clause |
| UndoLogs.PopRestores | rvzr/model_unicorn/speculator_abc.py:96-120 | A rollback restores registers, flags, memory and window of the checkpoint exactly and keeps the layers below |
| UndoLogs.MispredictLayers | rvzr/model_unicorn/speculators_basic.py:164-195 | A misprediction adds a layer whose log undoes to the memory at the branch |
| UndoLogs.BypassLayers | rvzr/model_unicorn/speculators_basic.py:385-404 | A bypass adds a layer on the memory with the remembered old bytes in the place of the store, whose log undoes to the memory with the store |
| UndoLogs.RepeatedStoreTolerated | rvzr/model_unicorn/speculators_basic.py:362-383 | A second call for one byte of the remembered store is tolerated if and only if it writes that byte, and a repetition of the whole store if and only if its value is below 256 |
| UndoLogs.FaultingStoreReinstated | rvzr/model_unicorn/speculators_basic.py:362-404 | A store that faults outside speculation stays remembered: bypassing it in the fault handler and rolling back restores the memory if and only if the value was there already |
| UndoLogs.AccessesLayers | rvzr/model_unicorn/speculator_abc.py:144-160 | All accesses of an instruction, logged eight bytes each, keep every layer |
| UndoLogs.StepLayers | rvzr/model_unicorn/model.py:401-466 | Every step keeps the layered invariant (under bpas, every step without an architectural fault) |
| Runs.RunLayers | rvzr/model_unicorn/speculator_abc.py:96-120 | The layered invariant holds after any number of steps |
| Runs.UndoLogsRestoreEveryLevel | rvzr/model_unicorn/speculator_abc.py:96-120 | In every reachable state, for every level, undoing the logs from the top down to it yields byte for byte the memory at its checkpoint |
| Runs.FinishedStays | rvzr/model_unicorn/model.py:401-466 | A finished run stays finished in the same state |
| Transparency.StepInSpeculation | rvzr/model_unicorn/model.py:401-466 | A step in speculation changes neither the architectural state nor the observations at nesting 0 |
| Transparency.VisitOutsideSpeculation | rvzr/model_unicorn/model.py:308-325 | Outside speculation, without misprediction or bypass, a step is one step of the independent sequential semantics |
| Transparency.MispredictOutsideSpeculation | rvzr/model_unicorn/speculators_basic.py:164-195 | A misprediction checkpoints exactly the sequential outcome of the branch; for a taken branch if and only if the decoder reads its displacement correctly |
| Transparency.BypassOutsideSpeculation | rvzr/model_unicorn/speculators_basic.py:385-404 | Taking a bypass leaves the architectural state, stored value included, to the rollback |
| Transparency.StepErases | rvzr/model_unicorn/model.py:401-466 | Every step is, architecturally, either nothing or one sequential step that shows the sequential observations |
| Transparency.SpeculationErased | rvzr/model_unicorn/speculators_basic.py:164-208 | After any number of steps at any nesting and window, the architectural state is one the sequential run reaches, and (without bpas) the nesting-0 trace is what that run shows |
| Transparency.FinishedRunsAgree | rvzr/model_unicorn/model.py:401-466 | Finished cond and bpas runs end with the registers, flags and memory of the sequential speculator's run; without bpas the nesting-0 trace is its trace |
| SpeculativeSemantics.StepRefines | rvzr/model_unicorn/model.py:401-466 | Every step of the machine is a step of its paths: a checkpoint is a suspended path with the state it will resume in, and a pending store is the memory from before it |
| SpeculativeSemantics.RunRefines | rvzr/model_unicorn/model.py:401-466 | After any number of steps the machine is where the semantics is, with the same trace at the same nesting |
| SpeculativeSemantics.CompleteRefines | rvzr/model_unicorn/model.py:367-466 | The complete run, contract trace included, is the complete run of the semantics |
| SpeculativeSemantics.StepShows | rvzr/model_unicorn/model.py:90-117 | At every nesting, a step that meets an instruction shows its program counter, then, if it executes, every access in order at the nesting after a bypass, then a fault, and nothing else; any other step shows nothing |
| SpeculativeSemantics.WrongPathIsWrong | rvzr/model_unicorn/speculators_basic.py:187-195 | A mispredicted branch never continues where the emulator would; it continues the other way of the manual if and only if the branch is taken or the decoder reads its displacement correctly |
| SpeculativeSemantics.StoreBypassed | rvzr/model_unicorn/speculators_basic.py:385-404 | Behind an instruction that stores, the bypass hook gives its registers and flags with the memory from before it |
| SpeculativeSemantics.BypassedPathStarts | rvzr/model_unicorn/speculators_basic.py:362-404 | In a run, the first instruction of a bypassed path executes on the memory that the store itself executed on, one level deeper, and shows its accesses there |
| SpeculativeSemantics.ExpiredStep | rvzr/model_unicorn/speculator_abc.py:132-142 | At a barrier or past the window nothing executes: the path ends, unless it passes a branch along the right path or keeps a store that was about to be bypassed |
| SpeculativeSemantics.NothingExecutesPastWindow | rvzr/model_unicorn/speculator_abc.py:132-142 | Past its window a path, as long as it lasts, changes neither memory nor flags and shows only program counters; it ends at once at the nesting bound, and after one step under store bypassing |
| SpeculativeSemantics.WindowBoundsPath | rvzr/model_unicorn/speculator_abc.py:132-142 | A speculative path executes, over all interruptions by deeper paths, no more instructions than its window has left |
| Termination.MispredictLighter | rvzr/model_unicorn/speculators_basic.py:187-195 | Forking a path decreases the sum of 3^(distance to the exit) over the running path and all pending rollbacks |
| Termination.PopLighter | rvzr/model_unicorn/speculator_abc.py:96-120 | A rollback decreases that sum |
| Termination.StepProgresses | rvzr/model_unicorn/model.py:417-466 | On forward-only code every step decreases the measure or uses up the single handled fault |
| Termination.Halts | rvzr/model_unicorn/model.py:401-466 | The state machine halts on forward-only code for every clause, nesting bound and window |
| Termination.SpeculationInvisible | rvzr/model_unicorn/model.py:401-466 | Complete runs of every clause end as the complete sequential run does |
| TaintTracking.TaintTracker.PropagateDependencies | rvzr/model_unicorn/taint_tracker.py:405-445 | The in-place loops over source and destination operands compute the specified dependency map |
| TaintTracking.TaintTracker.FinalizeInstruction | rvzr/model_unicorn/taint_tracker.py:182-212 | Propagation, taint update and clearing of overwritten registers, in this order, amount to the specified tracker state |
| TaintTracking.TaintTracker.TrackInstruction | rvzr/model_unicorn/taint_tracker.py:130-155 | Starting an instruction finishes the previous one and resets the overwritten flags |
| TaintTracking.TaintTracker.CollectWords | rvzr/model_unicorn/taint_tracker.py:172-180 | The masked loop collects exactly the aligned words that some byte of the access lies in |
| TaintTracking.TaintTracker.TrackMemoryAccess | rvzr/model_unicorn/taint_tracker.py:157-180 | An access adds its words to the sources or the destinations |
| TaintTracking.TaintTracker.Checkpoint | rvzr/model_unicorn/taint_tracker.py:103-113 | A checkpoint saves the dependencies, with or without the current instruction |
| TaintTracking.TaintTracker.RollBack | rvzr/model_unicorn/taint_tracker.py:115-126 | A rollback restores dependencies but keeps every taint |
| TaintTracking.TaintTracker.GetTaint | rvzr/model_unicorn/taint_tracker.py:262-280 | The final labels include those of the instruction in flight |
| TaintFlow.DependenciesAreFlows | rvzr/model_unicorn/taint_tracker.py:405-475 | Along a path, a label is among the tracked dependencies of a register, flag or word if and only if its initial value can flow there through sources and destinations; a replaced register forgets its old value and a flag that is only written starts anew |
| TaintFlow.TaintsAreFlows | rvzr/model_unicorn/taint_tracker.py:182-212 | An instruction taints exactly the labels that can flow into its pending operands before it replaces them |
| TaintFlow.FollowsPath | rvzr/model_unicorn/taint_tracker.py:130-280 | After any path, the tainted labels are exactly those that can flow into the control flow of a branch or the address of an access on it |
| TaintFlow.StepMeets | rvzr/model_unicorn/model.py:90-117 | Outside speculation the machine treats its tracker to each instruction in just that way |
| Speculators.UnicornSpeculator.TakeCheckpoint | rvzr/model_unicorn/speculator_abc.py:174-187 | A checkpoint pushes context, flags, window and an empty log, and checkpoints the taints |
| Speculators.UnicornSpeculator.UndoStores | rvzr/model_unicorn/speculator_abc.py:108-112 | The pop loop undoes the log, newest entry first |
| Speculators.UnicornSpeculator.Rollback | rvzr/model_unicorn/speculator_abc.py:96-120 | The in-place rollback of stacks, window, memory, flags and taints is the specified pop |
| Speculators.UnicornSpeculator.HandleInstruction | rvzr/model_unicorn/speculator_abc.py:122-142 | Window, barrier and speculation hooks: when the emulator is stopped, when it is redirected, and the new state |
| Speculators.UnicornSpeculator.SpeculateBranch | rvzr/model_unicorn/speculators_basic.py:164-195 | The correct outcome is checkpointed, with LOOP's count decremented; the program counter goes the other way of the manual exactly when the branch is taken or its displacement is read correctly; nothing happens for other instructions or at the nesting bound |
| Speculators.UnicornSpeculator.SpeculateBypass | rvzr/model_unicorn/speculators_basic.py:385-404 | The remembered old bytes are written over a pending store under a new checkpoint that logs its value, or the store is forgotten at the nesting bound |
| Speculators.UnicornSpeculator.SpeculateMemAccess | rvzr/model_unicorn/speculators_basic.py:362-383 | A store is remembered; a second one fails unless it repeats a slice of the first |
| Speculators.UnicornSpeculator.HandleMemAccess | rvzr/model_unicorn/speculator_abc.py:144-160 | In speculation every store logs the eight bytes it may overwrite, before it is remembered |
| Speculators.CTTracer.ObserveMemAccess | rvzr/model_unicorn/tracer.py:105-109 | Recording an address taints the address registers |
| Speculators.CTTracer.ObserveInstruction | rvzr/model_unicorn/tracer.py:111-115 | Recording a program counter taints the control flow |
| UnicornModels.UnicornModel.InstructionCallback | rvzr/model_unicorn/model.py:90-103 | Taint tracker, tracer and speculator in the dispatcher's order give the specified state before the instruction |
| UnicornModels.UnicornModel.AccessMemory | rvzr/model_unicorn/model.py:105-117 | Taint tracker, speculator and tracer see an access before it is performed |
| UnicornModels.UnicornModel.EmulateInstruction | rvzr/model_unicorn/model.py:308-333 | All accesses with their hooks, each shown on the trace at the present nesting, and retirement or a fault, give the specified execution |
| UnicornModels.UnicornModel.HandleFault | rvzr/model_unicorn/model.py:468-506 | A fault is shown on the trace, then rolls back, enters the handler once, or is an error |
| UnicornModels.UnicornModel.PatchContextAfterFault | rvzr/model_unicorn/model.py:508-520 | Registers and flags return to those before the faulting instruction |
| UnicornModels.StopCompletesStep | rvzr/model_unicorn/model.py:445-466 | Whatever stopped the emulator, what the loop does next completes one step of the machine |
| UnicornModels.ReentryStep | rvzr/model_unicorn/model.py:421-441 | The re-entry cases are steps of the machine: exits roll back or halt, and re-entering the fault handler in speculation only rolls back |
| UnicornModels.UnicornModel.AfterStop | rvzr/model_unicorn/model.py:448-466 | Fault handling and rollback after a stop complete the step |
| UnicornModels.UnicornModel.RunStateMachine | rvzr/model_unicorn/model.py:401-466 | The re-entry loop around the emulator ends, in the state of the complete run |
| Coverage.ExecutionKeepsAgreement | rvzr/model_unicorn/taint_tracker.py:405-475 | Executing a covered instruction on two agreeing machines leaves them agreeing on everything whose propagated dependencies are tainted |
| Coverage.SameNext | rvzr/model_unicorn/tracer.py:111-115 | Tainted control flow goes on at the same address in both machines |
| Coverage.SameAccesses | rvzr/model_unicorn/tracer.py:105-109 | Tainted address registers give both machines the same accesses, and a fault in both or in neither; without accesses, whatever is tainted |
| Noninterference.RollBackAgrees | rvzr/model_unicorn/taint_tracker.py:115-126 | Rollbacks keep two runs in lockstep, with the dependencies restored from the checkpoint |
| Noninterference.WrongPathAgrees | rvzr/model_unicorn/speculators_basic.py:164-195 | Two runs in lockstep mispredict the same branch towards the same paths |
| Noninterference.BypassPathAgrees | rvzr/model_unicorn/speculators_basic.py:385-404 | Two runs in lockstep bypass the same store |
| Noninterference.StepGrows | rvzr/model_unicorn/taint_tracker.py:182-212 | No step loses a taint or the record of an architectural fault |
| Noninterference.StepAgrees | rvzr/model_unicorn/model.py:90-117 | One step keeps two runs in lockstep, as long as its taints are agreed on and no architectural fault occurs |
| Noninterference.RunsInLockstep | rvzr/model_unicorn/taint_tracker.py:103-247 | So do any number of steps |
| Noninterference.TaintSound | rvzr/model_unicorn/taint_tracker.py:103-247 | While the first run meets no architectural fault, an input that agrees with it on every label it tainted gives the same trace, taint, status and program counter, through all mispredicted paths and rollbacks |
| RegisterFault.RegisterFaultsLeak | rvzr/model_unicorn/model.py:478-482 | A program on which two inputs agree on all that was tainted and yet are traced differently: a division on a mispredicted path shows its fault, but its operand is never tainted |
| RegisterFault.FaultsMustAgree | rvzr/model_unicorn/model.py:468-492 | Two runs in lockstep that execute an instruction without memory accesses on a mispredicted path stay alike on the trace if and only if it faults in both or in neither |
| Untracked.CompleteUntracked | rvzr/model_unicorn/model.py:280-306 | With and without taint tracking, complete runs differ in nothing but the tracker |
| Boosting.TaintedWordsAgree | rvzr/model_unicorn/taint_tracker.py:283-323 | Inputs that agree on the tainted words initialise machines that agree on the tainted labels |
| Boosting.TaintByLabel | rvzr/model_unicorn/taint_tracker.py:283-323 | A word is tainted if and only if some tainted label taints it alone |
| Boosting.OneWordPerLabel | rvzr/model_unicorn/taint_tracker.py:283-323 | A label taints at most one word |
| Boosting.TaintIsDependence | rvzr/model_unicorn/taint_tracker.py:283-323 | Changing a data word can change the initial value of a register, status flag or memory word if and only if the label of that value taints the word; no other label depends on the data |
| Boosting.LoadedWords | rvzr/model_unicorn/model.py:376-384 | Every data word lies little-endian at its place in the sandbox, with patched flags, and zeros around them |
| Boosting.LoadedRegisters | rvzr/model_unicorn/model.py:376-384 | The general-purpose registers start with the words of their slots |
| Boosting.BoostedWords | rvzr/data_generator.py:72-114 | Word by word: a boosted input has the tainted data words of its original and every other word from the generator, at its own seed |
| Boosting.DataGenerator.CopyTainted | rvzr/data_generator.py:105-110 | The inner loop copies exactly the tainted words into the random input |
| Boosting.DataGenerator.GenerateBoosted | rvzr/data_generator.py:72-114 | The boosted sequence and the seed after it; boosting again gives the same inputs |
| Boosting.BoostedInputTracesAlike | rvzr/data_generator.py:105-110 | Whatever the random words, a boosted input has its original's contract trace |
| Boosting.FastTracingIsFullTracing | rvzr/fuzzer.py:226-258 | For all inputs, seeds and class sizes, tracing every boosted input gives the original traces repeated once per class member |
| Boosting.OriginalsFirst | rvzr/data_generator.py:96-114 | The original inputs are a prefix of the boosted ones |
| Boosting.TraceInput | rvzr/model_unicorn/model.py:376-397 | Running the model object on an input yields its contract trace and the words of its tainted labels |
| Boosting.ExecuteTestCaseWithInputs | rvzr/model_unicorn/model.py:367-399 | All inputs are traced, each on its own |
| Boosting.RoundManager.BoostInputs | rvzr/fuzzer.py:226-242 | With and without boosting, the recorded traces repeated are the traces of the boosted inputs |
| Boosting.RoundManager.CollectCtraces | rvzr/fuzzer.py:244-258 | Reused, fast and full contract tracing all yield the traces of the boosted inputs |
| MacroPatcher.Decode32Encode32 | rvzr/executor_km/macro_expansion.c:237-243 | A 32-bit displacement survives its encoding |
| MacroPatcher.JmpLands | rvzr/executor_km/macro_expansion.c:230-248 | The inserted jump lands at the requested distance from its first byte |
| MacroPatcher.ExpandMacro | rvzr/executor_km/macro_expansion.c:353-391 | A placeholder is linked with the body of its macro, as expanded for its destination, there and back, and no other byte changes; a symbol that is no known macro is refused |
| MacroPatcher.BodyAtItsPlace | rvzr/executor_km/macro_expansion.c:290-307 | Every body of a section is the expansion of its macro for the place where it lies |
| MacroPatcher.LinkedFlow | rvzr/executor_km/macro_expansion.c:353-391 | Control goes from a linked placeholder to the body, and from the body's end to the code behind the placeholder |
| MacroPatcher.GetSectionMacrosStart | rvzr/executor_km/code_loader.c:188-201 | The scan finds the first macro of the section |
| MacroPatcher.FirstMacroIsFirst | rvzr/executor_km/code_loader.c:188-201 | What it finds is a macro of the section and no function entry, and no earlier entry is one |
| MacroPatcher.ListedToTheEnd | rvzr/executor_km/code_loader.c:234-262 | The macros of the section are the entries from there up to the next one of another section |
| MacroPatcher.ExpandsAllIffSpaced | rvzr/executor_km/code_loader.c:234-262 | The loop expands every listed macro if and only if they are listed by increasing, non-overlapping offset inside the section |
| MacroPatcher.UnorderedMacroStays | rvzr/executor_km/code_loader.c:234-262 | A section with two macros in the wrong order loads without an error and expands only one |
| MacroPatcher.ExpandSection | rvzr/executor_km/code_loader.c:209-271 | When loading succeeds, and the whole memory afterwards: code kept in place, reached macros linked with consecutive bodies, everything else untouched |
| MacroPatcher.LoadedSectionFlows | rvzr/executor_km/code_loader.c:209-271 | In a loaded section every macro runs its own body and returns behind its own placeholder, and bodies do not overlap |
| MacroPatcher.WellListedSectionLoads | rvzr/executor_km/code_loader.c:209-271 | A section of known macros loads completely if and only if its macros are well listed and the last one fits |
| PageTables.FaultyPteMasks | rvzr/executor_km/page_tables_host.c:485-493 | Modifiable bits come from the permissions, all other bits from the entry |
| PageTables.Layout.DataAddress | rvzr/executor_km/page_tables_host.c:405-409 | The address computed for a data page of an actor lies in that very page |
| PageTables.Layout.CodeAddress | rvzr/executor_km/page_tables_host.c:411-415 | The address computed for a code page of an actor lies in that very page |
| PageTables.SandboxPages.constructor | rvzr/executor_km/page_tables_host.c:547-573 | The manager starts with buffers for one actor |
| PageTables.SandboxPages.CacheHostPteps | rvzr/executor_km/page_tables_host.c:273-316 | A test case with other actors brings other pages and leaves the buffers as they are |
| PageTables.SandboxPages.StoreOrigHostPermissions | rvzr/executor_km/page_tables_host.c:325-363 | Every entry is saved, in buffers that suffice for any history of actor counts |
| PageTables.SandboxPages.RestoreOrigHostPermissions | rvzr/executor_km/page_tables_host.c:372-419 | All entries become the saved ones, and the page of each entry that was written is invalidated, at the address computed for it |
| PageTables.SandboxPages.SetUserPages | rvzr/executor_km/page_tables_host.c:431-467 | Exactly the utility pages and the pages of user actors become user-accessible |
| PageTables.UserPteSetsUserBit | rvzr/executor_km/page_tables_host.c:431-467 | Becoming user-accessible sets the user bit of an entry and keeps all others |
| PageTables.SandboxPages.SetFaultyPageHostPermissions | rvzr/executor_km/page_tables_host.c:482-505 | Exactly the faulty pages take the requested permissions, and their entries are saved |
| PageTables.SandboxPages.RestoreFaultyPageHostPermissions | rvzr/executor_km/page_tables_host.c:511-518 | The faulty pages take the saved entries, up to date or not |
| PageTables.SandboxPages.ExecuteOnce | rvzr/executor_km/measurement.c:311-323 | A round runs under the permitted entries and leaves the table as it found it |
| PageTables.SandboxPages.RecoverOrigState | rvzr/executor_km/measurement.c:238-260 | From any state of the table, with any stale saved faulty entries, recovery returns to the original entries |
| PageTables.SandboxPages.RunExperiment | rvzr/executor_km/measurement.c:282-355 | On every way out all entries have their values from before and every page whose entry was written has been invalidated since; which round ended the loop, and the whole measurement buffer |
| PageTables.MarksTellValid | rvzr/executor_km/measurement.c:333-347 | The marks single out the valid measurements if and only if the raw trace of a corrupted one looks unmarked and no mark of an earlier experiment is left behind it |
| PageTables.MarksRightForEveryOutcome | rvzr/executor_km/measurement.c:333-347 | Before an experiment: its marks will be right for every outcome with unmarked raw traces if and only if no entry of the buffer but the first is marked |
| PageTables.OldMarkSurvives | rvzr/executor_km/measurement.c:392-403 | An experiment in which a corrupted measurement leaves the next one looking valid |
| ReadOut.KernelModule.TraceShow | rvzr/executor_km/main.c:263-300 | A call continues where the last one ran out of space, makes progress, stops at the first line that starts behind the held-back space, and ends the run with the marker |
| ReadOut.CallStaysInPage | rvzr/executor_km/main.c:285-298 | All that a call writes, the terminating zero included, stays within the page if and only if the last measurement does not start early enough to be printed and end too late for the marker; the space held back covers any line, but not a line and the marker |
| ReadOut.EndMarkerOverruns | rvzr/executor_km/main.c:285-298 | Thirty-three measurements whose last line starts at byte 3967 and whose end marker reaches byte 4099 of 4096 |
| ReadOut.RewindKmOutputToEnd | rvzr/executor.py:195-204 | After an error the module is read until it is between two runs |
| ReadOut.ParseLines | rvzr/executor.py:158-190 | The lines before the marker are filed by counting inputs down and repetitions up; a zero trace is an error |
| ReadOut.WholeRepetitions | rvzr/executor.py:191 | At the end of a run the source's own assertion holds |
| ReadOut.BufferContinues | rvzr/executor.py:149-190 | Any split of the output into buffers gives the same readings in the same order, and the marker is found exactly at the end of the run |
| ReadOut.ReadTrace | rvzr/executor.py:144-192 | Reading succeeds if and only if no run fails and (outside architectural mode) no reading is zero; then there are n_reps * n_inputs readings in order, from n_reps / batch runs; on every outcome the module is left between two runs |
| ReadOut.OneMoreRun | rvzr/executor.py:146-191 | A failed run or a zero reading makes the whole reading fail, whatever comes later |
| ReadOut.SamplesAreReadings | rvzr/executor.py:307-319 | The printed readings are all non-zero if and only if the samples of all inputs and repetitions are |
| ReadOut.PositionInRun | rvzr/executor.py:307-309 | Where in which run the reading of an input for a repetition was measured, with inputs loaded five times |
| ReadOut.PrintedIsSample | rvzr/executor.py:307-319 | The reading filed under an input and repetition is a measurement of that very input |
| ReadOut.TraceTestCase | rvzr/executor.py:282-319 | It succeeds if and only if no run fails and (outside architectural mode) no sample is zero; then every cell of the result holds the reading of its own input for its repetition, with and without the fivefold loading |
| InputParser.AcceptedCounts | rvzr/executor_km/input_parser.c:46-67 | The header check enforces the bound on the input count if and only if the count is within it or its low 32 bits, as a signed number, exceed it |
| InputParser.LargeCountAccepted | rvzr/executor_km/input_parser.c:61-65 | A header with 2^31 inputs passes the check |
| InputParser.DataSizeGrows | rvzr/executor_km/input_parser.c:69-84 | The largest counts seen at the last allocation bound the non-linear size of any batch that reuses it |
| InputParser.Parser.StartBatchInputParsing | rvzr/executor_km/input_parser.c:38-96 | A header is refused, or both buffers suffice for the batch |
| InputParser.Parser.ParseInputBuffer | rvzr/executor_km/input_parser.c:101-154 | A chunk is consumed up to the end of its phase, appended to what was received, and finishes exactly at the last byte |
| InputParser.SubmitBatch | rvzr/executor_km/input_parser.c:101-154 | For every chunking whose first chunk holds the header, metadata and data end up as sent |
| InputParser.SubmitBatches | rvzr/executor_km/input_parser.c:71-90 | So do batches of any sizes one after the other in the reused buffers |
| Analyser.BuildContractClasses | rvzr/traces.py:560-580 | One class per contract trace, holding exactly its measurements in input order |
| Analyser.BuildHwClasses | rvzr/traces.py:473-510 | For a reflexive relation the greedy partition: each measurement in one class, equivalent to its representative, none equivalent to an earlier one; for any relation, a second class if and only if a measurement diverges from the first |
| Analyser.FilterViolations | rvzr/analyser.py:85-149 | Each contract trace is reported at most once, and exactly when a usable measurement in it diverges from its first; with all its measurements, split greedily |
| Analyser.UsableExactly | rvzr/analyser.py:85-119 | The measurements that are compared are exactly the inputs with a usable hardware trace, each once, in order, with its own traces |
| Analyser.ReportedIffCounterexample | rvzr/analyser.py:72-83 | Where the relation is an equivalence on the hardware traces in question, a contract trace is reported if and only if two usable measurements share it and are not equivalent |
| Analyser.ExactIffEquivalence | rvzr/analyser.py:72-149 | For a reflexive relation, reports and counterexamples coincide on all lists of measurements if and only if the relation is symmetric and transitive |
| Analyser.ReportedIffUnlikeFirst | rvzr/analyser.py:121-141 | For a merely reflexive relation, if and only if some measurement is not equivalent to the first |
| Analyser.MergedBitmapAnalyser.BitmapOf | rvzr/analyser.py:177-193 | The cached bitmap is the merged bitmap of frequent samples |
| Analyser.BitmapBits | rvzr/analyser.py:171-190 | A bit is in the bitmap if and only if some sample has it that occurs at least as often as the threshold asks |
| Analyser.CountIsCardinality | rvzr/analyser.py:185-186 | Occurrences are counted by position |
| Analyser.MergedBitmapAnalyser.HtracesAreEquivalent | rvzr/analyser.py:167-199 | The cache never changes the comparison |
| Analyser.BitmapsReflexive | rvzr/analyser.py:195-199 | Every hardware trace is equivalent to itself, in both modes and at every threshold |
| Analyser.BitmapsEquivalence | rvzr/analyser.py:167-199 | Bitmap comparison is an equivalence relation if and only if subsets count as violations or the outlier threshold is above one |
| Analyser.BitmapsEquivalentExactly | rvzr/analyser.py:167-199 | The same among traces of any one positive number of samples |
| Analyser.BitmapDetectionExact | rvzr/analyser.py:85-199 | With bitmaps, reports and counterexamples coincide on all lists of measurements if and only if subsets count as violations or the outlier threshold is above one |
| Analyser.CoveredByFirst | rvzr/traces.py:495-504 | A first measurement equivalent to two others hides that these are not equivalent |
| Analyser.CoveredCounterexampleMissed | rvzr/analyser.py:195-199 | With tolerated subsets, for every positive number of samples and every threshold of at most one (the default settings among them), a counterexample exists that stays unreported |
| ControlFlow.ChooseTargets | rvzr/code_generator.py:461-466 | No choice is made from an empty list, and the chosen targets differ |
| ControlFlow.ChooseSuccessors | rvzr/code_generator.py:445-466 | Every block leads to the next one and otherwise only forward, with a permitted number of successors |
| ControlFlow.GenerateEmpty | rvzr/code_generator.py:420-476 | For all random choices the generated graph is such a forward graph with the last block leading to the exit; the bounds on successors are clipped to two before they are compared |
| ControlFlow.EveryBlockOnAWalk | rvzr/code_generator.py:457-458 | Every block lies on a walk from the first block to the exit |
| ControlFlow.WalksMoveForward | rvzr/code_generator.py:442-466 | Walks visit strictly later blocks |
| ControlFlow.WalksEndAtExit | rvzr/code_generator.py:442-466 | Walks are no longer than the function and can always go on until the exit |
| ControlFlow.AddTerminators | rvzr/code_generator.py:489-529 | Every block gets its branches; more than two successors are refused |
| ControlFlow.BranchesRealise | rvzr/code_generator.py:501-527 | Branches and fall-through realise the successors if and only if a block without branches precedes its only successor |
| ControlFlow.GeneratedBranchesRealise | rvzr/code_generator.py:489-529 | In generated graphs they always do |
| ControlFlow.GeneratedBranchesForward | rvzr/code_generator.py:442-476 | No branch of a generated function leads in front of the end of its own block, in any layout in order |
| GeneratedPrograms.GeneratedProgramForward | rvzr/code_generator.py:442-529 | A program laid out from a generated function is forward-only, for the emulator and for the decoder |
| GeneratedPrograms.GeneratedProgramHalts | rvzr/model_unicorn/model.py:401-466 | The contract model halts on every such program |
| ExampleProgram.ExampleIsGenerated | rvzr/code_generator.py:442-529 | A program with a branch, a load and a store is laid out from a generated function of three blocks |
| InputMinimizer.DifferentialMinimizer.StartingBlockSize | rvzr/postprocessing/input_passes.py:235-244 | The first block is the largest aligned power of two within the region and the 64-word window |
| InputMinimizer.DifferentialMinimizer.ZeroOutBlock | rvzr/postprocessing/input_passes.py:224-266 | A block is zeroed with the oracle's consent, or everything is as before; every larger block that fits there was refused |
| InputMinimizer.DifferentialMinimizer.ProcessBlock | rvzr/postprocessing/input_passes.py:208-309 | What becomes of the words of a block: larger blocks were refused; a word is zero in both inputs, or zeroing it was refused; it is reported only after making it equal was refused too |
| InputMinimizer.BlockJustified | rvzr/postprocessing/input_passes.py:268-308 | Later blocks leave the refusals behind earlier words in force |
| InputMinimizer.DifferentialMinimizer.ProcessRegion | rvzr/postprocessing/input_passes.py:186-206 | The blocks tile the region exactly, and at the start of each the oracle refused every larger block that fits, with the final words before it and the original ones behind it |
| InputMinimizer.AddressesDiffer | rvzr/postprocessing/input_passes.py:190-191 | Reported addresses identify words |
| InputMinimizer.DifferentialMinimizer.Run | rvzr/postprocessing/input_passes.py:111-144 | Every word that is not zero in both final inputs was refused zeroed, with the final words before it and the original ones behind it; a word is reported if and only if it still differs, and then keeps its values and was also refused made equal; any other word is equal in both inputs; if anything changed, the oracle accepted exactly the final inputs |
| InstructionPasses.MinimizationLoop | rvzr/postprocessing/instruction_passes.py:55-120 | Every candidate line but the first is attempted once, from the last up, each time in the program accepted so far, and nothing else is; the accepted line numbers rebuild, from the original file, the program of the last attempt that passed |
| InstructionPasses.LastPassedIsLast | rvzr/postprocessing/instruction_passes.py:104-118 | That program is the one of an attempt that passed, and every later attempt failed; without such an attempt it is the file |
| InstructionPasses.CursorDown | rvzr/postprocessing/instruction_passes.py:92-94 | The line at the cursor is still the original one |
| InstructionPasses.CursorChanges | rvzr/postprocessing/instruction_passes.py:104-118 | Changing the line at the cursor in the modified program is changing it in the rebuilt one |
| InstructionPasses.RunSimplification | rvzr/postprocessing/instruction_passes.py:227-251 | The replayed replacements give exactly the last program that passed |
| InstructionPasses.RunFenceInsertion | rvzr/postprocessing/instruction_passes.py:533-547 | The replayed fences give exactly the last program that passed |
| InstructionPasses.RunRemoval | rvzr/postprocessing/instruction_passes.py:133-152 | The result is line by line the last program that passed, up to cleared tags, and exactly that program if and only if no kept line with the tag stands right in front of a removed one |
| InstructionPasses.KeptExtends | rvzr/postprocessing/instruction_passes.py:139-147 | One more line is kept, or is removed and clears the tag of the last kept line, which always exists |
| InstructionPasses.TagsKeptExactly | rvzr/postprocessing/instruction_passes.py:143-146 | Clearing changes some kept line if and only if a kept line with the lower-case tag stands right in front of a removed one |
| InstructionPasses.ClearedUnchanged | rvzr/postprocessing/instruction_passes.py:143-146 | Clearing a tag any positive number of times changes, and shortens, exactly the lines that have it in lower case |
| InstructionPasses.RemoveTagKeepsRest | rvzr/postprocessing/instruction_passes.py:145-146 | A line is a row of pieces free of the tag with the tag in between, and removing the tag leaves exactly the pieces, in order |
| InstructionPasses.TagLost | rvzr/postprocessing/instruction_passes.py:139-149 | A search with a lost tag exists, and its result differs from the program that passed |

## Left out

- The emulator, the assembler, objdump, numpy and the statistical tests are foreign code; the emulator is an arbitrary deterministic function, and hashes are free of collisions.
- Addresses are offsets from the start of the data area, so the address normalisation of traces is the identity; an address without an instruction (a KeyError in the source) has some instruction in the model, and accesses outside the mapped area read zero and write nothing.
- Tracing is on throughout, with one actor; macro placeholders, the macro interpreter, coverage, logging and timeouts are not modelled.
- A stop request in the instruction hook takes effect before the instruction executes.
- Fault speculators, `X86CondBpasSpeculator`, `speculators_vs.py`, the ARM64 decoder and patcher, SIMD registers and their taints, REP instructions, tracers other than the constant-time one, and `SetAnalyser` are not modelled.
- Noninterference.TaintSound: assumes that declared operands cover the effects of instructions; flags that are only possibly written, undeclared effects, architectural faults, and instructions without memory accesses whose fault depends on the state (division errors) are outside it.
- Transparency.SpeculationErased: for store bypassing it compares states and not observations, because a bypassed path shows the store's successors again.
- Transparency.FinishedRunsAgree: compares with the sequential clause, not two non-zero nesting bounds, because a branch at an expired window can still take a checkpoint.
- Boosting.TaintedWordsAgree: registers outside the input and the macro stack are the same for all inputs; inputs are those of one actor.
- Copies of dependency maps are values, so the aliasing that deep copies avoid is not modelled.
- MacroPatcher.ExpandSection: bodies are given by a function of the symbol and the destination, so the search for body markers is not modelled; the entry behind the symbol table belongs to no section; the macro area is large enough. The main section's template is not modelled.
- PageTables.SandboxPages.RunExperiment: buffers can be allocated; guest and nested page tables, special registers and virtualisation are not modelled; different pages have different entries; the sandbox has nine utility pages.
- ReadOut.TraceTestCase: a run yields one reading per loaded input, so a run ended by a corrupted measurement is outside it; numbers are not converted to text and back; the ignore list and the conversion to traces are not modelled.
- InputParser.Parser.StartBatchInputParsing: allocation succeeds and sizes do not wrap around.
- Analyser.FilterViolations: the order in which violations are listed, inputs and statistics are not modelled.
- ControlFlow.GenerateEmpty: instructions and their operands are not generated, and branch conditions are left open.
- InputMinimizer.DifferentialMinimizer.Run: the inputs other than the two violating ones and the progress output are not modelled.
- InstructionPasses.MinimizationLoop: lines are skipped by an arbitrary test, and instruction replacements are an arbitrary function of the line; lower-casing is that of ASCII letters.
- The remaining passes, constant and mask simplification among them, only instantiate the same loop.
- Configuration, command line, file formats, parsing and printing are string plumbing.
