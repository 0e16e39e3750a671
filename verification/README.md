# Verified model of the unattended task orchestrator

The orchestrator runs coding tasks unattended on one Git repository and has to survive a crash at
any point. This project models its durable state machines in Dafny and proves what they keep, over
every run, every interleaving and every crash point. `dafny verify dfyconfig.toml` checks all of it.

| files | subject |
|---|---|
| `Git`, `CommitProtocol`, `CommitSafety`, `CommitRecovery`, `CommitExecutor` | the local commit transaction INTENT, COMMITTED, VERIFIED, INTEGRATED, COMPLETED over Git references |
| `QueueModel`, `Reservation`, `TaskQueue` | the queue document with its one execution slot |
| `Ownership`, `Supervision` | which processes a supervisor owns, and how it stops them |
| `FileLock` | lock files and the recovery of a dead owner's lock |
| `Restore` | crash-resumable restoration of an installation |
| `Transactions`, `AgentsText`, `InstallLifecycle` | install, upgrade and uninstall: transactions, AGENTS.md text, and the whole life cycle |
| `ModelLedger`, `EventStream`, `Paging`, `Utf8`, `ChainWalk` | bounded loops with an exact meaning |
| `Options` | the optional value |

## How the source is modelled

Objects that the source updates in place are classes whose methods are its operations: `Executor`,
`TaskQueue`, `Supervisor`, `Restorer`, `Project`, `Installation`, `Task` and `Model`. Their
`Valid()` holds after every method, so it holds in every reachable state. Loops stay loops, and a
method goes through the guards of the source one by one; what they amount to is stated beside it, without
loop and order. The lock
protocol and the commit protocol are also state machines over single steps, because many processes
interleave there.

* **Commit transaction.** `CommitProtocol` separates what the program demands before a step
  (`Discipline`, which reads only what no outside writer can change) from what Git demands at that
  moment (`GitAccepts`). A run may contain any number of crashes, recovery runs and outside writers;
  an outside writer may change everything except the task reference and the record.
  `CommitExecutor.Executor` is the program itself, with a schedule of crashes and outside writers
  that strike before any of its steps; its `Valid()` says that its history is a run of the protocol,
  so that every theorem of `CommitSafety` is about it.
* **Queue.** One method per transaction on the document, plus `Start` and `Die` for the process
  table. Three executor writes do not look at the slot; `WorkerOwnsSlot` shows why that is safe.
  A reservation takes the workspace strategy as an argument, so the exclusion proof covers every
  change of policy, including an edit of the configuration by hand.
* **Supervisor.** One method per turn of its loop. Every durable write of a turn goes through `Write`,
  before which the process may be killed; `Restart` is the next process, which knows the record alone.
* **Clocks, process tables, verification results, hashes and serialized sizes** are arguments.
  Hashes are injective constructors. An identity is a pid with its start time and is never reused.

## Results about the source that are not obvious

* **A completed item may still be aborted.** `CompletionIsNotFinal`: reconciliation clears a request
  only if its kind is that of the run, so an abort that came too late survives, exactly for the runs
  nobody asked for (`CompletedRunsAgain`); `LateAbort` drives a queue there. Exclusion holds nevertheless, because only
  automatic commits can finish with a request pending.
* **The target is checked before it is merged, not while.** `MovesFromBaseline`: the target moves
  from the baseline unless an outside writer comes between the check (executor.ts:418) and the merge
  (executor.ts:431). `RaceHappens` is a run in which it moves from somewhere else, and
  `CanMergeFromExactly` gives the commits it can move from: the ancestors of the baseline, which is
  what Git's fast-forward rule leaves.
* **Recovery is complete.** `CrashThenRecover`: whatever number of runs crashed before whichever of
  their steps, one run that is left alone completes the transaction.
* **Adoption is dead code without an outside writer on the task branch.** `AdoptionNeverHappens`:
  the commit id is persisted before the branch moves, so executor.ts:367 never has to assign it.
* **Restoration is not resumable at one point.** A death between `mkdir` and `chmod`
  (restore.ts:144) leaves a mode that the next preflight rejects. `Run` and `DiesUnrecoverably` give
  the exact condition, for a user whom the file system refuses nothing: restoration is resumable from
  every crash point if and only if every directory that has to be made gets its final mode from
  `mkdir` already (`ModesAgree`).
* **CRLF text of AGENTS.md drifts.** agents-config.ts:212 converts the line endings of the existing
  block a second time. `UpgradeRoundTrip`: the text from before the installation is recovered if and
  only if it is not CRLF text or ends with an empty line (`Recoverable`); `CrlfTextDrifts` is a
  concrete case. `Lifecycle` carries this through any number of upgrades: nothing else can be lost.
* **A commit of an installer has seen what it commits.** `Upgrade`, `Uninstall` and `Install` commit only after every
  path was read in its planned state since the last write, also while somebody else edits.
* **A failure that is reported after the commit write** of an installer transaction cannot be rolled
  back; it is the only way in which a rollback can fail when nobody interferes and its own steps
  succeed (`Upgrade`, `Uninstall`, `Install`).
* **Readiness is stricter than prepare**, and really so: `StartsReady`, `StricterInFact`.

## Model

| member | source | states |
|---|---|---|
| CommitProtocol.StepInv | src/queue/executor.ts:361-454 | every step of every participant keeps the transaction invariant: record, executor memory and task reference agree, and a recorded commit is the sealed tree on the baseline |
| CommitProtocol.WorkInv | src/queue/executor.ts:362-454 | the same for the executor's own steps |
| CommitProtocol.SoundGrows | src/queue/executor.ts:399-400 | a recorded commit keeps its tree and parent whatever objects are added |
| CommitProtocol.FastForwardable | src/queue/executor.ts:428-431 | the sealed commit is always a fast-forward of the baseline |
| CommitSafety.RunInv | src/queue/executor.ts:291-461 | the invariant holds after any prefix of any run |
| CommitSafety.RecordHistory | src/queue/executor.ts:358-453 | over a run the durable record is never replaced: its authorization is fixed, its stage only moves forward, its commit id is written once |
| CommitSafety.TaskBranchHistory | src/queue/executor.ts:362-382 | the task branch only goes from the baseline to one commit to deleted; no second commit becomes reachable, even if commit-tree ran twice |
| CommitSafety.TaskCommitIsSealed | src/queue/executor.ts:352-382 | the commit the branch shows is the sealed tree with the baseline as parent, named by the record, with the authorised candidate |
| CommitSafety.AdoptionNeverHappens | src/queue/executor.ts:364-367 | recovery never meets a task commit that its record does not name |
| CommitSafety.MergeIsAuthorized | src/queue/executor.ts:414-432 | a merge happens only with VERIFIED persisted, and leaves the target at exactly the commit whose candidate was authorised |
| CommitSafety.MergedTargetStays | src/queue/executor.ts:428-454 | after the merge the target stays at the commit until somebody else moves it |
| CommitSafety.TargetMovedOnce | src/queue/executor.ts:414-437 | the transaction moves the target at most once unless somebody else moved it in between |
| CommitSafety.MemoryWasRead | src/queue/executor.ts:418-419 | what a run remembers of the target it read itself, after its last crash |
| CommitSafety.MovesFromBaseline | src/queue/executor.ts:418-432 | the target moves from the baseline, unless an outside writer came between the check of the same run and the merge |
| CommitSafety.MergedWhatWasLeft | src/queue/executor.ts:418-431 | the merge finds the target exactly as the last writer after the check left it: at the baseline if there was none, at the commit if that was an earlier merge, wherever the outside writer put it otherwise |
| CommitSafety.CanMergeFromExactly | src/queue/executor.ts:418-431 | in every run that is about to merge, an outside writer can have the merge go through from a commit if and only if that is the recorded commit or an ancestor of the baseline |
| CommitSafety.ResetIsMergedFrom | src/queue/executor.ts:418-432 | resetting the target to any ancestor of the baseline after the check goes unnoticed: the run goes on and moves the target from there to the commit |
| CommitSafety.RaceHappens | src/queue/executor.ts:361-432 | a concrete run in which the merge moves the target from the parent of the baseline |
| CommitSafety.VerificationHappened | src/queue/executor.ts:406-413 | whatever is treated as verified, durably or in memory, passed the verification earlier in the run |
| CommitSafety.MergeWasVerified | src/queue/executor.ts:406-432 | the target only receives a commit that passed verify-integration earlier |
| CommitRecovery.RunUndisturbed | src/queue/executor.ts:361-454 | every state that crashes alone can leave is one from which recovery can go on |
| CommitRecovery.StepUndisturbed | src/queue/executor.ts:361-454 | one step of an undisturbed run keeps that |
| CommitRecovery.RecordsWhatStood | src/queue/executor.ts:313-358 | through any crashes and restarts, nothing changes before the intent is recorded, and what is recorded is the tree that stood in the workspace at the start |
| CommitRecovery.CalmCompleted | src/queue/executor.ts:444-448 | after a completed undisturbed transaction a worktree that is left is detached at the commit, with the sealed tree |
| CommitExecutor.Executor.constructor | src/queue/executor.ts:220-227 | a prepared workspace starts a run with no record |
| CommitExecutor.Executor.Pause | src/queue/executor.ts:291-461 | between two steps outside writers may act and the process may die, exactly as scheduled; durable state survives |
| CommitExecutor.Executor.Perform | src/queue/executor.ts:291-461 | a step happens completely or not at all, and without interference happens whenever Git accepts it |
| CommitExecutor.Executor.Intend | src/queue/executor.ts:313-359 | INTENT is persisted only for a reviewed, verified and authorised candidate on an unmoved target; left alone, exactly then |
| CommitExecutor.Executor.Publish | src/queue/executor.ts:369-381 | the commit id is durable before the branch moves, and the branch ends at the recorded commit; only from the task branch with the reviewed tree |
| CommitExecutor.Executor.Settle | src/queue/executor.ts:383-396 | COMMITTED is reached with the branch at the recorded commit and a clean workspace |
| CommitExecutor.Executor.CommitTask | src/queue/executor.ts:362-397 | INTENT to COMMITTED from every crash point, undisturbed always successful |
| CommitExecutor.Executor.RunVerification | src/queue/executor.ts:406-411 | left alone, it succeeds exactly if the recorded commit is checked out in a clean task root and the verification passes; afterwards the task root is clean, whatever happened |
| CommitExecutor.Executor.VerifyCandidate | src/queue/executor.ts:406-413 | COMMITTED to VERIFIED exactly when the verification passes, if undisturbed |
| CommitExecutor.Executor.ReachTargetBranch | src/queue/executor.ts:420-427 | the source root is on the target branch and clean before the merge |
| CommitExecutor.Executor.LeaveTaskBranch | src/queue/executor.ts:420-425 | in place, the source root leaves the task branch for the target |
| CommitExecutor.Executor.FastForward | src/queue/executor.ts:428-432 | from the baseline, undisturbed, the target ends at the recorded commit |
| CommitExecutor.Executor.ConfirmArrival | src/queue/executor.ts:433-435 | INTEGRATED is persisted only with the commit checked out |
| CommitExecutor.Executor.MoveTarget | src/queue/executor.ts:414-437 | a target that others moved stops the run and is not moved |
| CommitExecutor.Executor.ReleaseWorktree | src/queue/executor.ts:444-448 | left alone, the worktree is removed if clean-up was asked for, and is otherwise detached at the recorded commit |
| CommitExecutor.Executor.RetireBranch | src/queue/executor.ts:449-453 | COMPLETED is persisted with the task branch gone |
| CommitExecutor.Executor.HandOff | src/queue/executor.ts:441-454 | INTEGRATED to COMPLETED without moving the target, only with the target at the commit and a clean source root; a worktree goes or stays, detached at the commit, as was asked |
| CommitExecutor.Executor.OpenTransaction | src/queue/executor.ts:301-360 | a record is loaded only by a recovery run and created only by a first run |
| CommitExecutor.Executor.Integrate | src/queue/executor.ts:291-461 | one undisturbed run finishes with the target at the commit, a recovery run from every recoverable state and a first run from a prepared workspace; of a worktree it leaves nothing if clean-up was asked for, and otherwise the worktree detached at the commit; with crashes alone every state stays recoverable; a run at COMPLETED changes nothing; a target taken by others stops it unmoved |
| CommitExecutor.Executor.Conclude | src/queue/executor.ts:438-458 | completion records exactly the recorded commit, and only with the target there, checked out and clean |
| CommitExecutor.CrashThenRecover | src/queue/executor.ts:291-461 | after any number of attempts, first or recovery, that crash before any of their steps, fail or give up, one undisturbed run completes: the target and the queue item are at one commit, whose tree is what stood in the workspace and whose parent is the baseline, the task branch is gone, and a worktree that is left is detached at the commit; without such attempts one is left exactly if no clean-up was asked for |
| QueueModel.MissingDependency | src/queue/queue.ts:886-887 | none exactly when every dependency is completed |
| QueueModel.Fixed | src/queue/queue.ts:848-853 | none exactly when no in-place workspace is retained |
| QueueModel.Candidates | src/queue/queue.ts:859-863 | the concatenated, sorted candidate lists index into the document |
| QueueModel.CandidatesOrdered | src/queue/queue.ts:859-863 | every item of a tier is a candidate, strictly ordered: requests by sequence, due retries by sequence, pending by priority then sequence |
| Reservation.VisitMarks | src/queue/queue.ts:864-903 | a visit that does not take the item only marks it as waiting; it never starts or finishes anything |
| Reservation.FindMissing | src/queue/queue.ts:886-887 | the loop finds the first dependency that is not completed, and none exactly if there is none |
| Reservation.FindObstacle | src/queue/queue.ts:871-896 | the checks one after the other, with their constants, give the first reason to wait of the specification |
| Reservation.Judge | src/queue/queue.ts:864-903 | one turn of the loop, guard by guard, decides as the specification does |
| Reservation.MarkingKeepsDependencies | src/queue/queue.ts:886-887 | marking changes no dependency |
| Reservation.MarkingKeepsDecisions | src/queue/queue.ts:863-903 | marking earlier candidates never changes what is decided about a later one |
| Reservation.StopAt | src/queue/queue.ts:863-921 | the loop stops at the first candidate that is taken or raises the fault |
| Reservation.TakenMayRun | src/queue/queue.ts:864-903 | a candidate is taken exactly when authority, repository, strategy, time, predecessors, room and retry budget all allow it; the order of the checks only decides the reason shown |
| Reservation.TiersAre | src/queue/queue.ts:859-863 | who is a candidate, stated on the item: a request, in a paused queue an abort alone, a scheduled retry of a blocked contract, or an unstarted contract; and who goes first: requests, then retries, both by sequence, then by priority and sequence |
| Reservation.TakesOnlyEligible | src/queue/queue.ts:863-921 | with unit tests enabled, what is taken was eligible |
| Reservation.TakesFirstEligible | src/queue/queue.ts:863-921 | if any item is eligible, one is taken that is it or precedes it |
| Reservation.OnlyAbortsWithoutUnitTests | src/queue/queue.ts:869-869 | without unit tests only an approved abort can be taken |
| TaskQueue.TakeKeepsExclusive | src/queue/queue.ts:848-884 | giving the slot to a taken candidate keeps in-place claims alone, late aborts of completed items included |
| TaskQueue.GrantKeeps | src/queue/queue.ts:863-920 | the same with the candidates before it marked |
| TaskQueue.Visit | src/queue/queue.ts:864-903 | one visit decides as on the unmarked document |
| TaskQueue.Sweep | src/queue/queue.ts:863-921 | the loop stops where the specification stops, with exactly the earlier candidates marked |
| TaskQueue.Choose | src/queue/queue.ts:859-921 | the loop computes the specified reservation and keeps the document consistent |
| TaskQueue.Grant | src/queue/queue.ts:897-919 | step by step the taken item becomes what the specification says |
| TaskQueue.GrantedIs | src/queue/queue.ts:904-919 | the kind of run is the requested one, a baseline retry for a blocked item, and otherwise an execution; the item names the run, forgets which run sealed it, uses up a scheduled retry, and changes status and strategy exactly for an execution |
| TaskQueue.ChosenIsFirstEligible | src/queue/queue.ts:843-923 | the reservation refines its loop-free specification: the first eligible item in scheduling order, none only if none is eligible, no fault; the kind of run, and what the item becomes, are stated on the item it was |
| TaskQueue.PausedGrantsOnlyAborts | src/queue/queue.ts:859-869 | while the queue is paused a reservation grants and marks nothing but requested aborts and raises no fault |
| TaskQueue.UntestedFaults | src/queue/queue.ts:863-869 | without unit tests the first candidate in scope that is no abort raises the fault, unless an abort that goes before it is granted the slot; nothing else raises it |
| TaskQueue.ReconciledSound | src/queue/queue.ts:936-954 | a request that outlives a finished run belongs to an automatic commit or to an unfinished item |
| TaskQueue.CompletionIsNotFinal | src/queue/queue.ts:942-954 | after a completed run the item is a candidate again if and only if the run was an automatic one and an abort was asked for meanwhile; then it is first in line, for an abort run |
| TaskQueue.CompletedRunsAgain | src/queue/queue.ts:859-957 | the next reservation grants a completed item a run only to abort it, after an automatic run with a late abort request, and then does so if the abort may run, unless another candidate comes first |
| TaskQueue.LateAbort | src/queue/queue.ts:787-957 | it happens: approval, reservation, registration, workspace, late abort request, completion, exit and reconciliation end with an abort run granted for the completed item |
| TaskQueue.ReleaseKeeps | src/queue/queue.ts:938-956 | freeing the slot keeps exclusion |
| TaskQueue.TaskQueue.constructor | src/queue/queue.ts:320-337 | the empty queue is valid |
| TaskQueue.TaskQueue.Enqueue | src/queue/queue.ts:610-646 | accepted exactly for the approved digest and text of a stored draft whose preview is unchanged, with a new key, no other approved version, approved dependencies and readiness; then appended with the next sequence number; the same approval again is answered with the existing item and changes nothing; everything else is refused unchanged |
| TaskQueue.TaskQueue.Control | src/queue/queue.ts:755-763 | cancellation exactly for unfinished items without workspace and slot; revocation for unfinished items; nothing else changes |
| TaskQueue.TaskQueue.ClearFault | src/queue/queue.ts:746-749 | a fault is cleared exactly when no run is active |
| TaskQueue.TaskQueue.Reorder | src/queue/queue.ts:655-662 | only an unstarted item and a priority in range |
| TaskQueue.TaskQueue.RequestOperation | src/queue/queue.ts:787-809 | exactly when it may be asked for, the request is recorded with the verification failure it binds, and nothing else changes |
| TaskQueue.MakeRequest | src/queue/queue.ts:787-806 | guard by guard, a request is made exactly when it may be asked for, with the verification failure it binds |
| TaskQueue.RecoverVerification | src/queue/queue.ts:767-782 | guard by guard, the failed stage that a resumption binds, or why there is none |
| TaskQueue.ResumesTheFailedStage | src/queue/queue.ts:767-806 | a scoped task is resumed only in the stage whose recorded environment failure is recoverable, with a sealed candidate; once its candidate is committed it cannot be resumed at all |
| TaskQueue.TaskQueue.SetPolicy | src/queue/queue.ts:663-678 | the strategy changes exactly when paused, idle and without retained workspaces, lease or lifecycle lock, in a clean worktree and with valid settings |
| TaskQueue.TaskQueue.SetScope | src/queue/queue.ts:810-823 | exactly for one to five tasks with a cleanup time no earlier than the expiry, when paused, idle and without retained workspaces; an existing scope is immutable; an unrestored trial admits only its own task and run |
| TaskQueue.TaskQueue.Reserve | src/queue/queue.ts:843-923 | behind the early guards the document becomes exactly the specified reservation, and a run id is used once |
| TaskQueue.TaskQueue.Occupy | src/queue/queue.ts:916-920 | a reserved run takes the free slot |
| TaskQueue.TaskQueue.RegisterWorker | src/queue/service.ts:58-72 | a run gets a worker exactly once, from the package it was reserved with, and if supervised only under a live supervisor and with its token |
| TaskQueue.TaskQueue.Supervise | src/queue/supervision.ts:125-135 | a supervisor from the package of the reservation takes over exactly when the previous one is gone |
| TaskQueue.TaskQueue.SupervisorFinish | src/queue/supervision.ts:105-116 | only the recorded supervisor confirms the exit; a stopped run gets its outcome, and its item the seal of the candidate and no scheduled retry |
| TaskQueue.TaskQueue.Reconcile | src/queue/queue.ts:925-957 | the slot is freed exactly when the run has exited, its worker is dead and its group is gone; the run joins the history once; the item gets the reported state, or is blocked without one, and loses a request exactly of the kind of the run; a launch without a worker raises the fault after 30 seconds |
| TaskQueue.TaskQueue.RecoverExecution | src/queue/queue.ts:679-703 | recovery succeeds exactly when nothing that could use the slot is alive, and preserves the item as blocked |
| TaskQueue.TaskQueue.WorkerOwnsSlot | src/queue/executor.ts:96-111 | a live registered worker owns the slot, whatever happened since it registered |
| TaskQueue.TaskQueue.OneLiveWorker | src/queue/service.ts:62-72 | never two live workers, and each belongs to the active run |
| TaskQueue.TaskQueue.ReservedOnce | src/queue/queue.ts:906-956 | every reserved run id is exactly once in the history or in the slot, never in both |
| TaskQueue.TaskQueue.WorkspacesShareStrategy | src/queue/queue.ts:848-853 | two retained workspaces are both isolated: an exclusive one is alone |
| TaskQueue.TaskQueue.AssignRoot | src/queue/executor.ts:212-212 | the unchecked write of the workspace keeps every invariant |
| TaskQueue.TaskQueue.SealWorkspace | src/queue/executor.ts:248-253 | the unchecked write of the seal keeps every invariant |
| TaskQueue.TaskQueue.RecordCommit | src/queue/executor.ts:458-458 | the unchecked write of the commit keeps every invariant |
| TaskQueue.TaskQueue.SetState | src/queue/executor.ts:82-95 | a state is published only by the owner of the slot |
| TaskQueue.TaskQueue.WaitForPrecondition | src/queue/executor.ts:121-132 | a failed startup check parks the contract; a started workspace is never parked |
| TaskQueue.TaskQueue.RecordRecovery | src/queue/executor.ts:274-288 | a retry is scheduled only by the owner of the slot |
| TaskQueue.TaskQueue.Finish | src/queue/executor.ts:600-602 | an outcome is reported only by the owner of the slot |
| Ownership.FindPid | src/queue/process-ownership.ts:29-29 | found exactly when the table lists the pid |
| Ownership.Seeds | src/queue/process-ownership.ts:34-35 | exactly the rows with a proof, and the worker |
| Ownership.Pass | src/queue/process-ownership.ts:36-39 | a pass adds only descendants, and one that adds nothing has reached the fixpoint |
| Ownership.Close | src/queue/process-ownership.ts:34-39 | the closure ends, and is exactly what descends from a seed through parent links |
| Ownership.ClosedHoldsChains | src/queue/process-ownership.ts:36-39 | any closed set that holds the seeds holds every chain: the fixpoint is the least one |
| Ownership.OwnedTree | src/queue/process-ownership.ts:28-45 | the inventory is exactly the descendants; each refusal has exactly its cause, and there is no other; at most 256 rows |
| Ownership.WitnessKeepsOwned | src/queue/process-ownership.ts:30-34 | a witnessed process stays owned after it lost its environment and its parent |
| Ownership.SignalOwned | src/queue/process-ownership.ts:47-54 | a signal goes only to the identity that was asked for, still with a proof |
| Supervision.Merge | src/queue/supervision.ts:184-188 | at most 512 witnesses, and every live one among them |
| Supervision.MergeForgetsNothing | src/queue/supervision.ts:184-188 | as long as there is room no witness is forgotten, but for the newer row of the same process |
| Supervision.WorkerGoesFirst | src/queue/supervision.ts:198-200 | the same processes, the worker before all others |
| Supervision.KeepsTransitive | src/queue/supervision.ts:120-219 | over any number of polls, deaths and restarts: deadlines are not extended, TERM and KILL times are set once, the first reason stays, evidence only grows |
| Supervision.SignalledWasInventoried | src/queue/supervision.ts:157-206 | every process that was ever signalled, with its start time, is a row of an inventory that was taken |
| Supervision.AddEvent | src/queue/supervision.ts:201-206 | recording a justified event keeps one delivery per signal and process, and no KILL before the grace period |
| Supervision.NotYetDelivered | src/queue/supervision.ts:201-206 | looking only at the events from before the poll is enough |
| Supervision.SignalledNext | src/queue/supervision.ts:201-206 | each turn of the signalling loop deals with exactly one more process |
| Supervision.Supervisor.constructor | src/queue/supervision.ts:23-27 | the initial record: the deadlines of the run and of the stage lie maxRunMs and maxStageMs ahead |
| Supervision.Supervisor.Restart | src/queue/supervision.ts:125-146 | a new supervisor only adds an event to the record |
| Supervision.Supervisor.Block | src/queue/supervision.ts:210-219 | any failure ends in OWNERSHIP_BLOCKED without another signal |
| Supervision.Supervisor.SignalOne | src/queue/supervision.ts:201-206 | a process dealt with by an earlier poll is skipped; otherwise intent and result are recorded, and a death before either write leaves the record as far as it got; it fails only if the pid is another process now or has no proof, and what is recorded is what was observed |
| Supervision.Supervisor.SignalTree | src/queue/supervision.ts:198-206 | unless ownership fails or the supervisor dies, every process of the inventory has the signal on record; in any case nobody else got one |
| Supervision.Supervisor.Stop | src/queue/supervision.ts:189-207 | TERM until the grace period is over, then KILL, each dated once, to processes of this inventory alone, wherever the supervisor dies; given up ten seconds after KILL, or if a process lost its proof, and for no other cause |
| Supervision.Supervisor.Follow | src/queue/supervision.ts:178-188 | a new stage never gets a deadline beyond that of the run; every live process is witnessed |
| Supervision.Supervisor.SeeNothing | src/queue/supervision.ts:159-170 | EXITED exactly at the second empty inventory in a row, with an outcome or a reason, which is written first |
| Supervision.Supervisor.SeeTree | src/queue/supervision.ts:177-207 | only processes of this inventory get a signal, and the one signal that is due; unless it fails or dies, there is a reason to stop exactly if there was one, the clock went back, or the deadline of the run or of the stage has passed, the reason is recorded in that order, and then every live process has the signal on record; without one the record follows the stage |
| Supervision.Supervisor.Look | src/queue/supervision.ts:157-207 | the inventory is exactly the owned descendants, and all of the above holds for it |
| Supervision.Supervisor.Poll | src/queue/supervision.ts:147-209 | one turn of the loop, with a death before any of its durable writes: the record stays sound and only moves forward, new signals go to the inventory of this turn alone, OWNERSHIP_BLOCKED has one of five causes (the clock, a worker that never registered, a refused inventory, processes that outlive KILL, a lost proof), and EXITED needs two empty inventories in a row of the same process |
| FileLock.UnlinkKeeps | src/queue/storage.ts:128-132 | a release removes only the holder's own file |
| FileLock.RenameKeeps | src/queue/storage.ts:141-148 | a recovery that renames is the only one, and renames a dead owner's file |
| FileLock.AdvanceKeeps | src/queue/storage.ts:104-150 | every single step of every call keeps the lock invariant |
| FileLock.OthersKeep | src/queue/storage.ts:104-150 | starts, deaths, new calls and exceptions keep it too |
| FileLock.RunInv | src/queue/storage.ts:104-150 | the lock invariant holds after any interleaving |
| FileLock.MutualExclusion | src/queue/storage.ts:104-150 | no two live processes hold one lock, recovery locks at every level included |
| FileLock.LiveLockRemovedByHolder | src/queue/storage.ts:128-148 | the lock file of a live process is removed only by the call that holds it |
| FileLock.ReleaseSucceeds | src/queue/storage.ts:128-132 | a live holder never finds its lock changed |
| FileLock.RecoveryChecks | src/queue/storage.ts:135-146 | left alone, a recovery of a dead owner's lock passes all its checks |
| FileLock.RecoveryCompletes | src/queue/storage.ts:135-150 | from there on exactly that lock and its own are removed |
| FileLock.RecoveryStarts | src/queue/storage.ts:135-138 | the call for a lock that is there holds the recovery lock after one step, and then looks at the lock |
| FileLock.RecoveryDecides | src/queue/storage.ts:135-150 | from the call on: left alone, a recovery with a free recovery lock removes the lock exactly if its owner is dead and the one expected, and in any case leaves everything else as it was |
| FileLock.DeadOwnersLockIsRecovered | src/queue/storage.ts:104-150 | from the first call to the last: a process locks and dies, and the recovery of another one frees the path again |
| FileLock.LockTakes | src/queue/storage.ts:104-127 | a call for a free path holds it after one step, with its own record; one for an occupied path waits; the release leaves the locks as they were |
| FileLock.StartsAndLocks | src/queue/storage.ts:104-127 | a new process can lock a free path |
| FileLock.ThrowReleases | src/queue/storage.ts:138-150 | an exception in a recovery releases the recovery lock |
| Restore.SortByDepth | src/installer/restore.ts:136-136 | every path once, children before their directories |
| Restore.Restorer.constructor | src/installer/restore.ts:97-106 | a sealed switch starts from the sealed tree |
| Restore.Restorer.DeleteAll | src/installer/restore.ts:136-141 | exactly the paths that must go are gone; every rmdir finds its directory empty; a death leaves a tree between the two |
| Restore.Restorer.EmptyByNow | src/installer/restore.ts:136-141 | deepest first, a directory is empty when its turn comes |
| Restore.Restorer.RestoreDir | src/installer/restore.ts:144-144 | a directory is made and then given its mode, with a death possible in between |
| Restore.Restorer.RestoreFile | src/installer/restore.ts:149-154 | a death leaves the file absent or cut at a prefix of the original |
| Restore.Restorer.RestoreOne | src/installer/restore.ts:142-156 | one original is back, or is explained by what the death left of it |
| Restore.Restorer.ReadyByNow | src/installer/restore.ts:142-143 | shallowest first, the directory of an original is back before it |
| Restore.Restorer.CreateAll | src/installer/restore.ts:142-156 | the tree equals the original; a death leaves a tree between the two |
| Restore.Restorer.StaysExplained | src/installer/restore.ts:118-130 | whatever a death left is accepted by the next preflight if every mode agrees |
| Restore.Restorer.Preflight | src/installer/restore.ts:116-133 | every path is explained before the first change |
| Restore.Restorer.IntendRestore | src/installer/restore.ts:134-135 | the durable intent names exactly the paths that differ, once |
| Restore.Restorer.Change | src/installer/restore.ts:136-157 | one pass ends with the original tree; a death leaves a tree between the two |
| Restore.Restorer.Run | src/installer/restore.ts:108-160 | for a user whom the file system refuses nothing: rejected before any change exactly when some path is unexplained; otherwise ends with the original tree or dies; if every mode agrees the next run goes on |
| Restore.Restorer.RunUntilDone | src/installer/restore.ts:108-160 | any number of runs that die anywhere, then one that does not, end with the original tree |
| Restore.DiesUnrecoverably | src/installer/restore.ts:118-144 | the condition is necessary: a mode that disagrees gives a death after which every run is rejected |
| Restore.PrivateDirectory | src/installer/restore.ts:144-144 | a concrete tree for which this happens |
| AgentsText.MarkerCount | src/installer/agents-config.ts:68-79 | counts occurrences from the left without overlap |
| AgentsText.CountsOne | src/installer/agents-config.ts:138-151 | for the markers, a count of one means a unique occurrence, the one indexOf finds |
| AgentsText.BlockRangeIs | src/installer/agents-config.ts:138-163 | there is a block exactly where each marker occurs once, the beginning first; without any marker there is none; everything else is invalid |
| AgentsText.StripFindsBare | src/installer/agents-config.ts:111-116 | the line-ending test looks for a line feed that no carriage return precedes |
| AgentsText.ToCrlfOccurs | src/installer/agents-config.ts:118-122 | conversion moves every occurrence of a marker and makes no new one |
| AgentsText.BlockShape | src/installer/agents-config.ts:97-129 | a packaged block keeps one marker at each end in either line ending |
| AgentsText.MergedLineEnding | src/installer/agents-config.ts:111-136 | a merged text keeps the line ending of the original |
| AgentsText.MergedShape | src/installer/agents-config.ts:124-163 | the block of a merged text is found again exactly where it was put |
| AgentsText.UpgradeCuts | src/installer/agents-config.ts:193-225 | an upgrade cuts out exactly the block, and then compares with a second conversion of it |
| AgentsText.UpgradeWithoutBlock | src/installer/agents-config.ts:193-203 | text that lost its block gets it appended again, and is remembered as it is |
| AgentsText.UpgradeKeepsEdits | src/installer/agents-config.ts:205-225 | of text that was edited around its block only the block goes, with the end of its line; what is left is remembered and gets the new block |
| AgentsText.UpgradeCrlf | src/installer/agents-config.ts:205-224 | for CRLF text the separator stays in what is remembered |
| AgentsText.UpgradeRoundTrip | src/installer/agents-config.ts:193-225 | the result is that of a fresh installation; the earlier text is recovered if and only if it is recoverable |
| AgentsText.CrlfTextDrifts | src/installer/agents-config.ts:212-224 | one CRLF line comes back with an empty line added |
| AgentsText.ReinstallIdempotent | src/installer/agents-config.ts:165-187 | installing again changes nothing; another block is refused |
| Transactions.Project.Write | src/installer/upgrade.ts:1731-1759 | a write happened, did not happen, or happened and was reported as a failure; a new file never takes the place of one that appeared meanwhile |
| Transactions.Project.Publish | src/installer/upgrade.ts:1749-1754 | a new file gets its name only if nothing has that name; otherwise nothing changes |
| Transactions.Project.WriteAll | src/installer/upgrade.ts:1899-1956 | if nobody interferes, every path stays in one of its two planned states, and what changes went from its state before to its state after under an unchanged manifest |
| Transactions.Project.WriteOne | src/installer/upgrade.ts:1899-1937 | if nobody interferes, a path is written only from its planned state and under an unchanged manifest, and success means just that |
| Transactions.Project.CheckSafe | src/installer/upgrade.ts:1771-1799 | passes only if every path is in one of its two planned states |
| Transactions.Project.RestoreAll | src/installer/upgrade.ts:1801-1804 | only planned paths change, each to its state from before |
| Transactions.Project.Rollback | src/installer/upgrade.ts:1761-1832 | without edits between its safety check and the restore, it never overwrites a path in neither planned state; succeeds only with every path restored and read back, no step failed and the marker gone; succeeds if its own steps do |
| Transactions.Project.RollbackPrepared | src/installer/install-manifest.ts:1673-1782 | the same, under the same condition, for a prepared installation, whose manifest is removed |
| Transactions.Project.Commit | src/installer/upgrade.ts:1970-1971 | the one write that commits, which may fail after it took effect |
| Transactions.Project.Upgrade | src/installer/upgrade.ts:1871-2002 | all or nothing: committed with every path as planned, and then only after the caller verified, every path was read in its planned state since the last write, the manifest was seen unchanged after that, and no step failed; or rolled back with every path and the manifest as before; a rollback fails only through interference, its own steps, or a failure after the commit; without a fault or interference it commits exactly from the planned state |
| Transactions.Project.Uninstall | src/installer/uninstall.ts:1081-1183 | the same for uninstallation |
| Transactions.Project.Install | src/installer/install-manifest.ts:1412-1545 | the same for installation |
| InstallLifecycle.InstallRemembers | src/installer/install-manifest.ts:1163-1213 | an installed path holds what the manifest says and remembers what was there |
| InstallLifecycle.InstallOverwritesNothing | src/installer/install-manifest.ts:530-578 | an accepted installation changes no mode, and no content except of merged files |
| InstallLifecycle.UpgradeOverwritesNothing | src/installer/upgrade.ts:976-1005 | an accepted upgrade takes over no file with different content or mode, except merged ones, and finds managed content unmodified |
| InstallLifecycle.UninstallKeepsEdits | src/installer/uninstall.ts:524-577 | an edited file is retained; every other managed path ends with the original |
| InstallLifecycle.InstallRefuses | src/installer/install-manifest.ts:530-578 | refused exactly if a file at the path of a resource differs and is not merged, or has another mode than the one asked for |
| InstallLifecycle.InstallDelivers | src/installer/install-manifest.ts:1163-1213 | an accepted plan holds every resource with its content and mode, and the block appended to AGENTS.md, and nothing else |
| InstallLifecycle.UpgradeDelivers | src/installer/upgrade.ts:972-1055 | an accepted upgrade plans every resource with its content, and the mode asked for, or else the managed, the present or the default one |
| InstallLifecycle.UpgradeRefuses | src/installer/upgrade.ts:953-1005 | an unedited installation is not upgraded exactly if a file of the user at a new path is in the way |
| InstallLifecycle.UpgradeRefusesExactly | src/installer/upgrade.ts:869-1005 | in general exactly if also a managed file is gone or edited, AGENTS.md aside, or its block cannot be found |
| InstallLifecycle.UpgradeAgents | src/installer/upgrade.ts:869-929 | the AGENTS entry of an upgrade remembers the original up to the drift |
| InstallLifecycle.UpgradePrevious | src/installer/upgrade.ts:953-1055 | paths added, kept, dropped or re-added remember what was there before the package |
| InstallLifecycle.UpgradeRemembers | src/installer/upgrade.ts:953-1089 | a committed upgrade keeps this for the whole project |
| InstallLifecycle.UninstallRestores | src/installer/uninstall.ts:524-577 | a committed uninstallation brings back exactly what was remembered |
| InstallLifecycle.DriftKeepsUnmarked | src/installer/agents-config.ts:205-224 | the drift happens once and makes no marker |
| InstallLifecycle.Installation.Upgrade | src/installer/upgrade.ts:1138-1327 | refused exactly if a file of the user is in the way of a new path; rolled back without a trace, and only after a fault; or done: every resource is on the disk with its content and mode, the block is in AGENTS.md after the text from before, everything else is as before the package, and the manifest lists just the resources; it keeps the project restorable |
| InstallLifecycle.Installation.Uninstall | src/installer/uninstall.ts:600-642 | done, the disk is what was remembered; otherwise nothing changed, after a fault |
| InstallLifecycle.Install | src/installer/install-manifest.ts:1163-1249 | refused exactly if a file of the user is in the way; an installation that is refused or rolled back changes nothing, and is rolled back only after a fault; done, every resource is on the disk with its content and mode, and the block follows the text of AGENTS.md |
| InstallLifecycle.Lifecycle | src/installer/upgrade.ts:953-1089 | install, any upgrades with any resource sets and failures, uninstall: every path ever managed has its content and mode back, AGENTS.md if recoverable; without a fault the uninstallation is done |
| ModelLedger.AppendCall | src/queue/model-ledger.ts:23-45 | a reserved call keeps the ledger invariant |
| ModelLedger.FinishCall | src/queue/model-ledger.ts:48-55 | a completed call keeps the ledger invariant |
| ModelLedger.GrowsTransitive | src/queue/model-ledger.ts:18-55 | over any number of operations no call disappears or is reopened, and the deadline stays |
| ModelLedger.CoderCallsContiguous | src/queue/model-ledger.ts:28-41 | the coder calls of a cycle are one block, the first fresh, each later one continuing its predecessor at the same checkpoint |
| ModelLedger.ReviewerOnce | src/queue/model-ledger.ts:36-41 | a reviewer is invoked once for each attempt of a cycle |
| ModelLedger.InterruptedBlocks | src/queue/model-ledger.ts:27-27 | an interrupted call stays the last one until its exit is recorded |
| ModelLedger.Task.Reserve | src/queue/model-ledger.ts:18-46 | budget by budget, reserved exactly within every one; ids are consecutive; the deadline is fixed by the first call |
| ModelLedger.Task.Complete | src/queue/model-ledger.ts:48-55 | exactly the unfinished last call is completed, with proof of exit |
| ModelLedger.Task.TakeTurn | src/queue/model-run.ts:73-111 | a turn adds exactly the call that was asked for, with its result if the worker lives to record it, and the loop goes on exactly after a coder call that its step budget stopped |
| ModelLedger.Task.Run | src/queue/model-run.ts:70-112 | an invocation ends, keeps the ledger invariant wherever the worker dies, adds only calls of its own cycle and attempt, and adds any exactly when its first one may be reserved; each turn adds its own call, the continuation of the one before, and the loop stops exactly at a turn that does not go on, is not allowed or cannot be reserved |
| EventStream.LinesOfConcat | src/queue/model-process.ts:85-94 | cutting the text anywhere and carrying the incomplete line over gives the same lines |
| EventStream.SmallPrefix | src/queue/model-process.ts:93-93 | if no line is too long, no incomplete line ever was |
| EventStream.ByteLengthCounts | src/queue/model-process.ts:93-93 | the size of a character is the number of bytes of its encoding |
| EventStream.StepsJustified | src/queue/model-process.ts:62-78 | the view shows the session of the first step event, exactly the steps started in it, and as counted exactly those finished after their start |
| EventStream.ReasonIs | src/queue/model-process.ts:62-78 | which reason each line gives: an error event a host error; a line that does not parse, is of another session or finishes no new started step invalid events; a counted step that uses up the limit the step budget; anything else none |
| EventStream.ReasonIsDecisive | src/queue/model-process.ts:59-61 | later reasons replace only the step budget |
| EventStream.StreamReason | src/queue/model-process.ts:59-78 | the stop reason is the first one other than the step budget, if any |
| EventStream.ReportedEnding | src/queue/model-process.ts:59-134 | what a call returns: the first other reason, the step budget exactly if it is the only one and TERM was sent, a plain exit otherwise |
| EventStream.DecisiveIs | src/queue/model-process.ts:59-61 | among the reasons the step budget decides exactly if there is no other, and otherwise the first other one does |
| EventStream.Model.Drain | src/queue/model-process.ts:90-92 | exactly the complete lines are handled, in order |
| EventStream.Model.Receive | src/queue/model-process.ts:85-99 | one chunk, cut inside a character or not, with both limits |
| EventStream.Model.Close | src/queue/model-process.ts:84-84 | the last line counts without a line feed, an incomplete character included |
| EventStream.Model.Read | src/queue/model-process.ts:59-99 | below the limits the result is the fold over the lines of the decoded bytes, for every chunking of the bytes |
| Utf8.DecodedInPieces | src/queue/model-process.ts:54-89 | cutting the bytes anywhere, inside a character too, and carrying the incomplete character over gives the same text |
| Utf8.DecodesCharacters | src/queue/model-process.ts:54-89 | whole characters are decoded one by one and nothing is left over |
| Paging.BoundarySplits | src/queue/queue.ts:420-423 | the test of one byte means that the text before it consists of whole characters |
| Paging.ReadSnapshotChunk | src/queue/queue.ts:406-437 | the largest page of whole characters that fits; failure only if not even one character does |
| Paging.ReadEvidence | src/queue/presentation.ts:81-116 | a page of whole characters that fits and advances: the longest up to the target, or up to half of one that did not fit; failure only if a response was too large or no character ends within the target |
| Paging.ListSnapshot | src/queue/queue.ts:370-405 | as many entries as limit and size allow; failure only if one entry does not fit |
| Paging.PagesConcatenate | src/queue/queue.ts:370-437 | consecutive pages concatenate to what they cover |
| Paging.ReadAll | src/queue/queue.ts:406-437 | following the cursor ends, splits only between characters, and loses nothing; it reaches the end whenever every response fits |
| Paging.ListAll | src/queue/queue.ts:370-405 | the same for a list |
| ChainWalk.FindOwner | src/queue/preconditions.ts:136-136 | the integrated task of a commit, if there is one; the first in the document |
| ChainWalk.CheckRecord | src/queue/executor.ts:172-175 | field by field, the record is that of a finished transaction of the task, with this commit, parent, branch and tree, and not pushed |
| ChainWalk.WalkReadiness | src/queue/preconditions.ts:131-145 | accepts exactly the linear histories of completed sealed transactions, and gives up exactly at a task whose authorisation or record is missing |
| ChainWalk.WalkPrepare | src/queue/executor.ts:163-179 | accepts exactly the same histories, and gives up at any other mismatch in a task |
| ChainWalk.FindExecutionChange | src/queue/preconditions.ts:124-127 | path by path, whether an execution path changed that is no artifact of another integrated task |
| ChainWalk.FindInputChange | src/queue/executor.ts:113-120 | path by path, whether a protected path changed that is no artifact of another completed task |
| ChainWalk.ReadinessIsStricter | src/queue/preconditions.ts:124-127 | what readiness tolerates, prepare tolerates |
| ChainWalk.EvaluateBaseline | src/queue/preconditions.ts:120-148 | ready, and the check itself failed, exactly under the loop-free conditions |
| ChainWalk.PrepareBaseline | src/queue/executor.ts:144-188 | starts, and gives up, exactly under the loop-free conditions; never a refresh reason when ready |
| ChainWalk.ReadyStarts | src/queue/preconditions.ts:120-148 | ready implies that prepare starts, in the same document and Git state |
| ChainWalk.StartsReady | src/queue/executor.ts:144-188 | the converse holds exactly when the stricter protection test passes |
| ChainWalk.StricterInFact | src/queue/preconditions.ts:100-101 | a fixed execution path outside the configuration separates the two |

## Left out

- Shell scripts, Gradle, OpenCode and the verification templates: a step that succeeds, fails or returns an arbitrary value.
- Contract validation, argument parsing, help texts, notifications, doctor checks and presentation summaries: settled by reading one body each.
- Outside writers that move the task branch: the commit theorems assume that nobody else does.
- Physical durability: an atomic replacement is one step, and what it wrote survives a crash.
- Termination measure of a recovery: `Integrate` is straight-line code that ends by construction, so no separate measure is stated.
- Deadlock freedom of the queue: not claimed; dependencies can become cyclic when one is cancelled and a new version is enqueued.
- Lookup of a queue item by task id instead of its key, delegation grants and lease files: not part of the queue model.
- Locks on the queue document: each queue method is one transaction; that transactions exclude each other is `MutualExclusion`.
- TaskQueue.TaskQueue.Enqueue: delegated approvals are not modelled, and what files say about a draft (approval text, verification preview, readiness) is an argument.
- TaskQueue.TaskQueue.RequestOperation: whether the approval phrase is the configured one, and what the ledgers of failed verifications say, are arguments; of a binding only the stage is kept.
- TaskQueue.TaskQueue.SetScope: the textual form of run identifier, task keys and times is not modelled.
- TaskQueue.TaskQueue.SetPolicy: what makes the settings valid and the worktree clean is an argument.
- TaskQueue.TaskQueue.SetState: which states a run can report is decided by the executor and its scripts; the model takes their discipline (completion only by an automatic commit or a commit run, abortion only by an abort run) as a precondition.
- TaskQueue.TaskQueue.Finish: the same discipline is a precondition of the reported outcome.
- TaskQueue.TaskQueue.AssignRoot: that a run prepares its workspace after a successful startup check and before it reports is a precondition.
- TaskQueue.TaskQueue.RecordRecovery: that a baseline attempt has a workspace is a precondition.
- Supervision.Supervisor.Poll: the recovery of a dead member's queue lock inside the loop is not modelled, and evidence writes succeed.
- Supervision.Supervisor.Restart: the clock does not run backwards between two supervisors.
- Ownership.SignalOwned: the process table of the check and the signal are one step; a pid is not reused within the resolution of its start time.
- FileLock.AdvanceKeeps: the pending file of a lock is private to its call and is not modelled.
- Restore.Restorer.Run: symbolic links are compared by target without resolving them, parents of the registered roots exist, and the modes of half-written files are arbitrary. File permissions are not enforced: the system refuses no operation, although a directory whose final mode forbids writing would stop an ordinary user at its children (restore.ts:141-153).
- Transactions.Project.Rollback: somebody else may edit while files are written but not while they are rolled back; parent directories, history files and recovery copies are not modelled beyond the failures they can cause.
- InstallLifecycle.Lifecycle: users do not edit managed files, AGENTS.md has no markers before, and the merged OpenCode configuration is one of the resources with an arbitrary text.
- ModelLedger.Task.Run: the checkpoint and binding computations are arguments of each turn.
- EventStream.Model.Read: what a group of bytes decodes to is an arbitrary function in which only a whole character gives a line feed, JSON parsing is an arbitrary function of the line, and other causes to stop (deadline, cancellation) do not occur.
- Paging.ReadAll: a cursor carries only its offset; bindings to another task or file are refused before and are not modelled.
- ChainWalk.EvaluateBaseline: only the baseline part of readiness is modelled; the worktree, version and ownership conditions can only make it refuse more.
