# Verification of the Stepflow orchestrator's durable execution and its tools

A Dafny model of the parts of the repository whose behaviour is easiest to get
wrong, with proofs of what the code and its documentation promise, and exact
conditions where a promise does not hold. `dafny verify dfyconfig.toml` checks
everything.

## What is modelled

**Durable execution under crashes.** `Cluster.dfy` is a step system of any number
of orchestrators: every store call of a submission, of the claim loop, of the
recovery pass and of an ending executor is one step, interleaved with crashes,
restarts, lease lapses and orphan passes with any live set, right or wrong.
`ClusterExclusion.dfy` proves who may hold a run, `ClusterJournal.dfy` that the
journal backs whatever is visible, `ClusterChanges.dfy` what changes the shared stores.
`Recovery.dfy` and `Submission.dfy` are the same code as methods on the stores of `Stores.dfy`, with every failing call.
`Checkpoint.dfy`, `CheckpointReplay.dfy`, `Checkpointing.dfy` and `DurableRun.dfy`
are the checkpoint records, what replay does, the periodic writer, and one
execution tree over any number of process lives; `ReplayMeaning.dfy` reads the result of
a replay off the entries, `DurableLife.dfy` says what an executor's maps hold.
`ItemState.dfy` is the state of one item with its dependency index, `ItemReplay.dfy` that state live against its replay.
`DurableDrift.dfy` says when an executor's memory leaves the journal after a recovery,
`ItemFlows.dfy` ties that to the items, and `DurableLosses.dfy` and `DriftWitness.dfy`
hold the runs in which something is lost. `Journals.dfy` and `Records.dfy` are shared.

**Tools around it.** The snapshot-test engine (`Json.dfy`, `SnapshotNormalize.dfy`,
`SnapshotMatch.dfy`, `SnapshotUpdate.dfy`), the flow visualizer (`Visualizer.dfy`,
`VisualizerEmission.dfy`, `VisualizerGraph.dfy`, `VisualizerShape.dfy`,
`VisualizerClash.dfy`, `VisualizerNodes.dfy`, `VisualizerLabels.dfy`, `DotEscape.dfy`),
the docling converter cache (`ConverterCache.dfy`, for both copies of the class, which
differ in one import), the retry delays (`RetryBackoff.dfy`), the
protobuf to JSON conversion (`ProtoJson.dfy`, `Float64.dfy`) and the iterate component
(`Iterate.dfy`). `Basics.dfy`, `Ordering.dfy` and `FlowResult.dfy` are shared.

## Where code and documentation disagree

The model follows the code.

- `recovery/restore.rs:13-16` says that both recovery paths produce the same output.
  They agree on which runs there are and on the terminal status, always, and on the
  states of the runs if the checkpoint is one of the first process life
  (`DurableRun.RecoveryPathsAgreeOnRuns`); the exact condition for everything is
  `DurableRun.RecoveryPathsAgreeIff`. Three things go wrong:
  - The subflow map of a checkpoint is the executor's map of *recovered* subflows
    (`flow_executor.rs:369`, `:509`), which new subflows never enter and matched ones
    leave (`:546`), so entries are lost (`DurableLosses.CheckpointForgetsSubflow`).
  - A task id that recovery hands over is in the captured map only once its task has
    been dispatched again (`flow_executor.rs:434-450`). A recovered executor starts at
    most ten tasks at once (`flow_executor_builder.rs:93`); if more were in flight, which
    a larger limit at submission or tasks started next to waiting parents allow, the ids
    beyond that are lost at the next checkpoint
    (`DurableLosses.CheckpointForgetsTaskId`).
  - A recovered executor initializes its runs again (`flow_executor.rs:778-792`), and
    what that does to memory is not always what its journal entry does in a replay:
    live, only the steps of the output are evaluated again, in replay all needed ones.
    A checkpoint of such a life restores a run state the journal does not give
    (`DriftWitness.SecondLifeCheckpointDrifts`).
- `run_state.rs:163-171` describes one state transition for execution and recovery; for
  the reason just given that holds exactly as long as initializations are harmless
  (`ItemReplays.SecondLifeCanDiverge`, `ItemReplays.AgreeThroughoutIff` for one item,
  `DurableDrift.RecoveryDriftsIff` for a tree). It also fails for a sub-run of several
  items whose announcements a crash cut short: the rest is never announced
  (`DurableDrift.HalfAnnouncedDrifts`).
- A submission reports an error if reading the record back fails
  (`executor.rs:176`), although the run is being executed
  (`Submission.Environment.SubmitRun`).
- Graceful shutdown releases all leases so that others can reclaim the runs at once
  (`stepflow-server/src/bin/main.rs:219-223`) while executors may still be working on
  them (`ClusterExclusion.ShutdownLosesExclusion`).
- `recovery.rs:193-197` leaves the entry in the active recoveries to the spawned
  executor; for a tree that is already complete none is spawned
  (`recovery/tree.rs:122-135`) and the entry stays
  (`Recovery.CompleteTreesStayRecovering`).
- `metadata_store.rs:219-222` argues that a wrong orphan mark is harmless because the
  owner's lease is still there. It is not there if the owner released it while it still
  held the run, or has not acquired it yet
  (`ClusterExclusion.CarelessReleaseLosesExclusion`, `SubmissionRaceExecutesTwice`).
- `submit.rs:91-95` promises the integer back for whole floats; for 2^63 the saturating
  cast gives 2^63 - 1 (`ProtoJson.WholeNumbersConvert`).
- Test updates and the count of failed cases are keyed by case name; with duplicate
  names both go wrong (`SnapshotUpdate.DuplicateNamesGoWrong`).
- The visualizer draws nothing for the fallback of a variable and does not keep its
  ids apart from step names (`VisualizerShape.FallbackIsNotDrawn`,
  `VisualizerClashes.ClashMisleads`; exact conditions in `DrawnFaithfullyIff`,
  `IdsDistinctIff` and `ClashAddsExactly`).

## Assumptions

- Run ids are fresh (`Uuid::now_v7`); no subflow has the id of its root.
- A lease lapses only after the life of its owner that took it has ended; the lease
  manager grants a free lease and the owner's own.
- The needs of a step and the steps an output asks for are functions of the run's
  creation and the item's completed steps and results.
- The MessagePack, YAML and JSON codecs are lossless; flows named in the journal are in
  the blob store; the options digest of the converter cache is injective.
- `list_runs` returns distinct records that match its filter, at most `limit` of them.
- Keys of JSON objects and protobuf structs are unique, as in the map types used.

## Model

| member | source | states |
|---|---|---|
| ClusterExclusion.OneHolderPerRun | stepflow-rs/crates/stepflow-execution/src/recovery.rs:259-370 | over every interleaving of submissions, claims, executor ends, shutdowns, crashes, restarts, lease lapses and wrong orphan marks in which no lease is released while its process still holds the run for another reason: no run is claimed, or executed or submitted under a lease, by two live orchestrators |
| ClusterExclusion.CarefulStepKeepsLeases | stepflow-rs/crates/stepflow-execution/src/recovery.rs:298-360 | the invariant behind it, step by step: whatever a live process holds is leased to the current life of that process |
| ClusterExclusion.ReleaseIsSafeIffSoleHolder | stepflow-rs/crates/stepflow-execution/src/flow_executor.rs:214-224 | the release at the end of an executor keeps that invariant if and only if the executor was its process's only reason to hold the run |
| ClusterExclusion.ReleaseAllIsSafeIffHoldingNothing | stepflow-rs/crates/stepflow-server/src/bin/main.rs:219-223 | graceful shutdown releases every lease at once: that keeps the invariant if and only if the process holds no run |
| ClusterExclusion.ShutdownLosesExclusion | stepflow-rs/crates/stepflow-state/src/lease_manager.rs:128-142 | a shutdown while a Running run is still held, with a lease manager that does release: five steps give the run a second live holder |
| ClusterExclusion.CarelessReleaseLosesExclusion | stepflow-rs/crates/stepflow-execution/src/flow_executor.rs:214-224 | from every state in which an executor ends while its process holds the still Running run for another reason, a run of five steps in which the run gets a second live holder |
| ClusterExclusion.ReclaimThenReleaseLosesExclusion | stepflow-rs/crates/stepflow-execution/src/recovery.rs:265-294 | a process that re-claims a run it is executing and then ends that execution: a second live process claims the run too |
| ClusterExclusion.ExclusionCanFail | stepflow-rs/crates/stepflow-execution/src/recovery.rs:259-370 | the same from the initial state, for any two orchestrators and any run: the unguarded statement is false |
| ClusterExclusion.SubmissionRaceExecutesTwice | stepflow-rs/crates/stepflow-execution/src/executor.rs:118-173 | a wrong orphan mark between the creation of the record and the lease request, whose answer is ignored: two live orchestrators execute the run, the submitter without a lease |
| ClusterExclusion.DoubleExecutionNeedsUnleasedSubmission | stepflow-rs/crates/stepflow-execution/src/executor.rs:123-131 | in runs in which no lease is released while its process still holds the run: of two live executors of one run on different orchestrators, one works without the lease, which only a submission does |
| ClusterExclusion.UnleasedExecutionCanBeDoubled | stepflow-rs/crates/stepflow-execution/src/executor.rs:123-131 | and conversely: from any state in which an executor works without the lease on a Running run whose lease is free, an idle process can come to execute that run as well |
| ClusterExclusion.TakeOverSucceeds | stepflow-rs/crates/stepflow-state/src/metadata_store.rs:194-229 | an idle live process claims any Running run whose lease is free, after an orphan pass with an incomplete live set |
| ClusterJournal.VisibleRunsAreJournaled | stepflow-rs/crates/stepflow-execution/src/executor.rs:79-121 | with a crash allowed between any two store calls, in every reachable state a run visible in the metadata store has its creation entry as the first entry of its journal, at exactly the recorded sequence |
| ClusterJournal.ClaimedRunsReplayFromCreation | stepflow-rs/crates/stepflow-execution/src/recovery.rs:362-366 | the start sequence of every claimed run points at its creation entry, and streaming from it delivers the whole journal |
| ClusterJournal.OnlySubmissionMakesVisible | stepflow-rs/crates/stepflow-execution/src/flow_executor_builder.rs:184-195 | the second `create_run`, with sequence 0, never creates a record in any reachable state: it always finds one |
| ClusterJournal.OnlySubmissionStartsJournals | stepflow-rs/crates/stepflow-execution/src/executor.rs:94-106 | no step but a submission's own starts a journal, and it starts it with the creation entry |
| ClusterJournal.RunKeepsConsistent | stepflow-rs/crates/stepflow-execution/src/executor.rs:56-177 | the inductive invariant over whole runs: journals in order, records backed by them, submissions, listings, claims and executors tracking both |
| ClusterJournal.StepExtends | stepflow-rs/crates/stepflow-execution/src/executor.rs:84-87 | no step changes what was journaled or a recorded creation sequence; journals only grow at the end |
| ClusterChanges.StatusChanges | stepflow-rs/crates/stepflow-execution/src/recovery.rs:205-214 | a recorded status is written by the run's executors, by the recovery of a complete tree, and as failed by a submission or recovery that gives up; by no other step |
| ClusterChanges.OwnerChanges | stepflow-rs/crates/stepflow-state/src/metadata_store.rs:194-229 | a recorded owner is removed by an orphan mark of a Running run whose owner is not in the live set, and corrected by a claim pass; by no other step |
| ClusterChanges.NewRecord | stepflow-rs/crates/stepflow-execution/src/executor.rs:108-121 | a new record is Running; made by a submission it has that owner and the sequence of its creation entry, made by an executor neither |
| ClusterChanges.LeaseChanges | stepflow-rs/crates/stepflow-state/src/lease_manager.rs:80-142 | a lease is taken by an answered acquisition of a free run or one's own, given up by its owner, and lapses after the life that took it; no other step touches it |
| ClusterChanges.EndedStaysEnded | stepflow-rs/crates/stepflow-execution/src/recovery.rs:265-294 | a run that has ended stays ended over any continuation, so no later listing offers it for recovery |
| Recovery.ClaimForRecovery | stepflow-rs/crates/stepflow-execution/src/recovery.rs:259-370 | for any answers of the two listings and any store failures: when the own runs leave room below the limit, the orphans are listed for the rest; of all listed runs exactly those are claimed, each position once and with its flow and recorded creation sequence, whose lease manager answered and whose lease was free or ours; a free lease becomes ours, a held one stays; owners are corrected to the lease's and nothing else is written; a failed listing changes nothing |
| Recovery.ListedRunOutcome | stepflow-rs/crates/stepflow-execution/src/recovery.rs:298-360 | per listed run: its lease goes to this orchestrator if it was free; metadata and lease agree afterwards if and only if the owner needed no correction or the correcting write succeeded |
| Recovery.PassHealsListedRuns | stepflow-rs/crates/stepflow-execution/src/recovery.rs:247-258 | self-healing: without store errors every listed run ends up with the same owner in both stores |
| Recovery.PassCreatesNoDisagreement | stepflow-rs/crates/stepflow-execution/src/recovery.rs:247-258 | and no run, listed or not, that agreed before disagrees afterwards |
| Recovery.UnlistedRunsUntouched | stepflow-rs/crates/stepflow-execution/src/recovery.rs:298-360 | records and leases of runs that were not listed are not changed |
| Recovery.ClaimedRunsAreLeased | stepflow-rs/crates/stepflow-execution/src/recovery.rs:307-366 | every claimed run was listed, is leased to this orchestrator, and starts at its recorded creation sequence; no more runs are claimed than were listed |
| Recovery.ClaimedIffGranted | stepflow-rs/crates/stepflow-execution/src/recovery.rs:307-359 | a listed run is claimed if and only if the lease manager answered and the lease was free or already ours |
| Recovery.RecoverOrphanedRuns | stepflow-rs/crates/stepflow-execution/src/recovery.rs:137-233 | one pass over those claims, run by run: a claimed run that is not executing is handled once; a failed one becomes Failed unless that write fails, a complete one gets its journaled status, a resumed one is left alone; owner, flow and creation sequence never change, nor do other runs; exactly the resumed runs start executing, exactly the failed ones leave the active recoveries; the lists name the others and the failed ones with their errors, and the counters are their lengths |
| Recovery.PassAccounts | stepflow-rs/crates/stepflow-execution/src/recovery.rs:166-224 | the same for any iteration order of the map of trees: counters equal the list lengths and add up to the number of trees, the lists are disjoint and name each root once with its own error, exactly the failed roots leave the active recoveries |
| Recovery.RecoveryPass.RecoverTree | stepflow-rs/crates/stepflow-execution/src/recovery.rs:179-224 | one tree per outcome: which status is written, if any, which tracker and which list it enters or leaves, and that nothing else changes |
| Recovery.RecoveryPass.RecoverTrees | stepflow-rs/crates/stepflow-execution/src/recovery.rs:179-224 | the loop handles each tree exactly once, in some order |
| Recovery.RecoveryResult.RecordSuccess | stepflow-rs/crates/stepflow-execution/src/recovery.rs:108-111 | counter and list move together, the failure side stays |
| Recovery.RecoveryResult.RecordFailure | stepflow-rs/crates/stepflow-execution/src/recovery.rs:114-117 | counter and list move together, the success side stays |
| Recovery.PassStaysWithinLimit | stepflow-rs/crates/stepflow-execution/src/recovery.rs:279-294 | a pass handles at most `limit` roots, even if a run is in both listings, and none that is executing when the claims are filtered |
| Recovery.SecondPassStartsNothing | stepflow-rs/crates/stepflow-execution/src/recovery.rs:152-171 | if status writes succeed and resumed roots are active, an immediate second pass handles no root of the first |
| Recovery.CompleteTreesStayRecovering | stepflow-rs/crates/stepflow-execution/src/recovery/tree.rs:122-135 | from the state a pass ends in, whatever it started from: once the resumed executors cleared their own entries, the handled roots still in the active recoveries are exactly those found already complete; nothing is left behind if and only if no tree was complete |
| Submission.Environment.SubmitRun | stepflow-rs/crates/stepflow-execution/src/executor.rs:56-177 | for every combination of failing calls: a visible run is journaled at its recorded sequence with its flow stored; the run is executed if and only if it was recorded and nothing failed before the spawn; the first failing call decides which error is reported, the read after the spawn included, so an error can come with a run that is Running; a run that is not executed is marked failed unless that write fails; a failed or refused lease does not stop it; other runs are untouched |
| Submission.Environment.PrepareAndSpawn | stepflow-rs/crates/stepflow-execution/src/executor.rs:133-176 | overrides, executor, spawn and the final read of a recorded run: active if and only if nothing failed up to the spawn, otherwise marked failed; the failing read changes nothing but the answer |
| Submission.Environment.RecordRun | stepflow-rs/crates/stepflow-execution/src/executor.rs:79-121 | flow, journal, metadata, in that order: how far each failure lets it come, and the record's sequence is that of the journal entry |
| Submission.Environment.BuildExecutor | stepflow-rs/crates/stepflow-execution/src/flow_executor_builder.rs:164-195 | an existing record is never changed by the builder's own creation |
| Stores.MetadataStore.CreateRun | stepflow-rs/crates/stepflow-state/src/metadata_store.rs:72-83 | idempotent creation |
| Stores.LeaseManager.Acquire | stepflow-rs/crates/stepflow-state/src/lease_manager.rs:80-94 | a free lease or one's own is granted, otherwise the owner is reported; errors change nothing |
| Stores.Journal.Write | stepflow-rs/crates/stepflow-state/src/execution_journal.rs:405-424 | appends with a sequence number larger than every stored one, possibly sparse |
| Checkpoint.CaptureIsLossless | stepflow-rs/crates/stepflow-execution/src/checkpoint.rs:149-195 | for every iteration order of the three hash maps the emitted lists rebuild the captured maps, and the encoding decodes to what was captured |
| Checkpoint.CaptureLists | stepflow-rs/crates/stepflow-execution/src/checkpoint.rs:149-195 | what is stored, in whatever order: version 1, the sequence, the state of every run, and one record with its own parts for each subflow key and each task in flight |
| Checkpoint.CapturedRunsAreCanonical | stepflow-rs/crates/stepflow-execution/src/checkpoint.rs:155-161 | the run list is strictly sorted and the same for every iteration order |
| Checkpoint.Deserialize | stepflow-rs/crates/stepflow-execution/src/checkpoint.rs:213-222 | succeeds exactly on encodings of the current version, and then inverts `Serialize` |
| CheckpointReplay.RestoreEqualsReplayIff | stepflow-rs/crates/stepflow-execution/src/recovery/restore.rs:13-22 | for any tree, base, truth and tail: replaying the tail from a captured base equals replaying it from the true state if and only if the tail writes again whatever the capture lacks and drops, or brings to the same state, every run whose captured state is not the true one |
| CheckpointReplay.RunsAgreeForEveryTailIff | stepflow-rs/crates/stepflow-execution/src/recovery/restore.rs:378-392 | whatever is journaled later, the run states come out equal if and only if the captured ones are the true ones |
| CheckpointReplay.RunEffect | stepflow-rs/crates/stepflow-execution/src/recovery/restore.rs:381-436 | a tail decides by itself the state of every run it creates or drops; any other run only sees its own entries |
| CheckpointReplay.RestoredIsContained | stepflow-rs/crates/stepflow-execution/src/recovery/restore.rs:298-315 | in any case the runs are the same, created alike, and no subflow, task id or pending announcement is invented |
| CheckpointReplay.SubflowEffect | stepflow-rs/crates/stepflow-execution/src/recovery/restore.rs:404-408 | a tail decides exactly the subflow keys it journals, for any two starting states |
| CheckpointReplay.TaskIdEffect | stepflow-rs/crates/stepflow-execution/src/recovery/restore.rs:474-502 | a tail decides exactly the task ids it starts or completes |
| CheckpointReplay.NeedingEffect | stepflow-rs/crates/stepflow-execution/src/recovery/restore.rs:434-472 | a tail decides exactly the runs it creates, initializes or completes |
| CheckpointReplay.TerminalEffect | stepflow-rs/crates/stepflow-execution/src/recovery/restore.rs:511-547 | a tail with a completion of the root decides the terminal status, for any two starting states; any other keeps it |
| ReplayMeaning.TerminalIsLast | stepflow-rs/crates/stepflow-execution/src/recovery/restore.rs:511-547 | what one replay computes, from the entries alone: the terminal status is that of the last journaled completion of the root, or the one it started with |
| ReplayMeaning.SubflowIsLast | stepflow-rs/crates/stepflow-execution/src/recovery/restore.rs:404-408 | a subflow key stands for the run of the last sub-run creation under it, or what it stood for at the start |
| ReplayMeaning.NeedingIsLast | stepflow-rs/crates/stepflow-execution/src/recovery/restore.rs:434-472 | a sub-run needs its steps journaled if and only if the last entry that creates, initializes or completes it is its creation |
| ReplayMeaning.TaskIdIsLast | stepflow-rs/crates/stepflow-execution/src/recovery/restore.rs:474-502 | a task has the last non-empty id it was started with, unless it was completed since; empty ids are ignored |
| ReplayMeaning.RunExistsIff | stepflow-rs/crates/stepflow-execution/src/recovery/restore.rs:394-432 | a run is there if and only if it was created and not completed since; the root stays when it completes |
| ReplayMeaning.RunSinceCreation | stepflow-rs/crates/stepflow-execution/src/recovery/restore.rs:394-432 | a run has the payload of the entry that created it and what the later entries did to the items of its flow; creating it again changes nothing |
| ReplayMeaning.RunSinceStart | stepflow-rs/crates/stepflow-execution/src/recovery/restore.rs:381-392 | a run that was there from the start and is not dropped sees every entry |
| ReplayMeaning.EntryReachesItem | stepflow-rs/crates/stepflow-execution/src/run_state.rs:195-240 | an entry reaches exactly the item it is about, as the event it is, and the started tasks of a list one after the other; everything else leaves the item alone |
| ReplayMeaning.JournalReplayStarts | stepflow-rs/crates/stepflow-execution/src/recovery/restore.rs:128-187 | full replay starts from the root run alone, created by the first entry, and fails without entries or with another first one |
| ReplayMeaning.CheckpointAccepted | stepflow-rs/crates/stepflow-execution/src/recovery/restore.rs:213-325 | a stored checkpoint is refused for exactly its reason: it does not decode, has another version, or no state of the root run |
| Journals.StreamIsTail | stepflow-rs/crates/stepflow-execution/src/recovery/restore.rs:283-286 | streaming from just after the checkpoint's sequence delivers exactly the later entries, however sparse the numbers |
| DurableRun.RecoveryPathsAgreeOnRuns | stepflow-rs/crates/stepflow-execution/src/recovery/restore.rs:213-325 | for every interleaving of journal writes, attempts with failing puts, crashes and recoveries with their re-initializations: recovery succeeds, both paths give the same runs and terminal status, and the checkpoint path invents no subflow, task id or pending step update; from a checkpoint of the first life the states of the runs are equal as well |
| DurableRun.RecoveryPathsAgreeIff | stepflow-rs/crates/stepflow-execution/src/recovery/restore.rs:13-22 | the two paths agree completely if and only if the tail writes again what the capture left out and settles every run whose captured state had drifted from the journal |
| DurableRun.FirstLifeCheckpointIsCompleteIff | stepflow-rs/crates/stepflow-execution/src/flow_executor.rs:366-372 | a checkpoint of the first life loses at most subflow entries, run states included; the paths agree if and only if every subflow journaled up to it is journaled again after it |
| DurableLosses.CheckpointForgetsSubflow | stepflow-rs/crates/stepflow-execution/src/flow_executor.rs:509-509 | for every flow with a step that submits one: the step starts a subflow, a task of the subflow completes, the checkpoint is attempted; afterwards the checkpoint path knows the sub-run but not the subflow key it belongs to, while full replay does |
| DurableLosses.CheckpointForgetsTaskId | stepflow-rs/crates/stepflow-execution/src/flow_executor.rs:395-450 | for every flow and every limit: with more tasks in flight at a crash than the new executor dispatches at once, the checkpoint after the first of those ends has lost the ids of all others that are not dispatched again, while full replay has them |
| DurableRun.RunKeepsFaithful | stepflow-rs/crates/stepflow-execution/src/checkpointer.rs:76-125 | the invariant over whole runs: the maps in memory and in the stored checkpoint are true to the journal prefix they stand for; the run states are too, pending announcements apart, throughout the first life |
| DurableRun.RestoreIsFaithful | stepflow-rs/crates/stepflow-execution/src/recovery/restore.rs:128-325 | in every such world recovery from what is stored succeeds and gives the journaled runs, terminal status and nothing invented; without a checkpoint, or from one of the first life, also the run states of the journal |
| DurableLife.LifeKeepsMaps | stepflow-rs/crates/stepflow-execution/src/flow_executor.rs:434-450 | over any stretch of one process life: recovered subflows only shrink, by exactly the matched keys, recovered task ids by exactly the tasks dispatched again, and the tasks in flight are those that replaying the entries of that stretch gives |
| DurableLife.LifeBegins | stepflow-rs/crates/stepflow-execution/src/flow_executor.rs:131-165 | a recovered executor begins with the rebuilt subflows and task ids, with the sub-runs still to be announced, and with nothing in flight |
| DurableDrift.RecoveryDriftsIff | stepflow-rs/crates/stepflow-execution/src/flow_executor.rs:778-792 | a recovery from the true run states, once it has announced what it initialized: memory is what replaying the journal gives if and only if every initialization in it is harmless |
| DurableDrift.CheckpointIsRightIff | stepflow-rs/crates/stepflow-execution/src/checkpoint.rs:149-195 | the run states of a checkpoint come out right for everything that may be journaled later if and only if memory was the fold of the journal at its capture |
| DurableDrift.HarmlessRunsAgree | stepflow-rs/crates/stepflow-execution/src/recovery/restore.rs:13-22 | in runs in which every recovery is harmless, both recovery paths give the same run states in all lives, and memory is the fold of the journal |
| DurableDrift.HalfAnnouncedDrifts | stepflow-rs/crates/stepflow-execution/src/flow_executor.rs:782-789 | a crash between two announcements of a sub-run of several items: recovery does not announce the others, and those that need anything drift |
| ItemFlows.ItemFlowIsLawful | stepflow-rs/crates/stepflow-execution/src/state/items_state.rs:219-245 | the first initialization of an item and its announcement do the same, for every flow, whatever its steps need and its output asks for |
| ItemFlows.HarmlessRecoveryIff | stepflow-rs/crates/stepflow-execution/src/flow_executor.rs:778-792 | at any point of any run of a tree: the recovery there is harmless if and only if each item's re-initialization is, which its waiting sets tell beforehand |
| DriftWitness.SecondLifeCheckpointDrifts | stepflow-rs/crates/stepflow-execution/src/flow_executor.rs:778-792 | a conditional input, a crash once the condition is known, and the end of one task in the second life: the checkpoint restores a step as waiting on one step, where replaying the journal gives two |
| Checkpointing.Checkpointer.MaybeCheckpoint | stepflow-rs/crates/stepflow-execution/src/checkpointer.rs:86-125 | when it stores (never with interval 0, otherwise once that many entries are counted), at which sequence, what it stores, and each error; the counter is reset only after a successful put |
| Checkpointing.Checkpointer.RecordEntry | stepflow-rs/crates/stepflow-execution/src/checkpointer.rs:76-79 | counts one entry and remembers its sequence |
| Checkpointing.Checkpointer.Cleanup | stepflow-rs/crates/stepflow-execution/src/checkpointer.rs:131-146 | best-effort deletion, nothing when disabled |
| Checkpointing.SequenceIsAlwaysKnown | stepflow-rs/crates/stepflow-execution/src/checkpointer.rs:99-102 | after any sequence of calls a due attempt has a sequence number: the error is unreachable |
| Checkpointing.SinceCountsEntries | stepflow-rs/crates/stepflow-execution/src/checkpointer.rs:76-115 | the counter is exactly the number of entries recorded since the last stored checkpoint, or since creation |
| Checkpointing.CheckpointsAreSpaced | stepflow-rs/crates/stepflow-execution/src/checkpointer.rs:92-97 | between two stored checkpoints lie at least `interval` entries |
| Checkpointing.BacklogStaysBelowInterval | stepflow-rs/crates/stepflow-execution/src/checkpointer.rs:81-85 | with a successful attempt after every entry fewer than `interval` entries are ever left uncovered |
| ItemStates.ItemState.AddOrUpdateNeeded | stepflow-rs/crates/stepflow-execution/src/state/item_state.rs:200-236 | the needed set becomes the least set that contains the old one and the step and is closed under pending dependencies; waiting sets and the result are exact |
| ItemStates.VisitKeepsExploring | stepflow-rs/crates/stepflow-execution/src/state/item_state.rs:204-233 | one turn of the worklist keeps every discovered dependency needed or queued |
| ItemStates.VisitKeepsMinimal | stepflow-rs/crates/stepflow-execution/src/state/item_state.rs:226-231 | and queues nothing outside any closed set |
| ItemStates.ItemState.Visit | stepflow-rs/crates/stepflow-execution/src/state/item_state.rs:212-232 | re-evaluates one step: waits on its pending dependencies, returns those nothing needed so far |
| ItemStates.ItemState.SetWaiting | stepflow-rs/crates/stepflow-execution/src/state/item_state.rs:239-251 | replaces one waiting set; the reverse index stays its exact inverse |
| ItemStates.ItemState.ClearWaiting | stepflow-rs/crates/stepflow-execution/src/state/item_state.rs:254-259 | empties one waiting set; the reverse index stays its exact inverse |
| ItemStates.ItemState.MarkCompleted | stepflow-rs/crates/stepflow-execution/src/state/item_state.rs:264-285 | exactly the steps whose last open dependency this was are unblocked; a second completion changes nothing; needed steps never wait on completed ones |
| ItemStates.UnfinishedItemHasWork | stepflow-rs/crates/stepflow-execution/src/state/item_state.rs:287-303 | no deadlock: if steps wait only for earlier ones, an unfinished item has a step that can be scheduled |
| ItemStates.ItemState.NothingToDoIffComplete | stepflow-rs/crates/stepflow-execution/src/state/item_state.rs:287-310 | if steps wait only for unfinished earlier ones, nothing can be scheduled if and only if the item is complete |
| ItemStates.ItemState.ToCheckpoint | stepflow-rs/crates/stepflow-execution/src/state/item_state.rs:403-431 | the record passes its own validation and restoring it gives back exactly this state, whatever the state |
| ItemStates.ItemState.RestoreFromCheckpoint | stepflow-rs/crates/stepflow-execution/src/state/item_state.rs:439-514 | accepts exactly the records whose indices fit, refuses the others without change, and rebuilds the reverse index |
| ItemStates.CheckpointRoundTrip | stepflow-rs/crates/stepflow-execution/src/checkpoint.rs:103-116 | restoring the record of any consistent item gives back its state, the unstored reverse index included |
| ItemReplays.InitializeWithSteps | stepflow-rs/crates/stepflow-execution/src/state/items_state.rs:247-278 | the initialization used live and in replay computes `AddAll` of its list of steps |
| ItemReplays.CompleteAndGetReady | stepflow-rs/crates/stepflow-execution/src/state/items_state.rs:156-181 | completing a task: its result is recorded once and taken off every waiting set; exactly the steps that waited on it alone and those newly needed are evaluated with the new result; the needed set is the least that allows; what of the unblocked is ready is returned |
| ItemReplays.AddAllIs | stepflow-rs/crates/stepflow-execution/src/state/items_state.rs:255-264 | adding steps one after the other gives the least closed needed set and re-evaluates exactly the listed and the new steps |
| ItemReplays.AddAllIgnoresOrder | stepflow-rs/crates/stepflow-execution/src/state/items_state.rs:255-264 | neither the order of the list nor repetitions in it matter |
| ItemReplays.JournaledInitializationIff | stepflow-rs/crates/stepflow-execution/src/flow_executor.rs:266-284 | initializing from the output's steps and replaying the journaled list of all needed steps give the same state if and only if no step that was needed and is not in the first list waits on a stale set |
| ItemReplays.UnjournaledInitializationIff | stepflow-rs/crates/stepflow-execution/src/flow_executor.rs:782-789 | initializing a recovered sub-run without journaling it leaves it as replay has it if and only if its steps are needed already and wait on up-to-date sets |
| ItemReplays.StepReplaysIff | stepflow-rs/crates/stepflow-execution/src/run_state.rs:163-171 | a live transition and the entry it journals do the same if and only if it is not such an initialization |
| ItemReplays.HistoryLeaves | stepflow-rs/crates/stepflow-execution/src/state/item_state.rs:160-198 | over any history of an item a step was attempted as often as it was started and is completed if and only if it ever was |
| ItemReplays.FirstResultStays | stepflow-rs/crates/stepflow-execution/src/state/item_state.rs:264-285 | and it keeps the first result it got |
| ItemReplays.ProgressAlwaysReplays | stepflow-rs/crates/stepflow-execution/src/run_state.rs:195-240 | whatever waiting sets memory and replay disagree on, over any number of lives they agree on completed steps, results and attempt counts |
| ItemReplays.AgreeThroughoutIff | stepflow-rs/crates/stepflow-execution/src/run_state.rs:163-171 | along any history over any number of process lives, memory is the fold of the journal at every point if and only if every initialization in it is harmless |
| ItemReplays.FirstLifeReplays | stepflow-rs/crates/stepflow-execution/src/run_state.rs:195-205 | in the first life it always is, for every flow |
| ItemReplays.UnconditionalFlowsReplay | stepflow-rs/crates/stepflow-execution/src/run_state.rs:195-205 | in every life it is, for flows whose dependencies do not depend on results, if all initializations are journaled |
| ItemReplays.SecondLifeCanDiverge | stepflow-rs/crates/stepflow-execution/src/flow_executor.rs:766-792 | a flow with a conditional input, a crash once the condition is known: in the second life memory and the replay of the journal differ |
| SnapshotNormalize.NormalizeValue | stepflow-rs/crates/stepflow-cli/src/test.rs:48-85 | the in-place rewriting computes the normal form |
| SnapshotNormalize.NormalizeObject | stepflow-rs/crates/stepflow-cli/src/test.rs:52-76 | the loop that drains one map and fills another, for maps with unique keys |
| SnapshotNormalize.NormalizedField | stepflow-rs/crates/stepflow-cli/src/test.rs:59-73 | a lookup in a normal form: fixed run id, no backtrace, otherwise the normal form of the value |
| SnapshotNormalize.NormalizeIsCanonical | stepflow-rs/crates/stepflow-cli/src/test.rs:53-57 | normal forms have unique, sorted keys at every level |
| SnapshotNormalize.NormalizeIdempotent | stepflow-rs/crates/stepflow-cli/src/test.rs:48-85 | normalizing twice is normalizing once |
| SnapshotMatch.VerdictMeansContained | stepflow-rs/crates/stepflow-cli/src/test.rs:415-419 | the verdict on normalized values holds if and only if the recorded value is contained in the actual one, backtraces and string run ids aside |
| SnapshotMatch.NormalizePreservesMatch | stepflow-rs/crates/stepflow-cli/src/test.rs:117-150 | a match of two values is still a match after both are normalized |
| SnapshotMatch.NormalizePreservesResultMatch | stepflow-rs/crates/stepflow-cli/src/test.rs:89-113 | the same for whole results, error data included |
| SnapshotMatch.ResultVerdictMeansContained | stepflow-rs/crates/stepflow-cli/src/test.rs:415-419 | the verdict on normalized results holds if and only if code and message are equal and the recorded data, where given, is contained in the actual one |
| SnapshotMatch.NormalFormsCoincideIff | stepflow-rs/crates/stepflow-cli/src/test.rs:47-85 | two values have one normal form if and only if each contains the other up to what is ignored |
| SnapshotMatch.MatchReflexive | stepflow-rs/crates/stepflow-cli/src/test.rs:117-150 | every value matches itself |
| SnapshotMatch.MatchTransitive | stepflow-rs/crates/stepflow-cli/src/test.rs:117-150 | matches compose |
| SnapshotMatch.MutualMatchIsSame | stepflow-rs/crates/stepflow-cli/src/test.rs:117-150 | two values match each other if and only if they are equal up to the order of keys |
| SnapshotMatch.ResultMatchReflexive | stepflow-rs/crates/stepflow-cli/src/test.rs:89-113 | the same for whole results |
| SnapshotMatch.ResultMatchTransitive | stepflow-rs/crates/stepflow-cli/src/test.rs:89-113 | the same for whole results, with the asymmetric rule for error data |
| SnapshotMatch.NormalizeResultIdempotent | stepflow-rs/crates/stepflow-cli/src/test.rs:31-45 | normalizing a result twice is normalizing it once |
| SnapshotMatch.NormalizedResultIsSame | stepflow-rs/crates/stepflow-cli/src/test.rs:31-45 | a result and its normal form contain each other: code, message and everything but the volatile parts are kept |
| SnapshotUpdate.ProcessTestResult | stepflow-rs/crates/stepflow-cli/src/test.rs:402-444 | an execution error counts as one and updates nothing; an output is no update if and only if the case records one that is contained in it, extra actual fields and volatile parts aside; otherwise its normal form is the update of the name |
| SnapshotUpdate.CaseFailsIff | stepflow-rs/crates/stepflow-cli/src/test.rs:408-437 | the verdict behind the counts: a case fails if and only if there is an output and the recorded one is missing or not contained in it |
| SnapshotUpdate.UpdateIsLast | stepflow-rs/crates/stepflow-cli/src/test.rs:649-661 | the update of a name is the normal form of its last failing output |
| SnapshotUpdate.SelectedExactly | stepflow-rs/crates/stepflow-cli/src/test.rs:590-597 | a case is selected as often as it stands in the file if no names are given or its own is, and not at all otherwise |
| SnapshotUpdate.RunCases | stepflow-rs/crates/stepflow-cli/src/test.rs:649-661 | updates, execution errors and the reported number of passed cases of one run; the subtraction cannot underflow |
| SnapshotUpdate.ReportedPassesExactIff | stepflow-rs/crates/stepflow-cli/src/test.rs:659-661 | the reported number is never too low, and exact if and only if failing cases have distinct names |
| SnapshotUpdate.ApplyUpdates | stepflow-rs/crates/stepflow-cli/src/test.rs:281-293 | the loop that consumes the map |
| SnapshotUpdate.AppliedAt | stepflow-rs/crates/stepflow-cli/src/test.rs:286-290 | a case is rewritten if and only if it is the first of its name and its name has an update |
| SnapshotUpdate.SecondRunCleanIff | stepflow-rs/crates/stepflow-cli/src/test.rs:515-517 | after an update, a run on unchanged outputs has nothing to update if and only if every failing case was the first of its name; for any selection of cases by name |
| SnapshotUpdate.DistinctNamesReachFixpoint | stepflow-rs/crates/stepflow-cli/src/test.rs:281-293 | with distinct names the second run has no update and counts every case that produced an output as passed |
| SnapshotUpdate.SelectAfterApply | stepflow-rs/crates/stepflow-cli/src/test.rs:590-597 | selecting cases by name commutes with writing updates |
| SnapshotUpdate.DuplicateNamesGoWrong | stepflow-rs/crates/stepflow-cli/src/test.rs:286-290 | two failing cases of one name: one is not counted, the first is given the output of the second, and the next run fails the same way |
| ConverterCaching.ConverterCache.GetByConfigName | integrations/docling-proto-step-worker/src/docling_proto_step_worker/converter_cache.py:214-231 | the result for a known or unknown name, a hit, a build or a failed build; it was built for the configuration asked for; other entries are unchanged |
| ConverterCaching.ConverterCache.GetByOptions | integrations/docling-proto-step-worker/src/docling_proto_step_worker/converter_cache.py:233-242 | the same for per-request options |
| ConverterCaching.ConverterCache.GetOrBuild | integrations/docling-proto-step-worker/src/docling_proto_step_worker/converter_cache.py:221-231 | the part both share |
| ConverterCaching.ConverterCache.Touch | integrations/docling-proto-step-worker/src/docling_proto_step_worker/converter_cache.py:249-252 | the key becomes the most recent one, keys stay distinct |
| ConverterCaching.ConverterCache.EvictIfFull | integrations/docling-proto-step-worker/src/docling_proto_step_worker/converter_cache.py:254-257 | the loop leaves room for one entry by dropping the oldest keys, and no others |
| ConverterCaching.ConverterCache.Clear | integrations/docling-proto-step-worker/src/docling_proto_step_worker/converter_cache.py:259-262 | starts a new history |
| ConverterCaching.KeyOfIsInjective | integrations/docling-proto-step-worker/src/docling_proto_step_worker/converter_cache.py:220-235 | configurations and options never share a key |
| ConverterCaching.HoldsLatestKeys | integrations/docling-proto-step-worker/src/docling_proto_step_worker/converter_cache.py:201-257 | after any failure-free trace the list holds the last max(1, max_size) distinct keys by recency |
| ConverterCaching.RecencyOrdersByLastUse | integrations/docling-proto-step-worker/src/docling_proto_step_worker/converter_cache.py:249-252 | recency means: exactly the accessed keys, each once, ordered by their last access |
| ConverterCaching.CachedIffRecent | integrations/docling-proto-step-worker/src/docling_proto_step_worker/converter_cache.py:254-257 | a key is cached if and only if fewer than max(1, max_size) other keys were accessed after its last access |
| ConverterCaching.AccessKeepsInclusionIff | integrations/docling-proto-step-worker/src/docling_proto_step_worker/converter_cache.py:214-231 | one access to a smaller and a larger cache, the one being the recent part of the other: that stays so if and only if the access is not a failed build of a key that only the larger has while the smaller must evict |
| ConverterCaching.IncludedThroughoutIff | integrations/docling-proto-step-worker/src/docling_proto_step_worker/converter_cache.py:214-231 | along any trace, failing builds included, the smaller cache stays the recent part of the larger if and only if no such access occurs |
| ConverterCaching.AccessKeepsContainedIff | integrations/docling-proto-step-worker/src/docling_proto_step_worker/converter_cache.py:214-231 | one access to two caches of any sizes, one containing the other: that stays so if and only if not both lack the key while the larger drops a key that the smaller keeps |
| ConverterCaching.ContainedThroughoutIff | integrations/docling-proto-step-worker/src/docling_proto_step_worker/converter_cache.py:214-231 | along any trace, failing builds included, everything in the smaller cache is in the larger one if and only if no such access occurs |
| ConverterCaching.SmallerIsContained | integrations/docling-proto-step-worker/src/docling_proto_step_worker/converter_cache.py:254-257 | LRU inclusion without failing builds follows |
| ConverterCaching.SmallerIsRecentPart | integrations/docling-proto-step-worker/src/docling_proto_step_worker/converter_cache.py:254-257 | and the smaller cache is then the most recent max(1, max_size) keys of the larger |
| ConverterCaching.FailedBuildsBreakInclusion | integrations/docling-proto-step-worker/src/docling_proto_step_worker/converter_cache.py:223-229 | both kinds of access occur: at sizes 2 and 3 the smaller cache ends up with a key the larger has evicted |
| Visualizer.FlowVisualizer.GenerateDot | stepflow-rs/crates/stepflow-cli/src/visualize.rs:111-166 | all statements, in order, for any flow and any value of the counter; what they are is stated by `NodesDrawn`, `TargetEdgesAre` and `DrawnDiamondEdgesAre` |
| Visualizer.FlowVisualizer.CollectExprEdges | stepflow-rs/crates/stepflow-cli/src/visualize.rs:269-411 | statements, passed-up sources and counter for an expression at a path |
| Visualizer.FlowVisualizer.CollectIf | stepflow-rs/crates/stepflow-cli/src/visualize.rs:276-341 | declares the next free id as an if node before anything else, draws condition and branches into it, and passes up that diamond alone |
| Visualizer.FlowVisualizer.CollectCoalesce | stepflow-rs/crates/stepflow-cli/src/visualize.rs:342-369 | declares the next free id as a coalesce node before anything else, draws the values into it, and passes up that diamond alone |
| Visualizer.FlowVisualizer.CollectArray | stepflow-rs/crates/stepflow-cli/src/visualize.rs:378-390 | sources of the items, at indexed paths |
| Visualizer.FlowVisualizer.CollectObject | stepflow-rs/crates/stepflow-cli/src/visualize.rs:391-403 | sources of the fields, at dotted paths |
| Visualizer.FlowVisualizer.AddEdges | stepflow-rs/crates/stepflow-cli/src/visualize.rs:413-436 | what is drawn for the steps |
| Visualizer.FlowVisualizer.AddOutputEdges | stepflow-rs/crates/stepflow-cli/src/visualize.rs:438-453 | what is drawn for the output |
| Visualizer.FlowVisualizer.NextExprId | stepflow-rs/crates/stepflow-cli/src/visualize.rs:260-264 | the id of the counter's number, and the next number |
| Visualizer.ExprIdIsInjective | stepflow-rs/crates/stepflow-cli/src/visualize.rs:260-264 | different numbers give different ids |
| VisualizerGraph.DrawnIffReferenced | stepflow-rs/crates/stepflow-cli/src/visualize.rs:269-453 | for every flow without name clashes: a node reaches a target through diamonds alone if and only if the target's expression refers to it outside variable fallbacks; a step's own name is dropped only outside any branch |
| VisualizerLabels.TargetEdgesAre | stepflow-rs/crates/stepflow-cli/src/visualize.rs:423-432 | for every flow without name clashes: an edge into a step or the output, from a reference or a diamond, is there with a label if and only if that is a value of the target at that path outside any branch (a step's own name excepted) |
| VisualizerLabels.DrawnDiamondEdgesAre | stepflow-rs/crates/stepflow-cli/src/visualize.rs:290-364 | and an edge into the i-th diamond if and only if the named branch of the i-th conditional or coalesce (condition, then, else or position) has that reference or diamond as a value at the rest of the label |
| VisualizerNodes.NodesDrawn | stepflow-rs/crates/stepflow-cli/src/visualize.rs:119-166 | a drawing declares the input, every step and the output in order, each with its kind, and then exactly one node per conditional and coalesce of the flow: the i-th in visiting order has the i-th number, an if node if it is a conditional and a coalesce node if not |
| VisualizerGraph.EdgeBelongsTo | stepflow-rs/crates/stepflow-cli/src/visualize.rs:413-436 | every edge into a target or one of its diamonds was drawn for that target, from one of its diamonds or from something it refers to |
| VisualizerEmission.EdgesAreSound | stepflow-rs/crates/stepflow-cli/src/visualize.rs:275-368 | an edge inside an expression ends at one of its diamonds and starts at one with a larger number or at something a branch refers to |
| VisualizerEmission.BranchReferenceReaches | stepflow-rs/crates/stepflow-cli/src/visualize.rs:275-403 | a reference below a conditional or coalesce leads through diamonds to a source passed up |
| VisualizerEmission.SourcesAreSound | stepflow-rs/crates/stepflow-cli/src/visualize.rs:370-403 | every source passed up is a diamond of the expression or referred to outside any branch |
| VisualizerLabels.SourcesAreValues | stepflow-rs/crates/stepflow-cli/src/visualize.rs:370-403 | an expression passes up a reference or a diamond with a label if and only if it has it as a value at that path outside any branch |
| VisualizerLabels.DiamondEdgesAre | stepflow-rs/crates/stepflow-cli/src/visualize.rs:290-364 | the edges into a diamond, from references and from other diamonds, are the values of its branches, labelled with the branch and the path |
| VisualizerEmission.DiamondIsSourceOnce | stepflow-rs/crates/stepflow-cli/src/visualize.rs:338-368 | within an expression a diamond is a source exactly once, of an edge drawn there or of the one still to be drawn |
| VisualizerShape.DrawingDeclares | stepflow-rs/crates/stepflow-cli/src/visualize.rs:260-264 | the diamonds of a drawing are numbered without gaps, in order, each declared once |
| VisualizerShape.OneOutgoingEdge | stepflow-rs/crates/stepflow-cli/src/visualize.rs:275-453 | every diamond has exactly one outgoing edge |
| VisualizerShape.DiamondEdgesDescend | stepflow-rs/crates/stepflow-cli/src/visualize.rs:275-368 | edges between diamonds go from a larger to a smaller number |
| VisualizerShape.DrawingIsAcyclic | stepflow-rs/crates/stepflow-cli/src/visualize.rs:413-453 | if every target refers only to earlier ones, no walk returns to its start |
| VisualizerShape.DrawnFaithfullyIff | stepflow-rs/crates/stepflow-cli/src/visualize.rs:404-410 | a dependency, fallbacks included, is drawn faithfully if and only if it does not stand in fallbacks alone |
| VisualizerShape.FallbackIsNotDrawn | stepflow-rs/crates/stepflow-cli/src/visualize.rs:404-410 | a step used only as the fallback of a variable is not connected |
| VisualizerClashes.IdsDistinctIff | stepflow-rs/crates/stepflow-cli/src/visualize.rs:111-166 | no two nodes of a drawing share an id if and only if the step names differ from each other, from the two reserved names and from the ids generated |
| VisualizerClashes.PlaceOfDiamond | stepflow-rs/crates/stepflow-cli/src/visualize.rs:275-368 | the diamond with the i-th number is the i-th conditional or coalesce in visiting order, and edges into it or into diamonds inside it were drawn for it |
| VisualizerClashes.ClashAddsExactly | stepflow-rs/crates/stepflow-cli/src/visualize.rs:260-264 | a step with the name of a diamond is shown to depend on what it refers to and on what that diamond refers to, and on nothing else |
| VisualizerClashes.ClashMisleads | stepflow-rs/crates/stepflow-cli/src/visualize.rs:260-264 | a flow in which such a step refers to nothing and is shown to depend on another |
| DotEscape.EscapeIsSinglePass | stepflow-rs/crates/stepflow-cli/src/visualize.rs:567-573 | the chain of five replacements is one pass over the characters |
| DotEscape.UnescapeInvertsEscape | stepflow-rs/crates/stepflow-cli/src/visualize.rs:567-573 | nothing is lost, for every string |
| DotEscape.EscapedTextIsSafe | stepflow-rs/crates/stepflow-cli/src/visualize.rs:566-573 | every quote follows an odd run of backslashes; no raw line break or tab is left |
| DotEscape.StringEndsAtItsQuote | stepflow-rs/crates/stepflow-cli/src/visualize.rs:566-573 | a scanner of quoted strings stops exactly at the quote put after the escaped text, whatever follows |
| ProtoJson.WholeNumbersConvert | stepflow-rs/crates/stepflow-cli/src/submit.rs:101-112 | every whole double: that integer within i64, 2^63 - 1 for 2^63, the float beyond |
| ProtoJson.IntegerSurvivesIff | stepflow-rs/crates/stepflow-cli/src/submit.rs:91-95 | an i64 survives the way through a double if and only if a double can hold it or it is 2^63 - 1 |
| ProtoJson.SafeIntegersSurvive | stepflow-rs/crates/stepflow-cli/src/submit.rs:91-95 | all integers within plus or minus 2^53 survive (section 6 of RFC 8259) |
| ProtoJson.ConversionIgnoresOrder | stepflow-rs/crates/stepflow-cli/src/submit.rs:114-125 | the result is the same for every iteration order of every map at every level |
| ProtoJson.ConversionIsWellFormed | stepflow-rs/crates/stepflow-cli/src/submit.rs:114-129 | objects come out with unique keys in order |
| ProtoJson.ConversionStandsFor | stepflow-rs/crates/stepflow-cli/src/submit.rs:91-129 | kind by kind: null and no kind become null, booleans and strings themselves, fractions stay floats, NaN and the infinities become null, lists keep their items in order, and a struct has the same keys, each with what its field stands for |
| Float64.RoundIsNearest | stepflow-rs/crates/stepflow-cli/src/submit.rs:105-106 | the conversion of an integer to a double: no representable number is nearer |
| Float64.TiesGoToEven | stepflow-rs/crates/stepflow-cli/src/submit.rs:105-106 | half-way between two neighbours the one with the even significand is taken |
| Float64.ExactIff | stepflow-rs/crates/stepflow-cli/src/submit.rs:105-106 | it is exact if and only if the integer is representable |
| RetryBackoff.Delay | stepflow-rs/crates/stepflow-config/src/retry_config.rs:144-170 | both layers of saturation are invisible: the delay is the one of unbounded arithmetic; a constant delay is the configured one, and the first two Fibonacci delays are the minimum, capped |
| RetryBackoff.FibonacciNumber | stepflow-rs/crates/stepflow-config/src/retry_config.rs:173-181 | the loop computes the saturated Fibonacci number |
| RetryBackoff.DelaysGrowToTheCap | stepflow-rs/crates/stepflow-config/src/retry_config.rs:143-170 | delays never shrink with the retry count and never exceed the cap |
| RetryBackoff.DelaysAddUp | stepflow-rs/crates/stepflow-config/src/retry_config.rs:105-118 | delays follow the Fibonacci recurrence up to the cap |
| RetryBackoff.AllCappedIff | stepflow-rs/crates/stepflow-config/src/retry_config.rs:160-167 | every configuration with a positive minimum has reached its cap at attempt n if and only if n is at least 94 |
| Iterating.Execute | stepflow-rs/crates/stepflow-builtins/src/iterate.rs:91-163 | for every flow and every limit including 0: whatever inputs were asked for one after the other, the first answer that does not go on ends it, an error or failure as it is, an answer with a result by that result with the number of applications and not terminated, whatever `next` says, any other as malformed; at the limit the next input is reported as terminated |
| Iterating.FirstOtherAnswerDecides | stepflow-rs/crates/stepflow-builtins/src/iterate.rs:127-161 | the first answer that is not a `next` decides the outcome and is counted; `result` wins over `next`; failures and malformed answers end the loop |
| Iterating.TerminatedIff | stepflow-rs/crates/stepflow-builtins/src/iterate.rs:107-118 | `terminated` is reported, with the input of the next application and the limit as count, if and only if all allowed applications answered with `next` |
| Iterating.LargerLimitChangesNothing | stepflow-rs/crates/stepflow-builtins/src/iterate.rs:107-108 | an iteration that ended by itself is the same under every larger limit |
| Iterating.Resumes | stepflow-rs/crates/stepflow-builtins/src/iterate.rs:106-149 | continuing from the output of a shorter, cut-off iteration gives the longer one |

## Left out

- Exponential backoff: floating-point powers and an `as i32` cast; the law for the two other kinds does not carry over to it.
- Liveness of orphan claiming: a process's own executing runs count against `limit` before they are filtered out, so eventual claiming does not follow from this code.
- The executor loop and the schedulers: their writes, matches and checkpoint attempts are free steps of `DurableRun` once everything initialized is announced; which ready task is dispatched when, and with which attempt number, is not modelled.
- The run record around the items in a checkpoint: `Checkpoint` keeps item states as they are, `ItemState` proves their own records lossless; retry counters of an item are not in its checkpoint and not in the model.
- The counter of incomplete items and the list of ready tasks that an initialization returns; `ItemReplay.dfy` is about the item's state alone.
- Status syncing during replay: writes to the metadata store while events are replayed, and the pre-fetch of sub-run records, are not modelled.
- Orchestrators without an id in the step system: `Cluster` gives every process one; `Submission` models both cases.
- Truncation of journals, other checkpoints than the latest, and store errors while a tree is restored (they are the outcome `TreeFailed`).
- Concurrent writers during one claim pass: `Recovery` states healing for a pass alone, `Cluster` interleaves the same calls freely.
- ClusterExclusion.OneHolderPerRun: holds for runs in which no lease is released while its process holds the run for another reason, because without that guard it is false (`ExclusionCanFail`); the guard is exact for each release (`ReleaseIsSafeIffSoleHolder`).
- VisualizerGraph.DrawnIffReferenced: for flows without name clashes; node attributes other than the kind, tooltips and server colours are not modelled.
- Recovery.SecondPassStartsNothing: for status writes that succeed and resumed roots that are registered as active; otherwise roots of the first pass are started again.
- Deserialization of the iterate input, hashing and storing of its flow, and nested run contexts.
- Splitting an `if` into a helper method per branch (`CollectBranch`, `Visit`, `PrepareAndSpawn`) is the model's, not the program's.
- gRPC submission, flow loading, configuration, rendering with Graphviz, diffs, printing, the conversion and chunking of documents, and the other built-in components.
- Threads and the lock of the converter cache: calls are modelled one at a time, as the lock makes them.
