/** One execution tree over any number of crashes: journal writes, checkpoint
  attempts whose puts may fail, and recoveries, freely interleaved.

  An executor initializes every run it starts with, again after a recovery, and
  journals the steps that turned out to be needed; the entry is for replay only
  and does not touch its memory.  The maps handed to the checkpoint writer are
  the executor's own: the map of recovered subflows, which shrinks when an entry
  is matched and never grows, and the tasks dispatched in this life. */
module DurableRun {
  import opened Basics
  import opened Checkpoint
  import opened CheckpointReplay
  import opened Checkpointing
  import opened Journals
  import opened Ordering
  import opened Records
  import ItemReplays
  import ItemStates

  datatype ItemKey = ItemKey(run: RunId, item: nat)

  /** The executor of the current process life.  `unsent` are recovered task ids
    not yet dispatched again; `announcing` the initialized items whose
    `StepsNeeded` is still to be written; `opening` the sub-runs for which none
    was written yet. */
  datatype Executor = Executor(
    runs: map<RunId, RunState>,
    recoveredSubflows: map<SubflowKey, RunId>,
    unsent: map<TaskKey, string>,
    inFlight: map<TaskKey, string>,
    announcing: set<ItemKey>,
    opening: set<RunId>,
    finished: bool,
    progress: Progress)

  /** A stored checkpoint, with the journal length and the process life of its
    capture as history. */
  datatype Snapshot = Snapshot(stored: Stored, length: nat, life: nat)

  datatype World = World(
    tree: Tree,
    payload: nat,
    interval: nat,
    journal: seq<Entry<Event>>,
    snapshot: Option<Snapshot>,
    executor: Option<Executor>,
    life: nat)

  datatype Step =
    | Write(sequence: nat, event: Event)
    | MatchSubflow(key: SubflowKey)
    | NothingToAnnounce(run: RunId)
    | AttemptCheckpoint(it: Iteration, putOk: bool)
    | CleanUp(ok: bool)
    | Crash
    | Recover

  // --------------------------------------------------------- initialization

  function Initialized(flow: Flow, s: RunState): RunState {
    s.(items := seq(|s.items|, (i: nat) requires i < |s.items| => flow.initialize(s.payload, i, s.items[i])))
  }

  function InitializedAll(flow: Flow, runs: map<RunId, RunState>): map<RunId, RunState> {
    map r | r in runs :: Initialized(flow, runs[r])
  }

  /** The items of some of the runs that need any step. */
  function NeededIn(runs: map<RunId, RunState>, ids: set<RunId>): set<ItemKey> {
    set r, i | r in runs && r in ids && 0 <= i < |runs[r].items| && runs[r].items[i].needed != {} :: ItemKey(r, i)
  }

  /** What an initialized item is announced with. */
  function NeededSteps(v: View): seq<nat> {
    ItemStates.Ascending(v.needed, |v.waitingOn|)
  }

  /** What memory has for an item against what the journal so far gives: the same,
    or the same once the pending announcement is replayed. */
  ghost predicate SyncedItem(flow: Flow, pending: bool, payload: nat, item: nat, replayed: View, live: View) {
    if pending then flow.apply(payload, item, replayed, ItemReplays.StepsNeeded(NeededSteps(live))) == live
    else live == replayed
  }

  /** Initializing the item and replaying what that journals do the same. */
  ghost predicate HarmlessItem(flow: Flow, announced: bool, payload: nat, item: nat, v: View) {
    var live := flow.initialize(payload, item, v);
    SyncedItem(flow, announced && live.needed != {}, payload, item, v, live)
  }

  /** The first initialization of an item is always harmless. */
  ghost predicate Lawful(flow: Flow) {
    forall payload: nat, item: nat | item < |flow.create(payload)| ::
      HarmlessItem(flow, true, payload, item, flow.create(payload)[item])
  }

  // ------------------------------------------------------------------- steps

  ghost predicate Init(w: World) {
    && Lawful(w.tree.flow)
    && |w.journal| == 1 && w.journal[0].event == RootRunCreated(w.tree.root, w.payload)
    && w.snapshot == None && w.life == 0
    && var runs := InitializedAll(w.tree.flow, Created(w.tree, w.payload).runs);
       w.executor ==
         Some(Executor(runs, map[], map[], map[], NeededIn(runs, {w.tree.root}), {}, false, Fresh(w.interval)))
  }

  predicate Working(w: World) {
    w.executor.Some? && !w.executor.value.finished
  }

  /** In the loop, with nothing left to announce. */
  predicate Settled(w: World) {
    Working(w) && w.executor.value.announcing == {} && w.executor.value.opening == {}
  }

  predicate Writable(w: World, event: Event)
    requires Working(w)
  {
    var x := w.executor.value;
    match event
    case RootRunCreated(_, _) => false
    case StepsNeeded(run, item, steps) =>
      && ItemKey(run, item) in x.announcing && run in x.runs && item < |x.runs[run].items|
      && steps == NeededSteps(x.runs[run].items[item])
    case RunCompleted(run, _) => x.announcing == {} && run in x.runs
    case SubRunCreated(run, _, key) =>
      Settled(w) && run != w.tree.root && run !in x.runs && key !in x.recoveredSubflows
    case TasksStarted(tasks) => Settled(w) && forall i | 0 <= i < |tasks| :: tasks[i].taskId != ""
    case TaskCompleted(task, _) => Settled(w) && task in x.inFlight
    case Informational(_) => Settled(w)
  }

  /** What recovery would rebuild from the stores. */
  function Restore(w: World): Result<Recovered, RecoveryError> {
    match w.snapshot
    case None => RestoreFromJournal(w.tree, w.journal)
    case Some(snapshot) => RestoreFromCheckpoint(w.tree, snapshot.stored, w.journal)
  }

  ghost predicate Enabled(w: World, step: Step) {
    match step
    case Write(sequence, event) =>
      && Working(w) && w.journal != [] && w.journal[|w.journal| - 1].sequence < sequence
      && Writable(w, event)
    case MatchSubflow(key) => Settled(w) && key in w.executor.value.recoveredSubflows
    case NothingToAnnounce(run) =>
      Working(w) && w.life > 0 && w.executor.value.announcing == {} && run in w.executor.value.opening
    case AttemptCheckpoint(it, putOk) =>
      && Settled(w)
      && Iterates(it, w.executor.value.runs, w.executor.value.recoveredSubflows, w.executor.value.inFlight)
    case CleanUp(ok) => w.executor.Some? && w.executor.value.finished
    case Crash => w.executor.Some?
    case Recover => w.executor.None? && Restore(w).Ok? && Restore(w).value.terminal == None
  }

  function TaskIdsOf(tasks: seq<StartedTask>): set<TaskKey> {
    set i | 0 <= i < |tasks| :: tasks[i].task
  }

  /** Memory after a write: announcing changes nothing, and a new sub-run is
    initialized as soon as it is journaled. */
  function MemoryAfter(tree: Tree, runs: map<RunId, RunState>, event: Event): map<RunId, RunState> {
    match event
    case StepsNeeded(_, _, _) => runs
    case SubRunCreated(run, payload, _) => runs[run := Initialized(tree.flow, NewRun(tree.flow, run, payload))]
    case _ => RunsAfter(tree, runs, event)
  }

  function AfterWrite(tree: Tree, x: Executor, sequence: nat, event: Event): Executor {
    var runs := MemoryAfter(tree, x.runs, event);
    Executor(
      runs,
      x.recoveredSubflows,
      if event.TasksStarted? then x.unsent - TaskIdsOf(event.tasks) else x.unsent,
      TaskIdsAfter(x.inFlight, event),
      match event {
        case SubRunCreated(run, _, _) => x.announcing + NeededIn(runs, {run})
        case StepsNeeded(run, item, _) => x.announcing - {ItemKey(run, item)}
        case _ => x.announcing
      },
      match event {
        case SubRunCreated(run, _, _) => x.opening + {run}
        case StepsNeeded(run, _, _) => x.opening - {run}
        case RunCompleted(run, _) => x.opening - {run}
        case _ => x.opening
      },
      event.RunCompleted? && event.run == tree.root,
      Record(x.progress, sequence))
  }

  function AfterAttempt(w: World, it: Iteration, putOk: bool): World
    requires Enabled(w, AttemptCheckpoint(it, putOk))
  {
    var x := w.executor.value;
    if !Due(x.progress) then w
    else if x.progress.latest == None || !putOk then
      w.(executor := None) // the error ends the executor
    else
      var sequence := x.progress.latest.value;
      var data := Capture(x.runs, x.recoveredSubflows, x.inFlight, sequence, it);
      w.(snapshot := Some(Snapshot(Stored(sequence, Serialize(data)), |w.journal|, w.life)),
         executor := Some(x.(progress := Attempted(x.progress, true))))
  }

  /** Known sub-runs that need no announcement, because one was journaled. */
  function Announced(rec: Recovered): set<RunId> {
    rec.subflows.Values - rec.needing
  }

  /** The executor of a new life: every recovered run is initialized again. */
  function Restarted(tree: Tree, rec: Recovered, interval: nat): Executor {
    var runs := InitializedAll(tree.flow, rec.runs);
    Executor(runs, rec.subflows, rec.taskIds, map[], NeededIn(runs, runs.Keys - Announced(rec)), rec.needing, false,
             Fresh(interval))
  }

  function Apply(w: World, step: Step): World
    requires Enabled(w, step)
  {
    match step
    case Write(sequence, event) =>
      w.(journal := w.journal + [Entry(sequence, event)],
         executor := Some(AfterWrite(w.tree, w.executor.value, sequence, event)))
    case MatchSubflow(key) =>
      var x := w.executor.value;
      w.(executor := Some(x.(recoveredSubflows := x.recoveredSubflows - {key})))
    case NothingToAnnounce(run) =>
      var x := w.executor.value;
      w.(executor := Some(x.(opening := x.opening - {run})))
    case AttemptCheckpoint(it, putOk) => AfterAttempt(w, it, putOk)
    case CleanUp(ok) => if ok && w.interval != 0 then w.(snapshot := None) else w
    case Crash => w.(executor := None)
    case Recover => w.(life := w.life + 1, executor := Some(Restarted(w.tree, Restore(w).value, w.interval)))
  }

  ghost predicate IsRun(w: World, steps: seq<Step>, w': World)
    decreases |steps|
  {
    if steps == [] then w == w'
    else Enabled(w, steps[0]) && IsRun(Apply(w, steps[0]), steps[1..], w')
  }

  // -------------------------------------------------------------- invariant

  /** The state after the first `n` journal entries. */
  ghost function Truth(w: World, n: nat): Recovered
    requires 1 <= n <= |w.journal|
  {
    Replay(w.tree, Created(w.tree, w.payload), w.journal[1..n])
  }

  ghost predicate JournalValid(w: World) {
    && w.journal != [] && w.journal[0].event == RootRunCreated(w.tree.root, w.payload)
    && Ordered(w.journal)
    && forall i | 0 <= i < |w.journal| && w.journal[i].event.SubRunCreated? :: w.journal[i].event.run != w.tree.root
  }

  /** Memory is what the journal gives, but for the pending announcements. */
  ghost predicate Synced(flow: Flow, announcing: set<ItemKey>, memory: map<RunId, RunState>,
                         replayed: map<RunId, RunState>)
    requires SameRuns(memory, replayed)
  {
    forall r, i | r in memory && 0 <= i < |memory[r].items| ::
      SyncedItem(flow, ItemKey(r, i) in announcing, memory[r].payload, i, replayed[r].items[i], memory[r].items[i])
  }

  /** In-memory maps invent nothing; in the first life they are also complete and
    in step with the journal, except that the subflow map is empty. */
  ghost predicate ExecutorFaithful(w: World, x: Executor)
    requires JournalValid(w)
  {
    var truth := Truth(w, |w.journal|);
    && SameRuns(x.runs, truth.runs)
    && Submap(x.recoveredSubflows, truth.subflows)
    && Submap(x.unsent, truth.taskIds) && Submap(x.inFlight, truth.taskIds)
    && x.unsent.Keys !! x.inFlight.Keys
    && (!x.finished ==> truth.terminal == None)
    && (w.life == 0 ==> x.recoveredSubflows == map[] && x.inFlight == truth.taskIds && truth.needing <= x.opening)
    && (w.life == 0 ==> Synced(w.tree.flow, x.announcing, x.runs, truth.runs))
    && x.progress.interval == w.interval
    && (x.progress.since > 0 ==> x.progress.latest == Some(w.journal[|w.journal| - 1].sequence))
  }

  ghost function Base(data: CheckpointData): Recovered {
    Recovered(RebuildRuns(data.runs), RebuildSubflows(data.subflows), {}, None, RebuildTaskIds(data.inFlight))
  }

  ghost predicate SnapshotFaithful(w: World, snapshot: Snapshot)
    requires JournalValid(w)
  {
    && 1 <= snapshot.length <= |w.journal|
    && snapshot.stored.sequence == w.journal[snapshot.length - 1].sequence
    && Deserialize(snapshot.stored.bytes).Ok?
    && var base := Base(snapshot.stored.bytes.data);
       var truth := Truth(w, snapshot.length);
       && CapturedFrom(base, truth) && truth.terminal == None
       && (snapshot.life == 0 ==> base.runs == truth.runs)
       && (snapshot.life == 0 ==> base.subflows == map[] && base.taskIds == truth.taskIds && truth.needing == {})
  }

  ghost predicate Faithful(w: World) {
    && Lawful(w.tree.flow) && JournalValid(w)
    && (w.executor.Some? ==> ExecutorFaithful(w, w.executor.value))
    && (w.snapshot.Some? ==> SnapshotFaithful(w, w.snapshot.value))
  }

  // -------------------------------------------------------- the true state

  lemma {:induction false} TruthIsWellFormed(w: World, n: nat)
    requires JournalValid(w) && 1 <= n <= |w.journal|
    ensures RunsKeyed(Truth(w, n).runs) && w.tree.root in Truth(w, n).runs && w.tree.root !in Truth(w, n).needing
    decreases n
  {
    if n == 1 {
      assert w.journal[1..1] == [];
    } else {
      TruthIsWellFormed(w, n - 1);
      TruthStep(w, n - 1);
    }
  }

  lemma TruthStep(w: World, n: nat)
    requires 1 <= n < |w.journal|
    ensures Truth(w, n + 1) == ReplayEvent(w.tree, Truth(w, n), w.journal[n].event)
  {
    var entries := w.journal[1..n + 1];
    assert entries[..|entries| - 1] == w.journal[1..n];
  }

  lemma TruthOfPrefix(w: World, w': World, n: nat)
    requires w'.tree == w.tree && w'.payload == w.payload && w.journal <= w'.journal && 1 <= n <= |w.journal|
    ensures Truth(w', n) == Truth(w, n)
  {
    assert w'.journal[1..n] == w.journal[1..n];
  }

  lemma {:induction false} InsertedKeys(taskIds: map<TaskKey, string>, tasks: seq<StartedTask>)
    ensures InsertTaskIds(taskIds, tasks).Keys <= taskIds.Keys + TaskIdsOf(tasks)
    decreases |tasks|
  {
    if tasks != [] {
      InsertedKeys(if tasks[0].taskId == "" then taskIds else taskIds[tasks[0].task := tasks[0].taskId], tasks[1..]);
      forall k | k in TaskIdsOf(tasks[1..]) ensures k in TaskIdsOf(tasks) {
        var i :| 0 <= i < |tasks[1..]| && tasks[1..][i].task == k;
        assert tasks[i + 1].task == k;
      }
      assert tasks[0].task in TaskIdsOf(tasks);
    }
  }

  lemma StartedTasksStayFaithful(unsent: map<TaskKey, string>, inFlight: map<TaskKey, string>,
                                 truth: map<TaskKey, string>, tasks: seq<StartedTask>)
    requires Submap(unsent, truth) && Submap(inFlight, truth) && unsent.Keys !! inFlight.Keys
    ensures var unsent', inFlight', truth' :=
        unsent - TaskIdsOf(tasks), InsertTaskIds(inFlight, tasks), InsertTaskIds(truth, tasks);
      Submap(unsent', truth') && Submap(inFlight', truth') && unsent'.Keys !! inFlight'.Keys
  {
    var unsent', inFlight', truth' :=
      unsent - TaskIdsOf(tasks), InsertTaskIds(inFlight, tasks), InsertTaskIds(truth, tasks);
    forall k | k in unsent' ensures k in truth' && unsent'[k] == truth'[k] {
      InsertEffect(truth, truth, tasks, k);
    }
    forall k | k in inFlight' ensures k in truth' && inFlight'[k] == truth'[k] {
      InsertEffect(inFlight, truth, tasks, k);
    }
    InsertedKeys(inFlight, tasks);
  }

  // --------------------------------------------------------- memory in step

  lemma NoItemEvents(flow: Flow, s: RunState, event: Event)
    requires forall i: nat | i < |s.items| :: ItemEvents(event, s.run, i) == []
    ensures AppliedRun(flow, s, event) == s
  {
    assert AppliedRun(flow, s, event).items == s.items;
  }

  /** With nothing to announce, memory in step is memory equal to the fold. */
  lemma SettledSyncIff(flow: Flow, memory: map<RunId, RunState>, replayed: map<RunId, RunState>)
    requires SameRuns(memory, replayed)
    ensures Synced(flow, {}, memory, replayed) <==> memory == replayed
  {
    if Synced(flow, {}, memory, replayed) {
      forall r | r in memory ensures memory[r] == replayed[r] {
        assert SameCreation(memory[r], replayed[r]);
        assert memory[r].items == replayed[r].items;
      }
    }
  }

  lemma MemoryKeepsRuns(tree: Tree, memory: map<RunId, RunState>, replayed: map<RunId, RunState>, event: Event)
    requires SameRuns(memory, replayed) && (event.SubRunCreated? ==> event.run !in memory)
    ensures SameRuns(MemoryAfter(tree, memory, event), RunsAfter(tree, replayed, event))
  {
    SameRunsStep(tree, memory, replayed, event);
    var a, b := MemoryAfter(tree, memory, event), RunsAfter(tree, replayed, event);
    assert a.Keys == b.Keys;
    forall r | r in a ensures SameCreation(a[r], b[r]) {
      if r in memory { assert SameCreation(memory[r], replayed[r]); }
    }
  }

  lemma AnnouncedItem(flow: Flow, s: RunState, event: Event, i: nat)
    requires i < |s.items| && event.StepsNeeded?
    ensures AppliedRun(flow, s, event).items[i] ==
      if event.run == s.run && event.item == i
      then flow.apply(s.payload, i, s.items[i], ItemReplays.StepsNeeded(event.steps)) else s.items[i]
  {
    var one := [ItemReplays.StepsNeeded(event.steps)];
    assert one[..0] == [];
    assert AppliedItem(flow, s.payload, i, s.items[i], []) == s.items[i];
  }

  /** Journaling an announcement brings memory neither in step nor out of it. */
  lemma AnnouncementKeepsSyncIff(tree: Tree, announcing: set<ItemKey>, memory: map<RunId, RunState>,
                                 replayed: map<RunId, RunState>, event: Event)
    requires SameRuns(memory, replayed) && RunsKeyed(replayed) && event.StepsNeeded?
    requires ItemKey(event.run, event.item) in announcing && event.run in memory
    requires event.item < |memory[event.run].items| && event.steps == NeededSteps(memory[event.run].items[event.item])
    ensures SameRuns(memory, RunsAfter(tree, replayed, event))
    ensures Synced(tree.flow, announcing - {ItemKey(event.run, event.item)}, memory, RunsAfter(tree, replayed, event))
       <==> Synced(tree.flow, announcing, memory, replayed)
  {
    MemoryKeepsRuns(tree, memory, replayed, event);
    var after, key := RunsAfter(tree, replayed, event), ItemKey(event.run, event.item);
    forall r, i | r in memory && 0 <= i < |memory[r].items|
      ensures SyncedItem(tree.flow, ItemKey(r, i) in announcing, memory[r].payload, i,
                         replayed[r].items[i], memory[r].items[i])
         <==> SyncedItem(tree.flow, ItemKey(r, i) in announcing - {key}, memory[r].payload, i,
                         after[r].items[i], memory[r].items[i])
    {
      assert SameCreation(memory[r], replayed[r]);
      AnnouncedItem(tree.flow, replayed[r], event, i);
      assert ItemKey(r, i) == key <==> r == event.run && i == event.item;
    }
  }

  /** A new sub-run is in step, its announcements pending. */
  lemma NewRunSynced(tree: Tree, memory: map<RunId, RunState>, event: Event)
    requires Lawful(tree.flow) && event.SubRunCreated? && event.run !in memory
    ensures SameRuns(MemoryAfter(tree, memory, event), RunsAfter(tree, memory, event))
    ensures var after := MemoryAfter(tree, memory, event);
      Synced(tree.flow, NeededIn(after, {event.run}), after, RunsAfter(tree, memory, event))
  {
    var after, replayed, run := MemoryAfter(tree, memory, event), RunsAfter(tree, memory, event), event.run;
    MemoryKeepsRuns(tree, memory, memory, event);
    forall r, i | r in after && 0 <= i < |after[r].items|
      ensures SyncedItem(tree.flow, ItemKey(r, i) in NeededIn(after, {run}), after[r].payload, i,
                         replayed[r].items[i], after[r].items[i])
    {
      assert ItemKey(r, i) in NeededIn(after, {run}) <==> r == run && after[r].items[i].needed != {};
      if r == run {
        assert HarmlessItem(tree.flow, true, event.payload, i, tree.flow.create(event.payload)[i]);
      } else {
        NoItemEvents(tree.flow, memory[r], event);
      }
    }
  }

  /** What the code journals while it works keeps memory in step. */
  lemma WriteKeepsSync(w: World, truth: map<RunId, RunState>, sequence: nat, event: Event)
    requires Lawful(w.tree.flow) && Enabled(w, Write(sequence, event)) && RunsKeyed(truth)
    requires var x := w.executor.value; SameRuns(x.runs, truth) && Synced(w.tree.flow, x.announcing, x.runs, truth)
    ensures var x' := AfterWrite(w.tree, w.executor.value, sequence, event);
      && SameRuns(x'.runs, RunsAfter(w.tree, truth, event))
      && Synced(w.tree.flow, x'.announcing, x'.runs, RunsAfter(w.tree, truth, event))
  {
    var x := w.executor.value;
    if event.StepsNeeded? {
      AnnouncementKeepsSyncIff(w.tree, x.announcing, x.runs, truth, event);
    } else {
      SettledSyncIff(w.tree.flow, x.runs, truth);
      if event.SubRunCreated? {
        NewRunSynced(w.tree, x.runs, event);
        assert {} + NeededIn(MemoryAfter(w.tree, x.runs, event), {event.run})
          == NeededIn(MemoryAfter(w.tree, x.runs, event), {event.run});
      } else {
        SameRunsStep(w.tree, x.runs, truth, event);
        SettledSyncIff(w.tree.flow, RunsAfter(w.tree, x.runs, event), RunsAfter(w.tree, truth, event));
      }
    }
  }

  // ------------------------------------------------------------ preservation

  /** The task ids in memory and those of the journal move together. */
  lemma WriteKeepsTaskIds(tree: Tree, x: Executor, truth: map<TaskKey, string>, sequence: nat, event: Event)
    requires Submap(x.unsent, truth) && Submap(x.inFlight, truth) && x.unsent.Keys !! x.inFlight.Keys
    requires event.TaskCompleted? ==> event.task in x.inFlight
    ensures var x', truth' := AfterWrite(tree, x, sequence, event), TaskIdsAfter(truth, event);
      && Submap(x'.unsent, truth') && Submap(x'.inFlight, truth') && x'.unsent.Keys !! x'.inFlight.Keys
      && (x.inFlight == truth ==> x'.inFlight == truth')
  {
    if event.TasksStarted? {
      StartedTasksStayFaithful(x.unsent, x.inFlight, truth, event.tasks);
    }
  }

  /** So do the subflows, and the sub-runs that still need an announcement. */
  lemma WriteKeepsSubflows(tree: Tree, x: Executor, truth: Recovered, sequence: nat, event: Event)
    requires Submap(x.recoveredSubflows, truth.subflows)
    requires event.SubRunCreated? ==> event.run != tree.root && event.subflow !in x.recoveredSubflows
    ensures Submap(x.recoveredSubflows, SubflowsAfter(truth.subflows, event))
    ensures truth.needing <= x.opening && tree.root !in truth.needing ==>
      NeedingAfter(tree.root, truth.needing, event) <= AfterWrite(tree, x, sequence, event).opening
  {}

  lemma WriteKeepsExecutor(w: World, sequence: nat, event: Event)
    requires Faithful(w) && Enabled(w, Write(sequence, event))
    requires JournalValid(Apply(w, Write(sequence, event)))
    ensures var w' := Apply(w, Write(sequence, event)); ExecutorFaithful(w', w'.executor.value)
  {
    var w' := Apply(w, Write(sequence, event));
    var x, truth := w.executor.value, Truth(w, |w.journal|);
    TruthOfPrefix(w, w', |w.journal|);
    TruthStep(w', |w.journal|);
    TruthIsWellFormed(w, |w.journal|);
    MemoryKeepsRuns(w.tree, x.runs, truth.runs, event);
    if w.life == 0 { WriteKeepsSync(w, truth.runs, sequence, event); }
    WriteKeepsTaskIds(w.tree, x, truth.taskIds, sequence, event);
    WriteKeepsSubflows(w.tree, x, truth, sequence, event);
  }

  lemma SnapshotSurvives(w: World, w': World, snapshot: Snapshot)
    requires JournalValid(w) && JournalValid(w') && SnapshotFaithful(w, snapshot)
    requires w'.tree == w.tree && w'.payload == w.payload && w.journal <= w'.journal
    ensures SnapshotFaithful(w', snapshot)
  {
    TruthOfPrefix(w, w', snapshot.length);
  }

  lemma WriteKeepsFaithful(w: World, sequence: nat, event: Event)
    requires Faithful(w) && Enabled(w, Write(sequence, event))
    ensures Faithful(Apply(w, Write(sequence, event)))
  {
    var w' := Apply(w, Write(sequence, event));
    assert JournalValid(w');
    WriteKeepsExecutor(w, sequence, event);
    if w.snapshot.Some? {
      SnapshotSurvives(w, w', w.snapshot.value);
    }
  }

  /** What is captured decodes to what memory held. */
  lemma CaptureDecodes(x: Executor, sequence: nat, it: Iteration)
    requires RunsKeyed(x.runs) && Iterates(it, x.runs, x.recoveredSubflows, x.inFlight)
    ensures var data := Capture(x.runs, x.recoveredSubflows, x.inFlight, sequence, it);
      && Deserialize(Serialize(data)).Ok?
      && Base(data) == Recovered(x.runs, x.recoveredSubflows, {}, None, x.inFlight)
  {
    CaptureIsLossless(x.runs, x.recoveredSubflows, x.inFlight, sequence, it);
  }

  lemma CaptureIsFaithful(w: World, snapshot: Snapshot)
    requires Faithful(w) && Settled(w) && snapshot.length == |w.journal| && snapshot.life == w.life
    requires snapshot.stored.sequence == w.journal[|w.journal| - 1].sequence && Deserialize(snapshot.stored.bytes).Ok?
    requires var x := w.executor.value;
      Base(snapshot.stored.bytes.data) == Recovered(x.runs, x.recoveredSubflows, {}, None, x.inFlight)
    ensures SnapshotFaithful(w, snapshot)
  {
    SettledSyncIff(w.tree.flow, w.executor.value.runs, Truth(w, |w.journal|).runs);
  }

  lemma AttemptKeepsFaithful(w: World, it: Iteration, putOk: bool)
    requires Faithful(w) && Enabled(w, AttemptCheckpoint(it, putOk))
    ensures Faithful(Apply(w, AttemptCheckpoint(it, putOk)))
  {
    var x := w.executor.value;
    if Due(x.progress) && x.progress.latest.Some? && putOk {
      TruthIsWellFormed(w, |w.journal|);
      CaptureDecodes(x, x.progress.latest.value, it);
      var w' := Apply(w, AttemptCheckpoint(it, putOk));
      CaptureIsFaithful(w, w'.snapshot.value);
      SnapshotSurvives(w, w', w'.snapshot.value);
    }
  }

  /** In every reachable world both recovery paths succeed, and a checkpoint
    yields the right runs and terminal status and nothing invented; one of the
    first life yields the true run states as well. */
  lemma RestoreIsFaithful(w: World)
    requires Faithful(w)
    ensures RestoreFromJournal(w.tree, w.journal) == Ok(Truth(w, |w.journal|))
    ensures Restore(w).Ok?
    ensures var rec, truth := Restore(w).value, Truth(w, |w.journal|);
      && SameRuns(rec.runs, truth.runs) && rec.terminal == truth.terminal
      && (w.snapshot.None? || w.snapshot.value.life == 0 ==> rec.runs == truth.runs)
      && Submap(rec.subflows, truth.subflows) && Submap(rec.taskIds, truth.taskIds)
      && rec.needing <= truth.needing
  {
    var n := |w.journal|;
    assert w.journal[1..n] == w.journal[1..];
    if w.snapshot.Some? {
      RestoreUnfolds(w);
      var snapshot := w.snapshot.value;
      var base := Base(snapshot.stored.bytes.data);
      RestoredIsContained(w.tree, base, Truth(w, snapshot.length), w.journal[snapshot.length..]);
      TerminalEffect(w.tree, base, Truth(w, snapshot.length), w.journal[snapshot.length..]);
      if snapshot.life == 0 {
        RunsDependOnRuns(w.tree, base, Truth(w, snapshot.length), w.journal[snapshot.length..]);
      }
    }
  }

  lemma TruthSplits(w: World, n: nat)
    requires 1 <= n <= |w.journal|
    ensures Truth(w, |w.journal|) == Replay(w.tree, Truth(w, n), w.journal[n..])
  {
    ReplayAppends(w.tree, Created(w.tree, w.payload), w.journal[1..n], w.journal[n..]);
    PartsOf(w.journal, n);
  }

  lemma PartsOf<T>(s: seq<T>, n: nat)
    requires 1 <= n <= |s|
    ensures s[1..n] + s[n..] == s[1..|s|]
  {}

  lemma CheckpointRestores(tree: Tree, stored: Stored, journal: seq<Entry<Event>>, n: nat)
    requires Deserialize(stored.bytes).Ok? && tree.root in Base(stored.bytes.data).runs
    requires Ordered(journal) && 1 <= n <= |journal| && stored.sequence == journal[n - 1].sequence
    ensures RestoreFromCheckpoint(tree, stored, journal) == Ok(Replay(tree, Base(stored.bytes.data), journal[n..]))
  {
    StreamIsTail(journal, n);
  }

  lemma RestoreUnfolds(w: World)
    requires Faithful(w) && w.snapshot.Some?
    ensures var snapshot := w.snapshot.value;
      var tail := w.journal[snapshot.length..];
      && Restore(w) == Ok(Replay(w.tree, Base(snapshot.stored.bytes.data), tail))
      && Truth(w, |w.journal|) == Replay(w.tree, Truth(w, snapshot.length), tail)
  {
    var snapshot := w.snapshot.value;
    TruthIsWellFormed(w, snapshot.length);
    TruthSplits(w, snapshot.length);
    CheckpointRestores(w.tree, snapshot.stored, w.journal, snapshot.length);
  }

  lemma RestartKeepsRuns(flow: Flow, runs: map<RunId, RunState>, truth: map<RunId, RunState>)
    requires SameRuns(runs, truth)
    ensures SameRuns(InitializedAll(flow, runs), truth)
  {
    var after := InitializedAll(flow, runs);
    assert after.Keys == truth.Keys;
    forall r | r in after ensures SameCreation(after[r], truth[r]) { assert SameCreation(runs[r], truth[r]); }
  }

  lemma StepKeepsFaithful(w: World, step: Step)
    requires Faithful(w) && Enabled(w, step)
    ensures Faithful(Apply(w, step))
  {
    match step
    case Write(sequence, event) => WriteKeepsFaithful(w, sequence, event);
    case AttemptCheckpoint(it, putOk) => AttemptKeepsFaithful(w, it, putOk);
    case Recover =>
      RestoreIsFaithful(w);
      RestartKeepsRuns(w.tree.flow, Restore(w).value.runs, Truth(w, |w.journal|).runs);
    case _ =>
  }

  lemma {:induction false} RunKeepsFaithful(w: World, steps: seq<Step>, w': World)
    requires Faithful(w) && IsRun(w, steps, w')
    ensures Faithful(w') && w'.tree == w.tree && w'.payload == w.payload
    decreases |steps|
  {
    if steps != [] {
      StepKeepsFaithful(w, steps[0]);
      RunKeepsFaithful(Apply(w, steps[0]), steps[1..], w');
    }
  }

  lemma InitIsFaithful(w: World)
    requires Init(w)
    ensures Faithful(w)
  {
    assert w.journal[1..1] == [];
    var created := Created(w.tree, w.payload).runs;
    RestartKeepsRuns(w.tree.flow, created, created);
    FirstStartSynced(w.tree, w.payload);
  }

  lemma FirstStartSynced(tree: Tree, payload: nat)
    requires Lawful(tree.flow)
    ensures var created := Created(tree, payload).runs;
      var runs := InitializedAll(tree.flow, created);
      SameRuns(runs, created) && Synced(tree.flow, NeededIn(runs, {tree.root}), runs, created)
  {
    var created := Created(tree, payload).runs;
    var runs := InitializedAll(tree.flow, created);
    RestartKeepsRuns(tree.flow, created, created);
    forall r, i | r in runs && 0 <= i < |runs[r].items|
      ensures SyncedItem(tree.flow, ItemKey(r, i) in NeededIn(runs, {tree.root}), runs[r].payload, i,
                         created[r].items[i], runs[r].items[i])
    {
      assert ItemKey(r, i) in NeededIn(runs, {tree.root}) <==> runs[r].items[i].needed != {};
      assert HarmlessItem(tree.flow, true, payload, i, tree.flow.create(payload)[i]);
    }
  }

  // ------------------------------------------------------------ main results

  /** Every reachable world: recovery succeeds, and the checkpoint path gives
    the same runs and the same terminal status as replaying the whole journal,
    for any gaps in the sequence numbers, failed puts and crashes.  From a
    checkpoint of the first life the states of the runs are the same as well. */
  lemma {:induction false} RecoveryPathsAgreeOnRuns(w: World, steps: seq<Step>, w': World)
    requires Init(w) && IsRun(w, steps, w')
    ensures Restore(w').Ok? && RestoreFromJournal(w'.tree, w'.journal).Ok?
    ensures var rec, full := Restore(w').value, RestoreFromJournal(w'.tree, w'.journal).value;
      && SameRuns(rec.runs, full.runs) && rec.terminal == full.terminal
      && Submap(rec.subflows, full.subflows) && Submap(rec.taskIds, full.taskIds)
      && rec.needing <= full.needing
      && (w'.snapshot.None? || w'.snapshot.value.life == 0 ==> rec.runs == full.runs)
  {
    InitIsFaithful(w);
    RunKeepsFaithful(w, steps, w');
    RestoreIsFaithful(w');
  }

  /** The two paths agree completely if and only if the tail writes again
    everything the capture left out and settles every run whose captured state
    was not the true one. */
  lemma {:induction false} RecoveryPathsAgreeIff(w: World, steps: seq<Step>, w': World)
    requires Init(w) && IsRun(w, steps, w') && w'.snapshot.Some?
    ensures w'.tree == w.tree && w'.payload == w.payload && 1 <= w'.snapshot.value.length <= |w'.journal|
    ensures w'.snapshot.value.stored.bytes.Encoded?
    ensures var base, truth := Base(w'.snapshot.value.stored.bytes.data), Truth(w', w'.snapshot.value.length);
      && SameRuns(base.runs, truth.runs)
      && (Restore(w') == RestoreFromJournal(w'.tree, w'.journal) <==>
            TailCovers(w'.tree, base, truth, w'.journal[w'.snapshot.value.length..]))
  {
    InitIsFaithful(w);
    RunKeepsFaithful(w, steps, w');
    RestoreIsFaithful(w');
    RestoreUnfolds(w');
    var snapshot := w'.snapshot.value;
    RestoreEqualsReplayIff(w'.tree, Base(snapshot.stored.bytes.data), Truth(w', snapshot.length),
                           w'.journal[snapshot.length..]);
  }

  lemma TruthSubflowKeys(w: World, n: nat, k: SubflowKey)
    requires JournalValid(w) && 1 <= n <= |w.journal|
    ensures k in Truth(w, n).subflows <==> k in WrittenSubflows(w.journal[..n])
  {
    var created := Created(w.tree, w.payload);
    var tail := w.journal[1..n];
    SubflowEffect(w.tree, created, created, tail, k);
    if k in WrittenSubflows(tail) {
      SubflowsComeFromEntries(w.tree, created, tail, k);
      var i :| 0 <= i < |tail| && tail[i].event.SubRunCreated? && tail[i].event.subflow == k;
      assert w.journal[..n][i + 1] == tail[i];
    }
    if k in WrittenSubflows(w.journal[..n]) {
      var i :| 0 <= i < n && w.journal[..n][i].event.SubRunCreated? && w.journal[..n][i].event.subflow == k;
      assert i != 0 && tail[i - 1] == w.journal[i];
    }
  }

  lemma {:induction false} SubflowsComeFromEntries(tree: Tree, rec: Recovered, entries: seq<Entry<Event>>,
                                                   k: SubflowKey)
    requires k in WrittenSubflows(entries)
    ensures k in Replay(tree, rec, entries).subflows
    decreases |entries|
  {
    var front, last := entries[..|entries| - 1], entries[|entries| - 1];
    if !(last.event.SubRunCreated? && last.event.subflow == k) {
      var i :| 0 <= i < |entries| && entries[i].event.SubRunCreated? && entries[i].event.subflow == k;
      assert front[i] == entries[i];
      SubflowsComeFromEntries(tree, rec, front, k);
    }
  }

  /** A checkpoint of the first process life loses no run state and no task id.
    It restores the subflow map as well if and only if every subflow journaled
    up to the checkpoint is journaled once more after it: the captured map only
    ever holds subflows that an earlier recovery found. */
  lemma {:induction false} FirstLifeCheckpointIsCompleteIff(w: World, steps: seq<Step>, w': World)
    requires Init(w) && IsRun(w, steps, w') && w'.snapshot.Some? && w'.snapshot.value.life == 0
    ensures Restore(w').Ok? && RestoreFromJournal(w'.tree, w'.journal).Ok?
    ensures var rec, full := Restore(w').value, RestoreFromJournal(w'.tree, w'.journal).value;
      rec.(subflows := full.subflows) == full
    ensures w'.snapshot.value.length <= |w'.journal|
    ensures Restore(w') == RestoreFromJournal(w'.tree, w'.journal) <==>
      WrittenSubflows(w'.journal[..w'.snapshot.value.length]) <= WrittenSubflows(w'.journal[w'.snapshot.value.length..])
  {
    InitIsFaithful(w);
    RunKeepsFaithful(w, steps, w');
    RestoreIsFaithful(w');
    RestoreUnfolds(w');
    RecoveryPathsAgreeIff(w, steps, w');
    var snapshot := w'.snapshot.value;
    var base, truth := Base(snapshot.stored.bytes.data), Truth(w', snapshot.length);
    var tail := w'.journal[snapshot.length..];
    var patched := base.(subflows := truth.subflows);
    CoveringTailRestores(w'.tree, patched, truth, tail);
    ComponentsIndependent(w'.tree, base, patched, tail);
    forall k ensures k in truth.subflows <==> k in WrittenSubflows(w'.journal[..snapshot.length]) {
      TruthSubflowKeys(w', snapshot.length, k);
    }
  }

  lemma {:induction false} ComponentsIndependent(tree: Tree, rec: Recovered, rec': Recovered,
                                                 entries: seq<Entry<Event>>)
    requires rec' == rec.(subflows := rec'.subflows)
    ensures Replay(tree, rec', entries) == Replay(tree, rec, entries).(subflows := Replay(tree, rec', entries).subflows)
    decreases |entries|
  {
    if entries != [] {
      ComponentsIndependent(tree, rec, rec', entries[..|entries| - 1]);
    }
  }

  lemma {:induction false} ChainIsRun(worlds: seq<World>, steps: seq<Step>)
    requires |worlds| == |steps| + 1
    requires forall i | 0 <= i < |steps| :: Enabled(worlds[i], steps[i]) && worlds[i + 1] == Apply(worlds[i], steps[i])
    ensures IsRun(worlds[0], steps, worlds[|steps|])
    decreases |steps|
  {
    if steps != [] {
      ChainIsRun(worlds[1..], steps[1..]);
    }
  }

  lemma {:induction false} RunsCompose(w: World, before: seq<Step>, w': World, after: seq<Step>, w'': World)
    requires IsRun(w, before, w') && IsRun(w', after, w'')
    ensures IsRun(w, before + after, w'')
    decreases |before|
  {
    if before == [] {
      assert before + after == after;
    } else {
      RunsCompose(Apply(w, before[0]), before[1..], w', after, w'');
      assert (before + after)[1..] == before[1..] + after;
    }
  }

}
