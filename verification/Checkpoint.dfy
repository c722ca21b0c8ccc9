/** Checkpoints of an execution tree and the two ways to recover from a crash:
  replaying the whole journal, and restoring a checkpoint and replaying the
  entries after it. */
module Checkpoint {
  import opened Basics
  import opened Journals
  import opened Ordering
  import opened Records
  import ItemReplays
  import ItemStates

  type View = ItemStates.View

  type ItemEvent = ItemReplays.ItemEvent

  /** Run, item and step of a task. */
  datatype TaskKey = TaskKey(run: RunId, item: nat, step: nat)

  /** Parent run, item and step that submitted a subflow, and the caller's key. */
  datatype SubflowKey = SubflowKey(parent: RunId, item: nat, step: nat, key: nat)

  datatype TerminalStatus = Completed | Failed

  datatype StartedTask = StartedTask(task: TaskKey, attempt: nat, taskId: string)

  /** Journal events; `payload` stands for the flow, the inputs and variables. */
  datatype Event =
    | RootRunCreated(run: RunId, payload: nat)
    | SubRunCreated(run: RunId, payload: nat, subflow: SubflowKey)
    | StepsNeeded(run: RunId, item: nat, steps: seq<nat>)
    | TasksStarted(tasks: seq<StartedTask>)
    | TaskCompleted(task: TaskKey, result: ItemStates.Outcome)
    | RunCompleted(run: RunId, status: TerminalStatus)
    | Informational(run: RunId)

  /** What a run was created with, and the states of its items. */
  datatype RunState = RunState(run: RunId, payload: nat, items: seq<View>)

  /** How items behave, by the payload of their run and their index: the items a
    new run starts with, what a journaled event does to one, and
    `initialize_item`, which every executor calls for every item it starts with. */
  datatype Flow = Flow(
    create: nat -> seq<View>,
    apply: (nat, nat, View, ItemEvent) -> View,
    initialize: (nat, nat, View) -> View)

  /** An execution tree: its root and the behaviour of its runs. */
  datatype Tree = Tree(root: RunId, flow: Flow)

  /** What both recovery paths rebuild. */
  datatype Recovered = Recovered(
    runs: map<RunId, RunState>,
    subflows: map<SubflowKey, RunId>,
    needing: set<RunId>,
    terminal: Option<TerminalStatus>,
    taskIds: map<TaskKey, string>)

  // ----------------------------------------------------------------- replay

  function Starts(tasks: seq<StartedTask>, run: RunId, item: nat): seq<ItemEvent> {
    if tasks == [] then []
    else
      var last := tasks[|tasks| - 1];
      Starts(tasks[..|tasks| - 1], run, item)
      + if last.task.run == run && last.task.item == item
        then [ItemReplays.TaskStarted(last.task.step, last.attempt)] else []
  }

  /** What an event is for one item of one run. */
  function ItemEvents(event: Event, run: RunId, item: nat): seq<ItemEvent> {
    match event
    case StepsNeeded(r, i, steps) => if r == run && i == item then [ItemReplays.StepsNeeded(steps)] else []
    case TaskCompleted(task, result) =>
      if task.run == run && task.item == item then [ItemReplays.TaskCompleted(task.step, result)] else []
    case TasksStarted(tasks) => Starts(tasks, run, item)
    case _ => []
  }

  function AppliedItem(flow: Flow, payload: nat, item: nat, v: View, events: seq<ItemEvent>): View {
    if events == [] then v
    else
      flow.apply(payload, item, AppliedItem(flow, payload, item, v, events[..|events| - 1]), events[|events| - 1])
  }

  function AppliedRun(flow: Flow, s: RunState, event: Event): RunState {
    s.(items := seq(|s.items|, (i: nat) requires i < |s.items| =>
      AppliedItem(flow, s.payload, i, s.items[i], ItemEvents(event, s.run, i))))
  }

  function NewRun(flow: Flow, run: RunId, payload: nat): RunState {
    RunState(run, payload, flow.create(payload))
  }

  function RunsAfter(tree: Tree, runs: map<RunId, RunState>, event: Event): map<RunId, RunState> {
    var applied := map r | r in runs :: AppliedRun(tree.flow, runs[r], event);
    match event
    case SubRunCreated(run, payload, _) =>
      if run in applied then applied else applied[run := NewRun(tree.flow, run, payload)]
    case RunCompleted(run, _) => if run == tree.root then applied else applied - {run}
    case _ => applied
  }

  function SubflowsAfter(subflows: map<SubflowKey, RunId>, event: Event): map<SubflowKey, RunId> {
    match event
    case SubRunCreated(run, _, subflow) => subflows[subflow := run]
    case _ => subflows
  }

  function NeedingAfter(root: RunId, needing: set<RunId>, event: Event): set<RunId> {
    match event
    case SubRunCreated(run, _, _) => needing + {run}
    case StepsNeeded(run, _, _) => if run == root then needing else needing - {run}
    case RunCompleted(run, _) => if run == root then needing else needing - {run}
    case _ => needing
  }

  function TerminalAfter(root: RunId, terminal: Option<TerminalStatus>, event: Event): Option<TerminalStatus> {
    match event
    case RunCompleted(run, status) => if run == root then Some(status) else terminal
    case _ => terminal
  }

  /** Empty task ids come from journals written before ids were recorded. */
  function InsertTaskIds(taskIds: map<TaskKey, string>, tasks: seq<StartedTask>): map<TaskKey, string>
    decreases |tasks|
  {
    if tasks == [] then taskIds
    else InsertTaskIds(if tasks[0].taskId == "" then taskIds else taskIds[tasks[0].task := tasks[0].taskId], tasks[1..])
  }

  function TaskIdsAfter(taskIds: map<TaskKey, string>, event: Event): map<TaskKey, string> {
    match event
    case TasksStarted(tasks) => InsertTaskIds(taskIds, tasks)
    case TaskCompleted(task, _) => taskIds - {task}
    case _ => taskIds
  }

  function ReplayEvent(tree: Tree, rec: Recovered, event: Event): Recovered {
    Recovered(RunsAfter(tree, rec.runs, event), SubflowsAfter(rec.subflows, event),
              NeedingAfter(tree.root, rec.needing, event), TerminalAfter(tree.root, rec.terminal, event),
              TaskIdsAfter(rec.taskIds, event))
  }

  function Replay(tree: Tree, rec: Recovered, entries: seq<Entry<Event>>): Recovered {
    if entries == [] then rec
    else ReplayEvent(tree, Replay(tree, rec, entries[..|entries| - 1]), entries[|entries| - 1].event)
  }

  datatype RecoveryError =
    | NoEntries
    | NotRootCreation
    | DecodeFailed
    | VersionMismatch(expected: nat, actual: nat)
    | RootMissing

  function Created(tree: Tree, payload: nat): Recovered {
    Recovered(map[tree.root := NewRun(tree.flow, tree.root, payload)], map[], {}, None, map[])
  }

  /** Full replay; the first streamed entry must create the root run. */
  function RestoreFromJournal(tree: Tree, entries: seq<Entry<Event>>): Result<Recovered, RecoveryError> {
    if entries == [] then Err(NoEntries)
    else match entries[0].event
      case RootRunCreated(run, payload) =>
        if run == tree.root then Ok(Replay(tree, Created(tree, payload), entries[1..])) else Err(NotRootCreation)
      case _ => Err(NotRootCreation)
  }

  // ------------------------------------------------------- checkpoint records

  const CHECKPOINT_VERSION: nat := 1

  datatype SubflowMapping = SubflowMapping(parent: RunId, item: nat, step: nat, key: nat, subflowRun: RunId)

  datatype InFlightTaskId = InFlightTaskId(run: RunId, item: nat, step: nat, taskId: string)

  datatype CheckpointData = CheckpointData(
    version: nat,
    sequence: nat,
    runs: seq<RunState>,
    subflows: seq<SubflowMapping>,
    inFlight: seq<InFlightTaskId>)

  /** Stored bytes: an encoding, or something that does not decode. */
  datatype Bytes = Encoded(data: CheckpointData) | Corrupt

  datatype Stored = Stored(sequence: nat, bytes: Bytes)

  function Serialize(data: CheckpointData): Bytes {
    Encoded(data)
  }

  function Deserialize(bytes: Bytes): (r: Result<CheckpointData, RecoveryError>)
    ensures r.Ok? <==> bytes.Encoded? && bytes.data.version == CHECKPOINT_VERSION
    ensures r.Ok? ==> Serialize(r.value) == bytes
  {
    match bytes
    case Corrupt => Err(DecodeFailed)
    case Encoded(data) =>
      if data.version != CHECKPOINT_VERSION then Err(VersionMismatch(CHECKPOINT_VERSION, data.version)) else Ok(data)
  }

  /** The order in which the three hash maps happen to be iterated. */
  datatype Iteration = Iteration(runs: seq<RunId>, subflows: seq<SubflowKey>, tasks: seq<TaskKey>)

  ghost predicate Iterates(it: Iteration, runs: map<RunId, RunState>, subflows: map<SubflowKey, RunId>,
                           inFlight: map<TaskKey, string>) {
    && Enumerates(it.runs, runs.Keys)
    && Enumerates(it.subflows, subflows.Keys)
    && Enumerates(it.tasks, inFlight.Keys)
  }

  function RunList(runs: map<RunId, RunState>, ids: seq<RunId>): seq<RunState>
    requires forall i | 0 <= i < |ids| :: ids[i] in runs
  {
    seq(|ids|, i requires 0 <= i < |ids| => runs[ids[i]])
  }

  function SubflowList(subflows: map<SubflowKey, RunId>, keys: seq<SubflowKey>): seq<SubflowMapping>
    requires forall i | 0 <= i < |keys| :: keys[i] in subflows
  {
    seq(|keys|, i requires 0 <= i < |keys| =>
      SubflowMapping(keys[i].parent, keys[i].item, keys[i].step, keys[i].key, subflows[keys[i]]))
  }

  function TaskIdList(inFlight: map<TaskKey, string>, keys: seq<TaskKey>): seq<InFlightTaskId>
    requires forall i | 0 <= i < |keys| :: keys[i] in inFlight
  {
    seq(|keys|, i requires 0 <= i < |keys| =>
      InFlightTaskId(keys[i].run, keys[i].item, keys[i].step, inFlight[keys[i]]))
  }

  lemma SortedIdsAreKeys(ids: seq<RunId>, i: nat)
    requires i < |Sort(NatLe, ids)|
    ensures Sort(NatLe, ids)[i] in ids
  {
    SortPermutes(NatLe, ids);
    assert Sort(NatLe, ids)[i] in multiset(Sort(NatLe, ids));
  }

  function Capture(runs: map<RunId, RunState>, subflows: map<SubflowKey, RunId>, inFlight: map<TaskKey, string>,
                   sequence: nat, it: Iteration): CheckpointData
    requires Iterates(it, runs, subflows, inFlight)
  {
    var sortedIds := Sort(NatLe, it.runs);
    assert forall i | 0 <= i < |sortedIds| :: sortedIds[i] in runs by {
      forall i | 0 <= i < |sortedIds| ensures sortedIds[i] in runs { SortedIdsAreKeys(it.runs, i); }
    }
    CheckpointData(CHECKPOINT_VERSION, sequence, RunList(runs, sortedIds),
                   SubflowList(subflows, it.subflows), TaskIdList(inFlight, it.tasks))
  }

  // -------------------------------------------------------------- restoring

  function RebuildRuns(list: seq<RunState>): map<RunId, RunState> {
    if list == [] then map[]
    else var last := list[|list| - 1]; RebuildRuns(list[..|list| - 1])[last.run := last]
  }

  function RebuildSubflows(list: seq<SubflowMapping>): map<SubflowKey, RunId> {
    if list == [] then map[]
    else
      var last := list[|list| - 1];
      RebuildSubflows(list[..|list| - 1])[SubflowKey(last.parent, last.item, last.step, last.key) := last.subflowRun]
  }

  function RebuildTaskIds(list: seq<InFlightTaskId>): map<TaskKey, string> {
    if list == [] then map[]
    else
      var last := list[|list| - 1];
      RebuildTaskIds(list[..|list| - 1])[TaskKey(last.run, last.item, last.step) := last.taskId]
  }

  function RestoreFromCheckpoint(tree: Tree, stored: Stored, journal: seq<Entry<Event>>):
      Result<Recovered, RecoveryError>
  {
    match Deserialize(stored.bytes)
    case Err(e) => Err(e)
    case Ok(data) =>
      var runs := RebuildRuns(data.runs);
      if tree.root !in runs then Err(RootMissing)
      else
        var base := Recovered(runs, RebuildSubflows(data.subflows), {}, None, RebuildTaskIds(data.inFlight));
        Ok(Replay(tree, base, StreamFrom(journal, stored.sequence + 1)))
  }

  // ------------------------------------------------- capture loses nothing

  ghost predicate RunsKeyed(runs: map<RunId, RunState>) {
    forall r | r in runs :: runs[r].run == r
  }

  lemma {:induction false} RebuildRunsFromList(runs: map<RunId, RunState>, ids: seq<RunId>)
    requires RunsKeyed(runs) && forall i | 0 <= i < |ids| :: ids[i] in runs
    ensures RebuildRuns(RunList(runs, ids)) == map r | r in ids :: runs[r]
    decreases |ids|
  {
    if ids != [] {
      var list := RunList(runs, ids);
      var front := ids[..|ids| - 1];
      RebuildRunsFromList(runs, front);
      assert list[..|list| - 1] == RunList(runs, front);
      assert ids == front + [ids[|ids| - 1]];
    }
  }

  lemma {:induction false} RebuildSubflowsFromList(subflows: map<SubflowKey, RunId>, keys: seq<SubflowKey>)
    requires forall i | 0 <= i < |keys| :: keys[i] in subflows
    ensures RebuildSubflows(SubflowList(subflows, keys)) == map k | k in keys :: subflows[k]
    decreases |keys|
  {
    if keys != [] {
      var list := SubflowList(subflows, keys);
      var front := keys[..|keys| - 1];
      RebuildSubflowsFromList(subflows, front);
      assert list[..|list| - 1] == SubflowList(subflows, front);
      assert keys == front + [keys[|keys| - 1]];
    }
  }

  lemma {:induction false} RebuildTaskIdsFromList(inFlight: map<TaskKey, string>, keys: seq<TaskKey>)
    requires forall i | 0 <= i < |keys| :: keys[i] in inFlight
    ensures RebuildTaskIds(TaskIdList(inFlight, keys)) == map k | k in keys :: inFlight[k]
    decreases |keys|
  {
    if keys != [] {
      var list := TaskIdList(inFlight, keys);
      var front := keys[..|keys| - 1];
      RebuildTaskIdsFromList(inFlight, front);
      assert list[..|list| - 1] == TaskIdList(inFlight, front);
      assert keys == front + [keys[|keys| - 1]];
    }
  }

  lemma SortedIdsEnumerate(runs: map<RunId, RunState>, order: seq<RunId>)
    requires Enumerates(order, runs.Keys)
    ensures Enumerates(Sort(NatLe, order), runs.Keys)
  {
    SortPermutes(NatLe, order);
    PermutationKeepsDistinct(order, Sort(NatLe, order));
    forall i | 0 <= i < |Sort(NatLe, order)| ensures Sort(NatLe, order)[i] in runs { SortedIdsAreKeys(order, i); }
    forall r | r in runs ensures r in Sort(NatLe, order) {
      assert r in multiset(order);
    }
  }

  /** Whatever order the hash maps are iterated in, the emitted lists rebuild
    the captured maps exactly. */
  lemma CaptureIsLossless(runs: map<RunId, RunState>, subflows: map<SubflowKey, RunId>, inFlight: map<TaskKey, string>,
                          sequence: nat, it: Iteration)
    requires RunsKeyed(runs) && Iterates(it, runs, subflows, inFlight)
    ensures var data := Capture(runs, subflows, inFlight, sequence, it);
      && RebuildRuns(data.runs) == runs
      && RebuildSubflows(data.subflows) == subflows
      && RebuildTaskIds(data.inFlight) == inFlight
      && Deserialize(Serialize(data)) == Ok(data)
  {
    SortedIdsEnumerate(runs, it.runs);
    RebuildRunsFromList(runs, Sort(NatLe, it.runs));
    assert (map r | r in Sort(NatLe, it.runs) :: runs[r]) == runs;
    RebuildSubflowsFromList(subflows, it.subflows);
    assert (map k | k in it.subflows :: subflows[k]) == subflows;
    RebuildTaskIdsFromList(inFlight, it.tasks);
    assert (map k | k in it.tasks :: inFlight[k]) == inFlight;
  }

  /** What is stored: the version, the sequence, every run's state, and one record
    for each subflow key and each in-flight task, with its own parts. */
  lemma CaptureLists(runs: map<RunId, RunState>, subflows: map<SubflowKey, RunId>, inFlight: map<TaskKey, string>,
                     sequence: nat, it: Iteration)
    requires Iterates(it, runs, subflows, inFlight)
    ensures var data := Capture(runs, subflows, inFlight, sequence, it);
      && data.version == 1 && data.sequence == sequence
      && |data.runs| == |runs| && (forall r | r in runs :: runs[r] in data.runs)
      && |data.subflows| == |subflows|
      && (forall k | k in subflows :: SubflowMapping(k.parent, k.item, k.step, k.key, subflows[k]) in data.subflows)
      && |data.inFlight| == |inFlight|
      && (forall t | t in inFlight :: InFlightTaskId(t.run, t.item, t.step, inFlight[t]) in data.inFlight)
  {
    var data := Capture(runs, subflows, inFlight, sequence, it);
    SortedIdsEnumerate(runs, it.runs);
    EnumerationSize(Sort(NatLe, it.runs), runs.Keys);
    EnumerationSize(it.subflows, subflows.Keys);
    EnumerationSize(it.tasks, inFlight.Keys);
    forall r | r in runs ensures runs[r] in data.runs {
      var i :| 0 <= i < |Sort(NatLe, it.runs)| && Sort(NatLe, it.runs)[i] == r;
      assert data.runs[i] == runs[r];
    }
    forall k | k in subflows
      ensures SubflowMapping(k.parent, k.item, k.step, k.key, subflows[k]) in data.subflows
    {
      var i :| 0 <= i < |it.subflows| && it.subflows[i] == k;
      assert data.subflows[i].key == k.key;
    }
    forall t | t in inFlight ensures InFlightTaskId(t.run, t.item, t.step, inFlight[t]) in data.inFlight {
      var i :| 0 <= i < |it.tasks| && it.tasks[i] == t;
      assert data.inFlight[i].taskId == inFlight[t];
    }
  }

  /** The run list does not depend on the iteration order and is strictly
    sorted by run id. */
  lemma CapturedRunsAreCanonical(runs: map<RunId, RunState>, subflows: map<SubflowKey, RunId>,
                                 inFlight: map<TaskKey, string>, sequence: nat, it: Iteration, it': Iteration)
    requires RunsKeyed(runs) && Iterates(it, runs, subflows, inFlight) && Iterates(it', runs, subflows, inFlight)
    ensures Capture(runs, subflows, inFlight, sequence, it).runs
      == Capture(runs, subflows, inFlight, sequence, it').runs
    ensures var list := Capture(runs, subflows, inFlight, sequence, it).runs;
      forall i, j | 0 <= i < j < |list| :: list[i].run < list[j].run
  {
    NatLeIsTotalPreorder();
    EnumerationsArePermutations(it.runs, it'.runs, runs.Keys);
    SortIgnoresOrder(NatLe, it.runs, it'.runs);
    SortSorts(NatLe, it.runs);
    SortedIdsEnumerate(runs, it.runs);
  }
}
