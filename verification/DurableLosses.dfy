/** Two runs after which the checkpoint path knows less than the journal: a
  subflow key in the first process life, and task ids after a crash. */
module DurableLosses {
  import opened Basics
  import opened Checkpoint
  import opened CheckpointReplay
  import opened Checkpointing
  import opened DurableRun
  import opened Journals
  import opened Ordering
  import opened Records
  import ItemStates

  /** An executor that has recovered no subflows, in a world without checkpoint
    that writes one after every entry. */
  ghost predicate At(w: World, runs: set<RunId>, inFlight: map<TaskKey, string>, announcing: set<ItemKey>,
                     opening: set<RunId>)
  {
    && w.executor.Some? && w.journal != [] && w.interval == 1 && w.snapshot == None
    && var x := w.executor.value;
       && x.runs.Keys == runs && x.recoveredSubflows == map[] && x.inFlight == inFlight
       && x.announcing == announcing && x.opening == opening
       && !x.finished && x.progress.interval == 1
       && (x.progress.since > 0 ==> x.progress.latest.Some?)
  }

  /** The next journal write, with the next sequence number. */
  function Next(w: World, event: Event): Step
    requires w.journal != []
  {
    Write(w.journal[|w.journal| - 1].sequence + 1, event)
  }

  ghost predicate Wrote(w: World, event: Event, w': World) {
    && w.journal != [] && Enabled(w, Next(w, event)) && w' == Apply(w, Next(w, event))
    && w'.executor.Some? && w'.executor.value.progress.since > 0
  }

  lemma {:induction false} NeededWritten(w: World, runs: set<RunId>, inFlight: map<TaskKey, string>,
                                         announcing: set<ItemKey>, opening: set<RunId>, run: RunId, item: nat,
                                         steps: seq<nat>)
      returns (w': World)
    requires At(w, runs, inFlight, announcing, opening) && Writable(w, StepsNeeded(run, item, steps))
    ensures Wrote(w, StepsNeeded(run, item, steps), w')
    ensures At(w', runs, inFlight, announcing - {ItemKey(run, item)}, opening - {run})
  {
    w' := Apply(w, Next(w, StepsNeeded(run, item, steps)));
  }

  lemma {:induction false} StartsWritten(w: World, runs: set<RunId>, inFlight: map<TaskKey, string>,
                                         tasks: seq<StartedTask>)
      returns (w': World)
    requires At(w, runs, inFlight, {}, {}) && forall t | t in tasks :: t.taskId != ""
    ensures Wrote(w, TasksStarted(tasks), w') && At(w', runs, InsertTaskIds(inFlight, tasks), {}, {})
  {
    w' := Apply(w, Next(w, TasksStarted(tasks)));
    assert w'.executor.value.runs.Keys == runs;
  }

  lemma {:induction false} StartWritten(w: World, runs: set<RunId>, inFlight: map<TaskKey, string>, t: StartedTask)
      returns (w': World)
    requires At(w, runs, inFlight, {}, {}) && t.taskId != ""
    ensures Wrote(w, TasksStarted([t]), w') && At(w', runs, inFlight[t.task := t.taskId], {}, {})
  {
    w' := StartsWritten(w, runs, inFlight, [t]);
    assert [t][1..] == [] && InsertTaskIds(inFlight[t.task := t.taskId], [t][1..]) == inFlight[t.task := t.taskId];
  }

  lemma {:induction false} CompletionWritten(w: World, runs: set<RunId>, inFlight: map<TaskKey, string>, t: TaskKey,
                                             result: ItemStates.Outcome)
      returns (w': World)
    requires At(w, runs, inFlight, {}, {}) && t in inFlight
    ensures Wrote(w, TaskCompleted(t, result), w') && At(w', runs, inFlight - {t}, {}, {})
  {
    w' := Apply(w, Next(w, TaskCompleted(t, result)));
    assert w'.executor.value.runs.Keys == runs;
  }

  lemma {:induction false} CheckpointWritten(w: World, runs: set<RunId>, inFlight: map<TaskKey, string>,
                                             it: Iteration)
      returns (w': World)
    requires At(w, runs, inFlight, {}, {}) && w.executor.value.progress.since > 0
    requires Enumerates(it.runs, runs) && it.subflows == [] && Enumerates(it.tasks, inFlight.Keys)
    requires RunsKeyed(w.executor.value.runs)
    ensures Enabled(w, AttemptCheckpoint(it, true)) && w' == Apply(w, AttemptCheckpoint(it, true))
    ensures w'.tree == w.tree && w'.journal == w.journal && w'.executor.Some? && w'.executor.value.runs.Keys == runs
    ensures w'.snapshot.Some? && w'.snapshot.value.life == w.life && w'.snapshot.value.length == |w.journal|
    ensures w'.snapshot.value.stored.bytes.Encoded?
    ensures Base(w'.snapshot.value.stored.bytes.data).taskIds == inFlight
  {
    var x := w.executor.value;
    assert Iterates(it, x.runs, x.recoveredSubflows, x.inFlight);
    CaptureDecodes(x, x.progress.latest.value, it);
    w' := Apply(w, AttemptCheckpoint(it, true));
  }

  // --------------------------------------------------------- runs of writes

  ghost predicate WritesAll(w: World, events: seq<Event>, steps: seq<Step>, w': World)
    requires w.journal != []
  {
    && IsRun(w, steps, w') && |steps| == |events| && w'.tree == w.tree && w'.payload == w.payload
    && |w'.journal| == |w.journal| + |events| && w.journal <= w'.journal
    && (forall i | 0 <= i < |events| ::
          steps[i].Write? && w'.journal[|w.journal| + i].event == events[i] == steps[i].event)
  }

  lemma {:induction false} OneMoreWrite(w: World, events: seq<Event>, steps: seq<Step>, w1: World, event: Event,
                                        w2: World)
      returns (steps': seq<Step>)
    requires w.journal != [] && WritesAll(w, events, steps, w1) && Wrote(w1, event, w2)
    ensures WritesAll(w, events + [event], steps', w2)
  {
    var step := Next(w1, event);
    ChainIsRun([w1, w2], [step]);
    RunsCompose(w, steps, w1, [step], w2);
    steps' := steps + [step];
  }

  /** A new run has one item, which needs the given steps. */
  ghost predicate NeedsSteps(flow: Flow, payload: nat, steps: seq<nat>) {
    && |flow.create(payload)| == 1
    && var live := flow.initialize(payload, 0, flow.create(payload)[0]);
       live.needed != {} && NeededSteps(live) == steps
  }

  lemma OneToAnnounce(flow: Flow, run: RunId, payload: nat, steps: seq<nat>, memory: map<RunId, RunState>)
    requires NeedsSteps(flow, payload, steps)
    requires run in memory && memory[run] == Initialized(flow, NewRun(flow, run, payload))
    ensures NeededIn(memory, {run}) == {ItemKey(run, 0)} && NeededSteps(memory[run].items[0]) == steps
  {
    var keys := NeededIn(memory, {run});
    assert |memory[run].items| == 1;
    assert ItemKey(run, 0) in keys;
    forall k | k in keys ensures k == ItemKey(run, 0) {}
  }

  /** The start of every run with such a root: the executor announces its item. */
  lemma {:induction false} RootAnnounced(w: World, needed: seq<nat>) returns (steps: seq<Step>, w': World)
    requires Init(w) && w.interval == 1 && NeedsSteps(w.tree.flow, w.payload, needed)
    ensures w.journal != [] && WritesAll(w, [StepsNeeded(w.tree.root, 0, needed)], steps, w')
    ensures At(w', {w.tree.root}, map[], {}, {}) && w'.life == 0
  {
    var root, runs := w.tree.root, InitializedAll(w.tree.flow, Created(w.tree, w.payload).runs);
    OneToAnnounce(w.tree.flow, root, w.payload, needed, runs);
    assert At(w, {root}, map[], {ItemKey(root, 0)}, {});
    assert WritesAll(w, [], [], w);
    w' := NeededWritten(w, {root}, map[], {ItemKey(root, 0)}, {}, root, 0, needed);
    steps := OneMoreWrite(w, [], [], w, StepsNeeded(root, 0, needed), w');
    assert [] + [StepsNeeded(root, 0, needed)] == [StepsNeeded(root, 0, needed)];
    assert {ItemKey(root, 0)} - {ItemKey(root, 0)} == {} && {} - {root} == {};
  }

  // -------------------------------------------------------------- a subflow

  /** A submission: which step of the root makes it, what the root and the
    sub-run need, and which step of the sub-run ends first. */
  datatype Submission = Submission(key: SubflowKey, run: RunId, payload: nat, rootSteps: seq<nat>, subSteps: seq<nat>,
                                   first: nat)

  /** The sub-run needs more than the step that ends first, so it goes on. */
  ghost predicate Plausible(w: World, s: Submission) {
    && NeedsSteps(w.tree.flow, w.payload, s.rootSteps) && NeedsSteps(w.tree.flow, s.payload, s.subSteps)
    && s.run != w.tree.root && s.key.parent == w.tree.root && s.key.item == 0
    && s.key.step in s.rootSteps && s.first in s.subSteps && |s.subSteps| > 1
  }

  function Parent(root: RunId, s: Submission): TaskKey {
    TaskKey(root, 0, s.key.step)
  }

  /** A step starts a subflow and one of the subflow's tasks ends. */
  function SubflowEvents(root: RunId, s: Submission, result: ItemStates.Outcome): seq<Event> {
    [StepsNeeded(root, 0, s.rootSteps),
     TasksStarted([StartedTask(Parent(root, s), 1, "parent")]),
     SubRunCreated(s.run, s.payload, s.key),
     StepsNeeded(s.run, 0, s.subSteps),
     TasksStarted([StartedTask(TaskKey(s.run, 0, s.first), 1, "sub")]),
     TaskCompleted(TaskKey(s.run, 0, s.first), result)]
  }

  lemma {:induction false} ParentStarts(w: World, s: Submission, result: ItemStates.Outcome)
      returns (steps: seq<Step>, w': World)
    requires Init(w) && w.interval == 1 && Plausible(w, s)
    ensures w.journal != [] && WritesAll(w, SubflowEvents(w.tree.root, s, result)[..2], steps, w')
    ensures At(w', {w.tree.root}, map[Parent(w.tree.root, s) := "parent"], {}, {}) && w'.life == 0
  {
    var root, events := w.tree.root, SubflowEvents(w.tree.root, s, result);
    var w1;
    steps, w1 := RootAnnounced(w, s.rootSteps);
    w' := StartWritten(w1, {root}, map[], StartedTask(Parent(root, s), 1, "parent"));
    steps := OneMoreWrite(w, [events[0]], steps, w1, events[1], w');
    assert [events[0]] + [events[1]] == events[..2];
    assert map[][Parent(root, s) := "parent"] == map[Parent(root, s) := "parent"];
  }

  lemma {:induction false} SubRunWritten(w: World, root: RunId, inFlight: map<TaskKey, string>, s: Submission)
      returns (w': World)
    requires At(w, {root}, inFlight, {}, {}) && s.run != root && root == w.tree.root
    requires NeedsSteps(w.tree.flow, s.payload, s.subSteps)
    ensures Wrote(w, SubRunCreated(s.run, s.payload, s.key), w')
    ensures At(w', {root, s.run}, inFlight, {ItemKey(s.run, 0)}, {s.run})
    ensures Writable(w', StepsNeeded(s.run, 0, s.subSteps))
  {
    w' := Apply(w, Next(w, SubRunCreated(s.run, s.payload, s.key)));
    OneToAnnounce(w.tree.flow, s.run, s.payload, s.subSteps, w'.executor.value.runs);
    assert w'.executor.value.runs.Keys == {root, s.run};
    assert {} + {ItemKey(s.run, 0)} == {ItemKey(s.run, 0)} && {} + {s.run} == {s.run};
  }

  lemma {:induction false} SubflowOpens(w: World, steps: seq<Step>, w2: World, s: Submission,
                                        result: ItemStates.Outcome)
      returns (steps': seq<Step>, w': World)
    requires w.journal != [] && WritesAll(w, SubflowEvents(w.tree.root, s, result)[..2], steps, w2) && Plausible(w, s)
    requires At(w2, {w.tree.root}, map[Parent(w.tree.root, s) := "parent"], {}, {}) && w2.life == 0
    ensures WritesAll(w, SubflowEvents(w.tree.root, s, result)[..4], steps', w')
    ensures At(w', {w.tree.root, s.run}, map[Parent(w.tree.root, s) := "parent"], {}, {}) && w'.life == 0
  {
    var root, events := w.tree.root, SubflowEvents(w.tree.root, s, result);
    var parent := map[Parent(root, s) := "parent"];
    var w3 := SubRunWritten(w2, root, parent, s);
    steps' := OneMoreWrite(w, events[..2], steps, w2, events[2], w3);
    w' := NeededWritten(w3, {root, s.run}, parent, {ItemKey(s.run, 0)}, {s.run}, s.run, 0, s.subSteps);
    steps' := OneMoreWrite(w, events[..2] + [events[2]], steps', w3, events[3], w');
    assert events[..2] + [events[2]] + [events[3]] == events[..4];
    assert {ItemKey(s.run, 0)} - {ItemKey(s.run, 0)} == {} && {s.run} - {s.run} == {};
  }

  lemma {:induction false} SubtaskEnds(w: World, steps: seq<Step>, w4: World, s: Submission,
                                       result: ItemStates.Outcome)
      returns (steps': seq<Step>, w': World)
    requires w.journal != [] && WritesAll(w, SubflowEvents(w.tree.root, s, result)[..4], steps, w4) && Plausible(w, s)
    requires At(w4, {w.tree.root, s.run}, map[Parent(w.tree.root, s) := "parent"], {}, {}) && w4.life == 0
    ensures WritesAll(w, SubflowEvents(w.tree.root, s, result), steps', w')
    ensures At(w', {w.tree.root, s.run}, map[Parent(w.tree.root, s) := "parent"], {}, {}) && w'.life == 0
    ensures w'.executor.value.progress.since > 0
  {
    var root, events := w.tree.root, SubflowEvents(w.tree.root, s, result);
    var parent, sub := map[Parent(root, s) := "parent"], TaskKey(s.run, 0, s.first);
    var w5 := StartWritten(w4, {root, s.run}, parent, StartedTask(sub, 1, "sub"));
    steps' := OneMoreWrite(w, events[..4], steps, w4, events[4], w5);
    w' := CompletionWritten(w5, {root, s.run}, parent[sub := "sub"], sub, result);
    steps' := OneMoreWrite(w, events[..4] + [events[4]], steps', w5, events[5], w');
    assert events[..4] + [events[4]] + [events[5]] == events;
    assert parent[sub := "sub"] - {sub} == parent;
  }

  lemma {:induction false} RunToSubtaskEnd(w: World, s: Submission, result: ItemStates.Outcome)
      returns (steps: seq<Step>, w': World)
    requires Init(w) && w.interval == 1 && Plausible(w, s)
    ensures w.journal != [] && WritesAll(w, SubflowEvents(w.tree.root, s, result), steps, w')
    ensures At(w', {w.tree.root, s.run}, map[Parent(w.tree.root, s) := "parent"], {}, {}) && w'.life == 0
    ensures w'.executor.value.progress.since > 0
  {
    var w2, w4;
    steps, w2 := ParentStarts(w, s, result);
    steps, w4 := SubflowOpens(w, steps, w2, s, result);
    steps, w' := SubtaskEnds(w, steps, w4, s, result);
  }

  /** The loss happens, for every flow with a step that submits one: the step
    starts the subflow, a task of the subflow ends, the checkpoint that follows
    is stored, and recovery no longer knows which sub-run the subflow has. */
  lemma {:induction false} CheckpointForgetsSubflow(w: World, s: Submission, result: ItemStates.Outcome)
      returns (writes: seq<Step>, it: Iteration, w': World)
    requires Init(w) && w.interval == 1 && Plausible(w, s)
    ensures |writes| == 6
    ensures forall i | 0 <= i < 6 ::
      writes[i].Write? && writes[i].event == SubflowEvents(w.tree.root, s, result)[i]
    ensures IsRun(w, writes + [AttemptCheckpoint(it, true)], w') && w'.snapshot.Some? && w'.snapshot.value.life == 0
    ensures Restore(w').Ok? && s.run in Restore(w').value.runs && s.key !in Restore(w').value.subflows
    ensures RestoreFromJournal(w'.tree, w'.journal).Ok?
    ensures s.key in RestoreFromJournal(w'.tree, w'.journal).value.subflows
  {
    var w6;
    writes, w6 := RunToSubtaskEnd(w, s, result);
    assert w6.journal[|w.journal| + 2].event == SubflowEvents(w.tree.root, s, result)[2];
    MemoryIsKeyed(w, writes, w6);
    it, w' := ParentInFlight(w6, s);
    RunsCompose(w, writes, w6, [AttemptCheckpoint(it, true)], w');
    ForgottenKey(w, writes + [AttemptCheckpoint(it, true)], w', s);
  }

  lemma {:induction false} ParentInFlight(w: World, s: Submission) returns (it: Iteration, w': World)
    requires s.run != w.tree.root && w.executor.Some? && w.executor.value.progress.since > 0
    requires At(w, {w.tree.root, s.run}, map[Parent(w.tree.root, s) := "parent"], {}, {})
    requires RunsKeyed(w.executor.value.runs)
    ensures IsRun(w, [AttemptCheckpoint(it, true)], w') && w'.tree == w.tree && w'.journal == w.journal
    ensures w'.snapshot.Some? && w'.snapshot.value.life == w.life && w'.snapshot.value.length == |w.journal|
    ensures w'.executor.Some? && s.run in w'.executor.value.runs
  {
    it := Iteration([w.tree.root, s.run], [], [Parent(w.tree.root, s)]);
    w' := CheckpointWritten(w, {w.tree.root, s.run}, map[Parent(w.tree.root, s) := "parent"], it);
    ChainIsRun([w, w'], [AttemptCheckpoint(it, true)]);
  }

  lemma {:induction false} MemoryIsKeyed(w: World, steps: seq<Step>, w': World)
    requires Init(w) && IsRun(w, steps, w') && w'.executor.Some?
    ensures RunsKeyed(w'.executor.value.runs)
  {
    InitIsFaithful(w);
    RunKeepsFaithful(w, steps, w');
    TruthIsWellFormed(w', |w'.journal|);
  }

  lemma {:induction false} ForgottenKey(w: World, steps: seq<Step>, w': World, s: Submission)
    requires Init(w) && IsRun(w, steps, w') && w'.snapshot.Some? && w'.snapshot.value.life == 0
    requires w'.executor.Some? && s.run in w'.executor.value.runs
    requires w'.snapshot.value.length == |w'.journal| > 3
    requires w'.journal[3].event == SubRunCreated(s.run, s.payload, s.key)
    ensures Restore(w').Ok? && s.key !in Restore(w').value.subflows && s.run in Restore(w').value.runs
    ensures RestoreFromJournal(w'.tree, w'.journal).Ok?
    ensures s.key in RestoreFromJournal(w'.tree, w'.journal).value.subflows
  {
    InitIsFaithful(w);
    RunKeepsFaithful(w, steps, w');
    RestoreIsFaithful(w');
    RestoreUnfolds(w');
    var n := |w'.journal|;
    assert w'.journal[n..] == [];
    assert w'.journal[..n] == w'.journal;
    TruthSubflowKeys(w', n, s.key);
    assert s.key in WrittenSubflows(w'.journal);
  }

  // --------------------------------------------------------------- task ids

  /** Tasks of the root's item, each once and with an id. */
  ghost predicate Dispatchable(w: World, needed: seq<nat>, started: seq<StartedTask>) {
    && NeedsSteps(w.tree.flow, w.payload, needed)
    && (forall t | t in started ::
          t.taskId != "" && t.task.run == w.tree.root && t.task.item == 0 && t.task.step in needed)
    && DistinctTasks(started)
  }

  ghost predicate DistinctTasks(started: seq<StartedTask>) {
    forall i, j | 0 <= i < j < |started| :: started[i].task != started[j].task
  }

  /** The same tasks on their next attempt, under their old ids. */
  function Again(started: seq<StartedTask>): (r: seq<StartedTask>)
    ensures |r| == |started|
    ensures forall i | 0 <= i < |r| :: r[i].task == started[i].task && r[i].taskId == started[i].taskId
  {
    seq(|started|, (i: nat) requires i < |started| => started[i].(attempt := started[i].attempt + 1))
  }

  predicate Apart(a: set<TaskKey>, b: set<TaskKey>) {
    forall t | t in a :: t !in b
  }

  /** The stored checkpoint has none of their ids. */
  ghost predicate Forgets(w: World, tasks: set<TaskKey>) {
    && w.snapshot.Some? && w.snapshot.value.stored.bytes.Encoded?
    && Apart(tasks, Base(w.snapshot.value.stored.bytes.data).taskIds.Keys)
  }

  ghost predicate Knows(w: World, tasks: set<TaskKey>) {
    w.journal != [] && tasks <= Truth(w, |w.journal|).taskIds.Keys
  }

  lemma {:induction false} InsertKeys(taskIds: map<TaskKey, string>, tasks: seq<StartedTask>)
    requires forall t | t in tasks :: t.taskId != ""
    ensures InsertTaskIds(taskIds, tasks).Keys == taskIds.Keys + TaskIdsOf(tasks)
    decreases |tasks|
  {
    if tasks == [] {
      assert TaskIdsOf(tasks) == {};
    } else {
      var next := taskIds[tasks[0].task := tasks[0].taskId];
      InsertKeys(next, tasks[1..]);
      assert TaskIdsOf(tasks) == {tasks[0].task} + TaskIdsOf(tasks[1..]) by {
        forall k | k in TaskIdsOf(tasks) ensures k in {tasks[0].task} + TaskIdsOf(tasks[1..]) {
          var i :| 0 <= i < |tasks| && tasks[i].task == k;
          if i > 0 { assert tasks[1..][i - 1].task == k; }
        }
        forall k | k in TaskIdsOf(tasks[1..]) ensures k in TaskIdsOf(tasks) {
          var i :| 0 <= i < |tasks[1..]| && tasks[1..][i].task == k;
          assert tasks[i + 1].task == k;
        }
      }
    }
  }

  /** What replay knows after one more entry. */
  lemma EntryKeepsKnown(w: World, w': World, event: Event, tasks: set<TaskKey>)
    requires w.journal != [] && w'.tree == w.tree && w'.payload == w.payload
    requires |w'.journal| == |w.journal| + 1 && w.journal <= w'.journal && w'.journal[|w.journal|].event == event
    requires Knows(w, tasks) || (event.TasksStarted? && tasks <= TaskIdsOf(event.tasks))
    requires event.TasksStarted? ==> forall t | t in event.tasks :: t.taskId != ""
    requires event.TaskCompleted? ==> event.task !in tasks
    ensures Knows(w', tasks)
  {
    var n := |w.journal|;
    TruthOfPrefix(w, w', n);
    TruthStep(w', n);
    if event.TasksStarted? {
      InsertKeys(Truth(w, n).taskIds, event.tasks);
    }
  }

  lemma {:induction false} AllDispatched(w: World, needed: seq<nat>, started: seq<StartedTask>)
      returns (steps: seq<Step>, w': World)
    requires Init(w) && w.interval == 1 && Dispatchable(w, needed, started)
    ensures w.journal != []
    ensures WritesAll(w, [StepsNeeded(w.tree.root, 0, needed), TasksStarted(started)], steps, w')
    ensures At(w', {w.tree.root}, InsertTaskIds(map[], started), {}, {}) && w'.life == 0 && w'.payload == w.payload
    ensures Knows(w', TaskIdsOf(started))
  {
    var w1;
    steps, w1 := RootAnnounced(w, needed);
    w' := StartsWritten(w1, {w.tree.root}, map[], started);
    steps := OneMoreWrite(w, [StepsNeeded(w.tree.root, 0, needed)], steps, w1, TasksStarted(started), w');
    assert [StepsNeeded(w.tree.root, 0, needed)] + [TasksStarted(started)]
      == [StepsNeeded(w.tree.root, 0, needed), TasksStarted(started)];
    EntryKeepsKnown(w1, w', TasksStarted(started), TaskIdsOf(started));
  }

  /** What replay makes of that: one run with one item and no subflow. */
  lemma TruthAfterDispatch(w: World, needed: seq<nat>, started: seq<StartedTask>)
    requires JournalValid(w) && |w.journal| == 3 && |w.tree.flow.create(w.payload)| == 1
    requires w.journal[1].event == StepsNeeded(w.tree.root, 0, needed) && w.journal[2].event == TasksStarted(started)
    ensures var t := Truth(w, 3);
      && t.runs.Keys == {w.tree.root} && |t.runs[w.tree.root].items| == 1
      && t.subflows == map[] && t.needing == {} && t.terminal == None
  {
    assert w.journal[1..1] == [];
    TruthStep(w, 1);
    TruthStep(w, 2);
    assert Truth(w, 2).runs.Keys == {w.tree.root} && |Truth(w, 2).runs[w.tree.root].items| == 1;
    assert Truth(w, 3).runs.Keys == {w.tree.root};
  }

  /** At most the root's only item is left to announce. */
  ghost predicate RootLeft(w: World)
    requires Working(w)
  {
    var root, x := w.tree.root, w.executor.value;
    x.announcing != {} ==>
      && x.announcing == {ItemKey(root, 0)} && root in x.runs && |x.runs[root].items| > 0
      && Writable(w, StepsNeeded(root, 0, NeededSteps(x.runs[root].items[0])))
  }

  lemma RestartLeavesRoot(w: World, rec: Recovered)
    requires w.executor == Some(Restarted(w.tree, rec, w.interval))
    requires rec.runs.Keys == {w.tree.root} && |rec.runs[w.tree.root].items| == 1
    ensures RootLeft(w)
  {
    var root, x := w.tree.root, w.executor.value;
    forall key | key in x.announcing ensures key == ItemKey(root, 0) {}
    assert x.announcing <= {ItemKey(root, 0)};
  }

  /** A crash and a recovery without a checkpoint. */
  lemma {:induction false} RecoveredFromJournal(w: World) returns (w': World)
    requires Faithful(w) && w.executor.Some? && w.snapshot == None && Truth(w, |w.journal|).terminal == None
    ensures IsRun(w, [Crash, Recover], w') && Faithful(w')
    ensures w' == w.(life := w.life + 1, executor := Some(Restarted(w.tree, Truth(w, |w.journal|), w.interval)))
  {
    var down := Apply(w, Crash);
    StepKeepsFaithful(w, Crash);
    TruthOfPrefix(w, down, |w.journal|);
    RestoreIsFaithful(down);
    w' := Apply(down, Recover);
    StepKeepsFaithful(down, Recover);
    ChainIsRun([w, down, w'], [Crash, Recover]);
  }

  /** What the new executor knows about such a tree. */
  lemma RestartedAt(w: World, rec: Recovered, w': World)
    requires w'.executor == Some(Restarted(w.tree, rec, w.interval)) && w'.tree == w.tree && w'.interval == w.interval
    requires w.interval == 1 && w'.snapshot == None && w'.journal != []
    requires rec.runs.Keys == {w.tree.root} && |rec.runs[w.tree.root].items| == 1
    requires rec.subflows == map[] && rec.needing == {}
    ensures At(w', {w.tree.root}, map[], w'.executor.value.announcing, {}) && RootLeft(w')
  {
    RestartLeavesRoot(w', rec);
  }

  lemma {:induction false} CrashAndRecover(w: World, needed: seq<nat>, started: seq<StartedTask>) returns (w': World)
    requires Faithful(w) && w.executor.Some? && w.life == 0 && w.interval == 1 && w.snapshot == None
    requires |w.journal| == 3 && |w.tree.flow.create(w.payload)| == 1
    requires w.journal[1].event == StepsNeeded(w.tree.root, 0, needed) && w.journal[2].event == TasksStarted(started)
    ensures IsRun(w, [Crash, Recover], w') && w'.executor.Some? && w'.life == 1
    ensures At(w', {w.tree.root}, map[], w'.executor.value.announcing, {})
    ensures w'.tree == w.tree && w'.journal == w.journal && w'.payload == w.payload && Faithful(w')
    ensures RootLeft(w')
  {
    TruthAfterDispatch(w, needed, started);
    w' := RecoveredFromJournal(w);
    RestartedAt(w, Truth(w, |w.journal|), w');
  }

  /** Whatever is left to announce is announced. */
  lemma {:induction false} RestAnnounced(w: World, tasks: set<TaskKey>) returns (steps: seq<Step>, w': World)
    requires w.executor.Some? && At(w, {w.tree.root}, map[], w.executor.value.announcing, {}) && Knows(w, tasks)
    requires RootLeft(w)
    ensures IsRun(w, steps, w') && At(w', {w.tree.root}, map[], {}, {}) && Knows(w', tasks) && w.journal <= w'.journal
    ensures w'.tree == w.tree && w'.payload == w.payload && w'.life == w.life
  {
    var root, announcing := w.tree.root, w.executor.value.announcing;
    if announcing == {} {
      steps, w' := [], w;
    } else {
      var event := StepsNeeded(root, 0, NeededSteps(w.executor.value.runs[root].items[0]));
      w' := NeededWritten(w, {root}, map[], announcing, {}, root, 0, event.steps);
      assert announcing - {ItemKey(root, 0)} == {} && {} - {root} == {};
      steps := [Next(w, event)];
      ChainIsRun([w, w'], steps);
      EntryKeepsKnown(w, w', event, tasks);
    }
  }

  /** The second life dispatches as many as it may, and the first of them ends. */
  lemma {:induction false} SomeDispatched(w: World, some: seq<StartedTask>, result: ItemStates.Outcome,
                                          tasks: set<TaskKey>)
      returns (steps: seq<Step>, w': World)
    requires At(w, {w.tree.root}, map[], {}, {}) && Knows(w, tasks)
    requires some != [] && (forall t | t in some :: t.taskId != "") && some[0].task !in tasks
    ensures w.journal != [] && WritesAll(w, [TasksStarted(some), TaskCompleted(some[0].task, result)], steps, w')
    ensures At(w', {w.tree.root}, InsertTaskIds(map[], some) - {some[0].task}, {}, {}) && w'.life == w.life
    ensures w'.executor.value.progress.since > 0 && Knows(w', tasks) && w'.payload == w.payload
  {
    var root, inFlight := w.tree.root, InsertTaskIds(map[], some);
    var first, last := TasksStarted(some), TaskCompleted(some[0].task, result);
    InsertKeys(map[], some);
    assert WritesAll(w, [], [], w);
    var w1 := StartsWritten(w, {root}, map[], some);
    steps := OneMoreWrite(w, [], [], w, first, w1);
    assert [] + [first] == [first];
    assert some[0].task in TaskIdsOf(some);
    w' := CompletionWritten(w1, {root}, inFlight, some[0].task, result);
    steps := OneMoreWrite(w, [first], steps, w1, last, w');
    assert [first] + [last] == [first, last];
    EntryKeepsKnown(w, w1, first, tasks);
    EntryKeepsKnown(w1, w', last, tasks);
  }

  function Tasks(started: seq<StartedTask>): (r: seq<TaskKey>)
    ensures |r| == |started| && forall i | 0 <= i < |r| :: r[i] == started[i].task
  {
    seq(|started|, (i: nat) requires i < |started| => started[i].task)
  }

  lemma RestEnumerates(some: seq<StartedTask>)
    requires some != [] && DistinctTasks(some) && forall t | t in some :: t.taskId != ""
    ensures Enumerates(Tasks(some[1..]), (InsertTaskIds(map[], some) - {some[0].task}).Keys)
  {
    var order, left := Tasks(some[1..]), (InsertTaskIds(map[], some) - {some[0].task}).Keys;
    InsertKeys(map[], some);
    assert left == TaskIdsOf(some) - {some[0].task};
    forall i | 0 <= i < |order| ensures order[i] in left { assert order[i] == some[i + 1].task; }
    forall k | k in left ensures k in order {
      var i :| 0 <= i < |some| && some[i].task == k;
      assert order[i - 1] == k;
    }
    forall i, j | 0 <= i < j < |order| ensures order[i] != order[j] {
      assert order[i] == some[i + 1].task && order[j] == some[j + 1].task;
    }
  }

  /** The checkpoint holds the ids of what was dispatched and is still running. */
  lemma {:induction false} CheckpointOfRest(w: World, some: seq<StartedTask>, tasks: set<TaskKey>)
      returns (it: Iteration, w': World)
    requires Faithful(w) && Knows(w, tasks) && w.executor.Some? && w.executor.value.progress.since > 0
    requires some != [] && DistinctTasks(some) && Apart(tasks, TaskIdsOf(some))
    requires forall t | t in some :: t.taskId != ""
    requires At(w, {w.tree.root}, InsertTaskIds(map[], some) - {some[0].task}, {}, {})
    ensures IsRun(w, [AttemptCheckpoint(it, true)], w') && w'.journal == w.journal && w'.tree == w.tree
    ensures w'.snapshot.Some? && w'.snapshot.value.length == |w'.journal| && w'.snapshot.value.life == w.life
    ensures Forgets(w', tasks) && Knows(w', tasks)
  {
    var root, left := w.tree.root, InsertTaskIds(map[], some) - {some[0].task};
    it := Iteration([root], [], Tasks(some[1..]));
    TruthIsWellFormed(w, |w.journal|);
    RestEnumerates(some);
    InsertKeys(map[], some);
    w' := CheckpointWritten(w, {root}, left, it);
    ChainIsRun([w, w'], [AttemptCheckpoint(it, true)]);
    TruthOfPrefix(w, w', |w.journal|);
  }

  lemma {:induction false} SomeAndCheckpoint(w: World, some: seq<StartedTask>, result: ItemStates.Outcome,
                                             tasks: set<TaskKey>)
      returns (steps: seq<Step>, w': World)
    requires Faithful(w) && At(w, {w.tree.root}, map[], {}, {}) && Knows(w, tasks)
    requires some != [] && DistinctTasks(some) && Apart(tasks, TaskIdsOf(some))
    requires forall t | t in some :: t.taskId != ""
    ensures IsRun(w, steps, w') && w.journal <= w'.journal && |w'.journal| == |w.journal| + 2
    ensures w'.journal[|w.journal|].event == TasksStarted(some)
    ensures w'.journal[|w.journal| + 1].event == TaskCompleted(some[0].task, result)
    ensures w'.snapshot.Some? && w'.snapshot.value.length == |w'.journal| && w'.snapshot.value.life == w.life
    ensures Forgets(w', tasks) && Knows(w', tasks)
  {
    var events := [TasksStarted(some), TaskCompleted(some[0].task, result)];
    assert some[0].task in TaskIdsOf(some);
    var writes, w2 := SomeDispatched(w, some, result, tasks);
    assert w2.journal[|w.journal| + 0].event == events[0] && w2.journal[|w.journal| + 1].event == events[1];
    RunKeepsFaithful(w, writes, w2);
    var it;
    it, w' := CheckpointOfRest(w2, some, tasks);
    RunsCompose(w, writes, w2, [AttemptCheckpoint(it, true)], w');
    steps := writes + [AttemptCheckpoint(it, true)];
  }

  lemma {:induction false} RecoveredAfterDispatch(w: World, needed: seq<nat>, started: seq<StartedTask>)
      returns (steps: seq<Step>, w': World)
    requires Init(w) && w.interval == 1 && Dispatchable(w, needed, started)
    ensures IsRun(w, steps, w') && At(w', {w.tree.root}, map[], {}, {}) && w'.life == 1 && Faithful(w')
    ensures Knows(w', TaskIdsOf(started)) && w'.tree == w.tree && w'.payload == w.payload
    ensures |w'.journal| >= 3 && w'.journal[2].event == TasksStarted(started)
  {
    var writes, w2 := AllDispatched(w, needed, started);
    var events := [StepsNeeded(w.tree.root, 0, needed), TasksStarted(started)];
    assert w2.journal[|w.journal| + 0].event == events[0] && w2.journal[|w.journal| + 1].event == events[1];
    InitIsFaithful(w);
    RunKeepsFaithful(w, writes, w2);
    var w3 := CrashAndRecover(w2, needed, started);
    TruthOfPrefix(w2, w3, |w2.journal|);
    RunsCompose(w, writes, w2, [Crash, Recover], w3);
    var announce;
    announce, w' := RestAnnounced(w3, TaskIdsOf(started));
    RunKeepsFaithful(w3, announce, w');
    RunsCompose(w, writes + [Crash, Recover], w3, announce, w');
    steps := writes + [Crash, Recover] + announce;
  }

  /** Task ids can be lost from the second life on.  More tasks are in flight at
    a crash than the new executor dispatches at once (`limit`, 10 in the code);
    when the first of those ends, the checkpoint forgets the ids of all tasks
    that were not dispatched again yet. */
  lemma {:induction false} CheckpointForgetsTaskId(w: World, needed: seq<nat>, started: seq<StartedTask>, limit: nat,
                                                   result: ItemStates.Outcome)
      returns (steps: seq<Step>, w': World)
    requires Init(w) && w.interval == 1 && Dispatchable(w, needed, started) && 1 <= limit < |started|
    ensures IsRun(w, steps, w') && w'.snapshot.Some? && w'.snapshot.value.life == 1
    ensures var n := |w'.journal|;
      && n > 4 && w'.journal[2].event == TasksStarted(started)
      && w'.journal[n - 2].event == TasksStarted(Again(started[..limit]))
      && w'.journal[n - 1].event == TaskCompleted(started[0].task, result)
    ensures Restore(w').Ok? && RestoreFromJournal(w'.tree, w'.journal).Ok?
    ensures forall k | limit <= k < |started| ::
      && started[k].task !in Restore(w').value.taskIds
      && started[k].task in RestoreFromJournal(w'.tree, w'.journal).value.taskIds
  {
    var some, left := Again(started[..limit]), Left(started, limit);
    var first, w1 := RecoveredAfterDispatch(w, needed, started);
    SomeAndLeft(started, limit);
    assert Knows(w1, left);
    var rest;
    rest, w' := SomeAndCheckpoint(w1, some, result, left);
    RunsCompose(w, first, w1, rest, w');
    steps := first + rest;
    assert w'.journal[2] == w1.journal[2];
    LostTaskIds(w, steps, w', left);
    forall k | limit <= k < |started| ensures started[k].task in left {}
  }

  /** The tasks beyond the first `limit`. */
  ghost function Left(started: seq<StartedTask>, limit: nat): set<TaskKey> {
    set k | limit <= k < |started| :: started[k].task
  }

  lemma SomeAndLeft(started: seq<StartedTask>, limit: nat)
    requires 1 <= limit < |started| && DistinctTasks(started) && forall t | t in started :: t.taskId != ""
    ensures var some := Again(started[..limit]);
      && some != [] && DistinctTasks(some) && (forall t | t in some :: t.taskId != "")
      && Left(started, limit) <= TaskIdsOf(started) && Apart(Left(started, limit), TaskIdsOf(some))
      && some[0].task == started[0].task
  {
    var some := Again(started[..limit]);
    forall t | t in some ensures t.taskId != "" {
      var i :| 0 <= i < |some| && some[i] == t;
      assert started[i] in started;
    }
    forall i, k | 0 <= i < |some| && limit <= k < |started| ensures some[i].task != started[k].task {}
  }

  lemma {:induction false} LostTaskIds(w: World, steps: seq<Step>, w': World, tasks: set<TaskKey>)
    requires Init(w) && IsRun(w, steps, w') && w'.snapshot.Some? && w'.snapshot.value.length == |w'.journal|
    requires Forgets(w', tasks) && Knows(w', tasks)
    ensures Restore(w').Ok? && Apart(tasks, Restore(w').value.taskIds.Keys)
    ensures RestoreFromJournal(w'.tree, w'.journal).Ok?
    ensures tasks <= RestoreFromJournal(w'.tree, w'.journal).value.taskIds.Keys
  {
    InitIsFaithful(w);
    RunKeepsFaithful(w, steps, w');
    RestoreIsFaithful(w');
    RestoreUnfolds(w');
    assert w'.journal[|w'.journal|..] == [];
  }
}
