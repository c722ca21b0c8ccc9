/** A checkpoint of the second process life that restores a run state the journal
  does not give: a flow with a conditional input, and a crash once the condition
  is known. */
module DriftWitness {
  import opened Basics
  import opened Checkpoint
  import opened CheckpointReplay
  import opened Checkpointing
  import opened DurableLosses
  import opened DurableRun
  import opened ItemFlows
  import opened Journals
  import opened Ordering
  import opened Records
  import IR = ItemReplays
  import IS = ItemStates

  // ------------------------------------------- a tree of one run of one item

  function Single(w: World, v: View): map<RunId, RunState> {
    map[w.tree.root := RunState(w.tree.root, w.payload, [v])]
  }

  /** Memory holds `v` where replaying the journal gives `u`. */
  ghost predicate One(w: World, v: View, u: View, inFlight: map<TaskKey, string>, announcing: set<ItemKey>) {
    && Faithful(w) && At(w, {w.tree.root}, inFlight, announcing, {})
    && w.executor.value.runs == Single(w, v)
    && var truth := Truth(w, |w.journal|);
       truth.runs == Single(w, u) && truth.subflows == map[] && truth.needing == {} && truth.terminal == None
  }

  lemma AppliedSingle(flow: Flow, run: RunId, payload: nat, v: View, event: Event)
    ensures AppliedRun(flow, RunState(run, payload, [v]), event)
         == RunState(run, payload, [AppliedItem(flow, payload, 0, v, ItemEvents(event, run, 0))])
  {
    var t := AppliedRun(flow, RunState(run, payload, [v]), event);
    assert |t.items| == 1 && t.items[0] == AppliedItem(flow, payload, 0, v, ItemEvents(event, run, 0));
  }

  lemma SingleAfter(w: World, v: View, event: Event)
    requires event.StepsNeeded? || event.TasksStarted? || event.TaskCompleted?
    ensures RunsAfter(w.tree, Single(w, v), event)
         == Single(w, AppliedItem(w.tree.flow, w.payload, 0, v, ItemEvents(event, w.tree.root, 0)))
  {
    AppliedSingle(w.tree.flow, w.tree.root, w.payload, v, event);
  }

  predicate IsItemEvent(event: Event) {
    event.StepsNeeded? || event.TasksStarted? || event.TaskCompleted?
  }

  /** The entry moves what replay gives. */
  lemma WriteMovesTruth(w: World, u: View, event: Event, w': World)
    requires JournalValid(w) && JournalValid(w') && Wrote(w, event, w') && IsItemEvent(event)
    requires var truth := Truth(w, |w.journal|);
      truth.runs == Single(w, u) && truth.subflows == map[] && truth.needing == {} && truth.terminal == None
    ensures var truth := Truth(w', |w'.journal|);
      && truth.runs == Single(w', AppliedItem(w.tree.flow, w.payload, 0, u, ItemEvents(event, w.tree.root, 0)))
      && truth.subflows == map[] && truth.needing == {} && truth.terminal == None
  {
    SingleAfter(w, u, event);
    TruthOfPrefix(w, w', |w.journal|);
    TruthStep(w', |w.journal|);
  }

  /** Memory moves as well, unless the entry is an announcement. */
  lemma WriteMovesMemory(w: World, v: View, event: Event, w': World)
    requires w.executor.Some? && w.executor.value.runs == Single(w, v) && Wrote(w, event, w') && IsItemEvent(event)
    ensures var v' := if event.StepsNeeded? then v
                      else AppliedItem(w.tree.flow, w.payload, 0, v, ItemEvents(event, w.tree.root, 0));
      w'.executor.value.runs == Single(w', v')
  {
    SingleAfter(w, v, event);
  }

  lemma WriteMovesOne(w: World, v: View, u: View, inFlight: map<TaskKey, string>, announcing: set<ItemKey>,
                      event: Event, w': World)
    requires One(w, v, u, inFlight, announcing) && Wrote(w, event, w') && IsItemEvent(event)
    ensures var events := ItemEvents(event, w.tree.root, 0);
      var v' := if event.StepsNeeded? then v else AppliedItem(w.tree.flow, w.payload, 0, v, events);
      && Faithful(w') && w'.executor.Some? && w'.executor.value.runs == Single(w', v')
      && var truth := Truth(w', |w'.journal|);
         && truth.runs == Single(w', AppliedItem(w.tree.flow, w.payload, 0, u, events))
         && truth.subflows == map[] && truth.needing == {} && truth.terminal == None
  {
    WriteKeepsFaithful(w, Next(w, event).sequence, event);
    WriteMovesMemory(w, v, event, w');
    WriteMovesTruth(w, u, event, w');
  }

  lemma OneEvent(flow: Flow, payload: nat, v: View, e: ItemEvent)
    ensures AppliedItem(flow, payload, 0, v, [e]) == flow.apply(payload, 0, v, e)
  {
    assert [e][..0] == [];
    assert AppliedItem(flow, payload, 0, v, []) == v;
  }

  lemma {:induction false} OneAnnounced(w: World, v: View, u: View) returns (step: Step, w': World)
    requires One(w, v, u, map[], {ItemKey(w.tree.root, 0)})
    ensures IsRun(w, [step], w') && w'.tree == w.tree && w'.payload == w.payload && w'.life == w.life
    ensures One(w', v, w.tree.flow.apply(w.payload, 0, u, IR.StepsNeeded(NeededSteps(v))), map[], {})
  {
    var root := w.tree.root;
    var event := StepsNeeded(root, 0, NeededSteps(v));
    w' := NeededWritten(w, {root}, map[], {ItemKey(root, 0)}, {}, root, 0, event.steps);
    step := Next(w, event);
    ChainIsRun([w, w'], [step]);
    WriteMovesOne(w, v, u, map[], {ItemKey(root, 0)}, event, w');
    OneEvent(w.tree.flow, w.payload, u, IR.StepsNeeded(NeededSteps(v)));
    assert {ItemKey(root, 0)} - {ItemKey(root, 0)} == {} && {} - {root} == {};
  }

  ghost function StartedView(w: World, v: View, tasks: seq<StartedTask>): View {
    AppliedItem(w.tree.flow, w.payload, 0, v, Starts(tasks, w.tree.root, 0))
  }

  lemma {:induction false} OneStarted(w: World, v: View, u: View, tasks: seq<StartedTask>)
      returns (step: Step, w': World)
    requires One(w, v, u, map[], {}) && forall t | t in tasks :: t.taskId != ""
    ensures IsRun(w, [step], w') && w'.tree == w.tree && w'.payload == w.payload && w'.life == w.life
    ensures One(w', StartedView(w, v, tasks), StartedView(w, u, tasks), InsertTaskIds(map[], tasks), {})
  {
    w' := StartsWritten(w, {w.tree.root}, map[], tasks);
    step := Next(w, TasksStarted(tasks));
    ChainIsRun([w, w'], [step]);
    WriteMovesOne(w, v, u, map[], {}, TasksStarted(tasks), w');
  }

  ghost function CompletedView(w: World, v: View, step: nat, result: IS.Outcome): View {
    w.tree.flow.apply(w.payload, 0, v, IR.TaskCompleted(step, result))
  }

  lemma {:induction false} OneCompleted(w: World, v: View, u: View, inFlight: map<TaskKey, string>, s: nat,
                                        result: IS.Outcome)
      returns (step: Step, w': World)
    requires One(w, v, u, inFlight, {}) && TaskKey(w.tree.root, 0, s) in inFlight
    ensures IsRun(w, [step], w') && w'.tree == w.tree && w'.payload == w.payload && w'.life == w.life
    ensures One(w', CompletedView(w, v, s, result), CompletedView(w, u, s, result),
                inFlight - {TaskKey(w.tree.root, 0, s)}, {})
    ensures w'.executor.value.progress.since > 0
  {
    var t := TaskKey(w.tree.root, 0, s);
    w' := CompletionWritten(w, {w.tree.root}, inFlight, t, result);
    step := Next(w, TaskCompleted(t, result));
    ChainIsRun([w, w'], [step]);
    WriteMovesOne(w, v, u, inFlight, {}, TaskCompleted(t, result), w');
    OneEvent(w.tree.flow, w.payload, v, IR.TaskCompleted(s, result));
    OneEvent(w.tree.flow, w.payload, u, IR.TaskCompleted(s, result));
  }

  /** Tasks are dispatched, and one of them ends. */
  lemma {:induction false} OneWorked(w: World, v: View, u: View, tasks: seq<StartedTask>, s: nat, result: IS.Outcome)
      returns (steps: seq<Step>, w': World)
    requires One(w, v, u, map[], {}) && forall t | t in tasks :: t.taskId != ""
    requires TaskKey(w.tree.root, 0, s) in InsertTaskIds(map[], tasks)
    ensures IsRun(w, steps, w') && w'.tree == w.tree && w'.payload == w.payload && w'.life == w.life
    ensures One(w', CompletedView(w, StartedView(w, v, tasks), s, result),
                CompletedView(w, StartedView(w, u, tasks), s, result),
                InsertTaskIds(map[], tasks) - {TaskKey(w.tree.root, 0, s)}, {})
    ensures w'.executor.value.progress.since > 0
  {
    var first, w1 := OneStarted(w, v, u, tasks);
    var second;
    second, w' := OneCompleted(w1, StartedView(w, v, tasks), StartedView(w, u, tasks), InsertTaskIds(map[], tasks), s,
                               result);
    RunsCompose(w, [first], w1, [second], w');
    steps := [first] + [second];
  }

  /** The start of a tree of one run of one item. */
  lemma {:induction false} OneBegins(w: World, created: View) returns (step: Step, w': World)
    requires Init(w) && w.interval == 1 && w.tree.flow.create(w.payload) == [created]
    requires w.tree.flow.initialize(w.payload, 0, created).needed != {}
    ensures IsRun(w, [step], w') && w'.tree == w.tree && w'.payload == w.payload && w'.life == 0
    ensures var live := w.tree.flow.initialize(w.payload, 0, created); One(w', live, live, map[], {})
  {
    var root, live := w.tree.root, w.tree.flow.initialize(w.payload, 0, created);
    InitIsFaithful(w);
    assert Created(w.tree, w.payload).runs == Single(w, created);
    SingleInitialized(w, created);
    SingleNeeded(w, live, {root});
    assert w.journal[1..1] == [];
    assert One(w, live, created, map[], {ItemKey(root, 0)});
    step, w' := OneAnnounced(w, live, created);
    FirstLifeSynced(w', live, w.tree.flow.apply(w.payload, 0, created, IR.StepsNeeded(NeededSteps(live))));
  }

  lemma FirstLifeSynced(w: World, v: View, u: View)
    requires One(w, v, u, map[], {}) && w.life == 0
    ensures v == u
  {
    SettledSyncIff(w.tree.flow, w.executor.value.runs, Truth(w, |w.journal|).runs);
    assert Single(w, v)[w.tree.root].items[0] == v && Single(w, u)[w.tree.root].items[0] == u;
  }

  lemma SingleInitialized(w: World, u: View)
    ensures InitializedAll(w.tree.flow, Single(w, u)) == Single(w, w.tree.flow.initialize(w.payload, 0, u))
  {
    var t := Initialized(w.tree.flow, RunState(w.tree.root, w.payload, [u]));
    assert t.items == [w.tree.flow.initialize(w.payload, 0, u)];
  }

  lemma SingleNeeded(w: World, v: View, ids: set<RunId>)
    requires v.needed != {} && w.tree.root in ids
    ensures NeededIn(Single(w, v), ids) == {ItemKey(w.tree.root, 0)}
  {
    var keys := NeededIn(Single(w, v), ids);
    assert ItemKey(w.tree.root, 0) in keys;
    forall k | k in keys ensures k == ItemKey(w.tree.root, 0) {}
  }

  /** A crash, and a recovery from the journal alone. */
  lemma {:induction false} OneRecovered(w: World, v: View, u: View, inFlight: map<TaskKey, string>) returns (w': World)
    requires One(w, v, u, inFlight, {}) && w.life == 0
    requires w.tree.flow.initialize(w.payload, 0, u).needed != {}
    ensures IsRun(w, [Crash, Recover], w') && w'.tree == w.tree && w'.payload == w.payload && w'.life == 1
    ensures One(w', w.tree.flow.initialize(w.payload, 0, u), u, map[], {ItemKey(w.tree.root, 0)})
  {
    w' := RecoveredFromJournal(w);
    TruthOfPrefix(w, w', |w.journal|);
    var live := w.tree.flow.initialize(w.payload, 0, u);
    SingleInitialized(w, u);
    NothingAnnounced(Truth(w, |w.journal|));
    SingleNeeded(w, live, {w.tree.root});
    assert {w.tree.root} - {} == {w.tree.root};
  }

  lemma NothingAnnounced(rec: Recovered)
    requires rec.subflows == map[]
    ensures Announced(rec) == {}
  {}

  /** A checkpoint stores what memory holds. */
  lemma {:induction false} OneStored(w: World, v: View, u: View, inFlight: map<TaskKey, string>, tasks: seq<TaskKey>)
      returns (step: Step, w': World)
    requires One(w, v, u, inFlight, {}) && w.executor.value.progress.since > 0 && Enumerates(tasks, inFlight.Keys)
    ensures IsRun(w, [step], w') && step.AttemptCheckpoint? && w'.tree == w.tree && w'.payload == w.payload
    ensures w'.snapshot.Some? && w'.snapshot.value.life == w.life
    ensures Restore(w').Ok? && Restore(w').value.runs == Single(w, v)
    ensures RestoreFromJournal(w'.tree, w'.journal).Ok?
    ensures RestoreFromJournal(w'.tree, w'.journal).value.runs == Single(w, u)
  {
    var x, it := w.executor.value, Iteration([w.tree.root], [], tasks);
    step := AttemptCheckpoint(it, true);
    assert Iterates(it, x.runs, x.recoveredSubflows, x.inFlight);
    TruthIsWellFormed(w, |w.journal|);
    CaptureDecodes(x, x.progress.latest.value, it);
    AttemptKeepsFaithful(w, it, true);
    w' := Apply(w, step);
    ChainIsRun([w, w'], [step]);
    TruthOfPrefix(w, w', |w.journal|);
    RestoreIsFaithful(w');
    RestoreUnfolds(w');
    assert w'.journal[|w'.journal|..] == [];
  }

  // ---------------------------------------------------------- the item itself

  /** Step 3 is needed and waits on the given steps. */
  ghost predicate Waits(n: nat, v: View, steps: set<nat>) {
    n > 5 && IR.Sound(n, v) && 3 in v.needed && v.waitingOn[3] == steps
  }

  ghost predicate OnlyAttemptsDiffer(v: View, w: View) {
    w == v.(attempts := w.attempts)
  }

  lemma {:induction false} StartsOnlyCount(spec: Spec, p: nat, v: View, tasks: seq<StartedTask>, run: RunId)
    requires Valid(spec) && IR.Sound(spec.steps(p), v)
    ensures var w := AppliedItem(ItemFlow(spec), p, 0, v, Starts(tasks, run, 0));
      IR.Sound(spec.steps(p), w) && OnlyAttemptsDiffer(v, w)
  {
    if tasks != [] {
      var front, last := Starts(tasks[..|tasks| - 1], run, 0), tasks[|tasks| - 1];
      StartsOnlyCount(spec, p, v, tasks[..|tasks| - 1], run);
      if last.task.run == run && last.task.item == 0 {
        var e := IR.TaskStarted(last.task.step, last.attempt);
        assert (front + [e])[..|front|] == front && (front + [e])[|front|] == e;
        assert Starts(tasks, run, 0) == front + [e];
      } else {
        assert Starts(tasks, run, 0) == front + [] == front;
      }
    }
  }

  /** A completion leaves alone what a step waits on, if it was not waiting on
    that completion. */
  lemma CompletionKeepsWait(needs: IS.Needs, n: nat, v: View, step: nat, result: IS.Outcome)
    requires IR.NeedsInRange(n, needs) && step < n && n > 5 && IR.Sound(n, v) && 3 in v.needed
    requires step !in v.waitingOn[3]
    ensures Waits(n, IR.Finished(needs, v, step, result), v.waitingOn[3])
  {
    var marked, unblocked := IR.Marked(v, step, result), IR.Unblocked(v, step);
    IR.MarkedSound(n, v, step, result);
    IS.AscendingFits(unblocked, n);
    IS.AscendingElements(unblocked, n);
    IR.AddAllIs(needs, n, marked, IS.Ascending(unblocked, n));
    IR.LiveSound(needs, n, v, IR.Complete(step, result));
    assert 3 !in unblocked;
    assert marked.waitingOn[3] == v.waitingOn[3];
  }

  /** Initialized again, memory keeps the stale set; the announcement in replay
    does not. */
  lemma RestartKeepsStaleSet(n: nat, v: View, outputs: set<nat>)
    requires IR.NeedsInRange(n, IR.ConditionalNeeds) && Waits(n, v, {1}) && v.completed == {0}
    requires IS.Below(outputs, n) && 3 !in outputs
    ensures var live := IR.AddAll(IR.ConditionalNeeds, v, IS.Ascending(outputs, n));
      && Waits(n, live, {1}) && live.needed != {}
      && Waits(n, IR.AddAll(IR.ConditionalNeeds, v, NeededSteps(live)), {1, 2})
  {
    var needs := IR.ConditionalNeeds;
    var live := IR.Initialized(needs, n, v, outputs);
    var replayed := IR.Initialized(needs, n, v, live.needed);
    IS.AscendingElements(outputs, n);
    IS.AscendingElements(live.needed, n);
    IR.AddAllSound(needs, n, v, IS.Ascending(outputs, n));
    IR.AddAllSound(needs, n, v, NeededSteps(live));
    assert 3 in live.needed;
    assert IS.Pending(needs, v, 3) == {1, 2};
  }

  /** Flows of `n` steps with that conditional input, whose output uses steps 4
    and 5. */
  function ConditionalSpec(n: nat): Spec {
    Spec((p: nat) => n, (p: nat) => 1, (p: nat, i: nat) => IR.ConditionalNeeds, (p: nat, i: nat, v: View) => {4, 5})
  }

  lemma ConditionalIsValid(n: nat)
    requires n > 5
    ensures Valid(ConditionalSpec(n)) && IR.NeedsInRange(n, IR.ConditionalNeeds)
  {
    IR.FreshAsksForBoth(n);
  }

  lemma ConditionalFlow(n: nat, p: nat, v: View)
    requires n > 5
    ensures var flow := ItemFlow(ConditionalSpec(n));
      && flow.create(p) == [IR.FreshView(n)]
      && flow.initialize(p, 0, v) == IR.AddAll(IR.ConditionalNeeds, v, IS.Ascending({4, 5}, n))
  {
    assert NewItems(ConditionalSpec(n), p) == [IR.FreshView(n)];
  }

  lemma ConditionalApplies(n: nat, p: nat, v: View, e: ItemEvent)
    requires n > 5 && IR.Sound(n, v) && IR.EventInRange(n, e)
    ensures ItemFlow(ConditionalSpec(n)).apply(p, 0, v, e) == IR.Replayed(IR.ConditionalNeeds, n, v, e)
  {}

  // ------------------------------------------------------------- the two lives

  ghost predicate IsConditional(w: World, n: nat) {
    n > 5 && w.tree.flow == ItemFlow(ConditionalSpec(n)) && w.interval == 1
  }

  function StartOf(root: RunId, step: nat, attempt: nat, id: string): StartedTask {
    StartedTask(TaskKey(root, 0, step), attempt, id)
  }

  /** What the first life dispatches: the steps that wait for nothing. */
  function FirstTasks(root: RunId): seq<StartedTask> {
    [StartOf(root, 0, 1, "condition"), StartOf(root, 1, 1, "one"), StartOf(root, 5, 1, "five")]
  }

  /** The second life dispatches again what was not completed. */
  function SecondTasks(root: RunId): seq<StartedTask> {
    [StartOf(root, 1, 2, "one"), StartOf(root, 5, 2, "five")]
  }

  lemma FirstInFlight(root: RunId)
    ensures TaskKey(root, 0, 0) in InsertTaskIds(map[], FirstTasks(root))
  {
    InsertKeys(map[], FirstTasks(root));
    assert FirstTasks(root)[0].task in TaskIdsOf(FirstTasks(root));
  }

  lemma SecondInFlight(root: RunId)
    ensures TaskKey(root, 0, 5) in InsertTaskIds(map[], SecondTasks(root))
    ensures Enumerates([TaskKey(root, 0, 1)], (InsertTaskIds(map[], SecondTasks(root)) - {TaskKey(root, 0, 5)}).Keys)
  {
    var tasks := SecondTasks(root);
    InsertKeys(map[], tasks);
    assert tasks[0].task in TaskIdsOf(tasks) && tasks[1].task in TaskIdsOf(tasks);
    assert TaskIdsOf(tasks) == {TaskKey(root, 0, 1), TaskKey(root, 0, 5)};
  }

  /** The start: the only item is announced. */
  lemma {:induction false} FirstAnnounced(w: World, n: nat) returns (step: Step, w': World, v: View)
    requires Init(w) && IsConditional(w, n)
    ensures IsRun(w, [step], w') && w'.tree == w.tree && w'.payload == w.payload && w'.life == 0
    ensures One(w', v, v, map[], {}) && IR.WaitsForBoth(n, v)
  {
    IR.FreshAsksForBoth(n);
    ConditionalFlow(n, w.payload, IR.FreshView(n));
    v := IR.InitializedWaitsForBoth(IR.ConditionalNeeds, n, IR.FreshView(n), {4, 5});
    step, w' := OneBegins(w, IR.FreshView(n));
  }

  /** Step 3 no longer waits on the condition. */
  lemma WaitsOnOne(w: World, n: nat, v: View, result: IS.Outcome)
    requires IsConditional(w, n) && IR.WaitsForBoth(n, v)
    ensures var u := CompletedView(w, StartedView(w, v, FirstTasks(w.tree.root)), 0, result);
      Waits(n, u, {1}) && u.completed == {0}
  {
    var started := StartedView(w, v, FirstTasks(w.tree.root));
    ConditionalIsValid(n);
    StartsOnlyCount(ConditionalSpec(n), w.payload, v, FirstTasks(w.tree.root), w.tree.root);
    ConditionalApplies(n, w.payload, started, IR.TaskCompleted(0, result));
    IR.CompletedCondition(n, started, result);
    IR.LiveSound(IR.ConditionalNeeds, n, started, IR.Complete(0, result));
  }

  /** The condition is completed in the first life. */
  lemma {:induction false} ConditionKnown(w: World, n: nat, result: IS.Outcome)
      returns (steps: seq<Step>, w': World, v: View, inFlight: map<TaskKey, string>)
    requires Init(w) && IsConditional(w, n)
    ensures IsRun(w, steps, w') && w'.tree == w.tree && w'.payload == w.payload && w'.life == 0
    ensures One(w', v, v, inFlight, {}) && Waits(n, v, {1}) && v.completed == {0}
  {
    var tasks := FirstTasks(w.tree.root);
    var step, w1, v1 := FirstAnnounced(w, n);
    FirstInFlight(w.tree.root);
    var work;
    work, w' := OneWorked(w1, v1, v1, tasks, 0, result);
    RunsCompose(w, [step], w1, work, w');
    steps := [step] + work;
    v := CompletedView(w, StartedView(w, v1, tasks), 0, result);
    inFlight := InsertTaskIds(map[], tasks) - {TaskKey(w.tree.root, 0, 0)};
    WaitsOnOne(w, n, v1, result);
  }

  /** The second life starts with memory and journal apart. */
  lemma {:induction false} SecondAnnounced(w: World, n: nat, v: View, inFlight: map<TaskKey, string>)
      returns (steps: seq<Step>, w': World, live: View, replayed: View)
    requires IsConditional(w, n) && One(w, v, v, inFlight, {}) && w.life == 0
    requires Waits(n, v, {1}) && v.completed == {0}
    ensures IsRun(w, steps, w') && w'.tree == w.tree && w'.payload == w.payload && w'.life == 1
    ensures One(w', live, replayed, map[], {}) && Waits(n, live, {1}) && Waits(n, replayed, {1, 2})
  {
    ConditionalIsValid(n);
    ConditionalFlow(n, w.payload, v);
    RestartKeepsStaleSet(n, v, {4, 5});
    live := w.tree.flow.initialize(w.payload, 0, v);
    var w1 := OneRecovered(w, v, v, inFlight);
    var step;
    step, w' := OneAnnounced(w1, live, v);
    RunsCompose(w, [Crash, Recover], w1, [step], w');
    steps := [Crash, Recover] + [step];
    replayed := w.tree.flow.apply(w.payload, 0, v, IR.StepsNeeded(NeededSteps(live)));
    IS.AscendingElements(live.needed, n);
    ConditionalApplies(n, w.payload, v, IR.StepsNeeded(NeededSteps(live)));
  }

  /** Dispatching again and the end of step 5 leave step 3 waiting. */
  lemma StillWaits(w: World, n: nat, v: View, waits: set<nat>, result: IS.Outcome)
    requires IsConditional(w, n) && Waits(n, v, waits) && 5 !in waits
    ensures Waits(n, CompletedView(w, StartedView(w, v, SecondTasks(w.tree.root)), 5, result), waits)
  {
    var started := StartedView(w, v, SecondTasks(w.tree.root));
    ConditionalIsValid(n);
    StartsOnlyCount(ConditionalSpec(n), w.payload, v, SecondTasks(w.tree.root), w.tree.root);
    ConditionalApplies(n, w.payload, started, IR.TaskCompleted(5, result));
    CompletionKeepsWait(IR.ConditionalNeeds, n, started, 5, result);
  }

  lemma {:induction false} SecondTaskEnds(w: World, n: nat, live: View, replayed: View, result: IS.Outcome)
      returns (steps: seq<Step>, w': World, v: View, u: View)
    requires IsConditional(w, n) && One(w, live, replayed, map[], {})
    requires Waits(n, live, {1}) && Waits(n, replayed, {1, 2})
    ensures IsRun(w, steps, w') && w'.tree == w.tree && w'.payload == w.payload && w'.life == w.life
    ensures One(w', v, u, InsertTaskIds(map[], SecondTasks(w.tree.root)) - {TaskKey(w.tree.root, 0, 5)}, {})
    ensures Waits(n, v, {1}) && Waits(n, u, {1, 2}) && w'.executor.value.progress.since > 0
  {
    var tasks := SecondTasks(w.tree.root);
    SecondInFlight(w.tree.root);
    steps, w' := OneWorked(w, live, replayed, tasks, 5, result);
    v := CompletedView(w, StartedView(w, live, tasks), 5, result);
    u := CompletedView(w, StartedView(w, replayed, tasks), 5, result);
    StillWaits(w, n, live, {1}, result);
    StillWaits(w, n, replayed, {1, 2}, result);
  }

  /** The condition is completed, the process crashes, the next one starts, and
    when step 5 ends a checkpoint is stored.  It restores step 3 as waiting on
    step 1 alone, where replaying the journal gives steps 1 and 2. */
  lemma {:induction false} SecondLifeCheckpointDrifts(w: World, n: nat, result: IS.Outcome, result': IS.Outcome)
      returns (steps: seq<Step>, w': World)
    requires Init(w) && IsConditional(w, n)
    ensures IsRun(w, steps, w') && w'.snapshot.Some? && w'.snapshot.value.life == 1
    ensures Restore(w').Ok? && RestoreFromJournal(w'.tree, w'.journal).Ok?
    ensures var rec, full := Restore(w').value.runs, RestoreFromJournal(w'.tree, w'.journal).value.runs;
      && w'.tree.root in rec && |rec[w'.tree.root].items| == 1 && Waits(n, rec[w'.tree.root].items[0], {1})
      && w'.tree.root in full && |full[w'.tree.root].items| == 1 && Waits(n, full[w'.tree.root].items[0], {1, 2})
  {
    var w3, v3, inFlight;
    steps, w3, v3, inFlight := ConditionKnown(w, n, result);
    var restart, w4, live, replayed := SecondAnnounced(w3, n, v3, inFlight);
    RunsCompose(w, steps, w3, restart, w4);
    steps := steps + restart;
    var work, w5, v5, u5 := SecondTaskEnds(w4, n, live, replayed, result');
    RunsCompose(w, steps, w4, work, w5);
    steps := steps + work;
    SecondInFlight(w.tree.root);
    var step;
    step, w' := OneStored(w5, v5, u5, InsertTaskIds(map[], SecondTasks(w.tree.root)) - {TaskKey(w.tree.root, 0, 5)},
                          [TaskKey(w.tree.root, 0, 1)]);
    RunsCompose(w, steps, w5, [step], w');
    steps := steps + [step];
  }
}
