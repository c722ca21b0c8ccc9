/** What replaying a tail of the journal does to each component of the
  recovered state, and exactly when starting it from a captured base instead of
  the true state makes no difference. */
module CheckpointReplay {
  import opened Basics
  import opened Checkpoint
  import opened Journals
  import opened Records

  ghost predicate Submap<K, V>(a: map<K, V>, b: map<K, V>) {
    forall k | k in a :: k in b && a[k] == b[k]
  }

  /** Two maps `a`, `b` obtained from `before`, `before'`: at a key the tail
    touches they agree, elsewhere they are what they were. */
  ghost predicate SettledAt<K, V>(k: K, touched: bool, before: map<K, V>, a: map<K, V>, before': map<K, V>,
                                  b: map<K, V>) {
    if touched then SameAt(k, a, b) else SameAt(k, a, before) && SameAt(k, b, before')
  }

  ghost predicate SameAt<K, V>(k: K, a: map<K, V>, b: map<K, V>) {
    (k in a <==> k in b) && (k in a ==> a[k] == b[k])
  }

  // ------------------------------------------------- what a tail overwrites

  ghost function WrittenSubflows(entries: seq<Entry<Event>>): set<SubflowKey> {
    set i | 0 <= i < |entries| && entries[i].event.SubRunCreated? :: entries[i].event.subflow
  }

  ghost function StartedIds(tasks: seq<StartedTask>): set<TaskKey> {
    set i | 0 <= i < |tasks| && tasks[i].taskId != "" :: tasks[i].task
  }

  ghost function TouchedBy(event: Event): set<TaskKey> {
    match event
    case TasksStarted(tasks) => StartedIds(tasks)
    case TaskCompleted(task, _) => {task}
    case _ => {}
  }

  ghost function TouchedTasks(entries: seq<Entry<Event>>): set<TaskKey> {
    if entries == [] then {} else TouchedTasks(entries[..|entries| - 1]) + TouchedBy(entries[|entries| - 1].event)
  }

  ghost function SettledBy(root: RunId, event: Event): set<RunId> {
    match event
    case SubRunCreated(run, _, _) => {run}
    case StepsNeeded(run, _, _) => if run == root then {} else {run}
    case RunCompleted(run, _) => if run == root then {} else {run}
    case _ => {}
  }

  /** Runs whose need for a `StepsNeeded` entry the tail decides by itself. */
  ghost function SettledRuns(root: RunId, entries: seq<Entry<Event>>): set<RunId> {
    if entries == [] then {}
    else SettledRuns(root, entries[..|entries| - 1]) + SettledBy(root, entries[|entries| - 1].event)
  }

  ghost predicate CompletesRoot(root: RunId, entries: seq<Entry<Event>>) {
    exists i :: 0 <= i < |entries| && entries[i].event.RunCompleted? && entries[i].event.run == root
  }

  /** The run is dropped somewhere along the way. */
  ghost predicate Evicts(root: RunId, entries: seq<Entry<Event>>, r: RunId) {
    r != root && exists i :: 0 <= i < |entries| && entries[i].event.RunCompleted? && entries[i].event.run == r
  }

  /** One run's state after its share of the entries. */
  ghost function RunAfter(flow: Flow, s: RunState, entries: seq<Entry<Event>>): RunState {
    if entries == [] then s
    else AppliedRun(flow, RunAfter(flow, s, entries[..|entries| - 1]), entries[|entries| - 1].event)
  }

  // --------------------------------------------------- component-wise effect

  lemma {:induction false} ReplayAppends(tree: Tree, rec: Recovered, a: seq<Entry<Event>>, b: seq<Entry<Event>>)
    ensures Replay(tree, Replay(tree, rec, a), b) == Replay(tree, rec, a + b)
    decreases |b|
  {
    if b == [] {
      assert a + b == a;
    } else {
      ReplayAppends(tree, rec, a, b[..|b| - 1]);
      assert (a + b)[..|a + b| - 1] == a + b[..|b| - 1];
    }
  }

  lemma {:induction false} RunsDependOnRuns(tree: Tree, rec: Recovered, rec': Recovered, entries: seq<Entry<Event>>)
    requires rec.runs == rec'.runs
    ensures Replay(tree, rec, entries).runs == Replay(tree, rec', entries).runs
    decreases |entries|
  {
    if entries != [] {
      RunsDependOnRuns(tree, rec, rec', entries[..|entries| - 1]);
    }
  }

  /** The same runs, created with the same payload, whatever their items' states. */
  ghost predicate SameRuns(a: map<RunId, RunState>, b: map<RunId, RunState>) {
    a.Keys == b.Keys && forall r | r in a :: SameCreation(a[r], b[r])
  }

  ghost predicate SameCreation(s: RunState, t: RunState) {
    s.run == t.run && s.payload == t.payload && |s.items| == |t.items|
  }

  lemma SameRunsStep(tree: Tree, runs: map<RunId, RunState>, runs': map<RunId, RunState>, event: Event)
    requires SameRuns(runs, runs')
    ensures SameRuns(RunsAfter(tree, runs, event), RunsAfter(tree, runs', event))
  {
    var a, b := RunsAfter(tree, runs, event), RunsAfter(tree, runs', event);
    assert a.Keys == b.Keys;
    forall r | r in a ensures SameCreation(a[r], b[r]) {
      if r in runs { assert SameCreation(runs[r], runs'[r]); }
    }
  }

  lemma {:induction false} SameRunsStay(tree: Tree, rec: Recovered, rec': Recovered, entries: seq<Entry<Event>>)
    requires SameRuns(rec.runs, rec'.runs)
    ensures SameRuns(Replay(tree, rec, entries).runs, Replay(tree, rec', entries).runs)
    decreases |entries|
  {
    if entries != [] {
      var front := entries[..|entries| - 1];
      SameRunsStay(tree, rec, rec', front);
      SameRunsStep(tree, Replay(tree, rec, front).runs, Replay(tree, rec', front).runs, entries[|entries| - 1].event);
    }
  }

  lemma RunStep(tree: Tree, runs: map<RunId, RunState>, runs': map<RunId, RunState>, event: Event, r: RunId)
    requires r in runs <==> r in runs'
    ensures var a, b := RunsAfter(tree, runs, event), RunsAfter(tree, runs', event);
      if r !in runs || (event.RunCompleted? && event.run == r && r != tree.root) then SameAt(r, a, b)
      else
        && r in a && a[r] == AppliedRun(tree.flow, runs[r], event)
        && r in b && b[r] == AppliedRun(tree.flow, runs'[r], event)
  {}

  lemma SameRunStep(tree: Tree, runs: map<RunId, RunState>, runs': map<RunId, RunState>, event: Event, r: RunId)
    requires SameAt(r, runs, runs')
    ensures SameAt(r, RunsAfter(tree, runs, event), RunsAfter(tree, runs', event))
  {}

  /** A tail decides the state of every run that it creates or drops; any other
    run only sees its share of the entries. */
  lemma {:induction false} RunEffect(tree: Tree, rec: Recovered, rec': Recovered, entries: seq<Entry<Event>>, r: RunId)
    requires r in rec.runs <==> r in rec'.runs
    ensures var a, b := Replay(tree, rec, entries).runs, Replay(tree, rec', entries).runs;
      if r !in rec.runs || Evicts(tree.root, entries, r) then SameAt(r, a, b)
      else
        && r in a && a[r] == RunAfter(tree.flow, rec.runs[r], entries)
        && r in b && b[r] == RunAfter(tree.flow, rec'.runs[r], entries)
    decreases |entries|
  {
    if entries != [] {
      var front, last := entries[..|entries| - 1], entries[|entries| - 1];
      var a, b := Replay(tree, rec, front).runs, Replay(tree, rec', front).runs;
      RunEffect(tree, rec, rec', front, r);
      EvictsSplits(tree.root, entries, r);
      if r !in rec.runs || Evicts(tree.root, front, r) {
        SameRunStep(tree, a, b, last.event, r);
      } else {
        RunStep(tree, a, b, last.event, r);
      }
    }
  }

  lemma EvictsSplits(root: RunId, entries: seq<Entry<Event>>, r: RunId)
    requires entries != []
    ensures var front, last := entries[..|entries| - 1], entries[|entries| - 1].event;
      Evicts(root, entries, r) <==> Evicts(root, front, r) || (r != root && last.RunCompleted? && last.run == r)
  {
    var front, last := entries[..|entries| - 1], entries[|entries| - 1];
    if Evicts(root, front, r) {
      var i :| 0 <= i < |front| && front[i].event.RunCompleted? && front[i].event.run == r;
      assert entries[i] == front[i];
    }
    if Evicts(root, entries, r) && !(last.event.RunCompleted? && last.event.run == r) {
      var i :| 0 <= i < |entries| && entries[i].event.RunCompleted? && entries[i].event.run == r;
      assert entries[i] == front[i];
    }
  }

  lemma WrittenSplits(entries: seq<Entry<Event>>, k: SubflowKey)
    requires entries != []
    ensures var front, last := entries[..|entries| - 1], entries[|entries| - 1].event;
      k in WrittenSubflows(entries) <==> k in WrittenSubflows(front) || (last.SubRunCreated? && last.subflow == k)
  {
    var front, last := entries[..|entries| - 1], entries[|entries| - 1];
    if k in WrittenSubflows(front) {
      var i :| 0 <= i < |front| && front[i].event.SubRunCreated? && front[i].event.subflow == k;
      assert entries[i] == front[i];
    }
    if k in WrittenSubflows(entries) && !(last.event.SubRunCreated? && last.event.subflow == k) {
      var i :| 0 <= i < |entries| && entries[i].event.SubRunCreated? && entries[i].event.subflow == k;
      assert entries[i] == front[i];
    }
  }

  lemma {:induction false} SubflowEffect(tree: Tree, rec: Recovered, rec': Recovered,
                                         entries: seq<Entry<Event>>, k: SubflowKey)
    ensures SettledAt(k, k in WrittenSubflows(entries), rec.subflows, Replay(tree, rec, entries).subflows,
                      rec'.subflows, Replay(tree, rec', entries).subflows)
    decreases |entries|
  {
    if entries != [] {
      SubflowEffect(tree, rec, rec', entries[..|entries| - 1], k);
      WrittenSplits(entries, k);
    }
  }

  lemma {:induction false} InsertEffect(taskIds: map<TaskKey, string>, taskIds': map<TaskKey, string>,
                                        tasks: seq<StartedTask>, k: TaskKey)
    ensures SettledAt(k, k in StartedIds(tasks), taskIds, InsertTaskIds(taskIds, tasks),
                      taskIds', InsertTaskIds(taskIds', tasks))
    decreases |tasks|
  {
    if tasks != [] {
      var t := tasks[0];
      var next := if t.taskId == "" then taskIds else taskIds[t.task := t.taskId];
      var next' := if t.taskId == "" then taskIds' else taskIds'[t.task := t.taskId];
      InsertEffect(next, next', tasks[1..], k);
      assert k in StartedIds(tasks) <==> k in StartedIds(tasks[1..]) || (t.taskId != "" && t.task == k) by {
        if k in StartedIds(tasks[1..]) {
          var i :| 0 <= i < |tasks[1..]| && tasks[1..][i].taskId != "" && tasks[1..][i].task == k;
          assert tasks[i + 1] == tasks[1..][i];
        }
        if k in StartedIds(tasks) && !(t.taskId != "" && t.task == k) {
          var i :| 0 <= i < |tasks| && tasks[i].taskId != "" && tasks[i].task == k;
          assert tasks[1..][i - 1] == tasks[i];
        }
      }
    }
  }

  lemma {:induction false} TaskIdEffect(tree: Tree, rec: Recovered, rec': Recovered,
                                        entries: seq<Entry<Event>>, k: TaskKey)
    ensures SettledAt(k, k in TouchedTasks(entries), rec.taskIds, Replay(tree, rec, entries).taskIds,
                      rec'.taskIds, Replay(tree, rec', entries).taskIds)
    decreases |entries|
  {
    if entries != [] {
      var front, last := entries[..|entries| - 1], entries[|entries| - 1];
      TaskIdEffect(tree, rec, rec', front, k);
      if last.event.TasksStarted? {
        InsertEffect(Replay(tree, rec, front).taskIds, Replay(tree, rec', front).taskIds, last.event.tasks, k);
      }
    }
  }

  lemma {:induction false} NeedingEffect(tree: Tree, rec: Recovered, rec': Recovered,
                                         entries: seq<Entry<Event>>, r: RunId)
    ensures var a, b := Replay(tree, rec, entries).needing, Replay(tree, rec', entries).needing;
      if r in SettledRuns(tree.root, entries) then r in a <==> r in b
      else (r in a <==> r in rec.needing) && (r in b <==> r in rec'.needing)
    decreases |entries|
  {
    if entries != [] {
      NeedingEffect(tree, rec, rec', entries[..|entries| - 1], r);
    }
  }

  lemma {:induction false} TerminalEffect(tree: Tree, rec: Recovered, rec': Recovered, entries: seq<Entry<Event>>)
    ensures var a, b := Replay(tree, rec, entries).terminal, Replay(tree, rec', entries).terminal;
      if CompletesRoot(tree.root, entries) then a == b && a.Some? else a == rec.terminal && b == rec'.terminal
    decreases |entries|
  {
    if entries != [] {
      var front, last := entries[..|entries| - 1], entries[|entries| - 1];
      TerminalEffect(tree, rec, rec', front);
      assert last == entries[|entries| - 1];
      if CompletesRoot(tree.root, front) {
        var i :| 0 <= i < |front| && front[i].event.RunCompleted? && front[i].event.run == tree.root;
        assert entries[i] == front[i];
      }
      if CompletesRoot(tree.root, entries) && !(last.event.RunCompleted? && last.event.run == tree.root) {
        var i :| 0 <= i < |entries| && entries[i].event.RunCompleted? && entries[i].event.run == tree.root;
        assert entries[i] == front[i];
      }
    }
  }

  // ------------------------------------------------------- the exact condition

  /** A base as a checkpoint yields it: the right runs, nothing invented. */
  ghost predicate CapturedFrom(base: Recovered, truth: Recovered) {
    && SameRuns(base.runs, truth.runs)
    && Submap(base.subflows, truth.subflows)
    && Submap(base.taskIds, truth.taskIds)
    && base.needing == {} && base.terminal == None
  }

  /** Every run whose captured state is not the true one is dropped by the tail
    or brought to the same state by it. */
  ghost predicate RunsMeet(tree: Tree, base: Recovered, truth: Recovered, tail: seq<Entry<Event>>)
    requires SameRuns(base.runs, truth.runs)
  {
    forall r | r in truth.runs && !Evicts(tree.root, tail, r) ::
      RunAfter(tree.flow, base.runs[r], tail) == RunAfter(tree.flow, truth.runs[r], tail)
  }

  lemma RunsMeetIff(tree: Tree, base: Recovered, truth: Recovered, tail: seq<Entry<Event>>)
    requires SameRuns(base.runs, truth.runs)
    ensures Replay(tree, base, tail).runs == Replay(tree, truth, tail).runs <==> RunsMeet(tree, base, truth, tail)
  {
    var a, b := Replay(tree, base, tail).runs, Replay(tree, truth, tail).runs;
    if RunsMeet(tree, base, truth, tail) {
      SameRunsStay(tree, base, truth, tail);
      forall r | r in a ensures r in b && a[r] == b[r] { RunEffect(tree, base, truth, tail, r); }
      assert a == b;
    }
    if a == b {
      forall r | r in truth.runs && !Evicts(tree.root, tail, r)
        ensures RunAfter(tree.flow, base.runs[r], tail) == RunAfter(tree.flow, truth.runs[r], tail)
      {
        RunEffect(tree, base, truth, tail, r);
      }
    }
  }

  ghost predicate RunsAgreeAfter(tree: Tree, base: Recovered, truth: Recovered, tail: seq<Entry<Event>>) {
    Replay(tree, base, tail).runs == Replay(tree, truth, tail).runs
  }

  /** Whatever is journaled later, the run states come out equal, if and only if
    the captured ones are the true ones. */
  lemma RunsAgreeForEveryTailIff(tree: Tree, base: Recovered, truth: Recovered)
    ensures (forall tail :: RunsAgreeAfter(tree, base, truth, tail)) <==> base.runs == truth.runs
  {
    if base.runs == truth.runs {
      forall tail ensures RunsAgreeAfter(tree, base, truth, tail) { RunsDependOnRuns(tree, base, truth, tail); }
    } else {
      assert !RunsAgreeAfter(tree, base, truth, []);
    }
  }

  /** Everything the base lacks is written again by the tail. */
  ghost predicate TailCovers(tree: Tree, base: Recovered, truth: Recovered, tail: seq<Entry<Event>>)
    requires SameRuns(base.runs, truth.runs)
  {
    && RunsMeet(tree, base, truth, tail)
    && (forall k | k in truth.subflows :: k in base.subflows || k in WrittenSubflows(tail))
    && (forall k | k in truth.taskIds :: k in base.taskIds || k in TouchedTasks(tail))
    && truth.needing <= SettledRuns(tree.root, tail)
    && (truth.terminal == None || CompletesRoot(tree.root, tail))
  }

  lemma RestoredIsContained(tree: Tree, base: Recovered, truth: Recovered, tail: seq<Entry<Event>>)
    requires CapturedFrom(base, truth)
    ensures var restored, full := Replay(tree, base, tail), Replay(tree, truth, tail);
      && SameRuns(restored.runs, full.runs)
      && Submap(restored.subflows, full.subflows)
      && Submap(restored.taskIds, full.taskIds)
      && restored.needing <= full.needing
  {
    var restored, full := Replay(tree, base, tail), Replay(tree, truth, tail);
    SameRunsStay(tree, base, truth, tail);
    forall k | k in restored.subflows ensures k in full.subflows && restored.subflows[k] == full.subflows[k] {
      SubflowEffect(tree, base, truth, tail, k);
    }
    forall k | k in restored.taskIds ensures k in full.taskIds && restored.taskIds[k] == full.taskIds[k] {
      TaskIdEffect(tree, base, truth, tail, k);
    }
    forall r | r in restored.needing ensures r in full.needing {
      NeedingEffect(tree, base, truth, tail, r);
    }
  }

  lemma CoveringTailRestores(tree: Tree, base: Recovered, truth: Recovered, tail: seq<Entry<Event>>)
    requires CapturedFrom(base, truth) && TailCovers(tree, base, truth, tail)
    ensures Replay(tree, base, tail) == Replay(tree, truth, tail)
  {
    var restored, full := Replay(tree, base, tail), Replay(tree, truth, tail);
    RestoredIsContained(tree, base, truth, tail);
    RunsMeetIff(tree, base, truth, tail);
    forall k | k in full.subflows ensures k in restored.subflows {
      SubflowEffect(tree, base, truth, tail, k);
    }
    forall k | k in full.taskIds ensures k in restored.taskIds {
      TaskIdEffect(tree, base, truth, tail, k);
    }
    forall r | r in full.needing ensures r in restored.needing {
      NeedingEffect(tree, base, truth, tail, r);
    }
    TerminalEffect(tree, base, truth, tail);
    assert restored.subflows == full.subflows && restored.taskIds == full.taskIds && restored.needing == full.needing;
  }

  lemma OnlyCoveringTailRestores(tree: Tree, base: Recovered, truth: Recovered, tail: seq<Entry<Event>>)
    requires CapturedFrom(base, truth) && Replay(tree, base, tail) == Replay(tree, truth, tail)
    ensures TailCovers(tree, base, truth, tail)
  {
    RunsMeetIff(tree, base, truth, tail);
    forall k | k in truth.subflows ensures k in base.subflows || k in WrittenSubflows(tail) {
      SubflowEffect(tree, base, truth, tail, k);
    }
    forall k | k in truth.taskIds ensures k in base.taskIds || k in TouchedTasks(tail) {
      TaskIdEffect(tree, base, truth, tail, k);
    }
    forall r | r in truth.needing ensures r in SettledRuns(tree.root, tail) {
      NeedingEffect(tree, base, truth, tail, r);
    }
    TerminalEffect(tree, base, truth, tail);
  }

  /** Restoring from a captured base equals replaying from the truth if and
    only if the tail writes again whatever the capture left out and settles every
    run whose captured state was not the true one. */
  lemma RestoreEqualsReplayIff(tree: Tree, base: Recovered, truth: Recovered, tail: seq<Entry<Event>>)
    requires CapturedFrom(base, truth)
    ensures Replay(tree, base, tail) == Replay(tree, truth, tail) <==> TailCovers(tree, base, truth, tail)
  {
    if TailCovers(tree, base, truth, tail) {
      CoveringTailRestores(tree, base, truth, tail);
    }
    if Replay(tree, base, tail) == Replay(tree, truth, tail) {
      OnlyCoveringTailRestores(tree, base, truth, tail);
    }
  }
}
