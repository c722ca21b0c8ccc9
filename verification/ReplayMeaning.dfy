/** What one replay computes, read off the journal entries: each component of
  the recovered state is what the last entry about it left. */
module ReplayMeaning {
  import opened Basics
  import opened Checkpoint
  import opened CheckpointReplay
  import opened Journals
  import opened Records
  import ItemReplays

  // ------------------------------------------------------- the last entry wins

  type Kind = Event -> bool

  /** Position `i` holds the last entry of the kind. */
  ghost predicate IsLast(entries: seq<Entry<Event>>, kind: Kind, i: int) {
    && 0 <= i < |entries| && kind(entries[i].event)
    && forall j | i < j < |entries| :: !kind(entries[j].event)
  }

  ghost predicate Nowhere(entries: seq<Entry<Event>>, kind: Kind) {
    forall i | 0 <= i < |entries| :: !kind(entries[i].event)
  }

  lemma LastSplits(entries: seq<Entry<Event>>, kind: Kind)
    requires entries != []
    ensures var front, last := entries[..|entries| - 1], |entries| - 1;
      && (Nowhere(entries, kind) <==> Nowhere(front, kind) && !kind(entries[last].event))
      && (forall i :: IsLast(entries, kind, i) <==>
            if kind(entries[last].event) then i == last else IsLast(front, kind, i))
  {
    var front, last := entries[..|entries| - 1], |entries| - 1;
    forall i ensures IsLast(entries, kind, i) <==>
        if kind(entries[last].event) then i == last else IsLast(front, kind, i)
    {
      if IsLast(entries, kind, i) && i != last {
        assert !kind(entries[last].event);
        forall j | i < j < |front| ensures !kind(front[j].event) { assert front[j] == entries[j]; }
      }
      if !kind(entries[last].event) && IsLast(front, kind, i) {
        forall j | i < j < |entries| ensures !kind(entries[j].event) {
          if j < last { assert front[j] == entries[j]; }
        }
      }
    }
    if Nowhere(entries, kind) {
      forall i | 0 <= i < |front| ensures !kind(front[i].event) { assert front[i] == entries[i]; }
    }
    if Nowhere(front, kind) && !kind(entries[last].event) {
      forall i | 0 <= i < |entries| ensures !kind(entries[i].event) {
        if i < last { assert front[i] == entries[i]; }
      }
    }
  }

  function Completion(run: RunId): Kind {
    (e: Event) => e.RunCompleted? && e.run == run
  }

  /** The tree's status is the one of the last journaled completion of its root. */
  lemma {:induction false} TerminalIsLast(tree: Tree, rec: Recovered, entries: seq<Entry<Event>>)
    ensures forall i | IsLast(entries, Completion(tree.root), i) ::
      Replay(tree, rec, entries).terminal == Some(entries[i].event.status)
    ensures Nowhere(entries, Completion(tree.root)) ==> Replay(tree, rec, entries).terminal == rec.terminal
    decreases |entries|
  {
    if entries != [] {
      TerminalIsLast(tree, rec, entries[..|entries| - 1]);
      LastSplits(entries, Completion(tree.root));
    }
  }

  function CreationUnder(key: SubflowKey): Kind {
    (e: Event) => e.SubRunCreated? && e.subflow == key
  }

  /** A subflow key stands for the run that was last created under it. */
  lemma {:induction false} SubflowIsLast(tree: Tree, rec: Recovered, entries: seq<Entry<Event>>, key: SubflowKey)
    ensures forall i | IsLast(entries, CreationUnder(key), i) ::
      var subflows := Replay(tree, rec, entries).subflows;
      key in subflows && subflows[key] == entries[i].event.run
    ensures Nowhere(entries, CreationUnder(key)) ==> SameAt(key, Replay(tree, rec, entries).subflows, rec.subflows)
    decreases |entries|
  {
    if entries != [] {
      SubflowIsLast(tree, rec, entries[..|entries| - 1], key);
      LastSplits(entries, CreationUnder(key));
    }
  }

  /** The entry creates the run as a sub-run, or, except for the root, journals
    steps that it needs or completes it. */
  function Settling(root: RunId, run: RunId): Kind {
    (e: Event) =>
      (e.SubRunCreated? || (run != root && (e.StepsNeeded? || e.RunCompleted?))) && e.run == run
  }

  lemma NeedSettled(root: RunId, needing: set<RunId>, event: Event, run: RunId)
    ensures run in NeedingAfter(root, needing, event) <==>
      if Settling(root, run)(event) then event.SubRunCreated? else run in needing
  {}

  /** A sub-run still needs its steps journaled exactly if the last entry that
    creates it, initializes one of its items or completes it is its creation. */
  lemma {:induction false} NeedingIsLast(tree: Tree, rec: Recovered, entries: seq<Entry<Event>>, run: RunId)
    ensures forall i | IsLast(entries, Settling(tree.root, run), i) ::
      run in Replay(tree, rec, entries).needing <==> entries[i].event.SubRunCreated?
    ensures Nowhere(entries, Settling(tree.root, run)) ==>
      (run in Replay(tree, rec, entries).needing <==> run in rec.needing)
    decreases |entries|
  {
    if entries != [] {
      var front := entries[..|entries| - 1];
      NeedingIsLast(tree, rec, front, run);
      LastSplits(entries, Settling(tree.root, run));
      NeedSettled(tree.root, Replay(tree, rec, front).needing, entries[|entries| - 1].event, run);
    }
  }

  predicate RecordsId(t: StartedTask, task: TaskKey) {
    t.task == task && t.taskId != ""
  }

  /** The last task of the list with a non-empty id for `task`. */
  ghost predicate LastRecorded(tasks: seq<StartedTask>, task: TaskKey, k: int) {
    && 0 <= k < |tasks| && RecordsId(tasks[k], task)
    && forall l | k < l < |tasks| :: !RecordsId(tasks[l], task)
  }

  predicate RecordsNone(tasks: seq<StartedTask>, task: TaskKey) {
    forall k | 0 <= k < |tasks| :: !RecordsId(tasks[k], task)
  }

  lemma {:induction false} InsertKeepsOthers(taskIds: map<TaskKey, string>, tasks: seq<StartedTask>, task: TaskKey)
    requires RecordsNone(tasks, task)
    ensures SameAt(task, InsertTaskIds(taskIds, tasks), taskIds)
    decreases |tasks|
  {
    if tasks != [] {
      assert !RecordsId(tasks[0], task);
      InsertKeepsOthers(if tasks[0].taskId == "" then taskIds else taskIds[tasks[0].task := tasks[0].taskId],
                        tasks[1..], task);
    }
  }

  lemma {:induction false} InsertedIdIsLast(taskIds: map<TaskKey, string>, tasks: seq<StartedTask>, task: TaskKey,
                                            k: int)
    requires LastRecorded(tasks, task, k)
    ensures var ids := InsertTaskIds(taskIds, tasks); task in ids && ids[task] == tasks[k].taskId
    decreases |tasks|
  {
    var next := if tasks[0].taskId == "" then taskIds else taskIds[tasks[0].task := tasks[0].taskId];
    if k == 0 {
      InsertKeepsOthers(next, tasks[1..], task);
    } else {
      InsertedIdIsLast(next, tasks[1..], task, k - 1);
    }
  }

  lemma {:induction false} SomeRecordIsLast(tasks: seq<StartedTask>, task: TaskKey) returns (k: int)
    requires !RecordsNone(tasks, task)
    ensures LastRecorded(tasks, task, k)
    decreases |tasks|
  {
    k := |tasks| - 1;
    if !RecordsId(tasks[k], task) {
      k := SomeRecordIsLast(tasks[..k], task);
    }
  }

  /** The entry starts the task with a non-empty id, or completes it. */
  function Touching(task: TaskKey): Kind {
    (e: Event) =>
      (e.TasksStarted? && !RecordsNone(e.tasks, task)) || (e.TaskCompleted? && e.task == task)
  }

  /** No id after a completion, and after a start the last non-empty one in its
    list. */
  ghost predicate HasIdOf(taskIds: map<TaskKey, string>, event: Event, task: TaskKey) {
    if event.TasksStarted? then
      && task in taskIds
      && exists k :: LastRecorded(event.tasks, task, k) && taskIds[task] == event.tasks[k].taskId
    else task !in taskIds
  }

  lemma {:induction false} TaskIdStep(taskIds: map<TaskKey, string>, event: Event, task: TaskKey)
    ensures if Touching(task)(event) then HasIdOf(TaskIdsAfter(taskIds, event), event, task)
            else SameAt(task, TaskIdsAfter(taskIds, event), taskIds)
  {
    if event.TasksStarted? {
      if RecordsNone(event.tasks, task) {
        InsertKeepsOthers(taskIds, event.tasks, task);
      } else {
        var k := SomeRecordIsLast(event.tasks, task);
        InsertedIdIsLast(taskIds, event.tasks, task, k);
      }
    }
  }

  lemma SameIdOf(taskIds: map<TaskKey, string>, taskIds': map<TaskKey, string>, task: TaskKey)
    requires SameAt(task, taskIds', taskIds)
    ensures forall event :: HasIdOf(taskIds, event, task) ==> HasIdOf(taskIds', event, task)
  {}

  lemma {:induction false} UntouchedIdStays(tree: Tree, rec: Recovered, entries: seq<Entry<Event>>, task: TaskKey)
    requires Nowhere(entries, Touching(task))
    ensures SameAt(task, Replay(tree, rec, entries).taskIds, rec.taskIds)
    decreases |entries|
  {
    if entries != [] {
      var front := entries[..|entries| - 1];
      LastSplits(entries, Touching(task));
      UntouchedIdStays(tree, rec, front, task);
      TaskIdStep(Replay(tree, rec, front).taskIds, entries[|entries| - 1].event, task);
    }
  }

  /** An in-flight task has the last non-empty id journaled for it, unless its
    completion was journaled since. */
  lemma {:induction false} TaskIdIsLast(tree: Tree, rec: Recovered, entries: seq<Entry<Event>>, task: TaskKey)
    ensures forall i | IsLast(entries, Touching(task), i) ::
      HasIdOf(Replay(tree, rec, entries).taskIds, entries[i].event, task)
    ensures Nowhere(entries, Touching(task)) ==> SameAt(task, Replay(tree, rec, entries).taskIds, rec.taskIds)
    decreases |entries|
  {
    if Nowhere(entries, Touching(task)) {
      UntouchedIdStays(tree, rec, entries, task);
    } else {
      var front, last := entries[..|entries| - 1], entries[|entries| - 1].event;
      var before := Replay(tree, rec, front).taskIds;
      LastSplits(entries, Touching(task));
      TaskIdStep(before, last, task);
      if !Touching(task)(last) {
        TaskIdIsLast(tree, rec, front, task);
        SameIdOf(before, TaskIdsAfter(before, last), task);
      }
    }
  }

  // ------------------------------------------------------------------ the runs

  /** The entry creates the run as a sub-run, or completes it and it is not the
    root. */
  function Deciding(root: RunId, run: RunId): Kind {
    (e: Event) => (e.SubRunCreated? || (run != root && e.RunCompleted?)) && e.run == run
  }

  lemma RunDecided(tree: Tree, runs: map<RunId, RunState>, event: Event, run: RunId)
    ensures run in RunsAfter(tree, runs, event) <==>
      if Deciding(tree.root, run)(event) then event.SubRunCreated? else run in runs
  {}

  /** A run is there exactly if it was created and not completed since; the root
    stays when it completes. */
  lemma {:induction false} RunExistsIff(tree: Tree, rec: Recovered, entries: seq<Entry<Event>>, run: RunId)
    ensures forall i | IsLast(entries, Deciding(tree.root, run), i) ::
      run in Replay(tree, rec, entries).runs <==> entries[i].event.SubRunCreated?
    ensures Nowhere(entries, Deciding(tree.root, run)) ==>
      (run in Replay(tree, rec, entries).runs <==> run in rec.runs)
    decreases |entries|
  {
    if entries != [] {
      var front := entries[..|entries| - 1];
      RunExistsIff(tree, rec, front, run);
      LastSplits(entries, Deciding(tree.root, run));
      RunDecided(tree, Replay(tree, rec, front).runs, entries[|entries| - 1].event, run);
    }
  }

  /** A run that an entry creates has the payload of that entry, the items its
    flow gives it, and what the later entries do to them; creating it again
    changes nothing. */
  lemma {:induction false} RunSinceCreation(tree: Tree, rec: Recovered, entries: seq<Entry<Event>>, i: nat, run: RunId)
    requires i < |entries| && entries[i].event.SubRunCreated? && entries[i].event.run == run
    requires run !in Replay(tree, rec, entries[..i]).runs
    requires run == tree.root || Nowhere(entries[i + 1..], Completion(run))
    ensures var payload := entries[i].event.payload;
      var runs := Replay(tree, rec, entries).runs;
      && run in runs
      && runs[run] == RunAfter(tree.flow, RunState(run, payload, tree.flow.create(payload)), entries[i + 1..])
  {
    var upTo := Replay(tree, rec, entries[..i + 1]);
    assert entries[..i + 1][..i] == entries[..i];
    ReplayAppends(tree, rec, entries[..i + 1], entries[i + 1..]);
    assert entries == entries[..i + 1] + entries[i + 1..];
    RunEffect(tree, upTo, upTo, entries[i + 1..], run);
  }

  /** A run that was there from the start and is not dropped sees all entries. */
  lemma {:induction false} RunSinceStart(tree: Tree, rec: Recovered, entries: seq<Entry<Event>>, run: RunId)
    requires run in rec.runs
    requires run == tree.root || Nowhere(entries, Completion(run))
    ensures var runs := Replay(tree, rec, entries).runs;
      run in runs && runs[run] == RunAfter(tree.flow, rec.runs[run], entries)
  {
    RunEffect(tree, rec, rec, entries, run);
  }

  /** `views` leads from one state of the item to the next as the started tasks
    of the list that belong to it are applied, in list order. */
  ghost predicate Traces(flow: Flow, s: RunState, item: nat, tasks: seq<StartedTask>, views: seq<View>) {
    && |views| == |tasks| + 1
    && forall k | 0 <= k < |tasks| ::
         views[k + 1] ==
         if tasks[k].task.run == s.run && tasks[k].task.item == item
         then flow.apply(s.payload, item, views[k], ItemReplays.TaskStarted(tasks[k].task.step, tasks[k].attempt))
         else views[k]
  }

  ghost predicate StartsApplied(flow: Flow, s: RunState, item: nat, tasks: seq<StartedTask>, before: View,
                                after: View)
  {
    exists views: seq<View> ::
      Traces(flow, s, item, tasks, views) && views[0] == before && views[|tasks|] == after
  }

  lemma OneEventApplied(flow: Flow, payload: nat, item: nat, v: View, events: seq<ItemEvent>, event: ItemEvent)
    ensures AppliedItem(flow, payload, item, v, events + [event])
      == flow.apply(payload, item, AppliedItem(flow, payload, item, v, events), event)
  {
    assert (events + [event])[..|events|] == events;
  }

  lemma {:induction false} StartsTraced(flow: Flow, s: RunState, item: nat, tasks: seq<StartedTask>, before: View)
      returns (views: seq<View>)
    ensures Traces(flow, s, item, tasks, views) && views[0] == before
    ensures views[|tasks|] == AppliedItem(flow, s.payload, item, before, Starts(tasks, s.run, item))
    decreases |tasks|
  {
    if tasks == [] {
      views := [before];
    } else {
      var front, last := tasks[..|tasks| - 1], tasks[|tasks| - 1];
      var traced := StartsTraced(flow, s, item, front, before);
      OneEventApplied(flow, s.payload, item, before, Starts(front, s.run, item),
                      ItemReplays.TaskStarted(last.task.step, last.attempt));
      views := traced + [AppliedItem(flow, s.payload, item, before, Starts(tasks, s.run, item))];
      assert Starts(front, s.run, item) + [] == Starts(front, s.run, item);
      forall k | 0 <= k < |tasks| ensures tasks[k] == (if k < |front| then front[k] else last) {}
    }
  }

  /** What the run's items go through: nobody else's events, and each of its own
    once, in the order of the journal. */
  lemma {:induction false} EntryReachesItem(flow: Flow, s: RunState, event: Event, item: nat)
    requires item < |s.items|
    ensures var after := AppliedRun(flow, s, event);
      && after.run == s.run && after.payload == s.payload && |after.items| == |s.items|
      && match event
         case StepsNeeded(run, i, steps) =>
           after.items[item] ==
           if run == s.run && i == item
           then flow.apply(s.payload, item, s.items[item], ItemReplays.StepsNeeded(steps)) else s.items[item]
         case TaskCompleted(task, result) =>
           after.items[item] ==
           if task.run == s.run && task.item == item
           then flow.apply(s.payload, item, s.items[item], ItemReplays.TaskCompleted(task.step, result))
           else s.items[item]
         case TasksStarted(tasks) => StartsApplied(flow, s, item, tasks, s.items[item], after.items[item])
         case _ => after.items[item] == s.items[item]
  {
    match event
    case StepsNeeded(_, _, steps) =>
      OneEventApplied(flow, s.payload, item, s.items[item], [], ItemReplays.StepsNeeded(steps));
    case TaskCompleted(task, result) =>
      OneEventApplied(flow, s.payload, item, s.items[item], [], ItemReplays.TaskCompleted(task.step, result));
    case TasksStarted(tasks) =>
      var views := StartsTraced(flow, s, item, tasks, s.items[item]);
    case _ =>
  }
  // --------------------------------------------------- where a replay starts

  /** Full replay starts from the root run alone, created by the first entry. */
  lemma JournalReplayStarts(tree: Tree, entries: seq<Entry<Event>>)
    ensures entries == [] ==> RestoreFromJournal(tree, entries) == Err(NoEntries)
    ensures entries != [] && !(entries[0].event.RootRunCreated? && entries[0].event.run == tree.root) ==>
      RestoreFromJournal(tree, entries) == Err(NotRootCreation)
    ensures entries != [] && entries[0].event.RootRunCreated? && entries[0].event.run == tree.root ==>
      var payload := entries[0].event.payload;
      var root := RunState(tree.root, payload, tree.flow.create(payload));
      RestoreFromJournal(tree, entries)
        == Ok(Replay(tree, Recovered(map[tree.root := root], map[], {}, None, map[]), entries[1..]))
  {}

  lemma {:induction false} RebuiltRuns(list: seq<RunState>, run: RunId)
    ensures run in RebuildRuns(list) <==> exists i :: 0 <= i < |list| && list[i].run == run
    decreases |list|
  {
    if list != [] {
      var front := list[..|list| - 1];
      RebuiltRuns(front, run);
      if i :| 0 <= i < |front| && front[i].run == run {
        assert list[i].run == run;
      }
    }
  }

  /** A stored checkpoint is refused exactly for the reason it has: bytes that do
    not decode, another version, or no state of the root run. */
  lemma {:induction false} CheckpointAccepted(tree: Tree, stored: Stored, journal: seq<Entry<Event>>)
    ensures var r := RestoreFromCheckpoint(tree, stored, journal);
      match stored.bytes
      case Corrupt => r == Err(DecodeFailed)
      case Encoded(data) =>
        && (data.version != 1 ==> r == Err(VersionMismatch(1, data.version)))
        && (data.version == 1 && (forall i | 0 <= i < |data.runs| :: data.runs[i].run != tree.root) ==>
              r == Err(RootMissing))
        && (data.version == 1 && (exists i :: 0 <= i < |data.runs| && data.runs[i].run == tree.root) ==> r.Ok?)
  {
    if stored.bytes.Encoded? {
      RebuiltRuns(stored.bytes.data.runs, tree.root);
    }
  }
}
