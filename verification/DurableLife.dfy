/** What the maps of an executor hold within one process life: the recovered
  subflows not matched yet, the recovered task ids not dispatched again, and the
  tasks dispatched in this life. */
module DurableLife {
  import opened Basics
  import opened Checkpoint
  import opened CheckpointReplay
  import opened DurableRun
  import opened Journals
  import opened Records

  /** No crash and no recovery on the way. */
  predicate OneLife(steps: seq<Step>) {
    forall i | 0 <= i < |steps| :: !steps[i].Crash? && !steps[i].Recover?
  }

  predicate Dispatches(event: Event, task: TaskKey) {
    event.TasksStarted? && exists k :: 0 <= k < |event.tasks| && event.tasks[k].task == task
  }

  ghost predicate DispatchedIn(entries: seq<Entry<Event>>, task: TaskKey) {
    exists i :: 0 <= i < |entries| && Dispatches(entries[i].event, task)
  }

  lemma {:induction false} TaskIdsDependOnTaskIds(tree: Tree, rec: Recovered, rec': Recovered,
                                                  entries: seq<Entry<Event>>)
    requires rec.taskIds == rec'.taskIds
    ensures Replay(tree, rec, entries).taskIds == Replay(tree, rec', entries).taskIds
    decreases |entries|
  {
    if entries != [] {
      TaskIdsDependOnTaskIds(tree, rec, rec', entries[..|entries| - 1]);
    }
  }

  /** What the journal of `w'` has after that of `w`. */
  ghost function Written(w: World, w': World): seq<Entry<Event>>
    requires |w.journal| <= |w'.journal|
  {
    w'.journal[|w.journal|..]
  }

  ghost predicate MapsKept(w: World, steps: seq<Step>, w': World)
    requires w.executor.Some? && w'.executor.Some? && |w.journal| <= |w'.journal|
  {
    var x, x' := w.executor.value, w'.executor.value;
    && (forall k :: k in x'.recoveredSubflows <==> k in x.recoveredSubflows && MatchSubflow(k) !in steps)
    && Submap(x'.recoveredSubflows, x.recoveredSubflows)
    && (forall t :: t in x'.unsent <==> t in x.unsent && !DispatchedIn(Written(w, w'), t))
    && Submap(x'.unsent, x.unsent)
  }

  /** The in-flight map is what replaying the entries of this life gives. */
  ghost predicate InFlightReplays(w: World, w': World)
    requires w.executor.Some? && w'.executor.Some? && |w.journal| <= |w'.journal|
  {
    var start := Recovered(map[], map[], {}, None, w.executor.value.inFlight);
    w'.executor.value.inFlight == Replay(w.tree, start, Written(w, w')).taskIds
  }

  lemma StepKeepsMaps(w: World, step: Step)
    requires Enabled(w, step) && w.executor.Some? && Apply(w, step).executor.Some? && OneLife([step])
    ensures w.journal <= Apply(w, step).journal && Apply(w, step).tree == w.tree
    ensures MapsKept(w, [step], Apply(w, step)) && InFlightReplays(w, Apply(w, step))
  {
    assert !step.Crash? && !step.Recover? by { assert [step][0] == step; }
    var w' := Apply(w, step);
    var start := Recovered(map[], map[], {}, None, w.executor.value.inFlight);
    if step.Write? {
      var entry := Entry(step.sequence, step.event);
      assert Written(w, w') == [entry];
      assert [entry][..0] == [];
      assert Replay(w.tree, start, [entry]) == ReplayEvent(w.tree, start, entry.event);
      forall t ensures t in TaskIdsOf(if step.event.TasksStarted? then step.event.tasks else [])
          <==> DispatchedIn([entry], t)
      {
        if DispatchedIn([entry], t) { assert Dispatches([entry][0].event, t); }
        if Dispatches(step.event, t) { assert Dispatches([entry][0].event, t); }
      }
    } else {
      assert Written(w, w') == [];
    }
  }
  lemma DispatchesAdd(a: seq<Entry<Event>>, b: seq<Entry<Event>>, task: TaskKey)
    ensures DispatchedIn(a + b, task) <==> DispatchedIn(a, task) || DispatchedIn(b, task)
  {
    if DispatchedIn(a + b, task) {
      var i :| 0 <= i < |a + b| && Dispatches((a + b)[i].event, task);
      assert if i < |a| then Dispatches(a[i].event, task) else Dispatches(b[i - |a|].event, task);
    }
    if DispatchedIn(a, task) {
      var i :| 0 <= i < |a| && Dispatches(a[i].event, task);
      assert Dispatches((a + b)[i].event, task);
    }
    if DispatchedIn(b, task) {
      var i :| 0 <= i < |b| && Dispatches(b[i].event, task);
      assert Dispatches((a + b)[|a| + i].event, task);
    }
  }

  lemma MapsCompose(w: World, step: Step, middle: World, rest: seq<Step>, w': World)
    requires w.executor.Some? && middle.executor.Some? && w'.executor.Some?
    requires w.journal <= middle.journal <= w'.journal
    requires MapsKept(w, [step], middle) && MapsKept(middle, rest, w')
    ensures MapsKept(w, [step] + rest, w')
  {
    assert Written(w, w') == Written(w, middle) + Written(middle, w');
    forall t ensures DispatchedIn(Written(w, w'), t)
        <==> DispatchedIn(Written(w, middle), t) || DispatchedIn(Written(middle, w'), t)
    {
      DispatchesAdd(Written(w, middle), Written(middle, w'), t);
    }
    forall k ensures MatchSubflow(k) in [step] + rest <==> MatchSubflow(k) in [step] || MatchSubflow(k) in rest {}
  }

  lemma InFlightComposes(w: World, middle: World, w': World)
    requires w.executor.Some? && middle.executor.Some? && w'.executor.Some?
    requires w.journal <= middle.journal <= w'.journal && w.tree == middle.tree
    requires InFlightReplays(w, middle) && InFlightReplays(middle, w')
    ensures InFlightReplays(w, w')
  {
    assert Written(w, w') == Written(w, middle) + Written(middle, w');
    var start := Recovered(map[], map[], {}, None, w.executor.value.inFlight);
    var next := Recovered(map[], map[], {}, None, middle.executor.value.inFlight);
    ReplayAppends(w.tree, start, Written(w, middle), Written(middle, w'));
    TaskIdsDependOnTaskIds(w.tree, Replay(w.tree, start, Written(w, middle)), next, Written(middle, w'));
  }

  /** Within one process life the recovered subflows only shrink, by exactly the
    keys that are matched, and the recovered task ids by exactly the tasks that
    are dispatched again; a new subflow is never added.  The tasks in flight are
    those that the entries of this life started and did not complete. */
  lemma {:induction false} LifeKeepsMaps(w: World, steps: seq<Step>, w': World)
    requires IsRun(w, steps, w') && OneLife(steps) && w.executor.Some? && w'.executor.Some?
    ensures w.journal <= w'.journal && w'.tree == w.tree
    ensures MapsKept(w, steps, w') && InFlightReplays(w, w')
    decreases |steps|
  {
    if steps == [] {
      assert Written(w, w') == [];
    } else {
      var step, rest := steps[0], steps[1..];
      var middle := Apply(w, step);
      assert middle.executor.Some? by {
        if rest != [] { assert rest[0] == steps[1]; }
      }
      StepKeepsMaps(w, step);
      LifeKeepsMaps(middle, rest, w');
      assert [step] + rest == steps;
      MapsCompose(w, step, middle, rest, w');
      InFlightComposes(w, middle, w');
    }
  }

  /** A life begins with what recovery rebuilt, and with nothing in flight. */
  lemma LifeBegins(w: World)
    requires Enabled(w, Recover)
    ensures Apply(w, Recover).executor.Some?
    ensures var x := Apply(w, Recover).executor.value;
      x.recoveredSubflows == Restore(w).value.subflows && x.unsent == Restore(w).value.taskIds
      && x.inFlight == map[] && x.opening == Restore(w).value.needing
  {}
}
