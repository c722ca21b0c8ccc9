/** The live state of an item against what replaying its journal entries gives.
  A live executor initializes an item from the steps its output needs and
  journals the steps that turned out to be needed; replay starts from that list.
  Both then complete tasks in the same way.

  In the first life the two always agree.  After a recovery the executor
  initializes again, and they agree exactly if no step waits on a stale set of
  dependencies. */
module ItemReplays {
  import opened Basics
  import opened ItemStates

  // ------------------------------------------------------ states as functions

  /** The least set that contains what was needed and the step and is closed
    under the pending dependencies of everything that is evaluated. */
  ghost function LeastNeeded(needs: Needs, v: View, step: nat): set<nat> {
    set x | x in Upto(|v.waitingOn|) && forall c: set<nat> | ClosedOver(needs, v, step, c) :: x in c
  }

  ghost function WaitersOf(waitingOn: seq<set<nat>>): seq<set<nat>> {
    seq(|waitingOn|, (i: nat) => WaitersFor(waitingOn, i))
  }

  /** After `add_or_update_needed`. */
  ghost function Added(needs: Needs, v: View, step: nat): View {
    var needed := LeastNeeded(needs, v, step);
    var waitingOn := seq(|v.waitingOn|, (i: nat) requires i < |v.waitingOn| =>
      if i == step || i in needed - v.needed then Pending(needs, v, i) else v.waitingOn[i]);
    v.(needed := needed, waitingOn := waitingOn, waiters := WaitersOf(waitingOn))
  }

  ghost function AddAll(needs: Needs, v: View, steps: seq<nat>): View {
    if steps == [] then v else Added(needs, AddAll(needs, v, steps[..|steps| - 1]), steps[|steps| - 1])
  }

  /** After `mark_completed`. */
  ghost function Marked(v: View, step: nat, result: Outcome): View
    requires step < |v.results|
  {
    if step in v.completed then v
    else
      var waitingOn := seq(|v.waitingOn|, (i: nat) requires i < |v.waitingOn| => v.waitingOn[i] - {step});
      v.(completed := v.completed + {step}, results := v.results[step := Some(result)],
         waitingOn := waitingOn, waiters := WaitersOf(waitingOn))
  }

  ghost function Unblocked(v: View, step: nat): set<nat> {
    if step in v.completed then {} else set w: nat | w < |v.waitingOn| && v.waitingOn[w] == {step} :: w
  }

  /** After `complete_task_and_get_ready`. */
  ghost function Finished(needs: Needs, v: View, step: nat, result: Outcome): View
    requires step < |v.results|
  {
    AddAll(needs, Marked(v, step, result), Ascending(Unblocked(v, step), |v.waitingOn|))
  }

  // ---------------------------------------------------------------- the methods

  lemma AddedIs(needs: Needs, n: nat, v: View, step: nat, v': View)
    requires Consistent(n, v) && Consistent(n, v') && step < n
    requires v'.completed == v.completed && v'.results == v.results && v'.attempts == v.attempts
    requires ClosedOver(needs, v, step, v'.needed)
    requires forall c: set<nat> | ClosedOver(needs, v, step, c) :: v'.needed <= c
    requires forall i: nat | i < n ::
      v'.waitingOn[i] == if i == step || i in v'.needed - v.needed then Pending(needs, v, i) else v.waitingOn[i]
    ensures v' == Added(needs, v, step)
  {
    var least := LeastNeeded(needs, v, step);
    assert v'.needed == least;
    var w := Added(needs, v, step);
    assert v'.waitingOn == w.waitingOn;
    assert v'.waiters == w.waiters;
  }

  /** The unified initialization: live with the steps the output needs, in
    replay with the journaled list. */
  method InitializeWithSteps(item: ItemState, steps: seq<nat>)
    requires item.Valid() && forall s | s in steps :: s < item.numSteps
    modifies item
    ensures item.Valid() && item.State() == AddAll(item.needs, old(item.State()), steps)
    ensures old(WaitsOnUnfinished(item.State())) ==> WaitsOnUnfinished(item.State())
  {
    ghost var start := item.State();
    for i := 0 to |steps|
      invariant item.Valid() && item.State() == AddAll(item.needs, start, steps[..i])
      invariant WaitsOnUnfinished(start) ==> WaitsOnUnfinished(item.State())
    {
      ghost var v := item.State();
      assert steps[i] in steps;
      var newly := item.AddOrUpdateNeeded(steps[i]);
      AddedIs(item.needs, item.numSteps, v, steps[i], item.State());
      assert steps[..i + 1][..i] == steps[..i];
    }
    assert steps[..|steps|] == steps;
  }

  lemma MarkedIs(n: nat, v: View, step: nat, result: Outcome, v': View)
    requires Consistent(n, v) && Consistent(n, v') && step < n && step !in v.completed
    requires v'.completed == v.completed + {step} && v'.results == v.results[step := Some(result)]
    requires v'.needed == v.needed && v'.attempts == v.attempts
    requires forall i | 0 <= i < n :: v'.waitingOn[i] == v.waitingOn[i] - {step}
    ensures v' == Marked(v, step, result)
  {
    var w := Marked(v, step, result);
    assert v'.waitingOn == w.waitingOn;
    assert v'.waiters == w.waiters;
  }

  /** What completing a task must do: record the result once; take the step off
    every waiting set; evaluate again, with the new result, exactly the steps that
    waited on it alone and those newly needed because of it; need nothing more. */
  ghost predicate Completes(needs: Needs, v: View, step: nat, result: Outcome, w: View)
    requires step < |v.results|
  {
    if step in v.completed then w == v
    else
      var last := set u: nat | u < |v.waitingOn| && v.waitingOn[u] == {step} :: u;
      && w.completed == v.completed + {step} && w.results == v.results[step := Some(result)]
      && w.attempts == v.attempts && |w.waitingOn| == |v.waitingOn|
      && (forall u: nat | u < |v.waitingOn| ::
            w.waitingOn[u] ==
            if u in last || u in w.needed - v.needed then needs(u, w.completed, w.results) - w.completed
            else v.waitingOn[u] - {step})
      && NeedsClosed(v.needed, last, w, w.needed)
      && forall c: set<nat> | EvaluationClosed(needs, v.needed, last, w, c) :: w.needed <= c
  }

  /** What is evaluated waits on needed steps only. */
  ghost predicate NeedsClosed(needed: set<nat>, evaluated: set<nat>, w: View, c: set<nat>) {
    && needed <= c && evaluated <= c
    && forall x | x in c && (x in evaluated || x !in needed) && x < |w.waitingOn| :: w.waitingOn[x] <= c
  }

  ghost predicate EvaluationClosed(needs: Needs, needed: set<nat>, evaluated: set<nat>, w: View, c: set<nat>) {
    && needed <= c && evaluated <= c
    && forall x | x in c && (x in evaluated || x !in needed) :: needs(x, w.completed, w.results) - w.completed <= c
  }

  lemma {:induction false} MarkedConsistent(n: nat, v: View, step: nat, result: Outcome)
    requires Consistent(n, v) && step < n
    ensures Consistent(n, Marked(v, step, result))
  {}

  lemma FinishedCompletes(needs: Needs, n: nat, v: View, step: nat, result: Outcome)
    requires NeedsInRange(n, needs) && Consistent(n, v) && step < n
    ensures Completes(needs, v, step, result, Finished(needs, v, step, result))
  {
    var last, m := Unblocked(v, step), Marked(v, step, result);
    var steps := Ascending(last, n);
    MarkedConsistent(n, v, step, result);
    AscendingElements(last, n);
    assert forall s | s in steps :: s < n;
    AddAllIs(needs, n, m, steps);
    assert Elements(steps) == last;
    var w := AddAll(needs, m, steps);
    if step !in v.completed {
      forall c: set<nat> | EvaluationClosed(needs, v.needed, last, w, c) ensures w.needed <= c {
        assert ClosedAll(needs, m, last, c);
      }
    } else {
      AscendingNone(n);
    }
  }

  /** Complete a task, re-evaluate what it unblocked, and return what of that is
    ready now. */
  method CompleteAndGetReady(item: ItemState, step: nat, result: Outcome) returns (ready: set<nat>)
    requires item.Valid() && step < item.numSteps
    modifies item
    ensures item.Valid() && item.State() == Finished(item.needs, old(item.State()), step, result)
    ensures Completes(item.needs, old(item.State()), step, result, item.State())
    ensures ready == Unblocked(old(item.State()), step) * item.SchedulableSteps()
    ensures old(WaitsOnUnfinished(item.State())) ==> WaitsOnUnfinished(item.State())
  {
    ghost var v := item.State();
    var unblocked := item.MarkCompleted(step, result);
    if step !in v.completed {
      MarkedIs(item.numSteps, v, step, result, item.State());
    }
    assert unblocked == Unblocked(v, step);
    AscendingElements(unblocked, item.numSteps);
    InitializeWithSteps(item, Ascending(unblocked, item.numSteps));
    FinishedCompletes(item.needs, item.numSteps, v, step, result);
    ready := unblocked * item.SchedulableSteps();
  }

  // ------------------------------------------------- what the functions compute

  ghost predicate NeedsInRange(n: nat, needs: Needs) {
    forall x: nat, c, r | x < n :: Below(needs(x, c, r), n)
  }

  ghost predicate SameProgress(v: View, v': View) {
    v'.completed == v.completed && v'.results == v.results && v'.attempts == v.attempts
  }

  /** `c` contains what was needed and the given steps, and with every step
    (re)evaluated all the steps it is pending on. */
  ghost predicate ClosedAll(needs: Needs, v: View, steps: set<nat>, c: set<nat>) {
    && v.needed <= c && steps <= c
    && forall x | x in c && (x in steps || x !in v.needed) :: Pending(needs, v, x) <= c
  }

  lemma LeastIsClosed(needs: Needs, n: nat, v: View, step: nat)
    requires NeedsInRange(n, needs) && Consistent(n, v) && step < n
    ensures ClosedOver(needs, v, step, LeastNeeded(needs, v, step)) && Below(LeastNeeded(needs, v, step), n)
  {
    var least := LeastNeeded(needs, v, step);
    forall x: nat | x in v.needed || x == step ensures x in least {
      assert x in Upto(|v.waitingOn|);
      forall c: set<nat> | ClosedOver(needs, v, step, c) ensures x in c {}
    }
    assert v.needed <= least;
    forall x | x in least && (x == step || x !in v.needed) ensures Pending(needs, v, x) <= least {
      forall y | y in Pending(needs, v, x) ensures y in least {
        forall c: set<nat> | ClosedOver(needs, v, step, c) ensures y in c {
          assert x in c;
        }
      }
    }
  }

  lemma AddedFacts(needs: Needs, n: nat, v: View, step: nat)
    requires NeedsInRange(n, needs) && Consistent(n, v) && step < n
    ensures Consistent(n, Added(needs, v, step)) && SameProgress(v, Added(needs, v, step))
  {
    LeastIsClosed(needs, n, v, step);
    var w := Added(needs, v, step);
    forall i: nat | i < n ensures Below(w.waitingOn[i], n) {}
  }

  /** `AddAll` in one go: the least closed set, and the waiting sets of exactly
    the evaluated steps. */
  ghost predicate IsAddAll(needs: Needs, n: nat, v: View, steps: set<nat>, w: View) {
    && Consistent(n, w) && SameProgress(v, w) && |v.waitingOn| == n
    && ClosedAll(needs, v, steps, w.needed)
    && (forall c: set<nat> | ClosedAll(needs, v, steps, c) :: w.needed <= c)
    && (forall i: nat | i < n ::
          w.waitingOn[i] == if i in steps || i in w.needed - v.needed then Pending(needs, v, i) else v.waitingOn[i])
  }

  lemma {:induction false} AddAllIs(needs: Needs, n: nat, v: View, steps: seq<nat>)
    requires NeedsInRange(n, needs) && Consistent(n, v) && forall s | s in steps :: s < n
    ensures IsAddAll(needs, n, v, Elements(steps), AddAll(needs, v, steps))
    decreases |steps|
  {
    if steps != [] {
      var front, last := steps[..|steps| - 1], steps[|steps| - 1];
      assert steps == front + [last];
      assert forall s | s in front :: s in steps;
      AddAllIs(needs, n, v, front);
      assert Elements(steps) == Elements(front) + {last};
      OneMoreStep(needs, n, v, Elements(front), AddAll(needs, v, front), last);
    }
  }

  lemma OneMoreStep(needs: Needs, n: nat, v: View, steps: set<nat>, u: View, last: nat)
    requires NeedsInRange(n, needs) && Consistent(n, v) && IsAddAll(needs, n, v, steps, u) && last < n
    ensures IsAddAll(needs, n, v, steps + {last}, Added(needs, u, last))
  {
    var w := Added(needs, u, last);
    LeastIsClosed(needs, n, u, last);
    AddedFacts(needs, n, u, last);
    forall c: set<nat> | ClosedAll(needs, v, steps + {last}, c) ensures w.needed <= c {
      assert ClosedAll(needs, v, steps, c);
      assert ClosedOver(needs, u, last, c) by {
        forall x | x in c && (x == last || x !in u.needed) ensures Pending(needs, u, x) <= c {
          assert Pending(needs, u, x) == Pending(needs, v, x);
        }
      }
    }
    StaysClosed(needs, n, v, steps, u, last);
  }

  lemma StaysClosed(needs: Needs, n: nat, v: View, steps: set<nat>, u: View, last: nat)
    requires NeedsInRange(n, needs) && Consistent(n, v) && IsAddAll(needs, n, v, steps, u) && last < n
    ensures ClosedAll(needs, v, steps + {last}, Added(needs, u, last).needed)
  {
    var w := Added(needs, u, last);
    LeastIsClosed(needs, n, u, last);
    forall x | x in w.needed && (x in steps + {last} || x !in v.needed) ensures Pending(needs, v, x) <= w.needed {
      assert Pending(needs, u, x) == Pending(needs, v, x);
      if x != last && x in u.needed {
        assert Pending(needs, v, x) <= u.needed;
      }
    }
  }

  /** The description determines the state. */
  lemma AddAllUnique(needs: Needs, n: nat, v: View, steps: set<nat>, w: View, w': View)
    requires IsAddAll(needs, n, v, steps, w) && IsAddAll(needs, n, v, steps, w')
    ensures w == w'
  {
    assert w.needed == w'.needed;
    assert w.waitingOn == w'.waitingOn;
    assert w.waiters == w'.waiters;
  }

  /** Neither the order of the list nor repetitions in it matter. */
  lemma AddAllIgnoresOrder(needs: Needs, n: nat, v: View, steps: seq<nat>, steps': seq<nat>)
    requires NeedsInRange(n, needs) && Consistent(n, v) && forall s | s in steps :: s < n
    requires Elements(steps) == Elements(steps')
    ensures AddAll(needs, v, steps) == AddAll(needs, v, steps')
  {
    forall s | s in steps' ensures s < n { assert s in Elements(steps); }
    AddAllIs(needs, n, v, steps);
    AddAllIs(needs, n, v, steps');
    AddAllUnique(needs, n, v, Elements(steps), AddAll(needs, v, steps), AddAll(needs, v, steps'));
  }

  // ----------------------------------------------------------------- re-reading

  /** The stored waiting set of the step is what it would be if it were
    evaluated now. */
  ghost predicate UpToDate(needs: Needs, v: View, x: nat)
    requires x < |v.waitingOn|
  {
    v.waitingOn[x] == Pending(needs, v, x)
  }

  /** Initializing live and replaying the journaled list give the same state if
    and only if every step that was needed before and is not among the given
    ones waits on an up-to-date set. */
  lemma JournaledInitializationIff(needs: Needs, n: nat, v: View, steps: set<nat>)
    requires NeedsInRange(n, needs) && Consistent(n, v) && WaitsOnUnfinished(v) && Below(steps, n)
    ensures var live := AddAll(needs, v, Ascending(steps, n));
      AddAll(needs, v, Ascending(live.needed, n)) == live
      <==> forall x | x in v.needed && x !in steps :: UpToDate(needs, v, x)
  {
    var live := Initialized(needs, n, v, steps);
    var replay := Initialized(needs, n, v, live.needed);
    if forall x | x in v.needed && x !in steps :: UpToDate(needs, v, x) {
      UpToDateReplays(needs, n, v, steps, live, replay);
    } else {
      var x :| x in v.needed && x !in steps && !UpToDate(needs, v, x);
      assert x in live.needed && live.waitingOn[x] == v.waitingOn[x];
      assert replay.waitingOn[x] == Pending(needs, v, x);
    }
  }

  lemma {:induction false} Initialized(needs: Needs, n: nat, v: View, steps: set<nat>) returns (w: View)
    requires NeedsInRange(n, needs) && Consistent(n, v) && Below(steps, n)
    ensures w == AddAll(needs, v, Ascending(steps, n)) && IsAddAll(needs, n, v, steps, w)
  {
    AscendingFits(steps, n);
    AscendingElements(steps, n);
    w := AddAll(needs, v, Ascending(steps, n));
    AddAllIs(needs, n, v, Ascending(steps, n));
  }

  lemma UpToDateReplays(needs: Needs, n: nat, v: View, steps: set<nat>, live: View, replay: View)
    requires Consistent(n, v) && WaitsOnUnfinished(v)
    requires IsAddAll(needs, n, v, steps, live) && IsAddAll(needs, n, v, live.needed, replay)
    requires forall x | x in v.needed && x !in steps :: UpToDate(needs, v, x)
    ensures replay == live
  {
    assert ClosedAll(needs, v, live.needed, live.needed) by {
      forall x | x in live.needed ensures Pending(needs, v, x) <= live.needed {
        if x in v.needed && x !in steps { assert UpToDate(needs, v, x); }
      }
    }
    assert replay.needed == live.needed;
    forall i: nat | i < n ensures replay.waitingOn[i] == live.waitingOn[i] {
      if i in v.needed && i !in steps { assert UpToDate(needs, v, i); }
    }
    assert replay.waitingOn == live.waitingOn;
    assert replay.waiters == live.waiters;
  }

  /** An initialization that is not journaled leaves the state as replay has it
    if and only if its steps are needed already and wait on up-to-date sets. */
  lemma UnjournaledInitializationIff(needs: Needs, n: nat, v: View, steps: set<nat>)
    requires NeedsInRange(n, needs) && Consistent(n, v) && WaitsOnUnfinished(v) && Below(steps, n)
    ensures AddAll(needs, v, Ascending(steps, n)) == v
       <==> steps <= v.needed && forall x | x in steps :: UpToDate(needs, v, x)
  {
    var live := Initialized(needs, n, v, steps);
    if live == v {
      forall x | x in steps ensures x in v.needed && UpToDate(needs, v, x) { assert x in live.needed; }
    }
    if steps <= v.needed && forall x | x in steps :: UpToDate(needs, v, x) {
      assert ClosedAll(needs, v, steps, v.needed) by {
        forall x | x in steps ensures Pending(needs, v, x) <= v.needed { assert UpToDate(needs, v, x); }
      }
      assert live.needed == v.needed;
      assert live.waitingOn == v.waitingOn;
      assert live.waiters == v.waiters;
    }
  }

  // ------------------------------------------------------------ whole histories

  datatype ItemEvent =
    | StepsNeeded(steps: seq<nat>)
    | TaskStarted(step: nat, attempt: nat)
    | TaskCompleted(step: nat, result: Outcome)

  /** What a live executor does to an item.  A recovered sub-run is initialized
    without journaling it. */
  datatype LiveStep =
    | Initialize(steps: set<nat>, journaled: bool)
    | Start(step: nat)
    | Complete(step: nat, result: Outcome)

  ghost predicate InRange(n: nat, l: LiveStep) {
    match l
    case Initialize(steps, _) => Below(steps, n)
    case Start(step) => step < n
    case Complete(step, _) => step < n
  }

  ghost predicate EventInRange(n: nat, e: ItemEvent) {
    match e
    case StepsNeeded(steps) => forall s | s in steps :: s < n
    case TaskStarted(step, _) => step < n
    case TaskCompleted(step, _) => step < n
  }

  ghost function Replayed(needs: Needs, n: nat, v: View, e: ItemEvent): View
    requires Consistent(n, v) && EventInRange(n, e)
  {
    match e
    case StepsNeeded(steps) => AddAll(needs, v, steps)
    case TaskStarted(step, attempt) => v.(attempts := v.attempts[step := Max(v.attempts[step], attempt)])
    case TaskCompleted(step, result) => Finished(needs, v, step, result)
  }

  ghost function Live(needs: Needs, n: nat, v: View, l: LiveStep): View
    requires Consistent(n, v) && InRange(n, l)
  {
    match l
    case Initialize(steps, _) => AddAll(needs, v, Ascending(steps, n))
    case Start(step) => v.(attempts := v.attempts[step := v.attempts[step] + 1])
    case Complete(step, result) => Finished(needs, v, step, result)
  }

  /** The entry a live step journals; nothing for an empty list of needed steps. */
  ghost function EventOf(needs: Needs, n: nat, v: View, l: LiveStep): Option<ItemEvent>
    requires Consistent(n, v) && InRange(n, l)
  {
    match l
    case Initialize(_, journaled) =>
      var needed := Live(needs, n, v, l).needed;
      if journaled && needed != {} then Some(StepsNeeded(Ascending(needed, n))) else None
    case Start(step) => Some(TaskStarted(step, v.attempts[step] + 1))
    case Complete(step, result) => Some(TaskCompleted(step, result))
  }

  /** The condition under which a step and its entry do the same. */
  ghost predicate Harmless(needs: Needs, n: nat, v: View, l: LiveStep)
    requires Consistent(n, v)
  {
    match l
    case Initialize(steps, true) => forall x | x in v.needed && x !in steps :: UpToDate(needs, v, x)
    case Initialize(steps, false) =>
      steps <= v.needed && forall x | x in steps && x in v.needed :: UpToDate(needs, v, x)
    case _ => true
  }

  ghost predicate Sound(n: nat, v: View) {
    Consistent(n, v) && WaitsOnUnfinished(v)
  }

  lemma {:induction false} MarkedSound(n: nat, v: View, step: nat, result: Outcome)
    requires Sound(n, v) && step < n
    ensures Sound(n, Marked(v, step, result))
  {
    if step !in v.completed {
      var w := Marked(v, step, result);
      forall x | x in w.needed && x < |w.waitingOn| ensures w.waitingOn[x] <= w.needed - w.completed {
        assert v.waitingOn[x] <= v.needed - v.completed;
      }
    }
  }

  lemma AddAllSound(needs: Needs, n: nat, v: View, steps: seq<nat>)
    requires NeedsInRange(n, needs) && Sound(n, v) && forall s | s in steps :: s < n
    ensures Sound(n, AddAll(needs, v, steps))
  {
    AddAllIs(needs, n, v, steps);
    var w := AddAll(needs, v, steps);
    forall x | x in w.needed && x < |w.waitingOn| ensures w.waitingOn[x] <= w.needed - w.completed {
      if x in v.needed { assert v.waitingOn[x] <= v.needed - v.completed; }
    }
  }

  lemma LiveSound(needs: Needs, n: nat, v: View, l: LiveStep)
    requires NeedsInRange(n, needs) && Sound(n, v) && InRange(n, l)
    ensures Sound(n, Live(needs, n, v, l))
    ensures EventOf(needs, n, v, l).Some? ==> EventInRange(n, EventOf(needs, n, v, l).value)
  {
    match l {
      case Initialize(steps, _) =>
        AscendingElements(steps, n);
        AddAllSound(needs, n, v, Ascending(steps, n));
        AscendingElements(Live(needs, n, v, l).needed, n);
      case Complete(step, result) =>
        MarkedSound(n, v, step, result);
        AscendingElements(Unblocked(v, step), n);
        AddAllSound(needs, n, Marked(v, step, result), Ascending(Unblocked(v, step), n));
      case _ =>
    }
  }

  /** The state that replay reaches from `v` with what `l` journals. */
  ghost function Journaled(needs: Needs, n: nat, v: View, l: LiveStep): View
    requires NeedsInRange(n, needs) && Sound(n, v) && InRange(n, l)
  {
    LiveSound(needs, n, v, l);
    var e := EventOf(needs, n, v, l);
    if e.Some? then Replayed(needs, n, v, e.value) else v
  }

  lemma NothingNeeded(needs: Needs, n: nat, v: View, steps: set<nat>)
    requires NeedsInRange(n, needs) && Sound(n, v) && Below(steps, n)
    requires AddAll(needs, v, Ascending(steps, n)).needed == {}
    ensures AddAll(needs, v, Ascending(steps, n)) == v && v.needed == {}
  {
    var live := Initialized(needs, n, v, steps);
    UnjournaledInitializationIff(needs, n, v, steps);
  }

  lemma JournaledReplaysIff(needs: Needs, n: nat, v: View, l: LiveStep)
    requires NeedsInRange(n, needs) && Sound(n, v) && InRange(n, l) && l.Initialize? && l.journaled
    ensures Journaled(needs, n, v, l) == Live(needs, n, v, l) <==> Harmless(needs, n, v, l)
  {
    LiveSound(needs, n, v, l);
    if Live(needs, n, v, l).needed == {} {
      NothingNeeded(needs, n, v, l.steps);
    } else {
      JournaledInitializationIff(needs, n, v, l.steps);
    }
  }

  /** A step and its journal entry do the same if and only if it is harmless. */
  lemma StepReplaysIff(needs: Needs, n: nat, v: View, l: LiveStep)
    requires NeedsInRange(n, needs) && Sound(n, v) && InRange(n, l)
    ensures Journaled(needs, n, v, l) == Live(needs, n, v, l) <==> Harmless(needs, n, v, l)
  {
    LiveSound(needs, n, v, l);
    match l {
      case Initialize(steps, true) => JournaledReplaysIff(needs, n, v, l);
      case Initialize(steps, false) => UnjournaledInitializationIff(needs, n, v, steps);
      case _ =>
    }
  }

  lemma ReplayedSound(needs: Needs, n: nat, v: View, e: ItemEvent)
    requires NeedsInRange(n, needs) && Sound(n, v) && EventInRange(n, e)
    ensures Sound(n, Replayed(needs, n, v, e))
  {
    match e {
      case StepsNeeded(steps) => AddAllSound(needs, n, v, steps);
      case TaskCompleted(step, result) => LiveSound(needs, n, v, Complete(step, result));
      case _ =>
    }
  }

  ghost predicate AllInRange(n: nat, steps: seq<LiveStep>) {
    forall i | 0 <= i < |steps| :: InRange(n, steps[i])
  }

  /** The live state after a history that starts at `v`. */
  ghost function LiveAfter(needs: Needs, n: nat, v: View, steps: seq<LiveStep>): (r: View)
    requires NeedsInRange(n, needs) && Sound(n, v) && AllInRange(n, steps)
    ensures Sound(n, r)
  {
    if steps == [] then v
    else
      var front := LiveAfter(needs, n, v, steps[..|steps| - 1]);
      LiveSound(needs, n, front, steps[|steps| - 1]);
      Live(needs, n, front, steps[|steps| - 1])
  }

  /** The state that replaying the entries journaled along the history gives. */
  ghost function ReplayAfter(needs: Needs, n: nat, v: View, steps: seq<LiveStep>): (r: View)
    requires NeedsInRange(n, needs) && Sound(n, v) && AllInRange(n, steps)
    ensures Sound(n, r)
  {
    if steps == [] then v
    else
      var front, last := steps[..|steps| - 1], steps[|steps| - 1];
      var live, replay := LiveAfter(needs, n, v, front), ReplayAfter(needs, n, v, front);
      LiveSound(needs, n, live, last);
      var e := EventOf(needs, n, live, last);
      if e.None? then replay
      else
        ReplayedSound(needs, n, replay, e.value);
        Replayed(needs, n, replay, e.value)
  }

  ghost predicate AgreeAt(needs: Needs, n: nat, v: View, steps: seq<LiveStep>, k: nat)
    requires NeedsInRange(n, needs) && Sound(n, v) && AllInRange(n, steps) && k <= |steps|
  {
    ReplayAfter(needs, n, v, steps[..k]) == LiveAfter(needs, n, v, steps[..k])
  }

  ghost predicate HarmlessAt(needs: Needs, n: nat, v: View, steps: seq<LiveStep>, k: nat)
    requires NeedsInRange(n, needs) && Sound(n, v) && AllInRange(n, steps) && k < |steps|
  {
    Harmless(needs, n, LiveAfter(needs, n, v, steps[..k]), steps[k])
  }

  lemma AgreementStep(needs: Needs, n: nat, v: View, steps: seq<LiveStep>, k: nat)
    requires NeedsInRange(n, needs) && Sound(n, v) && AllInRange(n, steps) && k < |steps|
    requires AgreeAt(needs, n, v, steps, k)
    ensures AgreeAt(needs, n, v, steps, k + 1) <==> HarmlessAt(needs, n, v, steps, k)
  {
    assert steps[..k + 1][..k] == steps[..k];
    StepReplaysIff(needs, n, LiveAfter(needs, n, v, steps[..k]), steps[k]);
  }

  lemma {:induction false} AgreeUpTo(needs: Needs, n: nat, v: View, steps: seq<LiveStep>, k: nat)
    requires NeedsInRange(n, needs) && Sound(n, v) && AllInRange(n, steps) && k <= |steps|
    requires forall i: nat | i < k :: HarmlessAt(needs, n, v, steps, i)
    ensures AgreeAt(needs, n, v, steps, k)
  {
    if k > 0 {
      AgreeUpTo(needs, n, v, steps, k - 1);
      AgreementStep(needs, n, v, steps, k - 1);
    }
  }

  /** Memory is the fold of the journal all along a history, over any number of
    process lives, exactly if every initialization in it is harmless. */
  lemma AgreeThroughoutIff(needs: Needs, n: nat, v: View, steps: seq<LiveStep>)
    requires NeedsInRange(n, needs) && Sound(n, v) && AllInRange(n, steps)
    ensures (forall k: nat | k <= |steps| :: AgreeAt(needs, n, v, steps, k))
       <==> (forall k: nat | k < |steps| :: HarmlessAt(needs, n, v, steps, k))
  {
    if forall k: nat | k < |steps| :: HarmlessAt(needs, n, v, steps, k) {
      forall k: nat | k <= |steps| ensures AgreeAt(needs, n, v, steps, k) {
        AgreeUpTo(needs, n, v, steps, k);
      }
    }
    if forall k: nat | k <= |steps| :: AgreeAt(needs, n, v, steps, k) {
      forall k: nat | k < |steps| ensures HarmlessAt(needs, n, v, steps, k) {
        assert AgreeAt(needs, n, v, steps, k) && AgreeAt(needs, n, v, steps, k + 1);
        AgreementStep(needs, n, v, steps, k);
      }
    }
  }

  // ----------------------------------------------------- what histories leave

  ghost function StartCount(steps: seq<LiveStep>, step: nat): nat {
    if steps == [] then 0
    else StartCount(steps[..|steps| - 1], step) + if steps[|steps| - 1] == Start(step) then 1 else 0
  }

  predicate CompletesStep(l: LiveStep, step: nat) {
    l.Complete? && l.step == step
  }

  ghost predicate CompletedIn(steps: seq<LiveStep>, step: nat) {
    exists i :: 0 <= i < |steps| && CompletesStep(steps[i], step)
  }

  lemma CompletedSplits(steps: seq<LiveStep>, step: nat)
    requires steps != []
    ensures CompletedIn(steps, step)
       <==> CompletedIn(steps[..|steps| - 1], step) || CompletesStep(steps[|steps| - 1], step)
  {
    var front := steps[..|steps| - 1];
    if CompletedIn(front, step) {
      var i :| 0 <= i < |front| && CompletesStep(front[i], step);
      assert CompletesStep(steps[i], step);
    }
    if CompletedIn(steps, step) && !CompletesStep(steps[|steps| - 1], step) {
      var i :| 0 <= i < |steps| && CompletesStep(steps[i], step);
      assert CompletesStep(front[i], step);
    }
  }

  lemma LiveMakesProgress(needs: Needs, n: nat, v: View, l: LiveStep, step: nat)
    requires NeedsInRange(n, needs) && Sound(n, v) && InRange(n, l) && step < n
    ensures var w := Live(needs, n, v, l);
      && |w.attempts| == |w.results| == n
      && w.attempts[step] == v.attempts[step] + (if l == Start(step) then 1 else 0)
      && (step in w.completed <==> step in v.completed || CompletesStep(l, step))
      && w.results[step] ==
         if step !in v.completed && CompletesStep(l, step) then Some(l.result) else v.results[step]
  {
    match l {
      case Initialize(steps, _) =>
        AscendingElements(steps, n);
        AddAllIs(needs, n, v, Ascending(steps, n));
      case Complete(done, result) => FinishedCompletes(needs, n, v, done, result);
      case _ =>
    }
  }

  lemma LastStepMakesProgress(needs: Needs, n: nat, v: View, steps: seq<LiveStep>, step: nat)
    requires NeedsInRange(n, needs) && Sound(n, v) && AllInRange(n, steps) && step < n && steps != []
    ensures var before, w, l :=
        LiveAfter(needs, n, v, steps[..|steps| - 1]), LiveAfter(needs, n, v, steps), steps[|steps| - 1];
      && |w.results| == |before.results| == n
      && (step in w.completed <==> step in before.completed || CompletesStep(l, step))
      && w.results[step] ==
         if step !in before.completed && CompletesStep(l, step) then Some(l.result) else before.results[step]
  {
    LiveMakesProgress(needs, n, LiveAfter(needs, n, v, steps[..|steps| - 1]), steps[|steps| - 1], step);
  }

  /** Over any history a step has been attempted as often as it was started, and
    is completed when it was ever completed. */
  lemma {:induction false} HistoryLeaves(needs: Needs, n: nat, v: View, steps: seq<LiveStep>, step: nat)
    requires NeedsInRange(n, needs) && Sound(n, v) && AllInRange(n, steps) && step < n
    ensures var w := LiveAfter(needs, n, v, steps);
      && |w.attempts| == |w.results| == n
      && w.attempts[step] == v.attempts[step] + StartCount(steps, step)
      && (step in w.completed <==> step in v.completed || CompletedIn(steps, step))
      && (step in v.completed || !CompletedIn(steps, step) ==> w.results[step] == v.results[step])
    decreases |steps|
  {
    if steps != [] {
      var front, last := steps[..|steps| - 1], steps[|steps| - 1];
      HistoryLeaves(needs, n, v, front, step);
      CompletedSplits(steps, step);
      LiveMakesProgress(needs, n, LiveAfter(needs, n, v, front), last, step);
    }
  }

  lemma {:induction false} HistoriesCompose(needs: Needs, n: nat, v: View, a: seq<LiveStep>, b: seq<LiveStep>)
    requires NeedsInRange(n, needs) && Sound(n, v) && AllInRange(n, a) && AllInRange(n, b)
    ensures AllInRange(n, a + b)
    ensures LiveAfter(needs, n, v, a + b) == LiveAfter(needs, n, LiveAfter(needs, n, v, a), b)
    decreases |b|
  {
    if b == [] {
      assert a + b == a;
    } else {
      var front := b[..|b| - 1];
      HistoriesCompose(needs, n, v, a, front);
      assert (a + b)[..|a + b| - 1] == a + front && (a + b)[|a + b| - 1] == b[|b| - 1];
    }
  }

  lemma FirstResult(needs: Needs, n: nat, v: View, steps: seq<LiveStep>, step: nat)
    requires NeedsInRange(n, needs) && Sound(n, v) && AllInRange(n, steps) && step < n
    requires steps != [] && CompletesStep(steps[|steps| - 1], step)
    requires step !in v.completed && !CompletedIn(steps[..|steps| - 1], step)
    ensures var w := LiveAfter(needs, n, v, steps);
      step in w.completed && |w.results| == n && w.results[step] == Some(steps[|steps| - 1].result)
  {
    HistoryLeaves(needs, n, v, steps[..|steps| - 1], step);
    LastStepMakesProgress(needs, n, v, steps, step);
  }

  /** A step keeps the first result it got. */
  lemma FirstResultStays(needs: Needs, n: nat, v: View, steps: seq<LiveStep>, i: nat, step: nat)
    requires NeedsInRange(n, needs) && Sound(n, v) && AllInRange(n, steps) && step < n
    requires i < |steps| && CompletesStep(steps[i], step)
    requires step !in v.completed && !CompletedIn(steps[..i], step)
    ensures var w := LiveAfter(needs, n, v, steps); |w.results| == n && w.results[step] == Some(steps[i].result)
  {
    var first, rest := steps[..i + 1], steps[i + 1..];
    assert first[..|first| - 1] == steps[..i];
    FirstResult(needs, n, v, first, step);
    HistoriesCompose(needs, n, v, first, rest);
    assert first + rest == steps;
    HistoryLeaves(needs, n, LiveAfter(needs, n, v, first), rest, step);
  }

  lemma ReplayMakesSameProgress(needs: Needs, n: nat, live: View, replay: View, l: LiveStep)
    requires NeedsInRange(n, needs) && Sound(n, live) && Sound(n, replay) && InRange(n, l)
    requires SameProgress(live, replay)
    ensures EventOf(needs, n, live, l).Some? ==> EventInRange(n, EventOf(needs, n, live, l).value)
    ensures var e := EventOf(needs, n, live, l);
      SameProgress(Live(needs, n, live, l), if e.None? then replay else Replayed(needs, n, replay, e.value))
  {
    LiveSound(needs, n, live, l);
    match l {
      case Initialize(steps, _) =>
        AscendingElements(steps, n);
        AddAllIs(needs, n, live, Ascending(steps, n));
        var e := EventOf(needs, n, live, l);
        if e.Some? {
          AddAllIs(needs, n, replay, e.value.steps);
        }
      case Complete(done, result) =>
        FinishedCompletes(needs, n, live, done, result);
        FinishedCompletes(needs, n, replay, done, result);
      case _ =>
    }
  }

  /** Whatever waiting sets memory and replay disagree on, they never disagree on
    what is completed, with which result, and how often a step was attempted. */
  lemma {:induction false} ProgressAlwaysReplays(needs: Needs, n: nat, v: View, steps: seq<LiveStep>)
    requires NeedsInRange(n, needs) && Sound(n, v) && AllInRange(n, steps)
    ensures SameProgress(LiveAfter(needs, n, v, steps), ReplayAfter(needs, n, v, steps))
    decreases |steps|
  {
    if steps != [] {
      var front := steps[..|steps| - 1];
      ProgressAlwaysReplays(needs, n, v, front);
      ReplayMakesSameProgress(needs, n, LiveAfter(needs, n, v, front), ReplayAfter(needs, n, v, front),
                              steps[|steps| - 1]);
    }
  }

  // ------------------------------------------------------------- the first life

  /** One process life: the item is initialized first, and not again. */
  ghost predicate FirstLife(steps: seq<LiveStep>) {
    forall i | 0 <= i < |steps| && steps[i].Initialize? :: i == 0 && steps[i].journaled
  }

  /** In the first life replay always gives the live state, for every flow. */
  lemma FirstLifeReplays(needs: Needs, n: nat, v: View, steps: seq<LiveStep>)
    requires NeedsInRange(n, needs) && Sound(n, v) && AllInRange(n, steps)
    requires v.needed == {} && FirstLife(steps)
    ensures forall k: nat | k <= |steps| :: AgreeAt(needs, n, v, steps, k)
  {
    forall k: nat | k < |steps| ensures HarmlessAt(needs, n, v, steps, k) {
      if k == 0 { assert steps[..0] == []; }
    }
    AgreeThroughoutIff(needs, n, v, steps);
  }

  // ------------------------------------------- flows without conditional inputs

  /** What a step needs does not depend on results. */
  ghost predicate Unconditional(n: nat, needs: Needs, deps: nat -> set<nat>) {
    forall x: nat, c, r | x < n :: needs(x, c, r) - c == deps(x) - c
  }

  ghost predicate Settled(needs: Needs, v: View) {
    forall x | x in v.needed && x < |v.waitingOn| :: UpToDate(needs, v, x)
  }

  lemma AddAllSettled(needs: Needs, n: nat, v: View, steps: seq<nat>)
    requires NeedsInRange(n, needs) && Sound(n, v) && Settled(needs, v) && forall s | s in steps :: s < n
    ensures Settled(needs, AddAll(needs, v, steps))
  {
    AddAllIs(needs, n, v, steps);
    var w := AddAll(needs, v, steps);
    forall x | x in w.needed && x < |w.waitingOn| ensures UpToDate(needs, w, x) {
      if x in v.needed { assert UpToDate(needs, v, x); }
    }
  }

  lemma MarkedSettled(needs: Needs, n: nat, deps: nat -> set<nat>, v: View, step: nat, result: Outcome)
    requires Unconditional(n, needs, deps) && Sound(n, v) && Settled(needs, v) && step < n
    ensures Settled(needs, Marked(v, step, result))
  {
    if step !in v.completed {
      var w := Marked(v, step, result);
      forall x | x in w.needed && x < |w.waitingOn| ensures UpToDate(needs, w, x) {
        assert UpToDate(needs, v, x);
        assert Pending(needs, v, x) == deps(x) - v.completed;
        assert Pending(needs, w, x) == deps(x) - w.completed;
      }
    }
  }

  lemma LiveSettled(needs: Needs, n: nat, deps: nat -> set<nat>, v: View, l: LiveStep)
    requires NeedsInRange(n, needs) && Unconditional(n, needs, deps) && Sound(n, v) && Settled(needs, v)
      && InRange(n, l)
    ensures Settled(needs, Live(needs, n, v, l))
  {
    match l {
      case Initialize(steps, _) =>
        AscendingElements(steps, n);
        AddAllSettled(needs, n, v, Ascending(steps, n));
      case Start(step) =>
        var w := Live(needs, n, v, l);
        forall x | x in w.needed && x < |w.waitingOn| ensures UpToDate(needs, w, x) { assert UpToDate(needs, v, x); }
      case Complete(step, result) =>
        MarkedSettled(needs, n, deps, v, step, result);
        MarkedSound(n, v, step, result);
        AscendingElements(Unblocked(v, step), n);
        AddAllSettled(needs, n, Marked(v, step, result), Ascending(Unblocked(v, step), n));
    }
  }

  lemma {:induction false} StaysSettled(needs: Needs, n: nat, deps: nat -> set<nat>, v: View, steps: seq<LiveStep>)
    requires NeedsInRange(n, needs) && Unconditional(n, needs, deps) && Sound(n, v) && Settled(needs, v)
    requires AllInRange(n, steps)
    ensures Settled(needs, LiveAfter(needs, n, v, steps))
  {
    if steps != [] {
      StaysSettled(needs, n, deps, v, steps[..|steps| - 1]);
      LiveSettled(needs, n, deps, LiveAfter(needs, n, v, steps[..|steps| - 1]), steps[|steps| - 1]);
    }
  }

  /** Without conditional inputs replay gives the live state over any number of
    lives, as long as every initialization is journaled. */
  lemma UnconditionalFlowsReplay(needs: Needs, n: nat, deps: nat -> set<nat>, v: View, steps: seq<LiveStep>)
    requires NeedsInRange(n, needs) && Unconditional(n, needs, deps) && Sound(n, v) && v.needed == {}
    requires AllInRange(n, steps) && forall i | 0 <= i < |steps| && steps[i].Initialize? :: steps[i].journaled
    ensures forall k: nat | k <= |steps| :: AgreeAt(needs, n, v, steps, k)
  {
    forall k: nat | k < |steps| ensures HarmlessAt(needs, n, v, steps, k) {
      StaysSettled(needs, n, deps, v, steps[..k]);
    }
    AgreeThroughoutIff(needs, n, v, steps);
  }

  // --------------------------------------------------- a flow that does diverge

  /** Step 3 uses step 1 and, if step 0 says so, step 2; step 4 uses step 3. */
  function ConditionalNeeds(x: nat, completed: set<nat>, results: Results): set<nat> {
    if x == 3 then (if 0 in completed then {1, 2} else {0, 1}) - completed
    else if x == 4 then {3} - completed
    else {}
  }

  function FreshView(n: nat): View {
    View({}, seq(n, i => None), {}, seq(n, i => {}), seq(n, i => {}), seq(n, i => 0))
  }

  /** A crash after the condition is known and before the other dependency is
    completed: the second life's memory and the replay of its journal differ. */
  lemma SecondLifeCanDiverge(n: nat, result: Outcome, steps: seq<LiveStep>)
    requires n > 4 && steps == [Initialize({4}, true), Complete(0, result), Initialize({4}, true)]
    ensures NeedsInRange(n, ConditionalNeeds) && Sound(n, FreshView(n)) && AllInRange(n, steps) && FirstLife(steps[..2])
    ensures AgreeAt(ConditionalNeeds, n, FreshView(n), steps, 2)
      && !AgreeAt(ConditionalNeeds, n, FreshView(n), steps, 3)
  {
    FreshAsksForBoth(n);
    ConditionDiverges(n, FreshView(n), result, steps);
  }

  lemma ConditionDiverges(n: nat, start: View, result: Outcome, steps: seq<LiveStep>)
    requires AsksForBoth(ConditionalNeeds, n, start)
    requires steps == [Initialize({4}, true), Complete(0, result), Initialize({4}, true)] && AllInRange(n, steps)
    ensures FirstLife(steps[..2])
    ensures AgreeAt(ConditionalNeeds, n, start, steps, 2) && !AgreeAt(ConditionalNeeds, n, start, steps, 3)
  {
    StaleAfterCondition(n, start, result, steps[..2]);
    assert !HarmlessAt(ConditionalNeeds, n, start, steps, 2);
    PartsAt(ConditionalNeeds, n, start, steps, 2);
  }

  lemma FreshIsSound(n: nat)
    ensures Sound(n, FreshView(n))
  {
    forall i | 0 <= i < n ensures FreshView(n).waiters[i] == WaitersFor(FreshView(n).waitingOn, i) {}
  }

  /** What the flow's inputs say while nothing is completed. */
  ghost predicate AsksForBoth(needs: Needs, n: nat, start: View) {
    && n > 4 && NeedsInRange(n, needs) && Sound(n, start) && start.needed == {} && start.completed == {}
    && Pending(needs, start, 4) == {3} && Pending(needs, start, 3) == {0, 1}
    && forall w: nat | w < n :: Pending(needs, start, w) != {0} && start.waitingOn[w] != {0}
  }

  lemma FreshAsksForBoth(n: nat)
    requires n > 4
    ensures AsksForBoth(ConditionalNeeds, n, FreshView(n))
  {
    FreshIsSound(n);
    var start := FreshView(n);
    forall w: nat | w < n ensures Pending(ConditionalNeeds, start, w) != {0} {
      if w == 3 { assert 1 in Pending(ConditionalNeeds, start, 3); }
      if w == 4 { assert 3 in Pending(ConditionalNeeds, start, 4); }
    }
  }

  /** Step 3 waits for the condition and step 1, and nothing waits for the
    condition alone. */
  ghost predicate WaitsForBoth(n: nat, v: View) {
    && n > 4 && Sound(n, v) && v.completed == {} && 3 in v.needed && v.waitingOn[3] == {0, 1}
    && forall w: nat | w < n :: v.waitingOn[w] != {0}
  }

  lemma {:induction false} InitializedWaitsForBoth(needs: Needs, n: nat, start: View, outputs: set<nat>)
      returns (v: View)
    requires AsksForBoth(needs, n, start) && 4 in outputs && Below(outputs, n)
    ensures v == AddAll(needs, start, Ascending(outputs, n)) && WaitsForBoth(n, v)
  {
    v := Initialized(needs, n, start, outputs);
    AscendingElements(outputs, n);
    AddAllSound(needs, n, start, Ascending(outputs, n));
    assert 4 in v.needed && 3 in Pending(needs, start, 4);
  }

  lemma {:induction false} AscendingNone(n: nat)
    ensures Ascending({}, n) == []
  {
    if n > 0 { AscendingNone(n - 1); }
  }

  lemma CompletedCondition(n: nat, v: View, result: Outcome)
    requires WaitsForBoth(n, v)
    ensures var w := Finished(ConditionalNeeds, v, 0, result);
      && w.completed == {0} && w.needed == v.needed && |w.waitingOn| == n && w.waitingOn[3] == {1}
      && !UpToDate(ConditionalNeeds, w, 3)
  {
    assert Unblocked(v, 0) == {};
    var w := Finished(ConditionalNeeds, v, 0, result);
    AscendingNone(n);
    assert w == Marked(v, 0, result);
    assert w.waitingOn[3] == {1};
    assert 2 in Pending(ConditionalNeeds, w, 3);
  }

  lemma TwoSteps(needs: Needs, n: nat, v: View, steps: seq<LiveStep>)
    requires NeedsInRange(n, needs) && Sound(n, v) && AllInRange(n, steps) && |steps| == 2
    ensures Sound(n, Live(needs, n, v, steps[0]))
    ensures LiveAfter(needs, n, v, steps) == Live(needs, n, Live(needs, n, v, steps[0]), steps[1])
  {
    LiveSound(needs, n, v, steps[0]);
    assert steps[..1][..0] == [] && steps[..1][0] == steps[0];
    assert LiveAfter(needs, n, v, steps[..1]) == Live(needs, n, v, steps[0]);
  }

  lemma StaleAfterCondition(n: nat, start: View, result: Outcome, steps: seq<LiveStep>)
    requires AsksForBoth(ConditionalNeeds, n, start) && AllInRange(n, steps)
    requires |steps| == 2 && steps[0] == Initialize({4}, true) && steps[1] == Complete(0, result)
    ensures var v := LiveAfter(ConditionalNeeds, n, start, steps);
      3 in v.needed && !UpToDate(ConditionalNeeds, v, 3)
  {
    var v := InitializedWaitsForBoth(ConditionalNeeds, n, start, {4});
    TwoSteps(ConditionalNeeds, n, start, steps);
    CompletedCondition(n, v, result);
  }

  /** The first initialization that is not harmless is where they part. */
  lemma PartsAt(needs: Needs, n: nat, v: View, steps: seq<LiveStep>, k: nat)
    requires NeedsInRange(n, needs) && Sound(n, v) && AllInRange(n, steps) && v.needed == {} && k < |steps|
    requires FirstLife(steps[..k]) && !HarmlessAt(needs, n, v, steps, k)
    ensures AgreeAt(needs, n, v, steps, k) && !AgreeAt(needs, n, v, steps, k + 1)
  {
    FirstLifeReplays(needs, n, v, steps[..k]);
    assert AgreeAt(needs, n, v, steps[..k], k);
    assert steps[..k][..k] == steps[..k];
    AgreementStep(needs, n, v, steps, k);
  }
}
