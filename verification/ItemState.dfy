/** The execution state of one item: which steps are needed, completed, and
  waiting on which others, with the reverse index of waiters kept in step, and
  its checkpoint. */
module ItemStates {
  import opened Basics

  /** A step result; `value` stands for the JSON payload or the error. */
  datatype Outcome = Success(value: nat) | Failure(value: nat)

  type Results = seq<Option<Outcome>>

  /** `needed_steps` of every step's input: the referenced steps the expression
    still has to see, given what is completed. */
  type Needs = (nat, set<nat>, Results) -> set<nat>

  datatype View = View(
    completed: set<nat>,
    results: Results,
    needed: set<nat>,
    waitingOn: seq<set<nat>>,
    waiters: seq<set<nat>>,
    attempts: seq<nat>)

  datatype ItemCheckpoint = ItemCheckpoint(
    completed: seq<nat>,
    results: seq<(nat, Outcome)>,
    needed: seq<nat>,
    waitingOn: seq<(nat, seq<nat>)>,
    attempts: seq<nat>)

  datatype CorruptCheckpoint = WrongAttempts | IndexOutOfBounds

  // ------------------------------------------------------------ consistency

  /** The steps waiting on step `i`. */
  ghost function WaitersFor(waitingOn: seq<set<nat>>, i: nat): set<nat> {
    set s: nat | s < |waitingOn| && i in waitingOn[s] :: s
  }

  lemma WaitersAfterUpdate(waitingOn: seq<set<nat>>, step: nat, waiting: set<nat>, i: nat)
    requires step < |waitingOn|
    ensures WaitersFor(waitingOn[step := waiting], i)
         == (WaitersFor(waitingOn, i) - {step}) + if i in waiting then {step} else {}
  {
    var updated := waitingOn[step := waiting];
    var expected := (WaitersFor(waitingOn, i) - {step}) + if i in waiting then {step} else {};
    forall s: nat | s in WaitersFor(updated, i) ensures s in expected {}
    forall s: nat | s in expected ensures s in WaitersFor(updated, i) {
      assert s < |updated| && i in updated[s];
    }
  }

  ghost predicate Below(s: set<nat>, n: nat) {
    forall x | x in s :: x < n
  }

  ghost predicate Consistent(n: nat, v: View) {
    && |v.results| == |v.waitingOn| == |v.waiters| == |v.attempts| == n
    && Below(v.completed, n) && Below(v.needed, n)
    && (forall i | 0 <= i < n :: Below(v.waitingOn[i], n))
    && (forall i | 0 <= i < n :: v.waiters[i] == WaitersFor(v.waitingOn, i))
  }

  /** Steps refer only to earlier ones. */
  ghost predicate NeedsBack(n: nat, needs: Needs) {
    forall x: nat, c, r | x < n :: forall d | d in needs(x, c, r) :: d < x
  }

  /** A needed step waits only on needed steps that are not completed. */
  ghost predicate WaitsOnUnfinished(v: View) {
    forall x | x in v.needed && x < |v.waitingOn| :: v.waitingOn[x] <= v.needed - v.completed
  }

  ghost function Pending(needs: Needs, v: View, x: nat): set<nat> {
    needs(x, v.completed, v.results) - v.completed
  }

  /** `c` contains what was needed, the step, and with every step (re)evaluated
    all the steps it is pending on. */
  ghost predicate ClosedOver(needs: Needs, v: View, step: nat, c: set<nat>) {
    && v.needed <= c && step in c
    && forall x | x in c && (x == step || x !in v.needed) :: Pending(needs, v, x) <= c
  }

  class ItemState {
    const numSteps: nat
    const needs: Needs
    var completed: set<nat>
    var results: Results
    var needed: set<nat>
    var waitingOn: seq<set<nat>>
    var waiters: seq<set<nat>>
    var attempts: seq<nat>

    function State(): View
      reads this
    {
      View(completed, results, needed, waitingOn, waiters, attempts)
    }

    ghost predicate Valid()
      reads this
    {
      && Consistent(numSteps, State())
      && forall x: nat, c, r | x < numSteps :: Below(needs(x, c, r), numSteps)
    }

    constructor (numSteps: nat, needs: Needs)
      requires forall x: nat, c, r | x < numSteps :: Below(needs(x, c, r), numSteps)
      ensures this.numSteps == numSteps && this.needs == needs
      ensures Valid() && WaitsOnUnfinished(State()) && completed == needed == {}
    {
      this.numSteps := numSteps;
      this.needs := needs;
      completed := {};
      results := seq(numSteps, i => None);
      needed := {};
      waitingOn := seq(numSteps, i => {});
      waiters := seq(numSteps, i => {});
      attempts := seq(numSteps, i => 0);
    }

    method SetWaiting(step: nat, waiting: set<nat>)
      requires Valid() && step < numSteps && Below(waiting, numSteps)
      modifies this`waitingOn, this`waiters
      ensures Valid()
      ensures waitingOn == old(waitingOn)[step := waiting]
    {
      RemoveWaiter(step);
      ghost var cleared := waiters;
      var todo := waiting;
      while todo != {}
        invariant todo <= waiting && |waiters| == numSteps && waitingOn == old(waitingOn)
        invariant forall i | 0 <= i < numSteps ::
          waiters[i] == if i in waiting - todo then cleared[i] + {step} else cleared[i]
      {
        var wait :| wait in todo;
        waiters := waiters[wait := waiters[wait] + {step}];
        todo := todo - {wait};
      }
      forall i: nat { WaitersAfterUpdate(waitingOn, step, waiting, i); }
      waitingOn := waitingOn[step := waiting];
    }

    method ClearWaiting(step: nat)
      requires Valid() && step < numSteps
      modifies this`waitingOn, this`waiters
      ensures Valid()
      ensures waitingOn == old(waitingOn)[step := {}]
    {
      RemoveWaiter(step);
      forall i: nat { WaitersAfterUpdate(waitingOn, step, {}, i); }
      waitingOn := waitingOn[step := {}];
    }

    /** Takes the step out of every waiter set it is in. */
    method RemoveWaiter(step: nat)
      requires Valid() && step < numSteps
      modifies this`waiters
      ensures |waiters| == numSteps
      ensures forall i | 0 <= i < numSteps :: waiters[i] == WaitersFor(waitingOn, i) - {step}
    {
      var todo := waitingOn[step];
      while todo != {}
        invariant todo <= waitingOn[step] && |waiters| == numSteps
        invariant forall i | 0 <= i < numSteps ::
          waiters[i] == if i in todo then WaitersFor(waitingOn, i) else WaitersFor(waitingOn, i) - {step}
      {
        var wait :| wait in todo;
        waiters := waiters[wait := waiters[wait] - {step}];
        todo := todo - {wait};
      }
    }

    /** Returns exactly the steps whose last open dependency this was. */
    method MarkCompleted(step: nat, result: Outcome) returns (unblocked: set<nat>)
      requires Valid() && step < numSteps
      modifies this
      ensures Valid()
      ensures step in old(completed) ==> State() == old(State()) && unblocked == {}
      ensures step !in old(completed) ==>
        && completed == old(completed) + {step} && results == old(results)[step := Some(result)]
        && needed == old(needed) && attempts == old(attempts) && |waitingOn| == numSteps
        && (forall i | 0 <= i < numSteps :: waitingOn[i] == old(waitingOn)[i] - {step})
        && unblocked == (set w: nat | w < numSteps && old(waitingOn)[w] == {step} :: w)
      ensures old(WaitsOnUnfinished(State())) ==> WaitsOnUnfinished(State())
      ensures old(WaitsBack(State())) ==> WaitsBack(State())
    {
      unblocked := {};
      if step in completed {
        return;
      }
      completed := completed + {step};
      results := results[step := Some(result)];
      var todo := waiters[step];
      waiters := waiters[step := {}];
      while todo != {}
        invariant todo <= old(waiters)[step] && |waitingOn| == numSteps
        invariant forall i | 0 <= i < numSteps ::
          waitingOn[i] == if i in todo then old(waitingOn)[i] else old(waitingOn)[i] - {step}
        invariant unblocked == set w: nat | w < numSteps && w !in todo && old(waitingOn)[w] == {step} :: w
        invariant waiters == old(waiters)[step := {}]
        invariant completed == old(completed) + {step} && results == old(results)[step := Some(result)]
        invariant needed == old(needed) && attempts == old(attempts)
      {
        var waiter :| waiter in todo;
        todo := todo - {waiter};
        waitingOn := waitingOn[waiter := waitingOn[waiter] - {step}];
        if waitingOn[waiter] == {} {
          unblocked := unblocked + {waiter};
        }
      }
      assert forall i | 0 <= i < numSteps :: waiters[i] == WaitersFor(waitingOn, i);
    }

    /** Re-evaluates what a needed step waits for and returns the steps among
      that which nothing has needed so far. */
    method Visit(idx: nat) returns (deps: seq<nat>)
      requires Valid() && idx < numSteps
      modifies this`waitingOn, this`waiters
      ensures Valid()
      ensures waitingOn == old(waitingOn)[idx := Pending(needs, old(State()), idx)]
      ensures forall d: nat :: d in deps <==> d in Pending(needs, old(State()), idx) && d !in needed
      ensures forall d | d in deps :: d < numSteps
    {
      deps := [];
      var pending := needs(idx, completed, results) - completed;
      if pending == {} {
        ClearWaiting(idx);
        return;
      }
      SetWaiting(idx, pending);
      var todo := pending;
      while todo != {}
        invariant todo <= pending
        invariant forall d: nat :: d in deps <==> d in pending - todo && d !in needed
      {
        var dep :| dep in todo;
        if dep !in needed {
          deps := deps + [dep];
        }
        todo := todo - {dep};
      }
      assert Below(pending, numSteps);
    }

    /** Marks the step needed and discovers, through a worklist, everything it
      transitively waits for.  The needed set becomes the least closed one. */
    method AddOrUpdateNeeded(step: nat) returns (newlyNeeded: set<nat>)
      requires Valid() && step < numSteps
      modifies this`needed, this`waitingOn, this`waiters
      ensures Valid()
      ensures newlyNeeded == needed - old(needed) && needed == old(needed) + newlyNeeded + {step}
      ensures ClosedOver(needs, old(State()), step, needed)
      ensures forall c: set<nat> | ClosedOver(needs, old(State()), step, c) :: needed <= c
      ensures forall i: nat | i < numSteps ::
        waitingOn[i] == if i == step || i in newlyNeeded then Pending(needs, old(State()), i) else old(waitingOn)[i]
      ensures old(WaitsOnUnfinished(State())) ==> WaitsOnUnfinished(State())
      ensures NeedsBack(numSteps, needs) && old(WaitsBack(State())) ==> WaitsBack(State())
      ensures completed == old(completed) && results == old(results) && attempts == old(attempts)
    {
      newlyNeeded := {};
      ghost var v := State();
      ghost var first := true;
      var worklist: seq<nat> := [step];
      while worklist != []
        invariant Valid()
        invariant forall d | d in worklist :: d < numSteps
        invariant completed == v.completed && results == v.results && attempts == v.attempts
        invariant newlyNeeded == needed - v.needed
        invariant Searching(needs, v, step, first, needed, worklist, waitingOn)
        decreases Upto(numSteps) - needed, first, |worklist|
      {
        ghost var stack, visited, waits := worklist, needed, waitingOn;
        var idx: nat := worklist[|worklist| - 1];
        worklist := worklist[..|worklist| - 1];
        assert idx in stack && forall d | d in worklist :: d in stack;
        if idx !in needed {
          newlyNeeded := newlyNeeded + {idx};
        }
        needed := needed + {idx};
        var deps := Visit(idx);
        worklist := worklist + deps;
        TurnKeepsSearching(needs, v, step, first, visited, stack, waits, deps);
        first := false;
      }
      SearchEnds(needs, v, step, State());
    }

    /** Needed steps that are not completed and wait for nothing. */
    function SchedulableSteps(): set<nat>
      requires Valid()
      reads this
    {
      set s | s in needed - completed && waitingOn[s] == {}
    }

    predicate IsComplete()
      reads this
    {
      needed <= completed
    }

    /** Nothing is lost: the record fits the flow, and restoring it gives back
      this state. */
    method ToCheckpoint() returns (checkpoint: ItemCheckpoint)
      requires Valid()
      ensures Fits(numSteps, checkpoint) && RestoredView(numSteps, checkpoint) == State()
    {
      checkpoint := CheckpointOf(State());
      CheckpointRoundTrip(numSteps, State());
    }

    /** No deadlock: if steps wait only for unfinished earlier ones, there is
      nothing to schedule exactly when the item is complete. */
    lemma NothingToDoIffComplete()
      requires Valid() && WaitsOnUnfinished(State()) && WaitsBack(State())
      ensures SchedulableSteps() == {} <==> IsComplete()
    {
      if !IsComplete() {
        var x :| x in needed && x !in completed;
        UnfinishedItemHasWork(numSteps, State(), x);
        var s :| s in needed - completed && waitingOn[s] == {};
        assert s in SchedulableSteps();
      }
    }

    /** Overwrites the state from a checkpoint after validating every index. */
    method RestoreFromCheckpoint(checkpoint: ItemCheckpoint) returns (r: Result<(), CorruptCheckpoint>)
      requires Valid()
      modifies this
      ensures Valid()
      ensures r.Ok? <==> Fits(numSteps, checkpoint)
      ensures r.Err? ==> State() == old(State())
      ensures r.Ok? ==> State() == RestoredView(numSteps, checkpoint)
    {
      if |checkpoint.attempts| != numSteps {
        return Err(WrongAttempts);
      }
      if !IndicesFit(numSteps, checkpoint) {
        return Err(IndexOutOfBounds);
      }
      completed := {};
      for i := 0 to |checkpoint.completed|
        invariant completed == Elements(checkpoint.completed[..i])
        invariant results == old(results) && waitingOn == old(waitingOn)
      {
        completed := completed + {checkpoint.completed[i]};
        assert checkpoint.completed[..i + 1] == checkpoint.completed[..i] + [checkpoint.completed[i]];
      }
      RestoreResults(checkpoint.results);
      needed := {};
      for i := 0 to |checkpoint.needed|
        invariant needed == Elements(checkpoint.needed[..i])
        invariant completed == Elements(checkpoint.completed)
        invariant results == RestoredView(numSteps, checkpoint).results
      {
        needed := needed + {checkpoint.needed[i]};
        assert checkpoint.needed[..i + 1] == checkpoint.needed[..i] + [checkpoint.needed[i]];
      }
      RestoreWaiting(checkpoint.waitingOn);
      attempts := checkpoint.attempts;
      assert checkpoint.completed[..|checkpoint.completed|] == checkpoint.completed;
      assert checkpoint.needed[..|checkpoint.needed|] == checkpoint.needed;
      forall i: nat | i < numSteps { WaitsOfBelow(checkpoint.waitingOn, i, numSteps); }
      assert waitingOn == RestoredView(numSteps, checkpoint).waitingOn;
      assert waiters == RestoredView(numSteps, checkpoint).waiters;
      return Ok(());
    }

    method RestoreResults(list: seq<(nat, Outcome)>)
      requires forall k | 0 <= k < |list| :: list[k].0 < numSteps
      modifies this`results
      ensures results == seq(numSteps, (i: nat) => LastResult(list, i))
    {
      results := seq(numSteps, (i: nat) => None);
      for k := 0 to |list|
        invariant results == seq(numSteps, (i: nat) => LastResult(list[..k], i))
      {
        results := results[list[k].0 := Some(list[k].1)];
        assert list[..k + 1][..k] == list[..k];
      }
      assert list[..|list|] == list;
    }

    method RestoreWaiting(list: seq<(nat, seq<nat>)>)
      requires forall k | 0 <= k < |list| :: list[k].0 < numSteps
      requires forall k, d | 0 <= k < |list| && d in list[k].1 :: d < numSteps
      modifies this`waitingOn, this`waiters
      ensures |waitingOn| == |waiters| == numSteps
      ensures forall i: nat | i < numSteps :: waitingOn[i] == WaitsOf(list, i) && waiters[i] == WaitersFor(waitingOn, i)
    {
      waitingOn := seq(numSteps, (i: nat) => {});
      waiters := seq(numSteps, (i: nat) => {});
      for k := 0 to |list|
        invariant |waitingOn| == |waiters| == numSteps
        invariant forall i: nat | i < numSteps :: waitingOn[i] == WaitsOf(list[..k], i)
        invariant forall i: nat | i < numSteps :: waiters[i] == WaitersFor(waitingOn, i)
      {
        InsertWaits(list[k].0, list[k].1);
        assert list[..k + 1][..k] == list[..k];
      }
      assert list[..|list|] == list;
    }

    method InsertWaits(step: nat, deps: seq<nat>)
      requires |waitingOn| == |waiters| == numSteps && step < numSteps
      requires forall d | d in deps :: d < numSteps
      requires forall i: nat | i < numSteps :: waiters[i] == WaitersFor(waitingOn, i)
      modifies this`waitingOn, this`waiters
      ensures waitingOn == old(waitingOn)[step := old(waitingOn)[step] + Elements(deps)]
      ensures |waiters| == numSteps && forall i: nat | i < numSteps :: waiters[i] == WaitersFor(waitingOn, i)
    {
      for j := 0 to |deps|
        invariant |waitingOn| == |waiters| == numSteps
        invariant waitingOn[step] == old(waitingOn)[step] + Elements(deps[..j])
        invariant forall i | 0 <= i < numSteps && i != step :: waitingOn[i] == old(waitingOn)[i]
        invariant forall i: nat | i < numSteps :: waiters[i] == WaitersFor(waitingOn, i)
      {
        var dep := deps[j];
        assert dep in deps;
        forall i: nat { WaitersAfterUpdate(waitingOn, step, waitingOn[step] + {dep}, i); }
        waitingOn := waitingOn[step := waitingOn[step] + {dep}];
        waiters := waiters[dep := waiters[dep] + {step}];
        assert deps[..j + 1] == deps[..j] + [dep];
      }
      assert deps[..|deps|] == deps;
    }
  }

  ghost function Upto(n: nat): (r: set<nat>)
    ensures forall i: nat :: i in r <==> i < n
  {
    if n == 0 then {} else Upto(n - 1) + {n - 1}
  }

  /** A worklist position of an already needed step has all its pending steps
    needed or above it on the stack; so popping it pushes nothing. */
  ghost predicate Explored(needs: Needs, v: View, needed: set<nat>, worklist: seq<nat>) {
    forall j, d | 0 <= j < |worklist| && worklist[j] in needed && d in Pending(needs, v, worklist[j]) ::
      d in needed || d in worklist[j + 1..]
  }

  ghost predicate Exploring(needs: Needs, v: View, step: nat, needed: set<nat>, worklist: seq<nat>,
                            waitingOn: seq<set<nat>>) {
    && step in needed && v.needed <= needed
    && (forall d | d in worklist :: d == step || d !in v.needed)
    && Explored(needs, v, needed, worklist)
    && (forall x, d | x in needed && (x == step || x !in v.needed) && d in Pending(needs, v, x) ::
          d in needed || d in worklist)
    && |waitingOn| == |v.waitingOn|
    && (forall i: nat | i < |waitingOn| ::
          waitingOn[i] == if i == step || i in needed - v.needed then Pending(needs, v, i) else v.waitingOn[i])
  }

  ghost predicate Minimal(needs: Needs, v: View, step: nat, needed: set<nat>, worklist: seq<nat>) {
    forall c: set<nat> | ClosedOver(needs, v, step, c) :: needed <= c && forall d | d in worklist :: d in c
  }

  /** Where the search stands; `first` until the step itself was visited. */
  ghost predicate Searching(needs: Needs, v: View, step: nat, first: bool, needed: set<nat>, worklist: seq<nat>,
                            waitingOn: seq<set<nat>>) {
    && (if first then needed == v.needed && worklist == [step] && waitingOn == v.waitingOn
        else Exploring(needs, v, step, needed, worklist, waitingOn))
    && Minimal(needs, v, step, needed, worklist)
  }

  /** What an exhausted search has established. */
  lemma SearchEnds(needs: Needs, v: View, step: nat, v': View)
    requires Searching(needs, v, step, false, v'.needed, [], v'.waitingOn)
    requires Consistent(|v.waitingOn|, v) && v'.completed == v.completed
    requires Below(v'.needed, |v.waitingOn|)
    ensures ClosedOver(needs, v, step, v'.needed)
    ensures forall c: set<nat> | ClosedOver(needs, v, step, c) :: v'.needed <= c
    ensures WaitsOnUnfinished(v) ==> WaitsOnUnfinished(v')
    ensures NeedsBack(|v.waitingOn|, needs) && WaitsBack(v) ==> WaitsBack(v')
  {}

  /** One turn of the worklist. */
  lemma TurnKeepsSearching(needs: Needs, v: View, step: nat, first: bool, needed: set<nat>, worklist: seq<nat>,
                           waitingOn: seq<set<nat>>, deps: seq<nat>)
    requires Searching(needs, v, step, first, needed, worklist, waitingOn) && worklist != []
    requires var idx := worklist[|worklist| - 1];
      && idx < |waitingOn|
      && (forall d: nat :: d in deps <==> d in Pending(needs, v, idx) && d !in needed + {idx})
    ensures var idx := worklist[|worklist| - 1];
      && Searching(needs, v, step, false, needed + {idx}, worklist[..|worklist| - 1] + deps,
                   waitingOn[idx := Pending(needs, v, idx)])
      && (!first && idx in needed ==> deps == [])
  {
    VisitKeepsExploring(needs, v, step, needed, worklist, waitingOn, deps, first);
    VisitKeepsMinimal(needs, v, step, needed, worklist, deps);
  }

  lemma VisitKeepsExploring(needs: Needs, v: View, step: nat, needed: set<nat>, worklist: seq<nat>,
                            waitingOn: seq<set<nat>>, deps: seq<nat>, first: bool)
    requires worklist != []
    requires if first then needed == v.needed && worklist == [step] && waitingOn == v.waitingOn
             else Exploring(needs, v, step, needed, worklist, waitingOn)
    requires var idx := worklist[|worklist| - 1];
      && idx < |waitingOn|
      && (forall d: nat :: d in deps <==> d in Pending(needs, v, idx) && d !in needed + {idx})
    ensures var idx := worklist[|worklist| - 1];
      && Exploring(needs, v, step, needed + {idx}, worklist[..|worklist| - 1] + deps,
                   waitingOn[idx := Pending(needs, v, idx)])
      && (!first && idx in needed ==> deps == [])
  {
    var idx := worklist[|worklist| - 1];
    var rest := worklist[..|worklist| - 1];
    assert worklist == rest + [idx] && worklist[|worklist| - 1 + 1..] == [];
    assert deps == [] || deps[0] in deps;
    forall j, d | 0 <= j < |rest + deps| && (rest + deps)[j] in needed + {idx}
      && d in Pending(needs, v, (rest + deps)[j])
      ensures d in needed + {idx} || d in (rest + deps)[j + 1..]
    {
      if j < |rest| {
        assert (rest + deps)[j + 1..] == rest[j + 1..] + deps;
        assert worklist[j + 1..] == rest[j + 1..] + [idx];
      }
    }
  }

  lemma VisitKeepsMinimal(needs: Needs, v: View, step: nat, needed: set<nat>, worklist: seq<nat>, deps: seq<nat>)
    requires worklist != [] && Minimal(needs, v, step, needed, worklist)
    requires forall d | d in worklist :: d == step || d !in v.needed
    requires forall d | d in deps :: d in Pending(needs, v, worklist[|worklist| - 1])
    ensures Minimal(needs, v, step, needed + {worklist[|worklist| - 1]}, worklist[..|worklist| - 1] + deps)
  {
    var idx := worklist[|worklist| - 1];
    forall c: set<nat> | ClosedOver(needs, v, step, c)
      ensures needed + {idx} <= c && forall d | d in worklist[..|worklist| - 1] + deps :: d in c
    {
      assert idx in worklist;
      assert Pending(needs, v, idx) <= c;
    }
  }

  // -------------------------------------------------------------- deadlock

  ghost predicate WaitsBack(v: View) {
    forall i: nat, d | i < |v.waitingOn| && d in v.waitingOn[i] :: d < i
  }

  /** If steps only ever wait for earlier steps, an unfinished item always has a
    step to schedule: the least unfinished needed one. */
  lemma UnfinishedItemHasWork(n: nat, v: View, x: nat)
    requires Consistent(n, v) && WaitsOnUnfinished(v)
    requires WaitsBack(v)
    requires x in v.needed - v.completed
    ensures exists s :: s in v.needed - v.completed && v.waitingOn[s] == {}
    decreases x
  {
    if v.waitingOn[x] != {} {
      var d :| d in v.waitingOn[x];
      UnfinishedItemHasWork(n, v, d);
    }
  }

  // ------------------------------------------------------------- checkpoint

  function Elements(s: seq<nat>): set<nat> {
    set x | x in s
  }

  function Ascending(s: set<nat>, n: nat): seq<nat> {
    if n == 0 then []
    else if n - 1 in s then Ascending(s, n - 1) + [n - 1]
    else Ascending(s, n - 1)
  }

  function ResultList(results: Results, n: nat): seq<(nat, Outcome)>
    requires n <= |results|
  {
    if n == 0 then []
    else if results[n - 1].Some? then ResultList(results, n - 1) + [(n - 1, results[n - 1].value)]
    else ResultList(results, n - 1)
  }

  function WaitingList(waitingOn: seq<set<nat>>, n: nat): seq<(nat, seq<nat>)>
    requires n <= |waitingOn|
  {
    if n == 0 then []
    else if waitingOn[n - 1] != {} then
      WaitingList(waitingOn, n - 1) + [(n - 1, Ascending(waitingOn[n - 1], |waitingOn|))]
    else WaitingList(waitingOn, n - 1)
  }

  function CheckpointOf(v: View): ItemCheckpoint {
    var n := |v.attempts|;
    ItemCheckpoint(Ascending(v.completed, n), ResultList(v.results, |v.results|), Ascending(v.needed, n),
                   WaitingList(v.waitingOn, |v.waitingOn|), v.attempts)
  }

  predicate RowFits(row: (nat, seq<nat>), n: nat, m: nat) {
    row.0 < n && forall j | 0 <= j < |row.1| :: row.1[j] < m
  }

  predicate IndicesFit(n: nat, c: ItemCheckpoint) {
    && (forall i | 0 <= i < |c.completed| :: c.completed[i] < n)
    && (forall i | 0 <= i < |c.results| :: c.results[i].0 < n)
    && (forall i | 0 <= i < |c.needed| :: c.needed[i] < n)
    && (forall i | 0 <= i < |c.waitingOn| :: RowFits(c.waitingOn[i], n, n))
  }

  predicate Fits(n: nat, c: ItemCheckpoint) {
    |c.attempts| == n && IndicesFit(n, c)
  }

  ghost function LastResult(list: seq<(nat, Outcome)>, i: nat): Option<Outcome> {
    if list == [] then None
    else if list[|list| - 1].0 == i then Some(list[|list| - 1].1)
    else LastResult(list[..|list| - 1], i)
  }

  ghost function WaitsOf(list: seq<(nat, seq<nat>)>, i: nat): set<nat> {
    if list == [] then {}
    else WaitsOf(list[..|list| - 1], i) + if list[|list| - 1].0 == i then Elements(list[|list| - 1].1) else {}
  }

  ghost function RestoredView(n: nat, c: ItemCheckpoint): View {
    var waitingOn := seq(n, (i: nat) => WaitsOf(c.waitingOn, i));
    View(Elements(c.completed), seq(n, (i: nat) => LastResult(c.results, i)), Elements(c.needed), waitingOn,
         seq(n, (i: nat) => WaitersFor(waitingOn, i)), c.attempts)
  }

  lemma {:induction false} WaitsOfBelow(list: seq<(nat, seq<nat>)>, i: nat, n: nat)
    requires forall k | 0 <= k < |list| :: forall j | 0 <= j < |list[k].1| :: list[k].1[j] < n
    ensures Below(WaitsOf(list, i), n)
    decreases |list|
  {
    if list != [] {
      WaitsOfBelow(list[..|list| - 1], i, n);
    }
  }

  lemma {:induction false} AscendingElements(s: set<nat>, n: nat)
    ensures forall x: nat :: x in Ascending(s, n) <==> x in s && x < n
  {
    if n > 0 {
      AscendingElements(s, n - 1);
    }
  }

  lemma {:induction false} ResultListKeeps(results: Results, n: nat, i: nat)
    requires n <= |results|
    ensures LastResult(ResultList(results, n), i) == if i < n then results[i] else None
    ensures forall k | 0 <= k < |ResultList(results, n)| :: ResultList(results, n)[k].0 < n
  {
    if n > 0 {
      ResultListKeeps(results, n - 1, i);
      var list := ResultList(results, n);
      if results[n - 1].Some? {
        assert list[..|list| - 1] == ResultList(results, n - 1);
      }
    }
  }

  lemma AscendingFits(s: set<nat>, n: nat)
    requires Below(s, n)
    ensures Elements(Ascending(s, n)) == s
    ensures forall j | 0 <= j < |Ascending(s, n)| :: Ascending(s, n)[j] < n
  {
    AscendingElements(s, n);
    forall j | 0 <= j < |Ascending(s, n)| ensures Ascending(s, n)[j] < n {
      assert Ascending(s, n)[j] in Ascending(s, n);
    }
  }

  lemma {:induction false} WaitingListKeeps(waitingOn: seq<set<nat>>, n: nat, i: nat)
    requires n <= |waitingOn|
    requires forall k | 0 <= k < |waitingOn| :: Below(waitingOn[k], |waitingOn|)
    ensures WaitsOf(WaitingList(waitingOn, n), i) == if i < n then waitingOn[i] else {}
  {
    if n > 0 {
      WaitingListKeeps(waitingOn, n - 1, i);
      AscendingFits(waitingOn[n - 1], |waitingOn|);
      var list := WaitingList(waitingOn, n);
      if waitingOn[n - 1] != {} {
        assert list[..|list| - 1] == WaitingList(waitingOn, n - 1);
      }
    }
  }

  lemma {:induction false} WaitingListFits(waitingOn: seq<set<nat>>, n: nat)
    requires n <= |waitingOn|
    requires forall k | 0 <= k < |waitingOn| :: Below(waitingOn[k], |waitingOn|)
    ensures forall k | 0 <= k < |WaitingList(waitingOn, n)| :: RowFits(WaitingList(waitingOn, n)[k], n, |waitingOn|)
  {
    if n > 0 {
      var m := |waitingOn|;
      var front, list := WaitingList(waitingOn, n - 1), WaitingList(waitingOn, n);
      WaitingListFits(waitingOn, n - 1);
      AscendingFits(waitingOn[n - 1], m);
      forall k | 0 <= k < |list| ensures RowFits(list[k], n, m) {
        if k < |front| {
          assert list[k] == front[k] && RowFits(front[k], n - 1, m);
        } else {
          assert list[k] == (n - 1, Ascending(waitingOn[n - 1], m));
        }
      }
    }
  }

  /** The codec is lossless: restoring the checkpoint of a consistent item into
    any item of the same flow gives the same state, with the waiters index,
    which is not stored, rebuilt exactly. */
  lemma CheckpointRoundTrip(n: nat, v: View)
    requires Consistent(n, v)
    ensures Fits(n, CheckpointOf(v)) && RestoredView(n, CheckpointOf(v)) == v
  {
    var c := CheckpointOf(v);
    AscendingFits(v.completed, n);
    AscendingFits(v.needed, n);
    ResultListKeeps(v.results, n, 0);
    WaitingListFits(v.waitingOn, n);
    forall i: nat | i < n
      ensures LastResult(c.results, i) == v.results[i] && WaitsOf(c.waitingOn, i) == v.waitingOn[i]
    {
      ResultListKeeps(v.results, n, i);
      WaitingListKeeps(v.waitingOn, n, i);
    }
    var r := RestoredView(n, c);
    assert r.completed == v.completed && r.needed == v.needed;
    assert r.results == v.results && r.waitingOn == v.waitingOn && r.waiters == v.waiters;
  }
}
