/** Mutual exclusion of recovery: which process holds which run, the guard on
  lease releases under which at most one live process does, and what happens
  without the guard. */
module ClusterExclusion {
  import opened Basics
  import opened Cluster
  import opened Journals
  import opened Records

  /** The process is recovering the run, or executes it under a granted lease,
    or is about to. */
  ghost predicate Holds(p: Process, r: RunId) {
    || r in p.claimed
    || (exists x :: ExecutesUnderLease(p, x, r))
    || SubmitsUnderLease(p, r)
  }

  predicate ExecutesUnderLease(p: Process, x: ExecutorId, r: RunId) {
    x in p.executors && p.executors[x] == Executor(r, true, false)
  }

  predicate SubmitsUnderLease(p: Process, r: RunId) {
    r in p.submitting && p.submitting[r] in {Leased(true), Built(true)}
  }

  /** An executor that ends is the only reason for which its process holds the run. */
  ghost predicate SoleHolder(p: Process, x: ExecutorId) {
    x in p.executors ==>
      var r := p.executors[x].run;
      && r !in p.claimed
      && !SubmitsUnderLease(p, r)
      && forall y | y != x :: !ExecutesUnderLease(p, y, r)
  }

  /** A step that releases no lease of a run its process still holds. */
  ghost predicate Careful(s: State, step: Step)
    requires Enabled(s, step)
  {
    && (step.ReleaseLease? ==> SoleHolder(s.procs[step.o], step.x))
    && (step.ReleaseAll? ==> forall r :: !Holds(s.procs[step.o], r))
  }

  /** A run of the system in which no lease is released while its process
    still holds the run for another reason. */
  ghost predicate IsCarefulRun(s: State, steps: seq<Step>, s': State)
    decreases |steps|
  {
    if steps == [] then s == s'
    else
      && Enabled(s, steps[0])
      && Careful(s, steps[0])
      && IsCarefulRun(Apply(s, steps[0]), steps[1..], s')
  }

  ghost predicate HeldUnderLease(s: State) {
    forall o, r | Live(s, o) && Holds(s.procs[o], r) ::
      r in s.leases && s.leases[r] == Lease(o, s.procs[o].epoch)
  }

  lemma SubmissionKeepsLeases(s: State, step: Step)
    requires HeldUnderLease(s) && IsSubmission(step) && Enabled(s, step) && !step.Spawn? && !step.AcquireForSubmit?
    ensures HeldUnderLease(Apply(s, step))
  {
    var s' := Apply(s, step);
    forall o, r | Live(s', o) && Holds(s'.procs[o], r)
      ensures r in s'.leases && s'.leases[r] == Lease(o, s'.procs[o].epoch)
    {
      assert Holds(s.procs[o], r) by {
        forall x | ExecutesUnderLease(s'.procs[o], x, r) ensures ExecutesUnderLease(s.procs[o], x, r) {}
      }
    }
  }

  lemma ExecutionKeepsLeases(s: State, step: Step)
    requires HeldUnderLease(s) && IsExecution(step) && Enabled(s, step) && !step.ReleaseLease? && !step.ReleaseAll?
    ensures HeldUnderLease(Apply(s, step))
  {
    var s' := Apply(s, step);
    forall o, r | Live(s', o) && Holds(s'.procs[o], r)
      ensures r in s'.leases && s'.leases[r] == Lease(o, s'.procs[o].epoch)
    {
      assert Holds(s.procs[o], r) by {
        forall x | ExecutesUnderLease(s'.procs[o], x, r) ensures ExecutesUnderLease(s.procs[o], x, r) {}
      }
    }
  }

  lemma ClaimingKeepsLeases(s: State, step: Step)
    requires HeldUnderLease(s) && IsClaiming(step) && Enabled(s, step) && !step.TryAcquire?
    ensures HeldUnderLease(Apply(s, step))
  {
    var s' := Apply(s, step);
    forall o, r | Live(s', o) && Holds(s'.procs[o], r)
      ensures r in s'.leases && s'.leases[r] == Lease(o, s'.procs[o].epoch)
    {
      assert Holds(s.procs[o], r) by {
        forall x | ExecutesUnderLease(s'.procs[o], x, r) ensures ExecutesUnderLease(s.procs[o], x, r) {}
      }
    }
  }

  lemma RecoveryKeepsLeases(s: State, step: Step)
    requires HeldUnderLease(s) && IsRecovery(step) && Enabled(s, step) && !step.Resume?
    ensures HeldUnderLease(Apply(s, step))
  {
    var s' := Apply(s, step);
    forall o, r | Live(s', o) && Holds(s'.procs[o], r)
      ensures r in s'.leases && s'.leases[r] == Lease(o, s'.procs[o].epoch)
    {
      assert Holds(s.procs[o], r) by {
        forall x | ExecutesUnderLease(s'.procs[o], x, r) ensures ExecutesUnderLease(s.procs[o], x, r) {}
      }
    }
  }

  lemma SpawnKeepsLeases(s: State, step: Step)
    requires HeldUnderLease(s) && Enabled(s, step) && step.Spawn?
    ensures HeldUnderLease(Apply(s, step))
  {
    var s' := Apply(s, step);
    forall o, r | Live(s', o) && Holds(s'.procs[o], r)
      ensures r in s'.leases && s'.leases[r] == Lease(o, s'.procs[o].epoch)
    {
      assert Holds(s.procs[o], r) by {
        if x :| ExecutesUnderLease(s'.procs[o], x, r) {
          assert (o == step.o && x == step.x && r == step.r) || ExecutesUnderLease(s.procs[o], x, r);
        }
      }
    }
  }

  lemma ResumeKeepsLeases(s: State, step: Step)
    requires HeldUnderLease(s) && Enabled(s, step) && step.Resume?
    ensures HeldUnderLease(Apply(s, step))
  {
    var s' := Apply(s, step);
    forall o, r | Live(s', o) && Holds(s'.procs[o], r)
      ensures r in s'.leases && s'.leases[r] == Lease(o, s'.procs[o].epoch)
    {
      assert Holds(s.procs[o], r) by {
        if x :| ExecutesUnderLease(s'.procs[o], x, r) {
          assert (o == step.o && x == step.x && r == step.r) || ExecutesUnderLease(s.procs[o], x, r);
        }
      }
    }
  }

  lemma AcquireKeepsLeases(s: State, step: Step)
    requires HeldUnderLease(s) && Enabled(s, step) && (step.AcquireForSubmit? || step.TryAcquire?)
    ensures HeldUnderLease(Apply(s, step))
  {
    var s' := Apply(s, step);
    var run := if step.TryAcquire? then s.procs[step.o].phase.pending[0].run else step.r;
    var granted := !step.fails && Grants(s, step.o, run);
    assert s'.leases == if granted then s.leases[run := Lease(step.o, s.procs[step.o].epoch)] else s.leases;
    assert s'.procs[step.o].epoch == s.procs[step.o].epoch;
    forall o, r | Live(s', o) && Holds(s'.procs[o], r)
      ensures r in s'.leases && s'.leases[r] == Lease(o, s'.procs[o].epoch)
    {
      if !(o == step.o && r == run && granted) {
        assert Holds(s.procs[o], r) by {
          forall x | ExecutesUnderLease(s'.procs[o], x, r) ensures ExecutesUnderLease(s.procs[o], x, r) {}
        }
        assert s.leases[r] == Lease(o, s.procs[o].epoch);
      }
    }
  }

  lemma OutsideKeepsLeases(s: State, step: Step)
    requires HeldUnderLease(s) && IsOutside(step) && Enabled(s, step)
    ensures HeldUnderLease(Apply(s, step))
  {
    var s' := Apply(s, step);
    forall o, r | Live(s', o) && Holds(s'.procs[o], r)
      ensures r in s'.leases && s'.leases[r] == Lease(o, s'.procs[o].epoch)
    {
      assert Holds(s.procs[o], r);
      assert Live(s, o);
    }
  }

  lemma ReleaseKeepsLeases(s: State, step: Step)
    requires HeldUnderLease(s) && Enabled(s, step) && step.ReleaseLease?
    requires SoleHolder(s.procs[step.o], step.x)
    ensures HeldUnderLease(Apply(s, step))
  {
    var s' := Apply(s, step);
    var run := s.procs[step.o].executors[step.x].run;
    forall o, r | Live(s', o) && Holds(s'.procs[o], r)
      ensures r in s'.leases && s'.leases[r] == Lease(o, s'.procs[o].epoch)
    {
      assert Holds(s.procs[o], r) by {
        forall x | ExecutesUnderLease(s'.procs[o], x, r) ensures ExecutesUnderLease(s.procs[o], x, r) {}
      }
      if o == step.o && r == run {
        forall x ensures !ExecutesUnderLease(s'.procs[o], x, run) {
          assert x != step.x ==> !ExecutesUnderLease(s.procs[o], x, run);
        }
      }
    }
  }

  lemma ReleaseAllKeepsLeases(s: State, o: OrchId)
    requires HeldUnderLease(s) && Live(s, o) && forall r :: !Holds(s.procs[o], r)
    ensures HeldUnderLease(Apply(s, ReleaseAll(o)))
  {
    var s' := Apply(s, ReleaseAll(o));
    forall p, r | Live(s', p) && Holds(s'.procs[p], r)
      ensures r in s'.leases && s'.leases[r] == Lease(p, s'.procs[p].epoch)
    {
      assert Live(s, p) && Holds(s.procs[p], r) && p != o;
    }
  }

  lemma CarefulStepKeepsLeases(s: State, step: Step)
    requires HeldUnderLease(s) && Enabled(s, step) && Careful(s, step)
    ensures HeldUnderLease(Apply(s, step))
  {
    if step.Spawn? {
      SpawnKeepsLeases(s, step);
    } else if step.Resume? {
      ResumeKeepsLeases(s, step);
    } else if step.AcquireForSubmit? || step.TryAcquire? {
      AcquireKeepsLeases(s, step);
    } else if step.ReleaseLease? {
      ReleaseKeepsLeases(s, step);
    } else if step.ReleaseAll? {
      ReleaseAllKeepsLeases(s, step.o);
    } else if IsSubmission(step) {
      SubmissionKeepsLeases(s, step);
    } else if IsExecution(step) {
      ExecutionKeepsLeases(s, step);
    } else if IsClaiming(step) {
      ClaimingKeepsLeases(s, step);
    } else if IsRecovery(step) {
      RecoveryKeepsLeases(s, step);
    } else {
      OutsideKeepsLeases(s, step);
    }
  }

  lemma {:induction false} CarefulRunKeepsLeases(s: State, steps: seq<Step>, s': State)
    requires HeldUnderLease(s) && IsCarefulRun(s, steps, s')
    ensures HeldUnderLease(s')
    decreases |steps|
  {
    if steps != [] {
      CarefulStepKeepsLeases(s, steps[0]);
      CarefulRunKeepsLeases(Apply(s, steps[0]), steps[1..], s');
    }
  }

  /** Over any number of orchestrators, crashes, restarts, lapses and wrong
    orphan marks, no run is claimed, executed under a lease, or about to be, by
    two live orchestrators. */
  lemma {:induction false} OneHolderPerRun(s: State, steps: seq<Step>, s': State, o: OrchId, p: OrchId, r: RunId)
    requires Init(s) && IsCarefulRun(s, steps, s')
    requires Live(s', o) && Live(s', p) && Holds(s'.procs[o], r) && Holds(s'.procs[p], r)
    ensures o == p
  {
    assert HeldUnderLease(s);
    CarefulRunKeepsLeases(s, steps, s');
    assert s'.leases[r] == Lease(o, s'.procs[o].epoch);
    assert s'.leases[r] == Lease(p, s'.procs[p].epoch);
  }

  /** The guard on releases is exact: releasing keeps leases and holders in
    step if and only if the ending executor was the only reason to hold the run. */
  lemma ReleaseIsSafeIffSoleHolder(s: State, o: OrchId, x: ExecutorId)
    requires HeldUnderLease(s) && Enabled(s, ReleaseLease(o, x))
    ensures HeldUnderLease(Apply(s, ReleaseLease(o, x))) <==> SoleHolder(s.procs[o], x)
  {
    var step := ReleaseLease(o, x);
    var s' := Apply(s, step);
    var run := s.procs[o].executors[x].run;
    if SoleHolder(s.procs[o], x) {
      ReleaseKeepsLeases(s, step);
    } else {
      if y :| y != x && ExecutesUnderLease(s.procs[o], y, run) {
        assert ExecutesUnderLease(s'.procs[o], y, run);
      }
      assert Holds(s.procs[o], run) && Holds(s'.procs[o], run);
      assert run !in s'.leases;
      assert Live(s', o);
    }
  }

  /** The same for graceful shutdown, which releases everything at once: it is
    harmless if and only if the process holds nothing. */
  lemma ReleaseAllIsSafeIffHoldingNothing(s: State, o: OrchId)
    requires HeldUnderLease(s) && Live(s, o)
    ensures HeldUnderLease(Apply(s, ReleaseAll(o))) <==> forall r :: !Holds(s.procs[o], r)
  {
    var s' := Apply(s, ReleaseAll(o));
    if r :| Holds(s.procs[o], r) {
      assert s.leases[r].owner == o && r !in s'.leases;
      assert Live(s', o) && Holds(s'.procs[o], r);
    } else {
      ReleaseAllKeepsLeases(s, o);
    }
  }

  lemma {:induction false} RunsCompose(s: State, before: seq<Step>, s': State, after: seq<Step>, s'': State)
    requires IsRun(s, before, s') && IsRun(s', after, s'')
    ensures IsRun(s, before + after, s'')
    decreases |before|
  {
    if before == [] {
      assert before + after == after;
    } else {
      RunsCompose(Apply(s, before[0]), before[1..], s', after, s'');
      assert (before + after)[1..] == before[1..] + after;
    }
  }

  lemma {:induction false} ChainIsRun(states: seq<State>, steps: seq<Step>)
    requires |states| == |steps| + 1
    requires forall i | 0 <= i < |steps| :: Enabled(states[i], steps[i]) && states[i + 1] == Apply(states[i], steps[i])
    ensures IsRun(states[0], steps, states[|steps|])
    decreases |steps|
  {
    if steps != [] {
      ChainIsRun(states[1..], steps[1..]);
    }
  }

  /** A wrong orphan mark followed by another process's claim of the run. */
  function TakeOver(q: OrchId, r: RunId): seq<Step> {
    [MarkOrphans({}), ListOwn(q, [], 1), ListOrphans(q, [r]), TryAcquire(q, false)]
  }

  ghost predicate CanTakeOver(s: State, q: OrchId, r: RunId) {
    && Live(s, q) && s.procs[q].phase == Idle
    && r in s.records && s.records[r].status == Running && r !in s.leases
  }

  lemma {:induction false} OrphanedRunIsListed(s: State, q: OrchId, r: RunId) returns (s': State)
    requires CanTakeOver(s, q, r)
    ensures IsRun(s, TakeOver(q, r)[..3], s')
    ensures s'.leases == s.leases && r in s'.records
    ensures s'.procs ==
      s.procs[q := s.procs[q].(phase := Claiming([Summary(r, None, s.records[r].createdAt)]))]
  {
    var s1 := Apply(s, MarkOrphans({}));
    assert s1.records[r] == s.records[r].(owner := None);
    var s2 := Apply(s1, ListOwn(q, [], 1));
    assert Summaries(s1, []) == [];
    s' := Apply(s2, ListOrphans(q, [r]));
    assert [] + Summaries(s2, [r]) == [Summary(r, None, s.records[r].createdAt)];
    ChainIsRun([s, s1, s2, s'], [MarkOrphans({}), ListOwn(q, [], 1), ListOrphans(q, [r])]);
    assert TakeOver(q, r)[..3] == [MarkOrphans({}), ListOwn(q, [], 1), ListOrphans(q, [r])];
  }

  lemma {:induction false} TakeOverSucceeds(s: State, q: OrchId, r: RunId) returns (s': State)
    requires CanTakeOver(s, q, r)
    ensures IsRun(s, TakeOver(q, r), s')
    ensures s'.procs == s.procs[q :=
      s.procs[q].(claimed := s.procs[q].claimed[r := s.records[r].createdAt], phase := Healing(r, q, []))]
    ensures r in s'.leases && s'.leases[r].owner == q
    ensures r in s'.records
  {
    var s1 := OrphanedRunIsListed(s, q, r);
    s' := Apply(s1, TryAcquire(q, false));
    assert s1.procs[q].phase.pending[1..] == [];
    ChainIsRun([s1, s'], [TryAcquire(q, false)]);
    RunsCompose(s, TakeOver(q, r)[..3], s1, [TryAcquire(q, false)], s');
    assert TakeOver(q, r) == TakeOver(q, r)[..3] + [TryAcquire(q, false)];
  }

  /** Without the guard exclusion fails: from every state in which an executor
    ends while its process still holds the still Running run, five steps give
    the run a second live holder. */
  lemma {:induction false} CarelessReleaseLosesExclusion(s: State, o: OrchId, x: ExecutorId, q: OrchId)
      returns (steps: seq<Step>, s': State)
    requires HeldUnderLease(s) && Enabled(s, ReleaseLease(o, x)) && !SoleHolder(s.procs[o], x)
    requires q != o && Live(s, q) && s.procs[q].phase == Idle
    requires var r := s.procs[o].executors[x].run; r in s.records && s.records[r].status == Running
    ensures IsRun(s, steps, s') && |steps| == 5
    ensures var r := s.procs[o].executors[x].run;
      Live(s', o) && Live(s', q) && Holds(s'.procs[o], r) && Holds(s'.procs[q], r)
  {
    var r := s.procs[o].executors[x].run;
    var release := ReleaseLease(o, x);
    var s1 := Apply(s, release);
    if y :| y != x && ExecutesUnderLease(s.procs[o], y, r) {
      assert ExecutesUnderLease(s1.procs[o], y, r);
    }
    assert Holds(s.procs[o], r) && Holds(s1.procs[o], r);
    s' := TakeOverSucceeds(s1, q, r);
    ChainIsRun([s, s1], [release]);
    steps := [release] + TakeOver(q, r);
    RunsCompose(s, [release], s1, TakeOver(q, r), s');
  }

  /** Shutting down while a run is still held: five steps give a Running run a
    second live holder. */
  lemma {:induction false} ShutdownLosesExclusion(s: State, o: OrchId, r: RunId, q: OrchId)
      returns (steps: seq<Step>, s': State)
    requires HeldUnderLease(s) && Live(s, o) && Holds(s.procs[o], r)
    requires q != o && Live(s, q) && s.procs[q].phase == Idle
    requires r in s.records && s.records[r].status == Running
    ensures IsRun(s, steps, s') && |steps| == 5
    ensures Live(s', o) && Live(s', q) && Holds(s'.procs[o], r) && Holds(s'.procs[q], r)
  {
    var s1 := Apply(s, ReleaseAll(o));
    assert s.leases[r].owner == o && r !in s1.leases;
    s' := TakeOverSucceeds(s1, q, r);
    ChainIsRun([s, s1], [ReleaseAll(o)]);
    steps := [ReleaseAll(o)] + TakeOver(q, r);
    RunsCompose(s, [ReleaseAll(o)], s1, TakeOver(q, r), s');
    assert s'.procs[o] == s.procs[o];
  }

  /** The rest of a submission after its record was created, whatever the
    lease manager answers. */
  lemma {:induction false} SubmitterGoesOn(s: State, o: OrchId, r: RunId, x: ExecutorId) returns (s': State)
    requires SubmitAt(s, o, r) && s.procs[o].submitting[r] == Recorded && x !in s.procs[o].executors
    requires r in s.records
    ensures IsRun(s, [AcquireForSubmit(o, r, false), BuildExecutor(o, r), Spawn(o, r, x)], s')
    ensures o in s'.procs
    ensures s' == Acquire(s, o, r).(procs := s.procs[o := s'.procs[o]])
    ensures s'.procs[o].live && s'.procs[o].phase == s.procs[o].phase
    ensures x in s'.procs[o].executors && s'.procs[o].executors[x] == Executor(r, Grants(s, o, r), false)
  {
    var s1 := Apply(s, AcquireForSubmit(o, r, false));
    assert s1.procs[o].submitting[r] == Leased(Grants(s, o, r));
    var s2 := Apply(s1, BuildExecutor(o, r));
    s' := Apply(s2, Spawn(o, r, x));
    ChainIsRun([s, s1, s2, s'], [AcquireForSubmit(o, r, false), BuildExecutor(o, r), Spawn(o, r, x)]);
  }

  lemma {:induction false} SubmissionRecords(s: State, o: OrchId, r: RunId) returns (s': State)
    requires Live(s, o) && Unused(s, r)
    ensures IsRun(s, [BeginSubmit(o, r), WriteCreated(o, r, 0), CreateRecord(o, r)], s')
    ensures s'.leases == s.leases && r in s'.records && s'.records[r] == RunRecord(Running, Some(o), 0)
    ensures s'.procs == s.procs[o := s.procs[o].(submitting := s.procs[o].submitting[r := Recorded])]
  {
    var s1 := Apply(s, BeginSubmit(o, r));
    var s2 := Apply(s1, WriteCreated(o, r, 0));
    s' := Apply(s2, CreateRecord(o, r));
    ChainIsRun([s, s1, s2, s'], [BeginSubmit(o, r), WriteCreated(o, r, 0), CreateRecord(o, r)]);
    assert s'.procs[o].submitting == s.procs[o].submitting[r := Recorded];
  }

  /** The listing of a process's own runs contains the ones it is executing. */
  lemma {:induction false} OwnRunIsReclaimed(s: State, o: OrchId, r: RunId) returns (s': State)
    requires Live(s, o) && s.procs[o].phase == Idle && Grants(s, o, r)
    requires r in s.records && s.records[r].status == Running && s.records[r].owner == Some(o)
    ensures IsRun(s, [ListOwn(o, [r], 1), TryAcquire(o, false)], s')
    ensures o in s'.procs && s'.procs == s.procs[o := s'.procs[o]]
    ensures s'.records == s.records && s'.leases == s.leases[r := Lease(o, s.procs[o].epoch)]
    ensures s'.procs[o].live && s'.procs[o].executors == s.procs[o].executors && r in s'.procs[o].claimed
  {
    var s1 := Apply(s, ListOwn(o, [r], 1));
    assert s1.procs[o].phase == Claiming([Summary(r, Some(o), s.records[r].createdAt)]);
    s' := Apply(s1, TryAcquire(o, false));
    ChainIsRun([s, s1, s'], [ListOwn(o, [r], 1), TryAcquire(o, false)]);
  }

  lemma {:induction false} ReclaimThenReleaseLosesExclusion(s: State, o: OrchId, q: OrchId, r: RunId, x: ExecutorId)
      returns (steps: seq<Step>, s': State)
    requires o != q && Live(s, o) && Live(s, q) && s.procs[o].phase == Idle && s.procs[q].phase == Idle
    requires r in s.records && s.records[r].status == Running && s.records[r].owner == Some(o)
    requires Works(s, o, x) && s.procs[o].executors[x].run == r && Grants(s, o, r)
    ensures IsRun(s, steps, s')
    ensures Live(s', o) && Live(s', q) && r in s'.procs[o].claimed && r in s'.procs[q].claimed
  {
    var s1 := OwnRunIsReclaimed(s, o, r);
    var s2 := Apply(s1, ReleaseLease(o, x));
    ChainIsRun([s1, s2], [ReleaseLease(o, x)]);
    s' := TakeOverSucceeds(s2, q, r);
    RunsCompose(s1, [ReleaseLease(o, x)], s2, TakeOver(q, r), s');
    RunsCompose(s, [ListOwn(o, [r], 1), TryAcquire(o, false)], s1, [ReleaseLease(o, x)] + TakeOver(q, r), s');
    steps := [ListOwn(o, [r], 1), TryAcquire(o, false)] + ([ReleaseLease(o, x)] + TakeOver(q, r));
  }

  /** Exclusion does fail from the initial state: a process that ends the
    execution of a run it has just re-claimed lets another one claim it too. */
  lemma {:induction false} ExclusionCanFail(s: State, o: OrchId, q: OrchId, r: RunId)
      returns (steps: seq<Step>, s': State)
    requires Init(s) && o != q && o in s.procs && q in s.procs
    ensures IsRun(s, steps, s')
    ensures Live(s', o) && Live(s', q) && r in s'.procs[o].claimed && r in s'.procs[q].claimed
  {
    var record := [BeginSubmit(o, r), WriteCreated(o, r, 0), CreateRecord(o, r)];
    var start := [AcquireForSubmit(o, r, false), BuildExecutor(o, r), Spawn(o, r, 0)];
    var s1 := SubmissionRecords(s, o, r);
    var s2 := SubmitterGoesOn(s1, o, r, 0);
    var rest;
    rest, s' := ReclaimThenReleaseLosesExclusion(s2, o, q, r, 0);
    RunsCompose(s1, start, s2, rest, s');
    RunsCompose(s, record, s1, start + rest, s');
    steps := record + (start + rest);
  }

  predicate Executes(p: Process, x: ExecutorId, r: RunId) {
    x in p.executors && p.executors[x].run == r && !p.executors[x].released
  }

  lemma {:induction false} ClaimantFilters(s: State, q: OrchId, r: RunId) returns (s': State)
    requires Live(s, q) && s.procs[q].phase == Healing(r, q, []) && r in s.procs[q].claimed && r !in s.procs[q].active
    ensures IsRun(s, [Heal(q, true), FilterActive(q)], s')
    ensures q in s'.procs && s' == s.(procs := s.procs[q := s'.procs[q]])
    ensures s'.procs[q].live && s'.procs[q].phase == Recovering && r in s'.procs[q].claimed
    ensures s'.procs[q].executors == s.procs[q].executors
  {
    var s1 := Apply(s, Heal(q, true));
    assert s1.procs[q] == s.procs[q].(phase := Claiming([]));
    s' := Apply(s1, FilterActive(q));
    ChainIsRun([s, s1, s'], [Heal(q, true), FilterActive(q)]);
  }

  lemma {:induction false} ClaimantResumes(s: State, q: OrchId, r: RunId, y: ExecutorId) returns (s': State)
    requires Live(s, q) && s.procs[q].phase == Healing(r, q, []) && r in s.procs[q].claimed
    requires r in s.records && r !in s.procs[q].active && y !in s.procs[q].executors
    ensures IsRun(s, [Heal(q, true), FilterActive(q), Resume(q, r, y)], s')
    ensures Live(s', q) && Executes(s'.procs[q], y, r)
    ensures s' == s.(procs := s.procs[q := s'.procs[q]])
  {
    var s1 := ClaimantFilters(s, q, r);
    s' := Apply(s1, Resume(q, r, y));
    ChainIsRun([s1, s'], [Resume(q, r, y)]);
    RunsCompose(s, [Heal(q, true), FilterActive(q)], s1, [Resume(q, r, y)], s');
    assert [Heal(q, true), FilterActive(q)] + [Resume(q, r, y)] == [Heal(q, true), FilterActive(q), Resume(q, r, y)];
  }

  /** The submission ignores the answer of `acquire_lease`, so a run that was
    taken over between `create_run` and the lease request is executed twice. */
  lemma {:induction false} SubmissionRaceExecutesTwice(s: State, o: OrchId, r: RunId, q: OrchId, x: ExecutorId,
                                                       y: ExecutorId)
      returns (steps: seq<Step>, s': State)
    requires SubmitAt(s, o, r) && s.procs[o].submitting[r] == Recorded && x !in s.procs[o].executors
    requires q != o && CanTakeOver(s, q, r) && r !in s.procs[q].active && y !in s.procs[q].executors
    ensures IsRun(s, steps, s')
    ensures Live(s', o) && Live(s', q) && Executes(s'.procs[o], x, r) && Executes(s'.procs[q], y, r)
    ensures !s'.procs[o].executors[x].leased
  {
    var s1 := TakeOverSucceeds(s, q, r);
    var s2 := ClaimantResumes(s1, q, r, y);
    s' := SubmitterGoesOn(s2, o, r, x);
    var claim := [Heal(q, true), FilterActive(q), Resume(q, r, y)];
    var submit := [AcquireForSubmit(o, r, false), BuildExecutor(o, r), Spawn(o, r, x)];
    RunsCompose(s1, claim, s2, submit, s');
    RunsCompose(s, TakeOver(q, r), s1, claim + submit, s');
    steps := TakeOver(q, r) + (claim + submit);
  }

  /** Two executors of one run on different live orchestrators: at least one of
    them works without the lease, and so comes from a submission. */
  lemma {:induction false} DoubleExecutionNeedsUnleasedSubmission(
      s: State, steps: seq<Step>, s': State, o: OrchId, x: ExecutorId, q: OrchId, y: ExecutorId, r: RunId)
    requires Init(s) && IsCarefulRun(s, steps, s') && o != q && Live(s', o) && Live(s', q)
    requires Executes(s'.procs[o], x, r) && Executes(s'.procs[q], y, r)
    ensures !s'.procs[o].executors[x].leased || !s'.procs[q].executors[y].leased
  {
    if s'.procs[o].executors[x].leased && s'.procs[q].executors[y].leased {
      assert ExecutesUnderLease(s'.procs[o], x, r) && ExecutesUnderLease(s'.procs[q], y, r);
      OneHolderPerRun(s, steps, s', o, q, r);
    }
  }

  /** And conversely: wherever an executor works without the lease on a Running
    run whose lease is free, an idle process can come to execute the run too. */
  lemma {:induction false} UnleasedExecutionCanBeDoubled(s: State, o: OrchId, x: ExecutorId, r: RunId,
                                                         q: OrchId, y: ExecutorId)
      returns (steps: seq<Step>, s': State)
    requires Live(s, o) && Executes(s.procs[o], x, r) && !s.procs[o].executors[x].leased
    requires q != o && CanTakeOver(s, q, r) && r !in s.procs[q].active && y !in s.procs[q].executors
    ensures IsRun(s, steps, s')
    ensures Live(s', o) && Live(s', q) && Executes(s'.procs[o], x, r) && Executes(s'.procs[q], y, r)
  {
    var s1 := TakeOverSucceeds(s, q, r);
    s' := ClaimantResumes(s1, q, r, y);
    steps := TakeOver(q, r) + [Heal(q, true), FilterActive(q), Resume(q, r, y)];
    RunsCompose(s, TakeOver(q, r), s1, [Heal(q, true), FilterActive(q), Resume(q, r, y)], s');
    assert s'.procs[o] == s.procs[o];
  }
}
