/** Crash safety of submission: in every reachable state of the cluster the
  journal backs every run that is visible in the metadata store. */
module ClusterJournal {
  import opened Basics
  import opened Cluster
  import opened Journals
  import opened Records

  ghost predicate FirstEntry(s: State, r: RunId, sequence: nat) {
    r in s.journals && s.journals[r] != [] && s.journals[r][0] == Entry(sequence, RootRunCreated)
  }

  ghost predicate JournalsOrdered(s: State) {
    forall r | r in s.journals :: Ordered(s.journals[r])
  }

  ghost predicate RecordsBacked(s: State) {
    forall r | r in s.records :: FirstEntry(s, r, s.records[r].createdAt)
  }

  ghost predicate StageTracked(s: State, r: RunId, stage: Stage) {
    match stage
    case Journaling => r !in s.journals && r !in s.records
    case Journaled(q) => FirstEntry(s, r, q) && r !in s.records
    case _ => r in s.records
  }

  ghost predicate SubmissionsTracked(s: State) {
    && (forall o, r | o in s.procs && r in s.procs[o].submitting :: StageTracked(s, r, s.procs[o].submitting[r]))
    && (forall o, p, r | o in s.procs && p in s.procs && r in s.procs[o].submitting && r in s.procs[p].submitting ::
          o == p)
  }

  function Pending(phase: Phase): seq<Summary> {
    match phase
    case ListedOwn(own, _) => own
    case Claiming(pending) => pending
    case Healing(_, _, rest) => rest
    case _ => []
  }

  ghost predicate Known(s: State, r: RunId, createdAt: nat) {
    r in s.records && s.records[r].createdAt == createdAt
  }

  ghost predicate ProcessTracked(s: State, p: Process) {
    && (forall i | 0 <= i < |Pending(p.phase)| :: Known(s, Pending(p.phase)[i].run, Pending(p.phase)[i].createdAt))
    && (forall r | r in p.claimed :: Known(s, r, p.claimed[r]))
    && (forall x | x in p.executors :: p.executors[x].run in s.records)
  }

  ghost predicate RecoveriesTracked(s: State) {
    forall o | o in s.procs :: ProcessTracked(s, s.procs[o])
  }

  ghost predicate Consistent(s: State) {
    JournalsOrdered(s) && RecordsBacked(s) && SubmissionsTracked(s) && RecoveriesTracked(s)
  }

  /** Nothing that was ever written to the journal or to `createdAt` changes. */
  ghost predicate Extends(s: State, s': State) {
    && (forall r | r in s.journals :: r in s'.journals && s.journals[r] <= s'.journals[r])
    && (forall r | r in s.records :: Known(s', r, s.records[r].createdAt))
    && s.procs.Keys <= s'.procs.Keys
  }

  lemma SubmissionExtends(s: State, step: Step)
    requires IsSubmission(step) && Enabled(s, step)
    ensures Extends(s, Apply(s, step))
  {
    var s' := ApplySubmission(s, step);
    forall r | r in s.records ensures Known(s', r, s.records[r].createdAt) {}
  }

  lemma ExecutionExtends(s: State, step: Step)
    requires IsExecution(step) && Enabled(s, step)
    ensures Extends(s, Apply(s, step))
  {
    var s' := Apply(s, step);
    forall r | r in s.records ensures Known(s', r, s.records[r].createdAt) {}
  }

  lemma AcquireExtends(s: State, step: Step)
    requires step.TryAcquire? && Enabled(s, step)
    ensures Extends(s, Apply(s, step))
  {
    var s' := Apply(s, step);
    forall r | r in s.records ensures Known(s', r, s.records[r].createdAt) {}
  }

  lemma ClaimingExtends(s: State, step: Step)
    requires IsClaiming(step) && Enabled(s, step)
    ensures Extends(s, Apply(s, step))
  {
    if step.TryAcquire? {
      AcquireExtends(s, step);
    } else {
      var s' := Apply(s, step);
      forall r | r in s.records ensures Known(s', r, s.records[r].createdAt) {}
    }
  }

  lemma RecoveryExtends(s: State, step: Step)
    requires IsRecovery(step) && Enabled(s, step)
    ensures Extends(s, Apply(s, step))
  {
    var s' := Apply(s, step);
    forall r | r in s.records ensures Known(s', r, s.records[r].createdAt) {}
  }

  lemma OutsideExtends(s: State, step: Step)
    requires IsOutside(step) && Enabled(s, step)
    ensures Extends(s, Apply(s, step))
  {
    var s' := Apply(s, step);
    forall r | r in s.records ensures Known(s', r, s.records[r].createdAt) {}
  }

  lemma StepExtends(s: State, step: Step)
    requires Enabled(s, step)
    ensures Extends(s, Apply(s, step))
  {
    if IsSubmission(step) {
      SubmissionExtends(s, step);
    } else if IsExecution(step) {
      ExecutionExtends(s, step);
    } else if IsClaiming(step) {
      ClaimingExtends(s, step);
    } else if IsRecovery(step) {
      RecoveryExtends(s, step);
    } else {
      OutsideExtends(s, step);
    }
  }

  predicate MayCreateRecord(step: Step) {
    step.CreateRecord? || step.BuildExecutor? || step.Resume?
  }

  predicate MayWriteJournal(step: Step) {
    step.WriteCreated? || step.WriteProgress?
  }

  predicate AddsNothing(s: State, s': State, step: Step) {
    && (!MayCreateRecord(step) ==> s'.records.Keys == s.records.Keys)
    && (!MayWriteJournal(step) ==> s'.journals == s.journals)
  }

  lemma SubmissionAddsNothing(s: State, step: Step)
    requires Enabled(s, step) && IsSubmission(step)
    ensures AddsNothing(s, Apply(s, step), step)
  {}

  lemma ExecutionAddsNothing(s: State, step: Step)
    requires Enabled(s, step) && IsExecution(step)
    ensures AddsNothing(s, Apply(s, step), step)
  {}

  lemma ClaimingAddsNothing(s: State, step: Step)
    requires Enabled(s, step) && IsClaiming(step)
    ensures AddsNothing(s, Apply(s, step), step)
  {}

  lemma RecoveryAddsNothing(s: State, step: Step)
    requires Enabled(s, step) && IsRecovery(step)
    ensures AddsNothing(s, Apply(s, step), step)
  {}

  /** Creating a record and appending to a journal are the only steps that can
    add a run to the one or the other store. */
  lemma StepAddsNothing(s: State, step: Step)
    requires Enabled(s, step)
    ensures AddsNothing(s, Apply(s, step), step)
  {
    if IsSubmission(step) {
      SubmissionAddsNothing(s, step);
    } else if IsExecution(step) {
      ExecutionAddsNothing(s, step);
    } else if IsClaiming(step) {
      ClaimingAddsNothing(s, step);
    } else if IsRecovery(step) {
      RecoveryAddsNothing(s, step);
    }
  }

  lemma StepKeepsJournalsOrdered(s: State, step: Step)
    requires JournalsOrdered(s) && Enabled(s, step)
    ensures JournalsOrdered(Apply(s, step))
  {
    var s' := Apply(s, step);
    StepAddsNothing(s, step);
    if MayWriteJournal(step) {
      forall r | r in s'.journals ensures Ordered(s'.journals[r]) {
        if r in s.journals { assert Ordered(s.journals[r]); }
      }
    }
  }

  /** Only `submit_run` itself makes a run visible: the later `create_run`
    calls with sequence 0 find the record already there. */
  lemma {:induction false} OnlySubmissionMakesVisible(s: State, step: Step)
    requires Consistent(s) && Enabled(s, step)
    ensures forall r | r in Apply(s, step).records && r !in s.records :: step.CreateRecord? && step.r == r
  {
    if step.BuildExecutor? {
      assert StageTracked(s, step.r, s.procs[step.o].submitting[step.r]);
    } else if step.Resume? {
      assert ProcessTracked(s, s.procs[step.o]);
      assert Known(s, step.r, s.procs[step.o].claimed[step.r]);
    } else if !step.CreateRecord? {
      StepAddsNothing(s, step);
    }
  }

  lemma {:induction false} OnlySubmissionStartsJournals(s: State, step: Step)
    requires Consistent(s) && Enabled(s, step)
    ensures var s' := Apply(s, step);
      forall r | r in s'.journals && r !in s.journals ::
        step.WriteCreated? && step.r == r && s'.journals[r] == [Entry(step.sequence, RootRunCreated)]
  {
    if step.WriteProgress? {
      assert ProcessTracked(s, s.procs[step.o]);
      var run := s.procs[step.o].executors[step.x].run;
      assert FirstEntry(s, run, s.records[run].createdAt);
    } else if step.WriteCreated? {
      assert StageTracked(s, step.r, s.procs[step.o].submitting[step.r]);
    } else {
      StepAddsNothing(s, step);
    }
  }

  lemma StepKeepsRecordsBacked(s: State, step: Step)
    requires Consistent(s) && Enabled(s, step)
    ensures RecordsBacked(Apply(s, step))
  {
    var s' := Apply(s, step);
    StepExtends(s, step);
    OnlySubmissionMakesVisible(s, step);
    OnlySubmissionStartsJournals(s, step);
    forall r | r in s'.records ensures FirstEntry(s', r, s'.records[r].createdAt) {
      if r in s.records {
        assert FirstEntry(s, r, s.records[r].createdAt);
        assert Known(s', r, s.records[r].createdAt);
      } else {
        assert StageTracked(s, r, s.procs[step.o].submitting[r]);
      }
    }
  }

  lemma OtherSubmissionKept(s: State, step: Step, o: OrchId, r: RunId)
    requires Consistent(s) && Enabled(s, step)
    requires o in s.procs && r in s.procs[o].submitting
    requires (step.WriteCreated? || step.CreateRecord?) ==> r != step.r
    ensures StageTracked(Apply(s, step), r, s.procs[o].submitting[r])
  {
    StepExtends(s, step);
    OnlySubmissionMakesVisible(s, step);
    OnlySubmissionStartsJournals(s, step);
    assert StageTracked(s, r, s.procs[o].submitting[r]);
    assert r in s.records ==> Known(Apply(s, step), r, s.records[r].createdAt);
  }

  predicate AdvancesSubmission(step: Step) {
    step.BeginSubmit? || step.WriteCreated? || step.CreateRecord? || step.AcquireForSubmit? || step.BuildExecutor?
  }

  /** The claim loop changes nothing of its process but the phase and the claims. */
  ghost predicate OnlyClaims(s: State, step: Step, s': State)
    requires IsClaiming(step)
  {
    && step.o in s.procs && step.o in s'.procs
    && var p := s'.procs[step.o];
       s'.procs == s.procs[step.o := s.procs[step.o].(phase := p.phase, claimed := p.claimed)]
  }

  lemma AcquireOnlyClaims(s: State, step: Step)
    requires Enabled(s, step) && step.TryAcquire?
    ensures OnlyClaims(s, step, Apply(s, step))
  {}

  lemma ClaimingOnlyClaims(s: State, step: Step)
    requires Enabled(s, step) && IsClaiming(step)
    ensures OnlyClaims(s, step, Apply(s, step))
  {
    if step.TryAcquire? {
      AcquireOnlyClaims(s, step);
    }
  }

  lemma OthersLeaveSubmissions(s: State, step: Step, o: OrchId, r: RunId)
    requires Enabled(s, step) && !IsSubmission(step)
    requires var s' := Apply(s, step); o in s'.procs && r in s'.procs[o].submitting
    ensures o in s.procs && r in s.procs[o].submitting
    ensures s.procs[o].submitting[r] == Apply(s, step).procs[o].submitting[r]
  {
    if IsClaiming(step) {
      ClaimingOnlyClaims(s, step);
    }
  }

  lemma SubmissionsAfter(s: State, step: Step, o: OrchId, r: RunId)
    requires Enabled(s, step)
    requires var s' := Apply(s, step); o in s'.procs && r in s'.procs[o].submitting
    ensures o in s.procs
    ensures
      || (AdvancesSubmission(step) && o == step.o && r == step.r)
      || (r in s.procs[o].submitting && s.procs[o].submitting[r] == Apply(s, step).procs[o].submitting[r])
  {
    if !IsSubmission(step) {
      OthersLeaveSubmissions(s, step, o, r);
    }
  }

  lemma OwnSubmissionKept(s: State, step: Step)
    requires Consistent(s) && Enabled(s, step) && AdvancesSubmission(step)
    ensures var s' := Apply(s, step); StageTracked(s', step.r, s'.procs[step.o].submitting[step.r])
  {
    StepExtends(s, step);
    if !step.BeginSubmit? {
      assert StageTracked(s, step.r, s.procs[step.o].submitting[step.r]);
      assert step.r in s.records ==> Known(Apply(s, step), step.r, s.records[step.r].createdAt);
    }
  }

  lemma StepKeepsSubmissionsTracked(s: State, step: Step)
    requires Consistent(s) && Enabled(s, step)
    ensures SubmissionsTracked(Apply(s, step))
  {
    var s' := Apply(s, step);
    forall o, r | o in s'.procs && r in s'.procs[o].submitting
      ensures StageTracked(s', r, s'.procs[o].submitting[r])
      ensures (step.BeginSubmit? && o == step.o && r == step.r) || (o in s.procs && r in s.procs[o].submitting)
    {
      SubmissionsAfter(s, step, o, r);
      if AdvancesSubmission(step) && o == step.o && r == step.r {
        OwnSubmissionKept(s, step);
      } else {
        OtherSubmissionKept(s, step, o, r);
      }
    }
  }

  /** What another step may leave of a process's listing and claims. */
  ghost predicate OnlyDropped(p: Process, p': Process) {
    && (Pending(p'.phase) == Pending(p.phase) || Pending(p'.phase) == [])
    && (forall r | r in p'.claimed :: r in p.claimed && p.claimed[r] == p'.claimed[r])
  }

  lemma SubmissionLeavesClaims(s: State, step: Step, o: OrchId)
    requires Enabled(s, step) && (IsSubmission(step) || IsExecution(step)) && o in Apply(s, step).procs
    ensures o in s.procs && OnlyDropped(s.procs[o], Apply(s, step).procs[o])
  {
    if IsSubmission(step) {
      assert Apply(s, step) == ApplySubmission(s, step);
    }
  }

  lemma RecoveryDropsClaims(s: State, step: Step, o: OrchId)
    requires Enabled(s, step) && IsRecovery(step) && o in Apply(s, step).procs
    ensures o in s.procs && OnlyDropped(s.procs[o], Apply(s, step).procs[o])
  {}

  lemma OutsideDropsClaims(s: State, step: Step, o: OrchId)
    requires Enabled(s, step) && IsOutside(step) && o in Apply(s, step).procs
    ensures o in s.procs && OnlyDropped(s.procs[o], Apply(s, step).procs[o])
  {}

  /** Only the claim loop lists and claims runs. */
  lemma OthersOnlyDropClaims(s: State, step: Step, o: OrchId)
    requires Enabled(s, step) && !IsClaiming(step) && o in Apply(s, step).procs
    ensures o in s.procs && OnlyDropped(s.procs[o], Apply(s, step).procs[o])
  {
    if IsSubmission(step) || IsExecution(step) {
      SubmissionLeavesClaims(s, step, o);
    } else if IsRecovery(step) {
      RecoveryDropsClaims(s, step, o);
    } else {
      OutsideDropsClaims(s, step, o);
    }
  }

  lemma ListingAfterAcquire(s: State, step: Step, i: nat)
    requires RecoveriesTracked(s) && Enabled(s, step) && step.TryAcquire?
    requires i < |Pending(Apply(s, step).procs[step.o].phase)|
    ensures var su := Pending(Apply(s, step).procs[step.o].phase)[i]; Known(s, su.run, su.createdAt)
  {
    assert ProcessTracked(s, s.procs[step.o]);
    assert Pending(Apply(s, step).procs[step.o].phase)[i] == Pending(s.procs[step.o].phase)[i + 1];
  }

  lemma ListingAfterOther(s: State, step: Step, i: nat)
    requires RecoveriesTracked(s) && Enabled(s, step) && IsClaiming(step) && !step.TryAcquire?
    requires i < |Pending(Apply(s, step).procs[step.o].phase)|
    ensures var su := Pending(Apply(s, step).procs[step.o].phase)[i]; Known(s, su.run, su.createdAt)
  {
    assert ProcessTracked(s, s.procs[step.o]);
    var before := Pending(s.procs[step.o].phase);
    var after := Pending(Apply(s, step).procs[step.o].phase);
    if step.ListOwn? {
      assert after == Summaries(s, step.runs);
    } else if step.ListOrphans? {
      assert after == before + Summaries(s, step.runs);
    }
  }

  lemma ListingAfter(s: State, step: Step, o: OrchId, i: nat)
    requires RecoveriesTracked(s) && Enabled(s, step) && IsClaiming(step)
    requires var s' := Apply(s, step); o in s'.procs && i < |Pending(s'.procs[o].phase)|
    ensures o in s.procs
    ensures var su := Pending(Apply(s, step).procs[o].phase)[i]; Known(s, su.run, su.createdAt)
  {
    if o != step.o {
      ClaimingOnlyClaims(s, step);
      assert ProcessTracked(s, s.procs[o]);
    } else if step.TryAcquire? {
      ListingAfterAcquire(s, step, i);
    } else {
      ListingAfterOther(s, step, i);
    }
  }

  lemma ClaimsAfterOwn(s: State, step: Step, r: RunId)
    requires RecoveriesTracked(s) && Enabled(s, step) && IsClaiming(step)
    requires r in Apply(s, step).procs[step.o].claimed
    ensures Known(s, r, Apply(s, step).procs[step.o].claimed[r])
  {
    assert ProcessTracked(s, s.procs[step.o]);
    if step.TryAcquire? {
      assert Pending(s.procs[step.o].phase)[0] == s.procs[step.o].phase.pending[0];
    }
  }

  lemma ClaimsAfter(s: State, step: Step, o: OrchId, r: RunId)
    requires RecoveriesTracked(s) && Enabled(s, step) && IsClaiming(step)
    requires var s' := Apply(s, step); o in s'.procs && r in s'.procs[o].claimed
    ensures o in s.procs && Known(s, r, Apply(s, step).procs[o].claimed[r])
  {
    if o != step.o {
      ClaimingOnlyClaims(s, step);
      assert ProcessTracked(s, s.procs[o]);
    } else {
      ClaimsAfterOwn(s, step, r);
    }
  }

  lemma SubmissionLeavesExecutors(s: State, step: Step, o: OrchId)
    requires Enabled(s, step) && IsSubmission(step) && !step.Spawn? && o in Apply(s, step).procs
    ensures o in s.procs && Apply(s, step).procs[o].executors == s.procs[o].executors
  {}

  lemma ExecutionOnlyEndsExecutors(s: State, step: Step, o: OrchId, x: ExecutorId)
    requires Enabled(s, step) && IsExecution(step)
    requires var s' := Apply(s, step); o in s'.procs && x in s'.procs[o].executors
    ensures o in s.procs && x in s.procs[o].executors
    ensures s.procs[o].executors[x].run == Apply(s, step).procs[o].executors[x].run
  {}

  lemma OthersOnlyEndExecutors(s: State, step: Step, o: OrchId, x: ExecutorId)
    requires Enabled(s, step) && !IsSubmission(step) && !step.Resume?
    requires var s' := Apply(s, step); o in s'.procs && x in s'.procs[o].executors
    ensures o in s.procs && x in s.procs[o].executors
    ensures s.procs[o].executors[x].run == Apply(s, step).procs[o].executors[x].run
  {
    if IsExecution(step) {
      ExecutionOnlyEndsExecutors(s, step, o, x);
    } else {
      OthersKeepExecutors(s, step, o);
    }
  }

  lemma OthersKeepExecutors(s: State, step: Step, o: OrchId)
    requires Enabled(s, step) && (IsClaiming(step) || IsRecovery(step) || IsOutside(step)) && !step.Resume?
    requires o in Apply(s, step).procs
    ensures o in s.procs
    ensures Apply(s, step).procs[o].executors == s.procs[o].executors || Apply(s, step).procs[o].executors == map[]
  {
    if IsClaiming(step) {
      ClaimingOnlyClaims(s, step);
    }
  }

  lemma StartedExecutor(s: State, step: Step, o: OrchId, x: ExecutorId)
    requires Consistent(s) && Enabled(s, step) && (step.Spawn? || step.Resume?)
    requires var s' := Apply(s, step); o in s'.procs && x in s'.procs[o].executors
    ensures Apply(s, step).procs[o].executors[x].run in s.records
  {
    assert ProcessTracked(s, s.procs[o]);
    if step.Spawn? {
      assert StageTracked(s, step.r, s.procs[step.o].submitting[step.r]);
    } else {
      assert Known(s, step.r, s.procs[step.o].claimed[step.r]);
    }
  }

  lemma ExecutorsAfter(s: State, step: Step, o: OrchId, x: ExecutorId)
    requires Consistent(s) && Enabled(s, step)
    requires var s' := Apply(s, step); o in s'.procs && x in s'.procs[o].executors
    ensures Apply(s, step).procs[o].executors[x].run in s.records
  {
    if step.Spawn? || step.Resume? {
      StartedExecutor(s, step, o, x);
    } else {
      if IsSubmission(step) {
        SubmissionLeavesExecutors(s, step, o);
      } else {
        OthersOnlyEndExecutors(s, step, o, x);
      }
      assert ProcessTracked(s, s.procs[o]);
    }
  }

  lemma PendingStaysKnown(s: State, step: Step, o: OrchId, i: nat)
    requires Consistent(s) && Enabled(s, step)
    requires var s' := Apply(s, step); o in s'.procs && i < |Pending(s'.procs[o].phase)|
    ensures o in s.procs
    ensures var su := Pending(Apply(s, step).procs[o].phase)[i]; Known(s, su.run, su.createdAt)
  {
    if IsClaiming(step) {
      ListingAfter(s, step, o, i);
    } else {
      OthersOnlyDropClaims(s, step, o);
      assert ProcessTracked(s, s.procs[o]);
    }
  }

  lemma ClaimStaysKnown(s: State, step: Step, o: OrchId, r: RunId)
    requires Consistent(s) && Enabled(s, step)
    requires var s' := Apply(s, step); o in s'.procs && r in s'.procs[o].claimed
    ensures Known(s, r, Apply(s, step).procs[o].claimed[r])
  {
    if IsClaiming(step) {
      ClaimsAfter(s, step, o, r);
    } else {
      OthersOnlyDropClaims(s, step, o);
      assert ProcessTracked(s, s.procs[o]);
    }
  }

  lemma KnownLater(s: State, s': State, r: RunId, createdAt: nat)
    requires Extends(s, s') && Known(s, r, createdAt)
    ensures Known(s', r, createdAt)
  {}

  lemma ProcessStaysTracked(s: State, step: Step, s': State, o: OrchId)
    requires Consistent(s) && Enabled(s, step) && s' == Apply(s, step) && o in s'.procs
    ensures ProcessTracked(s', s'.procs[o])
  {
    var p := s'.procs[o];
    StepExtends(s, step);
    forall i | 0 <= i < |Pending(p.phase)| ensures Known(s', Pending(p.phase)[i].run, Pending(p.phase)[i].createdAt) {
      PendingStaysKnown(s, step, o, i);
      KnownLater(s, s', Pending(p.phase)[i].run, Pending(p.phase)[i].createdAt);
    }
    forall r | r in p.claimed ensures Known(s', r, p.claimed[r]) {
      ClaimStaysKnown(s, step, o, r);
      KnownLater(s, s', r, p.claimed[r]);
    }
    forall x | x in p.executors ensures p.executors[x].run in s'.records {
      ExecutorsAfter(s, step, o, x);
      KnownLater(s, s', p.executors[x].run, s.records[p.executors[x].run].createdAt);
    }
  }

  lemma StepKeepsRecoveriesTracked(s: State, step: Step)
    requires Consistent(s) && Enabled(s, step)
    ensures RecoveriesTracked(Apply(s, step))
  {
    var s' := Apply(s, step);
    forall o | o in s'.procs {
      ProcessStaysTracked(s, step, s', o);
    }
  }

  lemma StepKeepsConsistent(s: State, step: Step)
    requires Consistent(s) && Enabled(s, step)
    ensures Consistent(Apply(s, step))
  {
    StepKeepsJournalsOrdered(s, step);
    StepKeepsRecordsBacked(s, step);
    StepKeepsSubmissionsTracked(s, step);
    StepKeepsRecoveriesTracked(s, step);
  }

  lemma {:induction false} RunKeepsConsistent(s: State, steps: seq<Step>, s': State)
    requires Consistent(s) && IsRun(s, steps, s')
    ensures Consistent(s')
    decreases |steps|
  {
    if steps != [] {
      StepKeepsConsistent(s, steps[0]);
      RunKeepsConsistent(Apply(s, steps[0]), steps[1..], s');
    }
  }

  /** Crash safety of submission.  In every reachable state a visible run has
    its creation entry at exactly `createdAt`, as the first entry of its
    journal; so whatever a process has claimed, replay starts with it. */
  lemma {:induction false} ClaimedRunsReplayFromCreation(s: State, steps: seq<Step>, s': State, o: OrchId, r: RunId)
    requires Init(s) && IsRun(s, steps, s') && o in s'.procs && r in s'.procs[o].claimed
    ensures r in s'.records && s'.records[r].createdAt == s'.procs[o].claimed[r]
    ensures r in s'.journals
    ensures StreamFrom(s'.journals[r], s'.procs[o].claimed[r]) == s'.journals[r] != []
    ensures s'.journals[r][0] == Entry(s'.procs[o].claimed[r], RootRunCreated)
  {
    RunKeepsConsistent(s, steps, s');
    assert ProcessTracked(s', s'.procs[o]);
    assert Known(s', r, s'.procs[o].claimed[r]);
    assert FirstEntry(s', r, s'.records[r].createdAt);
    assert Ordered(s'.journals[r]);
    StreamAll(s'.journals[r], s'.procs[o].claimed[r]);
  }

  lemma {:induction false} VisibleRunsAreJournaled(s: State, steps: seq<Step>, s': State, r: RunId)
    requires Init(s) && IsRun(s, steps, s') && r in s'.records
    ensures FirstEntry(s', r, s'.records[r].createdAt)
  {
    RunKeepsConsistent(s, steps, s');
  }
}
