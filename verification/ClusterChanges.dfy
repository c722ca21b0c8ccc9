/** What single steps change in the shared stores, whoever takes them, and what
  follows for runs that have ended. */
module ClusterChanges {
  import opened Basics
  import opened Cluster
  import opened Records

  /** The status of a recorded run is written by its executors, by a recovery that
    finds its journal complete, and as failed when a submission or a recovery
    gives up on it; by nothing else. */
  lemma StatusChanges(s: State, step: Step, r: RunId)
    requires Enabled(s, step) && r in s.records
    ensures r in Apply(s, step).records
    ensures Apply(s, step).records[r].status ==
      match step
      case WriteStatus(o, x, status) => if s.procs[o].executors[x].run == r then status else s.records[r].status
      case SyncTerminal(_, run, status) => if run == r then status else s.records[r].status
      case AbandonSubmit(_, run, true) => if run == r then Failed else s.records[r].status
      case FailRecovery(_, run, true) => if run == r then Failed else s.records[r].status
      case _ => s.records[r].status
  {}

  /** The owner of a recorded run is removed when a Running run's owner is not
    among the live ones, and corrected by a claim pass; by nothing else. */
  lemma OwnerChanges(s: State, step: Step, r: RunId)
    requires Enabled(s, step) && r in s.records
    ensures r in Apply(s, step).records
    ensures var record := s.records[r];
      Apply(s, step).records[r].owner ==
      match step
      case MarkOrphans(liveIds) =>
        if record.status == Running && record.owner.Some? && record.owner.value !in liveIds then None else record.owner
      case Heal(o, false) =>
        if s.procs[o].phase.run == r then Some(s.procs[o].phase.owner) else record.owner
      case _ => record.owner
  {}

  /** A new record is Running; its submitter owns it and it knows where its
    journal starts, unless an executor had to create it. */
  lemma NewRecord(s: State, step: Step, r: RunId)
    requires Enabled(s, step) && r !in s.records && r in Apply(s, step).records
    ensures var record := Apply(s, step).records[r];
      record.status == Running &&
      match step
      case CreateRecord(o, run) =>
        run == r && record.owner == Some(o)
        && s.procs[o].submitting[run] == Journaled(record.createdAt)
      case BuildExecutor(_, run) => run == r && record.owner == None && record.createdAt == 0
      case Resume(_, run, _) => run == r && record.owner == None && record.createdAt == 0
      case _ => false
  {}

  function LeaseOf(s: State, r: RunId): Option<Lease> {
    if r in s.leases then Some(s.leases[r]) else None
  }

  /** A lease is taken by an answered acquisition for a run that is free or already
    the same owner's, is given up by its owner, and lapses when the life that took
    it is over; nothing else touches it. */
  lemma LeaseChanges(s: State, step: Step, r: RunId)
    requires Enabled(s, step)
    ensures LeaseOf(Apply(s, step), r) ==
      match step
      case AcquireForSubmit(o, run, false) =>
        if run == r && (r !in s.leases || s.leases[r].owner == o) then Some(Lease(o, s.procs[o].epoch))
        else LeaseOf(s, r)
      case TryAcquire(o, false) =>
        if s.procs[o].phase.pending[0].run == r && (r !in s.leases || s.leases[r].owner == o)
        then Some(Lease(o, s.procs[o].epoch)) else LeaseOf(s, r)
      case ReleaseLease(o, x) =>
        if s.procs[o].executors[x].run == r && r in s.leases && s.leases[r].owner == o then None else LeaseOf(s, r)
      case ReleaseAll(o) => if r in s.leases && s.leases[r].owner == o then None else LeaseOf(s, r)
      case Lapse(run) => if run == r then None else LeaseOf(s, r)
      case _ => LeaseOf(s, r)
  {}

  ghost predicate Ended(s: State, r: RunId) {
    r in s.records && s.records[r].status != Running
  }

  /** A run that has ended stays ended over any continuation, so no later listing
    offers it for recovery. */
  lemma {:induction false} EndedStaysEnded(s: State, steps: seq<Step>, s': State, r: RunId)
    requires IsRun(s, steps, s') && Ended(s, r)
    ensures Ended(s', r)
    ensures forall runs, owner, limit | Lists(s', runs, owner, limit) :: r !in runs
    decreases |steps|
  {
    if steps != [] {
      StatusChanges(s, steps[0], r);
      EndedStaysEnded(Apply(s, steps[0]), steps[1..], s', r);
    }
  }
}
