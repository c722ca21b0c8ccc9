/** Run submission, lease ownership and recovery across several orchestrators.

  A step system whose steps are the single store calls of `submit_run`,
  `claim_for_recovery`, `recover_orphaned_runs` and the end of an executor,
  interleaved freely between processes, together with crashes, restarts, lease
  lapses and (possibly wrong) orphan marking.  Every choice the environment
  makes is a parameter of the step. */
module Cluster {
  import opened Basics
  import opened Journals
  import opened Records

  type ExecutorId = nat

  // ---------------------------------------------------------------- stores

  datatype Event = RootRunCreated | Progress

  /** The columns of a metadata record that recovery reads. */
  datatype RunRecord = RunRecord(status: Status, owner: Option<OrchId>, createdAt: nat)

  /** A lease belongs to one life (epoch) of its owner, as an etcd lease does. */
  datatype Lease = Lease(owner: OrchId, epoch: nat)

  // ------------------------------------------------------------- processes

  /** How far one call of `submit_run` has come. */
  datatype Stage =
    | Journaling
    | Journaled(sequence: nat)
    | Recorded
    | Leased(acquired: bool)
    | Built(acquired: bool)

  datatype Summary = Summary(run: RunId, owner: Option<OrchId>, createdAt: nat)

  /** Where the recovery loop of a process stands. */
  datatype Phase =
    | Idle
    | ListedOwn(own: seq<Summary>, remaining: nat)
    | Claiming(pending: seq<Summary>)
    | Healing(run: RunId, owner: OrchId, rest: seq<Summary>)
    | Recovering

  /** A spawned flow executor; `leased` says whether its run's lease was granted. */
  datatype Executor = Executor(run: RunId, leased: bool, released: bool)

  datatype Process = Process(
    live: bool,
    epoch: nat,
    submitting: map<RunId, Stage>,
    phase: Phase,
    claimed: map<RunId, nat>,
    executors: map<ExecutorId, Executor>,
    active: set<RunId>)

  datatype State = State(
    journals: map<RunId, seq<Entry<Event>>>,
    records: map<RunId, RunRecord>,
    leases: map<RunId, Lease>,
    procs: map<OrchId, Process>)

  datatype Step =
    | BeginSubmit(o: OrchId, r: RunId)
    | WriteCreated(o: OrchId, r: RunId, sequence: nat)
    | CreateRecord(o: OrchId, r: RunId)
    | AcquireForSubmit(o: OrchId, r: RunId, fails: bool)
    | BuildExecutor(o: OrchId, r: RunId)
    | Spawn(o: OrchId, r: RunId, x: ExecutorId)
    | AbandonSubmit(o: OrchId, r: RunId, markFailed: bool)
    | WriteProgress(o: OrchId, x: ExecutorId, sequence: nat)
    | WriteStatus(o: OrchId, x: ExecutorId, status: Status)
    | ReleaseLease(o: OrchId, x: ExecutorId)
    | EndExecutor(o: OrchId, x: ExecutorId)
    | ReleaseAll(o: OrchId)
    | ListOwn(o: OrchId, runs: seq<RunId>, limit: nat)
    | ListOrphans(o: OrchId, runs: seq<RunId>)
    | AbortPass(o: OrchId)
    | TryAcquire(o: OrchId, fails: bool)
    | Heal(o: OrchId, fails: bool)
    | FilterActive(o: OrchId)
    | Resume(o: OrchId, r: RunId, x: ExecutorId)
    | SyncTerminal(o: OrchId, r: RunId, status: Status)
    | FailRecovery(o: OrchId, r: RunId, markFailed: bool)
    | EndPass(o: OrchId)
    | MarkOrphans(liveIds: set<OrchId>)
    | Crash(o: OrchId)
    | Restart(o: OrchId)
    | Lapse(r: RunId)

  const FRESH_PROCESS := Process(true, 0, map[], Idle, map[], map[], {})

  ghost predicate Init(s: State) {
    && s.journals == map[] && s.records == map[] && s.leases == map[]
    && forall o | o in s.procs :: s.procs[o] == FRESH_PROCESS
  }

  // ----------------------------------------------------- store operations

  predicate Live(s: State, o: OrchId) {
    o in s.procs && s.procs[o].live
  }

  function Put(s: State, o: OrchId, p: Process): State {
    s.(procs := s.procs[o := p])
  }

  /** `create_run` is documented as idempotent: an existing record is kept. */
  function CreateRun(records: map<RunId, RunRecord>, r: RunId, owner: Option<OrchId>,
                     createdAt: nat): map<RunId, RunRecord> {
    if r in records then records else records[r := RunRecord(Running, owner, createdAt)]
  }

  function SetStatus(records: map<RunId, RunRecord>, r: RunId, status: Status): map<RunId, RunRecord> {
    if r in records then records[r := records[r].(status := status)] else records
  }

  function SetOwner(records: map<RunId, RunRecord>, r: RunId, owner: Option<OrchId>): map<RunId, RunRecord> {
    if r in records then records[r := records[r].(owner := owner)] else records
  }

  /** `acquire_lease` grants a free lease and renews one of the same owner. */
  predicate Grants(s: State, o: OrchId, r: RunId) {
    r !in s.leases || s.leases[r].owner == o
  }

  function Acquire(s: State, o: OrchId, r: RunId): State
    requires o in s.procs
  {
    if Grants(s, o, r) then s.(leases := s.leases[r := Lease(o, s.procs[o].epoch)]) else s
  }

  function Release(s: State, o: OrchId, r: RunId): State {
    if r in s.leases && s.leases[r].owner == o then s.(leases := s.leases - {r}) else s
  }

  function Append(s: State, r: RunId, e: Entry<Event>): State {
    s.(journals := s.journals[r := (if r in s.journals then s.journals[r] else []) + [e]])
  }

  /** Sequence numbers grow, with gaps allowed. */
  predicate NextSequence(s: State, r: RunId, sequence: nat) {
    r in s.journals && s.journals[r] != [] ==> s.journals[r][|s.journals[r]| - 1].sequence < sequence
  }

  /** `list_runs` with status Running and the given owner returns distinct matching runs. */
  predicate Lists(s: State, runs: seq<RunId>, owner: Option<OrchId>, limit: nat) {
    && |runs| <= limit
    && (forall i | 0 <= i < |runs| ::
          runs[i] in s.records && s.records[runs[i]].status == Running && s.records[runs[i]].owner == owner)
    && forall i, j | 0 <= i < j < |runs| :: runs[i] != runs[j]
  }

  function Summaries(s: State, runs: seq<RunId>): (r: seq<Summary>)
    requires forall i | 0 <= i < |runs| :: runs[i] in s.records
    ensures |r| == |runs|
  {
    seq(|runs|, i requires 0 <= i < |runs| =>
      Summary(runs[i], s.records[runs[i]].owner, s.records[runs[i]].createdAt))
  }

  predicate Unused(s: State, r: RunId) {
    && r !in s.journals && r !in s.records
    && forall o | o in s.procs :: r !in s.procs[o].submitting
  }

  // ------------------------------------------------------------------ steps

  predicate SubmitAt(s: State, o: OrchId, r: RunId) {
    Live(s, o) && r in s.procs[o].submitting
  }

  predicate Works(s: State, o: OrchId, x: ExecutorId) {
    Live(s, o) && x in s.procs[o].executors && !s.procs[o].executors[x].released
  }

  /** The life of the owner that took this lease is still going on. */
  predicate CurrentLease(s: State, lease: Lease) {
    Live(s, lease.owner) && s.procs[lease.owner].epoch == lease.epoch
  }

  predicate IsSubmission(step: Step) {
    step.BeginSubmit? || step.WriteCreated? || step.CreateRecord? || step.AcquireForSubmit? || step.BuildExecutor?
      || step.Spawn? || step.AbandonSubmit?
  }

  predicate SubmissionEnabled(s: State, step: Step)
    requires IsSubmission(step)
  {
    match step
    case BeginSubmit(o, r) => Live(s, o) && Unused(s, r)
    case WriteCreated(o, r, q) =>
      SubmitAt(s, o, r) && s.procs[o].submitting[r] == Journaling && NextSequence(s, r, q)
    case CreateRecord(o, r) => SubmitAt(s, o, r) && s.procs[o].submitting[r].Journaled?
    case AcquireForSubmit(o, r, fails) => SubmitAt(s, o, r) && s.procs[o].submitting[r] == Recorded
    case BuildExecutor(o, r) => SubmitAt(s, o, r) && s.procs[o].submitting[r].Leased?
    case Spawn(o, r, x) =>
      SubmitAt(s, o, r) && s.procs[o].submitting[r].Built? && x !in s.procs[o].executors
    case AbandonSubmit(o, r, markFailed) => SubmitAt(s, o, r)
  }

  function ApplySubmission(s: State, step: Step): State
    requires IsSubmission(step) && SubmissionEnabled(s, step)
  {
    match step
    case BeginSubmit(o, r) =>
      var p := s.procs[o];
      Put(s, o, p.(submitting := p.submitting[r := Journaling]))
    case WriteCreated(o, r, q) =>
      var p := s.procs[o];
      Put(Append(s, r, Entry(q, RootRunCreated)), o, p.(submitting := p.submitting[r := Journaled(q)]))
    case CreateRecord(o, r) =>
      var p := s.procs[o];
      Put(s.(records := CreateRun(s.records, r, Some(o), p.submitting[r].sequence)), o,
          p.(submitting := p.submitting[r := Recorded]))
    case AcquireForSubmit(o, r, fails) =>
      // An error and an `OwnedBy` answer are both ignored by the submission.
      var p := s.procs[o];
      var got := !fails && Grants(s, o, r);
      Put(if fails then s else Acquire(s, o, r), o, p.(submitting := p.submitting[r := Leased(got)]))
    case BuildExecutor(o, r) =>
      var p := s.procs[o];
      Put(s.(records := CreateRun(s.records, r, None, 0)), o,
          p.(submitting := p.submitting[r := Built(p.submitting[r].acquired)]))
    case Spawn(o, r, x) =>
      var p := s.procs[o];
      Put(s, o, p.(submitting := p.submitting - {r}, active := p.active + {r},
                   executors := p.executors[x := Executor(r, p.submitting[r].acquired, false)]))
    case AbandonSubmit(o, r, markFailed) =>
      var p := s.procs[o];
      Put(if markFailed then s.(records := SetStatus(s.records, r, Failed)) else s, o,
          p.(submitting := p.submitting - {r}))
  }

  predicate IsExecution(step: Step) {
    step.WriteProgress? || step.WriteStatus? || step.ReleaseLease? || step.EndExecutor? || step.ReleaseAll?
  }

  predicate ExecutionEnabled(s: State, step: Step)
    requires IsExecution(step)
  {
    match step
    case WriteProgress(o, x, q) => Works(s, o, x) && NextSequence(s, s.procs[o].executors[x].run, q)
    case WriteStatus(o, x, status) => Works(s, o, x) && status != Running
    case ReleaseLease(o, x) => Works(s, o, x)
    case EndExecutor(o, x) => Live(s, o) && x in s.procs[o].executors && s.procs[o].executors[x].released
    case ReleaseAll(o) => Live(s, o)
  }

  function ApplyExecution(s: State, step: Step): State
    requires IsExecution(step) && ExecutionEnabled(s, step)
  {
    match step
    case WriteProgress(o, x, q) => Append(s, s.procs[o].executors[x].run, Entry(q, Progress))
    case WriteStatus(o, x, status) =>
      s.(records := SetStatus(s.records, s.procs[o].executors[x].run, status))
    case ReleaseLease(o, x) =>
      var p := s.procs[o];
      var e := p.executors[x];
      Put(Release(s, o, e.run), o, p.(executors := p.executors[x := e.(released := true)]))
    case EndExecutor(o, x) =>
      var p := s.procs[o];
      Put(s, o, p.(active := p.active - {p.executors[x].run}, executors := p.executors - {x}))
    case ReleaseAll(o) =>
      // Graceful shutdown: the executors go on until the process exits.
      s.(leases := map r | r in s.leases && s.leases[r].owner != o :: s.leases[r])
  }

  predicate IsClaiming(step: Step) {
    step.ListOwn? || step.ListOrphans? || step.AbortPass? || step.TryAcquire? || step.Heal? || step.FilterActive?
  }

  predicate ClaimingEnabled(s: State, step: Step)
    requires IsClaiming(step)
  {
    match step
    case ListOwn(o, runs, limit) => Live(s, o) && s.procs[o].phase == Idle && Lists(s, runs, Some(o), limit)
    case ListOrphans(o, runs) =>
      Live(s, o) && s.procs[o].phase.ListedOwn? && Lists(s, runs, None, s.procs[o].phase.remaining)
    case AbortPass(o) => Live(s, o) && (s.procs[o].phase.ListedOwn? || s.procs[o].phase == Idle)
    case TryAcquire(o, fails) => Live(s, o) && s.procs[o].phase.Claiming? && s.procs[o].phase.pending != []
    case Heal(o, fails) => Live(s, o) && s.procs[o].phase.Healing?
    case FilterActive(o) => Live(s, o) && s.procs[o].phase == Claiming([])
  }

  function ApplyClaiming(s: State, step: Step): State
    requires IsClaiming(step) && ClaimingEnabled(s, step)
  {
    match step
    case ListOwn(o, runs, limit) =>
      var own := Summaries(s, runs);
      Put(s, o, s.procs[o].(phase := if |runs| < limit then ListedOwn(own, limit - |runs|) else Claiming(own)))
    case ListOrphans(o, runs) =>
      var p := s.procs[o];
      Put(s, o, p.(phase := Claiming(p.phase.own + Summaries(s, runs))))
    case AbortPass(o) => Put(s, o, s.procs[o].(phase := Idle))
    case TryAcquire(o, fails) => ApplyTryAcquire(s, o, fails)
    case Heal(o, fails) =>
      var p := s.procs[o];
      Put(if fails then s else s.(records := SetOwner(s.records, p.phase.run, Some(p.phase.owner))), o,
          p.(phase := Claiming(p.phase.rest)))
    case FilterActive(o) =>
      var p := s.procs[o];
      Put(s, o, p.(phase := Recovering, claimed := p.claimed - p.active))
  }

  predicate IsRecovery(step: Step) {
    step.Resume? || step.SyncTerminal? || step.FailRecovery? || step.EndPass?
  }

  predicate RecoveryEnabled(s: State, step: Step)
    requires IsRecovery(step)
  {
    match step
    case Resume(o, r, x) =>
      Live(s, o) && s.procs[o].phase == Recovering && r in s.procs[o].claimed && x !in s.procs[o].executors
    case SyncTerminal(o, r, status) =>
      Live(s, o) && s.procs[o].phase == Recovering && r in s.procs[o].claimed && status != Running
    case FailRecovery(o, r, markFailed) =>
      Live(s, o) && s.procs[o].phase == Recovering && r in s.procs[o].claimed
    case EndPass(o) => Live(s, o) && s.procs[o].phase == Recovering && s.procs[o].claimed == map[]
  }

  function ApplyRecovery(s: State, step: Step): State
    requires IsRecovery(step) && RecoveryEnabled(s, step)
  {
    match step
    case Resume(o, r, x) =>
      var p := s.procs[o];
      Put(s.(records := CreateRun(s.records, r, None, 0)), o,
          p.(claimed := p.claimed - {r}, active := p.active + {r},
             executors := p.executors[x := Executor(r, true, false)]))
    case SyncTerminal(o, r, status) =>
      var p := s.procs[o];
      Put(s.(records := SetStatus(s.records, r, status)), o, p.(claimed := p.claimed - {r}))
    case FailRecovery(o, r, markFailed) =>
      var p := s.procs[o];
      Put(if markFailed then s.(records := SetStatus(s.records, r, Failed)) else s, o,
          p.(claimed := p.claimed - {r}))
    case EndPass(o) => Put(s, o, s.procs[o].(phase := Idle))
  }

  predicate IsOutside(step: Step) {
    step.MarkOrphans? || step.Crash? || step.Restart? || step.Lapse?
  }

  predicate OutsideEnabled(s: State, step: Step)
    requires IsOutside(step)
  {
    match step
    case MarkOrphans(liveIds) => true
    case Crash(o) => Live(s, o)
    case Restart(o) => o in s.procs && !s.procs[o].live
    case Lapse(r) => r in s.leases && !CurrentLease(s, s.leases[r])
  }

  function ApplyOutside(s: State, step: Step): State
    requires IsOutside(step) && OutsideEnabled(s, step)
  {
    match step
    case MarkOrphans(liveIds) =>
      s.(records := map r | r in s.records :: Orphaned(s.records[r], liveIds))
    case Crash(o) =>
      Put(s, o, FRESH_PROCESS.(live := false, epoch := s.procs[o].epoch))
    case Restart(o) =>
      Put(s, o, FRESH_PROCESS.(epoch := s.procs[o].epoch + 1))
    case Lapse(r) => s.(leases := s.leases - {r})
  }

  predicate Enabled(s: State, step: Step) {
    if IsSubmission(step) then SubmissionEnabled(s, step)
    else if IsExecution(step) then ExecutionEnabled(s, step)
    else if IsClaiming(step) then ClaimingEnabled(s, step)
    else if IsRecovery(step) then RecoveryEnabled(s, step)
    else OutsideEnabled(s, step)
  }

  function Apply(s: State, step: Step): State
    requires Enabled(s, step)
  {
    if IsSubmission(step) then ApplySubmission(s, step)
    else if IsExecution(step) then ApplyExecution(s, step)
    else if IsClaiming(step) then ApplyClaiming(s, step)
    else if IsRecovery(step) then ApplyRecovery(s, step)
    else ApplyOutside(s, step)
  }

  function Orphaned(record: RunRecord, liveIds: set<OrchId>): RunRecord {
    if record.status == Running && record.owner.Some? && record.owner.value !in liveIds
    then record.(owner := None) else record
  }

  /** One turn of the claim loop up to its metadata write. */
  function ApplyTryAcquire(s: State, o: OrchId, fails: bool): State
    requires Live(s, o) && s.procs[o].phase.Claiming? && s.procs[o].phase.pending != []
  {
    var p := s.procs[o];
    var summary := p.phase.pending[0];
    var rest := p.phase.pending[1..];
    if fails then
      Put(s, o, p.(phase := Claiming(rest)))
    else if Grants(s, o, summary.run) then
      Put(Acquire(s, o, summary.run), o,
          p.(claimed := p.claimed[summary.run := summary.createdAt],
             phase := if summary.owner == None then Healing(summary.run, o, rest) else Claiming(rest)))
    else
      var owner := s.leases[summary.run].owner;
      Put(s, o, p.(phase := if summary.owner != Some(owner) then Healing(summary.run, owner, rest)
                            else Claiming(rest)))
  }

  // ------------------------------------------------------------- executions

  ghost predicate IsRun(s: State, steps: seq<Step>, s': State)
    decreases |steps|
  {
    if steps == [] then s == s'
    else Enabled(s, steps[0]) && IsRun(Apply(s, steps[0]), steps[1..], s')
  }
}
