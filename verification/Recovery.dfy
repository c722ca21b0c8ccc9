/** One recovery pass of one process: claiming listed runs under the lease
  manager with self-healing of the metadata store, then recovering each tree. */
module Recovery {
  import opened Basics
  import opened Records
  import opened Stores

  datatype RecoveryInfo = RecoveryInfo(run: RunId, flow: nat, startSequence: nat)

  /** The positions of the claim loop at which a store call fails. */
  datatype Faults = Faults(acquire: set<nat>, update: set<nat>)

  // --------------------------------------------------------------- claiming

  datatype Claims = Claims(records: map<RunId, RunRecord>, leases: map<RunId, OrchId>, infos: seq<RecoveryInfo>)

  /** One turn of the claim loop. */
  function ClaimOne(me: OrchId, c: Claims, s: Summary, acquireOk: bool, updateOk: bool): Claims {
    if !acquireOk then c
    else if Grants(c.leases, s.run, me) then
      Claims(if s.owner == None && updateOk then WithOwner(c.records, s.run, Some(me)) else c.records,
             c.leases[s.run := me],
             c.infos + [RecoveryInfo(s.run, s.flow, s.createdAt)])
    else
      var owner := c.leases[s.run];
      c.(records := if s.owner != Some(owner) && updateOk then WithOwner(c.records, s.run, Some(owner)) else c.records)
  }

  function ClaimAll(me: OrchId, c: Claims, pending: seq<Summary>, faults: Faults): Claims {
    if pending == [] then c
    else
      var k := |pending| - 1;
      ClaimOne(me, ClaimAll(me, c, pending[..k], faults), pending[k], k !in faults.acquire, k !in faults.update)
  }

  /** The orphan query is made only for what the own listing leaves of the limit. */
  function PendingRuns(limit: nat, own: seq<Summary>, orphans: nat -> Result<seq<Summary>, StoreError>):
      Result<seq<Summary>, StoreError>
  {
    if |own| >= limit then Ok(own)
    else match orphans(limit - |own|)
      case Ok(found) => Ok(own + found)
      case Err(e) => Err(e)
  }

  function LeaseOwner(c: Claims, run: RunId): Option<OrchId> {
    if run in c.leases then Some(c.leases[run]) else None
  }

  function InfoOf(s: Summary): RecoveryInfo {
    RecoveryInfo(s.run, s.flow, s.createdAt)
  }

  /** The positions of the listing whose run the lease manager gives to `me`. */
  ghost function Granted(me: OrchId, leases: map<RunId, OrchId>, listed: seq<Summary>, faults: Faults): set<nat> {
    set k: nat | k < |listed| && k !in faults.acquire && Grants(leases, listed[k].run, me)
  }

  /** Exactly the granted positions are claimed, each once. */
  ghost predicate ClaimsGranted(me: OrchId, c: Claims, c': Claims, listed: seq<Summary>, faults: Faults) {
    && |c'.infos| == |Granted(me, c.leases, listed, faults)|
    && (forall k | k in Granted(me, c.leases, listed, faults) :: InfoOf(listed[k]) in c'.infos)
    && (forall info | info in c'.infos ::
          exists k :: k in Granted(me, c.leases, listed, faults) && info == InfoOf(listed[k]))
  }

  /** Some turn for `run` reached the lease manager. */
  ghost predicate Answered(listed: seq<Summary>, faults: Faults, run: RunId) {
    exists k :: 0 <= k < |listed| && listed[k].run == run && k !in faults.acquire
  }

  /** A held lease stays with its holder, a free one goes to `me` when its
    acquisition is answered. */
  ghost predicate LeasesTaken(me: OrchId, c: Claims, c': Claims, listed: seq<Summary>, faults: Faults) {
    forall run ::
      LeaseOwner(c', run) ==
      if run in c.leases then Some(c.leases[run]) else if Answered(listed, faults, run) then Some(me) else None
  }

  /** Some turn for `run` found its listed owner missing, or other than the
    orchestrator that kept the lease, and could write. */
  ghost predicate Corrected(me: OrchId, leases: map<RunId, OrchId>, listed: seq<Summary>, faults: Faults, run: RunId) {
    exists k ::
      0 <= k < |listed| && listed[k].run == run && k !in faults.acquire && k !in faults.update
      && if Grants(leases, run, me) then listed[k].owner == None else listed[k].owner != Some(leases[run])
  }

  /** Only owners are written, and only the owner that the lease has. */
  ghost predicate OwnersCorrected(me: OrchId, c: Claims, c': Claims, listed: seq<Summary>, faults: Faults) {
    && c'.records.Keys == c.records.Keys
    && forall run | run in c.records ::
         c'.records[run] ==
         if Corrected(me, c.leases, listed, faults, run) then c.records[run].(owner := LeaseOwner(c', run))
         else c.records[run]
  }

  /** What a pass over `listed` claims, leases and writes, position by position. */
  ghost predicate ClaimsExactly(me: OrchId, c: Claims, c': Claims, listed: seq<Summary>, faults: Faults) {
    && ClaimsGranted(me, c, c', listed, faults)
    && LeasesTaken(me, c, c', listed, faults)
    && OwnersCorrected(me, c, c', listed, faults)
  }

  lemma GrantedExtends(me: OrchId, leases: map<RunId, OrchId>, listed: seq<Summary>, faults: Faults)
    requires listed != []
    ensures var k: nat := |listed| - 1;
      Granted(me, leases, listed, faults) == Granted(me, leases, listed[..k], faults)
        + (if k !in faults.acquire && Grants(leases, listed[k].run, me) then {k} else {})
  {}

  lemma {:induction false} ClaimAllLeases(me: OrchId, c: Claims, listed: seq<Summary>, faults: Faults)
    ensures LeasesTaken(me, c, ClaimAll(me, c, listed, faults), listed, faults)
    decreases |listed|
  {
    if listed != [] {
      var k := |listed| - 1;
      ClaimAllLeases(me, c, listed[..k], faults);
      forall run ensures Answered(listed, faults, run) <==>
          Answered(listed[..k], faults, run) || (listed[k].run == run && k !in faults.acquire)
      {
        if i :| 0 <= i < k && listed[..k][i].run == run && i !in faults.acquire {
          assert listed[i].run == run;
        }
      }
    }
  }

  lemma SameGrants(me: OrchId, c: Claims, front: Claims, listed: seq<Summary>, faults: Faults, run: RunId)
    requires LeasesTaken(me, c, front, listed, faults)
    ensures Grants(front.leases, run, me) <==> Grants(c.leases, run, me)
  {
    assert LeaseOwner(front, run) in {Some(me), LeaseOwner(c, run)};
  }

  /** Claiming the last run of the listing, or not, after the runs before it. */
  lemma OneMoreGranted(me: OrchId, c: Claims, front: Claims, c': Claims, listed: seq<Summary>, faults: Faults)
    requires listed != [] && ClaimsGranted(me, c, front, listed[..|listed| - 1], faults)
    requires var k := |listed| - 1;
      c'.infos == front.infos
        + if k !in faults.acquire && Grants(c.leases, listed[k].run, me) then [InfoOf(listed[k])] else []
    ensures ClaimsGranted(me, c, c', listed, faults)
  {
    var k: nat := |listed| - 1;
    GrantedExtends(me, c.leases, listed, faults);
    forall info | info in c'.infos
      ensures exists i :: i in Granted(me, c.leases, listed, faults) && info == InfoOf(listed[i])
    {
      if info in front.infos {
        var i :| i in Granted(me, c.leases, listed[..k], faults) && info == InfoOf(listed[..k][i]);
        assert info == InfoOf(listed[i]);
      } else {
        assert k in Granted(me, c.leases, listed, faults);
      }
    }
    forall i | i in Granted(me, c.leases, listed, faults) ensures InfoOf(listed[i]) in c'.infos {
      if i < k {
        assert InfoOf(listed[..k][i]) in front.infos;
      }
    }
  }

  lemma {:induction false} ClaimAllGrants(me: OrchId, c: Claims, listed: seq<Summary>, faults: Faults)
    requires c.infos == []
    ensures ClaimsGranted(me, c, ClaimAll(me, c, listed, faults), listed, faults)
    decreases |listed|
  {
    if listed != [] {
      var k := |listed| - 1;
      var front := ClaimAll(me, c, listed[..k], faults);
      ClaimAllGrants(me, c, listed[..k], faults);
      ClaimAllLeases(me, c, listed[..k], faults);
      SameGrants(me, c, front, listed[..k], faults, listed[k].run);
      OneMoreGranted(me, c, front, ClaimAll(me, c, listed, faults), listed, faults);
    }
  }

  lemma CorrectedExtends(me: OrchId, leases: map<RunId, OrchId>, listed: seq<Summary>, faults: Faults, run: RunId)
    requires listed != []
    ensures var k := |listed| - 1;
      Corrected(me, leases, listed, faults, run) <==>
      || Corrected(me, leases, listed[..k], faults, run)
      || (listed[k].run == run && k !in faults.acquire && k !in faults.update
          && if Grants(leases, run, me) then listed[k].owner == None else listed[k].owner != Some(leases[run]))
  {
    var k := |listed| - 1;
    if Corrected(me, leases, listed[..k], faults, run) {
      var i :| 0 <= i < k && listed[..k][i].run == run && i !in faults.acquire && i !in faults.update
        && if Grants(leases, run, me) then listed[..k][i].owner == None
           else listed[..k][i].owner != Some(leases[run]);
      assert listed[i] == listed[..k][i];
    }
  }

  lemma {:induction false} ClaimAllCorrects(me: OrchId, c: Claims, listed: seq<Summary>, faults: Faults)
    ensures OwnersCorrected(me, c, ClaimAll(me, c, listed, faults), listed, faults)
    decreases |listed|
  {
    if listed != [] {
      var k := |listed| - 1;
      ClaimAllCorrects(me, c, listed[..k], faults);
      ClaimAllLeases(me, c, listed[..k], faults);
      ClaimAllLeases(me, c, listed, faults);
      forall run ensures Corrected(me, c.leases, listed, faults, run) <==>
          || Corrected(me, c.leases, listed[..k], faults, run)
          || (listed[k].run == run && k !in faults.acquire && k !in faults.update
              && if Grants(c.leases, run, me) then listed[k].owner == None
                 else listed[k].owner != Some(c.leases[run]))
      {
        CorrectedExtends(me, c.leases, listed, faults, run);
      }
    }
  }

  /** `own` and `orphans` are the answers of the two `list_runs` queries. */
  method ClaimForRecovery(leases: LeaseManager, metadata: MetadataStore, me: OrchId, limit: nat,
                          own: Result<seq<Summary>, StoreError>,
                          orphans: nat -> Result<seq<Summary>, StoreError>, faults: Faults)
      returns (r: Result<seq<RecoveryInfo>, StoreError>)
    modifies leases, metadata
    ensures own.Err? || (|own.value| < limit && orphans(limit - |own.value|).Err?) ==>
      r.Err? && metadata.records == old(metadata.records) && leases.leases == old(leases.leases)
    ensures own.Ok? && |own.value| >= limit ==>
      r.Ok? && ClaimsExactly(me, Claims(old(metadata.records), old(leases.leases), []),
                             Claims(metadata.records, leases.leases, r.value), own.value, faults)
    ensures own.Ok? && |own.value| < limit && orphans(limit - |own.value|).Ok? ==>
      r.Ok? && ClaimsExactly(me, Claims(old(metadata.records), old(leases.leases), []),
                             Claims(metadata.records, leases.leases, r.value),
                             own.value + orphans(limit - |own.value|).value, faults)
    ensures own.Ok? && PendingRuns(limit, own.value, orphans).Ok? ==>
      r.Ok? && Claims(metadata.records, leases.leases, r.value)
        == ClaimAll(me, Claims(old(metadata.records), old(leases.leases), []),
                    PendingRuns(limit, own.value, orphans).value, faults)
  {
    if own.Err? {
      return Err(own.error);
    }
    var pending := own.value;
    if |pending| < limit {
      var found := orphans(limit - |pending|);
      if found.Err? {
        return Err(found.error);
      }
      pending := pending + found.value;
    }
    var infos: seq<RecoveryInfo> := [];
    for k := 0 to |pending|
      invariant Claims(metadata.records, leases.leases, infos)
        == ClaimAll(me, Claims(old(metadata.records), old(leases.leases), []), pending[..k], faults)
    {
      assert pending[..k + 1][..k] == pending[..k];
      var summary := pending[k];
      var answer := leases.Acquire(summary.run, me, k !in faults.acquire);
      if answer.Err? {
        continue;
      }
      if answer.value.OwnedBy? {
        if summary.owner != Some(answer.value.owner) {
          metadata.UpdateOwner(summary.run, Some(answer.value.owner), k !in faults.update);
        }
        continue;
      }
      if summary.owner == None {
        metadata.UpdateOwner(summary.run, Some(me), k !in faults.update);
      }
      infos := infos + [RecoveryInfo(summary.run, summary.flow, summary.createdAt)];
    }
    assert pending[..|pending|] == pending;
    ghost var before := Claims(old(metadata.records), old(leases.leases), []);
    ClaimAllGrants(me, before, pending, faults);
    ClaimAllLeases(me, before, pending, faults);
    ClaimAllCorrects(me, before, pending, faults);
    return Ok(infos);
  }

  // ---------------------------------------------------- what a claim pass does

  /** Metadata and lease manager name the same owner. */
  predicate Agree(c: Claims, run: RunId) {
    run in c.records ==> c.records[run].owner == LeaseOwner(c, run)
  }

  predicate Listed(pending: seq<Summary>, run: RunId) {
    exists i :: 0 <= i < |pending| && pending[i].run == run
  }

  /** The listing is a snapshot of the records, taken for `me`: distinct runs
    that the metadata shows as orphaned or as owned by `me`. */
  ghost predicate FreshListing(me: OrchId, c: Claims, pending: seq<Summary>) {
    && (forall i | 0 <= i < |pending| ::
          && pending[i].run in c.records && pending[i].owner == c.records[pending[i].run].owner
          && (pending[i].owner == None || pending[i].owner == Some(me)))
    && (forall i, j | 0 <= i < j < |pending| :: pending[i].run != pending[j].run)
  }

  predicate SameFor(c: Claims, c': Claims, run: RunId) {
    && (run in c'.records <==> run in c.records) && (run in c.records ==> c'.records[run] == c.records[run])
    && LeaseOwner(c', run) == LeaseOwner(c, run)
  }

  /** The pass writes only about listed runs. */
  lemma {:induction false} UnlistedRunsUntouched(me: OrchId, c: Claims, pending: seq<Summary>, faults: Faults,
                                                 run: RunId)
    requires !Listed(pending, run)
    ensures SameFor(c, ClaimAll(me, c, pending, faults), run)
    decreases |pending|
  {
    if pending != [] {
      var k := |pending| - 1;
      assert pending[k].run != run;
      forall i | 0 <= i < k ensures pending[..k][i].run != run { assert pending[i].run != run; }
      UnlistedRunsUntouched(me, c, pending[..k], faults, run);
    }
  }

  lemma OtherRunUntouched(me: OrchId, c: Claims, s: Summary, acquireOk: bool, updateOk: bool, run: RunId)
    requires s.run != run
    ensures SameFor(c, ClaimOne(me, c, s, acquireOk, updateOk), run)
  {}

  /** The lease of the run goes to `me` if it was free; afterwards metadata and
    lease agree if and only if the owner needed no correction or the correcting
    write succeeded. */
  predicate HandledRun(me: OrchId, c: Claims, c': Claims, s: Summary, acquireOk: bool, updateOk: bool) {
    if !acquireOk then s.run in c'.records && SameFor(c, c', s.run)
    else
      && LeaseOwner(c', s.run) == Some(if s.run in c.leases then c.leases[s.run] else me)
      && (Agree(c', s.run) <==> s.owner == LeaseOwner(c', s.run) || updateOk)
  }

  lemma ClaimOneHandles(me: OrchId, c: Claims, front: Claims, s: Summary, acquireOk: bool, updateOk: bool)
    requires s.run in c.records && s.owner == c.records[s.run].owner && (s.owner == None || s.owner == Some(me))
    requires SameFor(c, front, s.run)
    ensures HandledRun(me, c, ClaimOne(me, front, s, acquireOk, updateOk), s, acquireOk, updateOk)
  {}

  lemma LaterTurnsKeep(me: OrchId, c: Claims, front: Claims, after: Claims, s: Summary, acquireOk: bool, updateOk: bool)
    requires HandledRun(me, c, front, s, acquireOk, updateOk) && SameFor(front, after, s.run)
    ensures HandledRun(me, c, after, s, acquireOk, updateOk)
  {}

  /** What the pass does to the run at position `i`. */
  lemma {:induction false} ListedRunOutcome(me: OrchId, c: Claims, pending: seq<Summary>, faults: Faults, i: nat)
    requires FreshListing(me, c, pending) && i < |pending|
    ensures HandledRun(me, c, ClaimAll(me, c, pending, faults), pending[i], i !in faults.acquire, i !in faults.update)
    decreases |pending|
  {
    var k := |pending| - 1;
    var front, s := ClaimAll(me, c, pending[..k], faults), pending[k];
    if i < k {
      ListedRunOutcome(me, c, pending[..k], faults, i);
      OtherRunUntouched(me, front, s, k !in faults.acquire, k !in faults.update, pending[i].run);
      LaterTurnsKeep(me, c, front, ClaimAll(me, c, pending, faults), pending[i],
                     i !in faults.acquire, i !in faults.update);
    } else {
      forall j | 0 <= j < k ensures pending[..k][j].run != s.run { assert pending[j].run != s.run; }
      assert !Listed(pending[..k], s.run);
      UnlistedRunsUntouched(me, c, pending[..k], faults, s.run);
      ClaimOneHandles(me, c, front, s, k !in faults.acquire, k !in faults.update);
    }
  }

  /** Self-healing: without store errors every listed run ends up with the same
    owner in both stores, whatever they said before. */
  lemma PassHealsListedRuns(me: OrchId, c: Claims, pending: seq<Summary>, run: RunId)
    requires FreshListing(me, c, pending) && Listed(pending, run)
    ensures var c' := ClaimAll(me, c, pending, Faults({}, {})); run in c'.leases && Agree(c', run)
  {
    var i :| 0 <= i < |pending| && pending[i].run == run;
    ListedRunOutcome(me, c, pending, Faults({}, {}), i);
  }

  /** A pass without store errors creates no disagreement for any run. */
  lemma PassCreatesNoDisagreement(me: OrchId, c: Claims, pending: seq<Summary>, run: RunId)
    requires FreshListing(me, c, pending) && Agree(c, run)
    ensures Agree(ClaimAll(me, c, pending, Faults({}, {})), run)
  {
    if Listed(pending, run) {
      PassHealsListedRuns(me, c, pending, run);
    } else {
      UnlistedRunsUntouched(me, c, pending, Faults({}, {}), run);
    }
  }

  /** Whatever the listings contained, a claimed run's lease is `me`'s, and the
    pass claims no more runs than were listed. */
  lemma {:induction false} ClaimedRunsAreLeased(me: OrchId, c: Claims, pending: seq<Summary>, faults: Faults)
    requires c.infos == []
    ensures var c' := ClaimAll(me, c, pending, faults);
      && |c'.infos| <= |pending|
      && (forall i | 0 <= i < |c'.infos| :: LeaseOwner(c', c'.infos[i].run) == Some(me))
      && (forall i | 0 <= i < |c'.infos| ::
            exists j ::
              0 <= j < |pending| && c'.infos[i] == RecoveryInfo(pending[j].run, pending[j].flow, pending[j].createdAt))
    decreases |pending|
  {
    if pending != [] {
      var k := |pending| - 1;
      var front := ClaimAll(me, c, pending[..k], faults);
      var c' := ClaimAll(me, c, pending, faults);
      ClaimedRunsAreLeased(me, c, pending[..k], faults);
      forall i | 0 <= i < |c'.infos|
        ensures exists j ::
          0 <= j < |pending| && c'.infos[i] == RecoveryInfo(pending[j].run, pending[j].flow, pending[j].createdAt)
      {
        if i < |front.infos| {
          var j :| 0 <= j < |pending[..k]|
            && front.infos[i] == RecoveryInfo(pending[..k][j].run, pending[..k][j].flow, pending[..k][j].createdAt);
          assert pending[j] == pending[..k][j];
        } else {
          assert c'.infos[i] == RecoveryInfo(pending[k].run, pending[k].flow, pending[k].createdAt);
        }
      }
    }
  }

  predicate Claimed(c: Claims, run: RunId) {
    exists j :: 0 <= j < |c.infos| && c.infos[j].run == run
  }

  /** A listed run is claimed exactly when its lease was free or already ours
    and the lease manager answered. */
  lemma {:induction false} ClaimedIffGranted(me: OrchId, c: Claims, pending: seq<Summary>, faults: Faults, i: nat)
    requires FreshListing(me, c, pending) && i < |pending| && c.infos == []
    ensures Claimed(ClaimAll(me, c, pending, faults), pending[i].run) <==>
      i !in faults.acquire && Grants(c.leases, pending[i].run, me)
  {
    var run := pending[i].run;
    var c' := ClaimAll(me, c, pending, faults);
    ClaimAllGrants(me, c, pending, faults);
    if i in Granted(me, c.leases, pending, faults) {
      assert InfoOf(pending[i]) in c'.infos;
    }
    if j :| 0 <= j < |c'.infos| && c'.infos[j].run == run {
      assert c'.infos[j] in c'.infos;
      var k :| k in Granted(me, c.leases, pending, faults) && c'.infos[j] == InfoOf(pending[k]);
      assert k == i;
    }
  }

  // ------------------------------------------------------- the recovery pass

  /** What `recover_execution_tree` does for a root: resume it with an executor,
    find its journal complete and only sync the terminal status, or fail. */
  datatype TreeOutcome = Resumed | AlreadyComplete(status: Status) | TreeFailed(error: string)

  class RecoveryResult {
    var recovered: nat
    var failed: nat
    var recoveredRuns: seq<RunId>
    var failedRuns: seq<(RunId, string)>

    constructor ()
      ensures recovered == failed == 0 && recoveredRuns == [] && failedRuns == []
    {
      recovered, failed, recoveredRuns, failedRuns := 0, 0, [], [];
    }

    method RecordSuccess(run: RunId)
      modifies this
      ensures recovered == old(recovered) + 1 && recoveredRuns == old(recoveredRuns) + [run]
      ensures failed == old(failed) && failedRuns == old(failedRuns)
    {
      recovered := recovered + 1;
      recoveredRuns := recoveredRuns + [run];
    }

    method RecordFailure(run: RunId, error: string)
      modifies this
      ensures failed == old(failed) + 1 && failedRuns == old(failedRuns) + [(run, error)]
      ensures recovered == old(recovered) && recoveredRuns == old(recoveredRuns)
    {
      failed := failed + 1;
      failedRuns := failedRuns + [(run, error)];
    }
  }

  /** The roots to recover: claimed and not executing, each once. */
  function Trees(infos: seq<RecoveryInfo>, active: set<RunId>): set<RunId> {
    set i | 0 <= i < |infos| && infos[i].run !in active :: infos[i].run
  }

  type Outcomes = RunId -> TreeOutcome

  function FailedOf(trees: set<RunId>, outcome: Outcomes): set<RunId> {
    set r | r in trees && outcome(r).TreeFailed?
  }

  function ResumedOf(trees: set<RunId>, outcome: Outcomes): set<RunId> {
    set r | r in trees && outcome(r).Resumed?
  }

  /** The records after the pass: complete trees get their terminal status,
    failed ones `Failed` unless that write fails. */
  function RecordsAfter(records: map<RunId, RunRecord>, trees: set<RunId>, outcome: Outcomes, writeFails: set<RunId>):
      map<RunId, RunRecord>
  {
    map r | r in records ::
      if r !in trees then records[r]
      else match outcome(r)
        case Resumed => records[r]
        case AlreadyComplete(status) => records[r].(status := status)
        case TreeFailed(_) => if r in writeFails then records[r] else records[r].(status := Failed)
  }

  ghost function Ids(ids: seq<RunId>): set<RunId> {
    if ids == [] then {} else Ids(ids[..|ids| - 1]) + {ids[|ids| - 1]}
  }

  /** `ids` names each of the runs exactly once. */
  ghost predicate Lists(ids: seq<RunId>, runs: set<RunId>) {
    Ids(ids) == runs && |ids| == |runs|
  }

  ghost function FailureIds(failures: seq<(RunId, string)>): seq<RunId> {
    if failures == [] then [] else FailureIds(failures[..|failures| - 1]) + [failures[|failures| - 1].0]
  }

  ghost predicate ErrorsMatch(failures: seq<(RunId, string)>, outcome: Outcomes) {
    failures == [] ||
    (outcome(failures[|failures| - 1].0) == TreeFailed(failures[|failures| - 1].1)
      && ErrorsMatch(failures[..|failures| - 1], outcome))
  }

  lemma ListsExtend(ids: seq<RunId>, runs: set<RunId>, root: RunId)
    requires Lists(ids, runs) && root !in runs
    ensures Lists(ids + [root], runs + {root})
  {
    assert (ids + [root])[..|ids|] == ids;
  }

  lemma FailuresExtend(failures: seq<(RunId, string)>, root: RunId, outcome: Outcomes)
    requires ErrorsMatch(failures, outcome) && outcome(root).TreeFailed?
    ensures var extended := failures + [(root, outcome(root).error)];
      FailureIds(extended) == FailureIds(failures) + [root] && ErrorsMatch(extended, outcome)
  {
    assert (failures + [(root, outcome(root).error)])[..|failures|] == failures;
  }

  lemma RecordsCompose(records: map<RunId, RunRecord>, done: set<RunId>, root: RunId, outcome: Outcomes,
                       writeFails: set<RunId>)
    requires root !in done
    ensures RecordsAfter(RecordsAfter(records, done, outcome, writeFails), {root}, outcome, writeFails)
         == RecordsAfter(records, done + {root}, outcome, writeFails)
  {}

  /** The stores, trackers and result that the loop over the trees updates. */
  datatype PassState = PassState(records: map<RunId, RunRecord>, active: set<RunId>, recovering: set<RunId>,
                                 recovered: nat, failed: nat, recoveredRuns: seq<RunId>,
                                 failedRuns: seq<(RunId, string)>)

  function TreeStep(p: PassState, root: RunId, outcome: Outcomes, writeFails: set<RunId>): PassState {
    var records := RecordsAfter(p.records, {root}, outcome, writeFails);
    match outcome(root)
    case Resumed =>
      p.(records := records, active := p.active + {root}, recovering := p.recovering + {root},
         recovered := p.recovered + 1, recoveredRuns := p.recoveredRuns + [root])
    case AlreadyComplete(_) =>
      p.(records := records, recovering := p.recovering + {root},
         recovered := p.recovered + 1, recoveredRuns := p.recoveredRuns + [root])
    case TreeFailed(error) =>
      p.(records := records, recovering := p.recovering - {root},
         failed := p.failed + 1, failedRuns := p.failedRuns + [(root, error)])
  }

  /** The result reports each handled tree once, in the right list. */
  ghost predicate Reports(p: PassState, done: set<RunId>, outcome: Outcomes) {
    && p.recovered == |p.recoveredRuns| && p.failed == |p.failedRuns| && p.recovered + p.failed == |done|
    && Lists(p.recoveredRuns, done - FailedOf(done, outcome))
    && Lists(FailureIds(p.failedRuns), FailedOf(done, outcome)) && ErrorsMatch(p.failedRuns, outcome)
  }

  /** The stores and trackers changed as the outcomes of the handled trees say;
    exactly the failed roots left the active recoveries. */
  ghost predicate Updates(start: PassState, p: PassState, done: set<RunId>, outcome: Outcomes, writeFails: set<RunId>) {
    && p.records == RecordsAfter(start.records, done, outcome, writeFails)
    && p.active == start.active + ResumedOf(done, outcome)
    && p.recovering == (start.recovering + done) - FailedOf(done, outcome)
  }

  ghost predicate Accounts(start: PassState, p: PassState, done: set<RunId>, outcome: Outcomes,
                           writeFails: set<RunId>) {
    Reports(p, done, outcome) && Updates(start, p, done, outcome, writeFails)
  }

  lemma OneMoreTree(done: set<RunId>, root: RunId, outcome: Outcomes)
    requires root !in done
    ensures FailedOf(done + {root}, outcome)
         == FailedOf(done, outcome) + if outcome(root).TreeFailed? then {root} else {}
    ensures ResumedOf(done + {root}, outcome)
         == ResumedOf(done, outcome) + if outcome(root).Resumed? then {root} else {}
    ensures done + {root} - FailedOf(done + {root}, outcome)
         == done - FailedOf(done, outcome) + if outcome(root).TreeFailed? then {} else {root}
  {}

  lemma FailureListed(failures: seq<(RunId, string)>, done: set<RunId>, root: RunId, outcome: Outcomes)
    requires Lists(FailureIds(failures), FailedOf(done, outcome)) && ErrorsMatch(failures, outcome)
    requires root !in done && outcome(root).TreeFailed?
    ensures var extended := failures + [(root, outcome(root).error)];
      Lists(FailureIds(extended), FailedOf(done + {root}, outcome)) && ErrorsMatch(extended, outcome)
  {
    OneMoreTree(done, root, outcome);
    FailuresExtend(failures, root, outcome);
    ListsExtend(FailureIds(failures), FailedOf(done, outcome), root);
  }

  lemma FailureReports(p: PassState, done: set<RunId>, root: RunId, outcome: Outcomes, writeFails: set<RunId>)
    requires Reports(p, done, outcome) && root !in done && outcome(root).TreeFailed?
    ensures Reports(TreeStep(p, root, outcome, writeFails), done + {root}, outcome)
  {
    FailureListed(p.failedRuns, done, root, outcome);
    OneMoreTree(done, root, outcome);
    assert done + {root} - FailedOf(done + {root}, outcome) == done - FailedOf(done, outcome);
  }

  lemma SuccessReports(p: PassState, done: set<RunId>, root: RunId, outcome: Outcomes, writeFails: set<RunId>)
    requires Reports(p, done, outcome) && root !in done && !outcome(root).TreeFailed?
    ensures Reports(TreeStep(p, root, outcome, writeFails), done + {root}, outcome)
  {
    var failed, succeeded := FailedOf(done, outcome), done - FailedOf(done, outcome);
    OneMoreTree(done, root, outcome);
    assert FailedOf(done + {root}, outcome) == failed;
    assert done + {root} - FailedOf(done + {root}, outcome) == succeeded + {root};
    ListsExtend(p.recoveredRuns, succeeded, root);
  }

  lemma TreeStepUpdates(start: PassState, p: PassState, done: set<RunId>, root: RunId, outcome: Outcomes,
                        writeFails: set<RunId>)
    requires Updates(start, p, done, outcome, writeFails) && root !in done
    ensures Updates(start, TreeStep(p, root, outcome, writeFails), done + {root}, outcome, writeFails)
  {
    RecordsCompose(start.records, done, root, outcome, writeFails);
    OneMoreTree(done, root, outcome);
  }

  lemma TreeStepAccounts(start: PassState, p: PassState, done: set<RunId>, root: RunId, outcome: Outcomes,
                         writeFails: set<RunId>)
    requires Accounts(start, p, done, outcome, writeFails) && root !in done
    ensures Accounts(start, TreeStep(p, root, outcome, writeFails), done + {root}, outcome, writeFails)
  {
    if outcome(root).TreeFailed? {
      FailureReports(p, done, root, outcome, writeFails);
    } else {
      SuccessReports(p, done, root, outcome, writeFails);
    }
    TreeStepUpdates(start, p, done, root, outcome, writeFails);
  }

  function TreeSteps(p: PassState, order: seq<RunId>, outcome: Outcomes, writeFails: set<RunId>): PassState {
    if order == [] then p
    else TreeStep(TreeSteps(p, order[..|order| - 1], outcome, writeFails), order[|order| - 1], outcome, writeFails)
  }

  lemma OneMoreStep(p: PassState, order: seq<RunId>, root: RunId, outcome: Outcomes, writeFails: set<RunId>)
    ensures TreeSteps(p, order + [root], outcome, writeFails)
         == TreeStep(TreeSteps(p, order, outcome, writeFails), root, outcome, writeFails)
  {
    assert (order + [root])[..|order|] == order;
  }

  /** Whatever order the map yields the trees in, the pass accounts for them. */
  lemma {:induction false} PassAccounts(start: PassState, order: seq<RunId>, trees: set<RunId>, outcome: Outcomes,
                                        writeFails: set<RunId>)
    requires Lists(order, trees)
    requires start.recovered == start.failed == 0 && start.recoveredRuns == [] && start.failedRuns == []
    ensures Accounts(start, TreeSteps(start, order, outcome, writeFails), trees, outcome, writeFails)
    decreases |order|
  {
    if order != [] {
      var front, last := order[..|order| - 1], order[|order| - 1];
      IdsBound(front);
      assert trees == Ids(front) + {last};
      PassAccounts(start, front, Ids(front), outcome, writeFails);
      TreeStepAccounts(start, TreeSteps(start, front, outcome, writeFails), Ids(front), last, outcome, writeFails);
    }
  }

  lemma {:induction false} IdsBound(ids: seq<RunId>)
    ensures |Ids(ids)| <= |ids|
    decreases |ids|
  {
    if ids != [] {
      IdsBound(ids[..|ids| - 1]);
    }
  }

  /** The trees that are not handled yet, and those that are, each once. */
  ghost predicate Remaining(trees: set<RunId>, todo: set<RunId>, order: seq<RunId>) {
    todo + Ids(order) == trees && todo !! Ids(order) && |Ids(order)| == |order|
  }

  lemma OneLess(trees: set<RunId>, todo: set<RunId>, order: seq<RunId>, root: RunId)
    requires Remaining(trees, todo, order) && root in todo
    ensures Remaining(trees, todo - {root}, order + [root])
  {
    assert (order + [root])[..|order|] == order;
  }

  /** Claimed by this process and not executing yet. */
  predicate Handled(c: Claims, active: set<RunId>, run: RunId) {
    Claimed(c, run) && run !in active
  }

  lemma {:induction false} IdsAt(ids: seq<RunId>)
    ensures forall r :: r in Ids(ids) <==> r in ids
    decreases |ids|
  {
    if ids != [] {
      IdsAt(ids[..|ids| - 1]);
    }
  }

  lemma {:induction false} IdsDistinct(ids: seq<RunId>)
    requires |Ids(ids)| == |ids|
    ensures forall i, j | 0 <= i < j < |ids| :: ids[i] != ids[j]
    decreases |ids|
  {
    if ids != [] {
      var front, last := ids[..|ids| - 1], ids[|ids| - 1];
      IdsBound(front);
      IdsDistinct(front);
      IdsAt(front);
      forall i, j | 0 <= i < j < |ids| ensures ids[i] != ids[j] {
        assert ids[i] == front[i];
        if j < |front| {
          assert ids[j] == front[j];
        } else {
          assert last !in Ids(front);
        }
      }
    }
  }

  /** The errors belong to the failed runs, in the same order. */
  lemma {:induction false} FailuresAt(failures: seq<(RunId, string)>, outcome: Outcomes)
    requires ErrorsMatch(failures, outcome)
    ensures |FailureIds(failures)| == |failures|
    ensures forall i | 0 <= i < |failures| ::
      FailureIds(failures)[i] == failures[i].0 && outcome(failures[i].0) == TreeFailed(failures[i].1)
    decreases |failures|
  {
    if failures != [] {
      FailuresAt(failures[..|failures| - 1], outcome);
    }
  }

  lemma FailureListedIff(failures: seq<(RunId, string)>, outcome: Outcomes, run: RunId, e: string)
    requires ErrorsMatch(failures, outcome)
    ensures (run, e) in failures <==> run in FailureIds(failures) && outcome(run) == TreeFailed(e)
  {
    FailuresAt(failures, outcome);
    if (run, e) in failures {
      var i :| 0 <= i < |failures| && failures[i] == (run, e);
      assert FailureIds(failures)[i] == run;
    }
    if run in FailureIds(failures) && outcome(run) == TreeFailed(e) {
      var i :| 0 <= i < |FailureIds(failures)| && FailureIds(failures)[i] == run;
      assert failures[i] == (run, e);
    }
  }

  /** After the claims only the statuses of handled runs are written: the
    journaled one for a complete tree, `Failed` for a failed one if that write
    succeeds. */
  ghost predicate RecordsFollow(c: Claims, active: set<RunId>, records: map<RunId, RunRecord>, outcome: Outcomes,
                                writeFails: set<RunId>)
  {
    && records.Keys == c.records.Keys
    && (forall run | run in c.records && !Handled(c, active, run) :: records[run] == c.records[run])
    && (forall run | run in c.records && Handled(c, active, run) ::
          && records[run] == c.records[run].(status := records[run].status)
          && (outcome(run).Resumed? ==> records[run].status == c.records[run].status)
          && (outcome(run).AlreadyComplete? ==> records[run].status == outcome(run).status)
          && (outcome(run).TreeFailed? && run !in writeFails ==> records[run].status == Failed)
          && (outcome(run).TreeFailed? && run in writeFails ==> records[run].status == c.records[run].status))
  }

  /** Exactly the resumed runs start executing; a handled run is recovering
    afterwards unless it failed. */
  ghost predicate TrackersFollow(c: Claims, active: set<RunId>, recovering: set<RunId>, active': set<RunId>,
                                 recovering': set<RunId>, outcome: Outcomes)
  {
    && (forall run :: run in active' <==> run in active || (Handled(c, active, run) && outcome(run).Resumed?))
    && (forall run :: run in recovering' <==>
          if Handled(c, active, run) then !outcome(run).TreeFailed? else run in recovering)
  }

  /** Every handled run is listed once, a failed one with its error. */
  ghost predicate ListsFollow(c: Claims, active: set<RunId>, recovered: seq<RunId>, failed: seq<(RunId, string)>,
                              outcome: Outcomes)
  {
    && (forall run :: run in recovered <==> Handled(c, active, run) && !outcome(run).TreeFailed?)
    && (forall run: RunId, e: string ::
          (run, e) in failed <==> Handled(c, active, run) && outcome(run) == TreeFailed(e))
    && (forall i, j | 0 <= i < j < |recovered| :: recovered[i] != recovered[j])
    && (forall i, j | 0 <= i < j < |failed| :: failed[i].0 != failed[j].0)
  }

  lemma HandledAreTrees(c: Claims, active: set<RunId>)
    ensures forall run :: Handled(c, active, run) <==> run in Trees(c.infos, active)
  {}

  lemma FailuresDistinct(failures: seq<(RunId, string)>, outcome: Outcomes)
    requires ErrorsMatch(failures, outcome) && |Ids(FailureIds(failures))| == |FailureIds(failures)|
    ensures forall i, j | 0 <= i < j < |failures| :: failures[i].0 != failures[j].0
  {
    var ids := FailureIds(failures);
    IdsDistinct(ids);
    FailuresAt(failures, outcome);
    forall i, j | 0 <= i < j < |failures| ensures failures[i].0 != failures[j].0 {
      assert ids[i] != ids[j];
    }
  }

  lemma FailuresListed(failures: seq<(RunId, string)>, done: set<RunId>, outcome: Outcomes)
    requires Lists(FailureIds(failures), FailedOf(done, outcome)) && ErrorsMatch(failures, outcome)
    ensures forall run: RunId, e: string :: (run, e) in failures <==> run in done && outcome(run) == TreeFailed(e)
  {
    IdsAt(FailureIds(failures));
    forall run: RunId, e: string ensures (run, e) in failures <==> run in done && outcome(run) == TreeFailed(e) {
      FailureListedIff(failures, outcome, run, e);
      assert run in FailureIds(failures) <==> run in FailedOf(done, outcome);
    }
  }

  lemma ReportsFollow(c: Claims, active: set<RunId>, p: PassState, outcome: Outcomes)
    requires Reports(p, Trees(c.infos, active), outcome)
    ensures ListsFollow(c, active, p.recoveredRuns, p.failedRuns, outcome)
  {
    HandledAreTrees(c, active);
    IdsAt(p.recoveredRuns);
    IdsDistinct(p.recoveredRuns);
    FailuresListed(p.failedRuns, Trees(c.infos, active), outcome);
    FailuresDistinct(p.failedRuns, outcome);
  }

  lemma PassHandlesClaims(c: Claims, start: PassState, p: PassState, outcome: Outcomes, writeFails: set<RunId>)
    requires start.records == c.records && Accounts(start, p, Trees(c.infos, start.active), outcome, writeFails)
    ensures RecordsFollow(c, start.active, p.records, outcome, writeFails)
    ensures TrackersFollow(c, start.active, start.recovering, p.active, p.recovering, outcome)
    ensures p.recovered == |p.recoveredRuns| && p.failed == |p.failedRuns|
    ensures ListsFollow(c, start.active, p.recoveredRuns, p.failedRuns, outcome)
  {
    HandledAreTrees(c, start.active);
    ReportsFollow(c, start.active, p, outcome);
  }

  class RecoveryPass {
    const metadata: MetadataStore
    const active: Tracker
    const recovering: Tracker
    const result: RecoveryResult

    constructor (metadata: MetadataStore, active: Tracker, recovering: Tracker)
      ensures this.metadata == metadata && this.active == active && this.recovering == recovering
      ensures fresh(result)
      ensures State() == PassState(metadata.records, active.runs, recovering.runs, 0, 0, [], [])
    {
      this.metadata, this.active, this.recovering := metadata, active, recovering;
      result := new RecoveryResult();
    }

    function State(): PassState
      reads metadata, active, recovering, result
    {
      PassState(metadata.records, active.runs, recovering.runs,
                result.recovered, result.failed, result.recoveredRuns, result.failedRuns)
    }

    method RecoverTree(root: RunId, outcome: Outcomes, writeFails: set<RunId>)
      requires active != recovering
      modifies metadata, active, recovering, result
      ensures State() == TreeStep(old(State()), root, outcome, writeFails)
      ensures metadata.records.Keys == old(metadata.records).Keys
      ensures forall run | run in metadata.records && run != root :: metadata.records[run] == old(metadata.records)[run]
      ensures root in metadata.records ==>
        metadata.records[root] == old(metadata.records)[root].(status :=
          if outcome(root).AlreadyComplete? then outcome(root).status
          else if outcome(root).TreeFailed? && root !in writeFails then Failed
          else old(metadata.records)[root].status)
      ensures outcome(root).TreeFailed? ==>
        recovering.runs == old(recovering.runs) - {root}
        && result.failedRuns == old(result.failedRuns) + [(root, outcome(root).error)]
        && result.failed == old(result.failed) + 1
        && result.recoveredRuns == old(result.recoveredRuns) && result.recovered == old(result.recovered)
      ensures !outcome(root).TreeFailed? ==>
        recovering.runs == old(recovering.runs) + {root}
        && result.recoveredRuns == old(result.recoveredRuns) + [root] && result.recovered == old(result.recovered) + 1
        && result.failedRuns == old(result.failedRuns) && result.failed == old(result.failed)
      ensures active.runs == old(active.runs) + if outcome(root).Resumed? then {root} else {}
    {
      recovering.Insert(root);
      match outcome(root) {
        case Resumed =>
          active.Insert(root);
          result.RecordSuccess(root);
        case AlreadyComplete(status) =>
          metadata.UpdateStatus(root, status, true);
          result.RecordSuccess(root);
        case TreeFailed(error) =>
          result.RecordFailure(root, error);
          metadata.UpdateStatus(root, Failed, root !in writeFails);
          recovering.Remove(root);
      }
      assert metadata.records == RecordsAfter(old(metadata.records), {root}, outcome, writeFails);
    }

    /** The loop over the trees, in whatever order the map yields them. */
    method RecoverTrees(trees: set<RunId>, outcome: Outcomes, writeFails: set<RunId>) returns (ghost order: seq<RunId>)
      requires active != recovering
      modifies metadata, active, recovering, result
      ensures Lists(order, trees)
      ensures State() == TreeSteps(old(State()), order, outcome, writeFails)
    {
      ghost var start := State();
      order := [];
      var todo := trees;
      while todo != {}
        invariant Remaining(trees, todo, order)
        invariant State() == TreeSteps(start, order, outcome, writeFails)
      {
        var root :| root in todo;
        RecoverTree(root, outcome, writeFails);
        OneMoreStep(start, order, root, outcome, writeFails);
        OneLess(trees, todo, order, root);
        todo := todo - {root};
        order := order + [root];
      }
    }
  }

  method RecoverOrphanedRuns(leases: LeaseManager, metadata: MetadataStore, active: Tracker, recovering: Tracker,
                             me: OrchId, limit: nat, own: Result<seq<Summary>, StoreError>,
                             orphans: nat -> Result<seq<Summary>, StoreError>, faults: Faults,
                             outcome: Outcomes, writeFails: set<RunId>)
      returns (r: Result<RecoveryResult, StoreError>, ghost c: Claims)
    requires active != recovering
    modifies leases, metadata, active, recovering
    ensures own.Err? || (|own.value| < limit && orphans(limit - |own.value|).Err?) ==>
      r.Err? && metadata.records == old(metadata.records) && leases.leases == old(leases.leases)
      && active.runs == old(active.runs) && recovering.runs == old(recovering.runs)
    ensures own.Ok? && (|own.value| >= limit || orphans(limit - |own.value|).Ok?) ==>
      r.Ok? && fresh(r.value) && leases.leases == c.leases
    ensures own.Ok? && |own.value| >= limit ==>
      ClaimsExactly(me, Claims(old(metadata.records), old(leases.leases), []), c, own.value, faults)
    ensures own.Ok? && |own.value| < limit && orphans(limit - |own.value|).Ok? ==>
      ClaimsExactly(me, Claims(old(metadata.records), old(leases.leases), []), c,
                    own.value + orphans(limit - |own.value|).value, faults)
    ensures r.Ok? ==> RecordsFollow(c, old(active.runs), metadata.records, outcome, writeFails)
    ensures r.Ok? ==> TrackersFollow(c, old(active.runs), old(recovering.runs), active.runs, recovering.runs, outcome)
    ensures r.Ok? ==>
      && r.value.recovered == |r.value.recoveredRuns| && r.value.failed == |r.value.failedRuns|
      && ListsFollow(c, old(active.runs), r.value.recoveredRuns, r.value.failedRuns, outcome)
    ensures r.Ok? ==>
      && PendingRuns(limit, own.value, orphans).Ok?
      && c == ClaimAll(me, Claims(old(metadata.records), old(leases.leases), []),
                       PendingRuns(limit, own.value, orphans).value, faults)
      && Accounts(
           PassState(c.records, old(active.runs), old(recovering.runs), 0, 0, [], []),
           PassState(metadata.records, active.runs, recovering.runs, r.value.recovered, r.value.failed,
                     r.value.recoveredRuns, r.value.failedRuns),
           Trees(c.infos, old(active.runs)), outcome, writeFails)
  {
    var infos := ClaimForRecovery(leases, metadata, me, limit, own, orphans, faults);
    c := Claims(metadata.records, leases.leases, []);
    if infos.Err? {
      return Err(infos.error), c;
    }
    c := c.(infos := infos.value);
    var roots := Trees(infos.value, active.runs);
    var pass := new RecoveryPass(metadata, active, recovering);
    ghost var start := pass.State();
    ghost var order := pass.RecoverTrees(roots, outcome, writeFails);
    PassAccounts(start, order, roots, outcome, writeFails);
    PassHandlesClaims(c, start, pass.State(), outcome, writeFails);
    return Ok(pass.result), c;
  }

  // --------------------------------------------------------- pass accounting

  lemma {:induction false} TreesBounded(infos: seq<RecoveryInfo>, active: set<RunId>)
    ensures |Trees(infos, active)| <= |infos|
    decreases |infos|
  {
    if infos == [] {
      assert Trees(infos, active) == {};
    } else {
      var k := |infos| - 1;
      var front := Trees(infos[..k], active);
      TreesBounded(infos[..k], active);
      assert Trees(infos, active) <= front + {infos[k].run} by {
        forall r | r in Trees(infos, active) ensures r in front + {infos[k].run} {
          var i :| 0 <= i < |infos| && infos[i].run !in active && infos[i].run == r;
          if i < k { assert infos[..k][i] == infos[i]; }
        }
      }
      SubsetSize(Trees(infos, active), front + {infos[k].run});
    }
  }

  lemma SubsetSize<T>(a: set<T>, b: set<T>)
    requires a <= b
    ensures |a| <= |b|
  {
    assert b == a + (b - a);
  }

  /** A pass handles at most `limit` roots when the store honours its limits,
    even if a run shows up in both listings, and never an executing one. */
  lemma PassStaysWithinLimit(me: OrchId, c: Claims, limit: nat, own: seq<Summary>,
                             orphans: nat -> Result<seq<Summary>, StoreError>, faults: Faults, active: set<RunId>)
    requires c.infos == [] && |own| <= limit
    requires forall n: nat :: orphans(n).Ok? ==> |orphans(n).value| <= n
    requires PendingRuns(limit, own, orphans).Ok?
    ensures var trees := Trees(ClaimAll(me, c, PendingRuns(limit, own, orphans).value, faults).infos, active);
      |trees| <= limit && trees !! active
  {
    var pending := PendingRuns(limit, own, orphans).value;
    ClaimedRunsAreLeased(me, c, pending, faults);
    TreesBounded(ClaimAll(me, c, pending, faults).infos, active);
  }

  /** An immediate second pass recovers nothing from the first: failed and
    complete trees are no longer Running, resumed ones are executing. */
  lemma SecondPassStartsNothing(me: OrchId, records: map<RunId, RunRecord>, active: set<RunId>, trees: set<RunId>,
                                outcome: Outcomes, leases: map<RunId, OrchId>, pending: seq<Summary>, faults: Faults)
    requires forall r | r in trees && outcome(r).AlreadyComplete? :: outcome(r).status != Running
    requires var later := RecordsAfter(records, trees, outcome, {});
      forall i | 0 <= i < |pending| :: pending[i].run in later && later[pending[i].run].status == Running
    ensures var c' := ClaimAll(me, Claims(RecordsAfter(records, trees, outcome, {}), leases, []), pending, faults);
      Trees(c'.infos, active + ResumedOf(trees, outcome)) !! trees
  {
    var later := RecordsAfter(records, trees, outcome, {});
    var c' := ClaimAll(me, Claims(later, leases, []), pending, faults);
    ClaimedRunsAreLeased(me, Claims(later, leases, []), pending, faults);
    forall r | r in Trees(c'.infos, active + ResumedOf(trees, outcome)) ensures r !in trees {
      var i :| 0 <= i < |c'.infos| && c'.infos[i].run == r && r !in active + ResumedOf(trees, outcome);
      var j :| 0 <= j < |pending|
        && c'.infos[i] == RecoveryInfo(pending[j].run, pending[j].flow, pending[j].createdAt);
      assert later[pending[j].run].status == Running;
    }
  }

  /** After the resumed executors have cleared their own entries, what a pass
    leaves behind in the active recoveries is exactly the complete trees: their
    entry is never removed, because no executor is spawned for them.  So nothing
    is left behind if and only if no tree was complete. */
  lemma CompleteTreesStayRecovering(start: PassState, p: PassState, trees: set<RunId>, outcome: Outcomes,
                                    writeFails: set<RunId>)
    requires Accounts(start, p, trees, outcome, writeFails)
    ensures var left := p.recovering - ResumedOf(trees, outcome);
      && left * trees == (set r | r in trees && outcome(r).AlreadyComplete?)
      && left - trees == start.recovering - trees
      && (left <= start.recovering - trees <==> forall r | r in trees :: !outcome(r).AlreadyComplete?)
  {
    var left := p.recovering - ResumedOf(trees, outcome);
    forall r | r in trees ensures r in left <==> outcome(r).AlreadyComplete? {}
  }
}
