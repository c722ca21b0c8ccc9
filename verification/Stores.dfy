/** The shared stores and per-process trackers that submission and recovery
  update.  Whether a backend call fails is decided by its caller's `ok`. */
module Stores {
  import opened Basics
  import opened Journals
  import opened Records

  datatype StoreError = StoreError

  datatype RunRecord = RunRecord(status: Status, owner: Option<OrchId>, flow: nat, createdAt: nat)

  datatype Summary = Summary(run: RunId, owner: Option<OrchId>, flow: nat, createdAt: nat)

  datatype LeaseResult = Acquired | OwnedBy(owner: OrchId)

  datatype Event = RootRunCreated(flow: nat) | Progress

  class Journal {
    var entries: map<RunId, seq<Entry<Event>>>
    var next: nat

    /** Every journal is in order, and no stored sequence reaches `next`. */
    ghost predicate Valid()
      reads this
    {
      forall run | run in entries ::
        Ordered(entries[run]) && forall i | 0 <= i < |entries[run]| :: entries[run][i].sequence < next
    }

    constructor ()
      ensures Valid() && entries == map[]
    {
      entries, next := map[], 0;
    }

    /** Assigns a sequence number larger than all that are stored; `gap` makes
      them sparse. */
    method Write(run: RunId, event: Event, gap: nat, ok: bool) returns (r: Result<nat, StoreError>)
      requires Valid()
      modifies this
      ensures Valid()
      ensures !ok ==> r == Err(StoreError) && entries == old(entries)
      ensures ok ==> r.Ok? && entries == old(entries)[run := EntriesOf(old(entries), run) + [Entry(r.value, event)]]
      ensures r.Ok? ==> forall s, i | s in old(entries) && 0 <= i < |old(entries)[s]| ::
        old(entries)[s][i].sequence < r.value
    {
      if !ok {
        return Err(StoreError);
      }
      var sequence := next + gap;
      entries := entries[run := EntriesOf(entries, run) + [Entry(sequence, event)]];
      next := sequence + 1;
      return Ok(sequence);
    }
  }

  function EntriesOf(entries: map<RunId, seq<Entry<Event>>>, run: RunId): seq<Entry<Event>> {
    if run in entries then entries[run] else []
  }

  function WithStatus(records: map<RunId, RunRecord>, run: RunId, status: Status): map<RunId, RunRecord> {
    if run in records then records[run := records[run].(status := status)] else records
  }

  function WithOwner(records: map<RunId, RunRecord>, run: RunId, owner: Option<OrchId>): map<RunId, RunRecord> {
    if run in records then records[run := records[run].(owner := owner)] else records
  }

  function WithRun(records: map<RunId, RunRecord>, run: RunId, record: RunRecord): map<RunId, RunRecord> {
    if run in records then records else records[run := record]
  }

  class MetadataStore {
    var records: map<RunId, RunRecord>

    /** Idempotent: an existing record is kept. */
    method CreateRun(run: RunId, owner: Option<OrchId>, flow: nat, createdAt: nat, ok: bool)
        returns (r: Result<(), StoreError>)
      modifies this
      ensures r.Ok? == ok
      ensures records ==
        if ok then WithRun(old(records), run, RunRecord(Running, owner, flow, createdAt)) else old(records)
    {
      if !ok {
        return Err(StoreError);
      }
      if run !in records {
        records := records[run := RunRecord(Running, owner, flow, createdAt)];
      }
      return Ok(());
    }

    method GetRun(run: RunId, ok: bool) returns (r: Result<Option<RunRecord>, StoreError>)
      ensures r == if !ok then Err(StoreError) else Ok(if run in records then Some(records[run]) else None)
    {
      if !ok {
        return Err(StoreError);
      }
      return Ok(if run in records then Some(records[run]) else None);
    }

    method UpdateStatus(run: RunId, status: Status, ok: bool)
      modifies this
      ensures records == if ok then WithStatus(old(records), run, status) else old(records)
    {
      if ok && run in records {
        records := records[run := records[run].(status := status)];
      }
    }

    method UpdateOwner(run: RunId, owner: Option<OrchId>, ok: bool)
      modifies this
      ensures records == if ok then WithOwner(old(records), run, owner) else old(records)
    {
      if ok && run in records {
        records := records[run := records[run].(owner := owner)];
      }
    }
  }

  predicate Grants(leases: map<RunId, OrchId>, run: RunId, o: OrchId) {
    run !in leases || leases[run] == o
  }

  class LeaseManager {
    var leases: map<RunId, OrchId>

    /** Granted when free or already held by the same orchestrator. */
    method Acquire(run: RunId, o: OrchId, ok: bool) returns (r: Result<LeaseResult, StoreError>)
      modifies this
      ensures !ok ==> r == Err(StoreError) && leases == old(leases)
      ensures ok && Grants(old(leases), run, o) ==> r == Ok(Acquired) && leases == old(leases)[run := o]
      ensures ok && !Grants(old(leases), run, o) ==> r == Ok(OwnedBy(old(leases)[run])) && leases == old(leases)
    {
      if !ok {
        return Err(StoreError);
      }
      if run in leases && leases[run] != o {
        return Ok(OwnedBy(leases[run]));
      }
      leases := leases[run := o];
      return Ok(Acquired);
    }
  }

  /** A concurrent set of run ids: the active executions or active recoveries. */
  class Tracker {
    var runs: set<RunId>

    method Insert(run: RunId)
      modifies this
      ensures runs == old(runs) + {run}
    {
      runs := runs + {run};
    }

    method Remove(run: RunId)
      modifies this
      ensures runs == old(runs) - {run}
    {
      runs := runs - {run};
    }
  }
}
