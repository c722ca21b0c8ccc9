/** Submitting a run: the fixed order of effects on the blob store, the journal,
  the metadata store, the lease manager and the active executions, with every
  failure path. */
module Submission {
  import opened Basics
  import opened Journals
  import opened Records
  import opened Stores

  datatype SubmitError = StateStoreError | JournalError | OverrideError | BuildError | RunNotFound

  /** Which of the calls of one submission fail. */
  datatype Faults = Faults(blob: bool, journal: bool, record: bool, lease: bool, overrides: bool, validation: bool,
                           buildRecord: bool, status: bool, read: bool)

  class Environment {
    var flows: set<nat>
    const journal: Journal
    const metadata: MetadataStore
    const leases: LeaseManager
    const active: Tracker
    const orchestrator: Option<OrchId>

    constructor (journal: Journal, metadata: MetadataStore, leases: LeaseManager, active: Tracker,
                 orchestrator: Option<OrchId>)
      ensures this.journal == journal && this.metadata == metadata && this.leases == leases && this.active == active
      ensures this.orchestrator == orchestrator && flows == {}
    {
      this.flows := {};
      this.journal, this.metadata, this.leases, this.active := journal, metadata, leases, active;
      this.orchestrator := orchestrator;
    }

    /** The executor builder: validates, then makes sure a record exists.  Its
      sequence 0 never reaches a record that is already there. */
    method BuildExecutor(run: RunId, flow: nat, validationFails: bool, recordFails: bool)
        returns (r: Result<(), SubmitError>)
      modifies metadata
      ensures r == if validationFails || recordFails then Err(BuildError) else Ok(())
      ensures run in old(metadata.records) ==> metadata.records == old(metadata.records)
      ensures run !in old(metadata.records) && r.Ok? ==>
        metadata.records == old(metadata.records)[run := RunRecord(Running, None, flow, 0)]
      ensures r.Err? ==> metadata.records == old(metadata.records)
    {
      if validationFails {
        return Err(BuildError);
      }
      var created := metadata.CreateRun(run, None, flow, 0, !recordFails);
      if created.Err? {
        return Err(BuildError);
      }
      return Ok(());
    }

    /** A run is executed exactly when it was recorded and nothing failed up to
      the spawn.  The last call only reads the record back: when it fails the
      caller gets an error although the run is being executed. */
    method SubmitRun(run: RunId, flow: nat, gap: nat, faults: Faults) returns (r: Result<Status, SubmitError>)
      requires journal.Valid() && run !in journal.entries && run !in metadata.records
      modifies this`flows, journal, metadata, leases, active
      ensures journal.Valid()
      // A visible run is journaled at exactly its `createdAt`, whatever failed.
      ensures run in metadata.records ==>
        && run in journal.entries
        && journal.entries[run] == [Entry(metadata.records[run].createdAt, RootRunCreated(flow))]
        && metadata.records[run].owner == orchestrator && metadata.records[run].flow == flow && flow in flows
      // What is reached before each failure.
      ensures run in journal.entries <==> !faults.blob && !faults.journal
      ensures run in metadata.records <==> !faults.blob && !faults.journal && !faults.record
      ensures active.runs == old(active.runs) + if run in metadata.records && Starts(faults) then {run} else {}
      ensures r ==
        if faults.blob then Err(StateStoreError) else if faults.journal then Err(JournalError)
        else if faults.record then Err(StateStoreError) else if faults.overrides then Err(OverrideError)
        else if faults.validation || faults.buildRecord then Err(BuildError)
        else if faults.read then Err(StateStoreError) else Ok(Running)
      // A run that cannot be executed is marked as failed; one that is executed is Running, even if `r` is an error.
      ensures run in metadata.records ==>
        metadata.records[run].status == if Starts(faults) || faults.status then Running else Failed
      // A failed or refused lease does not stop the submission.
      ensures leases.leases ==
        if run in metadata.records && orchestrator.Some? && !faults.lease
          && Grants(old(leases.leases), run, orchestrator.value)
        then old(leases.leases)[run := orchestrator.value] else old(leases.leases)
      // Other runs are untouched.
      ensures metadata.records - {run} == old(metadata.records) && journal.entries - {run} == old(journal.entries)
    {
      var recorded := RecordRun(run, flow, gap, faults);
      if recorded.Err? {
        return Err(recorded.error);
      }
      if orchestrator.Some? {
        var _ := leases.Acquire(run, orchestrator.value, !faults.lease);
      }
      r := PrepareAndSpawn(run, flow, faults);
    }

    /** Flow first, then the journal, then the metadata store. */
    method RecordRun(run: RunId, flow: nat, gap: nat, faults: Faults) returns (r: Result<(), SubmitError>)
      requires journal.Valid() && run !in journal.entries && run !in metadata.records
      modifies this`flows, journal, metadata
      ensures journal.Valid()
      ensures r ==
        if faults.blob then Err(StateStoreError) else if faults.journal then Err(JournalError)
        else if faults.record then Err(StateStoreError) else Ok(())
      ensures r.Err? ==> metadata.records == old(metadata.records)
      ensures r.Ok? ==>
        && flow in flows && run in metadata.records
        && metadata.records == old(metadata.records)[run := metadata.records[run]]
        && metadata.records[run] == RunRecord(Running, orchestrator, flow, metadata.records[run].createdAt)
        && run in journal.entries
        && journal.entries[run] == [Entry(metadata.records[run].createdAt, RootRunCreated(flow))]
      ensures run in journal.entries <==> !faults.blob && !faults.journal
      ensures journal.entries - {run} == old(journal.entries)
    {
      if faults.blob {
        return Err(StateStoreError);
      }
      flows := flows + {flow};
      var written := journal.Write(run, RootRunCreated(flow), gap, !faults.journal);
      if written.Err? {
        return Err(JournalError);
      }
      var created := metadata.CreateRun(run, orchestrator, flow, written.value, !faults.record);
      if created.Err? {
        return Err(StateStoreError);
      }
      return Ok(());
    }

    /** The rest, for a run that is recorded: overrides, executor, spawn, and
      reading the record back. */
    method PrepareAndSpawn(run: RunId, flow: nat, faults: Faults) returns (r: Result<Status, SubmitError>)
      requires run in metadata.records && metadata.records[run].status == Running
      modifies metadata, active
      ensures r ==
        if faults.overrides then Err(OverrideError) else if faults.validation || faults.buildRecord then Err(BuildError)
        else if faults.read then Err(StateStoreError) else Ok(Running)
      ensures metadata.records ==
        if !Starts(faults) && !faults.status
        then old(metadata.records)[run := old(metadata.records)[run].(status := Failed)] else old(metadata.records)
      ensures active.runs == old(active.runs) + if Starts(faults) then {run} else {}
    {
      if faults.overrides {
        metadata.UpdateStatus(run, Failed, !faults.status);
        return Err(OverrideError);
      }
      var built := BuildExecutor(run, flow, faults.validation, faults.buildRecord);
      if built.Err? {
        metadata.UpdateStatus(run, Failed, !faults.status);
        return Err(BuildError);
      }
      active.Insert(run);
      var found := metadata.GetRun(run, !faults.read);
      if found.Err? {
        return Err(StateStoreError);
      }
      if found.value.None? {
        return Err(RunNotFound);
      }
      return Ok(found.value.value.status);
    }
  }

  /** Nothing between the record and the spawn fails. */
  predicate Starts(faults: Faults) {
    !faults.overrides && !faults.validation && !faults.buildRecord
  }
}
