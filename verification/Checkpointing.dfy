/** The periodic checkpoint writer: when it writes, and at which position. */
module Checkpointing {
  import opened Basics
  import opened Checkpoint
  import opened Records

  datatype CheckpointError = NoSequence | PutFailed

  /** The fields of the writer: `interval` 0 disables it; `since` counts entries,
    because sequence numbers may be sparse. */
  datatype Progress = Progress(interval: nat, since: nat, latest: Option<nat>)

  function Fresh(interval: nat): Progress {
    Progress(interval, 0, None)
  }

  function Record(p: Progress, sequence: nat): Progress {
    p.(since := p.since + 1, latest := Some(sequence))
  }

  predicate Due(p: Progress) {
    p.interval != 0 && p.since >= p.interval
  }

  function Attempted(p: Progress, putOk: bool): Progress {
    if Due(p) && p.latest.Some? && putOk then p.(since := 0) else p
  }

  class CheckpointStore {
    var stored: Option<Stored>

    constructor ()
      ensures stored == None
    {
      stored := None;
    }

    /** Keeps only the latest checkpoint; `ok` is the backend's answer. */
    method Put(checkpoint: Stored, ok: bool) returns (r: Result<(), CheckpointError>)
      modifies this
      ensures ok ==> r == Ok(()) && stored == Some(checkpoint)
      ensures !ok ==> r == Err(PutFailed) && stored == old(stored)
    {
      if !ok {
        return Err(PutFailed);
      }
      stored := Some(checkpoint);
      return Ok(());
    }

    method Delete(ok: bool)
      modifies this
      ensures stored == if ok then None else old(stored)
    {
      if ok {
        stored := None;
      }
    }
  }

  class Checkpointer {
    const store: CheckpointStore
    const interval: nat
    var entriesSince: nat
    var latestSequence: Option<nat>

    constructor (store: CheckpointStore, interval: nat)
      ensures this.store == store && State() == Fresh(interval)
    {
      this.store := store;
      this.interval := interval;
      entriesSince := 0;
      latestSequence := None;
    }

    function State(): Progress
      reads this
    {
      Progress(interval, entriesSince, latestSequence)
    }

    method RecordEntry(sequence: nat)
      modifies this
      ensures State() == Record(old(State()), sequence)
      ensures entriesSince == old(entriesSince) + 1 && latestSequence == Some(sequence)
    {
      latestSequence := Some(sequence);
      entriesSince := entriesSince + 1;
    }

    method MaybeCheckpoint(runs: map<RunId, RunState>, subflows: map<SubflowKey, RunId>,
                           inFlight: map<TaskKey, string>, it: Iteration, putOk: bool)
        returns (r: Result<(), CheckpointError>)
      requires Iterates(it, runs, subflows, inFlight)
      modifies this, store
      ensures State() == Attempted(old(State()), putOk)
      ensures latestSequence == old(latestSequence)
      ensures interval == 0 || old(entriesSince) < interval ==>
        r == Ok(()) && store.stored == old(store.stored) && entriesSince == old(entriesSince)
      ensures 0 < interval <= old(entriesSince) && old(latestSequence) == None ==>
        r == Err(NoSequence) && store.stored == old(store.stored) && entriesSince == old(entriesSince)
      ensures 0 < interval <= old(entriesSince) && old(latestSequence).Some? && !putOk ==>
        r == Err(PutFailed) && store.stored == old(store.stored) && entriesSince == old(entriesSince)
      ensures 0 < interval <= old(entriesSince) && old(latestSequence).Some? && putOk ==>
        entriesSince == 0 &&
        var sequence := old(latestSequence).value;
        r == Ok(()) &&
        store.stored == Some(Stored(sequence, Serialize(Capture(runs, subflows, inFlight, sequence, it))))
    {
      if interval == 0 || entriesSince < interval {
        return Ok(());
      }
      if latestSequence == None {
        return Err(NoSequence);
      }
      var sequence := latestSequence.value;
      var data := Capture(runs, subflows, inFlight, sequence, it);
      r := store.Put(Stored(sequence, Serialize(data)), putOk);
      if r.Ok? {
        entriesSince := 0;
      }
    }

    method Cleanup(deleteOk: bool)
      modifies store
      ensures store.stored == if interval != 0 && deleteOk then None else old(store.stored)
    {
      if interval == 0 {
        return;
      }
      store.Delete(deleteOk);
    }
  }

  // -------------------------------------------------------- whole lifetimes

  datatype Op = RecordOp(sequence: nat) | AttemptOp(putOk: bool)

  function Step(p: Progress, op: Op): Progress {
    match op
    case RecordOp(sequence) => Record(p, sequence)
    case AttemptOp(putOk) => Attempted(p, putOk)
  }

  /** The state of a fresh writer after a sequence of calls. */
  function After(interval: nat, ops: seq<Op>): Progress {
    if ops == [] then Fresh(interval) else Step(After(interval, ops[..|ops| - 1]), ops[|ops| - 1])
  }

  function RecordCount(ops: seq<Op>): nat {
    if ops == [] then 0 else RecordCount(ops[..|ops| - 1]) + if ops[|ops| - 1].RecordOp? then 1 else 0
  }

  /** The call at position `i` stored a checkpoint. */
  predicate StoresAt(interval: nat, ops: seq<Op>, i: nat) {
    && i < |ops| && ops[i] == AttemptOp(true)
    && Due(After(interval, ops[..i])) && After(interval, ops[..i]).latest.Some?
  }

  lemma {:induction false} RecordsAppend(a: seq<Op>, b: seq<Op>)
    ensures RecordCount(a + b) == RecordCount(a) + RecordCount(b)
    decreases |b|
  {
    if b == [] {
      assert a + b == a;
    } else {
      RecordsAppend(a, b[..|b| - 1]);
      assert (a + b)[..|a + b| - 1] == a + b[..|b| - 1];
    }
  }

  /** The missing-sequence error cannot occur: counted entries carry one. */
  lemma {:induction false} SequenceIsAlwaysKnown(interval: nat, ops: seq<Op>)
    ensures var p := After(interval, ops);
      p.interval == interval && (p.since > 0 ==> p.latest.Some?) && (Due(p) ==> p.latest.Some?)
    decreases |ops|
  {
    if ops != [] {
      SequenceIsAlwaysKnown(interval, ops[..|ops| - 1]);
    }
  }

  /** `since` counts exactly the entries recorded after position `from`, when
    `from` is 0 or follows a stored checkpoint and none is stored later. */
  lemma {:induction false} SinceCountsEntries(interval: nat, ops: seq<Op>, from: nat)
    requires from <= |ops|
    requires from == 0 || StoresAt(interval, ops, from - 1)
    requires forall i: nat | from <= i < |ops| :: !StoresAt(interval, ops, i)
    ensures After(interval, ops).since == RecordCount(ops[from..])
    decreases |ops|
  {
    if ops != [] {
      var front, last := ops[..|ops| - 1], ops[|ops| - 1];
      if from == |ops| {
        assert ops[..|ops| - 1] == ops[..from - 1];
        assert ops[from..] == [];
      } else {
        forall i: nat | i < |front| ensures StoresAt(interval, front, i) <==> StoresAt(interval, ops, i) {
          assert front[..i] == ops[..i];
        }
        SinceCountsEntries(interval, front, from);
        RecordsAppend(front[from..], [last]);
        assert ops[from..] == front[from..] + [last];
        assert RecordCount([last]) == RecordCount([]) + if last.RecordOp? then 1 else 0;
        assert !StoresAt(interval, ops, |ops| - 1);
        SequenceIsAlwaysKnown(interval, front);
      }
    }
  }

  lemma {:induction false} SinceAtMostRecords(interval: nat, ops: seq<Op>, from: nat)
    requires from <= |ops|
    requires from == 0 || StoresAt(interval, ops, from - 1)
    ensures After(interval, ops).since <= RecordCount(ops[from..])
    decreases |ops|
  {
    if from == |ops| {
      if from > 0 {
        assert ops[..|ops| - 1] == ops[..from - 1];
      }
      assert ops[from..] == [];
    } else {
      var front, last := ops[..|ops| - 1], ops[|ops| - 1];
      if from > 0 {
        assert front[..from - 1] == ops[..from - 1];
      }
      SinceAtMostRecords(interval, front, from);
      RecordsAppend(front[from..], [last]);
      assert ops[from..] == front[from..] + [last];
      assert RecordCount([last]) == RecordCount([]) + if last.RecordOp? then 1 else 0;
    }
  }

  /** Between two stored checkpoints, and before the first one, lie at least
    `interval` recorded entries. */
  lemma CheckpointsAreSpaced(interval: nat, ops: seq<Op>, from: nat, i: nat)
    requires from <= i && StoresAt(interval, ops, i)
    requires from == 0 || StoresAt(interval, ops, from - 1)
    ensures interval >= 1 && RecordCount(ops[from..i]) >= interval
  {
    var before := ops[..i];
    SequenceIsAlwaysKnown(interval, before);
    if from > 0 {
      assert before[..from - 1] == ops[..from - 1];
    }
    SinceAtMostRecords(interval, before, from);
    assert before[from..] == ops[from..i];
  }

  /** When an attempt whose put succeeds follows every entry, fewer than
    `interval` entries are ever left uncovered after an attempt. */
  lemma {:induction false} BacklogStaysBelowInterval(interval: nat, sequences: seq<nat>)
    requires interval >= 1
    ensures After(interval, Diligent(sequences)).since < interval
    decreases |sequences|
  {
    if sequences != [] {
      var front := sequences[..|sequences| - 1];
      var ops := Diligent(sequences);
      BacklogStaysBelowInterval(interval, front);
      SequenceIsAlwaysKnown(interval, Diligent(front));
      assert ops[..|ops| - 1][..|ops| - 2] == Diligent(front);
    }
  }

  function Diligent(sequences: seq<nat>): seq<Op> {
    if sequences == [] then []
    else Diligent(sequences[..|sequences| - 1]) + [RecordOp(sequences[|sequences| - 1]), AttemptOp(true)]
  }
}
