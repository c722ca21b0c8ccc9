/** Memory against the journal from the second process life on: which recoveries
  leave the executor's memory in step with the journal, and what a checkpoint of
  such a life is worth. */
module DurableDrift {
  import opened Basics
  import opened Checkpoint
  import opened CheckpointReplay
  import opened Checkpointing
  import opened DurableRun
  import opened Journals
  import opened Records

  /** In every run that a recovery starts with, initializing an item and replaying
    what that journals do the same.  A known sub-run is not announced again. */
  ghost predicate Harmless(flow: Flow, rec: Recovered) {
    forall r, i | r in rec.runs && 0 <= i < |rec.runs[r].items| ::
      HarmlessItem(flow, r !in Announced(rec), rec.runs[r].payload, i, rec.runs[r].items[i])
  }

  ghost predicate HarmlessRecovery(w: World)
    requires Restore(w).Ok?
  {
    Harmless(w.tree.flow, Restore(w).value)
  }

  /** The executor's memory is in step with the journal. */
  ghost predicate MemoryInStep(w: World)
    requires Faithful(w) && w.executor.Some?
  {
    Synced(w.tree.flow, w.executor.value.announcing, w.executor.value.runs, Truth(w, |w.journal|).runs)
  }

  lemma RestartSyncedIff(tree: Tree, rec: Recovered, interval: nat)
    ensures var x := Restarted(tree, rec, interval);
      && SameRuns(x.runs, rec.runs)
      && (Synced(tree.flow, x.announcing, x.runs, rec.runs) <==> Harmless(tree.flow, rec))
  {
    var x := Restarted(tree, rec, interval);
    RestartKeepsRuns(tree.flow, rec.runs, rec.runs);
    forall r, i | r in rec.runs && 0 <= i < |rec.runs[r].items|
      ensures HarmlessItem(tree.flow, r !in Announced(rec), rec.runs[r].payload, i, rec.runs[r].items[i])
         <==> SyncedItem(tree.flow, ItemKey(r, i) in x.announcing, x.runs[r].payload, i,
                         rec.runs[r].items[i], x.runs[r].items[i])
    {
      assert ItemKey(r, i) in x.announcing <==> r !in Announced(rec) && x.runs[r].items[i].needed != {};
    }
  }

  // --------------------------------------------- what one recovery comes to

  ghost predicate IsAnnouncement(step: Step) {
    step.Write? && step.event.StepsNeeded?
  }

  lemma AnnouncementKeepsInStepIff(w: World, step: Step)
    requires Faithful(w) && Enabled(w, step) && IsAnnouncement(step)
    ensures Faithful(Apply(w, step)) && Apply(w, step).executor.Some?
    ensures MemoryInStep(Apply(w, step)) <==> MemoryInStep(w)
  {
    var w', x, n := Apply(w, step), w.executor.value, |w.journal|;
    WriteKeepsFaithful(w, step.sequence, step.event);
    TruthIsWellFormed(w, n);
    TruthOfPrefix(w, w', n);
    TruthStep(w', n);
    AnnouncementKeepsSyncIff(w.tree, x.announcing, x.runs, Truth(w, n).runs, step.event);
  }

  lemma {:induction false} AnnouncementsKeepInStepIff(w: World, steps: seq<Step>, w': World)
    requires Faithful(w) && w.executor.Some? && IsRun(w, steps, w')
    requires forall i | 0 <= i < |steps| :: IsAnnouncement(steps[i])
    ensures Faithful(w') && w'.executor.Some?
    ensures MemoryInStep(w') <==> MemoryInStep(w)
    decreases |steps|
  {
    if steps != [] {
      AnnouncementKeepsInStepIff(w, steps[0]);
      AnnouncementsKeepInStepIff(Apply(w, steps[0]), steps[1..], w');
    }
  }

  /** A recovery from the true run states, once everything is announced: memory
    is what replaying the journal gives if and only if the recovery is harmless. */
  lemma {:induction false} RecoveryDriftsIff(w: World, announcements: seq<Step>, w': World)
    requires Faithful(w) && Enabled(w, Recover) && Restore(w).value.runs == Truth(w, |w.journal|).runs
    requires IsRun(Apply(w, Recover), announcements, w')
    requires forall i | 0 <= i < |announcements| :: IsAnnouncement(announcements[i])
    requires w'.executor.Some? && w'.executor.value.announcing == {}
    ensures w'.journal != []
    ensures w'.executor.value.runs == Truth(w', |w'.journal|).runs <==> HarmlessRecovery(w)
  {
    var started := Apply(w, Recover);
    StepKeepsFaithful(w, Recover);
    TruthOfPrefix(w, started, |w.journal|);
    RestartSyncedIff(w.tree, Restore(w).value, w.interval);
    AnnouncementsKeepInStepIff(started, announcements, w');
    SettledSyncIff(w'.tree.flow, w'.executor.value.runs, Truth(w', |w'.journal|).runs);
  }

  /** What a checkpoint is worth: its run states come out right for everything
    that may be journaled later, if and only if memory was in step at capture. */
  lemma CheckpointIsRightIff(w: World, it: Iteration)
    requires Faithful(w) && Enabled(w, AttemptCheckpoint(it, true))
    requires Due(w.executor.value.progress) && w.executor.value.progress.latest.Some?
    ensures var snapshot := Apply(w, AttemptCheckpoint(it, true)).snapshot;
      && snapshot.Some? && snapshot.value.stored.bytes.Encoded?
      && var base, truth := Base(snapshot.value.stored.bytes.data), Truth(w, |w.journal|);
         ((forall tail :: RunsAgreeAfter(w.tree, base, truth, tail)) <==> w.executor.value.runs == truth.runs)
  {
    var x := w.executor.value;
    TruthIsWellFormed(w, |w.journal|);
    CaptureDecodes(x, x.progress.latest.value, it);
    var data := Capture(x.runs, x.recoveredSubflows, x.inFlight, x.progress.latest.value, it);
    RunsAgreeForEveryTailIff(w.tree, Base(data), Truth(w, |w.journal|));
  }

  /** A sub-run of several items, and a crash between two of its announcements:
    recovery takes the sub-run for announced, and the items it has not seen an
    announcement of drift. */
  lemma HalfAnnouncedDrifts(tree: Tree, rec: Recovered, key: SubflowKey, run: RunId, payload: nat, steps: seq<nat>,
                            i: nat)
    requires run !in rec.runs && run != tree.root && 0 < i < |tree.flow.create(payload)|
    requires tree.flow.initialize(payload, i, tree.flow.create(payload)[i]) != tree.flow.create(payload)[i]
    ensures var created := ReplayEvent(tree, rec, SubRunCreated(run, payload, key));
      !Harmless(tree.flow, ReplayEvent(tree, created, StepsNeeded(run, 0, steps)))
  {
    var created := ReplayEvent(tree, rec, SubRunCreated(run, payload, key));
    var half := ReplayEvent(tree, created, StepsNeeded(run, 0, steps));
    AnnouncedItem(tree.flow, created.runs[run], StepsNeeded(run, 0, steps), i);
    assert half.runs[run].items[i] == tree.flow.create(payload)[i];
    assert half.subflows[key] == run && run in half.subflows.Values && run in Announced(half);
  }

  // -------------------------------------------------- runs without any drift

  /** Memory and the stored checkpoint agree with the journal on every run. */
  ghost predicate InStep(w: World) {
    && Faithful(w)
    && (w.executor.Some? ==> MemoryInStep(w))
    && (w.snapshot.Some? ==>
          Base(w.snapshot.value.stored.bytes.data).runs == Truth(w, w.snapshot.value.length).runs)
  }

  /** Every recovery along the run is harmless. */
  ghost predicate IsHarmlessRun(w: World, steps: seq<Step>, w': World)
    decreases |steps|
  {
    if steps == [] then w == w'
    else
      && Enabled(w, steps[0]) && (steps[0].Recover? ==> HarmlessRecovery(w))
      && IsHarmlessRun(Apply(w, steps[0]), steps[1..], w')
  }

  lemma {:induction false} HarmlessRunIsRun(w: World, steps: seq<Step>, w': World)
    requires IsHarmlessRun(w, steps, w')
    ensures IsRun(w, steps, w')
    decreases |steps|
  {
    if steps != [] {
      HarmlessRunIsRun(Apply(w, steps[0]), steps[1..], w');
    }
  }

  lemma InStepRestores(w: World)
    requires InStep(w)
    ensures Restore(w).Ok? && Restore(w).value.runs == Truth(w, |w.journal|).runs
  {
    RestoreIsFaithful(w);
    if w.snapshot.Some? {
      var snapshot := w.snapshot.value;
      RestoreUnfolds(w);
      RunsDependOnRuns(w.tree, Base(snapshot.stored.bytes.data), Truth(w, snapshot.length),
                       w.journal[snapshot.length..]);
    }
  }

  lemma WriteKeepsInStep(w: World, sequence: nat, event: Event)
    requires InStep(w) && Enabled(w, Write(sequence, event))
    ensures InStep(Apply(w, Write(sequence, event)))
  {
    var w', n := Apply(w, Write(sequence, event)), |w.journal|;
    WriteKeepsFaithful(w, sequence, event);
    TruthIsWellFormed(w, n);
    TruthOfPrefix(w, w', n);
    TruthStep(w', n);
    WriteKeepsSync(w, Truth(w, n).runs, sequence, event);
    if w.snapshot.Some? { TruthOfPrefix(w, w', w.snapshot.value.length); }
  }

  lemma AttemptKeepsInStep(w: World, it: Iteration, putOk: bool)
    requires InStep(w) && Enabled(w, AttemptCheckpoint(it, putOk))
    ensures InStep(Apply(w, AttemptCheckpoint(it, putOk)))
  {
    var w', x, n := Apply(w, AttemptCheckpoint(it, putOk)), w.executor.value, |w.journal|;
    AttemptKeepsFaithful(w, it, putOk);
    TruthOfPrefix(w, w', n);
    SettledSyncIff(w.tree.flow, x.runs, Truth(w, n).runs);
    if Due(x.progress) && x.progress.latest.Some? && putOk {
      TruthIsWellFormed(w, n);
      CaptureDecodes(x, x.progress.latest.value, it);
    } else if w.snapshot.Some? {
      TruthOfPrefix(w, w', w.snapshot.value.length);
    }
  }

  lemma RecoverKeepsInStep(w: World)
    requires InStep(w) && Enabled(w, Recover) && HarmlessRecovery(w)
    ensures InStep(Apply(w, Recover))
  {
    var w' := Apply(w, Recover);
    StepKeepsFaithful(w, Recover);
    InStepRestores(w);
    TruthOfPrefix(w, w', |w.journal|);
    RestartSyncedIff(w.tree, Restore(w).value, w.interval);
    if w.snapshot.Some? { TruthOfPrefix(w, w', w.snapshot.value.length); }
  }

  lemma StepKeepsInStep(w: World, step: Step)
    requires InStep(w) && Enabled(w, step) && (step.Recover? ==> HarmlessRecovery(w))
    ensures InStep(Apply(w, step))
  {
    match step
    case Write(sequence, event) => WriteKeepsInStep(w, sequence, event);
    case AttemptCheckpoint(it, putOk) => AttemptKeepsInStep(w, it, putOk);
    case Recover => RecoverKeepsInStep(w);
    case _ =>
      var w' := Apply(w, step);
      StepKeepsFaithful(w, step);
      TruthOfPrefix(w, w', |w.journal|);
      if w.snapshot.Some? { TruthOfPrefix(w, w', w.snapshot.value.length); }
  }

  lemma {:induction false} HarmlessRunKeepsInStep(w: World, steps: seq<Step>, w': World)
    requires InStep(w) && IsHarmlessRun(w, steps, w')
    ensures InStep(w') && w'.tree == w.tree && w'.payload == w.payload
    decreases |steps|
  {
    if steps != [] {
      StepKeepsInStep(w, steps[0]);
      HarmlessRunKeepsInStep(Apply(w, steps[0]), steps[1..], w');
    }
  }

  /** If every recovery is harmless, the run states agree in all lives: whatever
    checkpoint is stored, both recovery paths give the same, and settled memory
    is the fold of the journal. */
  lemma {:induction false} HarmlessRunsAgree(w: World, steps: seq<Step>, w': World)
    requires Init(w) && IsHarmlessRun(w, steps, w')
    ensures w'.journal != [] && Restore(w').Ok? && RestoreFromJournal(w'.tree, w'.journal).Ok?
    ensures Restore(w').value.runs == RestoreFromJournal(w'.tree, w'.journal).value.runs
    ensures w'.executor.Some? && w'.executor.value.announcing == {} ==>
      w'.executor.value.runs == RestoreFromJournal(w'.tree, w'.journal).value.runs
  {
    InitIsFaithful(w);
    HarmlessRunKeepsInStep(w, steps, w');
    InStepRestores(w');
    RestoreIsFaithful(w');
    if w'.executor.Some? && w'.executor.value.announcing == {} {
      SettledSyncIff(w'.tree.flow, w'.executor.value.runs, Truth(w', |w'.journal|).runs);
    }
  }
}
