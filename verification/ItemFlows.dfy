/** The items of `ItemReplays` as the flow of an execution tree: the first
  initialization is harmless for every flow, and a recovery is harmless exactly
  if the initializations in it are. */
module ItemFlows {
  import opened Basics
  import opened Checkpoint
  import opened CheckpointReplay
  import opened Checkpointing
  import opened DurableDrift
  import opened DurableRun
  import opened Journals
  import opened Records
  import IR = ItemReplays
  import IS = ItemStates

  /** By payload (and item): how many steps a flow has, how many items the run
    has, what its steps need, and which steps the output and the must-execute
    flags ask for. */
  datatype Spec = Spec(
    steps: nat -> nat,
    items: nat -> nat,
    needs: (nat, nat) -> IS.Needs,
    outputs: (nat, nat, View) -> set<nat>)

  ghost predicate Valid(spec: Spec) {
    && (forall p, i :: IR.NeedsInRange(spec.steps(p), spec.needs(p, i)))
    && (forall p, i, v :: IS.Below(spec.outputs(p, i, v), spec.steps(p)))
  }

  ghost function AppliedTo(spec: Spec, p: nat, i: nat, v: View, e: ItemEvent): View {
    var n := spec.steps(p);
    if IS.Consistent(n, v) && IR.EventInRange(n, e) then IR.Replayed(spec.needs(p, i), n, v, e) else v
  }

  ghost function InitializedTo(spec: Spec, p: nat, i: nat, v: View): View {
    IR.AddAll(spec.needs(p, i), v, IS.Ascending(spec.outputs(p, i, v), spec.steps(p)))
  }

  function NewItems(spec: Spec, p: nat): seq<View> {
    seq(spec.items(p), i => IR.FreshView(spec.steps(p)))
  }

  ghost function ItemFlow(spec: Spec): Flow {
    Flow((p: nat) => NewItems(spec, p),
         (p: nat, i: nat, v: View, e: ItemEvent) => AppliedTo(spec, p, i, v, e),
         (p: nat, i: nat, v: View) => InitializedTo(spec, p, i, v))
  }

  ghost function Initialization(spec: Spec, p: nat, i: nat, v: View, announced: bool): IR.LiveStep {
    IR.Initialize(spec.outputs(p, i, v), announced)
  }

  lemma InitializedNeeds(spec: Spec, p: nat, i: nat, v: View)
    requires Valid(spec) && IR.Sound(spec.steps(p), v)
    ensures var n, live := spec.steps(p), InitializedTo(spec, p, i, v);
      && IR.InRange(n, Initialization(spec, p, i, v, true)) && IR.InRange(n, Initialization(spec, p, i, v, false))
      && IR.Sound(n, live) && IR.EventInRange(n, IR.StepsNeeded(NeededSteps(live)))
  {
    var n, needs, live := spec.steps(p), spec.needs(p, i), InitializedTo(spec, p, i, v);
    IR.LiveSound(needs, n, v, Initialization(spec, p, i, v, true));
    IS.AscendingElements(live.needed, n);
  }

  /** Harmless for the tree is harmless for the item. */
  lemma HarmlessItemIff(spec: Spec, p: nat, i: nat, v: View, announced: bool)
    requires Valid(spec) && IR.Sound(spec.steps(p), v)
    ensures HarmlessItem(ItemFlow(spec), announced, p, i, v)
       <==> IR.Harmless(spec.needs(p, i), spec.steps(p), v, Initialization(spec, p, i, v, announced))
  {
    var n, needs, l := spec.steps(p), spec.needs(p, i), Initialization(spec, p, i, v, announced);
    InitializedNeeds(spec, p, i, v);
    IR.StepReplaysIff(needs, n, v, l);
    var live := InitializedTo(spec, p, i, v);
    assert ItemFlow(spec).initialize(p, i, v) == live == IR.Live(needs, n, v, l);
    if announced && live.needed != {} {
      var e := IR.StepsNeeded(NeededSteps(live));
      assert ItemFlow(spec).apply(p, i, v, e) == IR.Replayed(needs, n, v, e);
    }
  }

  /** Every flow made of items is lawful. */
  lemma ItemFlowIsLawful(spec: Spec)
    requires Valid(spec)
    ensures Lawful(ItemFlow(spec))
  {
    forall p: nat, i: nat | i < |ItemFlow(spec).create(p)|
      ensures HarmlessItem(ItemFlow(spec), true, p, i, ItemFlow(spec).create(p)[i])
    {
      IR.FreshIsSound(spec.steps(p));
      HarmlessItemIff(spec, p, i, IR.FreshView(spec.steps(p)), true);
    }
  }

  // ------------------------------------------------------------- sound items

  ghost predicate SoundRun(spec: Spec, s: RunState) {
    forall i | 0 <= i < |s.items| :: IR.Sound(spec.steps(s.payload), s.items[i])
  }

  ghost predicate SoundRuns(spec: Spec, runs: map<RunId, RunState>) {
    forall r | r in runs :: SoundRun(spec, runs[r])
  }

  lemma {:induction false} AppliedItemSound(spec: Spec, p: nat, i: nat, v: View, events: seq<ItemEvent>)
    requires Valid(spec) && IR.Sound(spec.steps(p), v)
    ensures IR.Sound(spec.steps(p), AppliedItem(ItemFlow(spec), p, i, v, events))
    decreases |events|
  {
    if events != [] {
      var front, e := events[..|events| - 1], events[|events| - 1];
      AppliedItemSound(spec, p, i, v, front);
      var u := AppliedItem(ItemFlow(spec), p, i, v, front);
      if IR.EventInRange(spec.steps(p), e) {
        IR.ReplayedSound(spec.needs(p, i), spec.steps(p), u, e);
      }
    }
  }

  lemma AppliedRunSound(spec: Spec, s: RunState, event: Event)
    requires Valid(spec) && SoundRun(spec, s)
    ensures SoundRun(spec, AppliedRun(ItemFlow(spec), s, event))
  {
    var t := AppliedRun(ItemFlow(spec), s, event);
    forall i | 0 <= i < |t.items| ensures IR.Sound(spec.steps(t.payload), t.items[i]) {
      AppliedItemSound(spec, s.payload, i, s.items[i], ItemEvents(event, s.run, i));
    }
  }

  lemma NewRunSound(spec: Spec, run: RunId, payload: nat)
    ensures SoundRun(spec, NewRun(ItemFlow(spec), run, payload))
  {
    IR.FreshIsSound(spec.steps(payload));
  }

  lemma InitializedSound(spec: Spec, s: RunState)
    requires Valid(spec) && SoundRun(spec, s)
    ensures SoundRun(spec, Initialized(ItemFlow(spec), s))
  {
    var t := Initialized(ItemFlow(spec), s);
    forall i | 0 <= i < |t.items| ensures IR.Sound(spec.steps(t.payload), t.items[i]) {
      InitializedNeeds(spec, s.payload, i, s.items[i]);
    }
  }

  lemma RunsAfterSound(spec: Spec, tree: Tree, runs: map<RunId, RunState>, event: Event)
    requires Valid(spec) && tree.flow == ItemFlow(spec) && SoundRuns(spec, runs)
    ensures SoundRuns(spec, RunsAfter(tree, runs, event)) && SoundRuns(spec, MemoryAfter(tree, runs, event))
  {
    forall r | r in runs ensures SoundRun(spec, AppliedRun(tree.flow, runs[r], event)) {
      AppliedRunSound(spec, runs[r], event);
    }
    if event.SubRunCreated? {
      NewRunSound(spec, event.run, event.payload);
      InitializedSound(spec, NewRun(tree.flow, event.run, event.payload));
    }
  }

  lemma {:induction false} ReplaySound(spec: Spec, tree: Tree, rec: Recovered, entries: seq<Entry<Event>>)
    requires Valid(spec) && tree.flow == ItemFlow(spec) && SoundRuns(spec, rec.runs)
    ensures SoundRuns(spec, Replay(tree, rec, entries).runs)
    decreases |entries|
  {
    if entries != [] {
      ReplaySound(spec, tree, rec, entries[..|entries| - 1]);
      RunsAfterSound(spec, tree, Replay(tree, rec, entries[..|entries| - 1]).runs, entries[|entries| - 1].event);
    }
  }

  /** All items in memory and in the stored checkpoint are sound. */
  ghost predicate ItemsSound(spec: Spec, w: World) {
    && Valid(spec) && w.tree.flow == ItemFlow(spec) && Faithful(w)
    && (w.executor.Some? ==> SoundRuns(spec, w.executor.value.runs))
    && (w.snapshot.Some? ==> SoundRuns(spec, Base(w.snapshot.value.stored.bytes.data).runs))
  }

  lemma CreatedSound(spec: Spec, tree: Tree, payload: nat)
    requires Valid(spec) && tree.flow == ItemFlow(spec)
    ensures SoundRuns(spec, Created(tree, payload).runs)
    ensures SoundRuns(spec, InitializedAll(tree.flow, Created(tree, payload).runs))
  {
    NewRunSound(spec, tree.root, payload);
    InitializedSound(spec, NewRun(tree.flow, tree.root, payload));
  }

  lemma RestoredSound(spec: Spec, w: World)
    requires ItemsSound(spec, w)
    ensures Restore(w).Ok? && SoundRuns(spec, Restore(w).value.runs)
  {
    RestoreIsFaithful(w);
    if w.snapshot.Some? {
      RestoreUnfolds(w);
      ReplaySound(spec, w.tree, Base(w.snapshot.value.stored.bytes.data), w.journal[w.snapshot.value.length..]);
    } else {
      CreatedSound(spec, w.tree, w.payload);
      ReplaySound(spec, w.tree, Created(w.tree, w.payload), w.journal[1..|w.journal|]);
    }
  }

  lemma StepKeepsItemsSound(spec: Spec, w: World, step: Step)
    requires ItemsSound(spec, w) && Enabled(w, step)
    ensures ItemsSound(spec, Apply(w, step))
  {
    StepKeepsFaithful(w, step);
    match step
    case Write(_, event) => RunsAfterSound(spec, w.tree, w.executor.value.runs, event);
    case AttemptCheckpoint(it, putOk) =>
      var x := w.executor.value;
      if Due(x.progress) && x.progress.latest.Some? && putOk {
        TruthIsWellFormed(w, |w.journal|);
        CaptureDecodes(x, x.progress.latest.value, it);
      }
    case Recover =>
      var rec := Restore(w).value;
      RestoredSound(spec, w);
      forall r | r in rec.runs ensures SoundRun(spec, Initialized(w.tree.flow, rec.runs[r])) {
        InitializedSound(spec, rec.runs[r]);
      }
    case _ =>
  }

  lemma {:induction false} RunKeepsItemsSound(spec: Spec, w: World, steps: seq<Step>, w': World)
    requires ItemsSound(spec, w) && IsRun(w, steps, w')
    ensures ItemsSound(spec, w')
    decreases |steps|
  {
    if steps != [] {
      StepKeepsItemsSound(spec, w, steps[0]);
      RunKeepsItemsSound(spec, Apply(w, steps[0]), steps[1..], w');
    }
  }

  /** What to check at a recovery: every initialization in it is harmless. */
  ghost predicate HarmlessInitializations(spec: Spec, rec: Recovered)
    requires SoundRuns(spec, rec.runs)
  {
    forall r, i | r in rec.runs && 0 <= i < |rec.runs[r].items| ::
      var p, v := rec.runs[r].payload, rec.runs[r].items[i];
      IR.Harmless(spec.needs(p, i), spec.steps(p), v, Initialization(spec, p, i, v, r !in Announced(rec)))
  }

  /** At every recovery of every run of a tree: it is harmless if and only if no
    item's re-initialization changes what a step waits for. */
  lemma {:induction false} HarmlessRecoveryIff(spec: Spec, w: World, steps: seq<Step>, w': World)
    requires Valid(spec) && Init(w) && w.tree.flow == ItemFlow(spec) && IsRun(w, steps, w')
    ensures Restore(w').Ok? && SoundRuns(spec, Restore(w').value.runs)
    ensures HarmlessRecovery(w') <==> HarmlessInitializations(spec, Restore(w').value)
  {
    InitIsFaithful(w);
    CreatedSound(spec, w.tree, w.payload);
    RunKeepsItemsSound(spec, w, steps, w');
    RestoredSound(spec, w');
    var rec := Restore(w').value;
    forall r, i | r in rec.runs && 0 <= i < |rec.runs[r].items|
      ensures HarmlessItem(w'.tree.flow, r !in Announced(rec), rec.runs[r].payload, i, rec.runs[r].items[i])
         <==> IR.Harmless(spec.needs(rec.runs[r].payload, i), spec.steps(rec.runs[r].payload), rec.runs[r].items[i],
                          Initialization(spec, rec.runs[r].payload, i, rec.runs[r].items[i], r !in Announced(rec)))
    {
      assert SoundRun(spec, rec.runs[r]);
      HarmlessItemIff(spec, rec.runs[r].payload, i, rec.runs[r].items[i], r !in Announced(rec));
    }
  }
}
