/** The finished drawing.  Walking from a step (or the workflow input) through
  diamonds to a target is the same as being referred to by that target, unless
  the reference stands in the fallback of a variable or names clash. */
module VisualizerGraph {
  import opened Basics
  import opened Visualizer
  import opened VisualizerEmission

  /** A flow to be drawn with a counter that stands at `n`.  Its targets are the
    steps in order, then the output. */
  datatype Plan = Plan(steps: seq<FlowStep>, output: Expr, n: nat) {

    function Dot(): seq<Visualizer.Dot> {
      Drawing(steps, output, n).0
    }

    function Name(j: nat): string {
      if j < |steps| then steps[j].id else OUTPUT
    }

    function Target(j: nat): Expr {
      if j < |steps| then steps[j].input else output
    }

    predicate SkipsSelf(j: nat) {
      j < |steps|
    }

    /** The counter before target `j` is drawn. */
    function Start(j: nat): nat {
      if j <= |steps| then EmitSteps(steps[..j], n).1 else Drawing(steps, output, n).1
    }

    function End(): nat {
      Start(|steps| + 1)
    }

    function Emission(j: nat): Visualizer.Emission {
      Emit(Target(j), "", Start(j))
    }

    /** All that is drawn for target `j`. */
    function Drawn(j: nat): seq<Visualizer.Dot> {
      EmitTarget(Name(j), Target(j), SkipsSelf(j), Start(j)).0
    }
  }

  /** No two targets have the same name, and no step is called or refers to a
    name that was given to a diamond. */
  ghost predicate NoClash(plan: Plan) {
    && (forall i: nat, j: nat | i < j <= |plan.steps| :: plan.Name(i) != plan.Name(j))
    && (forall j: nat, k: nat | j <= |plan.steps| && plan.n <= k < plan.End() :: plan.Name(j) != ExprId(k))
    && (forall j: nat, k: nat | j <= |plan.steps| && plan.n <= k < plan.End() :: !Mentions(plan.Target(j), ExprId(k)))
  }

  // --------------------------------------------------------- parts of a drawing

  lemma StartStep(plan: Plan, j: nat)
    requires j <= |plan.steps|
    ensures plan.Start(0) == plan.n
    ensures plan.Start(j + 1) == plan.Emission(j).next >= plan.Start(j)
  {
    NumbersGrow(plan.Target(j), "", plan.Start(j));
    if j < |plan.steps| {
      assert plan.steps[..j + 1][..j] == plan.steps[..j];
    } else {
      assert plan.steps[..|plan.steps|] == plan.steps;
    }
  }

  lemma {:induction false} StartsGrow(plan: Plan, i: nat, j: nat)
    requires i <= j <= |plan.steps| + 1
    ensures plan.Start(i) <= plan.Start(j)
    decreases j
  {
    if i < j {
      StartStep(plan, j - 1);
      StartsGrow(plan, i, j - 1);
    }
  }

  lemma {:induction false} StepsOrigin(steps: seq<FlowStep>, n: nat, d: Dot) returns (j: nat)
    requires d in EmitSteps(steps, n).0
    ensures j < |steps| && d in EmitTarget(steps[j].id, steps[j].input, true, EmitSteps(steps[..j], n).1).0
  {
    var front := steps[..|steps| - 1];
    if d in EmitSteps(front, n).0 {
      j := StepsOrigin(front, n, d);
      assert front[..j] == steps[..j];
    } else {
      j := |front|;
    }
  }

  lemma {:induction false} StepIsDrawn(steps: seq<FlowStep>, n: nat, j: nat, d: Dot)
    requires j < |steps| && d in EmitTarget(steps[j].id, steps[j].input, true, EmitSteps(steps[..j], n).1).0
    ensures d in EmitSteps(steps, n).0
  {
    var front := steps[..|steps| - 1];
    if j < |front| {
      assert front[..j] == steps[..j];
      StepIsDrawn(front, n, j, d);
    }
  }

  /** Every edge of the drawing was drawn for some target. */
  lemma {:induction false} DrawnFor(plan: Plan, d: Dot) returns (j: nat)
    requires d.Edge? && d in plan.Dot()
    ensures j <= |plan.steps| && d in plan.Drawn(j)
  {
    assert plan.steps[..|plan.steps|] == plan.steps;
    var edges := EmitSteps(plan.steps, plan.n).0;
    if d in edges {
      j := StepsOrigin(plan.steps, plan.n, d);
    } else {
      j := |plan.steps|;
    }
  }

  lemma TargetIsDrawn(plan: Plan, j: nat, d: Dot)
    requires j <= |plan.steps| && d in plan.Drawn(j)
    ensures d in plan.Dot()
  {
    assert plan.steps[..|plan.steps|] == plan.steps;
    if j < |plan.steps| {
      StepIsDrawn(plan.steps, plan.n, j, d);
    }
  }

  lemma {:induction false} FinalEdgeOrigin(sources: Sources, target: string, skipSelf: bool, d: Dot)
    requires d in FinalEdges(sources, target, skipSelf)
    ensures d.Edge? && d.target == target && (d.source, d.caption) in sources && !(skipSelf && d.source == target)
  {
    if d !in FinalEdges(sources[..|sources| - 1], target, skipSelf) {
      assert sources[|sources| - 1] == (d.source, d.caption);
    } else {
      FinalEdgeOrigin(sources[..|sources| - 1], target, skipSelf, d);
    }
  }

  lemma {:induction false} FinalEdgeIsDrawn(sources: Sources, target: string, skipSelf: bool, x: (string, string))
    requires x in sources && !(skipSelf && x.0 == target)
    ensures Edge(x.0, target, x.1) in FinalEdges(sources, target, skipSelf)
  {
    var front := sources[..|sources| - 1];
    if sources[|front|] != x {
      assert x in front;
      FinalEdgeIsDrawn(front, target, skipSelf, x);
    }
  }

  // ------------------------------------------------------------ edges, by target

  /** A final edge, or an edge inside the target's expression. */
  ghost predicate EdgeFor(plan: Plan, j: nat, a: string, b: string) {
    || (&& b == plan.Name(j)
        && (|| Numbered(a, plan.Start(j), plan.Start(j + 1))
            || (Openly(plan.Target(j), a) && !(plan.SkipsSelf(j) && a == b))))
    || (exists k: nat :: plan.Start(j) <= k < plan.Start(j + 1) && b == ExprId(k)
          && (Numbered(a, k + 1, plan.Start(j + 1)) || InBranch(plan.Target(j), a)))
  }

  lemma EdgesOfTarget(plan: Plan, j: nat, d: Dot)
    requires j <= |plan.steps| && d.Edge? && d in plan.Drawn(j)
    ensures EdgeFor(plan, j, d.source, d.target)
  {
    StartStep(plan, j);
    var inner := plan.Emission(j);
    if d in inner.dot {
      EdgesAreSound(plan.Target(j), "", plan.Start(j), d);
    } else {
      FinalEdgeOrigin(inner.sources, plan.Name(j), plan.SkipsSelf(j), d);
      SourcesAreSound(plan.Target(j), "", plan.Start(j), (d.source, d.caption));
    }
  }

  lemma {:induction false} EdgeOrigin(plan: Plan, a: string, b: string) returns (j: nat)
    requires HasEdge(plan.Dot(), a, b)
    ensures j <= |plan.steps| && EdgeFor(plan, j, a, b)
  {
    var caption :| Edge(a, b, caption) in plan.Dot();
    j := DrawnFor(plan, Edge(a, b, caption));
    EdgesOfTarget(plan, j, Edge(a, b, caption));
  }

  /** Diamonds belong to one target. */
  lemma OneOwner(plan: Plan, x: string, i: nat, j: nat)
    requires i <= |plan.steps| && j <= |plan.steps|
    requires Numbered(x, plan.Start(i), plan.Start(i + 1)) && Numbered(x, plan.Start(j), plan.Start(j + 1))
    ensures i == j
  {
    var k: nat :| plan.Start(i) <= k < plan.Start(i + 1) && x == ExprId(k);
    var m: nat :| plan.Start(j) <= m < plan.Start(j + 1) && x == ExprId(m);
    ExprIdIsInjective(k, m);
    if i < j { StartsGrow(plan, i + 1, j); }
    if j < i { StartsGrow(plan, j + 1, i); }
  }

  /** Without clashes a name is a diamond or a target or something else. */
  lemma NotADiamond(plan: Plan, j: nat, x: string, lo: nat, hi: nat)
    requires NoClash(plan) && j <= |plan.steps| && plan.n <= lo && hi <= plan.End()
    requires x == plan.Name(j) || Mentions(plan.Target(j), x)
    ensures !Numbered(x, lo, hi)
  {
  }

  // ------------------------------------------------------------- dependencies

  /** `s` reaches `t` through diamonds alone. */
  ghost predicate Connected(plan: Plan, s: string, t: string) {
    exists p: seq<string> :: ConnectedBy(plan, s, t, p)
  }

  ghost predicate ConnectedBy(plan: Plan, s: string, t: string, p: seq<string>) {
    && |p| >= 2 && p[0] == s && p[|p| - 1] == t
    && Walk(plan.Dot(), p)
    && forall i | 1 <= i < |p| - 1 :: Numbered(p[i], plan.n, plan.End())
  }

  /** What the drawing should show for target `j`. */
  predicate DependsOn(plan: Plan, j: nat, s: string) {
    InBranch(plan.Target(j), s) || (Openly(plan.Target(j), s) && !(plan.SkipsSelf(j) && s == plan.Name(j)))
  }

  lemma Bounds(plan: Plan, j: nat)
    requires j <= |plan.steps|
    ensures plan.n <= plan.Start(j) <= plan.Start(j + 1) <= plan.End()
  {
    StartStep(plan, 0);
    StartStep(plan, j);
    StartsGrow(plan, 0, j);
    StartsGrow(plan, j + 1, |plan.steps| + 1);
  }

  /** An edge into a target, or into one of its diamonds, was drawn for it. */
  lemma EdgeBelongsTo(plan: Plan, a: string, b: string, j: nat)
    requires NoClash(plan) && j <= |plan.steps| && HasEdge(plan.Dot(), a, b)
    requires b == plan.Name(j) || Numbered(b, plan.Start(j), plan.Start(j + 1))
    ensures EdgeFor(plan, j, a, b)
  {
    var m := EdgeOrigin(plan, a, b);
    Bounds(plan, j);
    Bounds(plan, m);
    if b == plan.Name(m) {
      if b == plan.Name(j) {
        SameTarget(plan, j, m);
      }
    } else {
      var k := InnerEdge(plan, m, a, b);
      if b != plan.Name(j) {
        OneOwner(plan, b, j, m);
      }
    }
  }

  /** A diamond at the tail of such an edge is one of the target's own. */
  lemma TailBelongsTo(plan: Plan, a: string, b: string, j: nat)
    requires NoClash(plan) && j <= |plan.steps| && EdgeFor(plan, j, a, b) && Numbered(a, plan.n, plan.End())
    ensures Numbered(a, plan.Start(j), plan.Start(j + 1))
  {
    var k: nat :| plan.n <= k < plan.End() && a == ExprId(k);
    assert !Mentions(plan.Target(j), ExprId(k));
    MentionedSomewhere(plan.Target(j), a);
    if b != plan.Name(j) {
      var i := InnerEdge(plan, j, a, b);
      WiderNumbers(a, i + 1, plan.Start(j), plan.Start(j + 1));
    }
  }

  /** Going back along a walk one never leaves the diamonds of the target. */
  lemma {:induction false} WalkStaysWithTarget(plan: Plan, p: seq<string>, i: nat, j: nat)
    requires 1 <= i < |p| - 1
    requires NoClash(plan) && j <= |plan.steps| && ConnectedBy(plan, p[0], plan.Name(j), p)
    ensures Numbered(p[i], plan.Start(j), plan.Start(j + 1))
    decreases |p| - i
  {
    if i + 1 < |p| - 1 {
      WalkStaysWithTarget(plan, p, i + 1, j);
    }
    EdgeBelongsTo(plan, p[i], p[i + 1], j);
    TailBelongsTo(plan, p[i], p[i + 1], j);
  }

  lemma NotAName(plan: Plan, m: nat, x: string, lo: nat, hi: nat)
    requires NoClash(plan) && m <= |plan.steps| && plan.n <= lo && hi <= plan.End() && Numbered(x, lo, hi)
    ensures x != plan.Name(m)
  {
    if x == plan.Name(m) { NotADiamond(plan, m, x, lo, hi); }
  }

  /** An edge that does not end at the target lies inside its expression. */
  lemma {:induction false} InnerEdge(plan: Plan, j: nat, a: string, b: string) returns (k: nat)
    requires EdgeFor(plan, j, a, b) && b != plan.Name(j)
    ensures plan.Start(j) <= k < plan.Start(j + 1) && b == ExprId(k)
    ensures Numbered(b, plan.Start(j), plan.Start(j + 1))
    ensures Numbered(a, k + 1, plan.Start(j + 1)) || InBranch(plan.Target(j), a)
  {
    k :| plan.Start(j) <= k < plan.Start(j + 1) && b == ExprId(k)
         && (Numbered(a, k + 1, plan.Start(j + 1)) || InBranch(plan.Target(j), a));
  }

  lemma WiderNumbers(x: string, from: nat, lo: nat, hi: nat)
    requires lo <= from && Numbered(x, from, hi)
    ensures Numbered(x, lo, hi)
  {
    var i: nat :| from <= i < hi && x == ExprId(i);
  }

  lemma ConnectedMeansDependsOn(plan: Plan, j: nat, s: string, p: seq<string>)
    requires NoClash(plan) && j <= |plan.steps| && !Numbered(s, plan.n, plan.End())
    requires ConnectedBy(plan, s, plan.Name(j), p)
    ensures DependsOn(plan, j, s)
  {
    if |p| > 2 {
      WalkStaysWithTarget(plan, p, 1, j);
    }
    EdgeBelongsTo(plan, s, p[1], j);
    Bounds(plan, j);
    if Numbered(s, plan.Start(j), plan.Start(j + 1)) {
      WithinAll(plan, s, plan.Start(j), plan.Start(j + 1));
    }
  }

  lemma WithinAll(plan: Plan, x: string, lo: nat, hi: nat)
    requires Numbered(x, lo, hi) && plan.n <= lo && hi <= plan.End()
    ensures Numbered(x, plan.n, plan.End())
  {
    var i: nat :| lo <= i < hi && x == ExprId(i);
  }

  lemma SameTarget(plan: Plan, i: nat, j: nat)
    requires NoClash(plan) && i <= |plan.steps| && j <= |plan.steps|
    ensures plan.Name(i) == plan.Name(j) <==> i == j
  {}

  lemma {:induction false} DependencyIsConnected(plan: Plan, j: nat, s: string) returns (p: seq<string>)
    requires NoClash(plan) && j <= |plan.steps| && DependsOn(plan, j, s)
    ensures ConnectedBy(plan, s, plan.Name(j), p)
  {
    var e, inner, caption := plan.Target(j), plan.Emission(j), "";
    StartStep(plan, j);
    StartsGrow(plan, 0, j);
    StartsGrow(plan, j + 1, |plan.steps| + 1);
    StartStep(plan, 0);
    p := [s];
    if InBranch(e, s) {
      p, caption := BranchReferenceReaches(e, "", plan.Start(j), s);
      NotAName(plan, j, p[|p| - 1], plan.Start(j), inner.next);
    } else {
      caption := OpenReferenceIsSource(e, "", plan.Start(j), s);
    }
    FinalEdgeIsDrawn(inner.sources, plan.Name(j), plan.SkipsSelf(j), (p[|p| - 1], caption));
    assert Edge(p[|p| - 1], plan.Name(j), caption) in plan.Drawn(j);
    forall d | d in plan.Drawn(j) ensures d in plan.Dot() { TargetIsDrawn(plan, j, d); }
    TrailInLarger(inner.dot, plan.Dot(), s, p, plan.Start(j), inner.next, plan.n, plan.End());
    LongerWalk(plan.Dot(), p, plan.Name(j));
    p := p + [plan.Name(j)];
  }

  /** The drawing shows a dependency of a target exactly when its expression
    has one: anything it refers to reaches it through diamonds, and nothing
    else does.  Only a step's own name, used outside any branch, is dropped. */
  lemma DrawnIffReferenced(plan: Plan, j: nat, s: string)
    requires NoClash(plan) && j <= |plan.steps| && !Numbered(s, plan.n, plan.End())
    ensures Connected(plan, s, plan.Name(j)) <==> DependsOn(plan, j, s)
    ensures s != plan.Name(j) ==> (Connected(plan, s, plan.Name(j)) <==> Mentions(plan.Target(j), s))
  {
    MentionedSomewhere(plan.Target(j), s);
    if Connected(plan, s, plan.Name(j)) {
      var p :| ConnectedBy(plan, s, plan.Name(j), p);
      ConnectedMeansDependsOn(plan, j, s, p);
    }
    if DependsOn(plan, j, s) {
      var p := DependencyIsConnected(plan, j, s);
    }
  }

  lemma DirectEdgeOrigin(plan: Plan, j: nat, d: Dot)
    requires NoClash(plan) && j <= |plan.steps| && d.Edge? && d.target == plan.Name(j) && d in plan.Dot()
    ensures (d.source, d.caption) in plan.Emission(j).sources && !(plan.SkipsSelf(j) && d.source == d.target)
  {
    var m := DrawnFor(plan, d);
    StartStep(plan, m);
    Bounds(plan, m);
    if d in plan.Emission(m).dot {
      EdgesAreSound(plan.Target(m), "", plan.Start(m), d);
    }
    FinalEdgeOrigin(plan.Emission(m).sources, plan.Name(m), plan.SkipsSelf(m), d);
    SameTarget(plan, j, m);
  }
}
