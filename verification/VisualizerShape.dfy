/** The shape of a finished drawing: its ids, the single way out of each
  diamond, no cycles; and the dependencies it does not show. */
module VisualizerShape {
  import opened Basics
  import opened Visualizer
  import opened VisualizerEmission
  import opened VisualizerGraph

  // ------------------------------------------------------------ ids, out-edges

  lemma {:induction false} IdsAt(n: nat, m: nat, i: nat)
    requires n + i < m
    ensures |Ids(n, m)| == m - n && Ids(n, m)[i] == ExprId(n + i)
  {
    if n + i < m - 1 {
      IdsAt(n, m - 1, i);
    } else {
      IdsLength(n, m - 1);
    }
  }

  lemma {:induction false} IdsLength(n: nat, m: nat)
    requires n <= m
    ensures |Ids(n, m)| == m - n
  {
    if n < m {
      IdsLength(n, m - 1);
    }
  }

  lemma {:induction false} FinalEdgesCount(sources: Sources, target: string, skipSelf: bool, x: string)
    requires skipSelf ==> x != target
    ensures Declared(FinalEdges(sources, target, skipSelf)) == []
    ensures OutEdges(FinalEdges(sources, target, skipSelf), x) == Occurs(sources, x)
  {
    if sources != [] {
      var front := sources[..|sources| - 1];
      var (source, caption) := sources[|sources| - 1];
      FinalEdgesCount(front, target, skipSelf, x);
      var last := if skipSelf && source == target then [] else [Edge(source, target, caption)];
      DeclaredSum(FinalEdges(front, target, skipSelf), last);
      OutEdgesSum(FinalEdges(front, target, skipSelf), last, x);
      assert last != [] ==> last[..0] == [];
    }
  }

  lemma TargetDeclares(target: string, e: Expr, skipSelf: bool, n: nat)
    ensures var (dot, next) := EmitTarget(target, e, skipSelf, n); n <= next && Declared(dot) == Ids(n, next)
  {
    var inner := Emit(e, "", n);
    DeclaredAreConsecutive(e, "", n);
    DeclaredSum(inner.dot, FinalEdges(inner.sources, target, skipSelf));
    FinalEdgesCount(inner.sources, target, skipSelf, target + "x");
  }

  lemma {:induction false} StepsDeclare(steps: seq<FlowStep>, n: nat)
    ensures var (dot, next) := EmitSteps(steps, n); n <= next && Declared(dot) == Ids(n, next)
  {
    if steps != [] {
      var (front, m) := EmitSteps(steps[..|steps| - 1], n);
      var last := steps[|steps| - 1];
      var (dot, next) := EmitTarget(last.id, last.input, true, m);
      StepsDeclare(steps[..|steps| - 1], n);
      TargetDeclares(last.id, last.input, true, m);
      DeclaredSum(front, dot);
      IdsSum(n, m, next);
    }
  }

  lemma {:induction false} HeaderIsPlain(dot: seq<Dot>, x: string)
    requires forall d | d in dot :: d.Node? && d.kind !in {IfNode, CoalesceNode}
    ensures Declared(dot) == [] && OutEdges(dot, x) == 0
  {
    if dot != [] {
      HeaderIsPlain(dot[..|dot| - 1], x);
    }
  }

  lemma HeaderFacts(steps: seq<FlowStep>, x: string)
    ensures Declared(Header(steps)) == [] && OutEdges(Header(steps), x) == 0
  {
    HeaderIsPlain(Header(steps), x);
  }

  lemma ThreePartsDeclare(header: seq<Dot>, edges: seq<Dot>, last: seq<Dot>, n: nat, m: nat, next: nat)
    requires Declared(header) == [] && Declared(edges) == Ids(n, m) && Declared(last) == Ids(m, next)
    requires n <= m <= next
    ensures Declared(header + edges + last) == Ids(n, next)
  {
    DeclaredSum(header, edges);
    DeclaredSum(header + edges, last);
    IdsSum(n, m, next);
    assert [] + Ids(n, m) == Ids(n, m);
  }

  lemma DrawingDeclaresIds(steps: seq<FlowStep>, output: Expr, n: nat)
    ensures n <= Drawing(steps, output, n).1
    ensures Declared(Drawing(steps, output, n).0) == Ids(n, Drawing(steps, output, n).1)
  {
    var edges := EmitSteps(steps, n);
    var last := EmitTarget(OUTPUT, output, false, edges.1);
    HeaderFacts(steps, "");
    StepsDeclare(steps, n);
    TargetDeclares(OUTPUT, output, false, edges.1);
    ThreePartsDeclare(Header(steps), edges.0, last.0, n, edges.1, last.1);
  }

  /** The diamonds of a drawing are numbered from the counter on, without gaps
    and in order, each declared once. */
  lemma DrawingDeclares(plan: Plan)
    ensures plan.n <= plan.End() && |Declared(plan.Dot())| == plan.End() - plan.n
    ensures forall i | 0 <= i < |Declared(plan.Dot())| :: Declared(plan.Dot())[i] == ExprId(plan.n + i)
    ensures forall i, j | 0 <= i < j < |Declared(plan.Dot())| :: Declared(plan.Dot())[i] != Declared(plan.Dot())[j]
  {
    DrawingDeclaresIds(plan.steps, plan.output, plan.n);
    var n, m := plan.n, plan.End();
    IdsLength(n, m);
    forall i | 0 <= i < m - n ensures Ids(n, m)[i] == ExprId(n + i) { IdsAt(n, m, i); }
    forall i, j | 0 <= i < j < m - n ensures Ids(n, m)[i] != Ids(n, m)[j] {
      if ExprId(n + i) == ExprId(n + j) { ExprIdIsInjective(n + i, n + j); }
    }
  }

  lemma TargetSourceOnce(target: string, e: Expr, skipSelf: bool, n: nat, k: nat)
    requires !Mentions(e, ExprId(k)) && (skipSelf ==> target != ExprId(k))
    ensures var (dot, next) := EmitTarget(target, e, skipSelf, n);
            n <= next && OutEdges(dot, ExprId(k)) == if n <= k < next then 1 else 0
  {
    var inner := Emit(e, "", n);
    DiamondIsSourceOnce(e, "", n, k);
    OutEdgesSum(inner.dot, FinalEdges(inner.sources, target, skipSelf), ExprId(k));
    FinalEdgesCount(inner.sources, target, skipSelf, ExprId(k));
  }

  lemma {:induction false} StepsSourceOnce(steps: seq<FlowStep>, n: nat, k: nat)
    requires forall i | 0 <= i < |steps| :: steps[i].id != ExprId(k) && !Mentions(steps[i].input, ExprId(k))
    ensures var (dot, next) := EmitSteps(steps, n);
            n <= next && OutEdges(dot, ExprId(k)) == if n <= k < next then 1 else 0
  {
    if steps != [] {
      var (front, m) := EmitSteps(steps[..|steps| - 1], n);
      var last := steps[|steps| - 1];
      StepsSourceOnce(steps[..|steps| - 1], n, k);
      TargetSourceOnce(last.id, last.input, true, m, k);
      OutEdgesSum(front, EmitTarget(last.id, last.input, true, m).0, ExprId(k));
    }
  }

  /** Every diamond has exactly one way out. */
  lemma OneOutgoingEdge(plan: Plan, k: nat)
    requires NoClash(plan) && plan.n <= k < plan.End()
    ensures OutEdges(plan.Dot(), ExprId(k)) == 1
  {
    var (edges, m) := EmitSteps(plan.steps, plan.n);
    var (last, next) := EmitTarget(OUTPUT, plan.output, false, m);
    forall i | 0 <= i < |plan.steps|
      ensures plan.steps[i].id != ExprId(k) && !Mentions(plan.steps[i].input, ExprId(k))
    {
      assert plan.Name(i) != ExprId(k) && !Mentions(plan.Target(i), ExprId(k));
    }
    assert !Mentions(plan.Target(|plan.steps|), ExprId(k));
    HeaderFacts(plan.steps, ExprId(k));
    StepsSourceOnce(plan.steps, plan.n, k);
    TargetSourceOnce(OUTPUT, plan.output, false, m, k);
    OutEdgesSum(Header(plan.steps), edges, ExprId(k));
    OutEdgesSum(Header(plan.steps) + edges, last, ExprId(k));
  }

  // ----------------------------------------------------------------- no cycles

  ghost predicate OfTarget(plan: Plan, x: string, j: nat) {
    x == plan.Name(j) || Numbered(x, plan.Start(j), plan.Start(j + 1))
  }

  ghost function Owners(plan: Plan, x: string): seq<bool> {
    seq(|plan.steps| + 1, (j: nat) => OfTarget(plan, x, j))
  }

  /** One more than the position of the last `true`, 0 if there is none. */
  function LastTrue(s: seq<bool>): nat {
    if s == [] then 0 else if s[|s| - 1] then |s| else LastTrue(s[..|s| - 1])
  }

  lemma {:induction false} LastTrueBound(s: seq<bool>, j: nat)
    requires j <= |s| && forall i | j <= i < |s| :: !s[i]
    ensures LastTrue(s) <= j
  {
    if |s| > j {
      LastTrueBound(s[..|s| - 1], j);
    } else if s != [] && !s[|s| - 1] {
      LastTrueBound(s[..|s| - 1], j - 1);
    }
  }

  lemma {:induction false} LastTrueIs(s: seq<bool>, j: nat)
    requires j < |s| && s[j] && forall i | j < i < |s| :: !s[i]
    ensures LastTrue(s) == j + 1
  {
    if j < |s| - 1 {
      LastTrueIs(s[..|s| - 1], j);
    }
  }

  /** The target that `x` belongs to, counted from one. */
  ghost function Stage(plan: Plan, x: string): nat {
    LastTrue(Owners(plan, x))
  }

  lemma StageIs(plan: Plan, x: string, j: nat)
    requires NoClash(plan) && j <= |plan.steps| && OfTarget(plan, x, j)
    ensures Stage(plan, x) == j + 1
  {
    var owners := Owners(plan, x);
    forall i | j < i < |owners| ensures !owners[i] {
      if OfTarget(plan, x, i) { OneTarget(plan, x, j, i); }
    }
    LastTrueIs(owners, j);
  }

  lemma OneTarget(plan: Plan, x: string, i: nat, j: nat)
    requires NoClash(plan) && i <= |plan.steps| && j <= |plan.steps|
    requires OfTarget(plan, x, i) && OfTarget(plan, x, j)
    ensures i == j
  {
    Bounds(plan, i);
    Bounds(plan, j);
    if x == plan.Name(i) {
      NotADiamond(plan, i, x, plan.Start(j), plan.Start(j + 1));
      SameTarget(plan, i, j);
    } else {
      NotADiamond(plan, j, plan.Name(j), plan.Start(i), plan.Start(i + 1));
      OneOwner(plan, x, i, j);
    }
  }

  /** The number of a diamond plus one, 0 for anything else. */
  ghost function Number(plan: Plan, x: string): nat {
    if k: nat :| k < plan.End() && plan.n <= k && x == ExprId(k) then k + 1 else 0
  }

  lemma NumberIs(plan: Plan, k: nat)
    requires plan.n <= k < plan.End()
    ensures Number(plan, ExprId(k)) == k + 1
  {
    var m := Number(plan, ExprId(k));
    assert exists i: nat :: i < plan.End() && plan.n <= i && ExprId(k) == ExprId(i);
    ExprIdIsInjective(k, m - 1);
  }

  ghost function Rank(plan: Plan, x: string): (nat, nat) {
    (Stage(plan, x), Number(plan, x))
  }

  /** Earlier target, or the same target and a larger diamond number. */
  predicate Before(a: (nat, nat), b: (nat, nat)) {
    a.0 < b.0 || (a.0 == b.0 && a.1 > b.1)
  }

  /** Each target refers only to targets drawn before it. */
  predicate RefersBack(plan: Plan) {
    forall i: nat, j: nat | j <= i <= |plan.steps| :: !Mentions(plan.Target(j), plan.Name(i))
  }

  /** Edges between diamonds go from a larger to a smaller number. */
  lemma DiamondEdgesDescend(plan: Plan, k: nat, m: nat)
    requires NoClash(plan) && plan.n <= k < plan.End() && plan.n <= m < plan.End()
    requires HasEdge(plan.Dot(), ExprId(k), ExprId(m))
    ensures k > m
  {
    var j := EdgeOrigin(plan, ExprId(k), ExprId(m));
    assert plan.Name(j) != ExprId(m) && !Mentions(plan.Target(j), ExprId(k));
    MentionedSomewhere(plan.Target(j), ExprId(k));
    var i := InnerEdge(plan, j, ExprId(k), ExprId(m));
    var l: nat :| i + 1 <= l < plan.Start(j + 1) && ExprId(k) == ExprId(l);
    ExprIdIsInjective(m, i);
    ExprIdIsInjective(k, l);
  }

  lemma EdgesGoForward(plan: Plan, a: string, b: string)
    requires NoClash(plan) && RefersBack(plan) && HasEdge(plan.Dot(), a, b)
    ensures Before(Rank(plan, a), Rank(plan, b))
  {
    var j := EdgeOrigin(plan, a, b);
    if Mentions(plan.Target(j), a) {
      HeadStage(plan, j, a, b);
      MentionedIsEarlier(plan, j, a);
    } else {
      DiamondGoesForward(plan, j, a, b);
    }
  }

  lemma MentionedIsEarlier(plan: Plan, j: nat, a: string)
    requires NoClash(plan) && RefersBack(plan) && j <= |plan.steps| && Mentions(plan.Target(j), a)
    ensures Stage(plan, a) <= j
  {
    var owners := Owners(plan, a);
    forall i | j <= i < |owners| ensures !owners[i] {
      Bounds(plan, i);
      NotADiamond(plan, j, a, plan.Start(i), plan.Start(i + 1));
      assert !Mentions(plan.Target(j), plan.Name(i));
    }
    LastTrueBound(owners, j);
  }

  lemma HeadStage(plan: Plan, j: nat, a: string, b: string)
    requires NoClash(plan) && j <= |plan.steps| && EdgeFor(plan, j, a, b)
    ensures Stage(plan, b) == j + 1
  {
    if b != plan.Name(j) {
      var k := InnerEdge(plan, j, a, b);
    }
    StageIs(plan, b, j);
  }

  lemma DiamondGoesForward(plan: Plan, j: nat, a: string, b: string)
    requires NoClash(plan) && j <= |plan.steps| && EdgeFor(plan, j, a, b) && !Mentions(plan.Target(j), a)
    ensures Before(Rank(plan, a), Rank(plan, b))
  {
    Bounds(plan, j);
    HeadStage(plan, j, a, b);
    MentionedSomewhere(plan.Target(j), a);
    if b == plan.Name(j) && Numbered(a, plan.Start(j), plan.Start(j + 1)) {
      var k: nat :| plan.Start(j) <= k < plan.Start(j + 1) && a == ExprId(k);
      NumberIs(plan, k);
      assert Number(plan, b) == 0 by { NotADiamond(plan, j, b, plan.n, plan.End()); }
      StageIs(plan, a, j);
    } else {
      var m: nat :| plan.Start(j) <= m < plan.Start(j + 1) && b == ExprId(m) && Numbered(a, m + 1, plan.Start(j + 1));
      var k: nat :| m + 1 <= k < plan.Start(j + 1) && a == ExprId(k);
      NumberIs(plan, k);
      NumberIs(plan, m);
      assert Numbered(a, plan.Start(j), plan.Start(j + 1));
      StageIs(plan, a, j);
    }
  }

  ghost predicate Ranks(rank: string -> (nat, nat), dot: seq<Dot>) {
    forall a, b | HasEdge(dot, a, b) :: Before(rank(a), rank(b))
  }

  lemma {:induction false} WalksGoForward(dot: seq<Dot>, rank: string -> (nat, nat), p: seq<string>)
    requires Ranks(rank, dot) && Walk(dot, p) && |p| >= 2
    ensures Before(rank(p[0]), rank(p[|p| - 1]))
  {
    var front := p[..|p| - 1];
    assert HasEdge(dot, p[|p| - 2], p[|p| - 2 + 1]);
    if |front| >= 2 {
      forall i: nat | i + 1 < |front| ensures HasEdge(dot, front[i], front[i + 1]) {
        assert HasEdge(dot, p[i], p[i + 1]);
      }
      WalksGoForward(dot, rank, front);
    }
  }

  /** If every target refers only to earlier ones, the drawing has no cycle. */
  lemma DrawingIsAcyclic(plan: Plan, p: seq<string>)
    requires NoClash(plan) && RefersBack(plan) && Walk(plan.Dot(), p) && |p| >= 2
    ensures p[0] != p[|p| - 1]
  {
    ghost var rank := x => Rank(plan, x);
    forall a, b | HasEdge(plan.Dot(), a, b) ensures Before(rank(a), rank(b)) {
      EdgesGoForward(plan, a, b);
    }
    WalksGoForward(plan.Dot(), rank, p);
  }

  // ------------------------------------------------------- where it misleads

  /** Everything evaluation may look at, fallbacks of variables included. */
  predicate Refers(e: Expr, s: string) {
    match e
    case Step(step) => s == step
    case Input => s == INPUT
    case Variable(fallback) => fallback.Some? && Refers(fallback.value, s)
    case Literal => false
    case If(c, t, x) => Refers(c, s) || Refers(t, s) || (x.Some? && Refers(x.value, s))
    case Coalesce(values) => exists i | 0 <= i < |values| :: Refers(values[i], s)
    case Array(items) => exists i | 0 <= i < |items| :: Refers(items[i], s)
    case Object(fields) => exists i | 0 <= i < |fields| :: Refers(fields[i].1, s)
  }

  /** Referred to in the fallback of some variable. */
  predicate InFallback(e: Expr, s: string) {
    match e
    case Variable(fallback) => fallback.Some? && Refers(fallback.value, s)
    case If(c, t, x) => InFallback(c, s) || InFallback(t, s) || (x.Some? && InFallback(x.value, s))
    case Coalesce(values) => exists i | 0 <= i < |values| :: InFallback(values[i], s)
    case Array(items) => exists i | 0 <= i < |items| :: InFallback(items[i], s)
    case Object(fields) => exists i | 0 <= i < |fields| :: InFallback(fields[i].1, s)
    case _ => false
  }

  lemma {:induction false} RefersIffMentionedOrFallback(e: Expr, s: string)
    ensures Refers(e, s) <==> Mentions(e, s) || InFallback(e, s)
  {
    match e {
      case If(c, t, x) =>
        RefersIffMentionedOrFallback(c, s);
        RefersIffMentionedOrFallback(t, s);
        if x.Some? { RefersIffMentionedOrFallback(x.value, s); }
      case Coalesce(values) => forall i | 0 <= i < |values|
          ensures Refers(values[i], s) <==> Mentions(values[i], s) || InFallback(values[i], s) {
          RefersIffMentionedOrFallback(values[i], s);
        }
      case Array(items) => forall i | 0 <= i < |items|
          ensures Refers(items[i], s) <==> Mentions(items[i], s) || InFallback(items[i], s) {
          RefersIffMentionedOrFallback(items[i], s);
        }
      case Object(fields) => forall i | 0 <= i < |fields|
          ensures Refers(fields[i].1, s) <==> Mentions(fields[i].1, s) || InFallback(fields[i].1, s) {
          RefersIffMentionedOrFallback(fields[i].1, s);
        }
      case _ =>
    }
  }

  /** A dependency on another node is drawn faithfully exactly when it does not
    stand only in fallbacks. */
  lemma DrawnFaithfullyIff(plan: Plan, j: nat, s: string)
    requires NoClash(plan) && j <= |plan.steps| && !Numbered(s, plan.n, plan.End()) && s != plan.Name(j)
    ensures (Connected(plan, s, plan.Name(j)) <==> Refers(plan.Target(j), s))
       <==> (InFallback(plan.Target(j), s) ==> Mentions(plan.Target(j), s))
  {
    DrawnIffReferenced(plan, j, s);
    RefersIffMentionedOrFallback(plan.Target(j), s);
  }

  /** A step used only as the fallback of a variable: no edge at all. */
  lemma FallbackIsNotDrawn()
    ensures var plan := Plan([FlowStep("a", Literal), FlowStep("b", Variable(Some(Step("a"))))], Literal, 0);
            NoClash(plan) && Refers(plan.Target(1), "a") && !Connected(plan, "a", plan.Name(1))
  {
    var plan := Plan([FlowStep("a", Literal), FlowStep("b", Variable(Some(Step("a"))))], Literal, 0);
    StartStep(plan, 0);
    StartStep(plan, 1);
    StartStep(plan, 2);
    assert plan.Emission(0).next == 0 && plan.Emission(1).next == 0 && plan.Emission(2).next == 0;
    assert plan.Name(0) == "a" && plan.Name(1) == "b" && plan.Name(2) == OUTPUT;
    assert |plan.Name(2)| == 15;
    DrawnIffReferenced(plan, 1, "a");
  }
}
