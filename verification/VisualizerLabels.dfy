/** Which edges a drawing has and what they are labelled with, diamonds as
  sources included. */
module VisualizerLabels {
  import opened Basics
  import opened Visualizer
  import opened VisualizerClashes
  import opened VisualizerEmission
  import opened VisualizerGraph
  import opened VisualizerNodes

  /** The number that the diamonds of child `i` start from. */
  function ChildStart(e: Expr, n: nat, i: nat): nat
    requires i <= |Children(e)|
  {
    FirstOf(e, n) + |DiamondsOf(e, Children(e)[..i])|
  }

  /** Drawn from number `n` on, `e` is the diamond or the reference `s` at
    `caption`, or has it there with only arrays and objects around it. */
  predicate ValueAt(e: Expr, path: string, n: nat, s: string, caption: string) {
    match e
    case Step(step) => s == step && caption == path
    case Input => s == "workflow_input" && caption == path
    case If(_, _, _) => s == ExprId(n) && caption == path
    case Coalesce(_) => s == ExprId(n) && caption == path
    case Array(items) => exists i: nat | i < |items| ::
      ValueAt(items[i], path + "[" + Decimal(i) + "]", ChildStart(e, n, i), s, caption)
    case Object(fields) => exists i: nat | i < |fields| ::
      ValueAt(fields[i].1, if path == "" then fields[i].0 else path + "." + fields[i].0,
              ChildStart(e, n, i), s, caption)
    case _ => false
  }

  lemma PartStarts(e: Expr, path: string, n: nat, i: nat)
    requires (IsDiamond(e) || e.Array? || e.Object?) && i < |Parts(e, path)|
    ensures |Children(e)| == |Parts(e, path)| && Children(e)[i] == Parts(e, path)[i].1
    ensures PartStart(e, Parts(e, path), SinkOf(e, n), FirstOf(e, n), i) == ChildStart(e, n, i)
  {
    ChildrenAreParts(e, path);
    StartOfPart(e, Children(e), Parts(e, path), SinkOf(e, n), FirstOf(e, n), i);
  }

  ghost predicate PartPasses(e: Expr, path: string, n: nat, i: nat, s: string, caption: string)
    requires i < |Parts(e, path)|
  {
    (s, caption) in PartEmission(e, Parts(e, path), None, n, i).sources
  }

  lemma SourcesOfParts(e: Expr, path: string, n: nat, s: string, caption: string)
    requires e.Array? || e.Object?
    ensures (s, caption) in Emit(e, path, n).sources
       <==> exists i: nat | i < |Parts(e, path)| :: PartPasses(e, path, n, i, s, caption)
  {
    if (s, caption) in Emit(e, path, n).sources {
      var i := SourceOrigin(e, Parts(e, path), n, (s, caption));
      assert PartPasses(e, path, n, i, s, caption);
    }
    if i: nat :| i < |Parts(e, path)| && PartPasses(e, path, n, i, s, caption) {
      PartIsDrawn(e, Parts(e, path), None, n, i);
    }
  }

  /** What an expression passes up is exactly its values, diamonds included,
    each labelled with the path at which it stands. */
  lemma {:induction false} SourcesAreValues(e: Expr, path: string, n: nat, s: string, caption: string)
    ensures (s, caption) in Emit(e, path, n).sources <==> ValueAt(e, path, n, s, caption)
  {
    if e.Array? || e.Object? {
      var parts := Parts(e, path);
      ChildrenAreParts(e, path);
      forall i: nat | i < |parts|
        ensures PartPasses(e, path, n, i, s, caption)
          <==> ValueAt(parts[i].1, parts[i].0, ChildStart(e, n, i), s, caption)
      {
        PartStarts(e, path, n, i);
        SourcesAreValues(parts[i].1, parts[i].0, ChildStart(e, n, i), s, caption);
      }
      SourcesOfParts(e, path, n, s, caption);
      ValueInPart(e, path, n, s, caption);
    }
  }

  lemma ValueInPart(e: Expr, path: string, n: nat, s: string, caption: string)
    requires (e.Array? || e.Object?) && |Parts(e, path)| == |Children(e)|
    ensures ValueAt(e, path, n, s, caption)
       <==> exists i: nat | i < |Parts(e, path)| ::
              ValueAt(Parts(e, path)[i].1, Parts(e, path)[i].0, ChildStart(e, n, i), s, caption)
  {
    var parts := Parts(e, path);
    if e.Array? {
      assert forall i: nat | i < |parts| :: parts[i] == (IndexPath(path, i), e.items[i]);
    } else {
      assert forall i: nat | i < |parts| :: parts[i] == (FieldPath(path, e.fields[i].0), e.fields[i].1);
    }
  }
  // -------------------------------------------------------------------- edges

  /** The branches of a conditional by name, the values of a coalesce by position. */
  function Branch(e: Expr, i: nat): string {
    if e.Coalesce? then Decimal(i) else if i == 0 then "cond" else if i == 1 then "then" else "else"
  }

  function Label(branch: string, path: string): string {
    if path == "" then branch else branch + ":" + path
  }

  /** `caption` names the branch and the place in it where `s` is the value. */
  ghost predicate BranchValue(e: Expr, n: nat, s: string, caption: string) {
    exists i: nat, path | i < |Children(e)| ::
      caption == Label(Branch(e, i), path) && ValueAt(Children(e)[i], "", ChildStart(e, n, i), s, path)
  }

  /** The edges into a diamond, from references and from other diamonds, are the
    values of its branches, labelled with the branch and the path. */
  lemma DiamondEdgesAre(e: Expr, path: string, n: nat, s: string, caption: string)
    requires IsDiamond(e)
    ensures Edge(s, ExprId(n), caption) in Emit(e, path, n).dot <==> BranchValue(e, n, s, caption)
  {
    if Edge(s, ExprId(n), caption) in Emit(e, path, n).dot {
      BranchOfEdge(e, path, n, s, caption);
    }
    if BranchValue(e, n, s, caption) {
      var i: nat, inner :| i < |Children(e)| && caption == Label(Branch(e, i), inner)
                           && ValueAt(Children(e)[i], "", ChildStart(e, n, i), s, inner);
      EdgeOfBranch(e, path, n, i, s, inner);
    }
  }

  lemma BranchTags(e: Expr, path: string, i: nat)
    requires IsDiamond(e) && i < |Parts(e, path)|
    ensures Parts(e, path)[i].0 == Branch(e, i)
  {}

  lemma BranchOfEdge(e: Expr, path: string, n: nat, s: string, caption: string)
    requires IsDiamond(e) && Edge(s, ExprId(n), caption) in Emit(e, path, n).dot
    ensures BranchValue(e, n, s, caption)
  {
    var parts, sink, d := Parts(e, path), Some(ExprId(n)), Edge(s, ExprId(n), caption);
    assert d in EmitParts(e, parts, sink, n + 1).dot;
    var i := DotOrigin(e, parts, sink, n + 1, d);
    var start, drawn := PartStart(e, parts, sink, n + 1, i), PartEmission(e, parts, sink, n + 1, i);
    PartStarts(e, path, n, i);
    PartRange(e, parts, sink, n + 1, i);
    if d in drawn.dot {
      EdgesAreSound(parts[i].1, "", start, d);
      var k: nat :| start <= k < drawn.next && d.target == ExprId(k);
      ExprIdIsInjective(k, n);
    }
    var edges := EdgesTo(drawn.sources, ExprId(n), parts[i].0);
    var m :| 0 <= m < |edges| && edges[m] == d;
    var inner := drawn.sources[m].1;
    assert drawn.sources[m] == (s, inner);
    SourcesAreValues(parts[i].1, "", start, s, inner);
    BranchTags(e, path, i);
    assert caption == Label(Branch(e, i), inner);
  }

  lemma EdgeOfBranch(e: Expr, path: string, n: nat, i: nat, s: string, inner: string)
    requires IsDiamond(e) && i < |Children(e)| && ValueAt(Children(e)[i], "", ChildStart(e, n, i), s, inner)
    ensures Edge(s, ExprId(n), Label(Branch(e, i), inner)) in Emit(e, path, n).dot
  {
    var parts, sink := Parts(e, path), Some(ExprId(n));
    ChildrenAreParts(e, path);
    PartStarts(e, path, n, i);
    var drawn := PartEmission(e, parts, sink, n + 1, i);
    SourcesAreValues(parts[i].1, "", ChildStart(e, n, i), s, inner);
    BranchTags(e, path, i);
    EdgeIntoSink(drawn.sources, (s, inner), ExprId(n), parts[i].0);
    PartIsDrawn(e, parts, sink, n + 1, i);
  }

  // --------------------------------------------------------- the whole drawing

  /** The edges into a step or the output are the values of its expression; a
    step draws none from itself. */
  lemma TargetEdgesAre(plan: Plan, j: nat, s: string, caption: string)
    requires NoClash(plan) && j <= |plan.steps|
    ensures Edge(s, plan.Name(j), caption) in plan.Dot()
       <==> ValueAt(plan.Target(j), "", plan.Start(j), s, caption) && !(j < |plan.steps| && s == plan.Name(j))
  {
    var d, inner := Edge(s, plan.Name(j), caption), plan.Emission(j);
    SourcesAreValues(plan.Target(j), "", plan.Start(j), s, caption);
    if d in plan.Dot() {
      DirectEdgeOrigin(plan, j, d);
    }
    if (s, caption) in inner.sources && !(plan.SkipsSelf(j) && s == plan.Name(j)) {
      FinalEdgeIsDrawn(inner.sources, plan.Name(j), plan.SkipsSelf(j), (s, caption));
      TargetIsDrawn(plan, j, d);
    }
  }
  lemma EdgeIntoDiamond(plan: Plan, o: nat, k: nat, d: Dot)
    requires NoClash(plan) && o <= |plan.steps| && plan.Start(o) <= k < plan.Start(o + 1)
    requires d in plan.Dot() && d.Edge? && d.target == ExprId(k)
    ensures d in plan.Emission(o).dot
  {
    var j := DrawnFor(plan, d);
    StartStep(plan, j);
    Bounds(plan, o);
    assert plan.Name(j) != ExprId(k);
    if d in plan.Emission(j).dot {
      EdgesAreSound(plan.Target(j), "", plan.Start(j), d);
      OneOwner(plan, d.target, j, o);
    } else {
      FinalEdgeOrigin(plan.Emission(j).sources, plan.Name(j), plan.SkipsSelf(j), d);
    }
  }

  lemma DiamondEdgesInDrawing(plan: Plan, o: nat, k: nat, d: Dot)
    requires NoClash(plan) && o <= |plan.steps| && plan.Start(o) <= k < plan.Start(o + 1)
    requires d.Edge? && d.target == ExprId(k)
    ensures d in plan.Dot() <==> d in Emit(DiamondOf(plan, o, k), "", k).dot
  {
    var sub := DiamondOf(plan, o, k);
    DiamondPlace(plan, k, o);
    StartStep(plan, o);
    if d in plan.Dot() {
      EdgeIntoDiamond(plan, o, k, d);
      assert Numbered(d.target, k, Emit(sub, "", k).next);
    }
    if d in Emit(sub, "", k).dot {
      TargetIsDrawn(plan, o, d);
    }
  }

  /** In a whole drawing, too, the edges into each diamond are exactly the values
    of its branches. */
  lemma DrawnDiamondEdgesAre(plan: Plan, i: nat, s: string, caption: string)
    requires NoClash(plan) && i < |AllDiamonds(plan, |plan.steps| + 1)|
    ensures Edge(s, ExprId(plan.n + i), caption) in plan.Dot()
       <==> BranchValue(AllDiamonds(plan, |plan.steps| + 1)[i], plan.n + i, s, caption)
  {
    var k := plan.n + i;
    var o := DiamondNumbered(plan, i);
    DiamondEdgesInDrawing(plan, o, k, Edge(s, ExprId(k), caption));
    DiamondDeclared(plan, o, k);
    DiamondEdgesAre(DiamondOf(plan, o, k), "", k, s, caption);
  }
}
