/** What happens when a step has the name of a diamond: which drawings name
  every node apart, and what a clash adds to the dependencies shown. */
module VisualizerClashes {
  import opened Basics
  import opened Visualizer
  import opened VisualizerEmission
  import opened VisualizerGraph
  import opened VisualizerShape

  // ----------------------------------------------------------------- node ids

  /** The ids of all nodes declared, in order. */
  function NodeIds(dot: seq<Dot>): seq<string> {
    if dot == [] then []
    else NodeIds(dot[..|dot| - 1]) + if dot[|dot| - 1].Node? then [dot[|dot| - 1].id] else []
  }

  predicate AllDistinct(s: seq<string>) {
    forall i, j | 0 <= i < j < |s| :: s[i] != s[j]
  }

  lemma {:induction false} NodeIdsSum(a: seq<Dot>, b: seq<Dot>)
    ensures NodeIds(a + b) == NodeIds(a) + NodeIds(b)
  {
    if b == [] {
      assert a + b == a;
    } else {
      assert (a + b)[..|a + b| - 1] == a + b[..|b| - 1];
      NodeIdsSum(a, b[..|b| - 1]);
    }
  }

  ghost predicate IsDiamondNode(d: Dot) {
    d.Node? ==> d.kind in {IfNode, CoalesceNode}
  }

  lemma {:induction false} DiamondIds(dot: seq<Dot>)
    requires forall d | d in dot :: IsDiamondNode(d)
    ensures NodeIds(dot) == Declared(dot)
  {
    if dot != [] {
      assert IsDiamondNode(dot[|dot| - 1]);
      DiamondIds(dot[..|dot| - 1]);
    }
  }

  /** An expression declares nothing but diamonds. */
  lemma {:induction false} OnlyDiamonds(e: Expr, path: string, n: nat, d: Dot)
    requires d in Emit(e, path, n).dot
    ensures IsDiamondNode(d)
  {
    var parts := Parts(e, path);
    if e.Array? || e.Object? {
      var i := DotOrigin(e, parts, None, n, d);
      OnlyDiamonds(parts[i].1, parts[i].0, PartStart(e, parts, None, n, i), d);
    } else if IsDiamond(e) && d in EmitParts(e, parts, Some(ExprId(n)), n + 1).dot {
      var i := DotOrigin(e, parts, Some(ExprId(n)), n + 1, d);
      if d in PartEmission(e, parts, Some(ExprId(n)), n + 1, i).dot {
        OnlyDiamonds(parts[i].1, "", PartStart(e, parts, Some(ExprId(n)), n + 1, i), d);
      }
    }
  }

  lemma TargetIsDiamonds(target: string, e: Expr, skipSelf: bool, n: nat, d: Dot)
    requires d in EmitTarget(target, e, skipSelf, n).0
    ensures IsDiamondNode(d)
  {
    if d in Emit(e, "", n).dot {
      OnlyDiamonds(e, "", n, d);
    } else {
      FinalEdgeOrigin(Emit(e, "", n).sources, target, skipSelf, d);
    }
  }

  lemma {:induction false} HeaderIds(steps: seq<FlowStep>)
    ensures |NodeIds(Header(steps))| == |steps| + 2
    ensures NodeIds(Header(steps))[0] == INPUT && NodeIds(Header(steps))[|steps| + 1] == OUTPUT
    ensures forall i | 0 <= i < |steps| :: NodeIds(Header(steps))[i + 1] == steps[i].id
  {
    NodesGiveIds(Header(steps));
  }

  lemma {:induction false} NodesGiveIds(dot: seq<Dot>)
    requires forall i | 0 <= i < |dot| :: dot[i].Node?
    ensures |NodeIds(dot)| == |dot| && forall i | 0 <= i < |dot| :: NodeIds(dot)[i] == dot[i].id
  {
    if dot != [] {
      NodesGiveIds(dot[..|dot| - 1]);
    }
  }

  lemma DrawingIds(plan: Plan)
    ensures plan.n <= plan.End() && NodeIds(plan.Dot()) == NodeIds(Header(plan.steps)) + Ids(plan.n, plan.End())
  {
    var (edges, m) := EmitSteps(plan.steps, plan.n);
    var (last, next) := EmitTarget(OUTPUT, plan.output, false, m);
    forall d | d in edges ensures IsDiamondNode(d) {
      var j := StepsOrigin(plan.steps, plan.n, d);
      TargetIsDiamonds(plan.steps[j].id, plan.steps[j].input, true, EmitSteps(plan.steps[..j], plan.n).1, d);
    }
    forall d | d in last ensures IsDiamondNode(d) { TargetIsDiamonds(OUTPUT, plan.output, false, m, d); }
    DiamondIds(edges);
    DiamondIds(last);
    StepsDeclare(plan.steps, plan.n);
    TargetDeclares(OUTPUT, plan.output, false, m);
    IdsSum(plan.n, m, next);
    NodeIdsSum(Header(plan.steps), edges);
    NodeIdsSum(Header(plan.steps) + edges, last);
    Regroup(NodeIds(Header(plan.steps)), Ids(plan.n, m), Ids(m, next));
  }

  /** What a caller can check: the step names differ from each other, from the
    two reserved names and from the ids that will be generated. */
  predicate NamesApart(steps: seq<FlowStep>, n: nat, m: nat) {
    && (forall i, j | 0 <= i < j < |steps| :: steps[i].id != steps[j].id)
    && (forall i | 0 <= i < |steps| :: steps[i].id != INPUT && steps[i].id != OUTPUT)
    && (forall i, k: nat | 0 <= i < |steps| && n <= k < m :: steps[i].id != ExprId(k))
  }

  lemma ReservedNames(k: nat)
    ensures ExprId(k) != INPUT && ExprId(k) != OUTPUT && INPUT != OUTPUT
  {
    assert ExprId(k)[0] == 'e' && INPUT[0] == 'w' && OUTPUT[0] == 'w';
    assert |INPUT| == 14 && |OUTPUT| == 15;
  }

  /** Two ids are the same node's or differ, exactly if the names are apart. */
  lemma IdsDistinctIff(plan: Plan)
    ensures AllDistinct(NodeIds(plan.Dot())) <==> NamesApart(plan.steps, plan.n, plan.End())
  {
    var steps, n, m := plan.steps, plan.n, plan.End();
    var header, ids, all := NodeIds(Header(steps)), Ids(n, m), NodeIds(plan.Dot());
    DrawingIds(plan);
    HeaderIds(steps);
    IdsLength(n, m);
    forall i: nat | i < m - n ensures ids[i] == ExprId(n + i) { IdsAt(n, m, i); }
    if AllDistinct(all) {
      DistinctIdsApart(steps, n, m, header, ids);
    }
    if NamesApart(steps, n, m) {
      forall i, j | 0 <= i < j < |all| ensures all[i] != all[j] {
        ApartIdsDistinct(steps, n, m, header, ids, i, j);
      }
    }
  }

  ghost predicate AreIds(steps: seq<FlowStep>, n: nat, m: nat, header: seq<string>, ids: seq<string>) {
    && n <= m && |header| == |steps| + 2 && header[0] == INPUT && header[|steps| + 1] == OUTPUT
    && (forall i | 0 <= i < |steps| :: header[i + 1] == steps[i].id)
    && |ids| == m - n && forall i: nat | i < m - n :: ids[i] == ExprId(n + i)
  }

  lemma DistinctIdsApart(steps: seq<FlowStep>, n: nat, m: nat, header: seq<string>, ids: seq<string>)
    requires AreIds(steps, n, m, header, ids) && AllDistinct(header + ids)
    ensures NamesApart(steps, n, m)
  {
    var all := header + ids;
    forall i, j | 0 <= i < j < |steps| ensures steps[i].id != steps[j].id {
      assert all[i + 1] != all[j + 1];
    }
    forall i | 0 <= i < |steps| ensures steps[i].id != INPUT && steps[i].id != OUTPUT {
      assert all[0] != all[i + 1] && all[i + 1] != all[|steps| + 1];
    }
    forall i, k: nat | 0 <= i < |steps| && n <= k < m ensures steps[i].id != ExprId(k) {
      assert ids[k - n] == ExprId(n + (k - n));
      assert all[i + 1] != all[|header| + (k - n)];
    }
  }

  lemma ApartIdsDistinct(steps: seq<FlowStep>, n: nat, m: nat, header: seq<string>, ids: seq<string>, i: nat, j: nat)
    requires AreIds(steps, n, m, header, ids) && NamesApart(steps, n, m) && i < j < |header + ids|
    ensures (header + ids)[i] != (header + ids)[j]
  {
    ReservedNames(0);
    if j >= |header| {
      var k := n + (j - |header|);
      assert (header + ids)[j] == ExprId(k);
      ReservedNames(k);
      if i >= |header| {
        assert (header + ids)[i] == ExprId(n + (i - |header|));
        if ExprId(n + (i - |header|)) == ExprId(k) { ExprIdIsInjective(n + (i - |header|), k); }
      } else if 0 < i <= |steps| {
        assert steps[i - 1].id != ExprId(k);
      }
    } else if 0 < i {
      assert header[i] == steps[i - 1].id;
      if j <= |steps| { assert header[j] == steps[j - 1].id; }
    } else if j <= |steps| {
      assert header[j] == steps[j - 1].id;
    }
  }

  // --------------------------------------------------- which diamond is which

  /** The sub-expressions that are visited, in the order they are. */
  function Children(e: Expr): (r: seq<Expr>)
    ensures forall i | 0 <= i < |r| :: r[i] < e
  {
    match e
    case If(c, t, x) => [c, t] + if x.Some? then [x.value] else []
    case Coalesce(values) => values
    case Array(items) => items
    case Object(fields) => seq(|fields|, (i: nat) requires i < |fields| => fields[i].1)
    case _ => []
  }

  /** The conditionals and coalesces in an expression, each before the ones
    inside it. */
  function Diamonds(e: Expr): seq<Expr>
    decreases e, 1, 0
  {
    (if IsDiamond(e) then [e] else []) + DiamondsOf(e, Children(e))
  }

  function DiamondsOf(ghost parent: Expr, children: seq<Expr>): seq<Expr>
    requires forall i | 0 <= i < |children| :: children[i] < parent
    decreases parent, 0, |children|
  {
    if children == [] then []
    else DiamondsOf(parent, children[..|children| - 1]) + Diamonds(children[|children| - 1])
  }

  lemma ChildrenAreParts(e: Expr, path: string)
    ensures |Children(e)| == |Parts(e, path)|
    ensures forall i | 0 <= i < |Children(e)| :: Children(e)[i] == Parts(e, path)[i].1
  {}

  ghost predicate SameExprs(children: seq<Expr>, parts: seq<(string, Expr)>) {
    |children| == |parts| && forall i | 0 <= i < |parts| :: children[i] == parts[i].1
  }

  function SinkOf(e: Expr, n: nat): Option<string> {
    if IsDiamond(e) then Some(ExprId(n)) else None
  }

  function FirstOf(e: Expr, n: nat): nat {
    if IsDiamond(e) then n + 1 else n
  }

  lemma NumbersOfParts(e: Expr, path: string, n: nat)
    requires IsDiamond(e) || e.Array? || e.Object?
    ensures Emit(e, path, n).next == EmitParts(e, Parts(e, path), SinkOf(e, n), FirstOf(e, n)).next
    ensures n + |Diamonds(e)| == FirstOf(e, n) + |DiamondsOf(e, Children(e))|
  {}

  lemma NoDiamonds(e: Expr)
    requires !IsDiamond(e) && !e.Array? && !e.Object?
    ensures Diamonds(e) == []
  {
    assert Children(e) == [];
  }

  lemma LastPartEnds(parent: Expr, parts: seq<(string, Expr)>, sink: Option<string>, n: nat)
    requires parts != [] && Within(parent, parts)
    ensures PartEmission(parent, parts, sink, n, |parts| - 1).next == EmitParts(parent, parts, sink, n).next
  {}

  /** Every diamond takes one number. */
  lemma {:induction false} DiamondsCounted(e: Expr, path: string, n: nat)
    ensures Emit(e, path, n).next == n + |Diamonds(e)|
    decreases e, 1, 0
  {
    if IsDiamond(e) || e.Array? || e.Object? {
      ChildrenAreParts(e, path);
      NumbersOfParts(e, path, n);
      PartsCounted(e, Children(e), Parts(e, path), SinkOf(e, n), FirstOf(e, n));
    } else {
      NoDiamonds(e);
    }
  }

  lemma {:induction false} PartsCounted(parent: Expr, children: seq<Expr>, parts: seq<(string, Expr)>,
                                        sink: Option<string>, n: nat)
    requires Within(parent, parts) && SameExprs(children, parts)
    ensures EmitParts(parent, parts, sink, n).next == n + |DiamondsOf(parent, children)|
    decreases parent, 0, |parts|
  {
    if parts != [] {
      var last := |parts| - 1;
      PartsCounted(parent, children[..last], parts[..last], sink, n);
      LastPartEnds(parent, parts, sink, n);
      DiamondsCounted(parts[last].1, PartLabel(parts[last], sink), PartStart(parent, parts, sink, n, last));
    }
  }

  /** The conditionals and coalesces of the first `j` targets. */
  function AllDiamonds(plan: Plan, j: nat): seq<Expr> {
    if j == 0 then [] else AllDiamonds(plan, j - 1) + Diamonds(plan.Target(j - 1))
  }

  lemma NumbersOfTarget(plan: Plan, j: nat)
    requires j <= |plan.steps|
    ensures plan.Start(0) == plan.n && plan.Start(j + 1) == plan.Start(j) + |Diamonds(plan.Target(j))|
  {
    StartStep(plan, j);
    DiamondsCounted(plan.Target(j), "", plan.Start(j));
  }

  lemma {:induction false} NumbersBefore(plan: Plan, j: nat)
    requires j <= |plan.steps| + 1
    ensures plan.Start(j) == plan.n + |AllDiamonds(plan, j)|
    decreases j
  {
    if j == 0 {
      StartStep(plan, 0);
    } else {
      var i: nat := j - 1;
      NumbersBefore(plan, i);
      NumbersOfTarget(plan, i);
    }
  }

  /** The child that holds the diamond at position `x`, and where in it. */
  lemma {:induction false} ChildAt(parent: Expr, children: seq<Expr>, x: nat) returns (i: nat)
    requires forall j | 0 <= j < |children| :: children[j] < parent
    requires x < |DiamondsOf(parent, children)|
    ensures i < |children|
    ensures var before := |DiamondsOf(parent, children[..i])|;
      && before <= x < before + |Diamonds(children[i])|
      && DiamondsOf(parent, children)[x] == Diamonds(children[i])[x - before]
    decreases |children|
  {
    var last := |children| - 1;
    var front, back := DiamondsOf(parent, children[..last]), Diamonds(children[last]);
    assert DiamondsOf(parent, children) == front + back;
    if x < |front| {
      i := ChildAt(parent, children[..last], x);
      assert children[..last][..i] == children[..i] && children[..last][i] == children[i];
    } else {
      i := last;
    }
  }

  lemma StartOfPart(parent: Expr, children: seq<Expr>, parts: seq<(string, Expr)>, sink: Option<string>, n: nat, i: nat)
    requires Within(parent, parts) && SameExprs(children, parts) && i < |parts|
    ensures PartStart(parent, parts, sink, n, i) == n + |DiamondsOf(parent, children[..i])|
    ensures PartEmission(parent, parts, sink, n, i).next
         == PartStart(parent, parts, sink, n, i) + |Diamonds(parts[i].1)|
  {
    PartsCounted(parent, children[..i], parts[..i], sink, n);
    DiamondsCounted(parts[i].1, PartLabel(parts[i], sink), PartStart(parent, parts, sink, n, i));
  }

  /** Diamond `k` is in part `i`, and the lists agree on which one it is. */
  ghost predicate InPartAt(parent: Expr, children: seq<Expr>, parts: seq<(string, Expr)>, sink: Option<string>, n: nat,
                           k: nat, i: nat)
    requires Within(parent, parts) && SameExprs(children, parts) && n <= k
  {
    && i < |parts| && PartStart(parent, parts, sink, n, i) <= k < PartEmission(parent, parts, sink, n, i).next
    && k - PartStart(parent, parts, sink, n, i) < |Diamonds(parts[i].1)| && k - n < |DiamondsOf(parent, children)|
    && DiamondsOf(parent, children)[k - n] == Diamonds(parts[i].1)[k - PartStart(parent, parts, sink, n, i)]
  }

  lemma {:induction false} PartWithDiamond(parent: Expr, children: seq<Expr>, parts: seq<(string, Expr)>,
                                           sink: Option<string>, n: nat, k: nat) returns (i: nat)
    requires Within(parent, parts) && SameExprs(children, parts)
    requires n <= k && k - n < |DiamondsOf(parent, children)|
    ensures InPartAt(parent, children, parts, sink, n, k, i)
  {
    i := ChildAt(parent, children, k - n);
    StartOfPart(parent, children, parts, sink, n, i);
    AtPart(parent, children, parts, sink, n, k, i, |DiamondsOf(parent, children[..i])|);
  }

  lemma AtPart(parent: Expr, children: seq<Expr>, parts: seq<(string, Expr)>, sink: Option<string>, n: nat, k: nat,
               i: nat, before: nat)
    requires Within(parent, parts) && SameExprs(children, parts) && i < |parts|
    requires n + before <= k && k - n - before < |Diamonds(parts[i].1)| && k - n < |DiamondsOf(parent, children)|
    requires PartStart(parent, parts, sink, n, i) == n + before
    requires PartEmission(parent, parts, sink, n, i).next == n + before + |Diamonds(parts[i].1)|
    requires DiamondsOf(parent, children)[k - n] == Diamonds(parts[i].1)[k - n - before]
    ensures InPartAt(parent, children, parts, sink, n, k, i)
  {
    assert k - n - before == k - PartStart(parent, parts, sink, n, i);
  }

  /** Where diamond `k` stands: what is drawn for it is drawn for the whole, its
    references are the whole's, and edges into it or into a diamond inside it
    were drawn for it. */
  ghost predicate Place(e: Expr, path: string, n: nat, k: nat, sub: Expr) {
    var all, inner := Emit(e, path, n), Emit(sub, "", k);
    && IsDiamond(sub) && n <= k < inner.next <= all.next
    && (forall d | d in inner.dot :: d in all.dot)
    && (forall d | d in all.dot && d.Edge? && Numbered(d.target, k, inner.next) :: d in inner.dot)
    && (forall s | Mentions(sub, s) :: Mentions(e, s))
  }

  lemma PathDoesNotMatter(e: Expr, path: string, n: nat)
    requires IsDiamond(e)
    ensures Emit(e, path, n).dot == Emit(e, "", n).dot && Emit(e, path, n).next == Emit(e, "", n).next
  {
    assert Parts(e, path) == Parts(e, "");
  }

  lemma {:induction false} PlaceOfDiamond(e: Expr, path: string, n: nat, k: nat)
    requires n <= k < Emit(e, path, n).next
    ensures k - n < |Diamonds(e)| && Place(e, path, n, k, Diamonds(e)[k - n])
  {
    DiamondsCounted(e, path, n);
    if IsDiamond(e) && k == n {
      PathDoesNotMatter(e, path, n);
    } else {
      var i := ChildWithDiamond(e, path, n, k);
      var part := Parts(e, path)[i];
      var start := PartStart(e, Parts(e, path), SinkOf(e, n), FirstOf(e, n), i);
      PlaceOfDiamond(part.1, PartLabel(part, SinkOf(e, n)), start, k);
      PlaceInWhole(e, path, n, i, k, Diamonds(e)[k - n]);
    }
  }

  lemma HasChildren(e: Expr, path: string, n: nat, k: nat)
    requires FirstOf(e, n) <= k < Emit(e, path, n).next
    ensures (IsDiamond(e) || e.Array? || e.Object?) && k - FirstOf(e, n) < |DiamondsOf(e, Children(e))|
  {
    DiamondsCounted(e, path, n);
    if IsDiamond(e) || e.Array? || e.Object? {
      NumbersOfParts(e, path, n);
    } else {
      NoDiamonds(e);
    }
  }

  lemma {:induction false} ChildWithDiamond(e: Expr, path: string, n: nat, k: nat) returns (i: nat)
    requires FirstOf(e, n) <= k < Emit(e, path, n).next && k - n < |Diamonds(e)|
    ensures (IsDiamond(e) || e.Array? || e.Object?) && i < |Parts(e, path)|
    ensures var parts, sink, m := Parts(e, path), SinkOf(e, n), FirstOf(e, n);
      var start := PartStart(e, parts, sink, m, i);
      && start <= k < PartEmission(e, parts, sink, m, i).next
      && k - start < |Diamonds(parts[i].1)| && Diamonds(e)[k - n] == Diamonds(parts[i].1)[k - start]
  {
    HasChildren(e, path, n, k);
    ChildrenAreParts(e, path);
    i := PartWithDiamond(e, Children(e), Parts(e, path), SinkOf(e, n), FirstOf(e, n), k);
    ChildIndex(e, n, k);
  }

  lemma ChildIndex(e: Expr, n: nat, k: nat)
    requires FirstOf(e, n) <= k && k - n < |Diamonds(e)| && k - FirstOf(e, n) < |DiamondsOf(e, Children(e))|
    ensures Diamonds(e)[k - n] == DiamondsOf(e, Children(e))[k - FirstOf(e, n)]
  {}

  lemma PlaceInWhole(e: Expr, path: string, n: nat, i: nat, k: nat, sub: Expr)
    requires (IsDiamond(e) || e.Array? || e.Object?) && i < |Parts(e, path)| && FirstOf(e, n) <= k
    requires var parts := Parts(e, path);
      Place(parts[i].1, PartLabel(parts[i], SinkOf(e, n)), PartStart(e, parts, SinkOf(e, n), FirstOf(e, n), i),
            k, sub)
    ensures Place(e, path, n, k, sub)
  {
    var parts, sink, m := Parts(e, path), SinkOf(e, n), FirstOf(e, n);
    var all, inner, part := Emit(e, path, n), Emit(sub, "", k), PartEmission(e, parts, sink, m, i);
    PartRange(e, parts, sink, m, i);
    PartIsDrawn(e, parts, sink, m, i);
    forall d | d in all.dot && d.Edge? && Numbered(d.target, k, inner.next) ensures d in inner.dot {
      var l: nat :| k <= l < inner.next && d.target == ExprId(l);
      EdgeInsidePart(e, path, n, i, l, d);
    }
    forall s | Mentions(sub, s) ensures Mentions(e, s) { MentionedInWhole(e, path, i, s); }
  }

  lemma MentionedInWhole(e: Expr, path: string, i: nat, s: string)
    requires (IsDiamond(e) || e.Array? || e.Object?) && i < |Parts(e, path)| && Mentions(Parts(e, path)[i].1, s)
    ensures Mentions(e, s)
  {
    if IsDiamond(e) {
      MentionedInPart(e, path, s);
    } else {
      MentionedSomewhere(e, s);
      MentionedSomewhere(Parts(e, path)[i].1, s);
      InPart(e, path, s);
    }
  }

  /** An edge to a diamond of part `i` was written for that part. */
  lemma EdgeInsidePart(e: Expr, path: string, n: nat, i: nat, l: nat, d: Dot)
    requires (IsDiamond(e) || e.Array? || e.Object?) && i < |Parts(e, path)|
    requires d in Emit(e, path, n).dot && d.Edge? && d.target == ExprId(l)
    requires var parts, sink, m := Parts(e, path), SinkOf(e, n), FirstOf(e, n);
      PartStart(e, parts, sink, m, i) <= l < PartEmission(e, parts, sink, m, i).next
    ensures d in PartEmission(e, Parts(e, path), SinkOf(e, n), FirstOf(e, n), i).dot
  {
    var parts, sink, m := Parts(e, path), SinkOf(e, n), FirstOf(e, n);
    PartRange(e, parts, sink, m, i);
    assert d in EmitParts(e, parts, sink, m).dot;
    var j := DotOrigin(e, parts, sink, m, d);
    var start, part := PartStart(e, parts, sink, m, j), PartEmission(e, parts, sink, m, j);
    if d in part.dot {
      EdgesAreSound(parts[j].1, PartLabel(parts[j], sink), start, d);
      var o: nat :| start <= o < part.next && d.target == ExprId(o);
      ExprIdIsInjective(o, l);
      if i < j { PartsInOrder(e, parts, sink, m, i, j); }
      if j < i { PartsInOrder(e, parts, sink, m, j, i); }
    } else {
      assert d.target == ExprId(n);
      ExprIdIsInjective(n, l);
    }
  }

  lemma PartsInOrder(parent: Expr, parts: seq<(string, Expr)>, sink: Option<string>, n: nat, i: nat, j: nat)
    requires Within(parent, parts) && i < j < |parts|
    ensures PartEmission(parent, parts, sink, n, i).next <= PartStart(parent, parts, sink, n, j)
  {
    assert parts[..j][..i] == parts[..i];
    PartRange(parent, parts[..j], sink, n, i);
  }

  // ------------------------------------------------------- one step that clashes

  /** Step `c` has the name of diamond `k`; otherwise the names are apart, and
    nothing refers to another diamond. */
  ghost predicate OnlyClash(plan: Plan, c: nat, k: nat) {
    && c < |plan.steps| && plan.n <= k < plan.End() && plan.Name(c) == ExprId(k)
    && (forall i: nat, j: nat | i < j <= |plan.steps| :: plan.Name(i) != plan.Name(j))
    && (forall j: nat, m: nat | j <= |plan.steps| && plan.n <= m < plan.End() && m != k :: plan.Name(j) != ExprId(m))
    && (forall j: nat, m: nat | j <= |plan.steps| && plan.n <= m < plan.End() && m != k ::
          !Mentions(plan.Target(j), ExprId(m)))
  }

  /** The diamond with number `k`, drawn for target `o`. */
  function DiamondOf(plan: Plan, o: nat, k: nat): Expr
    requires o <= |plan.steps| && plan.Start(o) <= k < plan.Start(o + 1)
  {
    StartStep(plan, o);
    DiamondsCounted(plan.Target(o), "", plan.Start(o));
    Diamonds(plan.Target(o))[k - plan.Start(o)]
  }

  /** Every diamond was drawn for some target. */
  lemma {:induction false} OwnerOf(plan: Plan, k: nat, j: nat) returns (o: nat)
    requires plan.Start(0) <= k < plan.Start(j)
    ensures o < j && plan.Start(o) <= k < plan.Start(o + 1)
  {
    o := j - 1;
    if k < plan.Start(o) {
      o := OwnerOf(plan, k, o);
    }
  }

  /** Edges to the numbers of a zone were drawn for its expression, apart from
    those to `k`, and that expression refers to no other diamond. */
  ghost predicate Zone(plan: Plan, k: nat, e: Expr, n: nat) {
    && plan.n <= n && Emit(e, "", n).next <= plan.End()
    && (forall d | d in plan.Dot() && d.Edge?
                   && d.target != ExprId(k) && Numbered(d.target, n, Emit(e, "", n).next) ::
          d in Emit(e, "", n).dot)
    && (forall m: nat | plan.n <= m < plan.End() && m != k :: !Mentions(e, ExprId(m)))
  }

  /** An edge to another diamond of target `o` is inside its expression. */
  lemma EdgeToDiamond(plan: Plan, c: nat, k: nat, o: nat, m: nat, d: Dot)
    requires OnlyClash(plan, c, k) && o <= |plan.steps| && plan.Start(o) <= m < plan.Start(o + 1)
    requires d in plan.Dot() && d.Edge? && d.target == ExprId(m)
    ensures d in plan.Emission(o).dot || (m == k && d in FinalEdges(plan.Emission(c).sources, plan.Name(c), true))
  {
    var j := DrawnFor(plan, d);
    StartStep(plan, j);
    Bounds(plan, o);
    if d in plan.Emission(j).dot {
      EdgesAreSound(plan.Target(j), "", plan.Start(j), d);
      OneOwner(plan, d.target, j, o);
    } else {
      FinalEdgeOrigin(plan.Emission(j).sources, plan.Name(j), plan.SkipsSelf(j), d);
      assert m == k && plan.Name(j) == plan.Name(c);
    }
  }

  lemma TargetZone(plan: Plan, c: nat, k: nat, o: nat)
    requires OnlyClash(plan, c, k) && o <= |plan.steps|
    ensures Zone(plan, k, plan.Target(o), plan.Start(o))
  {
    StartStep(plan, o);
    Bounds(plan, o);
    forall d | d in plan.Dot() && d.Edge? && d.target != ExprId(k)
      && Numbered(d.target, plan.Start(o), plan.Start(o + 1))
      ensures d in plan.Emission(o).dot
    {
      var m: nat :| plan.Start(o) <= m < plan.Start(o + 1) && d.target == ExprId(m);
      EdgeToDiamond(plan, c, k, o, m, d);
    }
  }

  lemma ZoneInside(plan: Plan, k: nat, e: Expr, n: nat, sub: Expr)
    requires Zone(plan, k, e, n) && Place(e, "", n, k, sub)
    ensures Zone(plan, k, sub, k)
  {
    var all, inner := Emit(e, "", n), Emit(sub, "", k);
    forall d | d in plan.Dot() && d.Edge? && d.target != ExprId(k) && Numbered(d.target, k, inner.next)
      ensures d in inner.dot
    {
      WiderRange(d.target, k, inner.next, n, all.next);
    }
  }

  lemma DiamondIs(plan: Plan, o: nat, k: nat)
    requires o <= |plan.steps| && plan.Start(o) <= k < plan.Start(o + 1)
    ensures var e, n := plan.Target(o), plan.Start(o);
      k < Emit(e, "", n).next && k - n < |Diamonds(e)| && DiamondOf(plan, o, k) == Diamonds(e)[k - n]
  {
    StartStep(plan, o);
    DiamondsCounted(plan.Target(o), "", plan.Start(o));
  }

  lemma DiamondPlace(plan: Plan, k: nat, o: nat)
    requires o <= |plan.steps| && plan.Start(o) <= k < plan.Start(o + 1)
    ensures Place(plan.Target(o), "", plan.Start(o), k, DiamondOf(plan, o, k))
  {
    DiamondIs(plan, o, k);
    PlaceOf(plan.Target(o), plan.Start(o), k, DiamondOf(plan, o, k));
  }

  lemma PlaceOf(e: Expr, n: nat, k: nat, sub: Expr)
    requires n <= k < Emit(e, "", n).next && k - n < |Diamonds(e)| && sub == Diamonds(e)[k - n]
    ensures Place(e, "", n, k, sub)
  {
    PlaceOfDiamond(e, "", n, k);
  }

  lemma DiamondZone(plan: Plan, c: nat, k: nat, o: nat)
    requires OnlyClash(plan, c, k) && o <= |plan.steps| && plan.Start(o) <= k < plan.Start(o + 1)
    ensures Zone(plan, k, DiamondOf(plan, o, k), k)
  {
    TargetZone(plan, c, k, o);
    DiamondPlace(plan, k, o);
    ZoneInside(plan, k, plan.Target(o), plan.Start(o), DiamondOf(plan, o, k));
  }

  lemma WiderRange(x: string, lo: nat, hi: nat, n: nat, m: nat)
    requires Numbered(x, lo, hi) && n <= lo && hi <= m
    ensures Numbered(x, n, m)
  {
    var i: nat :| lo <= i < hi && x == ExprId(i);
  }

  /** A walk on which `x` comes only last. */
  ghost predicate FirstVisit(plan: Plan, s: string, x: string, p: seq<string>) {
    ConnectedBy(plan, s, x, p) && forall i | 1 <= i < |p| - 1 :: p[i] != x
  }

  lemma {:induction false} CutAtFirstVisit(plan: Plan, s: string, x: string, p: seq<string>) returns (q: seq<string>)
    requires ConnectedBy(plan, s, x, p)
    ensures FirstVisit(plan, s, x, q)
    decreases |p|
  {
    q := p;
    if i :| 1 <= i < |p| - 1 && p[i] == x {
      var front := p[..i + 1];
      forall l: nat | l + 1 < |front| ensures HasEdge(plan.Dot(), front[l], front[l + 1]) {
        assert HasEdge(plan.Dot(), p[l], p[l + 1]);
      }
      q := CutAtFirstVisit(plan, s, x, front);
    }
  }

  /** Between its ends such a walk visits diamonds that nothing refers to. */
  lemma NotReferredTo(plan: Plan, c: nat, k: nat, x: string, e: Expr)
    requires OnlyClash(plan, c, k) && Numbered(x, plan.n, plan.End()) && x != ExprId(k)
    requires forall m: nat | plan.n <= m < plan.End() && m != k :: !Mentions(e, ExprId(m))
    ensures !Mentions(e, x)
  {
    var m: nat :| plan.n <= m < plan.End() && x == ExprId(m);
  }

  /** Going back from a zone one stays in it, up to the start. */
  lemma {:induction false} BackThroughZone(plan: Plan, c: nat, k: nat, s: string, p: seq<string>, i: nat,
                                           e: Expr, n: nat)
    requires OnlyClash(plan, c, k) && FirstVisit(plan, s, ExprId(k), p) && !Numbered(s, plan.n, plan.End())
    requires Zone(plan, k, e, n) && 1 <= i < |p| - 1 && Numbered(p[i], n, Emit(e, "", n).next)
    ensures Mentions(e, s)
  {
    assert HasEdge(plan.Dot(), p[i - 1], p[i - 1 + 1]);
    var caption :| Edge(p[i - 1], p[i], caption) in plan.Dot();
    EdgesAreSound(e, "", n, Edge(p[i - 1], p[i], caption));
    BackFromEdge(plan, c, k, s, p, i, e, n, Edge(p[i - 1], p[i], caption));
  }

  /** Such a walk comes to the node before its last step over an edge. */
  lemma {:induction false} EdgeBefore(plan: Plan, k: nat, s: string, p: seq<string>, i: nat) returns (caption: string)
    requires FirstVisit(plan, s, ExprId(k), p) && 2 <= i < |p|
    ensures Edge(p[i - 2], p[i - 1], caption) in plan.Dot()
    ensures Numbered(p[i - 1], plan.n, plan.End()) && p[i - 1] != ExprId(k)
  {
    assert HasEdge(plan.Dot(), p[i - 2], p[i - 2 + 1]);
    caption :| Edge(p[i - 2], p[i - 1], caption) in plan.Dot();
  }

  /** One edge of a zone: it starts in the zone or at the start of the walk. */
  lemma {:induction false} BackFromEdge(plan: Plan, c: nat, k: nat, s: string, p: seq<string>, i: nat,
                                        e: Expr, n: nat, d: Dot)
    requires OnlyClash(plan, c, k) && FirstVisit(plan, s, ExprId(k), p) && !Numbered(s, plan.n, plan.End())
    requires Zone(plan, k, e, n) && 1 <= i < |p| && d.Edge? && d.source == p[i - 1]
    requires EdgeOk(d, e, n, Emit(e, "", n).next)
    ensures Mentions(e, s)
    decreases i
  {
    var next := Emit(e, "", n).next;
    var l: nat :| n <= l < next && d.target == ExprId(l) && (Numbered(d.source, l + 1, next) || InBranch(e, d.source));
    MentionedSomewhere(e, d.source);
    if i == 1 {
      NotNumberedWithin(s, l + 1, next, plan.n, plan.End());
    } else {
      var caption := EdgeBefore(plan, k, s, p, i);
      NotReferredTo(plan, c, k, d.source, e);
      WiderRange(d.source, l + 1, next, n, next);
      EdgesAreSound(e, "", n, Edge(p[i - 2], p[i - 1], caption));
      BackFromEdge(plan, c, k, s, p, i - 1, e, n, Edge(p[i - 2], p[i - 1], caption));
    }
  }

  lemma ClashAddsNoMore(plan: Plan, c: nat, k: nat, o: nat, s: string, p: seq<string>)
    requires OnlyClash(plan, c, k) && o <= |plan.steps| && plan.Start(o) <= k < plan.Start(o + 1)
    requires !Numbered(s, plan.n, plan.End()) && FirstVisit(plan, s, ExprId(k), p)
    ensures Mentions(plan.Target(c), s) || Mentions(DiamondOf(plan, o, k), s)
  {
    var i := |p| - 1;
    assert HasEdge(plan.Dot(), p[i - 1], p[i - 1 + 1]);
    var caption :| Edge(p[i - 1], p[i], caption) in plan.Dot();
    var d := Edge(p[i - 1], p[i], caption);
    EdgeToDiamond(plan, c, k, o, k, d);
    if d in plan.Emission(o).dot {
      DiamondPlace(plan, k, o);
      DiamondZone(plan, c, k, o);
      var sub := DiamondOf(plan, o, k);
      assert Numbered(d.target, k, Emit(sub, "", k).next);
      EdgesAreSound(sub, "", k, d);
      BackFromEdge(plan, c, k, s, p, i, sub, k, d);
    } else {
      BackFromFinalEdge(plan, c, k, s, p, d);
    }
  }

  lemma BackFromFinalEdge(plan: Plan, c: nat, k: nat, s: string, p: seq<string>, d: Dot)
    requires OnlyClash(plan, c, k) && FirstVisit(plan, s, ExprId(k), p) && !Numbered(s, plan.n, plan.End())
    requires d in FinalEdges(plan.Emission(c).sources, plan.Name(c), true) && d.Edge? && d.source == p[|p| - 2]
    ensures Mentions(plan.Target(c), s)
  {
    var e := plan.Target(c);
    StartStep(plan, c);
    Bounds(plan, c);
    FinalEdgeOrigin(plan.Emission(c).sources, plan.Name(c), true, d);
    SourcesAreSound(e, "", plan.Start(c), (d.source, d.caption));
    MentionedSomewhere(e, d.source);
    if |p| > 2 {
      NotReferredTo(plan, c, k, d.source, e);
      TargetZone(plan, c, k, c);
      BackThroughZone(plan, c, k, s, p, |p| - 2, e, plan.Start(c));
    } else {
      NotNumberedWithin(s, plan.Start(c), plan.Start(c + 1), plan.n, plan.End());
    }
  }

  lemma TrailConnects(plan: Plan, c: nat, k: nat, s: string, dot: seq<Dot>, p: seq<string>, lo: nat, hi: nat)
    requires OnlyClash(plan, c, k) && |p| >= 2 && p[|p| - 1] == ExprId(k)
    requires Trail(dot, s, p, lo, hi) && plan.n <= lo && hi <= plan.End() && forall d | d in dot :: d in plan.Dot()
    ensures Connected(plan, s, plan.Name(c))
  {
    TrailInLarger(dot, plan.Dot(), s, p, lo, hi, plan.n, plan.End());
    assert ConnectedBy(plan, s, plan.Name(c), p);
  }

  lemma DiamondConnects(plan: Plan, c: nat, k: nat, o: nat, s: string)
    requires OnlyClash(plan, c, k) && o <= |plan.steps| && plan.Start(o) <= k < plan.Start(o + 1)
    requires Mentions(DiamondOf(plan, o, k), s)
    ensures Connected(plan, s, plan.Name(c))
  {
    var sub := DiamondOf(plan, o, k);
    DiamondPlace(plan, k, o);
    Bounds(plan, o);
    StartStep(plan, o);
    var p := DiamondIsReached(sub, "", k, s);
    var inner := Emit(sub, "", k);
    forall d | d in inner.dot ensures d in plan.Dot() { TargetIsDrawn(plan, o, d); }
    TrailConnects(plan, c, k, s, inner.dot, p, k, inner.next);
  }

  lemma OwnConnects(plan: Plan, c: nat, k: nat, s: string)
    requires OnlyClash(plan, c, k) && !Numbered(s, plan.n, plan.End()) && Mentions(plan.Target(c), s)
    ensures Connected(plan, s, plan.Name(c))
  {
    var e, inner, p, caption := plan.Target(c), plan.Emission(c), [s], "";
    StartStep(plan, c);
    Bounds(plan, c);
    MentionedSomewhere(e, s);
    forall d | d in plan.Drawn(c) ensures d in plan.Dot() { TargetIsDrawn(plan, c, d); }
    if InBranch(e, s) {
      p, caption := BranchReferenceReaches(e, "", plan.Start(c), s);
    } else {
      caption := OpenReferenceIsSource(e, "", plan.Start(c), s);
    }
    if p[|p| - 1] == plan.Name(c) {
      assert |p| >= 2;
      TrailConnects(plan, c, k, s, inner.dot, p, plan.Start(c), inner.next);
    } else {
      FinalEdgeIsDrawn(inner.sources, plan.Name(c), true, (p[|p| - 1], caption));
      assert Edge(p[|p| - 1], plan.Name(c), caption) in plan.Drawn(c);
      TrailInLarger(inner.dot, plan.Dot(), s, p, plan.Start(c), inner.next, plan.n, plan.End());
      assert Numbered(plan.Name(c), plan.n, plan.End());
      LongerTrail(plan.Dot(), s, p, plan.Name(c), plan.n, plan.End());
      TrailConnects(plan, c, k, s, plan.Dot(), p + [plan.Name(c)], plan.n, plan.End());
    }
  }

  /** A step with the name of a diamond is shown to depend on what it refers to
    and on what the diamond refers to, and on nothing else; so it is drawn
    right exactly for what the diamond does not add. */
  lemma ClashAddsExactly(plan: Plan, c: nat, k: nat, o: nat, s: string)
    requires OnlyClash(plan, c, k) && o <= |plan.steps| && plan.Start(o) <= k < plan.Start(o + 1)
    requires !Numbered(s, plan.n, plan.End())
    ensures Connected(plan, s, plan.Name(c)) <==> Mentions(plan.Target(c), s) || Mentions(DiamondOf(plan, o, k), s)
    ensures (Connected(plan, s, plan.Name(c)) <==> Mentions(plan.Target(c), s))
       <==> (Mentions(DiamondOf(plan, o, k), s) ==> Mentions(plan.Target(c), s))
  {
    if Connected(plan, s, plan.Name(c)) {
      var p :| ConnectedBy(plan, s, plan.Name(c), p);
      var q := CutAtFirstVisit(plan, s, plan.Name(c), p);
      ClashAddsNoMore(plan, c, k, o, s, q);
    }
    if Mentions(plan.Target(c), s) { OwnConnects(plan, c, k, s); }
    if Mentions(DiamondOf(plan, o, k), s) { DiamondConnects(plan, c, k, o, s); }
  }

  // ---------------------------------------------------------------- a witness

  /** Step c, a step with the name of the first diamond, and an output that is
    a conditional on c. */
  function Clashing(): Plan {
    Plan([FlowStep("c", Literal), FlowStep(ExprId(0), Literal)], If(Literal, Step("c"), None), 0)
  }

  lemma OneDiamond(e: Expr)
    requires e.If? && e.elseBranch.None? && Diamonds(e.cond) == Diamonds(e.thenBranch) == []
    ensures Diamonds(e) == [e]
  {
    var children := Children(e);
    assert |children| == 2 && children[0] == e.cond && children[1] == e.thenBranch;
    assert DiamondsOf(e, children[..1]) == DiamondsOf(e, children[..1][..0]) + Diamonds(e.cond) == [];
  }

  lemma OutputNumbers(plan: Plan)
    requires |plan.steps| == 2 && plan.n == 0
    requires Diamonds(plan.Target(0)) == Diamonds(plan.Target(1)) == [] && |Diamonds(plan.output)| == 1
    ensures plan.Start(2) == 0 && plan.Start(3) == 1
  {
    assert AllDiamonds(plan, 1) == AllDiamonds(plan, 0) + Diamonds(plan.Target(0)) == [];
    assert AllDiamonds(plan, 2) == [];
    assert AllDiamonds(plan, 3) == Diamonds(plan.output);
    NumbersBefore(plan, 2);
    NumbersBefore(plan, 3);
  }

  lemma OutputDiamond(plan: Plan)
    requires |plan.steps| == 2 && plan.Start(2) == 0 && plan.Start(3) == 1 && Diamonds(plan.output) == [plan.output]
    ensures DiamondOf(plan, 2, 0) == plan.output
  {
    DiamondIs(plan, 2, 0);
  }

  lemma OneNumber(plan: Plan)
    requires |plan.steps| == 2 && plan.n == 0 && plan.End() == 1 && plan.Name(1) == ExprId(0)
    requires plan.Name(0) != ExprId(0) && plan.Name(0) != OUTPUT
    ensures OnlyClash(plan, 1, 0)
  {
    ReservedNames(0);
  }

  /** The only diamond is the output, and the second step has its name. */
  lemma OutputClash(plan: Plan)
    requires |plan.steps| == 2 && plan.n == 0 && plan.Name(1) == ExprId(0)
    requires plan.Name(0) != ExprId(0) && plan.Name(0) != OUTPUT
    requires Diamonds(plan.Target(0)) == Diamonds(plan.Target(1)) == [] && Diamonds(plan.output) == [plan.output]
    requires forall j | 0 <= j < 2 :: plan.Target(j).Literal?
    ensures OnlyClash(plan, 1, 0) && plan.Start(2) == 0 && plan.Start(3) == 1 && DiamondOf(plan, 2, 0) == plan.output
  {
    OutputNumbers(plan);
    OutputDiamond(plan);
    OneNumber(plan);
  }

  lemma NotNumbered(s: string, lo: nat, hi: nat)
    requires |s| < 5
    ensures !Numbered(s, lo, hi)
  {}

  lemma OutputMisleads(plan: Plan, s: string)
    requires |plan.steps| == 2 && plan.n == 0 && plan.Name(1) == ExprId(0)
    requires plan.Name(0) != ExprId(0) && plan.Name(0) != OUTPUT
    requires Diamonds(plan.Target(0)) == Diamonds(plan.Target(1)) == [] && Diamonds(plan.output) == [plan.output]
    requires forall j | 0 <= j < 2 :: plan.Target(j).Literal?
    requires Mentions(plan.output, s) && |s| < 5
    ensures OnlyClash(plan, 1, 0) && Connected(plan, s, plan.Name(1))
  {
    OutputClash(plan);
    OutputConnects(plan, s);
  }

  lemma OutputConnects(plan: Plan, s: string)
    requires OnlyClash(plan, 1, 0) && |plan.steps| == 2 && |s| < 5
    requires plan.Start(2) == 0 && plan.Start(3) == 1 && DiamondOf(plan, 2, 0) == plan.output
    requires Mentions(plan.output, s)
    ensures Connected(plan, s, plan.Name(1))
  {
    NotNumbered(s, plan.n, plan.End());
    ClashAddsExactly(plan, 1, 0, 2, s);
  }

  lemma ClashingPlan()
    ensures var plan := Clashing();
      && |plan.steps| == 2 && plan.n == 0 && plan.Name(1) == ExprId(0)
      && plan.Name(0) != ExprId(0) && plan.Name(0) != OUTPUT
      && plan.Target(0) == plan.Target(1) == Literal && Diamonds(Literal) == []
      && Diamonds(plan.output) == [plan.output] && Mentions(plan.output, "c")
  {
    NoDiamonds(Literal);
    NoDiamonds(Step("c"));
    OneDiamond(Clashing().output);
    assert |"c"| == 1 && |ExprId(0)| > 5 && |OUTPUT| == 15;
  }

  /** A step that has the name of a diamond seems to depend on what the diamond
    refers to: here it refers to nothing and is shown to depend on step c. */
  lemma ClashMisleads()
    ensures var plan := Clashing();
      OnlyClash(plan, 1, 0) && !Refers(plan.Target(1), "c") && Connected(plan, "c", plan.Name(1))
  {
    ClashingPlan();
    OutputMisleads(Clashing(), "c");
  }
}
