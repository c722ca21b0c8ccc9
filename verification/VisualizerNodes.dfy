/** Which nodes a drawing declares, and their kinds. */
module VisualizerNodes {
  import opened Basics
  import opened Visualizer
  import opened VisualizerClashes
  import opened VisualizerEmission
  import opened VisualizerGraph
  import opened VisualizerShape

  /** The node that stands for a conditional or a coalesce. */
  function DiamondNode(e: Expr, k: nat): Dot {
    Node(ExprId(k), if e.If? then IfNode else CoalesceNode)
  }

  lemma {:induction false} DeclaredId(dot: seq<Dot>, d: Dot)
    requires d in dot && d.Node? && d.kind in {IfNode, CoalesceNode}
    ensures d.id in Declared(dot)
    decreases |dot|
  {
    if d != dot[|dot| - 1] {
      DeclaredId(dot[..|dot| - 1], d);
    }
  }

  /** Declarations of distinct ids differ in more than their kind. */
  lemma {:induction false} DeclaredOnce(dot: seq<Dot>, c: Dot, d: Dot)
    requires c in dot && c.Node? && c.kind in {IfNode, CoalesceNode}
    requires d in dot && d.Node? && d.kind in {IfNode, CoalesceNode}
    requires c.id == d.id && forall i, j | 0 <= i < j < |Declared(dot)| :: Declared(dot)[i] != Declared(dot)[j]
    ensures c == d
    decreases |dot|
  {
    var front, last := dot[..|dot| - 1], dot[|dot| - 1];
    assert dot == front + [last];
    if c == last && d != last {
      DeclaredId(front, d);
      LastIsNew(front, last, d.id);
    } else if d == last && c != last {
      DeclaredId(front, c);
      LastIsNew(front, last, c.id);
    } else if c != last {
      assert forall i | 0 <= i < |Declared(front)| :: Declared(front)[i] == Declared(dot)[i];
      DeclaredOnce(front, c, d);
    }
  }

  lemma LastIsNew(front: seq<Dot>, last: Dot, id: string)
    requires last.Node? && last.kind in {IfNode, CoalesceNode} && last.id == id
    requires forall i, j | 0 <= i < j < |Declared(front + [last])| ::
               Declared(front + [last])[i] != Declared(front + [last])[j]
    ensures id !in Declared(front)
  {
    assert (front + [last])[..|front|] == front;
    var before := Declared(front);
    assert Declared(front + [last]) == before + [id];
    forall i | 0 <= i < |before| ensures before[i] != id {
      assert (before + [id])[i] != (before + [id])[|before|];
    }
  }

  /** The diamonds of one target stand together among those of all. */
  lemma {:induction false} DiamondsTogether(plan: Plan, j: nat, o: nat) returns (rest: seq<Expr>)
    requires o < j
    ensures AllDiamonds(plan, j) == AllDiamonds(plan, o) + Diamonds(plan.Target(o)) + rest
    decreases j
  {
    var i: nat := j - 1;
    var last := Diamonds(plan.Target(i));
    assert AllDiamonds(plan, j) == AllDiamonds(plan, i) + last;
    if o == i {
      rest := [];
      Regroup(AllDiamonds(plan, o), last, []);
    } else {
      var front := DiamondsTogether(plan, i, o);
      rest := front + last;
      Regroup(AllDiamonds(plan, o) + Diamonds(plan.Target(o)), front, last);
    }
  }

  lemma MiddleAt(all: seq<Expr>, a: seq<Expr>, b: seq<Expr>, c: seq<Expr>, i: nat, x: nat)
    requires all == a + b + c && x < |b| && i == |a| + x
    ensures i < |all| && all[i] == b[x]
  {}

  lemma NumberedAt(plan: Plan, j: nat, o: nat, start: nat, k: nat)
    requires o < j && start == plan.n + |AllDiamonds(plan, o)|
    requires start <= k && k - start < |Diamonds(plan.Target(o))|
    ensures plan.n <= k && k - plan.n < |AllDiamonds(plan, j)|
    ensures AllDiamonds(plan, j)[k - plan.n] == Diamonds(plan.Target(o))[k - start]
  {
    var rest := DiamondsTogether(plan, j, o);
    MiddleAt(AllDiamonds(plan, j), AllDiamonds(plan, o), Diamonds(plan.Target(o)), rest, k - plan.n, k - start);
  }

  lemma DiamondAt(plan: Plan, j: nat, o: nat, k: nat)
    requires o < j <= |plan.steps| + 1 && plan.Start(o) <= k < plan.Start(o + 1)
    ensures plan.n <= k && k - plan.n < |AllDiamonds(plan, j)|
    ensures AllDiamonds(plan, j)[k - plan.n] == DiamondOf(plan, o, k)
  {
    DiamondIs(plan, o, k);
    NumbersBefore(plan, o);
    NumberedAt(plan, j, o, plan.Start(o), k);
  }

  lemma DiamondDeclared(plan: Plan, o: nat, k: nat)
    requires o <= |plan.steps| && plan.Start(o) <= k < plan.Start(o + 1)
    ensures IsDiamond(DiamondOf(plan, o, k)) && DiamondNode(DiamondOf(plan, o, k), k) in plan.Dot()
  {
    var sub := DiamondOf(plan, o, k);
    DiamondPlace(plan, k, o);
    assert DiamondNode(sub, k) in Emit(sub, "", k).dot;
    StartStep(plan, o);
    TargetIsDrawn(plan, o, DiamondNode(sub, k));
  }
  lemma {:induction false} DiamondNumbered(plan: Plan, i: nat) returns (o: nat)
    requires i < |AllDiamonds(plan, |plan.steps| + 1)|
    ensures o <= |plan.steps| && plan.Start(o) <= plan.n + i < plan.Start(o + 1)
    ensures AllDiamonds(plan, |plan.steps| + 1)[i] == DiamondOf(plan, o, plan.n + i)
  {
    var m := |plan.steps| + 1;
    NumbersBefore(plan, 0);
    NumbersBefore(plan, m);
    o := OwnerOf(plan, plan.n + i, m);
    DiamondAt(plan, m, o, plan.n + i);
  }

  /** After the header only diamonds are declared. */
  lemma LaterNodes(plan: Plan, d: Dot)
    requires d in plan.Dot()[|plan.steps| + 2..]
    ensures IsDiamondNode(d)
  {
    var (edges, m) := EmitSteps(plan.steps, plan.n);
    if d in edges {
      var j := StepsOrigin(plan.steps, plan.n, d);
      TargetIsDiamonds(plan.steps[j].id, plan.steps[j].input, true, EmitSteps(plan.steps[..j], plan.n).1, d);
    } else {
      TargetIsDiamonds(OUTPUT, plan.output, false, m, d);
    }
  }

  lemma {:induction false} DeclaredNumber(plan: Plan, d: Dot) returns (i: nat)
    requires d in plan.Dot() && d.Node? && d.kind in {IfNode, CoalesceNode}
    ensures i < |AllDiamonds(plan, |plan.steps| + 1)| && d.id == ExprId(plan.n + i)
  {
    DrawingDeclares(plan);
    DeclaredId(plan.Dot(), d);
    NumbersBefore(plan, |plan.steps| + 1);
    i :| 0 <= i < |Declared(plan.Dot())| && Declared(plan.Dot())[i] == d.id;
  }

  lemma SameDeclaration(plan: Plan, c: Dot, d: Dot)
    requires c in plan.Dot() && c.Node? && c.kind in {IfNode, CoalesceNode}
    requires d in plan.Dot() && d.Node? && d.kind in {IfNode, CoalesceNode}
    requires c.id == d.id
    ensures c == d
  {
    DrawingDeclares(plan);
    DeclaredOnce(plan.Dot(), c, d);
  }

  lemma {:induction false} NodeIsDiamond(plan: Plan, d: Dot) returns (i: nat)
    requires d in plan.Dot() && d.Node? && d.kind in {IfNode, CoalesceNode}
    ensures i < |AllDiamonds(plan, |plan.steps| + 1)|
    ensures d == DiamondNode(AllDiamonds(plan, |plan.steps| + 1)[i], plan.n + i)
  {
    i := DeclaredNumber(plan, d);
    var o := DiamondNumbered(plan, i);
    DiamondDeclared(plan, o, plan.n + i);
    SameDeclaration(plan, d, DiamondNode(DiamondOf(plan, o, plan.n + i), plan.n + i));
  }

  lemma DiamondNodesDrawn(plan: Plan)
    ensures var diamonds := AllDiamonds(plan, |plan.steps| + 1);
      forall i: nat | i < |diamonds| :: IsDiamond(diamonds[i]) && DiamondNode(diamonds[i], plan.n + i) in plan.Dot()
  {
    var diamonds := AllDiamonds(plan, |plan.steps| + 1);
    forall i: nat | i < |diamonds|
      ensures IsDiamond(diamonds[i]) && DiamondNode(diamonds[i], plan.n + i) in plan.Dot()
    {
      var o := DiamondNumbered(plan, i);
      DiamondDeclared(plan, o, plan.n + i);
    }
  }

  lemma HeaderDrawn(plan: Plan)
    ensures var dot, m := plan.Dot(), |plan.steps|;
      && |dot| >= m + 2
      && dot[0] == Node("workflow_input", InputNode) && dot[m + 1] == Node("workflow_output", OutputNode)
      && (forall i: nat | i < m :: dot[1 + i] == Node(plan.steps[i].id, StepNode))
  {
    assert plan.Dot()[..|plan.steps| + 2] == Header(plan.steps);
  }

  /** A drawing declares the input, every step, the output, and then exactly one
    node for each conditional and coalesce of the flow, numbered in visiting
    order; every node has its own kind. */
  lemma NodesDrawn(plan: Plan)
    ensures var dot, m := plan.Dot(), |plan.steps|;
      && |dot| >= m + 2
      && dot[0] == Node("workflow_input", InputNode) && dot[m + 1] == Node("workflow_output", OutputNode)
      && (forall i: nat | i < m :: dot[1 + i] == Node(plan.steps[i].id, StepNode))
    ensures var diamonds := AllDiamonds(plan, |plan.steps| + 1);
      && (forall i: nat | i < |diamonds| ::
            && IsDiamond(diamonds[i])
            && Node(ExprId(plan.n + i), if diamonds[i].If? then IfNode else CoalesceNode) in plan.Dot())
      && (forall d | d in plan.Dot()[|plan.steps| + 2..] && d.Node? ::
            exists i: nat ::
              i < |diamonds|
              && d == Node(ExprId(plan.n + i), if diamonds[i].If? then IfNode else CoalesceNode))
  {
    HeaderDrawn(plan);
    DiamondNodesDrawn(plan);
    var diamonds := AllDiamonds(plan, |plan.steps| + 1);
    forall d | d in plan.Dot()[|plan.steps| + 2..] && d.Node?
      ensures exists i: nat :: i < |diamonds| && d == DiamondNode(diamonds[i], plan.n + i)
    {
      LaterNodes(plan, d);
      var i := NodeIsDiamond(plan, d);
    }
  }
}
