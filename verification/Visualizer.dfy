/** Drawing a flow as a DOT graph.  An expression tree becomes diamonds for its
  conditionals and coalesces, with edges from what each branch depends on; the
  buffer is modelled as the sequence of node and edge statements written. */
module Visualizer {
  import opened Basics

  datatype Expr =
    | Step(step: string)
    | Input
    | Variable(fallback: Option<Expr>)
    | Literal
    | If(cond: Expr, thenBranch: Expr, elseBranch: Option<Expr>)
    | Coalesce(values: seq<Expr>)
    | Array(items: seq<Expr>)
    | Object(fields: seq<(string, Expr)>)

  datatype Kind = InputNode | StepNode | OutputNode | IfNode | CoalesceNode

  datatype Dot =
    | Node(id: string, kind: Kind)
    | Edge(source: string, target: string, caption: string)

  datatype FlowStep = FlowStep(id: string, input: Expr)

  const INPUT := "workflow_input"
  const OUTPUT := "workflow_output"

  /** Where a value comes from, and the path at which it is used. */
  type Sources = seq<(string, string)>

  // --------------------------------------------------------- names and labels

  function Digit(d: nat): char
    requires d < 10
  {
    "0123456789"[d]
  }

  function Decimal(n: nat): string {
    if n < 10 then [Digit(n)] else Decimal(n / 10) + [Digit(n % 10)]
  }

  lemma {:induction false} DecimalIsInjective(a: nat, b: nat)
    requires Decimal(a) == Decimal(b)
    ensures a == b
    decreases a
  {
    var x, y := Decimal(a), Decimal(b);
    assert x[|x| - 1] == Digit(a % 10) && y[|y| - 1] == Digit(b % 10);
    DigitIsInjective(a % 10, b % 10);
    DecimalLength(a);
    DecimalLength(b);
    if a >= 10 && b >= 10 {
      assert x[..|x| - 1] == Decimal(a / 10) && y[..|y| - 1] == Decimal(b / 10);
      DecimalIsInjective(a / 10, b / 10);
    }
  }

  lemma DigitIsInjective(a: nat, b: nat)
    requires a < 10 && b < 10 && Digit(a) == Digit(b)
    ensures a == b
  {}

  lemma {:induction false} DecimalLength(n: nat)
    ensures |Decimal(n)| >= 1 && (|Decimal(n)| == 1 <==> n < 10)
  {
    if n >= 10 {
      DecimalLength(n / 10);
    }
  }

  function ExprId(k: nat): string {
    "expr_" + Decimal(k)
  }

  lemma ExprIdIsInjective(a: nat, b: nat)
    requires ExprId(a) == ExprId(b)
    ensures a == b
  {
    assert ExprId(a)[5..] == Decimal(a) && ExprId(b)[5..] == Decimal(b);
    DecimalIsInjective(a, b);
  }

  function Tagged(tag: string, caption: string): string {
    if caption == "" then tag else tag + ":" + caption
  }

  function IndexPath(path: string, i: nat): string {
    path + "[" + Decimal(i) + "]"
  }

  function FieldPath(path: string, key: string): string {
    if path == "" then key else path + "." + key
  }

  // ------------------------------------------------- what drawing should write

  predicate IsDiamond(e: Expr) {
    e.If? || e.Coalesce?
  }

  /** The children that are visited, each with its branch tag (diamonds) or the
    path of its place (arrays and objects). */
  function Parts(e: Expr, path: string): (parts: seq<(string, Expr)>)
    ensures forall i | 0 <= i < |parts| :: parts[i].1 < e
  {
    match e
    case If(c, t, x) => [("cond", c), ("then", t)] + if x.Some? then [("else", x.value)] else []
    case Coalesce(values) => seq(|values|, (i: nat) requires i < |values| => (Decimal(i), values[i]))
    case Array(items) => seq(|items|, (i: nat) requires i < |items| => (IndexPath(path, i), items[i]))
    case Object(fields) =>
      seq(|fields|, (i: nat) requires i < |fields| => (FieldPath(path, fields[i].0), fields[i].1))
    case _ => []
  }

  datatype Emission = Emission(dot: seq<Dot>, sources: Sources, next: nat)

  function EdgesTo(sources: Sources, target: string, tag: string): seq<Dot> {
    seq(|sources|, (i: nat) requires i < |sources| => Edge(sources[i].0, target, Tagged(tag, sources[i].1)))
  }

  /** Statements for an expression at `path`, with the next free number. */
  function Emit(e: Expr, path: string, n: nat): Emission
    decreases e, 1, 0
  {
    match e
    case Step(step) => Emission([], [(step, path)], n)
    case Input => Emission([], [(INPUT, path)], n)
    case Variable(_) => Emission([], [], n)
    case Literal => Emission([], [], n)
    case Array(_) => EmitParts(e, Parts(e, path), None, n)
    case Object(_) => EmitParts(e, Parts(e, path), None, n)
    case _ =>
      var inner := EmitParts(e, Parts(e, path), Some(ExprId(n)), n + 1);
      Emission([Node(ExprId(n), if e.If? then IfNode else CoalesceNode)] + inner.dot, [(ExprId(n), path)], inner.next)
  }

  /** Statements for the parts of `parent`: either their sources are passed up,
    or edges from them into the diamond `sink` are written at once. */
  function EmitParts(ghost parent: Expr, parts: seq<(string, Expr)>, sink: Option<string>, n: nat): Emission
    requires forall i | 0 <= i < |parts| :: parts[i].1 < parent
    decreases parent, 0, |parts|
  {
    if parts == [] then Emission([], [], n)
    else
      var front := EmitParts(parent, parts[..|parts| - 1], sink, n);
      var (tag, child) := parts[|parts| - 1];
      match sink
      case None =>
        var inner := Emit(child, tag, front.next);
        Emission(front.dot + inner.dot, front.sources + inner.sources, inner.next)
      case Some(id) =>
        var inner := Emit(child, "", front.next);
        Emission(front.dot + inner.dot + EdgesTo(inner.sources, id, tag), [], inner.next)
  }

  /** The edges into a step or the output; a step draws none from itself. */
  function FinalEdges(sources: Sources, target: string, skipSelf: bool): seq<Dot> {
    if sources == [] then []
    else
      var (source, caption) := sources[|sources| - 1];
      FinalEdges(sources[..|sources| - 1], target, skipSelf)
      + if skipSelf && source == target then [] else [Edge(source, target, caption)]
  }

  function EmitTarget(target: string, e: Expr, skipSelf: bool, n: nat): (seq<Dot>, nat) {
    var inner := Emit(e, "", n);
    (inner.dot + FinalEdges(inner.sources, target, skipSelf), inner.next)
  }

  function EmitSteps(steps: seq<FlowStep>, n: nat): (seq<Dot>, nat) {
    if steps == [] then ([], n)
    else
      var (front, m) := EmitSteps(steps[..|steps| - 1], n);
      var last := steps[|steps| - 1];
      var (dot, next) := EmitTarget(last.id, last.input, true, m);
      (front + dot, next)
  }

  function Header(steps: seq<FlowStep>): seq<Dot> {
    [Node(INPUT, InputNode)]
    + seq(|steps|, (i: nat) requires i < |steps| => Node(steps[i].id, StepNode))
    + [Node(OUTPUT, OutputNode)]
  }

  /** The whole drawing, for a counter that starts at `n`. */
  function Drawing(steps: seq<FlowStep>, output: Expr, n: nat): (seq<Dot>, nat) {
    var (edges, m) := EmitSteps(steps, n);
    var (last, next) := EmitTarget(OUTPUT, output, false, m);
    (Header(steps) + edges + last, next)
  }

  /** What one more part adds. */
  lemma NextPart(parent: Expr, parts: seq<(string, Expr)>, i: nat, sink: Option<string>, n: nat)
    requires i < |parts| && forall k | 0 <= k < |parts| :: parts[k].1 < parent
    ensures var front, upTo := EmitParts(parent, parts[..i], sink, n), EmitParts(parent, parts[..i + 1], sink, n);
            var inner := Emit(parts[i].1, if sink.Some? then "" else parts[i].0, front.next);
            && upTo.next == inner.next
            && (sink.None? ==> upTo.dot == front.dot + inner.dot && upTo.sources == front.sources + inner.sources)
            && (sink.Some? ==> upTo.dot == front.dot + inner.dot + EdgesTo(inner.sources, sink.value, parts[i].0))
  {
    assert parts[..i + 1][..i] == parts[..i];
  }

  lemma Regroup<T>(a: seq<T>, b: seq<T>, c: seq<T>)
    ensures a + b + c == a + (b + c)
  {}

  // ------------------------------------------------------------- the visualizer

  class FlowVisualizer {
    const steps: seq<FlowStep>
    const output: Expr
    var exprNodeCounter: nat
    var dot: seq<Dot>

    constructor (steps: seq<FlowStep>, output: Expr)
      ensures this.steps == steps && this.output == output && exprNodeCounter == 0 && dot == []
    {
      this.steps, this.output, exprNodeCounter, dot := steps, output, 0, [];
    }

    method NextExprId() returns (id: string)
      modifies this`exprNodeCounter
      ensures id == ExprId(old(exprNodeCounter)) && exprNodeCounter == old(exprNodeCounter) + 1
    {
      id := ExprId(exprNodeCounter);
      exprNodeCounter := exprNodeCounter + 1;
    }

    /** Edges from the sources of one branch into a diamond. */
    method DrawInto(sources: Sources, target: string, tag: string)
      modifies this`dot
      ensures dot == old(dot) + EdgesTo(sources, target, tag)
    {
      for i := 0 to |sources|
        invariant dot == old(dot) + EdgesTo(sources, target, tag)[..i]
      {
        var (source, caption) := sources[i];
        dot := dot + [Edge(source, target, if caption == "" then tag else tag + ":" + caption)];
      }
    }

    /** The buffer is `start` plus what `e` says, and the counter agrees. */
    ghost predicate Wrote(start: seq<Dot>, e: Emission)
      reads this
    {
      dot == start + e.dot && exprNodeCounter == e.next
    }

    method CollectExprEdges(expr: Expr, path: string) returns (sources: Sources)
      modifies this`dot, this`exprNodeCounter
      ensures Wrote(old(dot), Emit(expr, path, old(exprNodeCounter)))
      ensures sources == Emit(expr, path, old(exprNodeCounter)).sources
      decreases expr, 1
    {
      match expr {
        case If(_, _, _) => sources := CollectIf(expr, path);
        case Coalesce(_) => sources := CollectCoalesce(expr, path);
        case Step(step) => sources := [(step, path)];
        case Input => sources := [(INPUT, path)];
        case Array(_) => sources := CollectArray(expr, path);
        case Object(_) => sources := CollectObject(expr, path);
        case _ => sources := [];
      }
    }

    method CollectArray(expr: Expr, path: string) returns (sources: Sources)
      requires expr.Array?
      modifies this`dot, this`exprNodeCounter
      ensures Wrote(old(dot), Emit(expr, path, old(exprNodeCounter)))
      ensures sources == Emit(expr, path, old(exprNodeCounter)).sources
      decreases expr, 0
    {
      sources := [];
      ghost var n, parts := exprNodeCounter, Parts(expr, path);
      for i := 0 to |expr.items|
        invariant Wrote(old(dot), EmitParts(expr, parts[..i], None, n))
        invariant sources == EmitParts(expr, parts[..i], None, n).sources
      {
        NextPart(expr, parts, i, None, n);
        ghost var front := EmitParts(expr, parts[..i], None, n);
        Regroup(old(dot), front.dot, Emit(parts[i].1, parts[i].0, front.next).dot);
        var edges := CollectExprEdges(expr.items[i], IndexPath(path, i));
        sources := sources + edges;
      }
      assert parts[..|expr.items|] == parts;
    }

    method CollectObject(expr: Expr, path: string) returns (sources: Sources)
      requires expr.Object?
      modifies this`dot, this`exprNodeCounter
      ensures Wrote(old(dot), Emit(expr, path, old(exprNodeCounter)))
      ensures sources == Emit(expr, path, old(exprNodeCounter)).sources
      decreases expr, 0
    {
      sources := [];
      ghost var n, parts := exprNodeCounter, Parts(expr, path);
      for i := 0 to |expr.fields|
        invariant Wrote(old(dot), EmitParts(expr, parts[..i], None, n))
        invariant sources == EmitParts(expr, parts[..i], None, n).sources
      {
        NextPart(expr, parts, i, None, n);
        ghost var front := EmitParts(expr, parts[..i], None, n);
        Regroup(old(dot), front.dot, Emit(parts[i].1, parts[i].0, front.next).dot);
        var edges := CollectExprEdges(expr.fields[i].1, FieldPath(path, expr.fields[i].0));
        sources := sources + edges;
      }
      assert parts[..|expr.fields|] == parts;
    }

    /** Declare the diamond, then draw condition and branches into it; the
      diamond is the only source passed up. */
    method CollectIf(expr: Expr, path: string) returns (sources: Sources)
      requires expr.If?
      modifies this`dot, this`exprNodeCounter
      ensures |dot| > |old(dot)| && dot[|old(dot)|] == Node(ExprId(old(exprNodeCounter)), IfNode)
      ensures sources == [(ExprId(old(exprNodeCounter)), path)]
      ensures Wrote(old(dot), Emit(expr, path, old(exprNodeCounter)))
      ensures sources == Emit(expr, path, old(exprNodeCounter)).sources
      decreases expr, 0
    {
      var id := NextExprId();
      ghost var parts := Parts(expr, path);
      dot := dot + [Node(id, IfNode)];
      ghost var n, start := exprNodeCounter, dot;
      CollectBranch(expr, parts, 0, id, n, start, expr.cond, "cond");
      CollectBranch(expr, parts, 1, id, n, start, expr.thenBranch, "then");
      if expr.elseBranch.Some? {
        CollectBranch(expr, parts, 2, id, n, start, expr.elseBranch.value, "else");
      }
      assert parts[..|parts|] == parts;
      sources := [(id, path)];
    }

    method CollectCoalesce(expr: Expr, path: string) returns (sources: Sources)
      requires expr.Coalesce?
      modifies this`dot, this`exprNodeCounter
      ensures |dot| > |old(dot)| && dot[|old(dot)|] == Node(ExprId(old(exprNodeCounter)), CoalesceNode)
      ensures sources == [(ExprId(old(exprNodeCounter)), path)]
      ensures Wrote(old(dot), Emit(expr, path, old(exprNodeCounter)))
      ensures sources == Emit(expr, path, old(exprNodeCounter)).sources
      decreases expr, 0
    {
      var id := NextExprId();
      ghost var parts := Parts(expr, path);
      dot := dot + [Node(id, CoalesceNode)];
      ghost var n, start := exprNodeCounter, dot;
      for i := 0 to |expr.values|
        invariant Wrote(start, EmitParts(expr, parts[..i], Some(id), n))
      {
        CollectBranch(expr, parts, i, id, n, start, expr.values[i], Decimal(i));
      }
      assert parts[..|parts|] == parts;
      sources := [(id, path)];
    }

    method CollectBranch(ghost parent: Expr, ghost parts: seq<(string, Expr)>, ghost i: nat, id: string, ghost n: nat,
                         ghost start: seq<Dot>, branch: Expr, tag: string)
      requires i < |parts| && parts[i] == (tag, branch) && forall j | 0 <= j < |parts| :: parts[j].1 < parent
      requires Wrote(start, EmitParts(parent, parts[..i], Some(id), n))
      modifies this`dot, this`exprNodeCounter
      ensures Wrote(start, EmitParts(parent, parts[..i + 1], Some(id), n))
      decreases branch, 2
    {
      NextPart(parent, parts, i, Some(id), n);
      ghost var front := EmitParts(parent, parts[..i], Some(id), n);
      ghost var inner := Emit(branch, "", front.next);
      Regroup(start, front.dot, inner.dot);
      Regroup(start, front.dot + inner.dot, EdgesTo(inner.sources, id, tag));
      var sources := CollectExprEdges(branch, "");
      DrawInto(sources, id, tag);
    }

    method DrawFinal(sources: Sources, target: string, skipSelf: bool)
      modifies this`dot
      ensures dot == old(dot) + FinalEdges(sources, target, skipSelf)
    {
      for i := 0 to |sources|
        invariant dot == old(dot) + FinalEdges(sources[..i], target, skipSelf)
      {
        assert sources[..i + 1][..i] == sources[..i];
        var (source, caption) := sources[i];
        if !(skipSelf && source == target) {
          dot := dot + [Edge(source, target, caption)];
        }
      }
      assert sources[..|sources|] == sources;
    }

    /** Everything that is drawn for one step or for the output. */
    method AddTarget(target: string, expr: Expr, skipSelf: bool)
      modifies this`dot, this`exprNodeCounter
      ensures dot == old(dot) + EmitTarget(target, expr, skipSelf, old(exprNodeCounter)).0
      ensures exprNodeCounter == EmitTarget(target, expr, skipSelf, old(exprNodeCounter)).1
    {
      ghost var inner := Emit(expr, "", exprNodeCounter);
      Regroup(dot, inner.dot, FinalEdges(inner.sources, target, skipSelf));
      var sources := CollectExprEdges(expr, "");
      DrawFinal(sources, target, skipSelf);
    }

    method AddEdges()
      modifies this`dot, this`exprNodeCounter
      ensures dot == old(dot) + EmitSteps(steps, old(exprNodeCounter)).0
      ensures exprNodeCounter == EmitSteps(steps, old(exprNodeCounter)).1
    {
      ghost var n := exprNodeCounter;
      for i := 0 to |steps|
        invariant dot == old(dot) + EmitSteps(steps[..i], n).0
        invariant exprNodeCounter == EmitSteps(steps[..i], n).1
      {
        assert steps[..i + 1][..i] == steps[..i];
        Regroup(old(dot), EmitSteps(steps[..i], n).0, EmitTarget(steps[i].id, steps[i].input, true, exprNodeCounter).0);
        AddTarget(steps[i].id, steps[i].input, true);
      }
      assert steps[..|steps|] == steps;
    }

    method AddOutputEdges()
      modifies this`dot, this`exprNodeCounter
      ensures dot == old(dot) + EmitTarget(OUTPUT, output, false, old(exprNodeCounter)).0
      ensures exprNodeCounter == EmitTarget(OUTPUT, output, false, old(exprNodeCounter)).1
    {
      AddTarget(OUTPUT, output, false);
    }

    method GenerateDot() returns (r: seq<Dot>)
      modifies this
      ensures (r, exprNodeCounter) == Drawing(steps, output, old(exprNodeCounter))
      ensures dot == r
    {
      dot := [Node(INPUT, InputNode)];
      for i := 0 to |steps|
        invariant exprNodeCounter == old(exprNodeCounter)
        invariant dot == [Node(INPUT, InputNode)]
                       + seq(i, (k: nat) requires k < i => Node(steps[k].id, StepNode))
      {
        dot := dot + [Node(steps[i].id, StepNode)];
      }
      dot := dot + [Node(OUTPUT, OutputNode)];
      assert dot == Header(steps);
      AddEdges();
      AddOutputEdges();
      r := dot;
    }
  }
}
