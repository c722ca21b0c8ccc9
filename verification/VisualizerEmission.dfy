/** What drawing one expression tree writes: which numbers it uses, which edges
  it draws, how often a diamond is a source, and how its labels are made. */
module VisualizerEmission {
  import opened Basics
  import opened Visualizer

  // -------------------------------------------------------- references in trees

  /** `s` is referred to in `e`, other than in the fallback of a variable. */
  predicate Mentions(e: Expr, s: string) {
    match e
    case Step(step) => s == step
    case Input => s == INPUT
    case Variable(_) => false
    case Literal => false
    case If(c, t, x) => Mentions(c, s) || Mentions(t, s) || (x.Some? && Mentions(x.value, s))
    case Coalesce(values) => exists i | 0 <= i < |values| :: Mentions(values[i], s)
    case Array(items) => exists i | 0 <= i < |items| :: Mentions(items[i], s)
    case Object(fields) => exists i | 0 <= i < |fields| :: Mentions(fields[i].1, s)
  }

  /** Referred to below a conditional or a coalesce. */
  predicate InBranch(e: Expr, s: string) {
    match e
    case If(_, _, _) => Mentions(e, s)
    case Coalesce(_) => Mentions(e, s)
    case Array(items) => exists i | 0 <= i < |items| :: InBranch(items[i], s)
    case Object(fields) => exists i | 0 <= i < |fields| :: InBranch(fields[i].1, s)
    case _ => false
  }

  /** Referred to with only arrays and objects around it. */
  predicate Openly(e: Expr, s: string) {
    match e
    case Step(step) => s == step
    case Input => s == INPUT
    case Array(items) => exists i | 0 <= i < |items| :: Openly(items[i], s)
    case Object(fields) => exists i | 0 <= i < |fields| :: Openly(fields[i].1, s)
    case _ => false
  }

  lemma {:induction false} MentionedSomewhere(e: Expr, s: string)
    ensures Mentions(e, s) <==> InBranch(e, s) || Openly(e, s)
  {
    match e {
      case Array(items) => forall i | 0 <= i < |items|
          ensures Mentions(items[i], s) <==> InBranch(items[i], s) || Openly(items[i], s) {
          MentionedSomewhere(items[i], s);
        }
      case Object(fields) => forall i | 0 <= i < |fields|
          ensures Mentions(fields[i].1, s) <==> InBranch(fields[i].1, s) || Openly(fields[i].1, s) {
          MentionedSomewhere(fields[i].1, s);
        }
      case _ =>
    }
  }

  /** Nothing visited is left out, and nothing else is visited. */
  lemma MentionedInPart(e: Expr, path: string, s: string)
    requires IsDiamond(e)
    ensures Mentions(e, s) <==> exists i | 0 <= i < |Parts(e, path)| :: Mentions(Parts(e, path)[i].1, s)
  {
    var parts := Parts(e, path);
    match e {
      case If(c, t, x) =>
        assert parts[0].1 == c && parts[1].1 == t && (x.Some? ==> parts[2].1 == x.value);
      case Coalesce(values) =>
        assert forall i | 0 <= i < |values| :: parts[i].1 == values[i];
        if Mentions(e, s) {
          var i :| 0 <= i < |values| && Mentions(values[i], s);
          assert Mentions(parts[i].1, s);
        }
    }
  }

  lemma InPart(e: Expr, path: string, s: string)
    requires e.Array? || e.Object?
    ensures InBranch(e, s) <==> exists i | 0 <= i < |Parts(e, path)| :: InBranch(Parts(e, path)[i].1, s)
    ensures Openly(e, s) <==> exists i | 0 <= i < |Parts(e, path)| :: Openly(Parts(e, path)[i].1, s)
  {
    var parts := Parts(e, path);
    match e {
      case Array(items) =>
        assert |parts| == |items| && forall i | 0 <= i < |items| :: parts[i].1 == items[i];
        if InBranch(e, s) { var i :| 0 <= i < |items| && InBranch(items[i], s); assert InBranch(parts[i].1, s); }
        if Openly(e, s) { var i :| 0 <= i < |items| && Openly(items[i], s); assert Openly(parts[i].1, s); }
      case Object(fields) =>
        assert |parts| == |fields| && forall i | 0 <= i < |fields| :: parts[i].1 == fields[i].1;
        if InBranch(e, s) { var i :| 0 <= i < |fields| && InBranch(fields[i].1, s); assert InBranch(parts[i].1, s); }
        if Openly(e, s) { var i :| 0 <= i < |fields| && Openly(fields[i].1, s); assert Openly(parts[i].1, s); }
    }
  }

  // ------------------------------------------------------ where statements come from

  ghost predicate Within(parent: Expr, parts: seq<(string, Expr)>) {
    forall i | 0 <= i < |parts| :: parts[i].1 < parent
  }

  function PartLabel(part: (string, Expr), sink: Option<string>): string {
    if sink.Some? then "" else part.0
  }

  /** The number from which part `i` is drawn. */
  ghost function PartStart(parent: Expr, parts: seq<(string, Expr)>, sink: Option<string>, n: nat, i: nat): nat
    requires Within(parent, parts) && i <= |parts|
  {
    EmitParts(parent, parts[..i], sink, n).next
  }

  ghost function PartEmission(parent: Expr, parts: seq<(string, Expr)>, sink: Option<string>, n: nat, i: nat): Emission
    requires Within(parent, parts) && i < |parts|
  {
    Emit(parts[i].1, PartLabel(parts[i], sink), PartStart(parent, parts, sink, n, i))
  }

  lemma {:induction false} NumbersGrow(e: Expr, path: string, n: nat)
    ensures n <= Emit(e, path, n).next
    decreases e, 1, 0
  {
    match e {
      case Array(_) => PartNumbersGrow(e, Parts(e, path), None, n);
      case Object(_) => PartNumbersGrow(e, Parts(e, path), None, n);
      case If(_, _, _) => PartNumbersGrow(e, Parts(e, path), Some(ExprId(n)), n + 1);
      case Coalesce(_) => PartNumbersGrow(e, Parts(e, path), Some(ExprId(n)), n + 1);
      case _ =>
    }
  }

  lemma {:induction false} PartNumbersGrow(parent: Expr, parts: seq<(string, Expr)>, sink: Option<string>, n: nat)
    requires Within(parent, parts)
    ensures n <= EmitParts(parent, parts, sink, n).next
    decreases parent, 0, |parts|
  {
    if parts != [] {
      var front := parts[..|parts| - 1];
      var (tag, child) := parts[|parts| - 1];
      PartNumbersGrow(parent, front, sink, n);
      NumbersGrow(child, if sink.Some? then "" else tag, EmitParts(parent, front, sink, n).next);
    }
  }

  lemma {:induction false} PartRange(parent: Expr, parts: seq<(string, Expr)>, sink: Option<string>, n: nat, i: nat)
    requires Within(parent, parts) && i < |parts|
    ensures n <= PartStart(parent, parts, sink, n, i) <= PartEmission(parent, parts, sink, n, i).next
    ensures PartEmission(parent, parts, sink, n, i).next <= EmitParts(parent, parts, sink, n).next
    decreases |parts|
  {
    var front := parts[..|parts| - 1];
    PartNumbersGrow(parent, front, sink, n);
    NumbersGrow(parts[|front|].1, PartLabel(parts[|front|], sink), EmitParts(parent, front, sink, n).next);
    if i < |front| {
      assert front[..i] == parts[..i];
      PartRange(parent, front, sink, n, i);
    }
  }

  /** Every statement written for part `i` is there, and so are its sources or
    the edges drawn from them. */
  lemma {:induction false} PartIsDrawn(parent: Expr, parts: seq<(string, Expr)>, sink: Option<string>, n: nat, i: nat)
    requires Within(parent, parts) && i < |parts|
    ensures var all, inner := EmitParts(parent, parts, sink, n), PartEmission(parent, parts, sink, n, i);
            && (forall d | d in inner.dot :: d in all.dot)
            && (sink.None? ==> forall x | x in inner.sources :: x in all.sources)
            && (sink.Some? ==> forall d | d in EdgesTo(inner.sources, sink.value, parts[i].0) :: d in all.dot)
    decreases |parts|
  {
    var front := parts[..|parts| - 1];
    if i < |front| {
      PartIsDrawn(parent, front, sink, n, i);
      assert front[..i] == parts[..i];
    }
  }

  /** Every statement written comes from some part. */
  lemma {:induction false} DotOrigin(parent: Expr, parts: seq<(string, Expr)>, sink: Option<string>, n: nat, d: Dot)
    returns (i: nat)
    requires Within(parent, parts) && d in EmitParts(parent, parts, sink, n).dot
    ensures i < |parts|
    ensures var inner := PartEmission(parent, parts, sink, n, i);
            d in inner.dot || (sink.Some? && d in EdgesTo(inner.sources, sink.value, parts[i].0))
    decreases |parts|
  {
    var front := parts[..|parts| - 1];
    if d in EmitParts(parent, front, sink, n).dot {
      i := DotOrigin(parent, front, sink, n, d);
      assert front[..i] == parts[..i];
    } else {
      i := |front|;
    }
  }

  lemma {:induction false} SourceOrigin(parent: Expr, parts: seq<(string, Expr)>, n: nat, x: (string, string))
    returns (i: nat)
    requires Within(parent, parts) && x in EmitParts(parent, parts, None, n).sources
    ensures i < |parts| && x in PartEmission(parent, parts, None, n, i).sources
    decreases |parts|
  {
    var front := parts[..|parts| - 1];
    if x in EmitParts(parent, front, None, n).sources {
      i := SourceOrigin(parent, front, n, x);
      assert front[..i] == parts[..i];
    } else {
      i := |front|;
    }
  }

  lemma {:induction false} SinkPassesNothingUp(parent: Expr, parts: seq<(string, Expr)>, id: string, n: nat)
    requires Within(parent, parts)
    ensures EmitParts(parent, parts, Some(id), n).sources == []
  {}

  // ------------------------------------------------------------- soundness

  /** `x` is a diamond with a number in the given range. */
  ghost predicate Numbered(x: string, lo: nat, hi: nat) {
    exists k: nat :: lo <= k < hi && x == ExprId(k)
  }

  ghost predicate SourceOk(x: string, e: Expr, n: nat, m: nat) {
    Numbered(x, n, m) || Openly(e, x)
  }

  /** An edge drawn inside an expression leads to one of its diamonds, from a
    diamond with a larger number or from something a branch refers to. */
  ghost predicate EdgeOk(d: Dot, e: Expr, n: nat, m: nat) {
    d.Edge? ==>
      exists k: nat ::
        n <= k < m && d.target == ExprId(k) && (Numbered(d.source, k + 1, m) || InBranch(e, d.source))
  }

  lemma {:induction false} SourcesAreSound(e: Expr, path: string, n: nat, x: (string, string))
    requires x in Emit(e, path, n).sources
    ensures SourceOk(x.0, e, n, Emit(e, path, n).next)
  {
    if e.Array? || e.Object? {
      var parts := Parts(e, path);
      var i := SourceOrigin(e, parts, n, x);
      PartRange(e, parts, None, n, i);
      SourcesAreSound(parts[i].1, parts[i].0, PartStart(e, parts, None, n, i), x);
      InPart(e, path, x.0);
    } else if IsDiamond(e) {
      PartNumbersGrow(e, Parts(e, path), Some(ExprId(n)), n + 1);
      assert x == (ExprId(n), path);
    }
  }

  lemma {:induction false} EdgesAreSound(e: Expr, path: string, n: nat, d: Dot)
    requires d in Emit(e, path, n).dot
    ensures EdgeOk(d, e, n, Emit(e, path, n).next)
    decreases e, 1
  {
    if d.Edge? {
      var parts := Parts(e, path);
      if IsDiamond(e) {
        BranchEdgesAreSound(e, path, n, d);
      } else {
        var i := DotOrigin(e, parts, None, n, d);
        var start, inner := PartStart(e, parts, None, n, i), PartEmission(e, parts, None, n, i);
        PartRange(e, parts, None, n, i);
        EdgesAreSound(parts[i].1, parts[i].0, start, d);
        var k: nat :| start <= k < inner.next && d.target == ExprId(k)
                      && (Numbered(d.source, k + 1, inner.next) || InBranch(parts[i].1, d.source));
        InPart(e, path, d.source);
      }
    }
  }

  lemma {:induction false} BranchEdgesAreSound(e: Expr, path: string, n: nat, d: Dot)
    requires IsDiamond(e) && d.Edge? && d in Emit(e, path, n).dot
    ensures EdgeOk(d, e, n, Emit(e, path, n).next)
    decreases e, 0
  {
    var parts, sink := Parts(e, path), Some(ExprId(n));
    assert d in EmitParts(e, parts, sink, n + 1).dot;
    var i := DotOrigin(e, parts, sink, n + 1, d);
    var start, inner := PartStart(e, parts, sink, n + 1, i), PartEmission(e, parts, sink, n + 1, i);
    PartRange(e, parts, sink, n + 1, i);
    if d in inner.dot {
      EdgesAreSound(parts[i].1, "", start, d);
      InnerEdgeIsSound(e, path, n, i, d, start, inner.next);
    } else {
      SinkEdgeIsSound(e, path, n, i, d);
    }
  }

  /** An edge inside a branch is an edge inside the diamond. */
  lemma InnerEdgeIsSound(e: Expr, path: string, n: nat, i: nat, d: Dot, lo: nat, hi: nat)
    requires IsDiamond(e) && i < |Parts(e, path)| && d.Edge?
    requires n < lo && hi <= Emit(e, path, n).next && EdgeOk(d, Parts(e, path)[i].1, lo, hi)
    ensures EdgeOk(d, e, n, Emit(e, path, n).next)
  {
    var part := Parts(e, path)[i].1;
    var k: nat :| lo <= k < hi && d.target == ExprId(k) && (Numbered(d.source, k + 1, hi) || InBranch(part, d.source));
    MentionedSomewhere(part, d.source);
    MentionedInPart(e, path, d.source);
  }

  /** An edge from a branch into the diamond itself. */
  lemma SinkEdgeIsSound(e: Expr, path: string, n: nat, i: nat, d: Dot)
    requires IsDiamond(e) && i < |Parts(e, path)| && d.Edge?
    requires d in EdgesTo(PartEmission(e, Parts(e, path), Some(ExprId(n)), n + 1, i).sources,
                          ExprId(n), Parts(e, path)[i].0)
    ensures EdgeOk(d, e, n, Emit(e, path, n).next)
  {
    var parts, sink := Parts(e, path), Some(ExprId(n));
    var start, inner := PartStart(e, parts, sink, n + 1, i), PartEmission(e, parts, sink, n + 1, i);
    PartRange(e, parts, sink, n + 1, i);
    var edges := EdgesTo(inner.sources, ExprId(n), parts[i].0);
    var m :| 0 <= m < |edges| && edges[m] == d;
    SourcesAreSound(parts[i].1, "", start, inner.sources[m]);
    MentionedSomewhere(parts[i].1, d.source);
    MentionedInPart(e, path, d.source);
    assert d.target == ExprId(n);
  }

  // ------------------------------------------------------------ completeness

  ghost predicate HasEdge(dot: seq<Dot>, a: string, b: string) {
    exists caption :: Edge(a, b, caption) in dot
  }

  ghost predicate Walk(dot: seq<Dot>, p: seq<string>) {
    p != [] && forall i: nat | i + 1 < |p| :: HasEdge(dot, p[i], p[i + 1])
  }

  /** A walk from `s` on which everything after `s` is a numbered diamond. */
  ghost predicate Trail(dot: seq<Dot>, s: string, p: seq<string>, n: nat, m: nat) {
    && Walk(dot, p)
    && p[0] == s
    && forall i | 1 <= i < |p| :: Numbered(p[i], n, m)
  }

  lemma TrailInLarger(small: seq<Dot>, large: seq<Dot>, s: string, p: seq<string>, lo: nat, hi: nat, n: nat, m: nat)
    requires Trail(small, s, p, lo, hi) && n <= lo && hi <= m
    requires forall d | d in small :: d in large
    ensures Trail(large, s, p, n, m)
  {
    forall i: nat | i + 1 < |p| ensures HasEdge(large, p[i], p[i + 1]) {
      var caption :| Edge(p[i], p[i + 1], caption) in small;
      assert Edge(p[i], p[i + 1], caption) in large;
    }
    forall i | 1 <= i < |p| ensures Numbered(p[i], n, m) {
      assert Numbered(p[i], lo, hi);
    }
  }

  lemma LongerTrail(dot: seq<Dot>, s: string, p: seq<string>, x: string, n: nat, m: nat)
    requires Trail(dot, s, p, n, m) && HasEdge(dot, p[|p| - 1], x) && Numbered(x, n, m)
    ensures Trail(dot, s, p + [x], n, m)
  {
    LongerWalk(dot, p, x);
    forall i | 1 <= i < |p + [x]| ensures Numbered((p + [x])[i], n, m) {
      if i < |p| { assert Numbered(p[i], n, m); }
    }
  }

  lemma LongerWalk(dot: seq<Dot>, p: seq<string>, b: string)
    requires Walk(dot, p) && HasEdge(dot, p[|p| - 1], b)
    ensures Walk(dot, p + [b])
  {
    var q := p + [b];
    forall i: nat | i + 1 < |q| ensures HasEdge(dot, q[i], q[i + 1]) {
      if i + 1 < |p| { assert HasEdge(dot, p[i], p[i + 1]); }
    }
  }

  lemma {:induction false} OpenReferenceIsSource(e: Expr, path: string, n: nat, s: string) returns (caption: string)
    requires Openly(e, s)
    ensures (s, caption) in Emit(e, path, n).sources
  {
    if e.Array? || e.Object? {
      var parts := Parts(e, path);
      InPart(e, path, s);
      var i: nat :| i < |parts| && Openly(parts[i].1, s);
      caption := OpenReferenceIsSource(parts[i].1, parts[i].0, PartStart(e, parts, None, n, i), s);
      PartIsDrawn(e, parts, None, n, i);
    } else {
      caption := path;
    }
  }

  /** A reference in a branch leads through diamonds to a source passed up. */
  lemma {:induction false} BranchReferenceReaches(e: Expr, path: string, n: nat, s: string)
    returns (p: seq<string>, caption: string)
    requires InBranch(e, s)
    ensures |p| >= 2 && Trail(Emit(e, path, n).dot, s, p, n, Emit(e, path, n).next)
    ensures (p[|p| - 1], caption) in Emit(e, path, n).sources
    decreases e, 1
  {
    if IsDiamond(e) {
      p := DiamondIsReached(e, path, n, s);
      caption := path;
    } else {
      var part, partPath, start := PlaceOf(e, path, n, s);
      p, caption := BranchReferenceReaches(part, partPath, start, s);
      var inner := Emit(part, partPath, start);
      TrailInLarger(inner.dot, Emit(e, path, n).dot, s, p, start, inner.next, n, Emit(e, path, n).next);
    }
  }

  /** The child of an array or object that refers to `s` in a branch. */
  lemma {:induction false} PlaceOf(e: Expr, path: string, n: nat, s: string)
      returns (part: Expr, partPath: string, start: nat)
    requires InBranch(e, s) && !IsDiamond(e)
    ensures part < e && InBranch(part, s)
    ensures var all, inner := Emit(e, path, n), Emit(part, partPath, start);
            && n <= start && inner.next <= all.next
            && (forall d | d in inner.dot :: d in all.dot)
            && (forall x | x in inner.sources :: x in all.sources)
  {
    var parts := Parts(e, path);
    InPart(e, path, s);
    var i: nat :| i < |parts| && InBranch(parts[i].1, s);
    PartIsDrawn(e, parts, None, n, i);
    PartRange(e, parts, None, n, i);
    part, partPath, start := parts[i].1, parts[i].0, PartStart(e, parts, None, n, i);
  }

  lemma {:induction false} DiamondIsReached(e: Expr, path: string, n: nat, s: string) returns (p: seq<string>)
    requires IsDiamond(e) && Mentions(e, s)
    ensures |p| >= 2 && Trail(Emit(e, path, n).dot, s, p, n, Emit(e, path, n).next) && p[|p| - 1] == ExprId(n)
    decreases e, 0
  {
    var parts, sink := Parts(e, path), Some(ExprId(n));
    MentionedInPart(e, path, s);
    var i: nat :| i < |parts| && Mentions(parts[i].1, s);
    var q := PartIsReached(parts[i].1, PartStart(e, parts, sink, n + 1, i), s, parts[i].0, ExprId(n));
    ThroughPart(e, path, n, i, s, q);
    p := q + [ExprId(n)];
  }

  /** All that is written for a branch of a diamond, its edges included. */
  ghost function BranchDot(e: Expr, path: string, n: nat, i: nat): seq<Dot>
    requires IsDiamond(e) && i < |Parts(e, path)|
  {
    var inner := PartEmission(e, Parts(e, path), Some(ExprId(n)), n + 1, i);
    inner.dot + EdgesTo(inner.sources, ExprId(n), Parts(e, path)[i].0)
  }

  lemma ThroughPart(e: Expr, path: string, n: nat, i: nat, s: string, q: seq<string>)
    requires IsDiamond(e) && i < |Parts(e, path)|
    requires var parts, sink := Parts(e, path), Some(ExprId(n));
             Trail(BranchDot(e, path, n, i), s, q,
                   PartStart(e, parts, sink, n + 1, i), PartEmission(e, parts, sink, n + 1, i).next)
    requires HasEdge(BranchDot(e, path, n, i), q[|q| - 1], ExprId(n))
    ensures Trail(Emit(e, path, n).dot, s, q + [ExprId(n)], n, Emit(e, path, n).next)
  {
    var parts, sink := Parts(e, path), Some(ExprId(n));
    var start, inner := PartStart(e, parts, sink, n + 1, i), PartEmission(e, parts, sink, n + 1, i);
    var within, all := BranchDot(e, path, n, i), Emit(e, path, n);
    PartIsDrawn(e, parts, sink, n + 1, i);
    PartRange(e, parts, sink, n + 1, i);
    TrailInLarger(within, within, s, q, start, inner.next, n, all.next);
    assert Numbered(ExprId(n), n, all.next);
    LongerTrail(within, s, q, ExprId(n), n, all.next);
    TrailInLarger(within, all.dot, s, q + [ExprId(n)], n, all.next, n, all.next);
  }

  /** A reference in a part leads to the end of one of the part's edges. */
  lemma {:induction false} PartIsReached(part: Expr, start: nat, s: string, tag: string, id: string)
      returns (q: seq<string>)
    requires Mentions(part, s)
    ensures var inner := Emit(part, "", start);
            var within := inner.dot + EdgesTo(inner.sources, id, tag);
            Trail(within, s, q, start, inner.next) && HasEdge(within, q[|q| - 1], id)
    decreases part, 2
  {
    MentionedSomewhere(part, s);
    var inner := Emit(part, "", start);
    var within := inner.dot + EdgesTo(inner.sources, id, tag);
    var caption := "";
    q := [s];
    if Openly(part, s) {
      caption := OpenReferenceIsSource(part, "", start, s);
    } else {
      q, caption := BranchReferenceReaches(part, "", start, s);
      TrailInLarger(inner.dot, within, s, q, start, inner.next, start, inner.next);
    }
    EdgeIntoSink(inner.sources, (q[|q| - 1], caption), id, tag);
    assert Edge(q[|q| - 1], id, Tagged(tag, caption)) in within;
  }

  lemma EdgeIntoSink(sources: Sources, x: (string, string), target: string, tag: string)
    requires x in sources
    ensures Edge(x.0, target, Tagged(tag, x.1)) in EdgesTo(sources, target, tag)
  {
    var i :| 0 <= i < |sources| && sources[i] == x;
    assert EdgesTo(sources, target, tag)[i] == Edge(x.0, target, Tagged(tag, x.1));
  }

  // -------------------------------------------------------- ids and out-edges

  /** The diamonds declared, in the order of their declarations. */
  function Declared(dot: seq<Dot>): seq<string> {
    if dot == [] then []
    else
      Declared(dot[..|dot| - 1])
      + if dot[|dot| - 1].Node? && dot[|dot| - 1].kind in {IfNode, CoalesceNode} then [dot[|dot| - 1].id] else []
  }

  function Ids(n: nat, m: nat): seq<string> {
    if n >= m then [] else Ids(n, m - 1) + [ExprId(m - 1)]
  }

  function OutEdges(dot: seq<Dot>, x: string): nat {
    if dot == [] then 0
    else OutEdges(dot[..|dot| - 1], x) + if dot[|dot| - 1].Edge? && dot[|dot| - 1].source == x then 1 else 0
  }

  function Occurs(sources: Sources, x: string): nat {
    if sources == [] then 0
    else Occurs(sources[..|sources| - 1], x) + if sources[|sources| - 1].0 == x then 1 else 0
  }

  lemma {:induction false} DeclaredSum(a: seq<Dot>, b: seq<Dot>)
    ensures Declared(a + b) == Declared(a) + Declared(b)
  {
    if b == [] {
      assert a + b == a;
    } else {
      assert (a + b)[..|a + b| - 1] == a + b[..|b| - 1];
      DeclaredSum(a, b[..|b| - 1]);
    }
  }

  lemma {:induction false} OutEdgesSum(a: seq<Dot>, b: seq<Dot>, x: string)
    ensures OutEdges(a + b, x) == OutEdges(a, x) + OutEdges(b, x)
  {
    if b == [] {
      assert a + b == a;
    } else {
      assert (a + b)[..|a + b| - 1] == a + b[..|b| - 1];
      OutEdgesSum(a, b[..|b| - 1], x);
    }
  }

  lemma {:induction false} OccursSum(a: Sources, b: Sources, x: string)
    ensures Occurs(a + b, x) == Occurs(a, x) + Occurs(b, x)
  {
    if b == [] {
      assert a + b == a;
    } else {
      assert (a + b)[..|a + b| - 1] == a + b[..|b| - 1];
      OccursSum(a, b[..|b| - 1], x);
    }
  }

  lemma {:induction false} IdsSum(a: nat, b: nat, c: nat)
    requires a <= b <= c
    ensures Ids(a, b) + Ids(b, c) == Ids(a, c)
  {
    if b < c {
      IdsSum(a, b, c - 1);
      assert Ids(a, b) + (Ids(b, c - 1) + [ExprId(c - 1)]) == Ids(a, c - 1) + [ExprId(c - 1)];
    }
  }

  lemma {:induction false} EdgesToCounts(sources: Sources, target: string, tag: string, x: string)
    ensures OutEdges(EdgesTo(sources, target, tag), x) == Occurs(sources, x)
    ensures Declared(EdgesTo(sources, target, tag)) == []
  {
    if sources != [] {
      var front := sources[..|sources| - 1];
      EdgesToCounts(front, target, tag, x);
      assert EdgesTo(sources, target, tag)[..|sources| - 1] == EdgesTo(front, target, tag);
    }
  }

  /** One generation declares a gap-free range of ids, in order. */
  lemma {:induction false} DeclaredAreConsecutive(e: Expr, path: string, n: nat)
    ensures n <= Emit(e, path, n).next && Declared(Emit(e, path, n).dot) == Ids(n, Emit(e, path, n).next)
    decreases e, 1, 0
  {
    var parts := Parts(e, path);
    if IsDiamond(e) {
      PartsDeclareConsecutive(e, parts, Some(ExprId(n)), n + 1);
      var inner := EmitParts(e, parts, Some(ExprId(n)), n + 1);
      var node := [Node(ExprId(n), if e.If? then IfNode else CoalesceNode)];
      DeclaredSum(node, inner.dot);
      IdsSum(n, n + 1, inner.next);
      assert Declared(node) == [ExprId(n)] by { assert node[..0] == []; }
      assert Ids(n, n + 1) == [ExprId(n)];
    } else if e.Array? || e.Object? {
      PartsDeclareConsecutive(e, parts, None, n);
    }
  }

  lemma {:induction false} PartsDeclareConsecutive(parent: Expr, parts: seq<(string, Expr)>,
                                                   sink: Option<string>, n: nat)
    requires Within(parent, parts)
    ensures var all := EmitParts(parent, parts, sink, n); n <= all.next && Declared(all.dot) == Ids(n, all.next)
    decreases parent, 0, |parts|
  {
    if parts != [] {
      var front := EmitParts(parent, parts[..|parts| - 1], sink, n);
      var (tag, child) := parts[|parts| - 1];
      var inner := Emit(child, if sink.Some? then "" else tag, front.next);
      PartsDeclareConsecutive(parent, parts[..|parts| - 1], sink, n);
      DeclaredAreConsecutive(child, if sink.Some? then "" else tag, front.next);
      DeclaredSum(front.dot, inner.dot);
      IdsSum(n, front.next, inner.next);
      if sink.Some? {
        EdgesToCounts(inner.sources, sink.value, tag, "");
        DeclaredSum(front.dot + inner.dot, EdgesTo(inner.sources, sink.value, tag));
      }
    }
  }

  /** `x` is a source once if its number is in the range, never otherwise. */
  predicate SourceOnce(dot: seq<Dot>, sources: Sources, n: nat, m: nat, k: nat) {
    n <= m && OutEdges(dot, ExprId(k)) + Occurs(sources, ExprId(k)) == if n <= k < m then 1 else 0
  }

  /** A diamond is a source exactly once: of an edge drawn here, or of the one
    edge that whoever takes the sources will draw. */
  lemma {:induction false} DiamondIsSourceOnce(e: Expr, path: string, n: nat, k: nat)
    requires !Mentions(e, ExprId(k))
    ensures SourceOnce(Emit(e, path, n).dot, Emit(e, path, n).sources, n, Emit(e, path, n).next, k)
    decreases e, 1, 0
  {
    var parts, x := Parts(e, path), ExprId(k);
    if IsDiamond(e) {
      MentionedInPart(e, path, x);
      PartsAreSourcesOnce(e, parts, Some(ExprId(n)), n + 1, k);
      OwnDeclaration(e, path, n, k);
    } else if e.Array? || e.Object? {
      MentionedSomewhere(e, x);
      InPart(e, path, x);
      forall i | 0 <= i < |parts| ensures !Mentions(parts[i].1, x) { MentionedSomewhere(parts[i].1, x); }
      PartsAreSourcesOnce(e, parts, None, n, k);
    } else {
      assert Emit(e, path, n).sources != [] ==> Emit(e, path, n).sources[..0] == [];
    }
  }

  lemma {:induction false} OwnDeclaration(e: Expr, path: string, n: nat, k: nat)
    requires IsDiamond(e)
    requires var inner := EmitParts(e, Parts(e, path), Some(ExprId(n)), n + 1);
             SourceOnce(inner.dot, inner.sources, n + 1, inner.next, k)
    ensures SourceOnce(Emit(e, path, n).dot, Emit(e, path, n).sources, n, Emit(e, path, n).next, k)
  {
    var inner := EmitParts(e, Parts(e, path), Some(ExprId(n)), n + 1);
    SinkPassesNothingUp(e, Parts(e, path), ExprId(n), n + 1);
    var node := [Node(ExprId(n), if e.If? then IfNode else CoalesceNode)];
    OutEdgesSum(node, inner.dot, ExprId(k));
    assert node[..0] == [] && [(ExprId(n), path)][..0] == [];
    if ExprId(k) == ExprId(n) { ExprIdIsInjective(k, n); }
  }

  lemma {:induction false} PartsAreSourcesOnce(parent: Expr, parts: seq<(string, Expr)>, sink: Option<string>,
                                               n: nat, k: nat)
    requires Within(parent, parts) && forall i | 0 <= i < |parts| :: !Mentions(parts[i].1, ExprId(k))
    ensures var all := EmitParts(parent, parts, sink, n); SourceOnce(all.dot, all.sources, n, all.next, k)
    decreases parent, 0, |parts|
  {
    if parts != [] {
      var x := ExprId(k);
      var front := EmitParts(parent, parts[..|parts| - 1], sink, n);
      var (tag, child) := parts[|parts| - 1];
      var inner := Emit(child, if sink.Some? then "" else tag, front.next);
      PartsAreSourcesOnce(parent, parts[..|parts| - 1], sink, n, k);
      DiamondIsSourceOnce(child, if sink.Some? then "" else tag, front.next, k);
      OutEdgesSum(front.dot, inner.dot, x);
      OccursSum(front.sources, inner.sources, x);
      if sink.Some? {
        SinkPassesNothingUp(parent, parts[..|parts| - 1], sink.value, n);
        EdgesToCounts(inner.sources, sink.value, tag, x);
        OutEdgesSum(front.dot + inner.dot, EdgesTo(inner.sources, sink.value, tag), x);
      }
    }
  }

  lemma NotNumberedWithin(s: string, lo: nat, hi: nat, n: nat, m: nat)
    requires !Numbered(s, n, m) && n <= lo && hi <= m
    ensures !Numbered(s, lo, hi)
  {}
}
