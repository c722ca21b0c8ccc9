/** Partial matching: the recorded value must be contained in the actual one.
  `ContainedUpToVolatile` says what the test's verdict means without rewriting
  or sorting anything; the verdict the code computes is compared with it. */
module SnapshotMatch {
  import opened Basics
  import opened Ordering
  import opened JsonValues
  import opened FlowResults
  import opened SnapshotNormalize

  predicate PartialMatch(expected: Json, actual: Json)
    decreases expected
  {
    if expected.Obj? && actual.Obj? then
      forall i | 0 <= i < |expected.fields| ::
        var v := Get(actual.fields, expected.fields[i].0);
        v.Some? && PartialMatch(expected.fields[i].1, v.value)
    else if expected.Arr? && actual.Arr? then
      |expected.items| == |actual.items|
      && forall i | 0 <= i < |expected.items| :: PartialMatch(expected.items[i], actual.items[i])
    else expected == actual
  }

  predicate PartialMatchResult(expected: FlowResult, actual: FlowResult) {
    match (expected, actual)
    case (Success(e), Success(a)) => PartialMatch(e, a)
    case (Failed(eCode, eMessage, eData), Failed(aCode, aMessage, aData)) =>
      && eCode == aCode
      && eMessage == aMessage
      && (eData.Some? ==> aData.Some? && PartialMatch(eData.value, aData.value))
    case _ => false
  }

  /** Containment that ignores backtraces and the value of string run ids. */
  predicate ContainedUpToVolatile(e: Json, a: Json)
    decreases e, 0
  {
    if e.Obj? && a.Obj? then
      forall i | 0 <= i < |e.fields| && e.fields[i].0 != "backtrace" ::
        var v := Get(a.fields, e.fields[i].0);
        v.Some? && FieldContained(e.fields[i].0, e.fields[i].1, v.value)
    else if e.Arr? && a.Arr? then
      |e.items| == |a.items| && forall i | 0 <= i < |e.items| :: ContainedUpToVolatile(e.items[i], a.items[i])
    else e == a
  }

  predicate FieldContained(key: string, e: Json, a: Json)
    decreases e, 1
  {
    (key == "run_id" && e.Str? && a.Str?) || ContainedUpToVolatile(e, a)
  }

  predicate WellFormedResult(r: FlowResult) {
    match r
    case Success(j) => WellFormed(j)
    case Failed(_, _, data) => data.Some? ==> WellFormed(data.value)
  }

  // ----------------------------------------------------------- the match order

  lemma {:induction false} MatchReflexive(j: Json)
    requires WellFormed(j)
    ensures PartialMatch(j, j)
  {
    match j {
      case Arr(items) =>
        forall i | 0 <= i < |items| ensures PartialMatch(items[i], items[i]) { MatchReflexive(items[i]); }
      case Obj(fields) =>
        forall i | 0 <= i < |fields|
          ensures Get(fields, fields[i].0) == Some(fields[i].1) && PartialMatch(fields[i].1, fields[i].1)
        {
          GetField(fields, i);
          MatchReflexive(fields[i].1);
        }
      case _ =>
    }
  }

  lemma {:induction false} MatchTransitive(a: Json, b: Json, c: Json)
    requires PartialMatch(a, b) && PartialMatch(b, c)
    ensures PartialMatch(a, c)
    decreases a
  {
    match a {
      case Arr(items) =>
        forall i | 0 <= i < |items| ensures PartialMatch(items[i], c.items[i]) {
          MatchTransitive(items[i], b.items[i], c.items[i]);
        }
      case Obj(fields) =>
        forall i | 0 <= i < |fields|
          ensures var v := Get(c.fields, fields[i].0); v.Some? && PartialMatch(fields[i].1, v.value)
        {
          var inB := Get(b.fields, fields[i].0);
          var n :| 0 <= n < |b.fields| && b.fields[n] == (fields[i].0, inB.value);
          assert Get(c.fields, b.fields[n].0).Some?;
          MatchTransitive(fields[i].1, inB.value, Get(c.fields, fields[i].0).value);
        }
      case _ =>
    }
  }

  /** Two values contain each other exactly when they are equal as JSON. */
  lemma {:induction false} MutualMatchIsSame(a: Json, b: Json)
    requires WellFormed(a) && WellFormed(b)
    ensures PartialMatch(a, b) && PartialMatch(b, a) <==> Same(a, b)
    decreases a
  {
    if a.Arr? && b.Arr? && |a.items| == |b.items| {
      forall i | 0 <= i < |a.items|
        ensures PartialMatch(a.items[i], b.items[i]) && PartialMatch(b.items[i], a.items[i])
            <==> Same(a.items[i], b.items[i])
      {
        MutualMatchIsSame(a.items[i], b.items[i]);
      }
    } else if a.Obj? && b.Obj? {
      SharedFields(a.fields, b.fields);
      forall i, n | 0 <= i < |a.fields| && 0 <= n < |b.fields| && a.fields[i].0 == b.fields[n].0
        ensures PartialMatch(a.fields[i].1, b.fields[n].1) && PartialMatch(b.fields[n].1, a.fields[i].1)
            <==> Same(a.fields[i].1, b.fields[n].1)
      {
        MutualMatchIsSame(a.fields[i].1, b.fields[n].1);
      }
      if PartialMatch(a, b) && PartialMatch(b, a) {
        MutualMatchGivesSame(a, b);
      }
      if Same(a, b) {
        SameGivesMutualMatch(a, b);
      }
    }
  }

  predicate FieldwiseIff(a: Fields, b: Fields) {
    forall i, n | 0 <= i < |a| && 0 <= n < |b| && a[i].0 == b[n].0 ::
      (PartialMatch(a[i].1, b[n].1) && PartialMatch(b[n].1, a[i].1) <==> Same(a[i].1, b[n].1))
  }

  lemma SharedFields(a: Fields, b: Fields)
    requires UniqueKeys(a) && UniqueKeys(b)
    ensures forall i, n | 0 <= i < |a| && 0 <= n < |b| && a[i].0 == b[n].0 ::
              Get(b, a[i].0) == Some(b[n].1) && Get(a, b[n].0) == Some(a[i].1)
  {
    forall i, n | 0 <= i < |a| && 0 <= n < |b| && a[i].0 == b[n].0
      ensures Get(b, a[i].0) == Some(b[n].1) && Get(a, b[n].0) == Some(a[i].1)
    {
      GetField(a, i);
      GetField(b, n);
    }
  }

  lemma MutualMatchGivesSame(a: Json, b: Json)
    requires a.Obj? && b.Obj? && WellFormed(a) && WellFormed(b)
    requires FieldwiseIff(a.fields, b.fields) && PartialMatch(a, b) && PartialMatch(b, a)
    ensures Same(a, b)
  {
    SharedFields(a.fields, b.fields);
    forall i | 0 <= i < |a.fields|
      ensures var v := Get(b.fields, a.fields[i].0); v.Some? && Same(a.fields[i].1, v.value)
    {
      var n :| 0 <= n < |b.fields| && b.fields[n] == (a.fields[i].0, Get(b.fields, a.fields[i].0).value);
    }
  }

  lemma SameGivesMutualMatch(a: Json, b: Json)
    requires a.Obj? && b.Obj? && WellFormed(a) && WellFormed(b)
    requires FieldwiseIff(a.fields, b.fields) && Same(a, b)
    ensures PartialMatch(a, b) && PartialMatch(b, a)
  {
    SharedFields(a.fields, b.fields);
    forall i | 0 <= i < |a.fields|
      ensures var v := Get(b.fields, a.fields[i].0); v.Some? && PartialMatch(a.fields[i].1, v.value)
    {
      var n :| 0 <= n < |b.fields| && b.fields[n] == (a.fields[i].0, Get(b.fields, a.fields[i].0).value);
    }
    forall n | 0 <= n < |b.fields|
      ensures var v := Get(a.fields, b.fields[n].0); v.Some? && PartialMatch(b.fields[n].1, v.value)
    {
      var i :| 0 <= i < |a.fields| && a.fields[i] == (b.fields[n].0, Get(a.fields, b.fields[n].0).value);
    }
  }

  // ------------------------------------------------------ what a verdict means

  /** The verdict on normalized values is containment up to the volatile parts. */
  lemma {:induction false} VerdictMeansContained(e: Json, a: Json)
    requires WellFormed(e) && WellFormed(a)
    ensures PartialMatch(Normalize(e), Normalize(a)) <==> ContainedUpToVolatile(e, a)
    decreases e
  {
    if e.Arr? && a.Arr? && |e.items| == |a.items| {
      forall i | 0 <= i < |e.items|
        ensures PartialMatch(Normalize(e).items[i], Normalize(a).items[i])
          <==> ContainedUpToVolatile(e.items[i], a.items[i])
      {
        VerdictMeansContained(e.items[i], a.items[i]);
      }
    } else if e.Obj? && a.Obj? {
      forall i | 0 <= i < |e.fields| && Get(a.fields, e.fields[i].0).Some?
        ensures FieldVerdict(e.fields[i].0, e.fields[i].1, Get(a.fields, e.fields[i].0).value)
      {
        FieldIsWellFormed(a.fields, e.fields[i].0);
        VerdictMeansContained(e.fields[i].1, Get(a.fields, e.fields[i].0).value);
      }
      if ContainedUpToVolatile(e, a) {
        ContainedGivesMatch(e, a);
      }
      if PartialMatch(Normalize(e), Normalize(a)) {
        MatchGivesContained(e, a);
      }
    }
  }

  /** The statement for one field, once its value is dealt with. */
  predicate FieldVerdict(key: string, e: Json, a: Json) {
    var ne, na := NormalizeField(key, e), NormalizeField(key, a);
    && (ne.None? <==> key == "backtrace")
    && (na.None? <==> key == "backtrace")
    && (ne.Some? ==> (PartialMatch(ne.value, na.value) <==> FieldContained(key, e, a)))
  }

  predicate FieldVerdicts(e: Fields, a: Fields) {
    forall i | 0 <= i < |e| && Get(a, e[i].0).Some? :: FieldVerdict(e[i].0, e[i].1, Get(a, e[i].0).value)
  }

  lemma ContainedGivesMatch(e: Json, a: Json)
    requires e.Obj? && a.Obj? && WellFormed(e) && WellFormed(a)
    requires FieldVerdicts(e.fields, a.fields) && ContainedUpToVolatile(e, a)
    ensures PartialMatch(Normalize(e), Normalize(a))
  {
    var ne, na := Normalize(e).fields, Normalize(a).fields;
    forall i | 0 <= i < |ne|
      ensures var v := Get(na, ne[i].0); v.Some? && PartialMatch(ne[i].1, v.value)
    {
      NormalizedEntry(e.fields, i);
      var k := ne[i].0;
      var n :| 0 <= n < |e.fields| && e.fields[n] == (k, Get(e.fields, k).value);
      assert FieldContained(k, e.fields[n].1, Get(a.fields, k).value);
      assert FieldVerdict(e.fields[n].0, e.fields[n].1, Get(a.fields, e.fields[n].0).value);
      NormalizedField(a.fields, k);
    }
  }

  lemma MatchGivesContained(e: Json, a: Json)
    requires e.Obj? && a.Obj? && WellFormed(e) && WellFormed(a)
    requires FieldVerdicts(e.fields, a.fields) && PartialMatch(Normalize(e), Normalize(a))
    ensures ContainedUpToVolatile(e, a)
  {
    var ne, na := Normalize(e).fields, Normalize(a).fields;
    forall i | 0 <= i < |e.fields| && e.fields[i].0 != "backtrace"
      ensures var v := Get(a.fields, e.fields[i].0); v.Some? && FieldContained(e.fields[i].0, e.fields[i].1, v.value)
    {
      var k := e.fields[i].0;
      GetField(e.fields, i);
      NormalizedField(e.fields, k);
      NormalizedField(a.fields, k);
      var n :| 0 <= n < |ne| && ne[n] == (k, Get(ne, k).value);
      assert Get(na, ne[n].0).Some?;
      assert FieldVerdict(k, e.fields[i].1, Get(a.fields, k).value);
    }
  }

  lemma {:induction false} MatchIsContained(e: Json, a: Json)
    requires PartialMatch(e, a)
    ensures ContainedUpToVolatile(e, a)
    decreases e
  {
    if e.Arr? && a.Arr? {
      forall i | 0 <= i < |e.items| ensures ContainedUpToVolatile(e.items[i], a.items[i]) {
        MatchIsContained(e.items[i], a.items[i]);
      }
    } else if e.Obj? && a.Obj? {
      forall i | 0 <= i < |e.fields|
        ensures ContainedUpToVolatile(e.fields[i].1, Get(a.fields, e.fields[i].0).value)
      {
        MatchIsContained(e.fields[i].1, Get(a.fields, e.fields[i].0).value);
      }
    }
  }

  /** Normalizing both sides never turns a match into a mismatch. */
  lemma NormalizePreservesMatch(e: Json, a: Json)
    requires WellFormed(e) && WellFormed(a) && PartialMatch(e, a)
    ensures PartialMatch(Normalize(e), Normalize(a))
  {
    MatchIsContained(e, a);
    VerdictMeansContained(e, a);
  }

  /** What normalization forgets: exactly what containment ignores. */
  lemma NormalFormsCoincideIff(a: Json, b: Json)
    requires WellFormed(a) && WellFormed(b)
    ensures Normalize(a) == Normalize(b) <==> ContainedUpToVolatile(a, b) && ContainedUpToVolatile(b, a)
  {
    NormalizeIsCanonical(a);
    NormalizeIsCanonical(b);
    CanonicalIsWellFormed(Normalize(a));
    CanonicalIsWellFormed(Normalize(b));
    VerdictMeansContained(a, b);
    VerdictMeansContained(b, a);
    MutualMatchIsSame(Normalize(a), Normalize(b));
    MatchReflexive(Normalize(a));
    if Same(Normalize(a), Normalize(b)) {
      SameCanonicalFormsAreEqual(Normalize(a), Normalize(b));
    }
  }

  // ------------------------------------------------------------ whole results

  lemma ResultMatchReflexive(r: FlowResult)
    requires WellFormedResult(r)
    ensures PartialMatchResult(r, r)
  {
    match r {
      case Success(j) => MatchReflexive(j);
      case Failed(_, _, data) => if data.Some? { MatchReflexive(data.value); }
    }
  }

  lemma ResultMatchTransitive(a: FlowResult, b: FlowResult, c: FlowResult)
    requires PartialMatchResult(a, b) && PartialMatchResult(b, c)
    ensures PartialMatchResult(a, c)
  {
    match a {
      case Success(j) => MatchTransitive(j, b.output, c.output);
      case Failed(_, _, data) => if data.Some? { MatchTransitive(data.value, b.data.value, c.data.value); }
    }
  }

  lemma NormalizeResultIdempotent(r: FlowResult)
    requires WellFormedResult(r)
    ensures NormalizeResult(NormalizeResult(r)) == NormalizeResult(r)
    ensures WellFormedResult(NormalizeResult(r))
  {
    match r {
      case Success(j) => NormalizeIdempotent(j); NormalizeIsCanonical(j); CanonicalIsWellFormed(Normalize(j));
      case Failed(_, _, data) =>
        if data.Some? {
          NormalizeIdempotent(data.value);
          NormalizeIsCanonical(data.value);
          CanonicalIsWellFormed(Normalize(data.value));
        }
    }
  }

  /** Containment of whole results: error code and message as they are, data
    only where the expectation gives some. */
  predicate ResultContained(e: FlowResult, a: FlowResult) {
    match (e, a)
    case (Success(x), Success(y)) => ContainedUpToVolatile(x, y)
    case (Failed(code, message, x), Failed(code', message', y)) =>
      code == code' && message == message' && (x.Some? ==> y.Some? && ContainedUpToVolatile(x.value, y.value))
    case _ => false
  }

  lemma ResultVerdictMeansContained(e: FlowResult, a: FlowResult)
    requires WellFormedResult(e) && WellFormedResult(a)
    ensures PartialMatchResult(NormalizeResult(e), NormalizeResult(a)) <==> ResultContained(e, a)
  {
    match (e, a) {
      case (Success(x), Success(y)) => VerdictMeansContained(x, y);
      case (Failed(_, _, x), Failed(_, _, y)) => if x.Some? && y.Some? { VerdictMeansContained(x.value, y.value); }
      case _ =>
    }
  }

  /** Normalizing two results never turns a match into a mismatch. */
  lemma NormalizePreservesResultMatch(e: FlowResult, a: FlowResult)
    requires WellFormedResult(e) && WellFormedResult(a) && PartialMatchResult(e, a)
    ensures PartialMatchResult(NormalizeResult(e), NormalizeResult(a))
  {
    match e {
      case Success(x) => MatchIsContained(x, a.output);
      case Failed(_, _, x) => if x.Some? { MatchIsContained(x.value, a.data.value); }
    }
    ResultVerdictMeansContained(e, a);
  }
  /** Normalizing a result changes nothing but its volatile parts. */
  lemma NormalizedResultIsSame(r: FlowResult)
    requires WellFormedResult(r)
    ensures ResultContained(r, NormalizeResult(r)) && ResultContained(NormalizeResult(r), r)
  {
    NormalizeResultIdempotent(r);
    ResultMatchReflexive(NormalizeResult(r));
    ResultVerdictMeansContained(r, NormalizeResult(r));
    ResultVerdictMeansContained(NormalizeResult(r), r);
  }
}
