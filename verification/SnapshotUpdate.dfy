/** Running the test cases of one flow file, counting them, and writing the
  new outputs back.  Updates are keyed by case name, so everything depends on
  whether a failing case is the first of its name: when each one is, an update
  makes the next run clean; otherwise it never does, and the count of passed
  cases is too high. */
module SnapshotUpdate {
  import opened Basics
  import opened JsonValues
  import opened FlowResults
  import opened SnapshotNormalize
  import opened SnapshotMatch

  datatype TestCase = TestCase(name: string, expected: Option<FlowResult>)

  type Outcome = Result<FlowResult, string>

  type Updates = map<string, FlowResult>

  /** The outcome for case `i`; a batch that returned too few gives an error. */
  function OutcomeAt(results: seq<Outcome>, i: nat): Outcome {
    if i < |results| then results[i] else Err("No result for test case")
  }

  // --------------------------------------------------------------- one run

  /** A case with an output that the recorded one does not match. */
  predicate CaseFails(c: TestCase, result: Outcome) {
    result.Ok?
    && (c.expected.Some? ==> !PartialMatchResult(NormalizeResult(c.expected.value), NormalizeResult(result.value)))
  }

  /** Objects on both sides have unique keys. */
  predicate Comparable(c: TestCase, result: Outcome) {
    (result.Ok? ==> WellFormedResult(result.value)) && (c.expected.Some? ==> WellFormedResult(c.expected.value))
  }

  /** A case fails exactly when there is an output and the recorded one is
    missing or not contained in it, up to volatile parts. */
  lemma CaseFailsIff(c: TestCase, result: Outcome)
    requires Comparable(c, result)
    ensures CaseFails(c, result) <==>
      result.Ok? && (c.expected.Some? ==> !ResultContained(c.expected.value, result.value))
  {
    if result.Ok? && c.expected.Some? {
      ResultVerdictMeansContained(c.expected.value, result.value);
    }
  }

  method ProcessTestResult(testCase: TestCase, result: Outcome, given: Updates)
    returns (updates: Updates, errors: nat)
    ensures result.Err? ==> updates == given && errors == 1
    ensures result.Ok? ==> errors == 0
    ensures result.Ok? && Comparable(testCase, result) ==>
      if testCase.expected.Some? && ResultContained(testCase.expected.value, result.value) then updates == given
      else updates == given[testCase.name := NormalizeResult(result.value)]
    ensures updates ==
      if CaseFails(testCase, result) then given[testCase.name := NormalizeResult(result.value)] else given
  {
    if result.Ok? && Comparable(testCase, result) {
      CaseFailsIff(testCase, result);
    }
    updates := given;
    match result {
      case Ok(actual) =>
        var normalizedOutput := NormalizeResult(actual);
        match testCase.expected {
          case Some(expected) =>
            var normalizedExpected := NormalizeResult(expected);
            if !PartialMatchResult(normalizedExpected, normalizedOutput) {
              updates := updates[testCase.name := normalizedOutput];
            }
          case None =>
            updates := updates[testCase.name := normalizedOutput];
        }
        errors := 0;
      case Err(_) => errors := 1;
    }
  }

  predicate FailsAt(cases: seq<TestCase>, results: seq<Outcome>, i: nat)
    requires i < |cases|
  {
    CaseFails(cases[i], OutcomeAt(results, i))
  }

  /** Updates after the first `n` cases: the last failing case of a name wins. */
  function UpdatesOf(cases: seq<TestCase>, results: seq<Outcome>, n: nat): Updates
    requires n <= |cases|
  {
    if n == 0 then map[]
    else
      var before := UpdatesOf(cases, results, n - 1);
      if FailsAt(cases, results, n - 1) then
        before[cases[n - 1].name := NormalizeResult(OutcomeAt(results, n - 1).value)]
      else before
  }

  function FailCount(cases: seq<TestCase>, results: seq<Outcome>, n: nat): nat
    requires n <= |cases|
  {
    if n == 0 then 0
    else FailCount(cases, results, n - 1) + if FailsAt(cases, results, n - 1) then 1 else 0
  }

  function ErrorCount(results: seq<Outcome>, n: nat): nat {
    if n == 0 then 0 else ErrorCount(results, n - 1) + if OutcomeAt(results, n - 1).Err? then 1 else 0
  }

  /** The remaining cases: an output was produced and it matched. */
  function PassCount(cases: seq<TestCase>, results: seq<Outcome>, n: nat): nat
    requires n <= |cases|
  {
    if n == 0 then 0
    else
      var last := OutcomeAt(results, n - 1);
      PassCount(cases, results, n - 1) + if last.Ok? && !CaseFails(cases[n - 1], last) then 1 else 0
  }

  method RunCases(cases: seq<TestCase>, results: seq<Outcome>)
    returns (updates: Updates, executionErrors: nat, passed: nat)
    ensures updates == UpdatesOf(cases, results, |cases|)
    ensures executionErrors == ErrorCount(results, |cases|)
    ensures |cases| == passed + |updates| + executionErrors
  {
    updates, executionErrors := map[], 0;
    for i := 0 to |cases|
      invariant updates == UpdatesOf(cases, results, i)
      invariant executionErrors == ErrorCount(results, i)
    {
      var errors;
      updates, errors := ProcessTestResult(cases[i], OutcomeAt(results, i), updates);
      executionErrors := executionErrors + errors;
    }
    CountsAdd(cases, results, |cases|);
    UpdatesAtMostFailures(cases, results, |cases|);
    passed := |cases| - (|updates| + executionErrors);
  }

  lemma {:induction false} CountsAdd(cases: seq<TestCase>, results: seq<Outcome>, n: nat)
    requires n <= |cases|
    ensures PassCount(cases, results, n) + FailCount(cases, results, n) + ErrorCount(results, n) == n
  {
    if n > 0 {
      CountsAdd(cases, results, n - 1);
    }
  }

  lemma {:induction false} UpdateKeys(cases: seq<TestCase>, results: seq<Outcome>, n: nat, name: string)
    requires n <= |cases|
    ensures name in UpdatesOf(cases, results, n)
       <==> exists i: nat | i < n :: FailsAt(cases, results, i) && cases[i].name == name
  {
    if n > 0 {
      UpdateKeys(cases, results, n - 1, name);
      if FailsAt(cases, results, n - 1) && cases[n - 1].name == name {
        assert exists i: nat | i < n :: FailsAt(cases, results, i) && cases[i].name == name;
      }
    }
  }

  /** The update of a name is the output of its last failing case. */
  lemma {:induction false} UpdateIsLast(cases: seq<TestCase>, results: seq<Outcome>, n: nat, i: nat)
    requires i < n <= |cases| && FailsAt(cases, results, i)
    requires forall j: nat | i < j < n && FailsAt(cases, results, j) :: cases[j].name != cases[i].name
    ensures var updates := UpdatesOf(cases, results, n);
            cases[i].name in updates && updates[cases[i].name] == NormalizeResult(OutcomeAt(results, i).value)
  {
    if i < n - 1 {
      UpdateIsLast(cases, results, n - 1, i);
    }
  }

  lemma {:induction false} UpdatesAtMostFailures(cases: seq<TestCase>, results: seq<Outcome>, n: nat)
    requires n <= |cases|
    ensures |UpdatesOf(cases, results, n)| <= FailCount(cases, results, n)
  {
    if n > 0 {
      UpdatesAtMostFailures(cases, results, n - 1);
      if FailsAt(cases, results, n - 1) {
        SizeAfterUpdate(UpdatesOf(cases, results, n - 1), cases[n - 1].name,
                        NormalizeResult(OutcomeAt(results, n - 1).value));
      }
    }
  }

  lemma SizeAfterUpdate(m: Updates, name: string, output: FlowResult)
    ensures |m[name := output]| == |m| + if name in m then 0 else 1
  {
    var after := m[name := output];
    assert after.Keys == m.Keys + {name};
    if name in m { assert after.Keys == m.Keys; }
    assert |after| == |after.Keys| && |m| == |m.Keys|;
  }

  predicate FailingNamesDistinct(cases: seq<TestCase>, results: seq<Outcome>, n: nat)
    requires n <= |cases|
  {
    forall i: nat, j: nat | i < j < n && FailsAt(cases, results, i) && FailsAt(cases, results, j) ::
      cases[i].name != cases[j].name
  }

  /** No failing case is lost in the map exactly when failing names differ. */
  lemma {:induction false} UpdateCountExactIff(cases: seq<TestCase>, results: seq<Outcome>, n: nat)
    requires n <= |cases|
    ensures |UpdatesOf(cases, results, n)| == FailCount(cases, results, n) <==> FailingNamesDistinct(cases, results, n)
  {
    if n > 0 {
      UpdateCountExactIff(cases, results, n - 1);
      UpdatesAtMostFailures(cases, results, n - 1);
      UpdateKeys(cases, results, n - 1, cases[n - 1].name);
      if FailsAt(cases, results, n - 1) {
        SizeAfterUpdate(UpdatesOf(cases, results, n - 1), cases[n - 1].name,
                        NormalizeResult(OutcomeAt(results, n - 1).value));
      }
    }
  }

  /** The reported number of passed cases is the number of cases that produced
    a matching output exactly when failing cases have distinct names; it is
    never lower than that number. */
  lemma ReportedPassesExactIff(cases: seq<TestCase>, results: seq<Outcome>, passed: int)
    requires passed == |cases| - |UpdatesOf(cases, results, |cases|)| - ErrorCount(results, |cases|)
    ensures passed >= PassCount(cases, results, |cases|)
    ensures passed == PassCount(cases, results, |cases|) <==> FailingNamesDistinct(cases, results, |cases|)
  {
    CountsAdd(cases, results, |cases|);
    UpdatesAtMostFailures(cases, results, |cases|);
    UpdateCountExactIff(cases, results, |cases|);
  }

  // ---------------------------------------------------------- writing updates

  /** Writing back consumes the map: a name is used for one case only. */
  method ApplyUpdates(cases: seq<TestCase>, given: Updates) returns (written: seq<TestCase>)
    ensures written == Applied(cases, given)
  {
    var updates := given;
    written := cases;
    for i := 0 to |cases|
      invariant |written| == |cases| && written[i..] == cases[i..]
      invariant written[..i] + Applied(cases[i..], updates) == Applied(cases, given)
    {
      assert cases[i..][1..] == cases[i + 1..];
      var name := written[i].name;
      assert written[i] == written[i..][0];
      if name in updates {
        var output := updates[name];
        ghost var was, left := written, updates;
        updates := updates - {name};
        written := written[i := written[i].(expected := Some(output))];
        assert written[..i + 1] == was[..i] + [written[i]];
        assert Applied(cases[i..], left) == [written[i]] + Applied(cases[i + 1..], updates);
        assert written[..i + 1] + Applied(cases[i + 1..], updates) == was[..i] + Applied(cases[i..], left);
        assert written[i + 1..] == was[i..][1..];
      } else {
        assert written[..i + 1] == written[..i] + [written[i]];
        assert written[..i + 1] + Applied(cases[i + 1..], updates) == written[..i] + Applied(cases[i..], updates);
        assert written[i + 1..] == written[i..][1..];
      }
    }
  }

  function Applied(cases: seq<TestCase>, updates: Updates): seq<TestCase> {
    if cases == [] then []
    else
      var c := cases[0];
      if c.name in updates then
        [c.(expected := Some(updates[c.name]))] + Applied(cases[1..], updates - {c.name})
      else [c] + Applied(cases[1..], updates)
  }

  predicate FirstOfItsName(cases: seq<TestCase>, i: nat)
    requires i < |cases|
  {
    forall j | 0 <= j < i :: cases[j].name != cases[i].name
  }

  lemma {:induction false} AppliedAt(cases: seq<TestCase>, updates: Updates, i: nat)
    requires i < |cases|
    ensures |Applied(cases, updates)| == |cases|
    ensures Applied(cases, updates)[i]
         == if cases[i].name in updates && FirstOfItsName(cases, i)
            then cases[i].(expected := Some(updates[cases[i].name])) else cases[i]
  {
    var c, rest := cases[0], cases[1..];
    var left := if c.name in updates then updates - {c.name} else updates;
    if i > 0 {
      AppliedAt(rest, left, i - 1);
      assert FirstOfItsName(cases, i) <==> c.name != cases[i].name && FirstOfItsName(rest, i - 1) by {
        assert forall j | 0 < j < i :: cases[j] == rest[j - 1];
        assert forall j | 0 <= j < i - 1 :: cases[j + 1] == rest[j];
      }
    } else if |rest| > 0 {
      AppliedAt(rest, left, 0);
    }
  }

  /** The cases selected on the command line; no names selects all. */
  function Select(cases: seq<TestCase>, wanted: set<string>): seq<TestCase> {
    if wanted == {} then cases
    else if cases == [] then []
    else (if cases[0].name in wanted then [cases[0]] else []) + Select(cases[1..], wanted)
  }

  /** Updating the file updates the selected cases, and only those. */
  lemma {:induction false} SelectAfterApply(cases: seq<TestCase>, wanted: set<string>, updates: Updates)
    requires wanted != {} ==> updates.Keys <= wanted
    ensures Select(Applied(cases, updates), wanted) == Applied(Select(cases, wanted), updates)
  {
    if wanted != {} && cases != [] {
      var c := cases[0];
      var left := if c.name in updates then updates - {c.name} else updates;
      SelectAfterApply(cases[1..], wanted, left);
      assert Applied(cases, updates)[1..] == Applied(cases[1..], left);
      var after := Applied(cases, updates);
      assert after[0].name == c.name;
      if c.name in wanted {
        assert Select(cases, wanted)[0] == c && Select(cases, wanted)[1..] == Select(cases[1..], wanted);
      } else {
        assert Select(cases, wanted) == Select(cases[1..], wanted);
        assert Select(after, wanted) == Select(after[1..], wanted);
      }
    }
  }

  lemma {:induction false} SelectedNames(cases: seq<TestCase>, wanted: set<string>)
    ensures wanted != {} ==> forall i | 0 <= i < |Select(cases, wanted)| :: Select(cases, wanted)[i].name in wanted
  {
    if wanted != {} && cases != [] {
      SelectedNames(cases[1..], wanted);
    }
  }

  /** A case is selected as often as it stands in the file if its name is wanted
    or no names are given, and not at all otherwise. */
  lemma {:induction false} SelectedExactly(cases: seq<TestCase>, wanted: set<string>, c: TestCase)
    ensures multiset(Select(cases, wanted))[c]
         == if wanted == {} || c.name in wanted then multiset(cases)[c] else 0
  {
    if wanted != {} && cases != [] {
      SelectedExactly(cases[1..], wanted, c);
      assert cases == [cases[0]] + cases[1..];
    }
  }

  // ------------------------------------------------------------ the second run

  /** The flow behaves the same: per case the same kind of outcome, and outputs
    that differ at most in what normalization removes. */
  predicate Reproduced(first: seq<Outcome>, second: seq<Outcome>, n: nat) {
    forall i: nat | i < n ::
      var a, b := OutcomeAt(first, i), OutcomeAt(second, i);
      && (a.Ok? <==> b.Ok?)
      && (a.Ok? ==> WellFormedResult(a.value) && NormalizeResult(a.value) == NormalizeResult(b.value))
  }

  predicate FailuresComeFirst(cases: seq<TestCase>, results: seq<Outcome>) {
    forall i: nat | i < |cases| && FailsAt(cases, results, i) :: FirstOfItsName(cases, i)
  }

  /** With every failing case first of its name, no case fails again: a failing
    one was rewritten with its own output, the others were left alone. */
  lemma SecondOutcome(cases: seq<TestCase>, first: seq<Outcome>, second: seq<Outcome>, i: nat)
    requires i < |cases| && Reproduced(first, second, |cases|) && FailuresComeFirst(cases, first)
    ensures var written := Applied(cases, UpdatesOf(cases, first, |cases|));
            |written| == |cases| && !CaseFails(written[i], OutcomeAt(second, i))
  {
    var updates := UpdatesOf(cases, first, |cases|);
    AppliedAt(cases, updates, i);
    UpdateKeys(cases, first, |cases|, cases[i].name);
    if FailsAt(cases, first, i) {
      UpdateIsLast(cases, first, |cases|, i);
      var output := OutcomeAt(first, i).value;
      NormalizeResultIdempotent(output);
      ResultMatchReflexive(NormalizeResult(output));
    }
  }

  lemma {:induction false} NoFailuresNoUpdates(cases: seq<TestCase>, results: seq<Outcome>, n: nat)
    requires n <= |cases|
    ensures UpdatesOf(cases, results, n) == map[] <==> forall i: nat | i < n :: !FailsAt(cases, results, i)
  {
    if n > 0 {
      NoFailuresNoUpdates(cases, results, n - 1);
      if FailsAt(cases, results, n - 1) {
        assert cases[n - 1].name in UpdatesOf(cases, results, n);
      }
    }
  }

  /** After an update of the file `flow`, a run on unchanged outputs has
    nothing to update exactly when every failing case was the first of its
    name. */
  lemma SecondRunCleanIff(flow: seq<TestCase>, wanted: set<string>, first: seq<Outcome>, second: seq<Outcome>)
    requires Reproduced(first, second, |Select(flow, wanted)|)
    ensures var cases := Select(flow, wanted);
            var written := Select(Applied(flow, UpdatesOf(cases, first, |cases|)), wanted);
            && |written| == |cases|
            && (UpdatesOf(written, second, |written|) == map[] <==> FailuresComeFirst(cases, first))
  {
    var cases := Select(flow, wanted);
    var updates := UpdatesOf(cases, first, |cases|);
    forall name | name in updates ensures wanted != {} ==> name in wanted {
      UpdateKeys(cases, first, |cases|, name);
      SelectedNames(flow, wanted);
    }
    SelectAfterApply(flow, wanted, updates);
    var written := Applied(cases, updates);
    if cases != [] { AppliedAt(cases, updates, 0); }
    NoFailuresNoUpdates(written, second, |written|);
    if FailuresComeFirst(cases, first) {
      forall i: nat | i < |cases| ensures !FailsAt(written, second, i) { SecondOutcome(cases, first, second, i); }
    } else {
      var i: nat :| i < |cases| && FailsAt(cases, first, i) && !FirstOfItsName(cases, i);
      AppliedAt(cases, updates, i);
      assert FailsAt(written, second, i);
    }
  }

  predicate NamesDistinct(cases: seq<TestCase>) {
    forall i, j | 0 <= i < j < |cases| :: cases[i].name != cases[j].name
  }

  /** With distinct names the second run reports every case that produced an
    output as passed. */
  lemma DistinctNamesReachFixpoint(flow: seq<TestCase>, wanted: set<string>, first: seq<Outcome>, second: seq<Outcome>)
    requires NamesDistinct(Select(flow, wanted)) && Reproduced(first, second, |Select(flow, wanted)|)
    ensures var cases := Select(flow, wanted);
            var written := Select(Applied(flow, UpdatesOf(cases, first, |cases|)), wanted);
            && |written| == |cases|
            && UpdatesOf(written, second, |written|) == map[]
            && PassCount(written, second, |written|) == |written| - ErrorCount(second, |written|)
  {
    SecondRunCleanIff(flow, wanted, first, second);
    var cases := Select(flow, wanted);
    var written := Select(Applied(flow, UpdatesOf(cases, first, |cases|)), wanted);
    CountsAdd(written, second, |written|);
    UpdateCountExactIff(written, second, |written|);
    NoFailuresNoUpdates(written, second, |written|);
  }

  /** Two failing cases of one name: only one is counted as failed, only the
    first is rewritten, and with the output of the second. */
  lemma DuplicateNamesGoWrong()
    ensures var cases := [TestCase("a", None), TestCase("a", None)];
            var results := [Ok(Success(Int(1))), Ok(Success(Int(2)))];
            var updates := UpdatesOf(cases, results, 2);
            && FailCount(cases, results, 2) == 2
            && updates == map["a" := Success(Int(2))]
            && Applied(cases, updates) == [TestCase("a", Some(Success(Int(2)))), TestCase("a", None)]
            && UpdatesOf(Applied(cases, updates), results, 2) == updates
  {
    var cases := [TestCase("a", None), TestCase("a", None)];
    var results: seq<Outcome> := [Ok(Success(Int(1))), Ok(Success(Int(2)))];
    assert FailsAt(cases, results, 0) && FailsAt(cases, results, 1);
    assert UpdatesOf(cases, results, 1) == map["a" := Success(Int(1))];
    var updates := UpdatesOf(cases, results, 2);
    assert updates == map["a" := Success(Int(2))];
    var written := Applied(cases, updates);
    assert cases[1..] == [TestCase("a", None)] && updates - {"a"} == map[];
    AppliedAt(cases, updates, 0);
    AppliedAt(cases, updates, 1);
    assert written == [TestCase("a", Some(Success(Int(2)))), TestCase("a", None)];
    assert FailsAt(written, results, 0) && FailsAt(written, results, 1);
    assert UpdatesOf(written, results, 1) == map["a" := Success(Int(1))];
  }
}
