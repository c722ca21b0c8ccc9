/** The iterate component: apply a flow again and again until it answers with a
  result.  The flow is arbitrary; its answer may depend on how often it has
  been applied, so every history of answers is covered. */
module Iterating {
  import opened Basics
  import opened JsonValues
  import opened FlowResults

  const U32_MAX: nat := 0xFFFF_FFFF

  type U32 = x: nat | x <= U32_MAX

  type Answer = Result<FlowResult, string>

  type Flow = (nat, Json) -> Answer

  datatype IterateOutput = IterateOutput(result: Json, iterations: nat, terminated: bool)

  function OutputJson(o: IterateOutput): Json {
    Obj([("result", o.result), ("iterations", Int(o.iterations)), ("terminated", Bool(o.terminated))])
  }

  const MALFORMED := Failed(INVALID_INPUT, "Workflow result must contain either 'result' or 'next' field", None)

  // -------------------------------------------------------------- the component

  /** The answer is an object with no result and `next` to go on with. */
  ghost predicate GoesOn(a: Answer, next: Json) {
    && a.Ok? && a.value.Success? && a.value.output.Obj?
    && Get(a.value.output.fields, "result") == None && Get(a.value.output.fields, "next") == Some(next)
  }

  /** The inputs of the first applications, each asked for by the one before. */
  ghost predicate Chain(flow: Flow, initial: Json, inputs: seq<Json>) {
    && inputs != [] && inputs[0] == initial
    && forall i: nat | i + 1 < |inputs| :: GoesOn(flow(i, inputs[i]), inputs[i + 1])
  }

  /** What an answer to application `k` ends the iteration with: an error or a
    failed flow as it is, a result whatever `next` says, anything else but a
    `next` as malformed. */
  ghost predicate EndsWith(a: Answer, k: nat, r: Answer) {
    && (a.Err? || a.value.Failed? ==> r == a)
    && (a.Ok? && a.value.Success? ==>
          var fields := if a.value.output.Obj? then a.value.output.fields else [];
          && (forall x :: Get(fields, "result") == Some(x) ==>
                r == Ok(Success(Obj([("result", x), ("iterations", Int(k + 1)), ("terminated", Bool(false))]))))
          && (Get(fields, "result") == None && Get(fields, "next") == None ==>
                r == Ok(Failed(2, "Workflow result must contain either 'result' or 'next' field", None))))
  }

  /** The first answer that does not go on ends the iteration, and so does the
    limit: then the result is the input of the application that is not made. */
  ghost predicate Decided(flow: Flow, initial: Json, max: nat, r: Answer) {
    forall inputs: seq<Json> | Chain(flow, initial, inputs) && |inputs| <= max + 1 ::
      var k := |inputs| - 1;
      if k < max then EndsWith(flow(k, inputs[k]), k, r)
      else r == Ok(Success(Obj([("result", inputs[k]), ("iterations", Int(max)), ("terminated", Bool(true))])))
  }

  method Execute(flow: Flow, initialInput: Json, maxIterations: U32) returns (r: Answer)
    ensures r == Iterated(flow, initialInput, 0, maxIterations)
    ensures Decided(flow, initialInput, maxIterations, r)
  {
    ChainsDecide(flow, initialInput, maxIterations);
    var currentInput, iterations := initialInput, 0;
    while true
      invariant iterations <= maxIterations
      invariant Iterated(flow, currentInput, iterations, maxIterations)
        == Iterated(flow, initialInput, 0, maxIterations)
      decreases maxIterations - iterations
    {
      if iterations >= maxIterations {
        return Ok(Success(OutputJson(IterateOutput(currentInput, iterations, true))));
      }
      var result := flow(iterations, currentInput);
      if result.Err? {
        return Err(result.error);
      }
      iterations := iterations + 1;
      match result.value {
        case Success(value) =>
          if value.Obj? {
            var finalResult := Get(value.fields, "result");
            var nextInput := Get(value.fields, "next");
            if finalResult.Some? {
              return Ok(Success(OutputJson(IterateOutput(finalResult.value, iterations, false))));
            } else if nextInput.Some? {
              currentInput := nextInput.value;
              continue;
            }
          }
          return Ok(MALFORMED);
        case Failed(code, message, data) =>
          return Ok(Failed(code, message, data));
      }
    }
  }

  /** The answer to application `i` and the rest, up to `max`. */
  function Iterated(flow: Flow, input: Json, i: nat, max: nat): Answer
    decreases max - i
  {
    if i >= max then Ok(Success(OutputJson(IterateOutput(input, i, true))))
    else
      match NextInput(flow(i, input))
      case Some(next) => Iterated(flow, next, i + 1, max)
      case None => Verdict(flow(i, input), i + 1)
  }

  /** The input an answer asks to go on with; a result takes precedence. */
  function NextInput(a: Answer): Option<Json> {
    if a.Ok? && a.value.Success? && a.value.output.Obj? && Get(a.value.output.fields, "result").None?
    then Get(a.value.output.fields, "next")
    else None
  }

  /** What an answer means that does not ask to go on. */
  function Verdict(a: Answer, iterations: nat): Answer {
    if a.Err? || a.value.Failed? then a
    else if a.value.output.Obj? && Get(a.value.output.fields, "result").Some? then
      Ok(Success(OutputJson(IterateOutput(Get(a.value.output.fields, "result").value, iterations, false))))
    else Ok(MALFORMED)
  }

  // ------------------------------------------------------- the history of inputs

  /** The input of application `i`, if all before it asked to go on. */
  function InputAt(flow: Flow, initial: Json, i: nat): Option<Json> {
    if i == 0 then Some(initial)
    else
      match InputAt(flow, initial, i - 1)
      case None => None
      case Some(input) => NextInput(flow(i - 1, input))
  }

  lemma {:induction false} ChainOfInputs(flow: Flow, initial: Json, inputs: seq<Json>)
    requires Chain(flow, initial, inputs)
    ensures InputAt(flow, initial, |inputs| - 1) == Some(inputs[|inputs| - 1])
    decreases |inputs|
  {
    if |inputs| > 1 {
      var front := inputs[..|inputs| - 1];
      forall i: nat | i + 1 < |front| ensures GoesOn(flow(i, front[i]), front[i + 1]) {
        assert GoesOn(flow(i, inputs[i]), inputs[i + 1]);
      }
      ChainOfInputs(flow, initial, front);
      assert GoesOn(flow(|inputs| - 2, inputs[|inputs| - 2]), inputs[|inputs| - 2 + 1]);
    }
  }

  lemma ChainDecides(flow: Flow, initial: Json, max: nat, inputs: seq<Json>)
    requires Chain(flow, initial, inputs) && |inputs| <= max + 1
    ensures var k, r := |inputs| - 1, Iterated(flow, initial, 0, max);
      if k < max then EndsWith(flow(k, inputs[k]), k, r)
      else r == Ok(Success(Obj([("result", inputs[k]), ("iterations", Int(max)), ("terminated", Bool(true))])))
  {
    ChainOfInputs(flow, initial, inputs);
    Resumes(flow, initial, |inputs| - 1, max);
  }

  lemma ChainsDecide(flow: Flow, initial: Json, max: nat)
    ensures Decided(flow, initial, max, Iterated(flow, initial, 0, max))
  {
    forall inputs: seq<Json> | Chain(flow, initial, inputs) && |inputs| <= max + 1
      ensures var k, r := |inputs| - 1, Iterated(flow, initial, 0, max);
        if k < max then EndsWith(flow(k, inputs[k]), k, r)
        else r == Ok(Success(Obj([("result", inputs[k]), ("iterations", Int(max)), ("terminated", Bool(true))])))
    {
      ChainDecides(flow, initial, max, inputs);
    }
  }

  lemma {:induction false} InputsAreAPrefix(flow: Flow, initial: Json, i: nat, j: nat)
    requires i <= j && InputAt(flow, initial, j).Some?
    ensures InputAt(flow, initial, i).Some?
  {
    if i < j {
      InputsAreAPrefix(flow, initial, i, j - 1);
    }
  }

  /** Resuming where a shorter iteration was cut off gives the longer one. */
  lemma {:induction false} Resumes(flow: Flow, initial: Json, i: nat, max: nat)
    requires i <= max && InputAt(flow, initial, i).Some?
    ensures Iterated(flow, initial, 0, max) == Iterated(flow, InputAt(flow, initial, i).value, i, max)
  {
    if i > 0 {
      Resumes(flow, initial, i - 1, max);
    }
  }

  /** The first answer that does not ask to go on decides; it is counted. */
  lemma FirstOtherAnswerDecides(flow: Flow, initial: Json, k: nat, max: nat)
    requires k < max && InputAt(flow, initial, k).Some? && InputAt(flow, initial, k + 1).None?
    ensures Iterated(flow, initial, 0, max) == Verdict(flow(k, InputAt(flow, initial, k).value), k + 1)
  {
    Resumes(flow, initial, k, max);
  }

  /** Cut off by the limit exactly when every allowed application asked to go
    on; the output is then the input of the next one. */
  lemma TerminatedIff(flow: Flow, initial: Json, max: nat, x: Json, n: nat)
    ensures Iterated(flow, initial, 0, max) == Ok(Success(OutputJson(IterateOutput(x, n, true))))
       <==> InputAt(flow, initial, max) == Some(x) && n == max
  {
    if InputAt(flow, initial, max).Some? {
      Resumes(flow, initial, max, max);
      OutputJsonIsInjective(IterateOutput(InputAt(flow, initial, max).value, max, true), IterateOutput(x, n, true));
    } else {
      var k := LastInput(flow, initial, max);
      FirstOtherAnswerDecides(flow, initial, k, max);
      var a := flow(k, InputAt(flow, initial, k).value);
      if Iterated(flow, initial, 0, max) == Ok(Success(OutputJson(IterateOutput(x, n, true)))) {
        OutputJsonIsInjective(IterateOutput(Get(a.value.output.fields, "result").value, k + 1, false),
          IterateOutput(x, n, true));
      }
    }
  }

  lemma OutputJsonIsInjective(a: IterateOutput, b: IterateOutput)
    ensures OutputJson(a) == OutputJson(b) <==> a == b
  {
    if OutputJson(a) == OutputJson(b) {
      assert OutputJson(a).fields[0] == OutputJson(b).fields[0];
      assert OutputJson(a).fields[1] == OutputJson(b).fields[1];
      assert OutputJson(a).fields[2] == OutputJson(b).fields[2];
    }
  }

  lemma {:induction false} LastInput(flow: Flow, initial: Json, max: nat) returns (k: nat)
    requires InputAt(flow, initial, max).None?
    ensures k < max && InputAt(flow, initial, k).Some? && InputAt(flow, initial, k + 1).None?
  {
    if InputAt(flow, initial, max - 1).Some? {
      k := max - 1;
    } else {
      k := LastInput(flow, initial, max - 1);
    }
  }

  /** An iteration that ended by itself is not changed by a larger limit. */
  lemma LargerLimitChangesNothing(flow: Flow, initial: Json, max: nat, larger: nat)
    requires max <= larger && InputAt(flow, initial, max).None?
    ensures Iterated(flow, initial, 0, larger) == Iterated(flow, initial, 0, max)
  {
    var k := LastInput(flow, initial, max);
    FirstOtherAnswerDecides(flow, initial, k, max);
    FirstOtherAnswerDecides(flow, initial, k, larger);
  }
}
