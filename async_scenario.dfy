/** A client: the wrapper built on thread 1 over a context whose current span is
    S (span 7), applied to 5 on thread 2 around a doubling function that fails
    unless it finds its parent span current; then the same wrapper on thread 1,
    and a wrapper over an empty context around a function that always throws. */
module AsyncScenario {
  import opened Wrappers
  import opened TraceContext
  import opened SpanExtension
  import opened Async

  const S := 7

  function Double(x: int, stack: seq<int>): Completion<int, string, int>
  {
    Completion(if stack != [] && Top(stack) == S then Success(x * 2) else Failure("no parent span"), stack)
  }

  method CrossThreadScenario() {
    var context := new SofaTraceContext([S]);
    var notifier := new StartedSpanLog();
    var wrapper := new SofaTracerFunction(Double, context, 1);
    assert wrapper.currentSpan == Some(S);

    var r := wrapper.Apply(5, 2, notifier);
    assert SeenStack(1, Some(S), 2, [S]) == [S, S];
    assert r == Success(10);
    assert context.stack == [S];
    assert notifier.started == [S];
  }

  method SameThreadScenario() {
    var context := new SofaTraceContext([S]);
    var notifier := new StartedSpanLog();
    var wrapper := new SofaTracerFunction(Double, context, 1);
    var r := wrapper.Apply(5, 1, notifier);
    assert SeenStack(1, Some(S), 1, [S]) == [S];
    assert r == Success(10);
    assert context.stack == [S];
    assert notifier.started == [];
  }

  function Throw(x: int, stack: seq<int>): Completion<int, string, int>
  {
    Completion(Failure("boom"), stack)
  }

  method FailureScenario() {
    var context := new SofaTraceContext([S]);
    var notifier := new StartedSpanLog();
    var wrapper := new SofaTracerFunction(Throw, context, 1);
    var r := wrapper.Apply(5, 2, notifier);
    assert r == Failure("boom");
    assert context.stack == [S];
    assert notifier.started == [S];

    var empty := new SofaTraceContext([]);
    var unattached := new SofaTracerFunction(Throw, empty, 1);
    assert unattached.currentSpan == None;
    r := unattached.Apply(5, 2, notifier);
    assert r == Failure("boom");
    assert empty.stack == [];
    assert notifier.started == [S];
  }
}
