/** SofaTracerFunction: a Function<T, R> decorator that carries the span that
    was current when it was built over to the thread that later applies it.

    Threads are identified by plain integers: the creating thread's id is a
    constructor argument and the invoking thread's id an argument of Apply.
    The wrapped function is a pure function of its input and of the trace
    context stack it runs under; it answers with a Completion that holds its
    result or the exception it threw, and the stack it leaves behind. */
module Async {
  import opened Wrappers
  import opened TraceContext
  import opened SpanExtension

  /** How the wrapped function ended, and the context stack it left. */
  datatype Completion<R, E, Span> = Completion(result: Result<R, E>, stack: seq<Span>)

  type WrappedFunction<!T, R, E, !Span> = (T, seq<Span>) -> Completion<R, E, Span>

  /** The wrapped function leaves every stack as it found it. */
  ghost function Balanced<T(!new), R, E, Span(!new)>(f: WrappedFunction<T, R, E, Span>): bool
  {
    forall t: T, stack: seq<Span> :: f(t, stack).stack == stack
  }

  /** The span a new wrapper captures from a context holding `stack`. */
  function CapturedSpan<Span>(stack: seq<Span>): (captured: Option<Span>)
    ensures captured.None? <==> stack == []
    ensures captured.Some? ==> [captured.value] == stack[|stack| - 1..]
  {
    if stack != [] then Some(Top(stack)) else None
  }

  /** An invocation re-attaches the captured span exactly when it runs on a
      thread other than the creating one and a span was captured. */
  predicate Attaches<Span>(creationTid: int, captured: Option<Span>, threadId: int)
  {
    threadId != creationTid && captured.Some?
  }

  /** The context stack the wrapped function runs under. */
  function SeenStack<Span>(creationTid: int, captured: Option<Span>, threadId: int, stack: seq<Span>): (seen: seq<Span>)
    ensures Attaches(creationTid, captured, threadId) ==>
              |seen| == |stack| + 1 && seen[..|stack|] == stack && seen[|stack|] == captured.value
    ensures !Attaches(creationTid, captured, threadId) ==> seen == stack
  {
    if Attaches(creationTid, captured, threadId) then stack + [captured.value] else stack
  }

  /** The whole observable effect of one invocation. */
  datatype Effect<R, E, Span> = Effect(result: Result<R, E>, stack: seq<Span>, started: seq<Span>)

  /** One invocation, step by step: push and announce the captured span,
      run the wrapped function, and pop again whether it returned or threw.
      `stack` is the context before the call, `started` the spans announced
      so far. */
  function Invoke<T(!new), R, E, Span(!new)>(f: WrappedFunction<T, R, E, Span>, creationTid: int, captured: Option<Span>,
                                 t: T, threadId: int, stack: seq<Span>, started: seq<Span>): (e: Effect<R, E, Span>)
    // The result or failure is the wrapped function's own, run under the re-attached span.
    ensures e.result == f(t, SeenStack(creationTid, captured, threadId, stack)).result
    // Same thread or nothing captured: the context and the log are the wrapped function's business alone.
    ensures !Attaches(creationTid, captured, threadId) ==>
              e.stack == f(t, stack).stack && e.started == started
    // Cross-thread with a captured span: announced exactly once, and popped once after the call.
    ensures Attaches(creationTid, captured, threadId) ==>
              e.started == started + [captured.value] &&
              e.stack == Popped(f(t, stack + [captured.value]).stack)
    // A balanced wrapped function: every exit path leaves the context exactly as it was.
    ensures Balanced(f) ==> e.stack == stack
  {
    var pushed := if threadId != creationTid && captured.Some? then stack + [captured.value] else stack;
    var announced := if threadId != creationTid && captured.Some? then started + [captured.value] else started;
    var completion := f(t, pushed);
    var restored := if threadId != creationTid && captured.Some? then Popped(completion.stack) else completion.stack;
    Effect(completion.result, restored, announced)
  }

  /** One call of `apply`: its input and the id of the thread that makes it. */
  datatype Call<T> = Call(input: T, threadId: int)

  /** The effect of several calls of one wrapper, one after the other. */
  datatype Trace<R, E, Span> = Trace(results: seq<Result<R, E>>, stack: seq<Span>, started: seq<Span>)

  function InvokeAll<T(!new), R, E, Span(!new)>(f: WrappedFunction<T, R, E, Span>, creationTid: int, captured: Option<Span>,
                                    calls: seq<Call<T>>, stack: seq<Span>, started: seq<Span>): (tr: Trace<R, E, Span>)
    ensures |tr.results| == |calls|
    ensures |started| <= |tr.started| && tr.started[..|started|] == started
  {
    if calls == [] then Trace([], stack, started)
    else
      var e := Invoke(f, creationTid, captured, calls[0].input, calls[0].threadId, stack, started);
      var rest := InvokeAll(f, creationTid, captured, calls[1..], e.stack, e.started);
      Trace([e.result] + rest.results, rest.stack, rest.started)
  }

  /** How many of `calls` re-attach the captured span. */
  function CrossThreadCalls<T, Span>(creationTid: int, captured: Option<Span>, calls: seq<Call<T>>): nat
  {
    if calls == [] then 0
    else (if Attaches(creationTid, captured, calls[0].threadId) then 1 else 0)
         + CrossThreadCalls(creationTid, captured, calls[1..])
  }

  /** With a balanced wrapped function, repeated invocations do not interfere:
      the context ends as it started, each call returns what the wrapped
      function returns on the original context (plus the captured span when it
      re-attaches), and the captured span is announced once per cross-thread
      call and never anything else. */
  lemma {:induction false} RepeatedInvocationsAreIndependent<T(!new), R, E, Span(!new)>(
    f: WrappedFunction<T, R, E, Span>, creationTid: int, captured: Option<Span>,
    calls: seq<Call<T>>, stack: seq<Span>, started: seq<Span>)
    requires Balanced(f)
    ensures var tr := InvokeAll(f, creationTid, captured, calls, stack, started);
      && tr.stack == stack
      && |tr.results| == |calls|
      && (forall i :: 0 <= i < |calls| ==>
            tr.results[i] == f(calls[i].input, SeenStack(creationTid, captured, calls[i].threadId, stack)).result)
      && |tr.started| == |started| + CrossThreadCalls(creationTid, captured, calls)
      && tr.started[..|started|] == started
      && (forall j :: |started| <= j < |tr.started| ==> Some(tr.started[j]) == captured)
  {
    if calls != [] {
      var e := Invoke(f, creationTid, captured, calls[0].input, calls[0].threadId, stack, started);
      RepeatedInvocationsAreIndependent(f, creationTid, captured, calls[1..], e.stack, e.started);
      var rest := InvokeAll(f, creationTid, captured, calls[1..], e.stack, e.started);
      forall i | 0 <= i < |calls|
        ensures InvokeAll(f, creationTid, captured, calls, stack, started).results[i]
                == f(calls[i].input, SeenStack(creationTid, captured, calls[i].threadId, stack)).result
      {
        if i > 0 {
          assert calls[1..][i - 1] == calls[i];
        }
      }
    }
  }

  class SofaTracerFunction<T(!new), R, E, Span(!new)> {
    const tid: int
    var wrappedFunction: WrappedFunction<T, R, E, Span>
    var traceContext: SofaTraceContext<Span>
    var currentSpan: Option<Span>

    /** Built on thread `tid` around an explicitly given trace context; takes
        the context's current span, or none when the context is empty. */
    constructor (wrappedFunction: WrappedFunction<T, R, E, Span>, traceContext: SofaTraceContext<Span>, tid: int)
      ensures this.tid == tid
      ensures this.wrappedFunction == wrappedFunction && this.traceContext == traceContext
      ensures traceContext.IsEmpty() <==> currentSpan.None?
      ensures !traceContext.IsEmpty() ==> currentSpan == Some(traceContext.CurrentSpan())
      ensures currentSpan == CapturedSpan(traceContext.stack)
    {
      this.tid := tid;
      this.wrappedFunction := wrappedFunction;
      this.traceContext := traceContext;
      if !traceContext.IsEmpty() {
        this.currentSpan := Some(traceContext.CurrentSpan());
      } else {
        this.currentSpan := None;
      }
    }

    /** `apply` as called on thread `threadId`, announcing started spans to
        `notifier`. */
    method Apply(t: T, threadId: int, notifier: StartedSpanLog<Span>) returns (r: Result<R, E>)
      modifies traceContext, notifier
      ensures var e := Invoke(wrappedFunction, tid, currentSpan, t, threadId,
                              old(traceContext.stack), old(notifier.started));
        r == e.result && traceContext.stack == e.stack && notifier.started == e.started
      ensures r == wrappedFunction(t, SeenStack(tid, currentSpan, threadId, old(traceContext.stack))).result
      ensures Balanced(wrappedFunction) ==> traceContext.stack == old(traceContext.stack)
      ensures notifier.started == old(notifier.started)
                                  + (if Attaches(tid, currentSpan, threadId) then [currentSpan.value] else [])
    {
      if threadId != tid {
        if currentSpan.Some? {
          traceContext.Push(currentSpan.value);
          notifier.LogStartedSpan(currentSpan.value);
        }
      }
      // try: the wrapped function runs on this thread's context and may change it
      var completion := wrappedFunction(t, traceContext.stack);
      traceContext.stack := completion.stack;
      // finally: reached on a normal return and on a thrown exception alike
      if threadId != tid {
        if currentSpan.Some? {
          var _ := traceContext.Pop();
        }
      }
      r := completion.result;
    }
  }
}
