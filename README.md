# SofaTracerFunction in Dafny

A model of `SofaTracerFunction` from SOFATracer's `tracer-core`: a
`Function<T, R>` decorator that captures the thread id, the trace context and
the context's current span when it is built, and, when `apply` later runs on a
different thread, pushes that span onto the context, announces it as started,
runs the wrapped function and pops the span again in a `finally` block.

Files:

- `wrappers.dfy` — `Option` (a possibly-null reference) and `Result` (a value or a thrown exception).
- `trace_context.dfy` — `SofaTraceContext`, the span stack the wrapper pushes onto and pops from (only `isEmpty`, `getCurrentSpan`, `push`, `pop`), and the pure stack functions `Top` and `Popped`.
- `span_extension.dfy` — `StartedSpanLog`, the started-span notification hook reduced to the sequence of spans it was given.
- `sofa_tracer_function.dfy` — the class `SofaTracerFunction` (fields `tid`, `wrappedFunction`, `traceContext`, `currentSpan`; the constructor and `Apply`), the pure reference definition `Invoke` of one invocation that `Apply` is proved against, `InvokeAll` for several invocations in a row, and the lemma about them.
- `async_scenario.dfy` — client methods: the cross-thread doubling example (5 becomes 10 under span S, S pushed, announced once and popped), a same-thread call, and a throwing wrapped function.

Modelling choices:

- Thread ids are integers. The creating thread's id is a constructor argument; the invoking thread's id is an argument of `Apply` and is used for both checks (lines 56 and 65), since one invocation runs on one thread.
- The wrapped function is a Dafny function `(T, seq<Span>) -> Completion`: it receives its input and the context stack it runs under (so the model can state which span is current while it runs) and yields its `Result` (`Failure` for a thrown exception) and the stack it leaves. It is "balanced" when it always leaves the stack it was given.
- `try`/`finally` becomes straight-line code: the wrapped function's `Failure` is a value, so the pop after it runs on both exit paths, and the result is handed back unchanged afterwards.
- The static `SpanExtensionFactory.logStartedSpan` is an explicit `StartedSpanLog` object passed to `Apply`.

## Model

| member | source | states |
|---|---|---|
| Async.SofaTracerFunction.constructor | tracer-core/src/main/java/com/alipay/common/tracer/core/async/SofaTracerFunction.java:40-52 | records the creating thread id, the wrapped function and the given context; the captured span is the context's current span when the context is non-empty and absent otherwise; `getCurrentSpan` is only asked of a non-empty context, so construction needs no precondition and does not change the context |
| Async.CapturedSpan | tracer-core/src/main/java/com/alipay/common/tracer/core/async/SofaTracerFunction.java:44-52 | the snapshot rule: no span exactly when the stack is empty, otherwise the stack's last (current) span |
| Async.SofaTracerFunction.Apply | tracer-core/src/main/java/com/alipay/common/tracer/core/async/SofaTracerFunction.java:54-71 | the call's result and the new context and notification log are exactly those of `Invoke`; the result is the wrapped function's own, run under the re-attached span; with a balanced wrapped function the context ends exactly as it began; the captured span is announced once on a cross-thread call with a captured span and never otherwise; the wrapper's fields are not written |
| Async.SeenStack | tracer-core/src/main/java/com/alipay/common/tracer/core/async/SofaTracerFunction.java:56-63 | while the wrapped function runs, the captured span sits on top of the caller's stack when the call is cross-thread and a span was captured; otherwise the stack is the caller's own |
| Async.Invoke | tracer-core/src/main/java/com/alipay/common/tracer/core/async/SofaTracerFunction.java:55-71 | one invocation: the result or failure is the wrapped function's, unchanged; on the same thread or with no captured span there is no push, no pop and no announcement; on a cross-thread call with a captured span the span is announced exactly once and popped once after the call, on both exit paths; with a balanced wrapped function the context is left exactly as it was |
| Async.InvokeAll | tracer-core/src/main/java/com/alipay/common/tracer/core/async/SofaTracerFunction.java:55-71 | several invocations in a row yield one result per call and only ever append to the notification log |
| Async.RepeatedInvocationsAreIndependent | tracer-core/src/main/java/com/alipay/common/tracer/core/async/SofaTracerFunction.java:31-71 | with a balanced wrapped function, any sequence of calls on any threads leaves the context as it was; each call returns what the wrapped function returns under the same snapshot, whatever came before; the log gains the captured span once per cross-thread call and nothing else |
| TraceContext.Popped | tracer-core/src/main/java/com/alipay/common/tracer/core/async/SofaTracerFunction.java:67 | popping removes exactly the current span, so that appending it back restores the stack; an empty stack stays empty |
| TraceContext.SofaTraceContext.IsEmpty | tracer-core/src/main/java/com/alipay/common/tracer/core/async/SofaTracerFunction.java:47 | a context is empty exactly when its stack has no span |
| TraceContext.SofaTraceContext.CurrentSpan | tracer-core/src/main/java/com/alipay/common/tracer/core/async/SofaTracerFunction.java:48 | the current span of a non-empty context is the last span of its stack |
| TraceContext.SofaTraceContext.Push | tracer-core/src/main/java/com/alipay/common/tracer/core/async/SofaTracerFunction.java:58 | pushing makes the span current and keeps the previous stack beneath it |
| TraceContext.SofaTraceContext.Pop | tracer-core/src/main/java/com/alipay/common/tracer/core/async/SofaTracerFunction.java:67 | popping a non-empty context removes and returns its current span; an empty context is left unchanged |
| SpanExtension.StartedSpanLog.LogStartedSpan | tracer-core/src/main/java/com/alipay/common/tracer/core/async/SofaTracerFunction.java:59 | announcing a started span appends it to the log and changes nothing else |

## Left out

- The one-argument constructor (lines 36-38), which takes the context from the thread-local `SofaTraceContextHolder`: global mutable state in a class that is not part of this model. Only the explicit-context constructor is modelled.
- How the thread id is obtained (`Thread.currentThread().getId()`): it is an argument instead. Thread ids are Java `long`s; only equality is used, so their width does not matter.
- The internals of `SofaTracerSpan` and `SofaTraceContext`: spans are an opaque type parameter and the context is a plain stack. What `pop` does on an empty context is not visible; the model leaves it unchanged and returns no span.
- The logging and metrics behind `SpanExtensionFactory.logStartedSpan`: only the fact and order of the announcements are kept.
- An exception thrown by `push` or by the notifier before the `try` (lines 58-59): the source does not guard that path and the model's collaborators never fail.
- Async.SofaTracerFunction.Apply: the stack-balance guarantee is stated only for a wrapped function that leaves every stack as it found it; for an unbalanced one the model only says the wrapper pops whatever is on top afterwards.
- Concurrency: the context is assumed confined to the invoking thread, as the source assumes without enforcing it; interleavings are not modelled.
- Span values are taken not to be freshly allocated objects (the `!new` type characteristic), which quantifying over them requires.
