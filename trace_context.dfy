/** The trace context that SofaTracerFunction pushes onto and pops from: a
    stack of spans whose last element is the current span. Only the four
    operations the wrapper calls are modelled. */
module TraceContext {
  import opened Wrappers

  /** The current (most recently pushed) span of a non-empty stack. */
  function Top<Span>(stack: seq<Span>): Span
    requires stack != []
  {
    stack[|stack| - 1]
  }

  /** The stack with its current span removed; an empty stack stays empty. */
  function Popped<Span>(stack: seq<Span>): (rest: seq<Span>)
    ensures stack != [] ==> rest + [Top(stack)] == stack
    ensures stack == [] ==> rest == []
  {
    if stack == [] then [] else stack[..|stack| - 1]
  }

  class SofaTraceContext<Span> {
    var stack: seq<Span>

    constructor (stack: seq<Span>)
      ensures this.stack == stack
    {
      this.stack := stack;
    }

    function IsEmpty(): (empty: bool)
      reads this
      ensures empty <==> |stack| == 0
    {
      stack == []
    }

    /** Defined only on a non-empty context. */
    function CurrentSpan(): (span: Span)
      reads this
      requires !IsEmpty()
      ensures [span] == stack[|stack| - 1..]
    {
      Top(stack)
    }

    /** Makes `span` current, keeping the previous current span beneath it. */
    method Push(span: Span)
      modifies this
      ensures stack == old(stack) + [span]
      ensures !IsEmpty() && CurrentSpan() == span && Popped(stack) == old(stack)
    {
      stack := stack + [span];
    }

    /** Removes the current span and hands it back; on an empty context
        nothing changes and no span comes back. */
    method Pop() returns (top: Option<Span>)
      modifies this
      ensures old(stack) == [] ==> top == None && stack == []
      ensures old(stack) != [] ==> top == Some(Top(old(stack))) && stack + [top.value] == old(stack)
    {
      if stack == [] {
        top := None;
      } else {
        top := Some(Top(stack));
        stack := Popped(stack);
      }
    }
  }
}
