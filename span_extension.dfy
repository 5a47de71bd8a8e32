/** The span-start notification hook. Its logging and metrics are outside the
    model; what stays is the order in which spans were announced as started. */
module SpanExtension {

  class StartedSpanLog<Span> {
    var started: seq<Span>

    constructor ()
      ensures started == []
    {
      started := [];
    }

    /** Records that `span` became active on the current thread. */
    method LogStartedSpan(span: Span)
      modifies this
      ensures started == old(started) + [span]
    {
      started := started + [span];
    }
  }
}
