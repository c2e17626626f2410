// The metrics of a traced request: the time in the edge endpoint and the time waiting for
// inference add up to the request.

module TracedMetrics {
  import opened Collections
  import opened TraceSpans
  import opened TraceIntervals
  import opened CallRecords
  import opened TracerSpans

  /** The first span is the request, and every other span has a parent. */
  ghost predicate OneRoot(spans: seq<Span>) {
    spans != [] && IsRequest(spans[0]) && forall i | 0 < i < |spans| :: spans[i].parentId.Some?
  }

  /** The trace of a request whose calls ran one after the other is such a trace. */
  lemma RecordHasOneRoot(spans: seq<Span>, c: Call)
    requires RecordsRequest(spans, c) && c.name == Request
    ensures OneRoot(spans)
  {
    forall i | 0 < i < |spans|
      ensures spans[i].parentId.Some?
    {
      KeyIsParent(spans, c, i);
    }
  }

  lemma {:induction false} NoRequestIn(spans: seq<Span>)
    requires forall s | s in spans :: s.parentId.Some?
    ensures RequestDurations(spans) == []
  {
    if spans != [] {
      NoRequestIn(spans[1..]);
    }
  }

  /** Only the root span carries the duration of the request. */
  lemma {:induction false} OneRequest(spans: seq<Span>)
    requires OneRoot(spans) && Finished(spans)
    ensures RequestDurations(spans) == [DurationOf(spans[0])] && DurationOf(spans[0]) >= 0.0
  {
    NoRequestIn(spans[1..]);
  }

  /** Every inference call ran within the request. */
  lemma {:induction false} TracedCallsInside(spans: seq<Span>)
    requires OneRoot(spans) && Finished(spans)
    ensures CallsInside(spans, Interval(spans[0].start.value, spans[0].end.value))
  {
    OneRequest(spans);
    forall v | v in CallIntervals(spans)
      ensures spans[0].start.value <= v.start && v.end <= spans[0].end.value
    {
      CallsAreOf(spans, v);
      var s :| s in spans && CallInterval(s) == [v];
    }
  }

  ghost predicate TookTime(s: Span) { s.start.Some? && s.end.Some? && s.start.value < s.end.value }

  lemma {:induction false} ReachedInference(spans: seq<Span>)
    ensures CallIntervals(spans) != [] <==> exists s :: s in spans && InferenceCall(s) && TookTime(s)
  {
    if s :| s in spans && InferenceCall(s) && TookTime(s) {
      var v := Interval(s.start.value, s.end.value);
      assert CallInterval(s) == [v];
      CallsAreOf(spans, v);
    }
    if CallIntervals(spans) != [] {
      var v := CallIntervals(spans)[0];
      CallsAreOf(spans, v);
      var s :| s in spans && CallInterval(s) == [v];
      assert InferenceCall(s) && TookTime(s);
    }
  }

  /**
   * For a finished trace that reached inference the two metrics exist and decompose the request, however its
   * calls were nested or overlapped; it reached inference exactly if an inference call took any time.
   */
  lemma {:induction false} MetricsAddUp(spans: seq<Span>)
    requires OneRoot(spans) && Finished(spans)
    ensures IsInferenceRequest(spans) <==> exists s :: s in spans && InferenceCall(s) && TookTime(s)
    ensures IsInferenceRequest(spans) ==>
              && EdgePodMs(spans).Some? && InferenceRequestMs(spans) == Some(DurationOf(spans[0]))
              && EdgePodMs(spans).value + WaitMs(spans) == DurationOf(spans[0])
  {
    OneRequest(spans);
    TracedCallsInside(spans);
    ReachedInference(spans);
    if IsInferenceRequest(spans) {
      Decomposition(spans, Interval(spans[0].start.value, spans[0].end.value));
    }
  }
}
