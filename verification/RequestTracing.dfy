// The tracer and the context of a request, and the wrapper around every traced function.

module RequestTracing {
  import opened Collections
  import opened TraceSpans
  import opened TracerSpans
  import opened CallRecords

  /** From this position on, every span has ended. */
  ghost predicate EndedFrom(spans: seq<Span>, from: nat) {
    forall i | from <= i < |spans| :: spans[i].end.Some?
  }

  lemma EndedOnward(before: seq<Span>, now: seq<Span>, from: nat)
    requires Grown(before, now) && EndedFrom(before, from) && EndedFrom(now, |before|)
    ensures EndedFrom(now, from)
  {
  }

  lemma {:induction false} StillRecords(before: seq<Span>, now: seq<Span>, c: Call, at: nat, parent: int)
    requires Grown(before, now) && Records(before, c, at, parent)
    ensures Records(now, c, at, parent)
    decreases c, 0
  {
    StillRecordsAll(before, now, c.calls, at + 1, at);
  }

  lemma {:induction false} StillRecordsAll(before: seq<Span>, now: seq<Span>, cs: seq<Call>, at: nat, parent: int)
    requires Grown(before, now) && RecordsAll(before, cs, at, parent)
    ensures RecordsAll(now, cs, at, parent)
    decreases cs, 0
  {
    if cs != [] {
      StillRecords(before, now, cs[0], at, parent);
      StillRecordsAll(before, now, cs[1..], at + Count(cs[0]), parent);
    }
  }

  lemma ExportIsRecord(spans: seq<Span>, clock: int, nextId: Id, c: Call)
    requires WellFormed(spans, clock, nextId) && StartsInOrder(spans)
    requires |spans| == Count(c) && spans[0].name == Some(c.name) && RecordsAll(spans, c.calls, 1, 0)
    ensures RecordsRequest(Exported(spans), c)
  {
    StillRecordsAll(spans, Exported(spans), c.calls, 1, 0);
    ExportKeeps(spans, clock, nextId);
    IdsOfTracer(Exported(spans), clock, nextId);
  }

  lemma IdsOfTracer(spans: seq<Span>, clock: int, nextId: Id)
    requires WellFormed(spans, clock, nextId)
    ensures DistinctIds(spans)
  {
    forall s | s in spans
      ensures Truthy(s.spanId)
    {
      var i :| 0 <= i < |spans| && spans[i] == s;
      assert SpanOk(spans[i], clock, nextId);
    }
  }

  /** The starts of the spans are those of others, in order. */
  lemma StillInOrder(before: seq<Span>, now: seq<Span>)
    requires StartsInOrder(before) && Grown(before, now) && |now| == |before|
    ensures StartsInOrder(now)
  {
  }

  /** A span that starts now starts last. */
  lemma StartsLast(before: seq<Span>, now: seq<Span>, clock: int, nextId: Id)
    requires StartsInOrder(before) && now != [] && before == now[..|now| - 1]
    requires WellFormed(now, clock, nextId) && now[|now| - 1].start == Some(clock)
    ensures StartsInOrder(now) && Grown(before, now)
  {
    forall i | 0 <= i < |now|
      ensures StartOf(now[i]) <= clock
    {
      assert SpanOk(now[i], clock, nextId);
    }
  }

  /** A call's span was added, its own calls recorded, and the span ended: so the call is recorded. */
  lemma {:induction false} CallRecorded(before: seq<Span>, started: seq<Span>, done: seq<Span>, now: seq<Span>, c: Call, parent: nat)
    requires parent < |before| && |started| == |before| + 1 && before == started[..|before|]
    requires started[|before|].name == Some(c.name) && started[|before|].parentId == before[parent].spanId
    requires Grown(started, done) && |done| == |started| + CountAll(c.calls)
    requires RecordsAll(done, c.calls, |started|, |before|) && EndedFrom(done, |started|) && StartsInOrder(done)
    requires |now| == |done| && now[|before|].end.Some? && now == done[|before| := done[|before|].(end := now[|before|].end)]
    ensures Grown(before, now) && |now| == |before| + Count(c) && StartsInOrder(now)
    ensures Records(now, c, |before|, parent) && EndedFrom(now, |before|)
  {
    StillInOrder(done, now);
    StillRecordsAll(done, now, c.calls, |started|, |before|);
  }

  class RequestTracer {
    var spans: seq<Span>
    var clock: int  // the last reading of the performance counter
    var nextId: Id  // ids are drawn without repetition

    ghost predicate Valid()
      reads this
    {
      WellFormed(spans, clock, nextId)
    }

    constructor (operation: Name, now: int)
      ensures Valid() && |spans| == 1 && spans[0].name == Some(operation)
    {
      spans := [Span(Some(1), None, Some(operation), Some(now), None, None)];
      clock := now;
      nextId := 2;
    }

    /** Starts a span under the given parent, which is a span of this tracer, or under the root span. */
    method StartSpan(name: Name, parent: Option<Id>) returns (id: Id)
      requires Valid() && (Truthy(parent) ==> Known(spans, parent.value))
      modifies this
      ensures Valid() && clock >= old(clock) && id == old(nextId) && nextId == id + 1 && !Known(old(spans), id)
      ensures spans == old(spans) + [Started(old(spans)[0].spanId, id, name, parent, clock)]
    {
      var now :| now >= clock;
      StartKeeps(spans, clock, nextId, name, parent, now);
      clock := now;
      id := nextId;
      nextId := nextId + 1;
      var pid := if parent.Some? && parent.value != EMPTY then parent else spans[0].spanId;
      spans := spans + [Span(Some(id), pid, Some(name), Some(now), None, None)];
    }

    method EndSpan(at: nat)
      requires Valid() && at < |spans|
      modifies this
      ensures Valid() && clock >= old(clock)
      ensures spans == old(spans)[at := old(spans)[at].(end := Some(clock))]
    {
      var now :| now >= clock;
      LaterKeeps(spans, clock, nextId, now, nextId);
      clock := now;
      var more := spans[at := spans[at].(end := Some(now))];
      ChangeKeeps(spans, more, clock, nextId);
      spans := more;
    }

    /** Ends the root span and hands over the trace, with the duration of every span. */
    method Finish() returns (trace: seq<Span>)
      requires Valid()
      modifies this
      ensures Valid() && clock >= old(clock) && trace == Exported(spans)
      ensures forall i | 0 <= i < |trace| && trace[i].end.None? :: trace[i].duration == Some(-1.0)
      ensures spans == old(spans)[0 := old(spans)[0].(end := Some(clock))]
    {
      EndSpan(0);
      trace := Exported(spans);
    }
  }

  /** The context variable that holds the current span. */
  class Context {
    var current: Option<Id>

    constructor ()
      ensures current == None
    {
      current := None;
    }
  }

  /** The position of the span that a call made now is a child of. */
  ghost predicate CurrentIs(tracer: RequestTracer, context: Context, parent: nat)
    reads tracer, context
  {
    parent < |tracer.spans|
    && (if context.current.None? then parent == 0 else tracer.spans[parent].spanId == context.current)
  }

  /** A traced function: starts a span under the current one, makes it current for the body, and resets. */
  method Traced(c: Call, tracer: RequestTracer, context: Context, ghost parent: nat)
    requires tracer.Valid() && StartsInOrder(tracer.spans) && CurrentIs(tracer, context, parent)
    modifies tracer, context
    ensures tracer.Valid() && StartsInOrder(tracer.spans) && context.current == old(context.current)
    ensures Grown(old(tracer.spans), tracer.spans) && |tracer.spans| == |old(tracer.spans)| + Count(c)
    ensures Records(tracer.spans, c, |old(tracer.spans)|, parent)
    ensures EndedFrom(tracer.spans, |old(tracer.spans)|)
    decreases c, 0
  {
    var at := |tracer.spans|;
    var token := context.current;
    assert token.Some? ==> token == tracer.spans[parent].spanId;
    assert token.Some? ==> KnownAt(tracer.spans, parent, token.value);
    ghost var before := tracer.spans;
    var id := tracer.StartSpan(c.name, context.current);
    StartsLast(before, tracer.spans, tracer.clock, tracer.nextId);
    context.current := Some(id);
    ghost var started := tracer.spans;
    TracedAll(c.calls, tracer, context, at);
    ghost var done := tracer.spans;
    tracer.EndSpan(at);
    context.current := token;
    CallRecorded(before, started, done, tracer.spans, c, parent);
  }

  /** The body of a traced function makes its calls one after the other. */
  method TracedAll(cs: seq<Call>, tracer: RequestTracer, context: Context, ghost parent: nat)
    requires tracer.Valid() && StartsInOrder(tracer.spans) && CurrentIs(tracer, context, parent)
    modifies tracer, context
    ensures tracer.Valid() && StartsInOrder(tracer.spans) && context.current == old(context.current)
    ensures Grown(old(tracer.spans), tracer.spans) && |tracer.spans| == |old(tracer.spans)| + CountAll(cs)
    ensures RecordsAll(tracer.spans, cs, |old(tracer.spans)|, parent)
    ensures EndedFrom(tracer.spans, |old(tracer.spans)|)
    decreases cs, 0
  {
    if cs != [] {
      Traced(cs[0], tracer, context, parent);
      ghost var first := tracer.spans;
      TracedAll(cs[1..], tracer, context, parent);
      StillRecords(first, tracer.spans, cs[0], |old(tracer.spans)|, parent);
      EndedOnward(first, tracer.spans, |old(tracer.spans)|);
    }
  }

  /**
   * A traced request. Its trace records its calls, so `WaterfallIsCallTree` holds of it, and every span
   * lies within the root, so `MetricsAddUp` does.
   */
  method TraceRequest(operation: Name, calls: seq<Call>, now: int) returns (trace: seq<Span>)
    ensures RecordsRequest(trace, Call(operation, calls)) && Finished(trace)
  {
    var tracer := new RequestTracer(operation, now);
    var context := new Context();
    TracedAll(calls, tracer, context, 0);
    ghost var recorded := tracer.spans;
    trace := tracer.Finish();
    StillInOrder(recorded, tracer.spans);
    StillRecordsAll(recorded, tracer.spans, calls, 1, 0);
    ExportIsRecord(tracer.spans, tracer.clock, tracer.nextId, Call(operation, calls));
    assert forall i | 0 < i < |recorded| :: tracer.spans[i] == recorded[i];
    EndedIsFinished(tracer.spans, tracer.clock, tracer.nextId);
  }
}
