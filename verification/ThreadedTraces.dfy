// What the waterfall and the metrics make of a trace that several threads wrote: everything is
// placed, however the spans are ordered, and the metrics add up.

module ThreadedTraces {
  import opened Collections
  import opened TraceSpans
  import opened TraceRecords
  import opened TraceMerge
  import opened TraceIntervals
  import opened SpanTrees
  import opened SpanGraph
  import opened WaterfallSearch
  import opened TracedSpans
  import opened TracedMetrics
  import opened TracerSpans
  import opened TracerThreads

  /** The same spans, in any order. */
  ghost predicate SameSpans(r: seq<Span>, spans: seq<Span>) {
    UniqueIds(r) && forall s :: s in r <==> s in spans
  }

  /** Where a span was added. */
  ghost function Position(spans: seq<Span>, s: Span): (i: nat)
    requires s in spans
    ensures i < |spans| && spans[i] == s
  {
    var i :| 0 <= i < |spans| && spans[i] == s;
    i
  }

  /** For every span of r, when it was added to the trace. */
  ghost function AddedAt(r: seq<Span>, spans: seq<Span>): (c: seq<int>)
    requires SameSpans(r, spans)
    ensures |c| == |r| && forall j | 0 <= j < |r| :: c[j] == Position(spans, r[j])
  {
    seq(|r|, j requires 0 <= j < |r| => Position(spans, r[j]))
  }

  lemma IdsOfAll(r: seq<Span>, spans: seq<Span>, clock: int, nextId: Id)
    requires WellFormed(spans, clock, nextId) && SameSpans(r, spans)
    ensures HaveIds(r)
  {
    forall s | s in r
      ensures Truthy(s.spanId)
    {
      assert SpanOk(spans[Position(spans, s)], clock, nextId);
    }
  }

  lemma OnePosition(spans: seq<Span>, a: nat, b: nat)
    requires UniqueIds(spans) && a < |spans| && b < |spans| && spans[a].spanId == spans[b].spanId && spans[a].spanId.Some?
    ensures a == b
  {
  }

  /** The span at j in r has no parent, or one that was added before it. */
  lemma ParentAddedBefore(r: seq<Span>, spans: seq<Span>, clock: int, nextId: Id, j: nat)
    requires WellFormed(spans, clock, nextId) && SameSpans(r, spans) && j < |r|
    ensures ParentKey(r, j).None? || exists i :: ParentOfAt(r, AddedAt(r, spans), i, j)
  {
    var p := Position(spans, r[j]);
    if p > 0 {
      assert ParentBefore(spans, p);
      var k :| ParentAt(spans, k, p);
      assert spans[k] in r && SpanOk(spans[k], clock, nextId);
      var i :| 0 <= i < |r| && r[i] == spans[k];
      var at := Position(spans, r[i]);
      OnePosition(spans, at, k);
      assert r[i] in r && Has(r, r[j].parentId);
      assert ParentOfAt(r, AddedAt(r, spans), i, j);
    }
  }

  lemma AddedInOrder(r: seq<Span>, spans: seq<Span>, clock: int, nextId: Id)
    requires WellFormed(spans, clock, nextId) && SameSpans(r, spans)
    ensures CreatedAfterParents(r, AddedAt(r, spans))
  {
    forall j | 0 <= j < |r|
      ensures ParentKey(r, j).None? || exists i :: ParentOfAt(r, AddedAt(r, spans), i, j)
    {
      ParentAddedBefore(r, spans, clock, nextId, j);
    }
  }

  /** The spans are all placed by the search, and the fallback adds none. */
  ghost predicate AllPlaced(spans: seq<Span>) {
    && Ends(GraphOf(spans)) && Unfolds(GraphOf(spans))
    && forall ts | IsForest(GraphOf(spans), ts, GraphOf(spans).roots) ::
         Rows(PreorderAll(ts, 0), |spans|) == PreorderAll(ts, 0)
  }

  lemma PlacedInAnyOrder(r: seq<Span>, spans: seq<Span>, clock: int, nextId: Id)
    requires WellFormed(spans, clock, nextId) && SameSpans(r, spans)
    ensures AllPlaced(r)
  {
    IdsOfAll(r, spans, clock, nextId);
    AddedInOrder(r, spans, clock, nextId);
    FallbackAddsNothing(r, AddedAt(r, spans));
  }

  /**
   * The trace of one tracer, whatever its threads did and in whatever order: ids are unique and present,
   * every parent was added before its children, the search of the waterfall ends and places every span,
   * in whatever order the spans are listed.
   */
  lemma TraceIsPlaced(operation: Name, now: int, moves: seq<Move>, r: seq<Span>)
    requires Moves(Begin(operation, now), moves)
    requires SameSpans(r, Exported(Run(Begin(operation, now), moves).spans))
    ensures UniqueIds(r) && HaveIds(r)
    ensures CreatedAfterParents(r, AddedAt(r, Exported(Run(Begin(operation, now), moves).spans)))
    ensures AllPlaced(r)
  {
    var s := Run(Begin(operation, now), moves);
    BeginOk(operation, now);
    RunKeeps(Begin(operation, now), moves);
    ExportKeeps(s.spans, s.clock, s.nextId);
    IdsOfAll(r, Exported(s.spans), s.clock, s.nextId);
    AddedInOrder(r, Exported(s.spans), s.clock, s.nextId);
    PlacedInAnyOrder(r, Exported(s.spans), s.clock, s.nextId);
  }

  lemma TraceItself(operation: Name, now: int, moves: seq<Move>)
    requires Moves(Begin(operation, now), moves)
    ensures var trace := Exported(Run(Begin(operation, now), moves).spans);
            SameSpans(trace, trace)
  {
    var s := Run(Begin(operation, now), moves);
    BeginOk(operation, now);
    RunKeeps(Begin(operation, now), moves);
    ExportKeeps(s.spans, s.clock, s.nextId);
  }

  lemma OneGroup(r: Record)
    requires UniqueIds(r.spans)
    ensures SameSpans(Merged([r]).spans, r.spans)
  {
    assert AllSpans([r]) == r.spans by {
      assert [r][..0] == [] && [] + r.spans == r.spans;
    }
    UniqueStay(r.spans);
    SortedOnce(r.spans);
    forall s
      ensures s in Merged([r]).spans <==> s in r.spans
    {
      SortedMember(r.spans, s);
    }
  }

  /** So is the trace as it is looked up in a file that holds it once. */
  lemma LookedUpIsPlaced(operation: Name, now: int, moves: seq<Move>, traces: seq<Record>, id: Id, r: Record)
    requires Moves(Begin(operation, now), moves) && r.spans == Exported(Run(Begin(operation, now), moves).spans)
    requires GroupOf(traces, id) == [r]
    ensures Detail(traces, id).Some? && AllPlaced(Detail(traces, id).value.spans)
    ensures forall s :: s in Detail(traces, id).value.spans <==> s in r.spans
  {
    TraceItself(operation, now, moves);
    OneGroup(r);
    TraceIsPlaced(operation, now, moves, Detail(traces, id).value.spans);
  }

  // ---- the metrics ----

  /** Every thread has left the spans that it entered. */
  ghost predicate AllIdle(s: Tracing) {
    forall t | t in s.threads :: Idle(s.threads[t]) && s.threads[t].entered == []
  }

  lemma RootStays(s: Tracing, m: Move)
    requires s.spans != [] && Can(s, m)
    ensures Do(s, m).spans != [] && Do(s, m).spans[0].name == s.spans[0].name
  {
  }

  lemma {:induction false} RootIsKept(s: Tracing, moves: seq<Move>)
    requires s.spans != [] && Moves(s, moves)
    ensures Run(s, moves).spans != [] && Run(s, moves).spans[0].name == s.spans[0].name
    decreases |moves|
  {
    if moves != [] {
      RootStays(s, moves[0]);
      RootIsKept(Do(s, moves[0]), moves[1..]);
    }
  }

  /** Once all threads are idle, the end of the root is the last one missing. */
  lemma AllEnded(s: Tracing)
    requires s.spans != [] && EndsOk(s) && AllIdle(s)
    ensures Do(s, Finish).spans[0].end == Some(s.clock)
    ensures forall i | 0 <= i < |s.spans| :: Do(s, Finish).spans[i].end.Some?
  {
    forall i | 0 < i < |s.spans|
      ensures s.spans[i].end.Some?
    {
      assert forall t :: !EnteredBy(s.threads, t, s.spans[i].spanId);
    }
  }

  lemma OthersHaveParents(spans: seq<Span>, clock: int, nextId: Id)
    requires WellFormed(spans, clock, nextId) && spans[0].name == Some(Request)
    ensures OneRoot(spans)
  {
    forall i | 0 < i < |spans|
      ensures spans[i].parentId.Some?
    {
      assert ParentBefore(spans, i);
      var k :| ParentAt(spans, k, i);
      assert SpanOk(spans[k], clock, nextId);
    }
  }

  /**
   * If the request ends once its threads have left all their spans, its two metrics decompose it, however
   * the spans of the threads overlapped.
   */
  lemma ThreadedMetricsAddUp(now: int, moves: seq<Move>)
    requires Moves(Begin(Request, now), moves) && AllIdle(Run(Begin(Request, now), moves))
    ensures var trace := Exported(Do(Run(Begin(Request, now), moves), Finish).spans);
            && OneRoot(trace) && Finished(trace)
            && (IsInferenceRequest(trace) <==> exists s :: s in trace && InferenceCall(s) && TookTime(s))
            && (IsInferenceRequest(trace) ==>
                  && EdgePodMs(trace).Some? && InferenceRequestMs(trace) == Some(DurationOf(trace[0]))
                  && EdgePodMs(trace).value + WaitMs(trace) == DurationOf(trace[0]))
  {
    var s := Run(Begin(Request, now), moves);
    BeginOk(Request, now);
    RunKeeps(Begin(Request, now), moves);
    RootIsKept(Begin(Request, now), moves);
    RootStays(s, Finish);
    FinishKeeps(s);
    AllEnded(s);
    var s' := Do(s, Finish);
    EndedIsFinished(s'.spans, s'.clock, s'.nextId);
    ExportKeeps(s'.spans, s'.clock, s'.nextId);
    OthersHaveParents(Exported(s'.spans), s'.clock, s'.nextId);
    MetricsAddUp(Exported(s'.spans));
  }
}
