// The spans of one tracer are all placed by the search.

module TracedSpans {
  import opened TraceSpans
  import opened TraceRecords
  import opened StableSort
  import opened SpanTrees
  import opened SpanGraph
  import opened WaterfallOrder
  import opened WaterfallSearch

  /** Every span has an id. */
  ghost predicate HaveIds(spans: seq<Span>) {
    forall s | s in spans :: Truthy(s.spanId)
  }

  /**
   * Every span is a root or was created after its parent: `created` is the order of creation, which
   * the order of the record need not follow.
   */
  ghost predicate CreatedAfterParents(spans: seq<Span>, created: seq<int>) {
    && |created| == |spans|
    && (forall i | 0 <= i < |created| :: created[i] >= 0)
    && forall j | 0 <= j < |spans| :: ParentKey(spans, j).None? || exists i :: ParentOfAt(spans, created, i, j)
  }

  ghost predicate ParentOfAt(spans: seq<Span>, created: seq<int>, i: int, j: int)
    requires |created| == |spans| && 0 <= j < |spans|
  {
    0 <= i < |spans| && spans[i].spanId == ParentKey(spans, j) && created[i] < created[j]
  }

  lemma {:induction false} AllReachable(spans: seq<Span>, created: seq<int>, j: int)
    requires CreatedAfterParents(spans, created) && 0 <= j < |spans|
    ensures Reachable(GraphOf(spans), j)
    decreases created[j]
  {
    var g := GraphOf(spans);
    GraphDescribes(spans);
    if ParentKey(spans, j).None? {
      RootReachable(g, j);
    } else {
      var i :| ParentOfAt(spans, created, i, j);
      AllReachable(spans, created, i);
      assert ChildrenAre(spans, spans[i].spanId, g.kids[i]);
      var path :| Chain(g, path) && path[|path| - 1] == i;
      ChainThen(g, path, j);
    }
  }

  /** For the spans of one tracer the search ends and the fallback adds nothing. */
  lemma {:induction false} FallbackAddsNothing(spans: seq<Span>, created: seq<int>)
    requires UniqueIds(spans) && HaveIds(spans) && CreatedAfterParents(spans, created)
    ensures Ends(GraphOf(spans)) && Unfolds(GraphOf(spans))
    ensures forall ts | IsForest(GraphOf(spans), ts, GraphOf(spans).roots) ::
              Rows(PreorderAll(ts, 0), |spans|) == PreorderAll(ts, 0)
  {
    var g := GraphOf(spans);
    EndsIffReachableHaveIds(spans);
    UnfoldsIff(spans);
    forall ts | IsForest(g, ts, g.roots)
      ensures Rows(PreorderAll(ts, 0), |spans|) == PreorderAll(ts, 0)
    {
      var reached := PreorderAll(ts, 0);
      ReachedOnce(spans, ts);
      UnplacedAre(reached, |spans|);
      forall j | 0 <= j < |spans|
        ensures IsPlaced(reached, j)
      {
        AllReachable(spans, created, j);
      }
      NoElements(Unplaced(reached, |spans|));
    }
  }
}
