// The waterfall of a trace that was looked up.

module TraceDetail {
  import opened TraceSpans
  import opened TraceRecords
  import opened TraceMerge
  import opened SpanGraph
  import opened WaterfallOrder
  import opened WaterfallSearch

  /**
   * A looked-up trace has unique ids, whatever the records: so its waterfall can be drawn exactly when
   * no span without an id hangs below a root.
   */
  lemma {:induction false} DetailCanBeDrawnIff(traces: seq<Record>, id: Id)
    requires Detail(traces, id).Some?
    ensures var spans := Detail(traces, id).value.spans;
            UniqueIds(spans) && (Ends(GraphOf(spans)) <==> ReachableHaveIds(spans, GraphOf(spans)))
  {
    MergedSpans(GroupOf(traces, id));
    EndsIffReachableHaveIds(Detail(traces, id).value.spans);
  }
}
