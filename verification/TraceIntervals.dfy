// The time a request spends in the edge endpoint itself: its duration minus the time
// during which at least one inference call was outstanding.

module TraceIntervals {
  import opened Collections
  import opened TraceSpans
  import opened StableSort

  /** From `start` up to but not including `end`. */
  datatype Interval = Interval(start: int, end: int)

  const NS_PER_MS: real := 1_000_000.0

  // ---- what the sweep measures ----

  predicate Running(v: Interval, t: int) { v.start <= t < v.end }

  function Instants(v: Interval): set<int> { set t | v.start <= t < v.end && Running(v, t) }

  /** The instants at which at least one of the intervals is running. */
  function Covered(vs: seq<Interval>): set<int> {
    if vs == [] then {} else Instants(vs[0]) + Covered(vs[1..])
  }

  lemma {:induction false} CoveredMeans(vs: seq<Interval>, t: int)
    ensures t in Covered(vs) <==> exists v :: v in vs && Running(v, t)
  {
    if vs != [] {
      CoveredMeans(vs[1..], t);
      assert forall v :: v in vs <==> v == vs[0] || v in vs[1..];
    }
  }

  ghost predicate SameMembers<T(!new)>(xs: seq<T>, ys: seq<T>) {
    forall x :: x in xs <==> x in ys
  }

  lemma CoveredOfSame(vs: seq<Interval>, ws: seq<Interval>)
    requires SameMembers(vs, ws)
    ensures Covered(vs) == Covered(ws)
  {
    forall t
      ensures t in Covered(vs) <==> t in Covered(ws)
    {
      CoveredMeans(vs, t);
      CoveredMeans(ws, t);
    }
  }

  lemma {:induction false} InstantsCount(v: Interval)
    requires v.start <= v.end
    ensures |Instants(v)| == v.end - v.start
    decreases v.end - v.start
  {
    if v.start == v.end {
      assert Instants(v) == {};
    } else {
      InstantsCount(Interval(v.start, v.end - 1));
      assert Instants(v) == Instants(Interval(v.start, v.end - 1)) + {v.end - 1};
    }
  }

  // ---- extraction ----

  /** The name and the place of the span that carries the duration of the whole request. */
  predicate IsRequest(s: Span) { s.name == Some(Request) && s.parentId.None? }

  /** The durations of the request spans, in order. */
  function RequestDurations(spans: seq<Span>): seq<real> {
    if spans == [] then [] else RequestDuration(spans[0]) + RequestDurations(spans[1..])
  }

  function RequestDuration(s: Span): seq<real> {
    if IsRequest(s) && s.duration.Some? && s.duration.value >= 0.0 then [s.duration.value] else []
  }

  /** The intervals of the inference calls, in order. */
  function CallIntervals(spans: seq<Span>): seq<Interval> {
    if spans == [] then [] else CallInterval(spans[0]) + CallIntervals(spans[1..])
  }

  function CallInterval(s: Span): seq<Interval> {
    if !IsRequest(s) && InferenceCall(s) && s.start.Some? && s.end.Some? && s.end.value > s.start.value
    then [Interval(s.start.value, s.end.value)] else []
  }

  function LastOf(xs: seq<real>): Option<real> { if xs == [] then None else Some(xs[|xs| - 1]) }

  lemma {:induction false} DurationsOfBoth(a: seq<Span>, b: seq<Span>)
    ensures RequestDurations(a + b) == RequestDurations(a) + RequestDurations(b)
  {
    if a == [] {
      assert a + b == b;
    } else {
      DurationsOfBoth(a[1..], b);
      assert (a + b)[0] == a[0] && (a + b)[1..] == a[1..] + b;
      Associative(RequestDuration(a[0]), RequestDurations(a[1..]), RequestDurations(b));
    }
  }

  lemma {:induction false} CallsOfBoth(a: seq<Span>, b: seq<Span>)
    ensures CallIntervals(a + b) == CallIntervals(a) + CallIntervals(b)
  {
    if a == [] {
      assert a + b == b;
    } else {
      CallsOfBoth(a[1..], b);
      assert (a + b)[0] == a[0] && (a + b)[1..] == a[1..] + b;
      Associative(CallInterval(a[0]), CallIntervals(a[1..]), CallIntervals(b));
    }
  }

  lemma {:induction false} OneMoreSpan(spans: seq<Span>, s: Span)
    ensures LastOf(RequestDurations(spans + [s]))
            == if RequestDuration(s) == [] then LastOf(RequestDurations(spans)) else Some(RequestDuration(s)[0])
    ensures CallIntervals(spans + [s]) == CallIntervals(spans) + CallInterval(s)
  {
    DurationsOfBoth(spans, [s]);
    CallsOfBoth(spans, [s]);
    assert [s][1..] == [];
    assert RequestDurations([s]) == RequestDuration(s) && CallIntervals([s]) == CallInterval(s);
  }

  /** The span is an inference call over the interval v, which is not empty. */
  ghost predicate CallOver(s: Span, v: Interval) {
    s.name in {Some(PrimaryCall), Some(OoddCall)} && s.start == Some(v.start) && s.end == Some(v.end) && v.start < v.end
  }

  /** The span says that the request took d milliseconds. */
  ghost predicate RequestOf(s: Span, d: real) {
    s.name == Some(Request) && s.parentId == None && s.duration == Some(d) && 0.0 <= d
  }

  /** Span i is the last that says how long the request took. */
  ghost predicate LastRequest(spans: seq<Span>, i: int, d: real) {
    0 <= i < |spans| && RequestOf(spans[i], d) && forall j, e | i < j < |spans| :: !RequestOf(spans[j], e)
  }

  lemma {:induction false} CallsAre(spans: seq<Span>, v: Interval)
    ensures v in CallIntervals(spans) <==> exists s :: s in spans && CallOver(s, v)
  {
    CallsAreOf(spans, v);
    forall s
      ensures CallInterval(s) == [v] <==> CallOver(s, v)
    {
      assert CallInterval(s) == [v] ==> CallInterval(s)[0] == v;
    }
  }

  /** The last request among the spans took this long, or there is none. */
  ghost predicate LastIs(spans: seq<Span>, last: Option<real>) {
    if last.None? then forall s, d | s in spans :: !RequestOf(s, d) else exists i :: LastRequest(spans, i, last.value)
  }

  lemma DurationIs(s: Span)
    ensures RequestDuration(s) != [] ==> RequestOf(s, RequestDuration(s)[0])
    ensures RequestDuration(s) == [] ==> forall d :: !RequestOf(s, d)
  {
  }

  lemma {:induction false} LastThen(spans: seq<Span>, s: Span, last: Option<real>)
    requires LastIs(spans, last)
    ensures LastIs(spans + [s], if RequestDuration(s) == [] then last else Some(RequestDuration(s)[0]))
  {
    DurationIs(s);
    if RequestDuration(s) != [] {
      assert LastRequest(spans + [s], |spans|, RequestDuration(s)[0]);
    } else if last.Some? {
      var i :| LastRequest(spans, i, last.value);
      assert LastRequest(spans + [s], i, last.value);
    }
  }

  lemma {:induction false} LastDurationIs(spans: seq<Span>)
    ensures LastIs(spans, LastOf(RequestDurations(spans)))
  {
    if spans != [] {
      var n := |spans| - 1;
      LastDurationIs(spans[..n]);
      OneMoreSpan(spans[..n], spans[n]);
      LastThen(spans[..n], spans[n], LastOf(RequestDurations(spans[..n])));
      assert spans == spans[..n] + [spans[n]];
    }
  }

  /** What the pass has found in these spans. */
  ghost predicate Extracted(spans: seq<Span>, requestMs: Option<real>, intervals: seq<Interval>) {
    requestMs == LastOf(RequestDurations(spans)) && intervals == CallIntervals(spans)
  }

  lemma {:induction false} ExtractedThen(spans: seq<Span>, i: nat, requestMs: Option<real>, intervals: seq<Interval>)
    requires i < |spans| && Extracted(spans[..i], requestMs, intervals)
    ensures Extracted(spans[..i + 1],
                      if RequestDuration(spans[i]) == [] then requestMs else Some(RequestDuration(spans[i])[0]),
                      intervals + CallInterval(spans[i]))
  {
    OneMoreSpan(spans[..i], spans[i]);
    assert spans[..i + 1] == spans[..i] + [spans[i]];
  }

  /** One pass over the spans: the last request duration, and the inference calls. */
  method Extract(spans: seq<Span>) returns (requestMs: Option<real>, intervals: seq<Interval>)
    ensures Extracted(spans, requestMs, intervals)
    ensures forall v :: v in intervals <==> exists s :: s in spans && CallOver(s, v)
    ensures requestMs.Some? ==> exists i :: LastRequest(spans, i, requestMs.value)
    ensures requestMs.None? ==> forall s, d | s in spans :: !RequestOf(s, d)
  {
    requestMs, intervals := None, [];
    LastDurationIs(spans);
    forall v
      ensures v in CallIntervals(spans) <==> exists s :: s in spans && CallOver(s, v)
    {
      CallsAre(spans, v);
    }
    for i := 0 to |spans|
      invariant Extracted(spans[..i], requestMs, intervals)
    {
      var s := spans[i];
      ExtractedThen(spans, i, requestMs, intervals);
      if s.name == Some(Request) && s.parentId == None {
        if s.duration.Some? && s.duration.value >= 0.0 {
          requestMs := s.duration;
        }
      } else if s.name == Some(PrimaryCall) || s.name == Some(OoddCall) {
        if s.start.Some? && s.end.Some? && s.end.value > s.start.value {
          intervals := intervals + [Interval(s.start.value, s.end.value)];
        }
      }
    }
    assert spans[..|spans|] == spans;
  }

  // ---- the sweep ----

  function ByStart(vs: seq<Interval>): seq<Keyed<Interval>> {
    seq(|vs|, i requires 0 <= i < |vs| => Keyed(vs[i].start, vs[i]))
  }

  function ByEnd(vs: seq<Interval>): seq<Keyed<Interval>> {
    seq(|vs|, i requires 0 <= i < |vs| => Keyed(vs[i].end, vs[i]))
  }

  /** The intervals by start, those with equal starts by end. */
  function Ordered(vs: seq<Interval>): seq<Interval> {
    Values(Sort(ByStart(Values(Sort(ByEnd(vs))))))
  }

  /** Sorting under any keys keeps the elements. */
  lemma SortedValues(vs: seq<Interval>, keyed: seq<Keyed<Interval>>)
    requires |keyed| == |vs| && forall i | 0 <= i < |vs| :: keyed[i].value == vs[i]
    ensures |Values(Sort(keyed))| == |vs| && SameMembers(Values(Sort(keyed)), vs)
  {
    SortMembers(keyed);
    var sorted := Sort(keyed);
    forall v | v in vs
      ensures v in Values(sorted)
    {
      var i :| 0 <= i < |vs| && vs[i] == v;
      assert keyed[i] in sorted;
      var j :| 0 <= j < |sorted| && sorted[j] == keyed[i];
      assert Values(sorted)[j] == v;
    }
    forall v | v in Values(sorted)
      ensures v in vs
    {
      var j :| 0 <= j < |sorted| && Values(sorted)[j] == v;
      assert sorted[j] in keyed;
    }
  }

  lemma StartsSorted(vs: seq<Interval>)
    ensures var r := Values(Sort(ByStart(vs))); forall i, j | 0 <= i < j < |r| :: r[i].start <= r[j].start
  {
    var keyed := Sort(ByStart(vs));
    SortSorts(ByStart(vs));
    SortMembers(ByStart(vs));
    forall i | 0 <= i < |keyed|
      ensures keyed[i].key == keyed[i].value.start
    {
      SortMember(ByStart(vs), i);
      assert keyed[i] in ByStart(vs);
    }
  }

  lemma OrderedIsSorted(vs: seq<Interval>)
    ensures |Ordered(vs)| == |vs| && SameMembers(Ordered(vs), vs)
    ensures forall i, j | 0 <= i < j < |Ordered(vs)| :: Ordered(vs)[i].start <= Ordered(vs)[j].start
  {
    var half := Values(Sort(ByEnd(vs)));
    SortedValues(vs, ByEnd(vs));
    SortedValues(half, ByStart(half));
    StartsSorted(half);
  }

  lemma CoveredThen(vs: seq<Interval>, v: Interval)
    ensures Covered(vs + [v]) == Covered(vs) + Instants(v)
  {
    forall t
      ensures t in Covered(vs + [v]) <==> t in Covered(vs) + Instants(v)
    {
      CoveredMeans(vs + [v], t);
      CoveredMeans(vs, t);
      assert forall w :: w in vs + [v] <==> w in vs || w == v;
    }
  }

  /** What the sweep keeps: `closed` are the instants before the current run, which lasts from start to end. */
  ghost predicate Swept(vs: seq<Interval>, closed: set<int>, start: int, end: int) {
    && start < end
    && (forall t | t in closed :: t < start)
    && Covered(vs) == closed + Instants(Interval(start, end))
  }

  lemma SweptCount(vs: seq<Interval>, closed: set<int>, start: int, end: int)
    requires Swept(vs, closed, start, end)
    ensures |Covered(vs)| == |closed| + end - start
  {
    InstantsCount(Interval(start, end));
    DisjointSize(closed, Instants(Interval(start, end)));
  }

  lemma SweptFirst(vs: seq<Interval>)
    requires vs != [] && vs[0].start < vs[0].end
    ensures Swept(vs[..1], {}, vs[0].start, vs[0].end)
  {
    assert vs[..1] == [] + [vs[0]];
    CoveredThen([], vs[0]);
  }

  /** The next interval extends the current run, or starts a new one. */
  lemma SweptNext(vs: seq<Interval>, i: nat, closed: set<int>, start: int, end: int)
    requires i < |vs| && Swept(vs[..i], closed, start, end) && start <= vs[i].start < vs[i].end
    ensures |Covered(vs[..i])| == |closed| + end - start
    ensures vs[i].start <= end ==> Swept(vs[..i + 1], closed, start, if end < vs[i].end then vs[i].end else end)
    ensures vs[i].start > end ==> Swept(vs[..i + 1], Covered(vs[..i]), vs[i].start, vs[i].end)
  {
    SweptCount(vs[..i], closed, start, end);
    CoveredThen(vs[..i], vs[i]);
    assert vs[..i + 1] == vs[..i] + [vs[i]];
    if vs[i].start <= end {
      RunsJoin(Interval(start, end), vs[i]);
    }
  }

  lemma RunsJoin(a: Interval, b: Interval)
    requires a.start <= b.start <= a.end
    ensures Instants(a) + Instants(b) == Instants(Interval(a.start, if a.end < b.end then b.end else a.end))
  {
  }

  method SortIntervals(intervals: seq<Interval>) returns (sorted: seq<Interval>)
    ensures sorted == Ordered(intervals)
    ensures |sorted| == |intervals| && SameMembers(sorted, intervals)
    ensures forall i, j | 0 <= i < j < |sorted| :: sorted[i].start <= sorted[j].start
  {
    OrderedIsSorted(intervals);
    sorted := Ordered(intervals);
  }

  /** Merges the sorted intervals into runs; the lengths of the runs add up to the number of covered instants. */
  method UnionNs(intervals: seq<Interval>) returns (unionNs: nat)
    requires intervals != [] && forall v | v in intervals :: v.start < v.end
    ensures unionNs == |Covered(intervals)|
  {
    var sorted := SortIntervals(intervals);
    CoveredOfSame(sorted, intervals);
    unionNs := 0;
    var curStart, curEnd := sorted[0].start, sorted[0].end;
    assert sorted[0] in sorted;
    ghost var closed: set<int> := {};
    SweptFirst(sorted);
    for i := 1 to |sorted|
      invariant Swept(sorted[..i], closed, curStart, curEnd) && unionNs == |closed|
      invariant curStart <= sorted[i - 1].start
    {
      assert sorted[i] in sorted;
      SweptNext(sorted, i, closed, curStart, curEnd);
      if sorted[i].start <= curEnd {
        curEnd := if curEnd < sorted[i].end then sorted[i].end else curEnd;
      } else {
        closed := Covered(sorted[..i]);
        unionNs := unionNs + (curEnd - curStart);
        curStart, curEnd := sorted[i].start, sorted[i].end;
      }
    }
    assert sorted[..|sorted|] == sorted;
    SweptCount(sorted, closed, curStart, curEnd);
    unionNs := unionNs + (curEnd - curStart);
  }

  // ---- the two derived metrics ----

  /** Waiting time of a request: how long at least one inference call was outstanding, in milliseconds. */
  function WaitMs(spans: seq<Span>): real {
    |Covered(CallIntervals(spans))| as real / NS_PER_MS
  }

  /** The value is defined for requests that reached inference. */
  predicate IsInferenceRequest(spans: seq<Span>) {
    LastOf(RequestDurations(spans)).Some? && CallIntervals(spans) != []
  }

  /** The duration of the request; of several request spans the last one counts. */
  function InferenceRequestMs(spans: seq<Span>): Option<real> {
    if IsInferenceRequest(spans) then LastOf(RequestDurations(spans)) else None
  }

  function EdgePodMs(spans: seq<Span>): Option<real> {
    OwnMs(LastOf(RequestDurations(spans)), CallIntervals(spans))
  }

  function OwnMs(request: Option<real>, calls: seq<Interval>): Option<real> {
    if request.None? || calls == [] then None
    else
      var own := request.value - |Covered(calls)| as real / NS_PER_MS;
      Some(if own < 0.0 then 0.0 else own)
  }

  lemma {:induction false} CallsArePositive(spans: seq<Span>)
    ensures forall v | v in CallIntervals(spans) :: v.start < v.end
  {
    if spans != [] {
      CallsArePositive(spans[1..]);
    }
  }

  method ComputeEdgePodMs(spans: seq<Span>) returns (ms: Option<real>)
    ensures ms == EdgePodMs(spans)
  {
    var requestMs, intervals := Extract(spans);
    if requestMs.None? || intervals == [] {
      return None;
    }
    CallsArePositive(spans);
    var unionNs := UnionNs(intervals);
    var own := requestMs.value - unionNs as real / NS_PER_MS;
    return Some(if own < 0.0 then 0.0 else own);
  }

  method ComputeInferenceRequestMs(spans: seq<Span>) returns (ms: Option<real>)
    ensures ms == InferenceRequestMs(spans)
  {
    var requestMs, intervals := Extract(spans);
    ms := if requestMs.None? || intervals == [] then None else requestMs;
  }

  // ---- what the metrics promise ----

  /** The calls run inside a span that lasts as long as the request says. */
  predicate CallsInside(spans: seq<Span>, root: Interval) {
    && root.start <= root.end
    && LastOf(RequestDurations(spans)) == Some((root.end - root.start) as real / NS_PER_MS)
    && forall v | v in CallIntervals(spans) :: root.start <= v.start && v.end <= root.end
  }

  /** The union of the calls fits in the request. */
  lemma UnionFits(spans: seq<Span>, root: Interval)
    requires CallsInside(spans, root)
    ensures |Covered(CallIntervals(spans))| <= root.end - root.start
  {
    var covered := Covered(CallIntervals(spans));
    forall t | t in covered
      ensures t in Instants(root)
    {
      CoveredMeans(CallIntervals(spans), t);
    }
    InstantsCount(root);
    SubsetSize(covered, Instants(root));
  }

  /**
   * The decomposition that the metrics are for: when the calls lie inside the request, the time in the
   * edge endpoint and the time waiting for inference add up to the request.
   */
  lemma Decomposition(spans: seq<Span>, root: Interval)
    requires IsInferenceRequest(spans) && CallsInside(spans, root)
    ensures EdgePodMs(spans).Some? && InferenceRequestMs(spans).Some?
    ensures EdgePodMs(spans).value + WaitMs(spans) == InferenceRequestMs(spans).value
  {
    UnionFits(spans, root);
  }

  /** In general the decomposition holds exactly when the waiting time is no longer than the request. */
  lemma DecompositionIff(spans: seq<Span>)
    requires IsInferenceRequest(spans)
    ensures EdgePodMs(spans).value + WaitMs(spans) == InferenceRequestMs(spans).value
            <==> WaitMs(spans) <= InferenceRequestMs(spans).value
    ensures 0.0 <= EdgePodMs(spans).value
  {
  }

  /** A request of one millisecond with an inference call of two. */
  const LONG_CALL: seq<Span> := [
    Span(Some(1), None, Some(Request), Some(0), Some(1_000_000), Some(1.0)),
    Span(Some(2), Some(1), Some(PrimaryCall), Some(0), Some(2_000_000), Some(2.0))]

  /** There the edge endpoint is said to take no time, and the two metrics add up to twice the request. */
  lemma {:induction false} LongCallBreaksDecomposition()
    ensures IsInferenceRequest(LONG_CALL) && InferenceRequestMs(LONG_CALL) == Some(1.0)
    ensures EdgePodMs(LONG_CALL) == Some(0.0) && WaitMs(LONG_CALL) == 2.0
  {
    var call := Interval(0, 2_000_000);
    assert LONG_CALL[1..] == [LONG_CALL[1]] && LONG_CALL[1..][1..] == [];
    assert CallInterval(LONG_CALL[1]) == [call] && CallInterval(LONG_CALL[0]) == [];
    assert CallIntervals(LONG_CALL[1..]) == [call];
    assert CallIntervals(LONG_CALL) == [call];
    assert RequestDurations(LONG_CALL[1..]) == [];
    assert RequestDurations(LONG_CALL) == [1.0];
    assert Covered([call]) == Instants(call) by {
      assert [call][1..] == [];
    }
    InstantsCount(call);
  }

  /** Calls that run in parallel are counted once: the waiting time is at most the sum of the calls. */
  lemma {:induction false} UnionAtMostSum(vs: seq<Interval>)
    requires forall v | v in vs :: v.start < v.end
    ensures |Covered(vs)| <= Sum(vs)
  {
    if vs != [] {
      UnionAtMostSum(vs[1..]);
      InstantsCount(vs[0]);
      var rest := Covered(vs[1..]);
      assert Covered(vs) == (Instants(vs[0]) - rest) + rest;
      SubsetSize(Instants(vs[0]) - rest, Instants(vs[0]));
      DisjointSize(Instants(vs[0]) - rest, rest);
    }
  }

  function Sum(vs: seq<Interval>): int {
    if vs == [] then 0 else vs[0].end - vs[0].start + Sum(vs[1..])
  }

  lemma {:induction false} CallsAreOf(spans: seq<Span>, v: Interval)
    ensures v in CallIntervals(spans) <==> exists s :: s in spans && CallInterval(s) == [v]
  {
    if spans != [] {
      CallsAreOf(spans[1..], v);
      assert forall s :: s in spans <==> s == spans[0] || s in spans[1..];
    }
  }

  lemma SameCalls(spans: seq<Span>, others: seq<Span>)
    requires SameMembers(spans, others)
    ensures SameMembers(CallIntervals(spans), CallIntervals(others))
    ensures CallIntervals(spans) == [] <==> CallIntervals(others) == []
  {
    var calls, calls' := CallIntervals(spans), CallIntervals(others);
    forall v
      ensures v in calls <==> v in calls'
    {
      CallsAreOf(spans, v);
      CallsAreOf(others, v);
    }
    assert calls != [] ==> calls[0] in calls';
    assert calls' != [] ==> calls'[0] in calls;
  }

  /** The order of the spans in the record does not matter, as long as the request is the same. */
  lemma OrderDoesNotMatter(spans: seq<Span>, others: seq<Span>)
    requires SameMembers(spans, others)
    requires LastOf(RequestDurations(spans)) == LastOf(RequestDurations(others))
    ensures EdgePodMs(spans) == EdgePodMs(others)
  {
    SameCalls(spans, others);
    CoveredOfSame(CallIntervals(spans), CallIntervals(others));
  }
}
