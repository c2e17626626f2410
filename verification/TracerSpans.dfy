// The list of spans of one tracer: what its methods add to it, what it promises, and what
// the waterfall makes of it.

module TracerSpans {
  import opened Collections
  import opened TraceSpans
  import opened TraceRecords
  import opened TraceIntervals

  /** The duration that a span reports: -1 until it has ended. */
  function DurationOf(s: Span): real {
    if s.start.Some? && s.end.Some? then (s.end.value - s.start.value) as real / NS_PER_MS else -1.0
  }

  /** The spans as they are written, each with its duration. */
  function Exported(spans: seq<Span>): (r: seq<Span>)
    ensures |r| == |spans|
    ensures forall i | 0 <= i < |spans| :: r[i] == spans[i].(duration := Some(DurationOf(spans[i])))
  {
    if spans == [] then []
    else
      var n := |spans| - 1;
      Exported(spans[..n]) + [spans[n].(duration := Some(DurationOf(spans[n])))]
  }

  /** A span just started under a parent or, without one, under the root. */
  function Started(root: Option<Id>, id: Id, name: Name, parent: Option<Id>, now: int): Span {
    Span(Some(id), if Truthy(parent) then parent else root, Some(name), Some(now), None, None)
  }

  /** Span k is the parent that span i names; it was added before span i and had started by its start. */
  ghost predicate ParentAt(spans: seq<Span>, k: int, i: int) {
    && 0 <= k < i < |spans| && spans[k].spanId == spans[i].parentId
    && spans[k].start.Some? && spans[i].start.Some? && spans[k].start.value <= spans[i].start.value
  }

  ghost predicate ParentBefore(spans: seq<Span>, i: int) { exists k :: ParentAt(spans, k, i) }

  /** The span has an id that was drawn, and started and perhaps ended in the past. */
  predicate SpanOk(s: Span, clock: int, nextId: Id) {
    && s.spanId.Some? && 0 < s.spanId.value < nextId
    && s.start.Some? && s.start.value <= clock
    && (s.end.Some? ==> s.start.value <= s.end.value <= clock)
  }

  /** Ids are non-empty and distinct, times in the past; the first span is the root, and every other one has its parent before it. */
  ghost predicate WellFormed(spans: seq<Span>, clock: int, nextId: Id) {
    && spans != [] && nextId > 0 && spans[0].parentId == None
    && (forall i | 0 <= i < |spans| :: SpanOk(spans[i], clock, nextId))
    && UniqueIds(spans)
    && (forall i | 0 < i < |spans| :: ParentBefore(spans, i))
  }

  /** The id is that of a span of the tracer. */
  ghost predicate Known(spans: seq<Span>, id: Id) { exists k :: KnownAt(spans, k, id) }

  predicate KnownAt(spans: seq<Span>, k: int, id: Id) { 0 <= k < |spans| && spans[k].spanId == Some(id) }

  /** Every span has ended, within the time of the first, and reports how long it took. */
  ghost predicate Finished(spans: seq<Span>) {
    && spans != [] && spans[0].start.Some? && spans[0].end.Some?
    && forall i | 0 <= i < |spans| ::
         && spans[i].start.Some? && spans[i].end.Some?
         && spans[0].start.value <= spans[i].start.value <= spans[i].end.value <= spans[0].end.value
         && spans[i].duration == Some(DurationOf(spans[i]))
  }

  // ---- what adding and ending keep ----

  /** Spans are only added, and ended. */
  ghost predicate Grown(before: seq<Span>, now: seq<Span>) {
    && |before| <= |now|
    && forall i | 0 <= i < |before| ::
         && now[i].spanId == before[i].spanId && now[i].parentId == before[i].parentId
         && now[i].name == before[i].name && now[i].start == before[i].start
         && (before[i].end.Some? ==> now[i].end.Some?)
  }

  lemma UniqueThen(spans: seq<Span>, s: Span)
    requires UniqueIds(spans) && forall t | t in spans :: t.spanId != s.spanId
    ensures UniqueIds(spans + [s])
  {
    forall i | 0 <= i < |spans|
      ensures spans[i].spanId != s.spanId
    {
      assert spans[i] in spans;
    }
  }

  lemma AddKeeps(spans: seq<Span>, clock: int, nextId: Id, s: Span, k: int)
    requires WellFormed(spans, clock, nextId) && SpanOk(s, clock, nextId) && forall t | t in spans :: t.spanId != s.spanId
    requires 0 <= k < |spans| && spans[k].spanId == s.parentId && spans[k].start.value <= s.start.value
    ensures WellFormed(spans + [s], clock, nextId)
  {
    var more := spans + [s];
    UniqueThen(spans, s);
    forall i | 0 < i < |more|
      ensures ParentBefore(more, i)
    {
      if i < |spans| {
        assert ParentBefore(spans, i);
        var p :| ParentAt(spans, p, i);
        assert more[p] == spans[p] && more[i] == spans[i];
        assert ParentAt(more, p, i);
      } else {
        assert ParentAt(more, k, i);
      }
    }
  }

  /** Spans that differ in their ends and durations only are still well formed if the ends are. */
  lemma ChangeKeeps(spans: seq<Span>, more: seq<Span>, clock: int, nextId: Id)
    requires WellFormed(spans, clock, nextId) && |more| == |spans|
    requires forall i | 0 <= i < |spans| :: more[i] == spans[i].(end := more[i].end, duration := more[i].duration)
    requires forall i | 0 <= i < |spans| :: SpanOk(more[i], clock, nextId)
    ensures WellFormed(more, clock, nextId)
  {
    forall i | 0 < i < |more|
      ensures ParentBefore(more, i)
    {
      assert ParentBefore(spans, i);
      var p :| ParentAt(spans, p, i);
      assert more[p].spanId == spans[p].spanId && more[p].start == spans[p].start;
      assert more[i].parentId == spans[i].parentId && more[i].start == spans[i].start;
      assert ParentAt(more, p, i);
    }
    assert UniqueIds(more);
  }

  lemma LaterKeeps(spans: seq<Span>, clock: int, nextId: Id, later: int, next: Id)
    requires WellFormed(spans, clock, nextId) && clock <= later && nextId <= next
    ensures WellFormed(spans, later, next)
  {
    forall i | 0 <= i < |spans|
      ensures SpanOk(spans[i], later, next)
    {
      assert SpanOk(spans[i], clock, nextId);
    }
  }

  /** The span that a started span gets as its parent. */
  lemma ParentPosition(spans: seq<Span>, parent: Option<Id>) returns (k: nat)
    requires spans != [] && (Truthy(parent) ==> Known(spans, parent.value))
    ensures k < |spans| && spans[k].spanId == if Truthy(parent) then parent else spans[0].spanId
  {
    k := 0;
    if Truthy(parent) {
      k :| KnownAt(spans, k, parent.value);
    }
  }

  /** A span started under a span of the tracer, or under the root, is well formed. */
  lemma StartKeeps(spans: seq<Span>, clock: int, nextId: Id, name: Name, parent: Option<Id>, now: int)
    requires WellFormed(spans, clock, nextId) && now >= clock && (Truthy(parent) ==> Known(spans, parent.value))
    ensures WellFormed(spans + [Started(spans[0].spanId, nextId, name, parent, now)], now, nextId + 1)
    ensures !Known(spans, nextId)
  {
    var k := ParentPosition(spans, parent);
    var s := Started(spans[0].spanId, nextId, name, parent, now);
    assert SpanOk(spans[k], clock, nextId);
    forall t | t in spans
      ensures t.spanId != s.spanId
    {
      var i :| 0 <= i < |spans| && spans[i] == t;
      assert SpanOk(spans[i], clock, nextId);
    }
    LaterKeeps(spans, clock, nextId, now, nextId + 1);
    AddKeeps(spans, now, nextId + 1, s, k);
  }

  lemma ExportKeeps(spans: seq<Span>, clock: int, nextId: Id)
    requires WellFormed(spans, clock, nextId)
    ensures WellFormed(Exported(spans), clock, nextId)
  {
    forall i | 0 <= i < |spans|
      ensures SpanOk(Exported(spans)[i], clock, nextId)
    {
      assert SpanOk(spans[i], clock, nextId);
    }
    ChangeKeeps(spans, Exported(spans), clock, nextId);
  }

  /** No span started before the root. */
  lemma {:induction false} RootIsEarliest(spans: seq<Span>, clock: int, nextId: Id, i: nat)
    requires WellFormed(spans, clock, nextId) && i < |spans|
    ensures spans[0].start.Some? && spans[i].start.Some? && spans[0].start.value <= spans[i].start.value
    decreases i
  {
    assert SpanOk(spans[0], clock, nextId);
    if i > 0 {
      assert ParentBefore(spans, i);
      var k :| ParentAt(spans, k, i);
      RootIsEarliest(spans, clock, nextId, k);
    }
  }

  /** If every span has ended, the root last, the trace is finished. */
  lemma EndedIsFinished(spans: seq<Span>, clock: int, nextId: Id)
    requires WellFormed(spans, clock, nextId) && spans[0].end == Some(clock)
    requires forall i | 0 <= i < |spans| :: spans[i].end.Some?
    ensures Finished(Exported(spans))
  {
    var trace := Exported(spans);
    assert SpanOk(spans[0], clock, nextId);
    forall i | 0 <= i < |trace|
      ensures trace[i].start.Some? && trace[i].end.Some? && trace[i].duration == Some(DurationOf(trace[i]))
      ensures trace[0].start.value <= trace[i].start.value <= trace[i].end.value <= trace[0].end.value
    {
      assert SpanOk(spans[i], clock, nextId);
      RootIsEarliest(spans, clock, nextId, i);
      DurationKept(spans[i], trace[i]);
    }
  }

  lemma DurationKept(s: Span, exported: Span)
    requires exported.start == s.start && exported.end == s.end
    ensures DurationOf(exported) == DurationOf(s)
  {
  }
}
