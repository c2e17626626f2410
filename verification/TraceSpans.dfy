// The records that the profiler writes, as the dashboard reads them.

module TraceSpans {
  import opened Collections

  /** A trace or span id, of which only equality and emptiness matter: 0 is the empty string. */
  type Id = int

  const EMPTY: Id := 0

  /** A present and non-empty string. */
  predicate Truthy(id: Option<Id>) { id.Some? && id.value != EMPTY }

  datatype Name = Request | PrimaryCall | OoddCall | OtherName(id: int)

  /** A span of a trace record. Any of its fields can be missing from the record. */
  datatype Span = Span(
    spanId: Option<Id>, parentId: Option<Id>, name: Option<Name>,
    start: Option<int>, end: Option<int>, duration: Option<real>)

  /** Times are in nanoseconds; `start_time_ns` defaults to 0 where it only orders spans. */
  function StartOf(s: Span): int { if s.start.Some? then s.start.value else 0 }

  predicate InferenceCall(s: Span) { s.name == Some(PrimaryCall) || s.name == Some(OoddCall) }
}
