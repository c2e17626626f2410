// One tracer in several threads: each has a context of its own, copied from the one it was
// spawned in, and starts and ends spans of the same tracer.

module TracerThreads {
  import opened Collections
  import opened TraceSpans
  import opened TracerSpans

  /**
   * A thread that runs in a copied context. `base` is the current span of that context when it was copied,
   * `entered` are the spans this thread entered and has not left, the innermost last, and `building` is
   * a span whose id and start were drawn, but which is not in the trace yet.
   */
  datatype Thread = Thread(base: Option<Id>, entered: seq<Id>, building: Option<Span>)

  /** The tracer, the threads by number, the clock, and the next id to be drawn. */
  datatype Tracing = Tracing(spans: seq<Span>, threads: map<nat, Thread>, clock: int, nextId: Id)

  datatype Move =
    | Pass(ticks: nat)
    | Spawn(from: nat, t: nat)
    | Build(t: nat, name: Name) // the span is made
    | Add(t: nat)               // it is appended under the lock, and becomes current
    | Leave(t: nat)             // the innermost span is ended, and the one before is current again
    | Finish

  /** The value of the context variable. */
  function Current(t: Thread): Option<Id> {
    if t.entered == [] then t.base else Some(t.entered[|t.entered| - 1])
  }

  predicate Idle(t: Thread) { t.building.None? }

  predicate Can(s: Tracing, m: Move) {
    match m
    case Pass(_) => true
    case Spawn(from, t) => from in s.threads && Idle(s.threads[from]) && t !in s.threads
    case Build(t, _) => t in s.threads && Idle(s.threads[t])
    case Add(t) => t in s.threads && s.threads[t].building.Some? && s.threads[t].building.value.spanId.Some?
    case Leave(t) => t in s.threads && Idle(s.threads[t]) && s.threads[t].entered != []
    case Finish => true
  }

  /** The span with this id is ended. */
  function Ended(spans: seq<Span>, id: Option<Id>, now: int): (r: seq<Span>)
    ensures |r| == |spans|
    ensures forall i | 0 <= i < |spans| :: r[i] == if spans[i].spanId == id then spans[i].(end := Some(now)) else spans[i]
  {
    seq(|spans|, i requires 0 <= i < |spans| => if spans[i].spanId == id then spans[i].(end := Some(now)) else spans[i])
  }

  function RootId(spans: seq<Span>): Option<Id> { if spans == [] then None else spans[0].spanId }

  function SetThread(s: Tracing, t: nat, to: Thread): Tracing { s.(threads := s.threads[t := to]) }

  function Do(s: Tracing, m: Move): Tracing
    requires Can(s, m)
  {
    match m
    case Pass(ticks) => s.(clock := s.clock + ticks)
    case Spawn(from, t) => SetThread(s, t, Thread(Current(s.threads[from]), [], None))
    case Build(t, name) =>
      var span := Started(RootId(s.spans), s.nextId, name, Current(s.threads[t]), s.clock);
      SetThread(s, t, s.threads[t].(building := Some(span))).(nextId := s.nextId + 1)
    case Add(t) =>
      var span := s.threads[t].building.value;
      SetThread(s, t, s.threads[t].(entered := s.threads[t].entered + [span.spanId.value], building := None))
        .(spans := s.spans + [span])
    case Leave(t) =>
      var th := s.threads[t];
      SetThread(s, t, th.(entered := th.entered[..|th.entered| - 1])).(spans := Ended(s.spans, Current(th), s.clock))
    case Finish => s.(spans := Ended(s.spans, RootId(s.spans), s.clock))
  }

  /** A tracer just made, and the thread of the request. */
  function Begin(operation: Name, now: int): Tracing {
    Tracing([Span(Some(1), None, Some(operation), Some(now), None, None)], map[0 := Thread(None, [], None)], now, 2)
  }

  predicate Moves(s: Tracing, moves: seq<Move>)
    decreases |moves|
  {
    moves == [] || (Can(s, moves[0]) && Moves(Do(s, moves[0]), moves[1..]))
  }

  function Run(s: Tracing, moves: seq<Move>): Tracing
    requires Moves(s, moves)
    decreases |moves|
  {
    if moves == [] then s else Run(Do(s, moves[0]), moves[1..])
  }

  // ---- what every interleaving keeps ----

  /** The current span, now and after leaving, is one of the tracer's. */
  ghost predicate ContextOk(spans: seq<Span>, t: Thread) {
    && (t.base.Some? ==> Known(spans, t.base.value))
    && (forall id | id in t.entered :: Known(spans, id))
  }

  predicate ParentOf(spans: seq<Span>, k: int, s: Span) {
    && 0 <= k < |spans| && spans[k].spanId == s.parentId
    && spans[k].start.Some? && s.start.Some? && spans[k].start.value <= s.start.value
  }

  /** A span that is being built has an id of its own, and its parent is in the trace. */
  ghost predicate BuildingOk(s: Tracing, b: Span) {
    && SpanOk(b, s.clock, s.nextId) && b.end.None?
    && (forall other | other in s.spans :: other.spanId != b.spanId)
    && exists k :: ParentOf(s.spans, k, b)
  }

  ghost predicate ThreadOk(s: Tracing, t: Thread) {
    ContextOk(s.spans, t) && (t.building.Some? ==> BuildingOk(s, t.building.value))
  }

  ghost predicate OwnIds(threads: map<nat, Thread>) {
    forall t, u | t in threads && u in threads && t != u && threads[t].building.Some? && threads[u].building.Some? ::
      threads[t].building.value.spanId != threads[u].building.value.spanId
  }

  /** A span other than the root that has not ended was entered by some thread and not left. */
  ghost predicate EndsOk(s: Tracing) {
    forall i | 0 < i < |s.spans| && s.spans[i].end.None? :: exists t :: EnteredBy(s.threads, t, s.spans[i].spanId)
  }

  predicate EnteredBy(threads: map<nat, Thread>, t: nat, id: Option<Id>) {
    t in threads && id.Some? && id.value in threads[t].entered
  }

  ghost predicate Inv(s: Tracing) {
    && WellFormed(s.spans, s.clock, s.nextId)
    && (forall t | t in s.threads :: ThreadOk(s, s.threads[t]))
    && OwnIds(s.threads) && EndsOk(s)
  }

  lemma KnownStays(spans: seq<Span>, more: seq<Span>, id: Id)
    requires Grown(spans, more) && Known(spans, id)
    ensures Known(more, id)
  {
    var k :| KnownAt(spans, k, id);
    assert more[k].spanId == spans[k].spanId && KnownAt(more, k, id);
  }

  lemma ContextStays(spans: seq<Span>, more: seq<Span>, t: Thread)
    requires Grown(spans, more) && ContextOk(spans, t)
    ensures ContextOk(more, t)
  {
    forall id | Known(spans, id)
      ensures Known(more, id)
    {
      KnownStays(spans, more, id);
    }
  }

  /** Time, ids and spans that move on leave a span that is being built as it was. */
  lemma BuildingStays(s: Tracing, s': Tracing, b: Span)
    requires BuildingOk(s, b) && Grown(s.spans, s'.spans) && s.clock <= s'.clock && s.nextId <= s'.nextId
    requires forall other | other in s'.spans :: other.spanId != b.spanId
    ensures BuildingOk(s', b)
  {
    var k :| ParentOf(s.spans, k, b);
    assert s'.spans[k].spanId == s.spans[k].spanId;
    assert ParentOf(s'.spans, k, b);
  }

  /** Spans that were only ended have the ids they had. */
  lemma SameIds(spans: seq<Span>, more: seq<Span>, b: Span)
    requires Grown(spans, more) && |more| == |spans| && forall other | other in spans :: other.spanId != b.spanId
    ensures forall other | other in more :: other.spanId != b.spanId
  {
    forall i | 0 <= i < |more|
      ensures more[i].spanId != b.spanId
    {
      assert spans[i] in spans;
    }
  }

  lemma ThreadStays(s: Tracing, s': Tracing, t: Thread)
    requires ThreadOk(s, t) && Grown(s.spans, s'.spans) && |s'.spans| == |s.spans|
    requires s.clock <= s'.clock && s.nextId <= s'.nextId
    ensures ThreadOk(s', t)
  {
    ContextStays(s.spans, s'.spans, t);
    if t.building.Some? {
      SameIds(s.spans, s'.spans, t.building.value);
      BuildingStays(s, s', t.building.value);
    }
  }

  lemma PassKeeps(s: Tracing, ticks: nat)
    requires Inv(s)
    ensures Inv(Do(s, Pass(ticks)))
  {
    var s' := Do(s, Pass(ticks));
    LaterKeeps(s.spans, s.clock, s.nextId, s'.clock, s.nextId);
    forall t | t in s.threads
      ensures ThreadOk(s', s.threads[t])
    {
      ThreadStays(s, s', s.threads[t]);
    }
    EndsStay(s, s');
  }

  /** Nothing is left and nothing more is unended. */
  lemma EndsStay(s: Tracing, s': Tracing)
    requires EndsOk(s) && Grown(s.spans, s'.spans) && |s'.spans| == |s.spans|
    requires forall t | t in s.threads :: t in s'.threads && s'.threads[t].entered == s.threads[t].entered
    ensures EndsOk(s')
  {
    forall i | 0 < i < |s'.spans| && s'.spans[i].end.None?
      ensures exists t :: EnteredBy(s'.threads, t, s'.spans[i].spanId)
    {
      assert s.spans[i].end.None? && s'.spans[i].spanId == s.spans[i].spanId;
      var t :| EnteredBy(s.threads, t, s.spans[i].spanId);
      assert EnteredBy(s'.threads, t, s'.spans[i].spanId);
    }
  }

  lemma CurrentIsKnown(spans: seq<Span>, t: Thread)
    requires ContextOk(spans, t)
    ensures Current(t).Some? ==> Known(spans, Current(t).value)
  {
  }

  lemma SpawnKeeps(s: Tracing, from: nat, t: nat)
    requires Inv(s) && Can(s, Spawn(from, t))
    ensures Inv(Do(s, Spawn(from, t)))
  {
    var s' := Do(s, Spawn(from, t));
    assert ThreadOk(s, s.threads[from]);
    CurrentIsKnown(s.spans, s.threads[from]);
    forall u | u in s'.threads
      ensures ThreadOk(s', s'.threads[u])
    {
      if u != t {
        ThreadStays(s, s', s.threads[u]);
      }
    }
    EndsStay(s, s');
  }

  lemma BuiltOk(s: Tracing, t: nat, name: Name)
    requires WellFormed(s.spans, s.clock, s.nextId) && Can(s, Build(t, name)) && ContextOk(s.spans, s.threads[t])
    ensures BuildingOk(Do(s, Build(t, name)), Do(s, Build(t, name)).threads[t].building.value)
  {
    var s' := Do(s, Build(t, name));
    var b := s'.threads[t].building.value;
    CurrentIsKnown(s.spans, s.threads[t]);
    var k := ParentPosition(s.spans, Current(s.threads[t]));
    assert SpanOk(s.spans[k], s.clock, s.nextId);
    assert ParentOf(s.spans, k, b);
    forall i | 0 <= i < |s.spans|
      ensures s.spans[i].spanId != b.spanId
    {
      assert SpanOk(s.spans[i], s.clock, s.nextId);
    }
  }

  lemma BuildKeeps(s: Tracing, t: nat, name: Name)
    requires Inv(s) && Can(s, Build(t, name))
    ensures Inv(Do(s, Build(t, name)))
  {
    var s' := Do(s, Build(t, name));
    assert ThreadOk(s, s.threads[t]);
    BuiltOk(s, t, name);
    LaterKeeps(s.spans, s.clock, s.nextId, s.clock, s'.nextId);
    forall u | u in s'.threads
      ensures ThreadOk(s', s'.threads[u])
    {
      if u != t {
        ThreadStays(s, s', s.threads[u]);
      }
    }
    assert forall u | u in s.threads && s.threads[u].building.Some? :: ThreadOk(s, s.threads[u]);
    EndsStay(s, s');
  }

  lemma AddThreads(s: Tracing, t: nat, u: nat)
    requires Inv(s) && Can(s, Add(t)) && u in s.threads
    ensures ThreadOk(Do(s, Add(t)), Do(s, Add(t)).threads[u])
  {
    var s' := Do(s, Add(t));
    var b := s.threads[t].building.value;
    assert ThreadOk(s, s.threads[t]) && ThreadOk(s, s.threads[u]);
    ContextStays(s.spans, s'.spans, s.threads[u]);
    if u == t {
      assert KnownAt(s'.spans, |s.spans|, b.spanId.value);
    } else if s.threads[u].building.Some? {
      BuildingStays(s, s', s.threads[u].building.value);
    }
  }

  lemma AddKeepsInv(s: Tracing, t: nat)
    requires Inv(s) && Can(s, Add(t))
    ensures Inv(Do(s, Add(t)))
  {
    var s' := Do(s, Add(t));
    var b := s.threads[t].building.value;
    assert ThreadOk(s, s.threads[t]);
    var k :| ParentOf(s.spans, k, b);
    AddKeeps(s.spans, s.clock, s.nextId, b, k);
    forall u | u in s'.threads
      ensures ThreadOk(s', s'.threads[u])
    {
      AddThreads(s, t, u);
    }
    AddEnds(s, t);
  }

  lemma AddEnds(s: Tracing, t: nat)
    requires EndsOk(s) && Can(s, Add(t))
    ensures EndsOk(Do(s, Add(t)))
  {
    var s' := Do(s, Add(t));
    forall i | 0 < i < |s'.spans| && s'.spans[i].end.None?
      ensures exists u :: EnteredBy(s'.threads, u, s'.spans[i].spanId)
    {
      if i < |s.spans| {
        assert s'.spans[i] == s.spans[i];
        var u :| EnteredBy(s.threads, u, s.spans[i].spanId);
        assert EnteredBy(s'.threads, u, s'.spans[i].spanId);
      } else {
        assert EnteredBy(s'.threads, t, s'.spans[i].spanId);
      }
    }
  }

  lemma EndedKeeps(s: Tracing, id: Option<Id>)
    requires WellFormed(s.spans, s.clock, s.nextId)
    ensures WellFormed(Ended(s.spans, id, s.clock), s.clock, s.nextId) && Grown(s.spans, Ended(s.spans, id, s.clock))
  {
    var more := Ended(s.spans, id, s.clock);
    forall i | 0 <= i < |more|
      ensures SpanOk(more[i], s.clock, s.nextId)
    {
      assert SpanOk(s.spans[i], s.clock, s.nextId);
    }
    ChangeKeeps(s.spans, more, s.clock, s.nextId);
  }

  lemma LeaveKeeps(s: Tracing, t: nat)
    requires Inv(s) && Can(s, Leave(t))
    ensures Inv(Do(s, Leave(t)))
  {
    var s' := Do(s, Leave(t));
    EndedKeeps(s, Current(s.threads[t]));
    forall u | u in s'.threads
      ensures ThreadOk(s', s'.threads[u])
    {
      assert ThreadOk(s, s.threads[u]);
      ThreadStays(s, s', s.threads[u]);
    }
    LeaveEnds(s, t);
  }

  lemma LeaveEnds(s: Tracing, t: nat)
    requires EndsOk(s) && Can(s, Leave(t))
    ensures EndsOk(Do(s, Leave(t)))
  {
    var s' := Do(s, Leave(t));
    forall i | 0 < i < |s'.spans| && s'.spans[i].end.None?
      ensures exists u :: EnteredBy(s'.threads, u, s'.spans[i].spanId)
    {
      assert s'.spans[i] == s.spans[i] && s.spans[i].spanId != Current(s.threads[t]);
      var u :| EnteredBy(s.threads, u, s.spans[i].spanId);
      assert EnteredBy(s'.threads, u, s'.spans[i].spanId);
    }
  }

  lemma FinishKeeps(s: Tracing)
    requires Inv(s)
    ensures Inv(Do(s, Finish))
  {
    var s' := Do(s, Finish);
    EndedKeeps(s, RootId(s.spans));
    forall u | u in s.threads
      ensures ThreadOk(s', s.threads[u])
    {
      ThreadStays(s, s', s.threads[u]);
    }
    EndsStay(s, s');
  }

  lemma MoveKeeps(s: Tracing, m: Move)
    requires Inv(s) && Can(s, m)
    ensures Inv(Do(s, m))
  {
    match m {
      case Pass(ticks) => PassKeeps(s, ticks);
      case Spawn(from, t) => SpawnKeeps(s, from, t);
      case Build(t, name) => BuildKeeps(s, t, name);
      case Add(t) => AddKeepsInv(s, t);
      case Leave(t) => LeaveKeeps(s, t);
      case Finish => FinishKeeps(s);
    }
  }

  lemma BeginOk(operation: Name, now: int)
    ensures Inv(Begin(operation, now))
  {
  }

  /** Whatever the threads do and in whatever order, the trace stays well formed. */
  lemma {:induction false} RunKeeps(s: Tracing, moves: seq<Move>)
    requires Inv(s) && Moves(s, moves)
    ensures Inv(Run(s, moves))
    decreases |moves|
  {
    if moves != [] {
      MoveKeeps(s, moves[0]);
      RunKeeps(Do(s, moves[0]), moves[1..]);
    }
  }

  /** A start with nothing in between does what `RequestTracer.StartSpan` does. */
  lemma StartIsBuildAndAdd(s: Tracing, t: nat, name: Name)
    requires Inv(s) && Can(s, Build(t, name))
    ensures Current(s.threads[t]).Some? ==> Known(s.spans, Current(s.threads[t]).value)
    ensures var s1 := Do(s, Build(t, name));
            && Can(s1, Add(t))
            && Do(s1, Add(t)).spans ==
               s.spans + [Started(s.spans[0].spanId, s.nextId, name, Current(s.threads[t]), s.clock)]
            && Do(s1, Add(t)).nextId == s.nextId + 1 && Current(Do(s1, Add(t)).threads[t]) == Some(s.nextId)
  {
    assert ThreadOk(s, s.threads[t]);
    CurrentIsKnown(s.spans, s.threads[t]);
  }

  // ---- where the spans of a thread hang ----

  lemma BaseStep(s: Tracing, m: Move, t: nat)
    requires Can(s, m) && t in s.threads
    ensures t in Do(s, m).threads && Do(s, m).threads[t].base == s.threads[t].base
  {
  }

  /** The context of a thread stays the copy that it was spawned with. */
  lemma {:induction false} BaseStays(s: Tracing, moves: seq<Move>, t: nat)
    requires Moves(s, moves) && t in s.threads
    ensures t in Run(s, moves).threads && Run(s, moves).threads[t].base == s.threads[t].base
    decreases |moves|
  {
    if moves != [] {
      BaseStep(s, moves[0], t);
      BaseStays(Do(s, moves[0]), moves[1..], t);
    }
  }

  lemma {:induction false} RootStays(s: Tracing, moves: seq<Move>)
    requires s.spans != [] && Moves(s, moves)
    ensures Run(s, moves).spans != [] && Run(s, moves).spans[0].spanId == s.spans[0].spanId
    decreases |moves|
  {
    if moves != [] {
      RootStep(s, moves[0]);
      RootStays(Do(s, moves[0]), moves[1..]);
    }
  }

  lemma RootStep(s: Tracing, m: Move)
    requires s.spans != [] && Can(s, m)
    ensures Do(s, m).spans != [] && Do(s, m).spans[0].spanId == s.spans[0].spanId
  {
  }

  /**
   * Whatever happens in between, a span that a thread makes while it is in none of its own hangs under the span that
   * its spawner was in when it spawned it, if it was in any; a span made inside another one hangs under that.
   */
  lemma {:induction false} SpawnedSpansHang(s: Tracing, from: nat, t: nat, moves: seq<Move>, name: Name)
    requires Inv(s) && from in s.threads && s.threads[from].building.None? && t !in s.threads
    requires Moves(Do(s, Spawn(from, t)), moves)
    ensures var now := Run(Do(s, Spawn(from, t)), moves);
            && t in now.threads && (now.threads[t].building.None? ==> Can(now, Build(t, name)))
    ensures var now := Run(Do(s, Spawn(from, t)), moves);
            Can(now, Build(t, name)) ==>
            var parent := Do(now, Build(t, name)).threads[t].building.value.parentId;
            var spawner, own := s.threads[from], now.threads[t].entered;
            if own != [] then parent == Some(own[|own| - 1])
            else if spawner.entered != [] then parent == Some(spawner.entered[|spawner.entered| - 1])
            else parent == if spawner.base.Some? then spawner.base else s.spans[0].spanId
  {
    var spawned := Do(s, Spawn(from, t));
    var now := Run(spawned, moves);
    MoveKeeps(s, Spawn(from, t));
    RunKeeps(spawned, moves);
    BaseStays(spawned, moves, t);
    RootStays(spawned, moves);
    assert ThreadOk(now, now.threads[t]);
    if now.threads[t].building.None? && Current(now.threads[t]).Some? {
      CurrentIsTruthy(now, now.threads[t]);
    }
  }

  lemma CurrentIsTruthy(s: Tracing, t: Thread)
    requires WellFormed(s.spans, s.clock, s.nextId) && ContextOk(s.spans, t) && Current(t).Some?
    ensures Truthy(Current(t))
  {
    CurrentIsKnown(s.spans, t);
    var k :| KnownAt(s.spans, k, Current(t).value);
    assert SpanOk(s.spans[k], s.clock, s.nextId);
  }
}
