// A load-test log by second: events into seconds, and ramps into a series of client
// counts.

module LogSeries {
  import opened Collections
  import opened StableSort

  /** An event of the log. A ramp may lack a time; other events, of the processor or the GPU, are not counted. */
  datatype Entry =
    | Ramp(clients: nat, at: Option<real>)
    | Request(ts: real, success: bool)
    | Sample(ts: real)

  /** Towards zero. */
  function Truncate(x: real): (n: int)
    ensures if x >= 0.0 then n as real <= x < n as real + 1.0 else n as real - 1.0 < x <= n as real
  {
    if x >= 0.0 then x.Floor else -((-x).Floor)
  }

  /** The number of seconds in the window, and its start. */
  datatype Window = Window(start: real, seconds: nat)

  function FirstRamp(entries: seq<Entry>): Option<real> {
    if entries == [] then None
    else if entries[0].Ramp? && entries[0].at.Some? then entries[0].at
    else FirstRamp(entries[1..])
  }

  function FirstRequest(entries: seq<Entry>): Option<real> {
    if entries == [] then None
    else if entries[0].Request? then Some(entries[0].ts)
    else FirstRequest(entries[1..])
  }

  function LatestRequest(entries: seq<Entry>): Option<real> {
    if entries == [] then None
    else
      var rest := LatestRequest(entries[1..]);
      if entries[0].Request? && (rest.None? || entries[0].ts > rest.value) then Some(entries[0].ts) else rest
  }

  /** Without a request there is no window. */
  function WindowOf(entries: seq<Entry>): Option<Window> {
    var latest, ramp, first := LatestRequest(entries), FirstRamp(entries), FirstRequest(entries);
    if latest.None? || first.None? then None
    else
      var start := if ramp.Some? then ramp.value else first.value;
      var whole := Truncate(latest.value - start);
      Some(Window(start, if whole < 1 then 1 else whole))
  }

  /** The time of the first ramp that has one. */
  ghost predicate StartsAtRamp(entries: seq<Entry>, i: int, start: real) {
    && 0 <= i < |entries| && entries[i].Ramp? && entries[i].at == Some(start)
    && forall j | 0 <= j < i :: entries[j].Ramp? ==> entries[j].at.None?
  }

  /** The time of the first request. */
  ghost predicate StartsAtRequest(entries: seq<Entry>, i: int, start: real) {
    0 <= i < |entries| && entries[i].Request? && entries[i].ts == start && forall j | 0 <= j < i :: !entries[j].Request?
  }

  lemma {:induction false} FirstRampIs(entries: seq<Entry>)
    ensures var first := FirstRamp(entries);
            if first.None? then forall j | 0 <= j < |entries| && entries[j].Ramp? :: entries[j].at.None?
            else exists i :: StartsAtRamp(entries, i, first.value)
  {
    if entries != [] {
      FirstRampIs(entries[1..]);
      var first := FirstRamp(entries);
      if entries[0].Ramp? && entries[0].at.Some? {
        assert StartsAtRamp(entries, 0, first.value);
      } else if first.Some? {
        var i :| StartsAtRamp(entries[1..], i, first.value);
        assert forall j | 0 < j <= i + 1 :: entries[j] == entries[1..][j - 1];
        assert StartsAtRamp(entries, i + 1, first.value);
      } else {
        assert forall j | 0 < j < |entries| :: entries[j] == entries[1..][j - 1];
      }
    }
  }

  lemma {:induction false} FirstRequestIs(entries: seq<Entry>)
    ensures FirstRequest(entries).Some? ==> exists i :: StartsAtRequest(entries, i, FirstRequest(entries).value)
  {
    if entries != [] && !entries[0].Request? {
      FirstRequestIs(entries[1..]);
      if FirstRequest(entries).Some? {
        var i :| StartsAtRequest(entries[1..], i, FirstRequest(entries).value);
        assert forall j | 0 < j <= i + 1 :: entries[j] == entries[1..][j - 1];
        assert StartsAtRequest(entries, i + 1, FirstRequest(entries).value);
      }
    } else if entries != [] {
      assert StartsAtRequest(entries, 0, entries[0].ts);
    }
  }

  lemma {:induction false} LatestRequestIs(entries: seq<Entry>)
    ensures var latest := LatestRequest(entries);
            && (latest.None? <==> forall e | e in entries :: !e.Request?)
            && (latest.Some? ==> (exists e :: e in entries && e.Request? && e.ts == latest.value)
                                 && forall e | e in entries && e.Request? :: e.ts <= latest.value)
  {
    if entries != [] {
      LatestRequestIs(entries[1..]);
      assert forall e :: e in entries <==> e == entries[0] || e in entries[1..];
    }
  }

  /**
   * The window starts with the first ramp that has a time, or else with the first request, and lasts for the whole
   * seconds until the latest request, but at least one.
   */
  lemma {:induction false} WindowIs(entries: seq<Entry>)
    ensures WindowOf(entries).None? <==> LatestRequest(entries).None? || FirstRequest(entries).None?
    ensures WindowOf(entries).Some? ==>
              var w := WindowOf(entries).value;
              && (if exists j :: 0 <= j < |entries| && entries[j].Ramp? && entries[j].at.Some?
                  then exists i :: StartsAtRamp(entries, i, w.start) else exists i :: StartsAtRequest(entries, i, w.start))
              && (exists e :: e in entries && e.Request? && w.seconds == AtLeastOne(Truncate(e.ts - w.start))
                              && forall f | f in entries && f.Request? :: f.ts <= e.ts)
  {
    FirstRampIs(entries);
    FirstRequestIs(entries);
    LatestRequestIs(entries);
  }

  function AtLeastOne(n: int): nat { if n < 1 then 1 else n }

  // ---- requests by second ----

  /** The event falls into this second. Truncation puts what happened less than a second before the start into second 0. */
  predicate InSecond(e: Entry, w: Window, second: int) {
    e.Request? && Truncate(e.ts - w.start) == second
  }

  predicate InWindow(e: Entry, w: Window) {
    e.Request? && 0 <= Truncate(e.ts - w.start) < w.seconds
  }

  function CountAt(entries: seq<Entry>, w: Window, second: int, failed: bool): nat {
    if entries == [] then 0
    else
      var n := |entries| - 1;
      CountAt(entries[..n], w, second, failed)
      + if InSecond(entries[n], w, second) && !(failed && entries[n].success) then 1 else 0
  }

  function CountInWindow(entries: seq<Entry>, w: Window): nat {
    if entries == [] then 0
    else CountInWindow(entries[..|entries| - 1], w) + if InWindow(entries[|entries| - 1], w) then 1 else 0
  }

  lemma {:induction false} ErrorsAreRequests(entries: seq<Entry>, w: Window, second: int)
    ensures CountAt(entries, w, second, true) <= CountAt(entries, w, second, false)
  {
    if entries != [] {
      ErrorsAreRequests(entries[..|entries| - 1], w, second);
    }
  }

  /** The positions of the requests, or only of those that failed, that happened in this second. */
  ghost function RequestsIn(entries: seq<Entry>, w: Window, second: int, failed: bool): set<int> {
    set i | 0 <= i < |entries| && entries[i].Request? && Truncate(entries[i].ts - w.start) == second
            && (failed ==> !entries[i].success)
  }

  /** The request counts, or the failed request. */
  predicate Counts(e: Entry, w: Window, second: int, failed: bool) {
    e.Request? && Truncate(e.ts - w.start) == second && (failed ==> !e.success)
  }

  lemma {:induction false} CountThen(entries: seq<Entry>, e: Entry, w: Window, second: int, failed: bool)
    ensures CountAt(entries + [e], w, second, failed) ==
            CountAt(entries, w, second, failed) + if Counts(e, w, second, failed) then 1 else 0
  {
    assert (entries + [e])[..|entries|] == entries;
  }

  lemma {:induction false} SizeThen(entries: seq<Entry>, e: Entry, w: Window, second: int, failed: bool)
    ensures |RequestsIn(entries + [e], w, second, failed)| ==
            |RequestsIn(entries, w, second, failed)| + if Counts(e, w, second, failed) then 1 else 0
  {
    var before, n := RequestsIn(entries, w, second, failed), |entries|;
    assert n !in before;
    assert RequestsIn(entries + [e], w, second, failed) == if Counts(e, w, second, failed) then before + {n} else before;
  }

  lemma {:induction false} CountIsSize(entries: seq<Entry>, w: Window, second: int, failed: bool)
    ensures CountAt(entries, w, second, failed) == |RequestsIn(entries, w, second, failed)|
  {
    if entries == [] {
      assert RequestsIn([], w, second, failed) == {};
    } else {
      var n := |entries| - 1;
      CountIsSize(entries[..n], w, second, failed);
      CountThen(entries[..n], entries[n], w, second, failed);
      SizeThen(entries[..n], entries[n], w, second, failed);
      assert entries == entries[..n] + [entries[n]];
    }
  }

  /** The requests from second a up to second b. */
  function SumAt(entries: seq<Entry>, w: Window, a: int, b: int, failed: bool): nat
    decreases b - a
  {
    if a >= b then 0 else SumAt(entries, w, a, b - 1, failed) + CountAt(entries, w, b - 1, failed)
  }

  lemma {:induction false} SumOneMore(entries: seq<Entry>, w: Window, a: int, b: int)
    requires entries != []
    ensures var last := entries[|entries| - 1];
            SumAt(entries, w, a, b, false) == SumAt(entries[..|entries| - 1], w, a, b, false)
              + if last.Request? && a <= Truncate(last.ts - w.start) < b then 1 else 0
    decreases b - a
  {
    if a < b {
      SumOneMore(entries, w, a, b - 1);
    }
  }

  lemma {:induction false} SumNothing(w: Window, a: int, b: int)
    ensures SumAt([], w, a, b, false) == 0
    decreases b - a
  {
    if a < b {
      SumNothing(w, a, b - 1);
    }
  }

  /** The requests of all seconds are the requests of the window. */
  lemma {:induction false} SumIsWindow(entries: seq<Entry>, w: Window)
    ensures SumAt(entries, w, 0, w.seconds, false) == CountInWindow(entries, w)
  {
    if entries == [] {
      SumNothing(w, 0, w.seconds);
    } else {
      SumIsWindow(entries[..|entries| - 1], w);
      SumOneMore(entries, w, 0, w.seconds);
    }
  }

  lemma {:induction false} SumSplits(entries: seq<Entry>, w: Window, a: int, b: int, c: int, failed: bool)
    requires a <= b <= c
    ensures SumAt(entries, w, a, c, failed) == SumAt(entries, w, a, b, failed) + SumAt(entries, w, b, c, failed)
    decreases c - b
  {
    if b < c {
      SumSplits(entries, w, a, b, c - 1, failed);
    }
  }

  lemma {:induction false} ErrorsSum(entries: seq<Entry>, w: Window, a: int, b: int)
    ensures SumAt(entries, w, a, b, true) <= SumAt(entries, w, a, b, false)
    decreases b - a
  {
    if a < b {
      ErrorsSum(entries, w, a, b - 1);
      ErrorsAreRequests(entries, w, b - 1);
    }
  }

  /** A dictionary by second, where a missing second counts as 0. */
  function Get(m: map<int, nat>, second: int): nat { if second in m then m[second] else 0 }

  /** Counts requests and errors into seconds. */
  method CountBySecond(entries: seq<Entry>, w: Window) returns (requests: map<int, nat>, errors: map<int, nat>)
    ensures forall s | 0 <= s < w.seconds ::
              s in requests && s in errors
              && requests[s] == CountAt(entries, w, s, false) && errors[s] == CountAt(entries, w, s, true)
              && requests[s] == |RequestsIn(entries, w, s, false)| && errors[s] == |RequestsIn(entries, w, s, true)|
    ensures forall s | s in requests || s in errors :: 0 <= s < w.seconds
  {
    requests, errors := map[], map[];
    for i := 0 to |entries|
      invariant forall s | s in requests || s in errors :: 0 <= s < w.seconds
      invariant forall s | 0 <= s < w.seconds ::
                  Get(requests, s) == CountAt(entries[..i], w, s, false) && Get(errors, s) == CountAt(entries[..i], w, s, true)
    {
      var e := entries[i];
      assert entries[..i + 1][..i] == entries[..i];
      if e.Request? {
        var second := Truncate(e.ts - w.start);
        if 0 <= second < w.seconds {
          requests := requests[second := Get(requests, second) + 1];
          errors := errors[second := Get(errors, second) + if e.success then 0 else 1];
        }
      }
    }
    assert entries[..|entries|] == entries;
    for s := 0 to w.seconds
      invariant forall t | t in requests || t in errors :: 0 <= t < w.seconds
      invariant forall t | 0 <= t < w.seconds ::
                  Get(requests, t) == CountAt(entries, w, t, false) && Get(errors, t) == CountAt(entries, w, t, true)
      invariant forall t | 0 <= t < s :: t in requests && t in errors
    {
      requests := requests[s := Get(requests, s)];
      errors := errors[s := Get(errors, s)];
    }
    forall s | 0 <= s < w.seconds
      ensures requests[s] == |RequestsIn(entries, w, s, false)| && errors[s] == |RequestsIn(entries, w, s, true)|
    {
      CountIsSize(entries, w, s, false);
      CountIsSize(entries, w, s, true);
    }
  }

  // ---- clients by second ----

  /** The second at which a ramp takes effect, and its clients. */
  function Transitions(entries: seq<Entry>, w: Window): seq<Keyed<nat>> {
    if entries == [] then []
    else
      var n := |entries| - 1;
      Transitions(entries[..n], w) + if entries[n].Ramp? then [Transition(entries[n], w)] else []
  }

  function Transition(e: Entry, w: Window): Keyed<nat>
    requires e.Ramp?
  {
    var second := Truncate((if e.at.Some? then e.at.value else w.start) - w.start);
    Keyed(if second < 0 then 0 else second, e.clients)
  }

  /** The positions `at`, in order, are those of the ramps, which take effect as `ts` says. */
  ghost predicate RampsAt(entries: seq<Entry>, w: Window, at: seq<int>, ts: seq<Keyed<nat>>) {
    && (forall k, l | 0 <= k < l < |at| :: at[k] < at[l])
    && (forall i :: i in at <==> 0 <= i < |entries| && entries[i].Ramp?)
    && |ts| == |at| && forall k | 0 <= k < |at| :: at[k] in at && TakesEffect(entries[at[k]], w, ts[k])
  }

  /** A ramp takes effect in the second of its time, or in the first if it has no time or one before the start. */
  ghost predicate TakesEffect(e: Entry, w: Window, t: Keyed<nat>) {
    && e.Ramp? && t.value == e.clients && 0 <= t.key
    && (e.at.None? || e.at.value < w.start ==> t.key == 0)
    && (e.at.Some? && w.start <= e.at.value ==> t.key as real <= e.at.value - w.start < t.key as real + 1.0)
  }

  lemma {:induction false} TransitionsAre(entries: seq<Entry>, w: Window) returns (at: seq<int>)
    ensures RampsAt(entries, w, at, Transitions(entries, w))
  {
    at := [];
    if entries != [] {
      var n := |entries| - 1;
      var before := TransitionsAre(entries[..n], w);
      at := before + if entries[n].Ramp? then [n] else [];
      if entries[n].Ramp? {
        TransitionIs(entries[n], w);
        RampThen(entries[..n], entries[n], w, before, Transitions(entries[..n], w), Transition(entries[n], w));
      } else {
        NoRampThen(entries[..n], entries[n], w, before, Transitions(entries[..n], w));
      }
      assert entries == entries[..n] + [entries[n]];
    }
  }

  lemma TransitionIs(e: Entry, w: Window)
    requires e.Ramp?
    ensures TakesEffect(e, w, Transition(e, w))
  {
  }

  lemma {:induction false} RampThen(entries: seq<Entry>, e: Entry, w: Window, at: seq<int>, ts: seq<Keyed<nat>>, t: Keyed<nat>)
    requires RampsAt(entries, w, at, ts) && TakesEffect(e, w, t)
    ensures RampsAt(entries + [e], w, at + [|entries|], ts + [t])
  {
    assert forall k | 0 <= k < |at| :: at[k] in at;
  }

  lemma {:induction false} NoRampThen(entries: seq<Entry>, e: Entry, w: Window, at: seq<int>, ts: seq<Keyed<nat>>)
    requires RampsAt(entries, w, at, ts) && !e.Ramp?
    ensures RampsAt(entries + [e], w, at + [], ts + [])
  {
    assert at + [] == at && ts + [] == ts;
  }

  /** The last ramp at or before this second; before the first ramp, the first ramp. */
  function ClientsAt(ramps: seq<Keyed<nat>>, second: int): nat
    requires ramps != []
  {
    if |ramps| == 1 || ramps[|ramps| - 1].key <= second then ramps[|ramps| - 1].value
    else ClientsAt(ramps[..|ramps| - 1], second)
  }

  /** Ramp k is the one in effect: the last at or before this second, or the first of all. */
  ghost predicate InEffect(ramps: seq<Keyed<nat>>, second: int, k: int) {
    && 0 <= k < |ramps|
    && (k > 0 ==> ramps[k].key <= second)
    && (k + 1 < |ramps| ==> ramps[k + 1].key > second)
  }

  /** That many clients run in this second: those of the ramp in effect. */
  ghost predicate ClientsAre(ramps: seq<Keyed<nat>>, second: int, clients: nat) {
    exists k :: InEffect(ramps, second, k) && clients == ramps[k].value
  }

  lemma {:induction false} EffectIsClients(ramps: seq<Keyed<nat>>, second: int, k: int)
    requires Sorted(ramps) && InEffect(ramps, second, k)
    ensures ClientsAt(ramps, second) == ramps[k].value
  {
    if k + 1 < |ramps| {
      EffectIsClients(ramps[..|ramps| - 1], second, k);
    }
  }

  /** The pointer moves on to the ramp in effect. */
  method Advance(ramps: seq<Keyed<nat>>, second: int, k0: nat) returns (k: nat)
    requires k0 < |ramps| && (k0 > 0 ==> ramps[k0].key <= second)
    ensures InEffect(ramps, second, k)
  {
    k := k0;
    while k + 1 < |ramps| && ramps[k + 1].key <= second
      invariant k < |ramps| && (k > 0 ==> ramps[k].key <= second)
      decreases |ramps| - k
    {
      k := k + 1;
    }
  }

  /** Advances a pointer over the ramps while it goes through the seconds. */
  method ClientsBySecond(entries: seq<Entry>, w: Window) returns (clients: seq<nat>)
    ensures |clients| == w.seconds
    ensures var ramps := Sort(Transitions(entries, w));
            && (forall s | 0 <= s < w.seconds :: clients[s] == if ramps == [] then 0 else ClientsAt(ramps, s))
            && (ramps != [] ==> forall s | 0 <= s < w.seconds :: ClientsAre(ramps, s, clients[s]))
  {
    var ramps := Sort(Transitions(entries, w));
    SortSorts(Transitions(entries, w));
    if ramps == [] {
      clients := seq(w.seconds, s => 0);
    } else {
      clients := ClientsOfRamps(ramps, w.seconds);
    }
  }

  method ClientsOfRamps(ramps: seq<Keyed<nat>>, seconds: nat) returns (clients: seq<nat>)
    requires ramps != [] && Sorted(ramps)
    ensures |clients| == seconds && forall s | 0 <= s < seconds :: clients[s] == ClientsAt(ramps, s)
    ensures forall s | 0 <= s < seconds :: ClientsAre(ramps, s, clients[s])
  {
    clients := [];
    var k := 0;
    for s := 0 to seconds
      invariant |clients| == s && k < |ramps| && (k > 0 ==> ramps[k].key <= s)
      invariant forall t | 0 <= t < s :: clients[t] == ClientsAt(ramps, t)
      invariant forall t | 0 <= t < s :: ClientsAre(ramps, t, clients[t])
    {
      k := Advance(ramps, s, k);
      EffectIsClients(ramps, s, k);
      assert ClientsAre(ramps, s, ramps[k].value);
      clients := clients + [ramps[k].value];
    }
  }
}
