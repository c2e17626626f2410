// The seconds of a load-test log grouped into runs of equal load.

module LoadBuckets {
  import opened Collections
  import opened LogSeries

  /** Seconds from `from` up to `until` under one number of clients. */
  datatype Bucket = Bucket(from: nat, until: nat, clients: nat, requests: nat, errors: nat)

  /** The buckets are the maximal runs of equal numbers of clients, in order and without gaps. */
  ghost predicate Runs(buckets: seq<Bucket>, clients: seq<nat>, end: nat)
    requires end <= |clients|
  {
    && (buckets == [] ==> end == 0)
    && (buckets != [] ==> buckets[0].from == 0 && buckets[|buckets| - 1].until == end)
    && (forall b | b in buckets :: b.from < b.until <= end && forall s | b.from <= s < b.until :: clients[s] == b.clients)
    && (forall i | 0 < i < |buckets| :: buckets[i - 1].until == buckets[i].from && buckets[i - 1].clients != buckets[i].clients)
  }

  function TotalRequests(buckets: seq<Bucket>): nat {
    if buckets == [] then 0 else TotalRequests(buckets[..|buckets| - 1]) + buckets[|buckets| - 1].requests
  }

  ghost predicate Counted(buckets: seq<Bucket>, entries: seq<Entry>, w: Window) {
    forall b | b in buckets ::
      b.requests == SumAt(entries, w, b.from, b.until, false) && b.errors == SumAt(entries, w, b.from, b.until, true)
  }

  lemma {:induction false} TotalThen(buckets: seq<Bucket>, b: Bucket)
    ensures TotalRequests(buckets + [b]) == TotalRequests(buckets) + b.requests
  {
    assert (buckets + [b])[..|buckets|] == buckets;
  }

  method SumOver(m: map<int, nat>, from: nat, until: nat, ghost entries: seq<Entry>, ghost w: Window, ghost failed: bool)
    returns (total: nat)
    requires from <= until
    requires forall s | from <= s < until :: s in m && m[s] == CountAt(entries, w, s, failed)
    ensures total == SumAt(entries, w, from, until, failed)
  {
    total := 0;
    for s := from to until
      invariant total == SumAt(entries, w, from, s, failed)
    {
      total := total + m[s];
    }
  }

  /**
   * Groups the seconds into maximal runs of equal load. The requests of the runs add up to the request
   * events of the window, and no run has more errors than requests.
   */
  method CalculateBuckets(entries: seq<Entry>, w: Window) returns (buckets: seq<Bucket>, clients: seq<nat>)
    ensures |clients| == w.seconds && Runs(buckets, clients, w.seconds) && Counted(buckets, entries, w)
    ensures var ramps := StableSort.Sort(Transitions(entries, w));
            forall s | 0 <= s < w.seconds :: clients[s] == if ramps == [] then 0 else ClientsAt(ramps, s)
    ensures TotalRequests(buckets) == CountInWindow(entries, w)
    ensures forall b | b in buckets :: b.errors <= b.requests
  {
    var requests, errors := CountBySecond(entries, w);
    clients := ClientsBySecond(entries, w);
    buckets := GroupSeconds(entries, w, requests, errors, clients);
    SumIsWindow(entries, w);
    forall b | b in buckets
      ensures b.errors <= b.requests
    {
      ErrorsSum(entries, w, b.from, b.until);
    }
  }

  /** The counts of every second are in the dictionary. */
  ghost predicate Holds(m: map<int, nat>, entries: seq<Entry>, w: Window, failed: bool) {
    forall s | 0 <= s < w.seconds :: s in m && m[s] == CountAt(entries, w, s, failed)
  }

  method GroupSeconds(ghost entries: seq<Entry>, w: Window, requests: map<int, nat>, errors: map<int, nat>, clients: seq<nat>)
    returns (buckets: seq<Bucket>)
    requires |clients| == w.seconds && Holds(requests, entries, w, false) && Holds(errors, entries, w, true)
    ensures Runs(buckets, clients, w.seconds) && Counted(buckets, entries, w)
    ensures TotalRequests(buckets) == SumAt(entries, w, 0, w.seconds, false)
  {
    buckets := [];
    var second := 0;
    while second < w.seconds
      invariant second <= w.seconds && Runs(buckets, clients, second)
      invariant second < w.seconds && buckets != [] ==> clients[second] != buckets[|buckets| - 1].clients
      invariant Counted(buckets, entries, w) && TotalRequests(buckets) == SumAt(entries, w, 0, second, false)
    {
      var from := second;
      second := RunEnd(clients, from);
      var total := SumOver(requests, from, second, entries, w, false);
      var failed := SumOver(errors, from, second, entries, w, true);
      var b := Bucket(from, second, clients[from], total, failed);
      SumSplits(entries, w, 0, from, second, false);
      TotalThen(buckets, b);
      RunsThen(buckets, clients, from, b);
      assert forall c :: c in buckets + [b] <==> c in buckets || c == b;
      buckets := buckets + [b];
    }
  }

  /** The end of the run that starts here. */
  method RunEnd(clients: seq<nat>, from: nat) returns (end: nat)
    requires from < |clients|
    ensures from < end <= |clients| && (forall s | from <= s < end :: clients[s] == clients[from])
    ensures end < |clients| ==> clients[end] != clients[from]
  {
    end := from;
    while end < |clients| && clients[end] == clients[from]
      invariant from <= end <= |clients| && forall s | from <= s < end :: clients[s] == clients[from]
    {
      end := end + 1;
    }
  }

  lemma {:induction false} RunsThen(buckets: seq<Bucket>, clients: seq<nat>, from: nat, b: Bucket)
    requires from < b.until <= |clients| && b.from == from && Runs(buckets, clients, from)
    requires buckets != [] ==> b.clients != buckets[|buckets| - 1].clients
    requires forall s | from <= s < b.until :: clients[s] == b.clients
    ensures Runs(buckets + [b], clients, b.until)
  {
    assert forall c :: c in buckets + [b] <==> c in buckets || c == b;
    var longer := buckets + [b];
    forall i | 0 < i < |longer|
      ensures longer[i - 1].until == longer[i].from && longer[i - 1].clients != longer[i].clients
    {
      assert i < |buckets| ==> longer[i - 1] == buckets[i - 1] && longer[i] == buckets[i];
    }
  }

  /** The buckets of a log; a log without requests is refused. */
  method BucketsOfLog(entries: seq<Entry>) returns (result: Option<seq<Bucket>>)
    ensures result.None? <==> forall e | e in entries :: !e.Request?
    ensures result.Some? ==>
              && WindowOf(entries).Some? && Counted(result.value, entries, WindowOf(entries).value)
              && TotalRequests(result.value) == CountInWindow(entries, WindowOf(entries).value)
  {
    NoWindowIff(entries);
    var w := WindowOf(entries);
    if w.None? {
      return None;
    }
    var buckets, _ := CalculateBuckets(entries, w.value);
    return Some(buckets);
  }

  lemma {:induction false} NoWindowIff(entries: seq<Entry>)
    ensures WindowOf(entries).None? <==> forall e | e in entries :: !e.Request?
    ensures LatestRequest(entries).None? <==> FirstRequest(entries).None?
  {
    if entries != [] {
      NoWindowIff(entries[1..]);
      assert forall e :: e in entries <==> e == entries[0] || e in entries[1..];
    }
  }
}
