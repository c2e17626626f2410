// Where the memory of the pods goes: to a detector, to the models being loaded, or to
// the edge endpoint.

module PodMemory {
  import opened Collections

  type PodName = int
  type Detector = int

  /** A running inference pod. Names are unique among the pods of a namespace. */
  datatype Pod = Pod(name: PodName, detector: Detector, oodd: bool, ready: bool, created: Option<int>)

  /** What the metrics server reports for one pod. */
  datatype Report = Report(name: PodName, ram: nat)

  /** Memory by slot; a slot without an active pod has none. */
  datatype Usage = Usage(primary: Option<nat>, oodd: Option<nat>, total: nat)

  function OrZero(n: Option<nat>): nat { if n.Some? then n.value else 0 }

  function Names(pods: seq<Pod>): set<PodName> { set p | p in pods :: p.name }

  ghost predicate DistinctPods(pods: seq<Pod>) {
    forall i, j | 0 <= i < j < |pods| :: pods[i].name != pods[j].name
  }

  ghost predicate DistinctReports(reports: seq<Report>) {
    forall i, j | 0 <= i < j < |reports| :: reports[i].name != reports[j].name
  }

  /** The memory reported for a pod, 0 if there is no report. */
  function RamOf(reports: seq<Report>, name: PodName): nat {
    if reports == [] then 0 else if reports[0].name == name then reports[0].ram else RamOf(reports[1..], name)
  }

  function TotalRam(reports: seq<Report>): nat {
    if reports == [] then 0 else reports[0].ram + TotalRam(reports[1..])
  }

  /** What is reported for pods other than these. */
  function RamElsewhere(reports: seq<Report>, names: set<PodName>): nat {
    if reports == [] then 0
    else (if reports[0].name in names then 0 else reports[0].ram) + RamElsewhere(reports[1..], names)
  }

  function RamOfAll(reports: seq<Report>, pods: seq<Pod>): nat {
    if pods == [] then 0 else RamOfAll(reports, pods[..|pods| - 1]) + RamOf(reports, pods[|pods| - 1].name)
  }

  lemma {:induction false} RamNotReported(reports: seq<Report>, name: PodName)
    requires forall r | r in reports :: r.name != name
    ensures RamOf(reports, name) == 0
    ensures forall names: set<PodName> :: RamElsewhere(reports, names + {name}) == RamElsewhere(reports, names)
  {
    if reports != [] {
      RamNotReported(reports[1..], name);
    }
  }

  lemma {:induction false} RamMoves(reports: seq<Report>, names: set<PodName>, name: PodName)
    requires DistinctReports(reports) && name !in names
    ensures RamElsewhere(reports, names) == RamElsewhere(reports, names + {name}) + RamOf(reports, name)
  {
    if reports != [] {
      if reports[0].name == name {
        assert forall r | r in reports[1..] :: r.name != name;
        RamNotReported(reports[1..], name);
      } else {
        RamMoves(reports[1..], names, name);
      }
    }
  }

  lemma {:induction false} NothingElsewhere(reports: seq<Report>)
    ensures RamElsewhere(reports, {}) == TotalRam(reports)
  {
    if reports != [] {
      NothingElsewhere(reports[1..]);
    }
  }

  /** What is reported is what is reported for the inference pods and what is reported elsewhere. */
  lemma {:induction false} RamSplits(reports: seq<Report>, pods: seq<Pod>)
    requires DistinctReports(reports) && DistinctPods(pods)
    ensures RamOfAll(reports, pods) + RamElsewhere(reports, Names(pods)) == TotalRam(reports)
  {
    if pods == [] {
      NothingElsewhere(reports);
      assert Names(pods) == {};
    } else {
      var n := |pods| - 1;
      RamSplits(reports, pods[..n]);
      assert Names(pods) == Names(pods[..n]) + {pods[n].name};
      RamMoves(reports, Names(pods[..n]), pods[n].name);
    }
  }

  // ---- attribution ----

  /** The memory of the active pods in one slot of a detector. */
  function SlotRam(reports: seq<Report>, pods: seq<Pod>, active: set<PodName>, d: Detector, oodd: bool): nat {
    if pods == [] then 0
    else
      var p := pods[|pods| - 1];
      SlotRam(reports, pods[..|pods| - 1], active, d, oodd)
      + if p.name in active && p.detector == d && p.oodd == oodd then RamOf(reports, p.name) else 0
  }

  function LoadingRam(reports: seq<Report>, pods: seq<Pod>, active: set<PodName>): nat {
    if pods == [] then 0
    else
      var p := pods[|pods| - 1];
      LoadingRam(reports, pods[..|pods| - 1], active) + if p.name in active then 0 else RamOf(reports, p.name)
  }

  /** A detector is listed if one of its pods is active. */
  ghost predicate HasActive(pods: seq<Pod>, active: set<PodName>, d: Detector) {
    exists p :: p in pods && p.name in active && p.detector == d
  }

  function Totals(usage: map<Detector, Usage>, order: seq<Detector>): nat
    requires forall d | d in order :: d in usage
  {
    if order == [] then 0
    else
      var d := order[|order| - 1];
      assert d in order;
      Totals(usage, order[..|order| - 1]) + usage[d].total
  }

  ghost predicate SlotsOf(reports: seq<Report>, pods: seq<Pod>, active: set<PodName>, d: Detector, u: Usage) {
    && OrZero(u.primary) == SlotRam(reports, pods, active, d, false)
    && OrZero(u.oodd) == SlotRam(reports, pods, active, d, true)
    && u.total == OrZero(u.primary) + OrZero(u.oodd)
  }

  ghost predicate Slots(reports: seq<Report>, pods: seq<Pod>, active: set<PodName>, usage: map<Detector, Usage>) {
    forall d | d in usage :: SlotsOf(reports, pods, active, d, usage[d])
  }

  ghost predicate Listed(usage: map<Detector, Usage>, order: seq<Detector>) {
    && (forall d :: d in order <==> d in usage)
    && (forall i, j | 0 <= i < j < |order| :: order[i] != order[j])
  }

  /** Each detector with an active pod has the memory of its active pods, slot by slot, and is listed once. */
  ghost predicate Attributed(reports: seq<Report>, pods: seq<Pod>, active: set<PodName>, usage: map<Detector, Usage>,
                             order: seq<Detector>) {
    && (forall d :: d in usage <==> HasActive(pods, active, d))
    && Listed(usage, order)
    && Slots(reports, pods, active, usage)
  }

  lemma {:induction false} TotalsElsewhere(usage: map<Detector, Usage>, order: seq<Detector>, d: Detector, u: Usage)
    requires (forall e | e in order :: e in usage) && d !in order
    ensures Totals(usage[d := u], order) == Totals(usage, order)
  {
    if order != [] {
      TotalsElsewhere(usage, order[..|order| - 1], d, u);
    }
  }

  lemma {:induction false} TotalsUpdate(usage: map<Detector, Usage>, order: seq<Detector>, d: Detector, u: Usage)
    requires (forall e | e in order :: e in usage) && d in order && forall i, j | 0 <= i < j < |order| :: order[i] != order[j]
    ensures Totals(usage[d := u], order) == Totals(usage, order) - usage[d].total + u.total
  {
    var n := |order| - 1;
    if order[n] == d {
      TotalsElsewhere(usage, order[..n], d, u);
    } else {
      assert d in order[..n];
      TotalsUpdate(usage, order[..n], d, u);
    }
  }

  lemma {:induction false} NoActiveNoRam(reports: seq<Report>, pods: seq<Pod>, active: set<PodName>, d: Detector, oodd: bool)
    requires !HasActive(pods, active, d)
    ensures SlotRam(reports, pods, active, d, oodd) == 0
  {
    if pods != [] {
      var n := |pods| - 1;
      assert forall p | p in pods[..n] :: p in pods;
      assert pods[n] in pods;
      NoActiveNoRam(reports, pods[..n], active, d, oodd);
    }
  }

  /** Gives the memory of every pod to the slot of its detector, or to the models being loaded if it is not active. */
  method AttributeDetectorResources(pods: seq<Pod>, active: set<PodName>, reports: seq<Report>)
    returns (usage: map<Detector, Usage>, order: seq<Detector>, loading: nat)
    ensures Attributed(reports, pods, active, usage, order)
    ensures loading == LoadingRam(reports, pods, active)
    ensures Totals(usage, order) + loading == RamOfAll(reports, pods)
  {
    usage, order, loading := map[], [], 0;
    for i := 0 to |pods|
      invariant Attributed(reports, pods[..i], active, usage, order)
      invariant loading == LoadingRam(reports, pods[..i], active)
      invariant Totals(usage, order) + loading == RamOfAll(reports, pods[..i])
    {
      var p := pods[i];
      assert pods[..i + 1][..i] == pods[..i];
      assert forall q :: q in pods[..i + 1] <==> q in pods[..i] || q == p;
      var ram := RamOf(reports, p.name);
      if p.name !in active {
        loading := loading + ram;
        StillAttributed(reports, pods[..i], active, usage, order, p);
      } else {
        usage, order := AddTo(reports, pods[..i], active, usage, order, p, ram);
      }
      assert pods[..i] + [p] == pods[..i + 1];
    }
    assert pods[..|pods|] == pods;
  }

  lemma {:induction false} SlotThen(reports: seq<Report>, pods: seq<Pod>, active: set<PodName>, p: Pod, d: Detector, oodd: bool)
    ensures SlotRam(reports, pods + [p], active, d, oodd)
            == SlotRam(reports, pods, active, d, oodd)
               + if p.name in active && p.detector == d && p.oodd == oodd then RamOf(reports, p.name) else 0
  {
    assert (pods + [p])[..|pods|] == pods;
  }

  lemma {:induction false} HasThen(pods: seq<Pod>, active: set<PodName>, p: Pod, d: Detector)
    ensures HasActive(pods + [p], active, d) <==> HasActive(pods, active, d) || (p.name in active && p.detector == d)
  {
    assert forall q :: q in pods + [p] <==> q in pods || q == p;
  }

  lemma {:induction false} StillAttributed(reports: seq<Report>, pods: seq<Pod>, active: set<PodName>,
                                           usage: map<Detector, Usage>, order: seq<Detector>, p: Pod)
    requires Attributed(reports, pods, active, usage, order) && p.name !in active
    ensures Attributed(reports, pods + [p], active, usage, order)
  {
    forall d
      ensures HasActive(pods + [p], active, d) <==> HasActive(pods, active, d)
    {
      HasThen(pods, active, p, d);
    }
    forall d | d in usage
      ensures SlotsOf(reports, pods + [p], active, d, usage[d])
    {
      assert SlotsOf(reports, pods, active, d, usage[d]);
      SlotThen(reports, pods, active, p, d, false);
      SlotThen(reports, pods, active, p, d, true);
    }
  }

  /** A detector without an active pod so far gets an entry. */
  method EntryFor(reports: seq<Report>, ghost pods: seq<Pod>, ghost active: set<PodName>, usage0: map<Detector, Usage>,
                  order0: seq<Detector>, d: Detector)
    returns (usage: map<Detector, Usage>, order: seq<Detector>)
    requires Attributed(reports, pods, active, usage0, order0)
    ensures usage.Keys == usage0.Keys + {d} && Listed(usage, order) && Slots(reports, pods, active, usage)
    ensures Totals(usage, order) == Totals(usage0, order0)
  {
    usage, order := usage0, order0;
    if d !in usage {
      NoActiveNoRam(reports, pods, active, d, false);
      NoActiveNoRam(reports, pods, active, d, true);
      usage := usage[d := Usage(None, None, 0)];
      order := order + [d];
      TotalsElsewhere(usage0, order0, d, Usage(None, None, 0));
      assert order[..|order| - 1] == order0;
    }
  }

  /** Adds an active pod to the slot of its detector. */
  method AddTo(reports: seq<Report>, ghost pods: seq<Pod>, ghost active: set<PodName>, usage0: map<Detector, Usage>,
               order0: seq<Detector>, p: Pod, ram: nat)
    returns (usage: map<Detector, Usage>, order: seq<Detector>)
    requires Attributed(reports, pods, active, usage0, order0) && p.name in active && ram == RamOf(reports, p.name)
    ensures Attributed(reports, pods + [p], active, usage, order)
    ensures Totals(usage, order) == Totals(usage0, order0) + ram
  {
    var d := p.detector;
    usage, order := EntryFor(reports, pods, active, usage0, order0, d);
    var u := usage[d];
    u := if p.oodd then u.(oodd := Some(OrZero(u.oodd) + ram)) else u.(primary := Some(OrZero(u.primary) + ram));
    u := u.(total := OrZero(u.primary) + OrZero(u.oodd));
    TotalsUpdate(usage, order, d, u);
    SlotsThen(reports, pods, active, usage, p, u);
    usage := usage[d := u];
    forall e
      ensures HasActive(pods + [p], active, e) <==> HasActive(pods, active, e) || e == d
    {
      HasThen(pods, active, p, e);
    }
  }

  lemma {:induction false} SlotsThen(reports: seq<Report>, pods: seq<Pod>, active: set<PodName>, usage: map<Detector, Usage>,
                                     p: Pod, u: Usage)
    requires Slots(reports, pods, active, usage) && p.name in active && p.detector in usage
    requires var ram, was := RamOf(reports, p.name), usage[p.detector];
             && OrZero(u.primary) == OrZero(was.primary) + (if p.oodd then 0 else ram)
             && OrZero(u.oodd) == OrZero(was.oodd) + (if p.oodd then ram else 0)
             && u.total == OrZero(u.primary) + OrZero(u.oodd)
    ensures Slots(reports, pods + [p], active, usage[p.detector := u])
  {
    forall e | e in usage
      ensures SlotsOf(reports, pods + [p], active, e, usage[p.detector := u][e])
    {
      assert SlotsOf(reports, pods, active, e, usage[e]);
      SlotThen(reports, pods, active, p, e, false);
      SlotThen(reports, pods, active, p, e, true);
    }
  }

  // ---- which pods are active ----

  function CreatedAt(p: Pod): (int, int) { if p.created.Some? then (1, p.created.value) else (0, 0) }

  predicate Before(a: (int, int), b: (int, int)) { a.0 < b.0 || (a.0 == b.0 && a.1 < b.1) }

  predicate SameGroup(p: Pod, q: Pod) { p.detector == q.detector && p.oodd == q.oodd }

  /** Among the first n pods, pod i is the first of the newest ready ones of its group. */
  predicate IsNewestAmong(pods: seq<Pod>, n: nat, i: nat)
    requires i < n <= |pods|
  {
    && pods[i].ready
    && forall j | 0 <= j < n && pods[j].ready && SameGroup(pods[j], pods[i]) ::
         !Before(CreatedAt(pods[i]), CreatedAt(pods[j])) && (j < i ==> Before(CreatedAt(pods[j]), CreatedAt(pods[i])))
  }

  predicate IsNewestReady(pods: seq<Pod>, i: nat)
    requires i < |pods|
  {
    IsNewestAmong(pods, |pods|, i)
  }

  datatype Group = Group(detector: Detector, oodd: bool)

  function GroupOf(p: Pod): Group { Group(p.detector, p.oodd) }

  /** The newest ready pod of every group among the first n pods. */
  ghost predicate Best(pods: seq<Pod>, best: map<Group, nat>, n: nat)
    requires n <= |pods|
  {
    && (forall g | g in best :: best[g] < n && GroupOf(pods[best[g]]) == g && IsNewestAmong(pods, n, best[g]))
    && (forall k | 0 <= k < n && pods[k].ready :: GroupOf(pods[k]) in best)
  }

  lemma {:induction false} BestThen(pods: seq<Pod>, best: map<Group, nat>, i: nat)
    requires i < |pods| && Best(pods, best, i)
    ensures var g := GroupOf(pods[i]);
            var newer := pods[i].ready && (g !in best || Before(CreatedAt(pods[best[g]]), CreatedAt(pods[i])));
            Best(pods, if newer then best[g := i] else best, i + 1)
  {
    var g := GroupOf(pods[i]);
    var newer := pods[i].ready && (g !in best || Before(CreatedAt(pods[best[g]]), CreatedAt(pods[i])));
    if newer {
      NewestSoFar(pods, best, i);
    }
    forall h | h in best && !(newer && h == g)
      ensures IsNewestAmong(pods, i + 1, best[h])
    {
      assert IsNewestAmong(pods, i, best[h]);
    }
  }

  /** A pod newer than the best of its group so far is the best. */
  lemma {:induction false} NewestSoFar(pods: seq<Pod>, best: map<Group, nat>, i: nat)
    requires i < |pods| && Best(pods, best, i) && pods[i].ready
    requires GroupOf(pods[i]) !in best || Before(CreatedAt(pods[best[GroupOf(pods[i])]]), CreatedAt(pods[i]))
    ensures IsNewestAmong(pods, i + 1, i)
  {
    forall j | 0 <= j < i && pods[j].ready && SameGroup(pods[j], pods[i])
      ensures Before(CreatedAt(pods[j]), CreatedAt(pods[i]))
    {
      assert GroupOf(pods[j]) == GroupOf(pods[i]) && GroupOf(pods[j]) in best;
      assert IsNewestAmong(pods, i, best[GroupOf(pods[i])]);
    }
  }

  /** The pod is ready, and no ready pod of the same model was created later, or as late and is listed before it. */
  ghost predicate NewestReady(pods: seq<Pod>, i: int) {
    && 0 <= i < |pods| && pods[i].ready
    && forall j | 0 <= j < |pods| && pods[j].ready && pods[j].detector == pods[i].detector && pods[j].oodd == pods[i].oodd ::
         && (pods[j].created.Some? ==> pods[i].created.Some? && pods[j].created.value <= pods[i].created.value)
         && (j < i ==> pods[j].created != pods[i].created)
  }

  lemma {:induction false} NewestMeans(pods: seq<Pod>, i: nat)
    requires i < |pods|
    ensures IsNewestReady(pods, i) <==> NewestReady(pods, i)
  {
  }

  /** The active pods are exactly the newest ready ones of their models. */
  ghost predicate ActiveAre(pods: seq<Pod>, active: set<PodName>) {
    forall name :: name in active <==> exists i :: NewestReady(pods, i) && pods[i].name == name
  }

  /** In every group the newest ready pod is active, and no other. */
  method PickActivePods(pods: seq<Pod>) returns (active: set<PodName>)
    ensures ActiveAre(pods, active)
  {
    var best: map<Group, nat> := map[];
    for i := 0 to |pods|
      invariant Best(pods, best, i)
    {
      BestThen(pods, best, i);
      var g := GroupOf(pods[i]);
      if pods[i].ready && (g !in best || Before(CreatedAt(pods[best[g]]), CreatedAt(pods[i]))) {
        best := best[g := i];
      }
    }
    active := set g | g in best :: pods[best[g]].name;
    forall i | NewestReady(pods, i)
      ensures pods[i].name in active
    {
      NewestMeans(pods, i);
      OneNewest(pods, i, best[GroupOf(pods[i])]);
    }
    forall g | g in best
      ensures NewestReady(pods, best[g])
    {
      NewestMeans(pods, best[g]);
    }
  }

  /** At most one pod of a group is active, and one is if and only if the group has a ready pod. */
  lemma {:induction false} OneNewest(pods: seq<Pod>, i: nat, j: nat)
    requires i < |pods| && j < |pods| && SameGroup(pods[i], pods[j]) && IsNewestReady(pods, i) && IsNewestReady(pods, j)
    ensures i == j
  {
  }

  lemma {:induction false} NewestExists(pods: seq<Pod>, j: nat) returns (i: nat)
    requires j < |pods| && pods[j].ready
    ensures i < |pods| && SameGroup(pods[i], pods[j]) && NewestReady(pods, i)
  {
    i := j;
    var k := 0;
    while k < |pods|
      invariant 0 <= k <= |pods| && i < |pods| && pods[i].ready && SameGroup(pods[i], pods[j])
      invariant forall m | 0 <= m < k && pods[m].ready && SameGroup(pods[m], pods[j]) ::
                  !Before(CreatedAt(pods[i]), CreatedAt(pods[m]))
      invariant i != j ==> i < k
      invariant forall m | 0 <= m < k && m < i && pods[m].ready && SameGroup(pods[m], pods[j]) ::
                  Before(CreatedAt(pods[m]), CreatedAt(pods[i]))
    {
      if pods[k].ready && SameGroup(pods[k], pods[j]) {
        if Before(CreatedAt(pods[i]), CreatedAt(pods[k])) || (k < i && !Before(CreatedAt(pods[k]), CreatedAt(pods[i]))) {
          i := k;
        }
      }
      k := k + 1;
    }
    NewestMeans(pods, i);
  }

  /** What a slot shows is the memory of its one active pod. */
  lemma {:induction false} SlotIsItsPod(pods: seq<Pod>, active: set<PodName>, reports: seq<Report>, i: nat, n: nat)
    requires DistinctPods(pods) && ActiveAre(pods, active) && i < |pods| && n <= |pods| && NewestReady(pods, i)
    ensures SlotRam(reports, pods[..n], active, pods[i].detector, pods[i].oodd) == if i < n then RamOf(reports, pods[i].name) else 0
    decreases n
  {
    if n > 0 {
      SlotIsItsPod(pods, active, reports, i, n - 1);
      assert pods[..n] == pods[..n - 1] + [pods[n - 1]];
      SlotThen(reports, pods[..n - 1], active, pods[n - 1], pods[i].detector, pods[i].oodd);
      OnlyItsPod(pods, active, i, n - 1);
    }
  }

  lemma {:induction false} OnlyItsPod(pods: seq<Pod>, active: set<PodName>, i: nat, k: nat)
    requires DistinctPods(pods) && ActiveAre(pods, active) && i < |pods| && k < |pods| && NewestReady(pods, i)
    ensures pods[k].name in active && SameGroup(pods[k], pods[i]) <==> k == i
  {
    if pods[k].name in active && SameGroup(pods[k], pods[i]) {
      var j :| NewestReady(pods, j) && pods[j].name == pods[k].name;
      assert j == k;
      NewestMeans(pods, i);
      NewestMeans(pods, k);
      OneNewest(pods, i, k);
    }
  }

  /** The memory of a pod is what is reported under its name. */
  lemma {:induction false} RamOfIs(reports: seq<Report>, name: PodName)
    requires DistinctReports(reports)
    ensures forall r | r in reports && r.name == name :: RamOf(reports, name) == r.ram
    ensures (forall r | r in reports :: r.name != name) ==> RamOf(reports, name) == 0
  {
    if reports != [] {
      RamOfIs(reports[1..], name);
      assert forall r :: r in reports <==> r == reports[0] || r in reports[1..];
      assert forall r | r in reports[1..] :: r.name != reports[0].name;
    }
  }

  /** Every active pod has its memory in the slot of its model. */
  ghost predicate SlotsShow(pods: seq<Pod>, reports: seq<Report>, usage: map<Detector, Usage>) {
    forall i | NewestReady(pods, i) ::
      && pods[i].detector in usage
      && RamOf(reports, pods[i].name) == OrZero(if pods[i].oodd then usage[pods[i].detector].oodd else usage[pods[i].detector].primary)
  }

  lemma {:induction false} ActiveShow(pods: seq<Pod>, active: set<PodName>, reports: seq<Report>, usage: map<Detector, Usage>,
                                      order: seq<Detector>)
    requires DistinctPods(pods) && ActiveAre(pods, active) && Attributed(reports, pods, active, usage, order)
    ensures SlotsShow(pods, reports, usage)
  {
    forall i | NewestReady(pods, i)
      ensures pods[i].detector in usage
      ensures RamOf(reports, pods[i].name) == OrZero(if pods[i].oodd then usage[pods[i].detector].oodd else usage[pods[i].detector].primary)
    {
      assert pods[..|pods|] == pods;
      SlotIsItsPod(pods, active, reports, i, |pods|);
      assert pods[i] in pods && pods[i].name in active;
      assert HasActive(pods, active, pods[i].detector);
      assert SlotsOf(reports, pods, active, pods[i].detector, usage[pods[i].detector]);
    }
  }

  // ---- conservation ----

  /**
   * Whatever pods there are and whichever of them are active: the memory of the detectors, of the models
   * being loaded and of the edge endpoint add up to all that was reported.
   */
  method Collect(pods: seq<Pod>, reports: seq<Report>)
    returns (active: set<PodName>, usage: map<Detector, Usage>, order: seq<Detector>, loading: nat, edgeEndpoint: nat)
    requires DistinctPods(pods) && DistinctReports(reports)
    ensures ActiveAre(pods, active) && Attributed(reports, pods, active, usage, order)
    ensures SlotsShow(pods, reports, usage)
    ensures loading == LoadingRam(reports, pods, active) && edgeEndpoint == RamElsewhere(reports, Names(pods))
    ensures Totals(usage, order) + loading + edgeEndpoint == TotalRam(reports)
  {
    active := PickActivePods(pods);
    usage, order, loading := AttributeDetectorResources(pods, active, reports);
    ActiveShow(pods, active, reports, usage, order);
    var names := set p | p in pods :: p.name;
    edgeEndpoint := 0;
    for i := 0 to |reports|
      invariant edgeEndpoint + RamElsewhere(reports[i..], names) == RamElsewhere(reports, names)
    {
      assert reports[i..][1..] == reports[i + 1..];
      if reports[i].name !in names {
        edgeEndpoint := edgeEndpoint + reports[i].ram;
      }
    }
    RamSplits(reports, pods);
  }
}
