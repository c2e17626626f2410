// What the spans of a traced request say about its calls, and that the waterfall shows
// exactly these.

module CallRecords {
  import opened Collections
  import opened TraceSpans
  import opened TraceRecords
  import opened StableSort
  import opened SpanTrees
  import opened SpanGraph
  import opened WaterfallSearch
  import opened TracedSpans

  /** A traced call and the traced calls it makes, one after the other. */
  datatype Call = Call(name: Name, calls: seq<Call>)

  function Count(c: Call): nat
    ensures Count(c) >= 1
    decreases c
  {
    1 + CountAll(c.calls)
  }

  function CountAll(cs: seq<Call>): nat
    decreases cs
  {
    if cs == [] then 0 else Count(cs[0]) + CountAll(cs[1..])
  }

  /** From position `at` on, the spans record the call; `parent` is the position of its caller's span, or -1. */
  ghost predicate Records(spans: seq<Span>, c: Call, at: nat, parent: int)
    decreases c
  {
    && at + Count(c) <= |spans| && -1 <= parent < at
    && spans[at].name == Some(c.name)
    && spans[at].parentId == (if parent < 0 then None else spans[parent].spanId)
    && RecordsAll(spans, c.calls, at + 1, at)
  }

  ghost predicate RecordsAll(spans: seq<Span>, cs: seq<Call>, at: nat, parent: int)
    decreases cs
  {
    && at + CountAll(cs) <= |spans| && -1 <= parent < at
    && (cs != [] ==> Records(spans, cs[0], at, parent) && RecordsAll(spans, cs[1..], at + Count(cs[0]), parent))
  }

  /** The tree of positions that the call should be shown as. */
  function TreeAt(c: Call, at: nat): Tree
    decreases c
  {
    Tree(at, TreesAt(c.calls, at + 1))
  }

  function TreesAt(cs: seq<Call>, at: nat): seq<Tree>
    decreases cs
  {
    if cs == [] then [] else [TreeAt(cs[0], at)] + TreesAt(cs[1..], at + Count(cs[0]))
  }

  /** The depths of the calls, in the order in which they start. */
  function Depths(c: Call, depth: nat): seq<nat>
    decreases c
  {
    [depth] + DepthsAll(c.calls, depth + 1)
  }

  function DepthsAll(cs: seq<Call>, depth: nat): seq<nat>
    decreases cs
  {
    if cs == [] then [] else Depths(cs[0], depth) + DepthsAll(cs[1..], depth)
  }

  // ---- where the children of a recorded call are ----

  /** The positions of the calls themselves. */
  function Starts(cs: seq<Call>, at: nat): seq<int>
    decreases cs
  {
    if cs == [] then [] else [at] + Starts(cs[1..], at + Count(cs[0]))
  }

  ghost predicate DistinctIds(spans: seq<Span>) {
    UniqueIds(spans) && HaveIds(spans)
  }

  predicate ChildAt(spans: seq<Span>, i: int, j: int) {
    0 <= i < |spans| && 0 <= j < |spans| && spans[j].parentId == spans[i].spanId
  }

  /** A position among recorded calls is one of theirs, or its parent is among them and before it. */
  lemma {:induction false} Inside(spans: seq<Span>, cs: seq<Call>, at: nat, parent: int, j: int)
    requires RecordsAll(spans, cs, at, parent) && at <= j < at + CountAll(cs)
    ensures (j in Starts(cs, at) && spans[j].parentId == (if parent < 0 then None else spans[parent].spanId))
            || exists i :: at <= i < j && ChildAt(spans, i, j)
    decreases cs
  {
    var next := at + Count(cs[0]);
    if j >= next {
      Inside(spans, cs[1..], next, parent, j);
    } else if j > at {
      Inside(spans, cs[0].calls, at + 1, at, j);
      assert spans[j].parentId == spans[at].spanId ==> ChildAt(spans, at, j);
    }
  }

  /** Ids tell the parent: no span is the child of two. */
  lemma {:induction false} OneParentAt(spans: seq<Span>, x: int, y: int, j: int)
    requires DistinctIds(spans) && ChildAt(spans, x, j) && ChildAt(spans, y, j)
    ensures x == y
  {
    assert spans[x] in spans && spans[y] in spans;
  }

  lemma {:induction false} NotTwice(spans: seq<Span>, x: int, j: int)
    requires DistinctIds(spans) && ChildAt(spans, x, j)
    ensures forall i | ChildAt(spans, i, j) :: i == x
    ensures forall i | 0 <= i < |spans| && spans[j].parentId == spans[i].spanId :: i == x
  {
    forall i | 0 <= i < |spans| && spans[j].parentId == spans[i].spanId
      ensures i == x
    {
      OneParentAt(spans, i, x, j);
    }
  }

  /** Children of these calls are among them, and are not the calls themselves. */
  ghost predicate ClosedUnder(spans: seq<Span>, cs: seq<Call>, at: nat) {
    forall x, j | at <= x < at + CountAll(cs) && ChildAt(spans, x, j) ::
      at <= j < at + CountAll(cs) && j !in Starts(cs, at)
  }

  lemma {:induction false} ClosedRest(spans: seq<Span>, cs: seq<Call>, at: nat, parent: int)
    requires DistinctIds(spans) && cs != [] && RecordsAll(spans, cs, at, parent) && ClosedUnder(spans, cs, at)
    ensures ClosedUnder(spans, cs[1..], at + Count(cs[0]))
  {
    var next := at + Count(cs[0]);
    forall x, j | next <= x < next + CountAll(cs[1..]) && ChildAt(spans, x, j)
      ensures next <= j < next + CountAll(cs[1..]) && j !in Starts(cs[1..], next)
    {
      assert at <= x < at + CountAll(cs);
      StaysInRest(spans, cs, at, parent, x, j);
    }
  }

  /** A child of a later call or below it is not below the first call. */
  lemma {:induction false} StaysInRest(spans: seq<Span>, cs: seq<Call>, at: nat, parent: int, x: int, j: int)
    requires DistinctIds(spans) && cs != [] && RecordsAll(spans, cs, at, parent)
    requires at + Count(cs[0]) <= x && ChildAt(spans, x, j)
    requires at <= j < at + CountAll(cs) && j !in Starts(cs, at)
    ensures at + Count(cs[0]) <= j && j !in Starts(cs[1..], at + Count(cs[0]))
  {
    if j < at + Count(cs[0]) {
      Inside(spans, cs[0].calls, at + 1, at, j);
      NotTwice(spans, x, j);
    }
  }

  /** A child of the first call or below it is below the first call. */
  lemma {:induction false} ClosedFirst(spans: seq<Span>, cs: seq<Call>, at: nat, parent: int, x: int, j: int)
    requires DistinctIds(spans) && cs != [] && RecordsAll(spans, cs, at, parent) && ClosedUnder(spans, cs, at)
    requires at <= x < at + Count(cs[0]) && ChildAt(spans, x, j)
    ensures at < j < at + Count(cs[0])
    ensures x == at ==> j in Starts(cs[0].calls, at + 1)
    ensures x > at ==> j !in Starts(cs[0].calls, at + 1)
  {
    var next := at + Count(cs[0]);
    assert j !in Starts(cs, at);
    NotTwice(spans, x, j);
    if j >= next {
      Inside(spans, cs[1..], next, parent, j);
    } else {
      Inside(spans, cs[0].calls, at + 1, at, j);
      if j in Starts(cs[0].calls, at + 1) {
        StartsAreChildren(spans, cs[0].calls, at + 1, at, j);
      }
    }
  }

  lemma {:induction false} ClosedInner(spans: seq<Span>, cs: seq<Call>, at: nat, parent: int)
    requires DistinctIds(spans) && cs != [] && RecordsAll(spans, cs, at, parent) && ClosedUnder(spans, cs, at)
    ensures ClosedUnder(spans, cs[0].calls, at + 1)
  {
    forall x, j | at + 1 <= x < at + 1 + CountAll(cs[0].calls) && ChildAt(spans, x, j)
      ensures at + 1 <= j < at + 1 + CountAll(cs[0].calls) && j !in Starts(cs[0].calls, at + 1)
    {
      ClosedFirst(spans, cs, at, parent, x, j);
    }
  }

  /** The children of the first call are exactly the calls it makes. */
  lemma {:induction false} ChildrenOfFirst(spans: seq<Span>, cs: seq<Call>, at: nat, parent: int, j: int)
    requires DistinctIds(spans) && cs != [] && RecordsAll(spans, cs, at, parent) && ClosedUnder(spans, cs, at)
    ensures ChildAt(spans, at, j) <==> j in Starts(cs[0].calls, at + 1)
  {
    if ChildAt(spans, at, j) {
      ClosedFirst(spans, cs, at, parent, at, j);
    }
    if j in Starts(cs[0].calls, at + 1) {
      StartsAreChildren(spans, cs[0].calls, at + 1, at, j);
    }
  }

  lemma {:induction false} StartsAreChildren(spans: seq<Span>, cs: seq<Call>, at: nat, parent: nat, j: int)
    requires RecordsAll(spans, cs, at, parent) && j in Starts(cs, at)
    ensures ChildAt(spans, parent, j)
    decreases cs
  {
    if j != at {
      StartsAreChildren(spans, cs[1..], at + Count(cs[0]), parent, j);
    }
  }

  // ---- lists in increasing order ----

  ghost predicate Increasing(xs: seq<int>) {
    forall a, b | 0 <= a < b < |xs| :: xs[a] < xs[b]
  }

  lemma {:induction false} StartsIncrease(cs: seq<Call>, at: nat)
    ensures Increasing(Starts(cs, at))
    ensures forall j | j in Starts(cs, at) :: at <= j < at + CountAll(cs)
    decreases cs
  {
    if cs != [] {
      var next := at + Count(cs[0]);
      var rest := Starts(cs[1..], next);
      StartsIncrease(cs[1..], next);
      assert forall b | 0 <= b < |rest| :: rest[b] in rest;
      assert forall j | j in rest :: next <= j;
      assert forall j :: j in [at] + rest <==> j == at || j in rest;
    }
  }

  lemma {:induction false} SameIncreasing(xs: seq<int>, ys: seq<int>)
    requires Increasing(xs) && Increasing(ys) && forall j :: j in xs <==> j in ys
    ensures xs == ys
    decreases |xs|
  {
    if xs == [] {
      assert forall j :: j in ys <==> j in xs;
      NoElements(ys);
    } else if ys == [] {
      assert forall j :: j in xs <==> j in ys;
      NoElements(xs);
    } else {
      assert xs[0] in ys && ys[0] in xs;
      assert xs[0] == ys[0];
      forall j
        ensures j in xs[1..] <==> j in ys[1..]
      {
        assert j in xs <==> j == xs[0] || j in xs[1..];
        assert j in ys <==> j == ys[0] || j in ys[1..];
      }
      SameIncreasing(xs[1..], ys[1..]);
      assert xs == [xs[0]] + xs[1..] && ys == [ys[0]] + ys[1..];
    }
  }

  ghost predicate StartsInOrder(spans: seq<Span>) {
    forall i, j | 0 <= i < j < |spans| :: StartOf(spans[i]) <= StartOf(spans[j])
  }

  /** Positions below n under the starts of their spans, in order of both. */
  ghost predicate Listed(xs: seq<Keyed<int>>, spans: seq<Span>, n: nat)
    requires n <= |spans|
  {
    && Sorted(xs) && (forall a, b | 0 <= a < b < |xs| :: xs[a].value < xs[b].value)
    && (forall a | 0 <= a < |xs| :: 0 <= xs[a].value < n && xs[a].key == StartOf(spans[xs[a].value]))
  }

  lemma ListedThen(xs: seq<Keyed<int>>, spans: seq<Span>, n: nat)
    requires StartsInOrder(spans) && n < |spans| && Listed(xs, spans, n)
    ensures Listed(xs, spans, n + 1) && Listed(xs + [Keyed(StartOf(spans[n]), n)], spans, n + 1)
  {
  }

  lemma {:induction false} KeyedInOrder(spans: seq<Span>, key: Option<Id>, n: nat)
    requires StartsInOrder(spans) && n <= |spans|
    ensures Listed(KeyedUnder(spans, key, n), spans, n)
    decreases n
  {
    if n > 0 {
      KeyedInOrder(spans, key, n - 1);
      var before := KeyedUnder(spans, key, n - 1);
      ListedThen(before, spans, n - 1);
      assert before + [] == before;
    }
  }

  /** Spans recorded in order of their start are listed in order of their position. */
  lemma {:induction false} ChildrenIncrease(spans: seq<Span>, key: Option<Id>)
    requires StartsInOrder(spans)
    ensures Increasing(ChildrenOf(spans, key))
  {
    KeyedInOrder(spans, key, |spans|);
    SortedStays(KeyedUnder(spans, key, |spans|));
  }

  // ---- the graph of a recorded request ----

  /** The spans record one request, whose root span comes first. */
  ghost predicate RecordsRequest(spans: seq<Span>, c: Call) {
    Records(spans, c, 0, -1) && |spans| == Count(c) && DistinctIds(spans) && StartsInOrder(spans)
  }

  lemma {:induction false} AsList(spans: seq<Span>, c: Call)
    requires RecordsRequest(spans, c)
    ensures RecordsAll(spans, [c], 0, -1) && CountAll([c]) == |spans| && Starts([c], 0) == [0]
    ensures ClosedUnder(spans, [c], 0)
  {
    assert [c][1..] == [];
    assert Starts([c][1..], Count(c)) == [];
    forall x | 0 <= x < |spans|
      ensures !ChildAt(spans, x, 0)
    {
      assert spans[x] in spans;
    }
  }

  lemma {:induction false} KeyIsParent(spans: seq<Span>, c: Call, j: int)
    requires RecordsRequest(spans, c) && 0 <= j < |spans|
    ensures ParentKey(spans, j) == spans[j].parentId
    ensures spans[j].parentId.None? <==> j == 0
  {
    AsList(spans, c);
    Inside(spans, [c], 0, -1, j);
    if j != 0 {
      var i :| 0 <= i < j && ChildAt(spans, i, j);
      assert spans[i] in spans;
    }
  }

  /** The graph lists under a recorded call the calls it makes. */
  lemma {:induction false} KidsAreCalls(spans: seq<Span>, c: Call, cs: seq<Call>, at: nat, parent: int)
    requires RecordsRequest(spans, c)
    requires cs != [] && RecordsAll(spans, cs, at, parent) && ClosedUnder(spans, cs, at)
    ensures GraphOf(spans).kids[at] == Starts(cs[0].calls, at + 1)
  {
    var g := GraphOf(spans);
    GraphDescribes(spans);
    var kids, calls := g.kids[at], Starts(cs[0].calls, at + 1);
    assert ChildrenAre(spans, spans[at].spanId, kids);
    assert spans[at] in spans;
    forall j
      ensures j in kids <==> j in calls
    {
      if 0 <= j < |spans| {
        KeyIsParent(spans, c, j);
      }
      ChildrenOfFirst(spans, cs, at, parent, j);
    }
    ChildrenIncrease(spans, spans[at].spanId);
    StartsIncrease(cs[0].calls, at + 1);
    SameIncreasing(kids, calls);
  }

  lemma {:induction false} CallTrees(spans: seq<Span>, c: Call, cs: seq<Call>, at: nat, parent: int)
    requires RecordsRequest(spans, c) && RecordsAll(spans, cs, at, parent) && ClosedUnder(spans, cs, at)
    ensures IsForest(GraphOf(spans), TreesAt(cs, at), Starts(cs, at))
    decreases cs
  {
    if cs != [] {
      KidsAreCalls(spans, c, cs, at, parent);
      ClosedInner(spans, cs, at, parent);
      CallTrees(spans, c, cs[0].calls, at + 1, at);
      ClosedRest(spans, cs, at, parent);
      CallTrees(spans, c, cs[1..], at + Count(cs[0]), parent);
      FirstAndRest(GraphOf(spans), cs, at);
    }
  }

  lemma {:induction false} FirstAndRest(g: Graph, cs: seq<Call>, at: nat)
    requires cs != [] && at < |g.kids| && g.kids[at] == Starts(cs[0].calls, at + 1)
    requires IsForest(g, TreesAt(cs[0].calls, at + 1), Starts(cs[0].calls, at + 1))
    requires IsForest(g, TreesAt(cs[1..], at + Count(cs[0])), Starts(cs[1..], at + Count(cs[0])))
    ensures IsForest(g, TreesAt(cs, at), Starts(cs, at))
  {
    assert IsTree(g, TreeAt(cs[0], at));
  }

  lemma {:induction false} PreorderOfCall(c: Call, at: nat, depth: nat)
    ensures |Preorder(TreeAt(c, at), depth)| == Count(c) == |Depths(c, depth)|
    ensures forall k | 0 <= k < Count(c) :: Preorder(TreeAt(c, at), depth)[k] == Placed(at + k, Depths(c, depth)[k])
    decreases c, 0
  {
    PreorderOfCalls(c.calls, at + 1, depth + 1);
  }

  lemma {:induction false} PreorderOfCalls(cs: seq<Call>, at: nat, depth: nat)
    ensures |PreorderAll(TreesAt(cs, at), depth)| == CountAll(cs) == |DepthsAll(cs, depth)|
    ensures forall k | 0 <= k < CountAll(cs) ::
              PreorderAll(TreesAt(cs, at), depth)[k] == Placed(at + k, DepthsAll(cs, depth)[k])
    decreases cs, 0
  {
    if cs != [] {
      PreorderOfCall(cs[0], at, depth);
      PreorderOfCalls(cs[1..], at + Count(cs[0]), depth);
      assert TreesAt(cs, at)[1..] == TreesAt(cs[1..], at + Count(cs[0]));
    }
  }

  /**
   * The waterfall of a traced request is its calls: the search ends, and the rows are the spans in the
   * order in which the calls started, each indented by how deeply its call was nested.
   */
  lemma {:induction false} WaterfallIsCallTree(spans: seq<Span>, c: Call)
    requires RecordsRequest(spans, c)
    ensures IsForest(GraphOf(spans), [TreeAt(c, 0)], GraphOf(spans).roots)
    ensures var rows := Rows(PreorderAll([TreeAt(c, 0)], 0), |spans|);
            && |rows| == |spans| == |Depths(c, 0)|
            && forall k | 0 <= k < |rows| :: rows[k] == Placed(k, Depths(c, 0)[k])
  {
    var g := GraphOf(spans);
    AsList(spans, c);
    CallTrees(spans, c, [c], 0, -1);
    assert [c][1..] == [];
    assert TreesAt([c], 0) == [TreeAt(c, 0)];
    RootIsFirst(spans, c);
    PreorderOfCall(c, 0, 0);
    assert PreorderAll([TreeAt(c, 0)], 0) == Preorder(TreeAt(c, 0), 0) by {
      assert [TreeAt(c, 0)][1..] == [];
      assert Preorder(TreeAt(c, 0), 0) + [] == Preorder(TreeAt(c, 0), 0);
    }
    EverythingPlaced(PreorderAll([TreeAt(c, 0)], 0), |spans|);
  }

  lemma {:induction false} RootIsFirst(spans: seq<Span>, c: Call)
    requires RecordsRequest(spans, c)
    ensures GraphOf(spans).roots == [0]
  {
    GraphDescribes(spans);
    ChildrenIncrease(spans, None);
    forall j
      ensures j in GraphOf(spans).roots <==> j in [0]
    {
      if 0 <= j < |spans| {
        KeyIsParent(spans, c, j);
      }
    }
    SameIncreasing(GraphOf(spans).roots, [0]);
  }

  lemma {:induction false} EverythingPlaced(ps: seq<Placed>, n: nat)
    requires |ps| == n && forall k | 0 <= k < n :: ps[k].node == k
    ensures Rows(ps, n) == ps
  {
    UnplacedAre(ps, n);
    var others := Unplaced(ps, n);
    forall j | 0 <= j < n
      ensures IsPlaced(ps, j)
    {
      assert ps[j] in ps;
    }
    NoElements(others);
  }
}
