// The iterative depth-first search behind the waterfall, and that it computes the
// preorder.

module WaterfallSearch {
  import opened Collections
  import opened TraceSpans
  import opened TraceRecords
  import opened StableSort
  import opened SpanTrees
  import opened SpanGraph
  import opened WaterfallOrder

  /** The stack, its top last, and what has been placed. */
  datatype Search = Search(stack: seq<Placed>, ordered: seq<Placed>)

  /** The nodes in reverse, so that the first of them is on top. */
  function Pushed(nodes: seq<int>, depth: int): seq<Placed> {
    if nodes == [] then [] else Pushed(nodes[1..], depth) + [Placed(nodes[0], depth)]
  }

  function Start(g: Graph): Search { Search(Pushed(g.roots, 0), []) }

  predicate InRange(g: Graph, nodes: seq<int>) {
    forall j | j in nodes :: 0 <= j < |g.kids|
  }

  /** One turn of the loop. */
  function Pop(g: Graph, s: Search): Search
    requires s.stack != []
  {
    var n := |s.stack| - 1;
    var top := s.stack[n];
    var kids := if 0 <= top.node < |g.kids| then g.kids[top.node] else [];
    Search(s.stack[..n] + Pushed(kids, top.depth + 1), s.ordered + [top])
  }

  /** The state of the search after at most n turns. */
  function After(g: Graph, s: Search, n: nat): Search
    decreases n
  {
    if n == 0 || s.stack == [] then s else After(g, Pop(g, s), n - 1)
  }

  // ---- the stack as trees ----

  ghost predicate Unfolded(g: Graph, stack: seq<Placed>, trees: seq<Tree>) {
    && |stack| == |trees|
    && forall i | 0 <= i < |stack| :: trees[i].node == stack[i].node && IsTree(g, trees[i])
  }

  function Reversed<T>(xs: seq<T>): seq<T> {
    if xs == [] then [] else Reversed(xs[1..]) + [xs[0]]
  }

  /** What the search still has to place: the trees of the stack from its top. */
  function Rest(stack: seq<Placed>, trees: seq<Tree>): seq<Placed>
    requires |stack| == |trees|
  {
    if stack == [] then []
    else
      var n := |stack| - 1;
      Preorder(trees[n], stack[n].depth) + Rest(stack[..n], trees[..n])
  }

  lemma {:induction false} PushedLength(nodes: seq<int>, depth: int)
    ensures |Pushed(nodes, depth)| == |nodes|
    ensures forall i | 0 <= i < |nodes| :: Pushed(nodes, depth)[i] == Placed(nodes[|nodes| - 1 - i], depth)
  {
    if nodes != [] {
      PushedLength(nodes[1..], depth);
    }
  }

  lemma {:induction false} ReversedAt<T>(xs: seq<T>)
    ensures |Reversed(xs)| == |xs|
    ensures forall i | 0 <= i < |xs| :: Reversed(xs)[i] == xs[|xs| - 1 - i]
  {
    if xs != [] {
      ReversedAt(xs[1..]);
    }
  }

  lemma {:induction false} PushUnfolded(g: Graph, stack: seq<Placed>, trees: seq<Tree>, ts: seq<Tree>, nodes: seq<int>,
                                        depth: int)
    requires Unfolded(g, stack, trees) && IsForest(g, ts, nodes)
    ensures Unfolded(g, stack + Pushed(nodes, depth), trees + Reversed(ts))
  {
    PushedLength(nodes, depth);
    ReversedAt(ts);
  }

  lemma {:induction false} RestTop(stack: seq<Placed>, trees: seq<Tree>, p: Placed, t: Tree)
    requires |stack| == |trees|
    ensures Rest(stack + [p], trees + [t]) == Preorder(t, p.depth) + Rest(stack, trees)
  {
    assert (stack + [p])[..|stack|] == stack && (trees + [t])[..|trees|] == trees;
  }

  lemma {:induction false} PushRest(stack: seq<Placed>, trees: seq<Tree>, ts: seq<Tree>, nodes: seq<int>, depth: int)
    requires |stack| == |trees| && |ts| == |nodes|
    ensures |Pushed(nodes, depth)| == |Reversed(ts)|
    ensures Rest(stack + Pushed(nodes, depth), trees + Reversed(ts)) == PreorderAll(ts, depth) + Rest(stack, trees)
  {
    if ts == [] {
      assert stack + [] == stack && trees + [] == trees;
    } else {
      PushRest(stack, trees, ts[1..], nodes[1..], depth);
      var top := Placed(nodes[0], depth);
      Associative(stack, Pushed(nodes[1..], depth), [top]);
      Associative(trees, Reversed(ts[1..]), [ts[0]]);
      RestTop(stack + Pushed(nodes[1..], depth), trees + Reversed(ts[1..]), top, ts[0]);
      Associative(Preorder(ts[0], depth), PreorderAll(ts[1..], depth), Rest(stack, trees));
    }
  }

  /** The search from this stack has to place exactly `rest`, in this order. */
  ghost predicate Pending(g: Graph, stack: seq<Placed>, rest: seq<Placed>) {
    exists trees :: Unfolded(g, stack, trees) && Rest(stack, trees) == rest
  }

  lemma {:induction false} NothingPending(g: Graph, rest: seq<Placed>)
    requires Pending(g, [], rest)
    ensures rest == []
  {
  }

  /** One turn places the first of them and leaves the others. */
  lemma {:induction false} TopPlaced(g: Graph, stack: seq<Placed>, trees: seq<Tree>, top: Placed, t: Tree)
    requires Unfolded(g, stack, trees) && IsTree(g, t) && t.node == top.node
    ensures Rest(stack + [top], trees + [t]) != [] && Rest(stack + [top], trees + [t])[0] == top
    ensures Pending(g, stack + Pushed(g.kids[top.node], top.depth + 1), Rest(stack + [top], trees + [t])[1..])
  {
    RestTop(stack, trees, top, t);
    PushRest(stack, trees, t.kids, g.kids[top.node], top.depth + 1);
    PushUnfolded(g, stack, trees, t.kids, g.kids[top.node], top.depth + 1);
    assert ([top] + PreorderAll(t.kids, top.depth + 1) + Rest(stack, trees))[1..]
           == PreorderAll(t.kids, top.depth + 1) + Rest(stack, trees);
  }

  lemma {:induction false} TurnPlaces(g: Graph, stack: seq<Placed>, rest: seq<Placed>)
    requires stack != [] && Pending(g, stack, rest)
    ensures rest != [] && rest[0] == stack[|stack| - 1]
    ensures var n := |stack| - 1;
            && 0 <= stack[n].node < |g.kids|
            && Pending(g, stack[..n] + Pushed(g.kids[stack[n].node], stack[n].depth + 1), rest[1..])
  {
    var trees :| Unfolded(g, stack, trees) && Rest(stack, trees) == rest;
    var n := |stack| - 1;
    TopPlaced(g, stack[..n], trees[..n], stack[n], trees[n]);
    assert stack == stack[..n] + [stack[n]] && trees == trees[..n] + [trees[n]];
  }

  lemma {:induction false} Finishes(g: Graph, s: Search, rest: seq<Placed>)
    requires Pending(g, s.stack, rest)
    ensures After(g, s, |rest|) == Search([], s.ordered + rest)
    decreases |rest|
  {
    if s.stack == [] {
      NothingPending(g, rest);
      assert s.ordered + [] == s.ordered;
    } else {
      TurnPlaces(g, s.stack, rest);
      Finishes(g, Pop(g, s), rest[1..]);
      FirstMoves(s.ordered, rest);
    }
  }

  lemma FirstMoves(ordered: seq<Placed>, rest: seq<Placed>)
    requires rest != []
    ensures ordered + [rest[0]] + rest[1..] == ordered + rest
  {
  }

  /** The trees of a stack on top of another one, as the forest that was pushed. */
  lemma {:induction false} PoppedForest(g: Graph, stack: seq<Placed>, nodes: seq<int>, depth: int, trees: seq<Tree>)
    requires Unfolded(g, stack + Pushed(nodes, depth), trees)
    ensures |stack| <= |trees| && Unfolded(g, stack, trees[..|stack|])
    ensures IsForest(g, Reversed(trees[|stack|..]), nodes)
  {
    PushedLength(nodes, depth);
    var top := trees[|stack|..];
    ReversedAt(top);
    forall i | 0 <= i < |nodes|
      ensures Reversed(top)[i].node == nodes[i] && IsTree(g, Reversed(top)[i])
    {
      var k := |nodes| - 1 - i;
      assert (stack + Pushed(nodes, depth))[|stack| + k] == Pushed(nodes, depth)[k];
      assert Reversed(top)[i] == trees[|stack| + k];
    }
    forall i | 0 <= i < |stack|
      ensures trees[i].node == stack[i].node && IsTree(g, trees[i])
    {
      assert (stack + Pushed(nodes, depth))[i] == stack[i];
    }
  }

  ghost predicate StackInRange(g: Graph, stack: seq<Placed>) {
    forall p | p in stack :: 0 <= p.node < |g.kids|
  }

  /** All lists of the graph name nodes of the graph. */
  ghost predicate ClosedGraph(g: Graph) {
    InRange(g, g.roots) && forall v | 0 <= v < |g.kids| :: InRange(g, g.kids[v])
  }

  lemma {:induction false} PushedInRange(g: Graph, nodes: seq<int>, depth: int)
    requires InRange(g, nodes)
    ensures StackInRange(g, Pushed(nodes, depth))
  {
    if nodes != [] {
      assert nodes[0] in nodes && forall j | j in nodes[1..] :: j in nodes;
      PushedInRange(g, nodes[1..], depth);
    }
  }

  /** Undoes one turn. */
  lemma {:induction false} Refolded(g: Graph, s: Search, later: seq<Tree>) returns (trees: seq<Tree>)
    requires s.stack != [] && 0 <= s.stack[|s.stack| - 1].node < |g.kids| && Unfolded(g, Pop(g, s).stack, later)
    ensures Unfolded(g, s.stack, trees)
  {
    var m := |s.stack| - 1;
    var stack, top := s.stack[..m], s.stack[m];
    assert s.stack == stack + [top];
    PoppedForest(g, stack, g.kids[top.node], top.depth + 1, later);
    trees := later[..m] + [Tree(top.node, Reversed(later[m..]))];
  }

  lemma {:induction false} PopInRange(g: Graph, s: Search)
    requires ClosedGraph(g) && StackInRange(g, s.stack) && s.stack != []
    ensures StackInRange(g, Pop(g, s).stack)
  {
    var top := s.stack[|s.stack| - 1];
    assert top in s.stack;
    PushedInRange(g, g.kids[top.node], top.depth + 1);
  }

  /** A search that ends has unfolded every span on its stack. */
  lemma {:induction false} Recovered(g: Graph, s: Search, n: nat) returns (trees: seq<Tree>)
    requires ClosedGraph(g) && StackInRange(g, s.stack) && After(g, s, n).stack == []
    ensures Unfolded(g, s.stack, trees)
    decreases n
  {
    if s.stack == [] {
      trees := [];
    } else {
      assert s.stack[|s.stack| - 1] in s.stack;
      PopInRange(g, s);
      var later := Recovered(g, Pop(g, s), n - 1);
      trees := Refolded(g, s, later);
    }
  }

  ghost predicate Ends(g: Graph) {
    exists n: nat :: After(g, Start(g), n).stack == []
  }

  lemma {:induction false} RootsPending(g: Graph, ts: seq<Tree>)
    requires IsForest(g, ts, g.roots)
    ensures Pending(g, Start(g).stack, PreorderAll(ts, 0))
  {
    PushUnfolded(g, [], [], ts, g.roots, 0);
    PushRest([], [], ts, g.roots, 0);
    assert [] + Pushed(g.roots, 0) == Pushed(g.roots, 0) && [] + Reversed(ts) == Reversed(ts);
    assert PreorderAll(ts, 0) + [] == PreorderAll(ts, 0);
  }

  /** Once the roots unfold, the search computes the preorder of the unfolding, one span each turn. */
  lemma {:induction false} SearchIsPreorder(g: Graph, ts: seq<Tree>)
    requires IsForest(g, ts, g.roots)
    ensures After(g, Start(g), |PreorderAll(ts, 0)|) == Search([], PreorderAll(ts, 0))
  {
    RootsPending(g, ts);
    Finishes(g, Start(g), PreorderAll(ts, 0));
    assert [] + PreorderAll(ts, 0) == PreorderAll(ts, 0);
  }

  /** The search ends exactly when the roots have a finite unfolding. */
  lemma {:induction false} EndsIffUnfolds(g: Graph)
    requires ClosedGraph(g)
    ensures Ends(g) <==> Unfolds(g)
  {
    if ts :| IsForest(g, ts, g.roots) {
      SearchIsPreorder(g, ts);
    }
    if n: nat :| After(g, Start(g), n).stack == [] {
      PushedInRange(g, g.roots, 0);
      var trees := Recovered(g, Start(g), n);
      assert [] + Start(g).stack == Start(g).stack;
      PoppedForest(g, [], g.roots, 0, trees);
    }
  }

  lemma {:induction false} SpanGraphIsClosed(spans: seq<Span>)
    ensures ClosedGraph(GraphOf(spans))
  {
    GraphDescribes(spans);
    var g := GraphOf(spans);
    forall v | 0 <= v < |g.kids|
      ensures InRange(g, g.kids[v])
    {
      assert ChildrenAre(spans, spans[v].spanId, g.kids[v]);
    }
  }

  /** With unique ids, the search runs forever exactly when it reaches a span without an id. */
  lemma {:induction false} EndsIffReachableHaveIds(spans: seq<Span>)
    requires UniqueIds(spans)
    ensures Ends(GraphOf(spans)) <==> ReachableHaveIds(spans, GraphOf(spans))
  {
    SpanGraphIsClosed(spans);
    EndsIffUnfolds(GraphOf(spans));
    UnfoldsIff(spans);
  }

  /** A trace of one span without an id: each turn finds the span again. */
  lemma {:induction false} NoIdRunsForever(span: Span)
    requires span.spanId.None?
    ensures !Ends(GraphOf([span]))
  {
    var g := GraphOf([span]);
    GraphDescribes([span]);
    assert ParentKey([span], 0) == None by {
      assert forall s | s in [span] :: s == span;
    }
    RootReachable(g, 0);
    EndsIffReachableHaveIds([span]);
  }

  // ---- what the search did not place ----

  predicate IsPlaced(ps: seq<Placed>, j: int) { exists p :: p in ps && p.node == j }

  /** The first n spans that are not placed, each at depth 0. */
  function Unplaced(ps: seq<Placed>, n: nat): seq<Placed> {
    if n == 0 then [] else Unplaced(ps, n - 1) + if IsPlaced(ps, n - 1) then [] else [Placed(n - 1, 0)]
  }

  lemma {:induction false} UnplacedAre(ps: seq<Placed>, n: nat)
    ensures forall p :: p in Unplaced(ps, n) <==> 0 <= p.node < n && p.depth == 0 && !IsPlaced(ps, p.node)
    ensures PlacedOnce(Unplaced(ps, n))
    ensures forall a, b | 0 <= a < b < |Unplaced(ps, n)| :: Unplaced(ps, n)[a].node < Unplaced(ps, n)[b].node
  {
    if n > 0 {
      UnplacedAre(ps, n - 1);
      var before := Unplaced(ps, n - 1);
      assert forall a | 0 <= a < |before| :: before[a] in before;
    }
  }

  lemma {:induction false} PlacedInBoth(xs: seq<Placed>, ys: seq<Placed>, j: int)
    ensures IsPlaced(xs + ys, j) <==> IsPlaced(xs, j) || IsPlaced(ys, j)
  {
    assert forall p :: p in xs + ys <==> p in xs || p in ys;
  }

  /** The rows of the waterfall: what the search placed, then the other spans. */
  function Rows(reached: seq<Placed>, n: nat): seq<Placed> { reached + Unplaced(reached, n) }

  /** The search places exactly the reachable spans, each once. */
  lemma {:induction false} ReachedOnce(spans: seq<Span>, ts: seq<Tree>)
    requires UniqueIds(spans) && IsForest(GraphOf(spans), ts, GraphOf(spans).roots)
    ensures PlacedOnce(PreorderAll(ts, 0))
    ensures forall j :: IsPlaced(PreorderAll(ts, 0), j) <==> Reachable(GraphOf(spans), j)
  {
    var g, live := GraphOf(spans), WithIds(spans);
    GraphDescribes(spans);
    UnfoldsIff(spans);
    UniqueIdsGiveOneParent(spans, g);
    forall k | 0 <= k < |ts|
      ensures Live(ts[k], live)
    {
      forall j | Occurs(j, ts[k])
        ensures j in live
      {
        OccursIffReachable(g, ts, j);
        assert Reachable(g, j) ==> 0 <= j < |spans|;
      }
    }
    RootsAreSiblings(g, live, ts);
    TreesOnce(g, live, ts, g.roots, 0);
    forall j
      ensures IsPlaced(PreorderAll(ts, 0), j) <==> Reachable(g, j)
    {
      InPreorderAll(ts, 0, j);
      OccursIffReachable(g, ts, j);
    }
  }

  /** The rows are a permutation of the spans, those of the search first, and the others in their order at depth 0. */
  lemma {:induction false} RowsArePermutation(spans: seq<Span>, ts: seq<Tree>)
    requires UniqueIds(spans) && IsForest(GraphOf(spans), ts, GraphOf(spans).roots)
    ensures PlacedOnce(Rows(PreorderAll(ts, 0), |spans|))
    ensures forall j :: IsPlaced(Rows(PreorderAll(ts, 0), |spans|), j) <==> 0 <= j < |spans|
    ensures PreorderAll(ts, 0) <= Rows(PreorderAll(ts, 0), |spans|)
    ensures var n, rows := |PreorderAll(ts, 0)|, Rows(PreorderAll(ts, 0), |spans|);
            forall a | n <= a < |rows| :: rows[a].depth == 0 && forall b | n <= b < a :: rows[b].node < rows[a].node
  {
    var reached := PreorderAll(ts, 0);
    var others := Unplaced(reached, |spans|);
    ReachedOnce(spans, ts);
    UnplacedAre(reached, |spans|);
    Concatenated(reached, others);
    forall j
      ensures IsPlaced(reached + others, j) <==> 0 <= j < |spans|
    {
      PlacedInBoth(reached, others, j);
      assert Reachable(GraphOf(spans), j) ==> 0 <= j < |spans|;
      if 0 <= j < |spans| && !IsPlaced(reached, j) {
        assert Placed(j, 0) in others;
      }
    }
  }

  // ---- the method ----

  /** The ids of the spans, as the keys of the dictionary of spans. */
  method SpanIds(spans: seq<Span>) returns (ids: set<Id>)
    ensures forall id :: id in ids <==> id != EMPTY && Has(spans, Some(id))
  {
    ids := {};
    for i := 0 to |spans|
      invariant forall id :: id in ids <==> id != EMPTY && exists s :: s in spans[..i] && s.spanId == Some(id)
    {
      assert forall s :: s in spans[..i + 1] <==> s in spans[..i] || s == spans[i];
      if spans[i].spanId.Some? && spans[i].spanId.value != EMPTY {
        ids := ids + {spans[i].spanId.value};
      }
    }
    assert spans[..|spans|] == spans;
  }

  /** The groups hold the first n spans under their parents, in the order of the record. */
  ghost predicate GroupedUpTo(spans: seq<Span>, groups: map<Option<Id>, seq<Keyed<int>>>, n: nat)
    requires n <= |spans|
  {
    forall key :: (if key in groups then groups[key] else []) == KeyedUnder(spans, key, n)
  }

  lemma {:induction false} GroupedThen(spans: seq<Span>, groups: map<Option<Id>, seq<Keyed<int>>>, n: nat)
    requires n < |spans| && GroupedUpTo(spans, groups, n)
    ensures var pid, entry := ParentKey(spans, n), Keyed(StartOf(spans[n]), n);
            GroupedUpTo(spans, groups[pid := (if pid in groups then groups[pid] else []) + [entry]], n + 1)
  {
    var pid, entry := ParentKey(spans, n), Keyed(StartOf(spans[n]), n);
    var groups' := groups[pid := (if pid in groups then groups[pid] else []) + [entry]];
    forall key
      ensures (if key in groups' then groups'[key] else []) == KeyedUnder(spans, key, n + 1)
    {
      assert KeyedUnder(spans, key, n) == if key in groups then groups[key] else [];
    }
  }

  /** The parent of a span, or none if it is not among the spans. */
  method ParentOrNone(spans: seq<Span>, ids: set<Id>, j: nat) returns (pid: Option<Id>)
    requires j < |spans| && forall id :: id in ids <==> id != EMPTY && Has(spans, Some(id))
    ensures pid == ParentKey(spans, j)
  {
    pid := spans[j].parentId;
    if pid.Some? {
      var id := pid.value;
      assert pid == Some(id);
      assert id in ids <==> id != EMPTY && Has(spans, Some(id));
      if id !in ids {
        pid := None;
      }
    }
  }

  method GroupByParent(spans: seq<Span>) returns (groups: map<Option<Id>, seq<Keyed<int>>>)
    ensures GroupedUpTo(spans, groups, |spans|)
  {
    var ids := SpanIds(spans);
    groups := map[];
    for i := 0 to |spans|
      invariant GroupedUpTo(spans, groups, i)
    {
      var pid := ParentOrNone(spans, ids, i);
      GroupedThen(spans, groups, i);
      var before := if pid in groups then groups[pid] else [];
      groups := groups[pid := before + [Keyed(StartOf(spans[i]), i)]];
    }
  }

  /** The children of every parent in order of their start; a parent without children is no key. */
  method ChildrenByParent(spans: seq<Span>) returns (children: map<Option<Id>, seq<int>>)
    ensures Lists(spans, children)
  {
    var groups := GroupByParent(spans);
    children := map key | key in groups :: Values(Sort(groups[key]));
    forall key
      ensures LookUp(children, key) == ChildrenOf(spans, key)
    {
      assert (if key in groups then groups[key] else []) == KeyedUnder(spans, key, |spans|);
    }
  }

  function LookUp(children: map<Option<Id>, seq<int>>, key: Option<Id>): seq<int> {
    if key in children then children[key] else []
  }

  /** The index that the waterfall builds: what is listed under every parent. */
  ghost predicate Lists(spans: seq<Span>, children: map<Option<Id>, seq<int>>) {
    forall key :: LookUp(children, key) == ChildrenOf(spans, key)
  }

  /**
   * The rows of the waterfall. The loop ends because the roots unfold, which by `EndsIffReachableHaveIds`
   * means that it reaches no span without an id.
   */
  method BuildRows(spans: seq<Span>, children: map<Option<Id>, seq<int>>) returns (rows: seq<Placed>)
    requires Unfolds(GraphOf(spans)) && Lists(spans, children)
    ensures forall ts | IsForest(GraphOf(spans), ts, GraphOf(spans).roots) :: rows == Rows(PreorderAll(ts, 0), |spans|)
  {
    ghost var g := GraphOf(spans);
    ghost var forest :| IsForest(g, forest, g.roots);
    forall ts | IsForest(g, ts, g.roots)
      ensures ts == forest
    {
      OnlyOneForest(g, ts, forest, g.roots);
    }
    RootsPending(g, forest);
    var ordered := DepthFirst(spans, children, g, PreorderAll(forest, 0));
    rows := AppendUnplaced(ordered, |spans|);
  }

  /** The loop of the search. */
  method DepthFirst(spans: seq<Span>, children: map<Option<Id>, seq<int>>, ghost g: Graph, ghost all: seq<Placed>)
    returns (ordered: seq<Placed>)
    requires |g.kids| == |spans| && g.roots == LookUp(children, None)
    requires forall j | 0 <= j < |spans| :: g.kids[j] == LookUp(children, spans[j].spanId)
    requires Pending(g, Start(g).stack, all)
    ensures ordered == all
  {
    var stack := Push([], LookUp(children, None), 0);
    assert stack == Start(g).stack;
    ordered := [];
    ghost var rest := all;
    while stack != []
      invariant Pending(g, stack, rest) && ordered + rest == all
      decreases |rest|
    {
      ordered, stack := SearchTurn(spans, children, g, ordered, stack, rest);
      rest := rest[1..];
    }
    NothingPending(g, rest);
  }

  /** One turn: the span on top is placed, and its children take its place. */
  method SearchTurn(spans: seq<Span>, children: map<Option<Id>, seq<int>>, ghost g: Graph, ordered0: seq<Placed>,
                    stack0: seq<Placed>, ghost rest: seq<Placed>)
    returns (ordered: seq<Placed>, stack: seq<Placed>)
    requires |g.kids| == |spans| && stack0 != [] && Pending(g, stack0, rest)
    requires forall j | 0 <= j < |spans| :: g.kids[j] == LookUp(children, spans[j].spanId)
    ensures rest != [] && Pending(g, stack, rest[1..]) && ordered + rest[1..] == ordered0 + rest
  {
    var n := |stack0| - 1;
    var top := stack0[n];
    TurnPlaces(g, stack0, rest);
    FirstMoves(ordered0, rest);
    ordered := ordered0 + [top];
    var kids := LookUp(children, spans[top.node].spanId);
    assert kids == g.kids[top.node];
    stack := Push(stack0[..n], kids, top.depth + 1);
  }

  method Push(stack: seq<Placed>, nodes: seq<int>, depth: int) returns (pushed: seq<Placed>)
    ensures pushed == stack + Pushed(nodes, depth)
  {
    pushed := stack;
    var i := |nodes|;
    assert nodes[i..] == [];
    while i > 0
      invariant 0 <= i <= |nodes| && pushed == stack + Pushed(nodes[i..], depth)
    {
      i := i - 1;
      assert nodes[i..][1..] == nodes[i + 1..];
      pushed := pushed + [Placed(nodes[i], depth)];
    }
    assert nodes[0..] == nodes;
  }

  method AppendUnplaced(reached: seq<Placed>, n: nat) returns (rows: seq<Placed>)
    ensures rows == Rows(reached, n)
  {
    var placed := set p | p in reached :: p.node;
    rows := reached;
    for j := 0 to n
      invariant rows == reached + Unplaced(reached, j)
    {
      assert j in placed <==> IsPlaced(reached, j);
      if j !in placed {
        rows := rows + [Placed(j, 0)];
      }
    }
  }
}
