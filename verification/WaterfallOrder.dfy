// When the search behind the waterfall ends, and what it places.

module WaterfallOrder {
  import opened Collections
  import opened TraceSpans
  import opened TraceRecords
  import opened SpanTrees
  import opened SpanGraph

  // ---- reachable spans ----

  /** Down from a root, each span found under the one before. */
  ghost predicate Chain(g: Graph, path: seq<int>) {
    && path != [] && path[0] in g.roots
    && (forall k | 0 <= k < |path| :: 0 <= path[k] < |g.kids|)
    && forall k | 0 < k < |path| :: path[k] in g.kids[path[k - 1]]
  }

  ghost predicate Reachable(g: Graph, j: int) {
    exists path :: Chain(g, path) && path[|path| - 1] == j
  }

  lemma {:induction false} ChainThen(g: Graph, path: seq<int>, j: int)
    requires Chain(g, path) && 0 <= j < |g.kids| && j in g.kids[path[|path| - 1]]
    ensures Chain(g, path + [j]) && Reachable(g, j)
  {
    var longer := path + [j];
    assert longer[|longer| - 1] == j;
  }

  lemma {:induction false} RootReachable(g: Graph, j: int)
    requires j in g.roots && 0 <= j < |g.kids|
    ensures Chain(g, [j]) && Reachable(g, j)
  {
    assert [j][|[j]| - 1] == j;
  }

  lemma {:induction false} ChainInit(g: Graph, path: seq<int>)
    requires Chain(g, path) && |path| > 1
    ensures var init := path[..|path| - 1];
            Chain(g, init) && init[|init| - 1] == path[|path| - 2] && path[|path| - 1] in g.kids[path[|path| - 2]]
  {
  }

  lemma {:induction false} KidsOccurIn(g: Graph, i: int, j: int, ts: seq<Tree>, nodes: seq<int>)
    requires IsForest(g, ts, nodes) && OccursIn(i, ts) && 0 <= i < |g.kids| && j in g.kids[i]
    ensures OccursIn(j, ts)
  {
    var k :| 0 <= k < |ts| && Occurs(i, ts[k]);
    KidsOccur(g, i, j, ts[k]);
  }

  lemma {:induction false} ReachableOccurs(g: Graph, ts: seq<Tree>, path: seq<int>)
    requires IsForest(g, ts, g.roots) && Chain(g, path)
    ensures OccursIn(path[|path| - 1], ts)
    decreases |path|
  {
    var n := |path| - 1;
    if n == 0 {
      var k :| 0 <= k < |g.roots| && g.roots[k] == path[0];
      assert Occurs(path[0], ts[k]);
    } else {
      ChainInit(g, path);
      ReachableOccurs(g, ts, path[..n]);
      KidsOccurIn(g, path[n - 1], path[n], ts, g.roots);
    }
  }

  lemma {:induction false} OccursReachable(g: Graph, t: Tree, path: seq<int>, j: int)
    requires IsTree(g, t) && Occurs(j, t) && Chain(g, path) && path[|path| - 1] == t.node
    ensures Reachable(g, j)
    decreases t
  {
    if j != t.node {
      var k :| 0 <= k < |t.kids| && Occurs(j, t.kids[k]);
      ChainThen(g, path, t.kids[k].node);
      OccursReachable(g, t.kids[k], path + [t.kids[k].node], j);
    }
  }

  /** The nodes of the unfolding are the reachable spans. */
  lemma {:induction false} OccursIffReachable(g: Graph, ts: seq<Tree>, j: int)
    requires IsForest(g, ts, g.roots)
    ensures OccursIn(j, ts) <==> Reachable(g, j)
  {
    if k :| 0 <= k < |ts| && Occurs(j, ts[k]) {
      RootReachable(g, ts[k].node);
      OccursReachable(g, ts[k], [ts[k].node], j);
    }
    if path :| Chain(g, path) && path[|path| - 1] == j {
      ReachableOccurs(g, ts, path);
    }
  }

  // ---- the search ends exactly when every reachable span has an id ----

  ghost predicate ReachableHaveIds(spans: seq<Span>, g: Graph) {
    forall j | 0 <= j < |spans| && Reachable(g, j) :: spans[j].spanId.Some?
  }

  /** Under a span without an id the search finds the roots again. */
  lemma {:induction false} NoIdFindsRoots(spans: seq<Span>, j: int)
    requires 0 <= j < |spans| && spans[j].spanId.None?
    ensures GraphOf(spans).kids[j] == GraphOf(spans).roots
  {
  }

  /** A reachable span that leads back to the roots: nothing finite unfolds them. */
  lemma {:induction false} LoopHasNoForest(g: Graph, ts: seq<Tree>, j: int)
    requires IsForest(g, ts, g.roots) && 0 <= j < |g.kids| && Reachable(g, j)
    ensures g.kids[j] != g.roots
  {
    if g.kids[j] == g.roots {
      OccursIffReachable(g, ts, j);
      var k :| 0 <= k < |ts| && Occurs(j, ts[k]);
      var t := TreeOf(g, j, ts[k]);
      OnlyOneForest(g, t.kids, ts, g.roots);
      PartIsSmaller(ts, k);
    }
  }

  lemma {:induction false} DistinctFit(path: seq<int>, n: nat)
    requires Distinct(path) && forall k | 0 <= k < |path| :: 0 <= path[k] < n
    ensures |path| <= n
    decreases n
  {
    assert path != [] ==> 0 <= path[0] < n;
    if n > 0 {
      if k :| 0 <= k < |path| && path[k] == n - 1 {
        DistinctFit(path[..k] + path[k + 1..], n - 1);
      } else {
        DistinctFit(path, n - 1);
      }
    }
  }

  /** A child of the last span of a chain is not on the chain. */
  lemma {:induction false} KidIsNew(spans: seq<Span>, g: Graph, path: seq<int>, j: int)
    requires UniqueIds(spans) && Describes(g, spans) && Chain(g, path) && Distinct(path)
    requires j in g.kids[path[|path| - 1]] && spans[path[|path| - 1]].spanId.Some?
    ensures Distinct(path + [j]) && 0 <= j < |spans|
  {
    var last := path[|path| - 1];
    assert j in g.kids[last];
    forall k | 0 <= k < |path|
      ensures path[k] != j
    {
      if k == 0 {
        assert path[0] in g.roots;
      } else {
        assert path[k] in g.kids[path[k - 1]];
      }
    }
  }

  lemma {:induction false} BuildTree(spans: seq<Span>, g: Graph, path: seq<int>) returns (t: Tree)
    requires UniqueIds(spans) && Describes(g, spans) && ReachableHaveIds(spans, g) && Chain(g, path) && Distinct(path)
    ensures IsTree(g, t) && t.node == path[|path| - 1]
    decreases |spans| - |path|, 1, 0
  {
    DistinctFit(path, |spans|);
    var last := path[|path| - 1];
    assert Reachable(g, last);
    var kids := BuildKids(spans, g, path, |g.kids[last]|);
    t := Tree(last, kids);
  }

  lemma {:induction false} BuildKids(spans: seq<Span>, g: Graph, path: seq<int>, n: nat) returns (ts: seq<Tree>)
    requires UniqueIds(spans) && Describes(g, spans) && ReachableHaveIds(spans, g) && Chain(g, path) && Distinct(path)
    requires n <= |g.kids[path[|path| - 1]]|
    requires spans[path[|path| - 1]].spanId.Some? && |path| <= |spans|
    ensures |ts| == n
    ensures forall k | 0 <= k < n :: ts[k].node == g.kids[path[|path| - 1]][k] && IsTree(g, ts[k])
    decreases |spans| - |path|, 0, n
  {
    if n == 0 {
      ts := [];
    } else {
      var rest := BuildKids(spans, g, path, n - 1);
      var j := g.kids[path[|path| - 1]][n - 1];
      KidIsNew(spans, g, path, j);
      ChainThen(g, path, j);
      DistinctFit(path + [j], |spans|);
      var t := BuildTree(spans, g, path + [j]);
      ts := rest + [t];
    }
  }

  lemma {:induction false} BuildRoots(spans: seq<Span>, g: Graph, n: nat) returns (ts: seq<Tree>)
    requires UniqueIds(spans) && Describes(g, spans) && ReachableHaveIds(spans, g) && n <= |g.roots|
    ensures |ts| == n
    ensures forall k | 0 <= k < n :: ts[k].node == g.roots[k] && IsTree(g, ts[k])
    decreases n
  {
    if n == 0 {
      ts := [];
    } else {
      var rest := BuildRoots(spans, g, n - 1);
      RootReachable(g, g.roots[n - 1]);
      var t := BuildTree(spans, g, [g.roots[n - 1]]);
      ts := rest + [t];
    }
  }

  /**
   * Spans with unique ids unfold exactly when every reachable span has an id, even if some of them
   * are orphans or parents of each other in a circle.
   */
  lemma {:induction false} UnfoldsIff(spans: seq<Span>)
    requires UniqueIds(spans)
    ensures Unfolds(GraphOf(spans)) <==> ReachableHaveIds(spans, GraphOf(spans))
  {
    var g := GraphOf(spans);
    GraphDescribes(spans);
    if ts :| IsForest(g, ts, g.roots) {
      forall j | 0 <= j < |spans| && Reachable(g, j)
        ensures spans[j].spanId.Some?
      {
        if spans[j].spanId.None? {
          NoIdFindsRoots(spans, j);
          LoopHasNoForest(g, ts, j);
        }
      }
    }
    if ReachableHaveIds(spans, g) {
      var ts := BuildRoots(spans, g, |g.roots|);
      assert IsForest(g, ts, g.roots);
    }
  }

  // ---- no span is placed twice ----

  function WithIds(spans: seq<Span>): set<int> {
    set j | 0 <= j < |spans| && spans[j].spanId.Some?
  }

  /** No span is below two of the live ones, or below one of them and at the top. */
  ghost predicate OneParent(g: Graph, live: set<int>) {
    && Distinct(g.roots)
    && (forall v | 0 <= v < |g.kids| :: Distinct(g.kids[v]))
    && (forall u, v, c | u in live && v in live && 0 <= u < |g.kids| && 0 <= v < |g.kids| && c in g.kids[u] && c in g.kids[v] ::
          u == v)
    && (forall v, c | v in live && 0 <= v < |g.kids| && c in g.kids[v] :: c !in g.roots)
  }

  /** All nodes of the tree are live. */
  ghost predicate Live(t: Tree, live: set<int>) {
    forall j | Occurs(j, t) :: j in live
  }

  /** Under unique ids, the spans with an id share no children. */
  lemma {:induction false} UniqueIdsGiveOneParent(spans: seq<Span>, g: Graph)
    requires UniqueIds(spans) && Describes(g, spans)
    ensures OneParent(g, WithIds(spans))
  {
    assert forall v | 0 <= v < |spans| :: ChildrenAre(spans, spans[v].spanId, g.kids[v]);
    forall u, v, c | u in WithIds(spans) && v in WithIds(spans) && c in g.kids[u] && c in g.kids[v]
      ensures u == v
    {
      assert spans[u].spanId == spans[v].spanId;
    }
  }

  /** Two trees that share a node are one inside the other. */
  lemma {:induction false} SharedNode(g: Graph, live: set<int>, a: Tree, b: Tree, i: int)
    requires OneParent(g, live) && IsTree(g, a) && IsTree(g, b) && Occurs(i, a) && Occurs(i, b) && Live(a, live) && Live(b, live)
    ensures Occurs(a.node, b) || Occurs(b.node, a)
    decreases a
  {
    if i != a.node {
      var k :| 0 <= k < |a.kids| && Occurs(i, a.kids[k]);
      LiveKid(a, live, k);
      SharedNode(g, live, a.kids[k], b, i);
      var c := a.kids[k].node;
      if !Occurs(b.node, a) {
        assert Occurs(c, b);
        assert c != b.node by {
          assert Occurs(c, a) by { assert Occurs(c, a.kids[k]); }
        }
        var p := ParentOf(g, c, b);
        assert Occurs(a.node, a);
      }
    }
  }

  lemma {:induction false} LiveKid(t: Tree, live: set<int>, k: nat)
    requires Live(t, live) && k < |t.kids|
    ensures Live(t.kids[k], live)
  {
    forall j | Occurs(j, t.kids[k])
      ensures j in live
    {
      assert Occurs(j, t);
    }
  }

  /** Live trees none of which contains the root of another. */
  ghost predicate Siblings(g: Graph, live: set<int>, ts: seq<Tree>, nodes: seq<int>) {
    && IsForest(g, ts, nodes) && Distinct(nodes)
    && (forall k | 0 <= k < |ts| :: Live(ts[k], live))
    && forall a, b | 0 <= a < |ts| && 0 <= b < |ts| && a != b :: !Occurs(nodes[a], ts[b])
  }

  /** A tree does not contain its root again. */
  lemma {:induction false} RootOnce(g: Graph, t: Tree, k: nat)
    requires IsTree(g, t) && k < |t.kids|
    ensures !Occurs(t.node, t.kids[k])
  {
    if Occurs(t.node, t.kids[k]) {
      var s := TreeOf(g, t.node, t.kids[k]);
      OnlyOneTree(g, s, t);
      PartIsSmaller(t.kids, k);
    }
  }

  lemma {:induction false} KidsAreSiblings(g: Graph, live: set<int>, t: Tree)
    requires OneParent(g, live) && IsTree(g, t) && Live(t, live)
    ensures Siblings(g, live, t.kids, g.kids[t.node])
  {
    var nodes := g.kids[t.node];
    forall k | 0 <= k < |t.kids|
      ensures Live(t.kids[k], live) && !Occurs(t.node, t.kids[k])
    {
      LiveKid(t, live, k);
      RootOnce(g, t, k);
    }
    assert Occurs(t.node, t);
    forall a, b | 0 <= a < |t.kids| && 0 <= b < |t.kids| && a != b
      ensures !Occurs(nodes[a], t.kids[b])
    {
      if Occurs(nodes[a], t.kids[b]) {
        var p := ParentOf(g, nodes[a], t.kids[b]);
      }
    }
  }

  lemma {:induction false} RootsAreSiblings(g: Graph, live: set<int>, ts: seq<Tree>)
    requires OneParent(g, live) && IsForest(g, ts, g.roots) && forall k | 0 <= k < |ts| :: Live(ts[k], live)
    ensures Siblings(g, live, ts, g.roots)
  {
    var nodes := g.roots;
    forall a, b | 0 <= a < |ts| && 0 <= b < |ts| && a != b
      ensures !Occurs(nodes[a], ts[b])
    {
      assert nodes[a] in g.roots;
      if Occurs(nodes[a], ts[b]) {
        var p := ParentOf(g, nodes[a], ts[b]);
      }
    }
  }

  ghost predicate PlacedOnce(ps: seq<Placed>) {
    forall a, b | 0 <= a < b < |ps| :: ps[a].node != ps[b].node
  }

  lemma {:induction false} Concatenated(xs: seq<Placed>, ys: seq<Placed>)
    requires PlacedOnce(xs) && PlacedOnce(ys) && forall x, y | x in xs && y in ys :: x.node != y.node
    ensures PlacedOnce(xs + ys)
  {
  }

  lemma {:induction false} TreeOnce(g: Graph, live: set<int>, t: Tree, depth: int)
    requires OneParent(g, live) && IsTree(g, t) && Live(t, live)
    ensures PlacedOnce(Preorder(t, depth))
    decreases t, 0
  {
    KidsAreSiblings(g, live, t);
    TreesOnce(g, live, t.kids, g.kids[t.node], depth + 1);
    InPreorderAll(t.kids, depth + 1, t.node);
    forall k | 0 <= k < |t.kids|
      ensures !Occurs(t.node, t.kids[k])
    {
      RootOnce(g, t, k);
    }
    Concatenated([Placed(t.node, depth)], PreorderAll(t.kids, depth + 1));
  }

  lemma {:induction false} TreesOnce(g: Graph, live: set<int>, ts: seq<Tree>, nodes: seq<int>, depth: int)
    requires OneParent(g, live) && Siblings(g, live, ts, nodes)
    ensures PlacedOnce(PreorderAll(ts, depth))
    decreases ts, 0
  {
    if ts != [] {
      TreeOnce(g, live, ts[0], depth);
      TreesOnce(g, live, ts[1..], nodes[1..], depth);
      var xs, ys := Preorder(ts[0], depth), PreorderAll(ts[1..], depth);
      forall x, y | x in xs && y in ys
        ensures x.node != y.node
      {
        InPreorder(ts[0], depth, x.node);
        InPreorderAll(ts[1..], depth, y.node);
        if x.node == y.node {
          var k :| 0 <= k < |ts[1..]| && Occurs(y.node, ts[1..][k]);
          SharedNode(g, live, ts[0], ts[k + 1], x.node);
        }
      }
      Concatenated(xs, ys);
    }
  }
}
