// Finite unfoldings of a graph, and their preorder.

module SpanTrees {

  /** The spans at the top, and for every span those below it, in the order of the search. */
  datatype Graph = Graph(roots: seq<int>, kids: seq<seq<int>>)

  datatype Tree = Tree(node: int, kids: seq<Tree>)

  datatype Placed = Placed(node: int, depth: int)

  /** The tree under a span: its children are those that the search finds under its id. */
  ghost predicate IsTree(g: Graph, t: Tree)
    decreases t
  {
    && 0 <= t.node < |g.kids|
    && |t.kids| == |g.kids[t.node]|
    && forall i | 0 <= i < |t.kids| :: t.kids[i].node == g.kids[t.node][i] && IsTree(g, t.kids[i])
  }

  ghost predicate IsForest(g: Graph, ts: seq<Tree>, nodes: seq<int>) {
    && |ts| == |nodes|
    && forall i | 0 <= i < |ts| :: ts[i].node == nodes[i] && IsTree(g, ts[i])
  }

  /** The roots have a finite unfolding. */
  ghost predicate Unfolds(g: Graph) {
    exists ts :: IsForest(g, ts, g.roots)
  }

  /** A node comes before its descendants, and they come before its next sibling. */
  function Preorder(t: Tree, depth: int): seq<Placed>
    decreases t
  {
    [Placed(t.node, depth)] + PreorderAll(t.kids, depth + 1)
  }

  function PreorderAll(ts: seq<Tree>, depth: int): seq<Placed>
    decreases ts
  {
    if ts == [] then [] else Preorder(ts[0], depth) + PreorderAll(ts[1..], depth)
  }

  function Size(t: Tree): nat
    decreases t
  {
    1 + SizeAll(t.kids)
  }

  function SizeAll(ts: seq<Tree>): nat
    decreases ts
  {
    if ts == [] then 0 else Size(ts[0]) + SizeAll(ts[1..])
  }

  /** Node i occurs in the tree. */
  ghost predicate Occurs(i: int, t: Tree)
    decreases t
  {
    i == t.node || exists k :: 0 <= k < |t.kids| && Occurs(i, t.kids[k])
  }

  ghost predicate OccursIn(i: int, ts: seq<Tree>) {
    exists k :: 0 <= k < |ts| && Occurs(i, ts[k])
  }

  lemma {:induction false} OnlyOneTree(g: Graph, s: Tree, t: Tree)
    requires IsTree(g, s) && IsTree(g, t) && s.node == t.node
    ensures s == t
    decreases s
  {
    forall i | 0 <= i < |s.kids|
      ensures s.kids[i] == t.kids[i]
    {
      OnlyOneTree(g, s.kids[i], t.kids[i]);
    }
  }

  lemma {:induction false} OnlyOneForest(g: Graph, ss: seq<Tree>, ts: seq<Tree>, nodes: seq<int>)
    requires IsForest(g, ss, nodes) && IsForest(g, ts, nodes)
    ensures ss == ts
  {
    forall i | 0 <= i < |ss|
      ensures ss[i] == ts[i]
    {
      OnlyOneTree(g, ss[i], ts[i]);
    }
  }

  lemma {:induction false} PartIsSmaller(ts: seq<Tree>, k: nat)
    requires k < |ts|
    ensures Size(ts[k]) <= SizeAll(ts)
  {
    if k > 0 {
      PartIsSmaller(ts[1..], k - 1);
    }
  }

  /** Every node that occurs has its tree inside. */
  lemma {:induction false} TreeOf(g: Graph, i: int, t: Tree) returns (s: Tree)
    requires IsTree(g, t) && Occurs(i, t)
    ensures IsTree(g, s) && s.node == i && Size(s) <= Size(t)
    ensures i != t.node ==> Size(s) < Size(t)
    decreases t
  {
    if i == t.node {
      s := t;
    } else {
      var k :| 0 <= k < |t.kids| && Occurs(i, t.kids[k]);
      s := TreeOf(g, i, t.kids[k]);
      PartIsSmaller(t.kids, k);
    }
  }

  /** Children of a node that occurs also occur. */
  lemma {:induction false} KidsOccur(g: Graph, i: int, j: int, t: Tree)
    requires IsTree(g, t) && Occurs(i, t) && 0 <= i < |g.kids| && j in g.kids[i]
    ensures Occurs(j, t)
    decreases t
  {
    if i == t.node {
      var k :| 0 <= k < |g.kids[i]| && g.kids[i][k] == j;
      assert Occurs(j, t.kids[k]);
    } else {
      var k :| 0 <= k < |t.kids| && Occurs(i, t.kids[k]);
      KidsOccur(g, i, j, t.kids[k]);
    }
  }

  /** A node other than the root of its tree is a child of a node of the tree. */
  lemma {:induction false} ParentOf(g: Graph, j: int, t: Tree) returns (i: int)
    requires IsTree(g, t) && Occurs(j, t) && j != t.node
    ensures Occurs(i, t) && 0 <= i < |g.kids| && j in g.kids[i]
    decreases t
  {
    var k :| 0 <= k < |t.kids| && Occurs(j, t.kids[k]);
    if j == t.kids[k].node {
      i := t.node;
    } else {
      i := ParentOf(g, j, t.kids[k]);
    }
  }

  lemma {:induction false} InPreorder(t: Tree, depth: int, i: int)
    ensures (exists p :: p in Preorder(t, depth) && p.node == i) <==> Occurs(i, t)
    decreases t, 0
  {
    InPreorderAll(t.kids, depth + 1, i);
    var head, rest := Placed(t.node, depth), PreorderAll(t.kids, depth + 1);
    assert forall p :: p in Preorder(t, depth) <==> p == head || p in rest;
    assert Occurs(i, t) <==> i == t.node || OccursIn(i, t.kids);
  }

  lemma {:induction false} InPreorderAll(ts: seq<Tree>, depth: int, i: int)
    ensures (exists p :: p in PreorderAll(ts, depth) && p.node == i) <==> OccursIn(i, ts)
    decreases ts, 0
  {
    if ts != [] {
      InPreorder(ts[0], depth, i);
      InPreorderAll(ts[1..], depth, i);
      assert forall p :: p in PreorderAll(ts, depth) <==> p in Preorder(ts[0], depth) || p in PreorderAll(ts[1..], depth);
      if k :| 0 <= k < |ts| && Occurs(i, ts[k]) {
        assert k > 0 ==> Occurs(i, ts[1..][k - 1]);
      }
      if k :| 0 <= k < |ts[1..]| && Occurs(i, ts[1..][k]) {
        assert Occurs(i, ts[k + 1]);
      }
    }
  }
}
