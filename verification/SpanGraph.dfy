// The graph that the spans of a trace describe.

module SpanGraph {
  import opened Collections
  import opened TraceSpans
  import opened StableSort
  import opened SpanTrees

  // ---- parents and children; a span is its position in the list of spans ----

  predicate Has(spans: seq<Span>, id: Option<Id>) { exists s :: s in spans && s.spanId == id }

  /** The id of the parent, if it is one of the spans. */
  function ParentKey(spans: seq<Span>, j: int): Option<Id>
    requires 0 <= j < |spans|
  {
    var pid := spans[j].parentId;
    if Truthy(pid) && Has(spans, pid) then pid else None
  }

  /** The first n spans under this parent, keyed by their start. */
  function KeyedUnder(spans: seq<Span>, key: Option<Id>, n: nat): seq<Keyed<int>>
    requires n <= |spans|
  {
    if n == 0 then []
    else
      KeyedUnder(spans, key, n - 1)
      + if ParentKey(spans, n - 1) == key then [Keyed(StartOf(spans[n - 1]), n - 1)] else []
  }

  /** The spans under a parent by start; under no parent, the roots. */
  function ChildrenOf(spans: seq<Span>, key: Option<Id>): seq<int> {
    Values(Sort(KeyedUnder(spans, key, |spans|)))
  }

  lemma {:induction false} KeyedUnderAre(spans: seq<Span>, key: Option<Id>, n: nat)
    requires n <= |spans|
    ensures forall k :: k in KeyedUnder(spans, key, n) <==>
                        0 <= k.value < n && ParentKey(spans, k.value) == key && k.key == StartOf(spans[k.value])
    ensures DistinctValues(KeyedUnder(spans, key, n))
  {
    if n > 0 {
      KeyedUnderAre(spans, key, n - 1);
    }
  }

  /** Entry k of the sorted list is the span at its value, under its start. */
  lemma {:induction false} SortedUnder(spans: seq<Span>, key: Option<Id>, k: nat)
    requires k < |ChildrenOf(spans, key)|
    ensures var j := ChildrenOf(spans, key)[k];
            && 0 <= j < |spans| && ParentKey(spans, j) == key
            && Sort(KeyedUnder(spans, key, |spans|))[k] == Keyed(StartOf(spans[j]), j)
  {
    var keyed := KeyedUnder(spans, key, |spans|);
    KeyedUnderAre(spans, key, |spans|);
    SortMembers(keyed);
    assert Sort(keyed)[k] in keyed;
  }

  lemma {:induction false} ChildrenOfHas(spans: seq<Span>, key: Option<Id>, j: int)
    requires 0 <= j < |spans| && ParentKey(spans, j) == key
    ensures j in ChildrenOf(spans, key)
  {
    var keyed := KeyedUnder(spans, key, |spans|);
    KeyedUnderAre(spans, key, |spans|);
    SortMembers(keyed);
    var k := Keyed(StartOf(spans[j]), j);
    assert k in keyed;
    var i :| 0 <= i < |Sort(keyed)| && Sort(keyed)[i] == k;
    assert ChildrenOf(spans, key)[i] == j;
  }

  /** The children of a parent are the spans that name it, each once. */
  lemma {:induction false} ChildrenOfAre(spans: seq<Span>, key: Option<Id>)
    ensures forall j :: j in ChildrenOf(spans, key) <==> 0 <= j < |spans| && ParentKey(spans, j) == key
    ensures Distinct(ChildrenOf(spans, key))
  {
    forall j
      ensures j in ChildrenOf(spans, key) <==> 0 <= j < |spans| && ParentKey(spans, j) == key
    {
      if k :| 0 <= k < |ChildrenOf(spans, key)| && ChildrenOf(spans, key)[k] == j {
        SortedUnder(spans, key, k);
      } else if 0 <= j < |spans| && ParentKey(spans, j) == key {
        ChildrenOfHas(spans, key, j);
      }
    }
    KeyedUnderAre(spans, key, |spans|);
    SortDistinct(KeyedUnder(spans, key, |spans|));
  }

  lemma {:induction false} KeyedInOrder(spans: seq<Span>, key: Option<Id>, n: nat)
    requires n <= |spans|
    ensures forall i, j | 0 <= i < j < |KeyedUnder(spans, key, n)| ::
              KeyedUnder(spans, key, n)[i].value < KeyedUnder(spans, key, n)[j].value
  {
    if n > 0 {
      KeyedInOrder(spans, key, n - 1);
      KeyedUnderAre(spans, key, n - 1);
      var before := KeyedUnder(spans, key, n - 1);
      assert forall k | 0 <= k < |before| :: before[k] in before;
    }
  }

  /** They are listed by start, and those that start together in the order of the spans. */
  lemma {:induction false} ChildrenOfByStart(spans: seq<Span>, key: Option<Id>, a: nat, b: nat)
    requires a < b < |ChildrenOf(spans, key)|
    ensures var i, j := ChildrenOf(spans, key)[a], ChildrenOf(spans, key)[b];
            && 0 <= i < |spans| && 0 <= j < |spans|
            && var p, q := spans[i].start, spans[j].start;
               var from, to := if p.Some? then p.value else 0, if q.Some? then q.value else 0;
               from < to || (from == to && i < j)
  {
    var keyed := KeyedUnder(spans, key, |spans|);
    SortSorts(keyed);
    SortedUnder(spans, key, a);
    SortedUnder(spans, key, b);
    KeyedInOrder(spans, key, |spans|);
    SortInOrder(keyed);
  }

  /** Which spans are children of which: those that name it as their parent, and no other; all others are roots. */
  lemma {:induction false} WhoseChild(spans: seq<Span>, j: nat, id: Id)
    requires j < |spans|
    ensures j in ChildrenOf(spans, Some(id)) <==>
            id != 0 && spans[j].parentId == Some(id) && exists p :: 0 <= p < |spans| && spans[p].spanId == Some(id)
    ensures j in ChildrenOf(spans, None) <==>
            forall p, pid | 0 <= p < |spans| && pid != 0 && spans[p].spanId == Some(pid) :: spans[j].parentId != Some(pid)
  {
    ChildrenOfAre(spans, Some(id));
    ChildrenOfAre(spans, None);
    assert forall p | 0 <= p < |spans| :: spans[p] in spans;
  }

  /** What the search looks up: the roots, and the spans under the id of each span. A span without an id finds the roots. */
  function GraphOf(spans: seq<Span>): Graph {
    Graph(ChildrenOf(spans, None), seq(|spans|, j requires 0 <= j < |spans| => ChildrenOf(spans, spans[j].spanId)))
  }

  /** The list holds the spans under this parent, each once. */
  ghost predicate ChildrenAre(spans: seq<Span>, key: Option<Id>, kids: seq<int>) {
    Distinct(kids) && forall j :: j in kids <==> 0 <= j < |spans| && ParentKey(spans, j) == key
  }

  /** The graph lists under each span exactly the spans that name it as their parent. */
  ghost predicate Describes(g: Graph, spans: seq<Span>) {
    && |g.kids| == |spans|
    && ChildrenAre(spans, None, g.roots)
    && forall v | 0 <= v < |spans| :: ChildrenAre(spans, spans[v].spanId, g.kids[v])
  }

  lemma {:induction false} GraphDescribes(spans: seq<Span>)
    ensures Describes(GraphOf(spans), spans)
  {
    ChildrenOfAre(spans, None);
    forall v | 0 <= v < |spans|
      ensures ChildrenAre(spans, spans[v].spanId, GraphOf(spans).kids[v])
    {
      ChildrenOfAre(spans, spans[v].spanId);
    }
  }
}
