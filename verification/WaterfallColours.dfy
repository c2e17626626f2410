// The colour that a span of the waterfall inherits from the inference call above it.

module WaterfallColours {
  import opened Collections
  import opened TraceSpans
  import opened SpanTrees
  import opened SpanGraph
  import opened WaterfallSearch

  /** A span under this parent carries the id. */
  ghost predicate IsChild(spans: seq<Span>, key: Option<Id>, id: Id) {
    exists j :: 0 <= j < |spans| && ParentKey(spans, j) == key && spans[j].spanId == Some(id)
  }

  /** From a parent down to one of the ids below it. */
  ghost predicate Line(spans: seq<Span>, path: seq<Option<Id>>) {
    |path| >= 2 && forall k | 0 < k < |path| :: path[k].Some? && IsChild(spans, path[k - 1], path[k].value)
  }

  ghost predicate Below(spans: seq<Span>, key: Option<Id>, id: Id) {
    exists path :: Line(spans, path) && path[0] == key && path[|path| - 1] == Some(id)
  }

  lemma {:induction false} ChildBelow(spans: seq<Span>, key: Option<Id>, id: Id)
    requires IsChild(spans, key, id)
    ensures Below(spans, key, id)
  {
    var path := [key, Some(id)];
    assert Line(spans, path) && path[0] == key && path[|path| - 1] == Some(id);
  }

  lemma {:induction false} FurtherBelow(spans: seq<Span>, key: Option<Id>, id: Id, next: Id)
    requires Below(spans, key, id) && IsChild(spans, Some(id), next)
    ensures Below(spans, key, next)
  {
    var path :| Line(spans, path) && path[0] == key && path[|path| - 1] == Some(id);
    var longer := path + [Some(next)];
    assert Line(spans, longer) && longer[0] == key && longer[|longer| - 1] == Some(next);
  }

  /** The set contains the children of its members. */
  ghost predicate Closed(spans: seq<Span>, ids: set<Id>) {
    forall id, next | id in ids && IsChild(spans, Some(id), next) :: next in ids
  }

  lemma {:induction false} ClosedHasLine(spans: seq<Span>, ids: set<Id>, path: seq<Option<Id>>)
    requires Closed(spans, ids) && Line(spans, path)
    requires forall id | IsChild(spans, path[0], id) :: id in ids
    ensures path[|path| - 1].Some? && path[|path| - 1].value in ids
    decreases |path|
  {
    var n := |path| - 1;
    assert IsChild(spans, path[n - 1], path[n].value);
    if n > 1 {
      ClosedHasLine(spans, ids, path[..n]);
      assert path[n - 1] == Some(path[n - 1].value);
    }
  }

  lemma {:induction false} ClosedHasAll(spans: seq<Span>, ids: set<Id>, key: Option<Id>)
    requires Closed(spans, ids) && forall id | IsChild(spans, key, id) :: id in ids
    ensures forall id | Below(spans, key, id) :: id in ids
  {
    forall id | Below(spans, key, id)
      ensures id in ids
    {
      var path :| Line(spans, path) && path[0] == key && path[|path| - 1] == Some(id);
      ClosedHasLine(spans, ids, path);
    }
  }

  /** The inference call at position w colours the id. */
  ghost predicate Colours(spans: seq<Span>, w: int, id: Id) {
    0 <= w < |spans| && InferenceCall(spans[w]) && Below(spans, spans[w].spanId, id)
  }

  /** The colours given by the first n spans: each id below one of their inference calls has that of the first such call. */
  ghost predicate ColouredBy(spans: seq<Span>, colours: map<Id, Name>, n: nat) {
    && (forall id :: id in colours <==> exists w :: w < n && Colours(spans, w, id))
    && (forall id | id in colours :: FirstColour(spans, colours[id], n, id))
  }

  ghost predicate FirstColour(spans: seq<Span>, colour: Name, n: nat, id: Id) {
    exists w :: w < n && Colours(spans, w, id) && spans[w].name == Some(colour)
                && forall v | v < w :: !Colours(spans, v, id)
  }

  ghost predicate Indexes(spans: seq<Span>, children: map<Option<Id>, seq<int>>) {
    forall key :: ChildrenAre(spans, key, LookUp(children, key))
  }

  lemma {:induction false} ColouredIsClosed(spans: seq<Span>, colours: map<Id, Name>, n: nat)
    requires ColouredBy(spans, colours, n)
    ensures Closed(spans, colours.Keys)
  {
    forall id, next | id in colours && IsChild(spans, Some(id), next)
      ensures next in colours
    {
      var w :| w < n && Colours(spans, w, id);
      FurtherBelow(spans, spans[w].spanId, id, next);
      assert Colours(spans, w, next);
    }
  }

  // ---- one inference call ----

  /** What the inner search keeps: `before` are the colours of the earlier calls. */
  ghost predicate Spreading(spans: seq<Span>, before: map<Id, Name>, colours: map<Id, Name>, key: Option<Id>, colour: Name) {
    && (forall id | id in before :: id in colours && colours[id] == before[id])
    && (forall id | id in colours && id !in before :: colours[id] == colour && Below(spans, key, id))
  }

  /** An id whose children are not all coloured is still on the stack. */
  ghost predicate Frontier(spans: seq<Span>, colours: map<Id, Name>, stack: seq<Option<Id>>, key: Option<Id>) {
    && (forall next | key !in stack && IsChild(spans, key, next) :: next in colours)
    && (forall id, next | id in colours && Some(id) !in stack && IsChild(spans, Some(id), next) :: next in colours)
  }

  /** What is coloured or can still be: the ids of the spans. */
  function AllIds(spans: seq<Span>): set<Id> {
    set s | s in spans && s.spanId.Some? :: s.spanId.value
  }

  ghost predicate OnTheWay(spans: seq<Span>, colours: map<Id, Name>, key: Option<Id>, k: Option<Id>) {
    k == key || (k.Some? && k.value in colours && Below(spans, key, k.value))
  }

  /** The state of the inner search. */
  ghost predicate Walking(spans: seq<Span>, before: map<Id, Name>, colours: map<Id, Name>, stack: seq<Option<Id>>,
                          key: Option<Id>, colour: Name) {
    && Spreading(spans, before, colours, key, colour)
    && colours.Keys <= AllIds(spans)
    && forall k | k in stack :: OnTheWay(spans, colours, key, k)
  }

  lemma {:induction false} ChildColoured(spans: seq<Span>, before: map<Id, Name>, colours: map<Id, Name>, stack: seq<Option<Id>>,
                                         key: Option<Id>, colour: Name, pid: Option<Id>, cid: Id)
    requires Walking(spans, before, colours, stack, key, colour) && Frontier(spans, colours, stack + [pid], key)
    requires OnTheWay(spans, colours, key, pid) && IsChild(spans, pid, cid) && cid in AllIds(spans) && cid !in colours
    ensures Walking(spans, before, colours[cid := colour], stack + [Some(cid)], key, colour)
    ensures Frontier(spans, colours[cid := colour], stack + [Some(cid)] + [pid], key)
    ensures OnTheWay(spans, colours[cid := colour], key, pid)
  {
    BelowKey(spans, key, pid, cid);
    assert forall k :: k in stack + [Some(cid)] + [pid] <==> k in stack + [pid] || k == Some(cid);
  }

  lemma {:induction false} VisitDone(spans: seq<Span>, colours: map<Id, Name>, stack: seq<Option<Id>>, key: Option<Id>,
                                     pid: Option<Id>, kids: seq<int>)
    requires Frontier(spans, colours, stack + [pid], key) && ChildrenAre(spans, pid, kids)
    requires forall j | j in kids && 0 <= j < |spans| && spans[j].spanId.Some? :: spans[j].spanId.value in colours
    ensures Frontier(spans, colours, stack, key)
  {
    forall next | IsChild(spans, pid, next)
      ensures next in colours
    {
      var j :| 0 <= j < |spans| && ParentKey(spans, j) == pid && spans[j].spanId == Some(next);
      assert j in kids;
    }
    assert forall k :: k in stack + [pid] <==> k in stack || k == pid;
  }

  lemma {:induction false} WalkStarts(spans: seq<Span>, before: map<Id, Name>, key: Option<Id>, colour: Name)
    requires Closed(spans, before.Keys) && before.Keys <= AllIds(spans)
    ensures Walking(spans, before, before, [key], key, colour) && Frontier(spans, before, [key], key)
  {
  }

  lemma {:induction false} WalkEnds(spans: seq<Span>, colours: map<Id, Name>, key: Option<Id>)
    requires Frontier(spans, colours, [], key)
    ensures forall id | Below(spans, key, id) :: id in colours
  {
    ClosedHasAll(spans, colours.Keys, key);
  }

  lemma {:induction false} TopOnTheWay(spans: seq<Span>, before: map<Id, Name>, colours: map<Id, Name>, stack: seq<Option<Id>>,
                                       pid: Option<Id>, key: Option<Id>, colour: Name)
    requires Walking(spans, before, colours, stack + [pid], key, colour)
    ensures Walking(spans, before, colours, stack, key, colour) && OnTheWay(spans, colours, key, pid)
  {
    assert forall k :: k in stack + [pid] <==> k in stack || k == pid;
  }

  lemma {:induction false} FewerLeft(all: set<Id>, a: set<Id>, b: set<Id>)
    requires a < b <= all
    ensures |all - b| < |all - a|
  {
    assert all - a == (all - b) + (b - a);
    assert b - a != {};
  }

  /** Colours everything below the call that has no colour yet. Unlike the ordering, this ends for any spans. */
  method Spread(spans: seq<Span>, children: map<Option<Id>, seq<int>>, before: map<Id, Name>, key: Option<Id>, colour: Name)
    returns (colours: map<Id, Name>)
    requires Indexes(spans, children) && Closed(spans, before.Keys) && before.Keys <= AllIds(spans)
    ensures Spreading(spans, before, colours, key, colour) && colours.Keys <= AllIds(spans)
    ensures forall id | Below(spans, key, id) :: id in colours
  {
    colours := before;
    var stack := [key];
    WalkStarts(spans, before, key, colour);
    while stack != []
      invariant Walking(spans, before, colours, stack, key, colour) && Frontier(spans, colours, stack, key)
      decreases |AllIds(spans) - colours.Keys|, |stack|
    {
      colours, stack := Turn(spans, children, before, colours, stack, key, colour);
    }
    WalkEnds(spans, colours, key);
  }

  /** One turn: takes an id off the stack and visits its children. */
  method Turn(spans: seq<Span>, children: map<Option<Id>, seq<int>>, ghost before: map<Id, Name>, colours0: map<Id, Name>,
              stack0: seq<Option<Id>>, ghost key: Option<Id>, colour: Name)
    returns (colours: map<Id, Name>, stack: seq<Option<Id>>)
    requires stack0 != [] && Indexes(spans, children)
    requires Walking(spans, before, colours0, stack0, key, colour) && Frontier(spans, colours0, stack0, key)
    ensures Walking(spans, before, colours, stack, key, colour) && Frontier(spans, colours, stack, key)
    ensures |AllIds(spans) - colours.Keys| < |AllIds(spans) - colours0.Keys|
            || (colours.Keys == colours0.Keys && |stack| < |stack0|)
  {
    var n := |stack0| - 1;
    var pid := stack0[n];
    assert stack0 == stack0[..n] + [pid];
    TopOnTheWay(spans, before, colours0, stack0[..n], pid, key, colour);
    var kids := LookUp(children, pid);
    assert ChildrenAre(spans, pid, kids);
    colours, stack := Visit(spans, kids, before, colours0, stack0[..n], key, pid, colour);
    if colours0.Keys != colours.Keys {
      FewerLeft(AllIds(spans), colours0.Keys, colours.Keys);
    }
  }

  /** Colours the children of one id, and puts those that had no colour on the stack. */
  method Visit(spans: seq<Span>, kids: seq<int>, ghost before: map<Id, Name>, colours0: map<Id, Name>,
               stack0: seq<Option<Id>>, ghost key: Option<Id>, ghost pid: Option<Id>, colour: Name)
    returns (colours: map<Id, Name>, stack: seq<Option<Id>>)
    requires ChildrenAre(spans, pid, kids) && OnTheWay(spans, colours0, key, pid)
    requires Walking(spans, before, colours0, stack0, key, colour) && Frontier(spans, colours0, stack0 + [pid], key)
    ensures Walking(spans, before, colours, stack, key, colour) && Frontier(spans, colours, stack, key)
    ensures colours0.Keys <= colours.Keys && (colours.Keys == colours0.Keys ==> |stack| <= |stack0|)
  {
    colours, stack := colours0, stack0;
    for i := 0 to |kids|
      invariant colours0.Keys <= colours.Keys && (colours.Keys == colours0.Keys ==> stack == stack0)
      invariant Walking(spans, before, colours, stack, key, colour) && Frontier(spans, colours, stack + [pid], key)
      invariant OnTheWay(spans, colours, key, pid)
      invariant forall j | j in kids[..i] && 0 <= j < |spans| && spans[j].spanId.Some? :: spans[j].spanId.value in colours
    {
      var child := kids[i];
      assert child in kids;
      assert forall j :: j in kids[..i + 1] <==> j in kids[..i] || j == child;
      if spans[child].spanId.Some? && spans[child].spanId.value !in colours {
        var cid := spans[child].spanId.value;
        assert spans[child] in spans && IsChild(spans, pid, cid);
        ChildColoured(spans, before, colours, stack, key, colour, pid, cid);
        colours := colours[cid := colour];
        stack := stack + [Some(cid)];
      }
    }
    assert kids[..|kids|] == kids;
    VisitDone(spans, colours, stack, key, pid, kids);
  }

  lemma {:induction false} BelowKey(spans: seq<Span>, key: Option<Id>, pid: Option<Id>, cid: Id)
    requires pid == key || (pid.Some? && Below(spans, key, pid.value))
    requires IsChild(spans, pid, cid)
    ensures Below(spans, key, cid)
  {
    if pid == key {
      ChildBelow(spans, key, cid);
    } else {
      FurtherBelow(spans, key, pid.value, cid);
    }
  }

  lemma {:induction false} ColouredThen(spans: seq<Span>, before: map<Id, Name>, colours: map<Id, Name>, w: nat, colour: Name)
    requires w < |spans| && InferenceCall(spans[w]) && spans[w].name == Some(colour) && ColouredBy(spans, before, w)
    requires Spreading(spans, before, colours, spans[w].spanId, colour)
    requires forall id | Below(spans, spans[w].spanId, id) :: id in colours
    ensures ColouredBy(spans, colours, w + 1)
  {
    forall id
      ensures id in colours <==> exists v :: v < w + 1 && Colours(spans, v, id)
    {
      if id in before {
        var v :| v < w && Colours(spans, v, id);
        assert v < w + 1;
      } else if id in colours {
        assert Colours(spans, w, id);
      }
    }
    forall id | id in colours
      ensures FirstColour(spans, colours[id], w + 1, id)
    {
      if id in before {
        assert FirstColour(spans, before[id], w, id);
      } else {
        assert Colours(spans, w, id) && forall v | v < w :: !Colours(spans, v, id);
      }
    }
  }

  /** Every span below an inference call gets the colour of the first inference call that it is below. */
  method InheritColours(spans: seq<Span>, children: map<Option<Id>, seq<int>>) returns (colours: map<Id, Name>)
    requires Indexes(spans, children)
    ensures ColouredBy(spans, colours, |spans|)
  {
    colours := map[];
    for w := 0 to |spans|
      invariant ColouredBy(spans, colours, w) && colours.Keys <= AllIds(spans)
    {
      if spans[w].name == Some(PrimaryCall) || spans[w].name == Some(OoddCall) {
        ColouredIsClosed(spans, colours, w);
        ghost var before := colours;
        var name := spans[w].name.value;
        colours := Spread(spans, children, colours, spans[w].spanId, name);
        ColouredThen(spans, before, colours, w, name);
      } else {
        Skipped(spans, colours, w);
      }
    }
  }

  lemma {:induction false} Skipped(spans: seq<Span>, colours: map<Id, Name>, w: nat)
    requires w < |spans| && !InferenceCall(spans[w]) && ColouredBy(spans, colours, w)
    ensures ColouredBy(spans, colours, w + 1)
  {
    forall id
      ensures id in colours <==> exists v :: v < w + 1 && Colours(spans, v, id)
    {
      if v :| v < w + 1 && Colours(spans, v, id) {
        assert v < w;
      }
      if id in colours {
        var v :| v < w && Colours(spans, v, id);
        assert v < w + 1;
      }
    }
    forall id | id in colours
      ensures FirstColour(spans, colours[id], w + 1, id)
    {
      assert FirstColour(spans, colours[id], w, id);
    }
  }

  /** The index that the waterfall builds lists the children of every parent. */
  lemma {:induction false} IndexIsComplete(spans: seq<Span>, children: map<Option<Id>, seq<int>>)
    requires Lists(spans, children)
    ensures Indexes(spans, children)
  {
    forall key
      ensures ChildrenAre(spans, key, LookUp(children, key))
    {
      ChildrenOfAre(spans, key);
      assert LookUp(children, key) == ChildrenOf(spans, key);
    }
  }

  /**
   * The waterfall of the spans: its rows, and the colours that spans inherit, both from one index of the children.
   * The colours exist for any spans, the rows exactly if the roots unfold.
   */
  method BuildWaterfall(spans: seq<Span>) returns (rows: seq<Placed>, colours: map<Id, Name>)
    requires Unfolds(GraphOf(spans))
    ensures forall ts | IsForest(GraphOf(spans), ts, GraphOf(spans).roots) :: rows == Rows(PreorderAll(ts, 0), |spans|)
    ensures ColouredBy(spans, colours, |spans|)
  {
    var children := ChildrenByParent(spans);
    rows := BuildRows(spans, children);
    IndexIsComplete(spans, children);
    colours := InheritColours(spans, children);
  }
}
