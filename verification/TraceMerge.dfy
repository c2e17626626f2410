// One record per trace out of the records of several processes.

module TraceMerge {
  import opened Collections
  import opened TraceSpans
  import opened TraceRecords

  /** The records under one id, in order. */
  function GroupOf(traces: seq<Record>, id: Id): (r: seq<Record>)
    ensures forall t | t in r :: t.traceId == Some(id)
  {
    if traces == [] then []
    else
      var n := |traces| - 1;
      GroupOf(traces[..n], id) + if traces[n].traceId == Some(id) then [traces[n]] else []
  }

  /** The ids of the records in order of first appearance. Records without an id, or with an empty one, have none. */
  function FirstIds(traces: seq<Record>): seq<Id> {
    if traces == [] then []
    else
      var n := |traces| - 1;
      FirstIds(traces[..n]) + if Truthy(traces[n].traceId) && traces[n].traceId.value !in FirstIds(traces[..n])
                              then [traces[n].traceId.value] else []
  }

  /** Every id has a record. */
  predicate Grouped(traces: seq<Record>, ids: seq<Id>) {
    forall id | id in ids :: GroupOf(traces, id) != []
  }

  lemma MergedId(traces: seq<Record>, id: Id)
    requires GroupOf(traces, id) != []
    ensures Merged(GroupOf(traces, id)).traceId == Some(id)
  {
  }

  /** One merged record for each id. */
  function MergeIds(traces: seq<Record>, ids: seq<Id>): seq<Record>
    requires Grouped(traces, ids)
  {
    if ids == [] then []
    else MergeIds(traces, ids[..|ids| - 1]) + [Merged(GroupOf(traces, ids[|ids| - 1]))]
  }

  /** The records are those of the ids, one by one. */
  ghost predicate OneEach(ms: seq<Record>, ids: seq<Id>) {
    |ms| == |ids| && forall k | 0 <= k < |ids| :: ms[k].traceId == Some(ids[k])
  }

  lemma PrefixThen(ids: seq<Id>, k: nat)
    requires k < |ids|
    ensures ids[..k + 1] == ids[..k] + [ids[k]]
  {
  }

  lemma {:induction false} OneEachThen(before: seq<Record>, ms: seq<Record>, ids: seq<Id>, m: Record)
    requires ids != [] && OneEach(before, ids[..|ids| - 1])
    requires ms == before + [m] && m.traceId == Some(ids[|ids| - 1])
    ensures OneEach(ms, ids)
  {
    var n := |ids| - 1;
    forall k | 0 <= k < n
      ensures ms[k].traceId == Some(ids[k])
    {
      assert ids[..n][k] == ids[k];
    }
  }

  lemma {:induction false} MergeIdsAt(traces: seq<Record>, ids: seq<Id>)
    requires Grouped(traces, ids)
    ensures OneEach(MergeIds(traces, ids), ids)
  {
    if ids != [] {
      var n := |ids| - 1;
      MergeIdsAt(traces, ids[..n]);
      MergedId(traces, ids[n]);
      OneEachThen(MergeIds(traces, ids[..n]), MergeIds(traces, ids), ids, Merged(GroupOf(traces, ids[n])));
    }
  }

  lemma IdsThen(traces: seq<Record>, t: Record)
    ensures FirstIds(traces + [t]) ==
            FirstIds(traces) + if Truthy(t.traceId) && t.traceId.value !in FirstIds(traces) then [t.traceId.value] else []
  {
    assert (traces + [t])[..|traces|] == traces;
  }

  lemma GroupThen(traces: seq<Record>, t: Record, id: Id)
    ensures GroupOf(traces + [t], id) == GroupOf(traces, id) + if t.traceId == Some(id) then [t] else []
  {
    assert (traces + [t])[..|traces|] == traces;
  }

  /** The positions `at`, in order, are those of the records under this id, which are `group`. */
  ghost predicate GroupAt(traces: seq<Record>, id: Id, at: seq<int>, group: seq<Record>) {
    && (forall k, l | 0 <= k < l < |at| :: at[k] < at[l])
    && (forall i :: i in at <==> 0 <= i < |traces| && traces[i].traceId == Some(id))
    && |group| == |at| && forall k | 0 <= k < |at| :: at[k] in at && group[k] == traces[at[k]]
  }

  /** The group of an id are its records, in their order. */
  lemma {:induction false} GroupInOrder(traces: seq<Record>, id: Id) returns (at: seq<int>)
    ensures GroupAt(traces, id, at, GroupOf(traces, id))
  {
    at := [];
    if traces != [] {
      var n := |traces| - 1;
      var before := GroupInOrder(traces[..n], id);
      at := before + if traces[n].traceId == Some(id) then [n] else [];
      GroupAtThen(traces[..n], traces[n], id, before, GroupOf(traces[..n], id));
      GroupThen(traces[..n], traces[n], id);
      assert traces == traces[..n] + [traces[n]];
    }
  }

  lemma {:induction false} GroupAtThen(traces: seq<Record>, t: Record, id: Id, at: seq<int>, group: seq<Record>)
    requires GroupAt(traces, id, at, group)
    ensures GroupAt(traces + [t], id, at + (if t.traceId == Some(id) then [|traces|] else []),
                    group + if t.traceId == Some(id) then [t] else [])
  {
    assert forall k | 0 <= k < |at| :: at[k] in at;
  }

  /** Record i has an id that is not empty, and none before it has that id. */
  ghost predicate AppearsHere(traces: seq<Record>, i: int) {
    && 0 <= i < |traces| && traces[i].traceId.Some? && traces[i].traceId != Some(0)
    && forall j | 0 <= j < i :: traces[j].traceId != traces[i].traceId
  }

  /** The positions `at`, in order, are those where the ids appear. */
  ghost predicate AppearAt(traces: seq<Record>, at: seq<int>, ids: seq<Id>) {
    && (forall k, l | 0 <= k < l < |at| :: at[k] < at[l])
    && (forall i :: i in at <==> AppearsHere(traces, i))
    && |ids| == |at| && forall k | 0 <= k < |at| :: at[k] in at && Some(ids[k]) == traces[at[k]].traceId
  }

  /** The ids are listed in the order in which they first appear. */
  lemma {:induction false} IdsInOrder(traces: seq<Record>) returns (at: seq<int>)
    ensures AppearAt(traces, at, FirstIds(traces))
  {
    at := [];
    if traces != [] {
      var n := |traces| - 1;
      var before := IdsInOrder(traces[..n]);
      IdsAppear(traces[..n]);
      assert traces == traces[..n] + [traces[n]];
      at := AppearThen(traces[..n], traces[n], before, FirstIds(traces[..n]));
      IdsThen(traces[..n], traces[n]);
    }
  }

  lemma {:induction false} AppearThen(traces: seq<Record>, t: Record, at: seq<int>, ids: seq<Id>) returns (at': seq<int>)
    requires AppearAt(traces, at, ids)
    requires forall id :: id in ids <==> id != EMPTY && exists r :: r in traces && r.traceId == Some(id)
    ensures AppearAt(traces + [t], at', ids + if Truthy(t.traceId) && t.traceId.value !in ids then [t.traceId.value] else [])
  {
    var more, n := traces + [t], |traces|;
    at' := at + if Truthy(t.traceId) && t.traceId.value !in ids then [n] else [];
    assert forall k | 0 <= k < |at| :: at[k] in at;
    forall i
      ensures i in at' <==> AppearsHere(more, i)
    {
      if i == n {
        AppearsLast(traces, t, ids);
      } else {
        assert 0 <= i < n ==> forall j | 0 <= j <= i :: more[j] == traces[j];
      }
    }
  }

  lemma {:induction false} AppearsLast(traces: seq<Record>, t: Record, ids: seq<Id>)
    requires forall id :: id in ids <==> id != EMPTY && exists r :: r in traces && r.traceId == Some(id)
    ensures AppearsHere(traces + [t], |traces|) <==> Truthy(t.traceId) && t.traceId.value !in ids
  {
    var more, n := traces + [t], |traces|;
    assert more[n] == t && forall j | 0 <= j < n :: more[j] == traces[j];
    if Truthy(t.traceId) {
      var id := t.traceId.value;
      if id in ids {
        var r :| r in traces && r.traceId == Some(id);
        var j :| 0 <= j < n && traces[j] == r;
        assert more[j].traceId == more[n].traceId;
      } else {
        forall j | 0 <= j < n
          ensures more[j].traceId != more[n].traceId
        {
          assert traces[j] in traces;
        }
      }
    }
  }

  lemma {:induction false} IdsAppear(traces: seq<Record>)
    ensures Distinct(FirstIds(traces))
    ensures forall id :: id in FirstIds(traces) <==> id != EMPTY && exists t :: t in traces && t.traceId == Some(id)
    ensures forall id :: GroupOf(traces, id) != [] <==> exists t :: t in traces && t.traceId == Some(id)
  {
    if traces != [] {
      var n := |traces| - 1;
      IdsAppear(traces[..n]);
      assert forall t :: t in traces <==> t in traces[..n] || t == traces[n];
    }
  }

  function MergeTraces(traces: seq<Record>): seq<Record> {
    IdsAppear(traces);
    MergeIds(traces, FirstIds(traces))
  }

  function Detail(traces: seq<Record>, id: Id): Option<Record> {
    if GroupOf(traces, id) == [] then None else Some(Merged(GroupOf(traces, id)))
  }

  // ---- one record per id ----

  /** Exactly one record for every id that occurs, in order of first appearance. */
  lemma OnePerId(traces: seq<Record>)
    ensures Distinct(FirstIds(traces)) && OneEach(MergeTraces(traces), FirstIds(traces))
    ensures forall id :: (exists m :: m in MergeTraces(traces) && m.traceId == Some(id))
                         <==> id != EMPTY && exists t :: t in traces && t.traceId == Some(id)
  {
    IdsAppear(traces);
    MergeIdsAt(traces, FirstIds(traces));
    IdsOfEach(MergeTraces(traces), FirstIds(traces));
  }

  lemma {:induction false} IdsOfEach(ms: seq<Record>, ids: seq<Id>)
    requires OneEach(ms, ids)
    ensures forall id :: (exists m :: m in ms && m.traceId == Some(id)) <==> id in ids
  {
    forall id
      ensures (exists m :: m in ms && m.traceId == Some(id)) <==> id in ids
    {
      if id in ids {
        var k :| 0 <= k < |ids| && ids[k] == id;
        assert ms[k] in ms;
      }
    }
  }

  lemma ButLast(traces: seq<Record>, ids: seq<Id>)
    requires ids != [] && Distinct(ids) && Grouped(traces, ids) && EMPTY !in ids
    ensures var init, last := ids[..|ids| - 1], ids[|ids| - 1];
            ids == init + [last] && Distinct(init) && Grouped(traces, init) && EMPTY !in init && last !in init && last != EMPTY
            && GroupOf(traces, last) != []
  {
    assert forall id | id in ids[..|ids| - 1] :: id in ids;
    assert ids[|ids| - 1] in ids;
  }

  lemma IdThen(traces: seq<Record>, t: Record, ids: seq<Id>, id: Id)
    requires FirstIds(traces) == ids && t.traceId == Some(id) && id != EMPTY && id !in ids
    ensures FirstIds(traces + [t]) == ids + [id]
  {
    IdsThen(traces, t);
  }

  lemma {:induction false} IdsOfMerged(traces: seq<Record>, ids: seq<Id>)
    requires Distinct(ids) && Grouped(traces, ids) && EMPTY !in ids
    ensures FirstIds(MergeIds(traces, ids)) == ids
  {
    if ids != [] {
      var n := |ids| - 1;
      ButLast(traces, ids);
      IdsOfMerged(traces, ids[..n]);
      MergedId(traces, ids[n]);
      IdThen(MergeIds(traces, ids[..n]), Merged(GroupOf(traces, ids[n])), ids[..n], ids[n]);
      assert ids == ids[..n] + [ids[n]];
    }
  }

  lemma {:induction false} GroupOfMerged(traces: seq<Record>, ids: seq<Id>, id: Id)
    requires Distinct(ids) && Grouped(traces, ids)
    ensures id in ids ==> GroupOf(traces, id) != []
    ensures GroupOf(MergeIds(traces, ids), id) == if id in ids then [Merged(GroupOf(traces, id))] else []
  {
    if ids != [] {
      var n := |ids| - 1;
      GroupOfMerged(traces, ids[..n], id);
      MergedId(traces, ids[n]);
      GroupThen(MergeIds(traces, ids[..n]), Merged(GroupOf(traces, ids[n])), id);
      assert id in ids <==> id in ids[..n] || id == ids[n];
    }
  }

  /** The merged list and the look-up of one trace agree, and merging first does not change what the look-up finds. */
  lemma AgreesWithDetail(traces: seq<Record>, id: Id)
    requires id != EMPTY
    ensures Detail(MergeTraces(traces), id) == Detail(traces, id)
    ensures forall m :: m in MergeTraces(traces) && m.traceId == Some(id) <==> Detail(traces, id) == Some(m)
  {
    IdsAppear(traces);
    var ids, ms := FirstIds(traces), MergeTraces(traces);
    GroupOfMerged(traces, ids, id);
    InGroup(ms, id);
    if id in ids {
      MergedOnce(GroupOf(traces, id));
    }
    forall m
      ensures m in ms && m.traceId == Some(id) <==> Detail(traces, id) == Some(m)
    {
      assert m in GroupOf(ms, id) <==> m in ms && m.traceId == Some(id);
    }
  }

  lemma {:induction false} InGroup(traces: seq<Record>, id: Id)
    ensures forall t :: t in GroupOf(traces, id) <==> t in traces && t.traceId == Some(id)
  {
    if traces != [] {
      var n := |traces| - 1;
      InGroup(traces[..n], id);
      assert forall t :: t in traces <==> t in traces[..n] || t == traces[n];
    }
  }

  // ---- idempotence ----

  lemma {:induction false} MergedAgain(traces: seq<Record>, all: seq<Id>, ids: seq<Id>)
    requires Distinct(all) && Grouped(traces, all)
    requires forall id | id in ids :: id in all
    ensures Grouped(traces, ids) && Grouped(MergeIds(traces, all), ids)
    ensures MergeIds(MergeIds(traces, all), ids) == MergeIds(traces, ids)
  {
    forall id | id in ids
      ensures GroupOf(MergeIds(traces, all), id) == [Merged(GroupOf(traces, id))]
    {
      GroupOfMerged(traces, all, id);
    }
    if ids != [] {
      var n := |ids| - 1;
      MergedAgain(traces, all, ids[..n]);
      MergedOnce(GroupOf(traces, ids[n]));
    }
  }

  /** Merging twice is merging once. */
  lemma MergeIsIdempotent(traces: seq<Record>)
    ensures MergeTraces(MergeTraces(traces)) == MergeTraces(traces)
  {
    var ids := FirstIds(traces);
    IdsAppear(traces);
    IdsOfMerged(traces, ids);
    MergedAgain(traces, ids, ids);
  }

  // ---- the methods ----

  /** The dictionary of the groups and the order in which it lists its keys, that of their insertion. */
  ghost predicate Groups(traces: seq<Record>, byId: map<Id, seq<Record>>, order: seq<Id>) {
    && order == FirstIds(traces)
    && (forall id :: id in byId <==> id in order)
    && (forall id | id in byId :: byId[id] == GroupOf(traces, id))
  }

  lemma GroupsSkip(traces: seq<Record>, byId: map<Id, seq<Record>>, order: seq<Id>, t: Record)
    requires Groups(traces, byId, order) && !Truthy(t.traceId)
    ensures Groups(traces + [t], byId, order)
  {
    IdsThen(traces, t);
    IdsAppear(traces);
    forall id | id in byId
      ensures byId[id] == GroupOf(traces + [t], id)
    {
      GroupThen(traces, t, id);
    }
  }

  lemma GroupsExtend(traces: seq<Record>, byId: map<Id, seq<Record>>, order: seq<Id>, t: Record)
    requires Groups(traces, byId, order) && Truthy(t.traceId) && t.traceId.value in byId
    ensures Groups(traces + [t], byId[t.traceId.value := byId[t.traceId.value] + [t]], order)
  {
    IdsThen(traces, t);
    forall id | id in byId
      ensures GroupOf(traces + [t], id) == if t.traceId == Some(id) then byId[id] + [t] else byId[id]
    {
      GroupThen(traces, t, id);
    }
  }

  lemma GroupsNew(traces: seq<Record>, byId: map<Id, seq<Record>>, order: seq<Id>, t: Record)
    requires Groups(traces, byId, order) && Truthy(t.traceId) && t.traceId.value !in byId
    ensures Groups(traces + [t], byId[t.traceId.value := [t]], order + [t.traceId.value])
  {
    IdsThen(traces, t);
    NoGroup(traces, t.traceId.value);
    GroupThen(traces, t, t.traceId.value);
    forall id | id in byId
      ensures GroupOf(traces + [t], id) == byId[id]
    {
      GroupThen(traces, t, id);
    }
  }

  lemma NoGroup(traces: seq<Record>, id: Id)
    requires id != EMPTY && id !in FirstIds(traces)
    ensures GroupOf(traces, id) == []
  {
    IdsAppear(traces);
  }

  method GroupById(traces: seq<Record>) returns (byId: map<Id, seq<Record>>, order: seq<Id>)
    ensures Groups(traces, byId, order)
  {
    byId, order := map[], [];
    for i := 0 to |traces|
      invariant Groups(traces[..i], byId, order)
    {
      var t := traces[i];
      assert traces[..i + 1] == traces[..i] + [t];
      if t.traceId.Some? && t.traceId.value != EMPTY {
        if t.traceId.value in byId {
          GroupsExtend(traces[..i], byId, order, t);
          byId := byId[t.traceId.value := byId[t.traceId.value] + [t]];
        } else {
          GroupsNew(traces[..i], byId, order, t);
          order := order + [t.traceId.value];
          byId := byId[t.traceId.value := [t]];
        }
      } else {
        GroupsSkip(traces[..i], byId, order, t);
      }
    }
    assert traces[..|traces|] == traces;
  }

  lemma {:induction false} MergeIdsThen(traces: seq<Record>, ids: seq<Id>, id: Id)
    requires Grouped(traces, ids) && GroupOf(traces, id) != []
    ensures Grouped(traces, ids + [id])
    ensures MergeIds(traces, ids + [id]) == MergeIds(traces, ids) + [Merged(GroupOf(traces, id))]
  {
    assert (ids + [id])[..|ids|] == ids;
    assert forall i :: i in ids + [id] <==> i in ids || i == id;
  }

  /** The groups of these ids are in the dictionary. */
  ghost predicate HasGroups(traces: seq<Record>, byId: map<Id, seq<Record>>, ids: seq<Id>) {
    forall id | id in ids :: id in byId && byId[id] == GroupOf(traces, id) && byId[id] != []
  }

  lemma {:induction false} GroupsAreThere(traces: seq<Record>, byId: map<Id, seq<Record>>, order: seq<Id>)
    requires Groups(traces, byId, order)
    ensures HasGroups(traces, byId, order)
  {
    IdsAppear(traces);
  }

  method MergeTracesById(traces: seq<Record>) returns (merged: seq<Record>)
    ensures merged == MergeTraces(traces)
  {
    var byId, order := GroupById(traces);
    GroupsAreThere(traces, byId, order);
    merged := MergeGroups(traces, byId, order);
    MergedAll(traces, order, merged);
  }

  /** The merged records of the first k ids. */
  ghost predicate MergedSoFar(traces: seq<Record>, order: seq<Id>, k: nat, merged: seq<Record>) {
    k <= |order| && Grouped(traces, order[..k]) && merged == MergeIds(traces, order[..k])
  }

  lemma {:induction false} MergedNone(traces: seq<Record>, order: seq<Id>)
    ensures MergedSoFar(traces, order, 0, [])
  {
  }

  lemma {:induction false} MergedNext(traces: seq<Record>, order: seq<Id>, k: nat, merged: seq<Record>)
    requires k < |order| && MergedSoFar(traces, order, k, merged) && GroupOf(traces, order[k]) != []
    ensures MergedSoFar(traces, order, k + 1, merged + [Merged(GroupOf(traces, order[k]))])
  {
    PrefixThen(order, k);
    MergeIdsThen(traces, order[..k], order[k]);
  }

  lemma {:induction false} MergedAll(traces: seq<Record>, order: seq<Id>, merged: seq<Record>)
    requires MergedSoFar(traces, order, |order|, merged)
    ensures Grouped(traces, order) && merged == MergeIds(traces, order)
  {
    assert order[..|order|] == order;
  }

  method MergeGroups(ghost traces: seq<Record>, byId: map<Id, seq<Record>>, order: seq<Id>)
    returns (merged: seq<Record>)
    requires HasGroups(traces, byId, order)
    ensures MergedSoFar(traces, order, |order|, merged)
  {
    merged := [];
    MergedNone(traces, order);
    for k := 0 to |order|
      invariant MergedSoFar(traces, order, k, merged)
    {
      assert order[k] in order;
      MergedNext(traces, order, k, merged);
      var m := MergeTraceRecords(byId[order[k]]);
      merged := merged + [m];
    }
  }

  method GetTraceDetail(traces: seq<Record>, id: Id) returns (detail: Option<Record>)
    ensures detail == Detail(traces, id)
  {
    var matches: seq<Record> := [];
    for i := 0 to |traces|
      invariant matches == GroupOf(traces[..i], id)
    {
      assert traces[..i + 1][..i] == traces[..i];
      if traces[i].traceId == Some(id) {
        matches := matches + [traces[i]];
      }
    }
    assert traces[..|traces|] == traces;
    if matches == [] {
      return None;
    }
    var m := MergeTraceRecords(matches);
    return Some(m);
  }
}
