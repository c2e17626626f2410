// Left alone by the API, and with a cluster that carries out deletions, one turn of the
// updater does what the rows ask for.

module UpdaterProgress {
  import opened Collections
  import opened DeploymentRows
  import opened UpdaterProtocol
  import opened UpdaterSafety

  /** A step of the updater or of the cluster, but no write of the API and no failure. */
  predicate Smooth(st: Step) {
    !st.Mark? && !st.Upsert? && !st.Crash? && !st.TimeOut? && !st.SkipDetector? && !st.PodStarts?
  }

  ghost predicate Leads(s: State, steps: seq<Step>, s': State) {
    Valid(s, steps) && Run(s, steps) == s' && forall st | st in steps :: Smooth(st)
  }

  lemma {:induction false} First(s: State, st: Step, rest: seq<Step>, s': State)
    requires Enabled(s, st) && Smooth(st) && Leads(Do(s, st), rest, s')
    ensures Leads(s, [st] + rest, s')
  {
    assert ([st] + rest)[1..] == rest;
  }

  lemma {:induction false} Both(s: State, a: seq<Step>, s1: State, b: seq<Step>, s2: State)
    requires Leads(s, a, s1) && Leads(s1, b, s2)
    ensures Leads(s, a + b, s2)
    decreases |a|
  {
    if a == [] {
      assert a + b == b;
    } else {
      assert forall st | st in a[1..] :: st in a;
      Both(Do(s, a[0]), a[1..], s1, b, s2);
      assert a + b == [a[0]] + (a[1..] + b);
      First(s, a[0], a[1..] + b, s2);
    }
  }

  /** Every deployment of the snapshot whose deletion is not still to be requested is terminating. */
  ghost predicate Requested(s: State, snapshot: set<Detector>, requests: set<Key>) {
    forall k | k in Own(s.separate, snapshot) && k !in requests && k in s.deployments :: k in s.terminating
  }

  lemma {:induction false} RequestAll(s: State) returns (steps: seq<Step>, s': State)
    requires s.pc.Deleting? && s.pc.requests != {} && Requested(s, s.pc.snapshot, s.pc.requests)
    ensures Leads(s, steps, s') && s' == s.(terminating := s'.terminating, pc := Polling(s.pc.snapshot, {}, {}))
    ensures Requested(s', s.pc.snapshot, {})
    decreases |if s.pc.Deleting? then s.pc.requests else {}|
  {
    var k :| k in s.pc.requests;
    var s1 := Do(s, RequestDeletion(k));
    if s1.pc.Polling? {
      steps, s' := [], s1;
    } else {
      steps, s' := RequestAll(s1);
    }
    First(s, RequestDeletion(k), steps, s');
    steps := [RequestDeletion(k)] + steps;
  }

  /** The cluster carries the deletions out. */
  lemma {:induction false} VanishAll(s: State, own: set<Key>) returns (steps: seq<Step>, s': State)
    requires forall k | k in own && k in s.deployments :: k in s.terminating
    ensures Leads(s, steps, s') && s' == s.(deployments := s.deployments - own, terminating := s'.terminating)
    decreases |own * s.deployments|
  {
    if own * s.deployments == {} {
      steps, s' := [], s;
      assert s.deployments - own == s.deployments;
    } else {
      var k :| k in own * s.deployments;
      var s1 := Do(s, Vanish(k));
      assert own * s1.deployments == own * s.deployments - {k};
      SubsetSize(own * s.deployments - {k}, own * s.deployments);
      steps, s' := VanishAll(s1, own);
      First(s, Vanish(k), steps, s');
      steps := [Vanish(k)] + steps;
      assert s1.deployments - own == s.deployments - own;
    }
  }

  lemma {:induction false} StopAll(s: State, own: set<Key>) returns (steps: seq<Step>, s': State)
    ensures Leads(s, steps, s') && s' == s.(pods := s.pods - own)
    decreases |own * s.pods|
  {
    if own * s.pods == {} {
      steps, s' := [], s;
      assert s.pods - own == s.pods;
    } else {
      var k :| k in own * s.pods;
      var s1 := Do(s, PodStops(k));
      assert own * s1.pods == own * s.pods - {k};
      SubsetSize(own * s.pods - {k}, own * s.pods);
      steps, s' := StopAll(s1, own);
      First(s, PodStops(k), steps, s');
      steps := [PodStops(k)] + steps;
      assert s1.pods - own == s.pods - own;
    }
  }

  lemma {:induction false} PollDeployments(s: State, snapshot: set<Detector>, left: set<Key>, absent: set<Key>)
    returns (steps: seq<Step>)
    requires s.pc == Polling(snapshot, absent, {}) && left <= Own(s.separate, snapshot) && left !! s.deployments
    ensures Leads(s, steps, s.(pc := Polling(snapshot, absent + left, {})))
    decreases |left|
  {
    if left == {} {
      steps := [];
      assert absent + {} == absent;
    } else {
      var k :| k in left;
      SubsetSize(left - {k}, left);
      var rest := PollDeployments(Do(s, PollDeployment(k)), snapshot, left - {k}, absent + {k});
      assert absent + {k} + (left - {k}) == absent + left;
      First(s, PollDeployment(k), rest, s.(pc := Polling(snapshot, absent + left, {})));
      steps := [PollDeployment(k)] + rest;
    }
  }

  lemma {:induction false} PollAllPods(s: State, snapshot: set<Detector>, left: set<Key>, absent: set<Key>, gone: set<Key>)
    returns (steps: seq<Step>)
    requires s.pc == Polling(snapshot, absent, gone) && left <= absent && left !! s.pods
    ensures Leads(s, steps, s.(pc := Polling(snapshot, absent, gone + left)))
    decreases |left|
  {
    if left == {} {
      steps := [];
      assert gone + {} == gone;
    } else {
      var k :| k in left;
      SubsetSize(left - {k}, left);
      var rest := PollAllPods(Do(s, PollPods(k)), snapshot, left - {k}, absent, gone + {k});
      assert gone + {k} + (left - {k}) == gone + left;
      First(s, PollPods(k), rest, s.(pc := Polling(snapshot, absent, gone + left)));
      steps := [PollPods(k)] + rest;
    }
  }

  lemma {:induction false} PollAll(s: State, own: set<Key>) returns (steps: seq<Step>, s': State)
    requires s.pc.Polling? && s.pc == Polling(s.pc.snapshot, {}, {})
    requires own == Own(s.separate, s.pc.snapshot) && own !! s.deployments && own !! s.pods
    ensures Leads(s, steps, s') && s' == s.(pc := Polling(s.pc.snapshot, own, own))
  {
    var snapshot := s.pc.snapshot;
    var none: set<Key> := {};
    assert none + own == own;
    var a := PollDeployments(s, snapshot, own, {});
    var s1 := s.(pc := Polling(snapshot, own, {}));
    var b := PollAllPods(s1, snapshot, own, own, {});
    s' := s.(pc := Polling(snapshot, own, own));
    Both(s, a, s1, b, s');
    steps := a + b;
  }

  function WithoutAll(rows: Rows, ds: set<Detector>): Rows {
    map k | k in rows && k.detector !in ds :: rows[k]
  }

  lemma {:induction false} OneFewer(rows: Rows, ds: set<Detector>, d: Detector)
    requires d in ds
    ensures WithoutAll(Without(rows, d), ds - {d}) == WithoutAll(rows, ds) && |ds - {d}| < |ds|
  {
    assert ds == (ds - {d}) + {d};
  }

  lemma {:induction false} RemoveAll(s: State) returns (steps: seq<Step>, s': State)
    requires s.pc.Removing?
    ensures Leads(s, steps, s') && s' == s.(rows := WithoutAll(s.rows, s.pc.todo), pc := Listing)
    decreases |if s.pc.Removing? then s.pc.todo else {}|
  {
    if s.pc.todo == {} {
      assert WithoutAll(s.rows, {}) == s.rows;
      s' := Do(s, DoneRemoving);
      First(s, DoneRemoving, [], s');
      steps := [DoneRemoving] + [];
    } else {
      var d :| d in s.pc.todo;
      var s1 := Do(s, RemoveRows(d));
      OneFewer(s.rows, s.pc.todo, d);
      steps, s' := RemoveAll(s1);
      First(s, RemoveRows(d), steps, s');
      steps := [RemoveRows(d)] + steps;
    }
  }

  /** The rows differ only in whether a deployment was recorded. */
  ghost predicate SameRequests(a: Rows, b: Rows) {
    a.Keys == b.Keys && forall k | k in a :: a[k].pending == b[k].pending
  }

  lemma {:induction false} CheckOne(s: State, d: Detector) returns (steps: seq<Step>, s': State)
    requires s.pc.Checking? && d in s.pc.todo
    ensures Leads(s, steps, s') && SameRequests(s.rows, s'.rows)
    ensures s' == s.(rows := s'.rows, deployments := s.deployments + Own(s.separate, {d}),
                     pc := Checking(s.pc.todo - {d}, s.pc.baseline))
  {
    var s1 := Do(s, Check(d));
    var s2 := Do(s1, CreateIfMissing);
    if s.separate {
      var s3 := Do(s2, CreateIfMissing);
      s' := Do(s3, Record);
      assert s.deployments + {Key(d, false)} + {Key(d, true)} == s.deployments + Own(true, {d});
      First(s3, Record, [], s');
      First(s2, CreateIfMissing, [Record] + [], s');
      steps := [CreateIfMissing] + ([Record] + []);
    } else {
      s' := Do(s2, Record);
      assert Own(false, {d}) == {Key(d, false)};
      First(s2, Record, [], s');
      steps := [Record] + [];
    }
    First(s1, CreateIfMissing, steps, s');
    steps := [CreateIfMissing] + steps;
    First(s, Check(d), steps, s');
    steps := [Check(d)] + steps;
  }

  lemma {:induction false} CheckAll(s: State) returns (steps: seq<Step>, s': State)
    requires s.pc.Checking?
    ensures Leads(s, steps, s') && SameRequests(s.rows, s'.rows)
    ensures s' == s.(rows := s'.rows, deployments := s.deployments + Own(s.separate, s.pc.todo), pc := Waiting)
    decreases |if s.pc.Checking? then s.pc.todo else {}|
  {
    if s.pc.todo == {} {
      assert Own(s.separate, {}) == {};
      s' := Do(s, BreakOff);
      First(s, BreakOff, [], s');
      steps := [BreakOff] + [];
    } else {
      var d :| d in s.pc.todo;
      var first, s1 := CheckOne(s, d);
      OwnSplit(s.separate, s.deployments, s.pc.todo, d);
      var more;
      more, s' := CheckAll(s1);
      Both(s, first, s1, more, s');
      steps := first + more;
    }
  }

  lemma {:induction false} OwnSplit(separate: bool, deployments: set<Key>, ds: set<Detector>, d: Detector)
    requires d in ds
    ensures deployments + Own(separate, {d}) + Own(separate, ds - {d}) == deployments + Own(separate, ds)
    ensures |ds - {d}| < |ds|
  {
    assert ds == {d} + (ds - {d});
  }

  /** The deletion phase, for a snapshot that is not empty. */
  lemma {:induction false} DeletePhase(s: State) returns (steps: seq<Step>, s': State)
    requires s.pc.Top? && Pending(s.rows) != {}
    ensures Leads(s, steps, s') && s'.pc == Listing && s'.separate == s.separate
    ensures s'.rows == WithoutAll(s.rows, Pending(s.rows))
  {
    var snapshot := Pending(s.rows);
    var own := Own(s.separate, snapshot);
    var d :| d in snapshot;
    assert Key(d, false) in own;
    var s1 := Do(s, TakeSnapshot);
    var a, s2 := RequestAll(s1);
    First(s, TakeSnapshot, a, s2);
    var b, s3 := VanishAll(s2, own);
    Both(s, [TakeSnapshot] + a, s2, b, s3);
    var c, s4 := StopAll(s3, own);
    Both(s, [TakeSnapshot] + a + b, s3, c, s4);
    var e, s5 := PollAll(s4, own);
    Both(s, [TakeSnapshot] + a + b + c, s4, e, s5);
    var f, s6 := RemoveAll(Do(s5, AllGone));
    First(s5, AllGone, f, s6);
    Both(s, [TakeSnapshot] + a + b + c + e, s5, [AllGone] + f, s6);
    steps, s' := [TakeSnapshot] + a + b + c + e + ([AllGone] + f), s6;
  }

  lemma {:induction false} ToListing(s: State) returns (steps: seq<Step>, s': State)
    requires s.pc.Top?
    ensures Leads(s, steps, s') && s'.pc == Listing && s'.separate == s.separate
    ensures s'.rows == WithoutAll(s.rows, Pending(s.rows))
  {
    if Pending(s.rows) == {} {
      s' := Do(s, TakeSnapshot);
      First(s, TakeSnapshot, [], s');
      steps := [TakeSnapshot] + [];
    } else {
      steps, s' := DeletePhase(s);
    }
  }

  /** What the rows ask for and nothing else is deployed, and nothing is left to delete. */
  ghost predicate Settled(s: State) {
    Pending(s.rows) == {} && s.deployments == Own(s.separate, Active(s.rows))
  }

  /**
   * From the top of its loop the updater can always settle: the marked detectors lose their rows, those
   * that were not marked keep theirs, and exactly their deployments exist.
   */
  lemma {:induction false} CanSettle(s: State) returns (steps: seq<Step>, s': State)
    requires Inv(s) && s.pc.Top?
    ensures Leads(s, steps, s') && s'.pc == Waiting && Settled(s')
    ensures Active(s'.rows) == Active(s.rows) - Pending(s.rows)
  {
    var a, s1 := ToListing(s);
    var s2 := Do(s1, List);
    var b, s3 := CheckAll(s2);
    First(s1, List, b, s3);
    Both(s, a, s1, [List] + b, s3);
    steps, s' := a + ([List] + b), s3;
    InvRun(s, steps);
    RowsLeft(s.rows, s1.rows, s3.rows);
    OnlyActive(s3);
    assert Active(s1.rows) == Active(s3.rows);
    forall k | k in Own(s.separate, Active(s3.rows))
      ensures k in s3.deployments
    {
    }
  }

  lemma {:induction false} RowsLeft(before: Rows, left: Rows, after: Rows)
    requires left == WithoutAll(before, Pending(before)) && SameRequests(left, after)
    ensures Pending(after) == {} && Active(after) == Active(left) == Active(before) - Pending(before)
  {
    forall d
      ensures d in Active(after) <==> d in Active(before) && d !in Pending(before)
      ensures d in Active(left) <==> d in Active(before) && d !in Pending(before)
      ensures d !in Pending(after)
    {
      InActive(before, d);
      InActive(left, d);
      InActive(after, d);
    }
  }

  /** Without marked rows, no deployment is one too many. */
  lemma {:induction false} OnlyActive(s: State)
    requires Inv(s) && Pending(s.rows) == {}
    ensures s.deployments <= Own(s.separate, Active(s.rows))
  {
    forall k | k in s.deployments
      ensures k in Own(s.separate, Active(s.rows))
    {
      InActive(s.rows, k.detector);
      OwnOf(s.separate, Active(s.rows), k);
      assert k.detector !in Pending(s.rows);
    }
  }
}
