// What the model updater keeps under every interleaving: no deployment and no pod
// without a row in the database.

module UpdaterSafety {
  import opened Collections
  import opened DeploymentRows
  import opened UpdaterProtocol

  /** Every deployment and every pod belongs to a detector with a row. */
  ghost predicate NoOrphan(s: State) {
    forall k | k in s.deployments || k in s.pods :: HasRow(s.rows, k.detector)
  }

  /** What the updater has learnt and relies on. */
  ghost predicate PcOk(s: State) {
    match s.pc
    case Polling(_, absent, gone) => gone <= absent && absent !! s.deployments && gone !! s.pods
    case Removing(snapshot, todo) =>
      todo <= snapshot && Own(s.separate, snapshot) !! s.deployments && Own(s.separate, snapshot) !! s.pods
    case Checking(todo, _) => forall d | d in todo :: HasRow(s.rows, d)
    case Creating(d, oodd, todo, _) =>
      (oodd ==> s.separate) && HasRow(s.rows, d) && forall e | e in todo :: HasRow(s.rows, e)
    case Finishing(d, todo, _) => HasRow(s.rows, d) && forall e | e in todo :: HasRow(s.rows, e)
    case _ => true
  }

  ghost predicate Inv(s: State) {
    && s.terminating <= s.deployments
    && (forall k | k in s.deployments || k in s.pods :: k.oodd ==> s.separate)
    && NoOrphan(s)
    && PcOk(s)
  }

  /** Only the removal step of its own takes the rows of a detector away. */
  lemma RowsKept(s: State, st: Step, d: Detector)
    requires Enabled(s, st) && st != RemoveRows(d) && HasRow(s.rows, d)
    ensures HasRow(Do(s, st).rows, d)
  {
  }

  lemma OwnOf(separate: bool, ds: set<Detector>, k: Key)
    ensures k in Own(separate, ds) <==> k.detector in ds && (k.oodd ==> separate)
  {
  }

  lemma InvRemoveRows(s: State, d: Detector)
    requires Inv(s) && Enabled(s, RemoveRows(d))
    ensures Inv(Do(s, RemoveRows(d)))
    ensures forall k: Key | k.detector == d :: k !in s.deployments && k !in s.pods
  {
    forall k: Key | k.detector == d
      ensures k !in s.deployments && k !in s.pods
    {
      OwnOf(s.separate, s.pc.snapshot, k);
    }
  }

  lemma ActiveHaveRows(rows: Rows)
    ensures forall d | d in Active(rows) :: HasRow(rows, d)
  {
    forall d | d in Active(rows)
      ensures HasRow(rows, d)
    {
      InActive(rows, d);
    }
  }

  lemma InvStep(s: State, st: Step)
    requires Inv(s) && Enabled(s, st)
    ensures Inv(Do(s, st))
  {
    if st.RemoveRows? {
      InvRemoveRows(s, st.d);
    } else {
      forall d | HasRow(s.rows, d)
        ensures HasRow(Do(s, st).rows, d)
      {
        RowsKept(s, st, d);
      }
      if st.List? {
        ActiveHaveRows(s.rows);
      } else if st.AllGone? {
        assert Own(s.separate, s.pc.snapshot) !! s.deployments;
      }
    }
  }

  lemma {:induction false} InvRun(s: State, steps: seq<Step>)
    requires Inv(s) && Valid(s, steps)
    ensures Inv(Run(s, steps))
    decreases |steps|
  {
    if steps != [] {
      InvStep(s, steps[0]);
      InvRun(Do(s, steps[0]), steps[1..]);
    }
  }

  /** Under every interleaving, a detector with a deployment or with pods has a row in the database. */
  lemma NoOrphanEver(separate: bool, steps: seq<Step>)
    requires Valid(Init(separate), steps)
    ensures NoOrphan(Run(Init(separate), steps))
  {
    InvRun(Init(separate), steps);
  }

  /** Under every interleaving, the rows of a detector go only when its deployments and pods are gone. */
  lemma {:induction false} RowsGoLast(separate: bool, steps: seq<Step>, st: Step, d: Detector)
    requires Valid(Init(separate), steps) && Enabled(Run(Init(separate), steps), st)
    requires HasRow(Run(Init(separate), steps).rows, d) && !HasRow(Do(Run(Init(separate), steps), st).rows, d)
    ensures st == RemoveRows(d)
    ensures forall k: Key | k.detector == d ::
              k !in Run(Init(separate), steps).deployments && k !in Run(Init(separate), steps).pods
  {
    var s := Run(Init(separate), steps);
    InvRun(Init(separate), steps);
    if st != RemoveRows(d) {
      RowsKept(s, st, d);
    }
    InvRemoveRows(s, d);
  }

  // ---- what happens to a detector that is added again meanwhile ----

  /** While rows are being removed, the steps remove those of the detectors in `todo`, each once. */
  lemma {:induction false} RemovesExactly(s: State, steps: seq<Step>, d: Detector)
    requires s.pc.Removing? && Valid(s, steps) && Run(s, steps).pc == Removing(s.pc.snapshot, {})
    requires Crash !in steps && DoneRemoving !in steps
    ensures RemoveRows(d) in steps <==> d in s.pc.todo
    decreases |steps|
  {
    if steps != [] {
      var s' := Do(s, steps[0]);
      assert forall st :: st in steps <==> st == steps[0] || st in steps[1..];
      assert s'.pc.Removing? && s'.pc.snapshot == s.pc.snapshot;
      RemovesExactly(s', steps[1..], d);
    }
  }

  /**
   * Once the pods of a snapshot are gone, the removal deletes the rows of a detector if and only if the
   * detector was in the snapshot. Whether it has been added again since does not matter.
   */
  lemma RemovedIffInSnapshot(s: State, steps: seq<Step>, d: Detector)
    requires Enabled(s, AllGone) && Valid(Do(s, AllGone), steps)
    requires Run(Do(s, AllGone), steps).pc == Removing(s.pc.snapshot, {})
    requires Crash !in steps && DoneRemoving !in steps
    ensures RemoveRows(d) in steps <==> d in s.pc.snapshot
  {
    RemovesExactly(Do(s, AllGone), steps, d);
  }

  /** The state after the first n steps. */
  lemma {:induction false} Then(s: State, steps: seq<Step>, st: Step)
    requires Valid(s, steps) && Enabled(Run(s, steps), st)
    ensures Valid(s, steps + [st]) && Run(s, steps + [st]) == Do(Run(s, steps), st)
    decreases |steps|
  {
    if steps == [] {
      assert (steps + [st])[1..] == [];
    } else {
      assert (steps + [st])[1..] == steps[1..] + [st];
      Then(Do(s, steps[0]), steps[1..], st);
    }
  }

  const ZERO := Key(0, false)

  /** A state of the example run: one detector, no deployments. */
  function At(rows: Rows, pc: Pc): State { State(rows, {}, {}, {}, pc, false) }

  function One(pending: bool): Rows { map[ZERO := Row(pending, false)] }

  lemma ReAddSteps()
    ensures Do(Init(false), Upsert(ZERO, Some(false))) == At(One(false), Top)
    ensures Do(At(One(false), Top), Mark(0)) == At(One(true), Top)
    ensures Do(At(One(true), Top), TakeSnapshot) == At(One(true), Deleting({0}, {ZERO}))
    ensures Do(At(One(true), Polling({0}, {ZERO}, {ZERO})), Upsert(ZERO, Some(false)))
            == At(One(false), Polling({0}, {ZERO}, {ZERO}))
    ensures Without(One(false), 0) == map[] && Own(false, {0}) == {ZERO}
    ensures Active(One(false)) == {0} && Pending(One(false)) == {}
  {
    assert Pending(One(true)) == {0};
    assert Own(false, {0}) == {ZERO};
  }

  lemma PollSteps(rows: Rows)
    ensures Do(At(rows, Deleting({0}, {ZERO})), RequestDeletion(ZERO)) == At(rows, Polling({0}, {}, {}))
    ensures Own(false, {0}) == {ZERO}
    ensures Do(At(rows, Polling({0}, {}, {})), PollDeployment(ZERO)) == At(rows, Polling({0}, {ZERO}, {}))
    ensures Do(At(rows, Polling({0}, {ZERO}, {})), PollPods(ZERO)) == At(rows, Polling({0}, {ZERO}, {ZERO}))
  {
    var none: set<Key> := {};
    assert {ZERO} - {ZERO} == none && none + {ZERO} == {ZERO};
    assert Own(false, {0}) == {ZERO};
  }

  lemma UpToWait() returns (before: seq<Step>)
    ensures Valid(Init(false), before) && Run(Init(false), before) == At(One(true), Polling({0}, {ZERO}, {ZERO}))
  {
    var s := Init(false);
    ReAddSteps();
    Then(s, [], Upsert(ZERO, Some(false)));
    before := [] + [Upsert(ZERO, Some(false))];
    Then(s, before, Mark(0));
    before := before + [Mark(0)];
    Then(s, before, TakeSnapshot);
    before := before + [TakeSnapshot];
    before := ThroughPolls(s, before, One(true));
  }

  lemma ThroughPolls(s: State, steps: seq<Step>, rows: Rows) returns (before: seq<Step>)
    requires Valid(s, steps) && Run(s, steps) == At(rows, Deleting({0}, {ZERO}))
    requires Crash !in steps && TimeOut !in steps
    ensures Valid(s, before) && Run(s, before) == At(rows, Polling({0}, {ZERO}, {ZERO}))
    ensures Crash !in before && TimeOut !in before
  {
    PollSteps(rows);
    before := steps;
    Then(s, before, RequestDeletion(ZERO));
    before := before + [RequestDeletion(ZERO)];
    Then(s, before, PollDeployment(ZERO));
    before := before + [PollDeployment(ZERO)];
    Then(s, before, PollPods(ZERO));
    before := before + [PollPods(ZERO)];
  }

  /**
   * Detector 0 is marked, and added again while the updater waits for its pods: then it is active, but
   * the updater goes on to delete its rows, the new flag included.
   */
  lemma ReAddedLosesItsRows() returns (before: seq<Step>, after: seq<Step>)
    ensures Valid(Init(false), before) && Run(Init(false), before).pc.Polling?
    ensures Enabled(Run(Init(false), before), Upsert(ZERO, Some(false)))
    ensures var s := Do(Run(Init(false), before), Upsert(ZERO, Some(false)));
            && Active(s.rows) == {0} && Pending(s.rows) == {}
            && Valid(s, after) && Crash !in after && TimeOut !in after
            && Run(s, after).rows == map[]
  {
    before := UpToWait();
    ReAddSteps();
    var s := At(One(false), Polling({0}, {ZERO}, {ZERO}));
    Then(s, [], AllGone);
    Then(s, [] + [AllGone], RemoveRows(0));
    after := [] + [AllGone] + [RemoveRows(0)];
  }

  // ---- a desired detector that is left marked ----

  const ITS_OODD := Key(0, true)

  /** Detector 0 with one row marked and the other active. */
  function Half(): Rows { map[ZERO := Row(true, false), ITS_OODD := Row(false, false)] }

  lemma HalfSteps()
    ensures Do(At(One(true), Top), Upsert(ITS_OODD, Some(false))) == At(Half(), Top)
    ensures Do(At(Half(), Top), TakeSnapshot) == At(Half(), Deleting({0}, {ZERO}))
    ensures Without(Half(), 0) == map[] && Own(false, {0}) == {ZERO}
    ensures Active(Half()) == {0} && Pending(Half()) == {0}
  {
    assert Half()[ZERO].pending && !Half()[ITS_OODD].pending;
    assert forall k | k in Half() :: k == ZERO || k == ITS_OODD;
    assert Pending(Half()) == {0};
    assert Own(false, {0}) == {ZERO};
  }

  lemma HalfMarked() returns (before: seq<Step>)
    ensures Valid(Init(false), before) && Run(Init(false), before) == At(Half(), Top)
  {
    var s := Init(false);
    ReAddSteps();
    HalfSteps();
    Then(s, [], Upsert(ZERO, Some(false)));
    before := [] + [Upsert(ZERO, Some(false))];
    Then(s, before, Mark(0));
    before := before + [Mark(0)];
    Then(s, before, Upsert(ITS_OODD, Some(false)));
    before := before + [Upsert(ITS_OODD, Some(false))];
  }

  /**
   * Detector 0 is marked between the creation of its two rows. It is active, so a reconciliation that wants
   * it changes nothing; but it is marked as well, so the updater deletes all its rows.
   */
  lemma DesiredLosesItsRows() returns (before: seq<Step>, after: seq<Step>)
    ensures Valid(Init(false), before)
    ensures var s := Run(Init(false), before);
            && Active(s.rows) == {0} && Pending(s.rows) == {0} && Reconciled(s.rows, {0}) == s.rows
            && Valid(s, after) && Crash !in after && TimeOut !in after
            && Run(s, after).rows == map[]
  {
    before := HalfMarked();
    HalfSteps();
    var s := At(Half(), Top);
    NothingToDo();
    Then(s, [], TakeSnapshot);
    after := ThroughPolls(s, [] + [TakeSnapshot], Half());
    Then(s, after, AllGone);
    Then(s, after + [AllGone], RemoveRows(0));
    after := after + [AllGone] + [RemoveRows(0)];
  }

  lemma NothingToDo()
    ensures Reconciled(Half(), {0}) == Half()
  {
    HalfSteps();
    assert Removed(Half(), {0}) == {} && Added(Half(), {0}) == {};
    assert KeysOf({}) == {};
  }
}
