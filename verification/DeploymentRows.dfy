// The rows of the database of inference deployments: which detectors should run, which
// are to be removed, and what reconciliation makes of them.

module DeploymentRows {
  import opened Collections

  type Detector = nat

  /** A model name: a detector's primary model or its out-of-distribution model. */
  datatype Key = Key(detector: Detector, oodd: bool)

  datatype Row = Row(pending: bool, created: bool)

  type Rows = map<Key, Row>

  function Active(rows: Rows): set<Detector> {
    set k | k in rows && !rows[k].pending :: k.detector
  }

  function Pending(rows: Rows): set<Detector> {
    set k | k in rows && rows[k].pending :: k.detector
  }

  predicate HasRow(rows: Rows, d: Detector) { Key(d, false) in rows || Key(d, true) in rows }

  /** Marks every row of the detector. */
  function Marked(rows: Rows, d: Detector): Rows {
    map k | k in rows :: if k.detector == d then rows[k].(pending := true) else rows[k]
  }

  /** Adds the row, or applies the incoming fields to it; without a pending flag an existing one stays. */
  function Upserted(rows: Rows, k: Key, pending: Option<bool>): Rows {
    var flag := if pending.Some? then pending.value else if k in rows then rows[k].pending else false;
    rows[k := Row(flag, false)]
  }

  /** Records whether the deployment of a row exists; without the row, nothing. */
  function SetCreated(rows: Rows, k: Key, created: bool): Rows {
    if k in rows then rows[k := rows[k].(created := created)] else rows
  }

  function Without(rows: Rows, d: Detector): Rows {
    map k | k in rows && k.detector != d :: rows[k]
  }

  // ---- reconciliation with a desired set ----

  function Removed(rows: Rows, desired: set<Detector>): set<Detector> { Active(rows) - desired }

  function Added(rows: Rows, desired: set<Detector>): set<Detector> { desired - Active(rows) }

  function KeysOf(ds: set<Detector>): set<Key> {
    (set d | d in ds :: Key(d, false)) + (set d | d in ds :: Key(d, true))
  }

  function NewRows(added: set<Detector>): Rows {
    map k | k in KeysOf(added) :: Row(false, false)
  }

  function AllMarked(rows: Rows, removed: set<Detector>): Rows {
    map k | k in rows :: if k.detector in removed then rows[k].(pending := true) else rows[k]
  }

  /** The rows with some detectors marked, and both rows of some others as new. */
  function Applied(rows: Rows, removed: set<Detector>, added: set<Detector>): Rows {
    AllMarked(rows, removed) + NewRows(added)
  }

  function Reconciled(rows: Rows, desired: set<Detector>): Rows {
    Applied(rows, Removed(rows, desired), Added(rows, desired))
  }

  lemma InActive(rows: Rows, d: Detector)
    ensures d in Active(rows) <==>
            (Key(d, false) in rows && !rows[Key(d, false)].pending) || (Key(d, true) in rows && !rows[Key(d, true)].pending)
    ensures d in Pending(rows) <==>
            (Key(d, false) in rows && rows[Key(d, false)].pending) || (Key(d, true) in rows && rows[Key(d, true)].pending)
  {
    forall k | k in rows && k.detector == d
      ensures k == Key(d, false) || k == Key(d, true)
    {
    }
  }

  /** A reconciliation makes exactly the desired detectors active. */
  lemma ReconciledIsDesired(rows: Rows, desired: set<Detector>)
    ensures Active(Reconciled(rows, desired)) == desired
  {
    forall d
      ensures d in Active(Reconciled(rows, desired)) <==> d in desired
    {
      InActive(rows, d);
      InActive(Reconciled(rows, desired), d);
      assert d in Added(rows, desired) ==> Key(d, false) in KeysOf(Added(rows, desired));
    }
  }

  /** Repeating it changes nothing. */
  lemma ReconcileIsIdempotent(rows: Rows, desired: set<Detector>)
    ensures Reconciled(Reconciled(rows, desired), desired) == Reconciled(rows, desired)
  {
    ReconciledIsDesired(rows, desired);
    var once := Reconciled(rows, desired);
    assert Removed(once, desired) == {} && Added(once, desired) == {};
    assert KeysOf({}) == {};
  }

  /** No row disappears, and the rows of detectors whose wish did not change stay as they are. */
  lemma ReconcileKeepsOthers(rows: Rows, desired: set<Detector>, k: Key)
    requires k in rows
    ensures k in Reconciled(rows, desired)
    ensures (k.detector in Active(rows) <==> k.detector in desired) ==> Reconciled(rows, desired)[k] == rows[k]
  {
  }

  /**
   * A desired detector is left marked for deletion exactly if it was active and marked at once, which
   * is possible when one of its rows was marked before the other was created.
   */
  lemma StillMarkedIff(rows: Rows, desired: set<Detector>, d: Detector)
    requires d in desired
    ensures d in Pending(Reconciled(rows, desired)) <==> d in Active(rows) && d in Pending(rows)
  {
    InActive(rows, d);
    InActive(Reconciled(rows, desired), d);
    assert Key(d, false) in Reconciled(rows, desired) ==> Key(d, false) in rows || d in Added(rows, desired);
    assert Key(d, true) in Reconciled(rows, desired) ==> Key(d, true) in rows || d in Added(rows, desired);
  }
}
