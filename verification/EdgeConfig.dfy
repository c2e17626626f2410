// The database of inference deployments as an object, and its reconciliation with a
// configuration.

module EdgeConfig {
  import opened Collections
  import opened DeploymentRows

  class Database {
    var rows: Rows

    constructor ()
      ensures rows == map[]
    {
      rows := map[];
    }

    method CreateOrUpdate(k: Key, pending: Option<bool>)
      modifies this
      ensures rows == Upserted(old(rows), k, pending)
      ensures rows.Keys == old(rows).Keys + {k} && !rows[k].created
      ensures rows[k].pending == if pending.Some? then pending.value else k in old(rows) && old(rows)[k].pending
      ensures forall j | j in old(rows) && j != k :: rows[j] == old(rows)[j]
    {
      if k !in rows {
        rows := rows[k := Row(if pending.Some? then pending.value else false, false)];
      } else {
        var row := rows[k];
        if pending.Some? {
          row := row.(pending := pending.value);
        }
        rows := rows[k := row.(created := false)];
      }
    }

    method MarkPendingDeletion(d: Detector)
      modifies this
      ensures rows == Marked(old(rows), d)
      ensures rows.Keys == old(rows).Keys
      ensures forall k | k in rows :: rows[k] == old(rows)[k].(pending := k.detector == d || old(rows)[k].pending)
    {
      var existing := set k | k in rows && k.detector == d;
      var todo := existing;
      while todo != {}
        invariant todo <= existing && rows.Keys == old(rows).Keys
        invariant forall k | k in rows ::
                    rows[k] == if k in existing && k !in todo then old(rows)[k].(pending := true) else old(rows)[k]
        decreases |todo|
      {
        var k :| k in todo;
        rows := rows[k := rows[k].(pending := true)];
        todo := todo - {k};
      }
    }

    method DeleteRecords(d: Detector)
      modifies this
      ensures rows == Without(old(rows), d)
      ensures forall k :: k in rows <==> k in old(rows) && k.detector != d
      ensures forall k | k in rows :: rows[k] == old(rows)[k]
    {
      var existing := set k | k in rows && k.detector == d;
      rows := rows - existing;
    }

    method UpdateCreated(k: Key, created: bool)
      modifies this
      ensures rows == SetCreated(old(rows), k, created)
      ensures rows.Keys == old(rows).Keys
      ensures forall j | j in rows :: rows[j] == if j == k then Row(old(rows)[j].pending, created) else old(rows)[j]
    {
      if k in rows {
        rows := rows[k := rows[k].(created := created)];
      }
    }

    method GetPendingDeletions() returns (ds: set<Detector>)
      ensures ds == Pending(rows) && forall d :: d in ds <==> exists k :: k in rows && k.detector == d && rows[k].pending
    {
      ds := set k | k in rows && rows[k].pending :: k.detector;
    }

    method GetActive() returns (ds: set<Detector>)
      ensures ds == Active(rows) && forall d :: d in ds <==> exists k :: k in rows && k.detector == d && !rows[k].pending
    {
      ds := set k | k in rows && !rows[k].pending :: k.detector;
    }
  }

  lemma MarkOneMore(rows: Rows, removed: set<Detector>, d: Detector)
    ensures Marked(AllMarked(rows, removed), d) == AllMarked(rows, removed + {d})
  {
  }

  lemma AddOneMore(rows: Rows, added: set<Detector>, d: Detector)
    ensures Upserted(Upserted(rows + NewRows(added), Key(d, false), Some(false)), Key(d, true), Some(false))
            == rows + NewRows(added + {d})
  {
    assert KeysOf(added + {d}) == KeysOf(added) + {Key(d, false), Key(d, true)};
    assert NewRows(added + {d}) == NewRows(added)[Key(d, false) := Row(false, false)][Key(d, true) := Row(false, false)];
  }

  /** Marks the removed detectors and creates both rows of the added ones. */
  method ApplyDetectorChanges(removed: set<Detector>, added: set<Detector>, db: Database)
    modifies db
    ensures db.rows == Applied(old(db.rows), removed, added)
    ensures forall k: Key | k.detector in added :: k in db.rows && db.rows[k] == Row(false, false)
    ensures forall k: Key | k.detector !in added :: k in db.rows <==> k in old(db.rows)
    ensures forall k | k in db.rows && k.detector !in added ::
              db.rows[k] == old(db.rows)[k].(pending := k.detector in removed || old(db.rows)[k].pending)
  {
    MarkRemoved(removed, db);
    CreateAdded(added, db);
  }

  method MarkRemoved(removed: set<Detector>, db: Database)
    modifies db
    ensures db.rows == AllMarked(old(db.rows), removed)
  {
    var todo := removed;
    while todo != {}
      invariant todo <= removed && db.rows == AllMarked(old(db.rows), removed - todo)
      decreases |todo|
    {
      var d :| d in todo;
      db.MarkPendingDeletion(d);
      MarkOneMore(old(db.rows), removed - todo, d);
      assert removed - todo + {d} == removed - (todo - {d});
      todo := todo - {d};
    }
    assert removed - {} == removed;
  }

  method CreateAdded(added: set<Detector>, db: Database)
    modifies db
    ensures db.rows == old(db.rows) + NewRows(added)
  {
    var todo := added;
    assert db.rows + NewRows({}) == db.rows;
    while todo != {}
      invariant todo <= added && db.rows == old(db.rows) + NewRows(added - todo)
      decreases |todo|
    {
      var d :| d in todo;
      db.CreateOrUpdate(Key(d, false), Some(false));
      db.CreateOrUpdate(Key(d, true), Some(false));
      AddOneMore(old(db.rows), added - todo, d);
      assert added - todo + {d} == added - (todo - {d});
      todo := todo - {d};
    }
    assert added - {} == added;
  }

  /**
   * What to remove and what to add: the only changes, each needed, that turn the current detectors into
   * those of the configuration, which may list a detector more than once.
   */
  method ComputeDetectorDiff(current: set<Detector>, detectors: seq<Detector>)
    returns (removed: set<Detector>, added: set<Detector>)
    ensures removed <= current && added !! current
    ensures forall d :: d in (current - removed) + added <==> d in detectors
  {
    var desired := set d | d in detectors;
    removed, added := current - desired, desired - current;
  }

  /** Run alone, a reconciliation makes exactly the detectors of the configuration active. */
  method ReconcileConfig(detectors: seq<Detector>, db: Database)
    modifies db
    ensures db.rows == Reconciled(old(db.rows), set d | d in detectors)
    ensures Active(db.rows) == set d | d in detectors
  {
    var current := db.GetActive();
    var removed, added := ComputeDetectorDiff(current, detectors);
    ghost var desired := set d | d in detectors;
    assert removed == Removed(db.rows, desired) && added == Added(db.rows, desired);
    ApplyDetectorChanges(removed, added, db);
    ReconciledIsDesired(old(db.rows), set d | d in detectors);
  }
}
