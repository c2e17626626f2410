// The loop of the model updater, running while the API and the cluster act at any
// point, and proved to take only steps of the protocol.

module UpdaterLoop {
  import opened DeploymentRows
  import opened EdgeConfig
  import opened UpdaterProtocol
  import opened UpdaterSafety
  import opened UpdaterTurns

  /** The Kubernetes objects that the updater asks for. */
  class Cluster {
    var deployments: set<Key>
    var terminating: set<Key>
    var pods: set<Key>

    constructor ()
      ensures deployments == {} && terminating == {} && pods == {}
    {
      deployments, terminating, pods := {}, {}, {};
    }
  }

  /** The updater process. `start` and `steps` are the run so far, which only the proofs see. */
  class Updater {
    const db: Database
    const cluster: Cluster
    const separate: bool
    ghost const start: State
    ghost var pc: Pc
    ghost var steps: seq<Step>

    constructor (db: Database, cluster: Cluster, separate: bool)
      requires db.rows == map[] && cluster.deployments == {} && cluster.terminating == {} && cluster.pods == {}
      ensures this.db == db && this.cluster == cluster && this.separate == separate
      ensures start == Init(separate) && pc == Top && steps == [] && Tracks()
    {
      this.db := db;
      this.cluster := cluster;
      this.separate := separate;
      start := Init(separate);
      pc := Top;
      steps := [];
    }

    ghost function Now(): State
      reads this, db, cluster
    {
      State(db.rows, cluster.deployments, cluster.terminating, cluster.pods, pc, separate)
    }

    /** The objects are in a state that a run of the protocol has reached. The updater itself does not crash here. */
    ghost predicate Tracks()
      reads this, db, cluster
    {
      Valid(start, steps) && Run(start, steps) == Now() && start.separate == separate && Crash !in steps
    }

    /** Records a step that was just taken from the state `before`. */
    ghost method Took(before: State, st: Step)
      requires Valid(start, steps) && Run(start, steps) == before
      requires Enabled(before, st) && Now() == Do(before, st)
      requires start.separate == separate && Crash !in steps && st != Crash
      modifies this`steps
      ensures Tracks() && steps == old(steps) + [st]
    {
      Then(start, steps, st);
      steps := steps + [st];
    }

    /** Another process acts: a request to the API, or the cluster. */
    method Act(st: Step)
      requires Tracks()
      modifies this`steps, db, cluster
      ensures Tracks() && old(steps) <= steps && Quiet(steps, |old(steps)|)
    {
      ghost var s := Now();
      if st.Mark? {
        db.MarkPendingDeletion(st.d);
        Took(s, st);
      } else if st.Upsert? {
        db.CreateOrUpdate(st.k, st.pending);
        Took(s, st);
      } else if st.Vanish? && st.k in cluster.terminating {
        cluster.deployments, cluster.terminating := cluster.deployments - {st.k}, cluster.terminating - {st.k};
        Took(s, st);
      } else if st.PodStarts? && st.k in cluster.deployments {
        cluster.pods := cluster.pods + {st.k};
        Took(s, st);
      } else if st.PodStops? && st.k in cluster.pods {
        cluster.pods := cluster.pods - {st.k};
        Took(s, st);
      }
    }

    /** Whatever happens between two actions of the updater. */
    method Interfere()
      requires Tracks()
      modifies this`steps, db, cluster
      ensures Tracks() && old(steps) <= steps && Quiet(steps, |old(steps)|)
    {
      var n: int := *;
      while n > 0
        invariant Tracks() && old(steps) <= steps && Quiet(steps, |old(steps)|)
      {
        n := n - 1;
        var st: Step := *;
        Act(st);
      }
    }

    // ---- deletions ----

    /** Requests the deletion of one deployment; `rest` are those still to be requested. */
    method DeleteDeployment(k: Key)
      requires Tracks() && pc.Deleting? && k in pc.requests
      modifies this`steps, this`pc, db, cluster
      ensures Tracks() && old(steps) <= steps
      ensures k in cluster.deployments ==> k in cluster.terminating
      ensures var rest := old(pc).requests - {k};
              pc == if rest == {} then Polling(old(pc).snapshot, {}, {}) else Deleting(old(pc).snapshot, rest)
    {
      Interfere();
      ghost var s := Now();
      if k in cluster.deployments {
        cluster.terminating := cluster.terminating + {k};
      }
      pc := DoDeletion(s, k).pc;
      Took(s, RequestDeletion(k));
    }

    /** Where the updater is once only the deletions of these detectors are still to be requested. */
    ghost predicate StillToRequest(snapshot: set<Detector>, todo: set<Detector>)
      reads this
    {
      pc == if todo == {} then Polling(snapshot, {}, {}) else Deleting(snapshot, Own(separate, todo))
    }

    method RequestDeletions(snapshot: set<Detector>)
      requires Tracks() && snapshot != {} && StillToRequest(snapshot, snapshot)
      modifies this`steps, this`pc, db, cluster
      ensures Tracks() && old(steps) <= steps && pc == Polling(snapshot, {}, {})
    {
      var todo := snapshot;
      while todo != {}
        invariant Tracks() && old(steps) <= steps && StillToRequest(snapshot, todo)
        decreases |todo|
      {
        var d :| d in todo;
        OwnWithout(separate, todo, d);
        DeleteDeployment(Key(d, false));
        if separate {
          DeleteDeployment(Key(d, true));
        }
        todo := todo - {d};
      }
    }

    /** True if neither the deployment nor a pod of it is found; false if one of them is. */
    method IsFullyDeleted(k: Key) returns (gone: bool)
      requires Tracks() && pc.Polling? && k in Own(separate, pc.snapshot)
      modifies this`steps, this`pc, db, cluster
      ensures Tracks() && old(steps) <= steps && pc.Polling? && pc.snapshot == old(pc).snapshot && old(pc).gone <= pc.gone
      ensures if gone then k in pc.gone else k in cluster.deployments || k in cluster.pods
    {
      Interfere();
      if k in cluster.deployments {
        return false;
      }
      ghost var s := Now();
      pc := Polling(pc.snapshot, pc.absent + {k}, pc.gone);
      Took(s, PollDeployment(k));
      Interfere();
      if k in cluster.pods {
        return false;
      }
      s := Now();
      pc := Polling(pc.snapshot, pc.absent, pc.gone + {k});
      Took(s, PollPods(k));
      return true;
    }

    /** True if the deployments of the detector are fully deleted; otherwise `left` is one of which something is found. */
    method DetectorGone(d: Detector) returns (gone: bool, ghost left: Key)
      requires Tracks() && pc.Polling? && d in pc.snapshot
      modifies this`steps, this`pc, db, cluster
      ensures Tracks() && old(steps) <= steps && pc.Polling? && pc.snapshot == old(pc).snapshot && old(pc).gone <= pc.gone
      ensures gone ==> Own(separate, {d}) <= pc.gone
      ensures !gone ==> left in Own(separate, {d}) && (left in cluster.deployments || left in cluster.pods)
    {
      OwnOf(separate, {d}, Key(d, false));
      OwnOf(separate, {d}, Key(d, true));
      OwnOf(separate, pc.snapshot, Key(d, false));
      OwnOf(separate, pc.snapshot, Key(d, true));
      left := Key(d, false);
      gone := IsFullyDeleted(Key(d, false));
      if gone && separate {
        left := Key(d, true);
        gone := IsFullyDeleted(Key(d, true));
      }
    }

    /** One poll: true if every deployment of the snapshot is fully deleted; otherwise `left` is one of which something is found. */
    method AllFullyDeleted(snapshot: set<Detector>) returns (all: bool, ghost left: Key)
      requires Tracks() && pc.Polling? && pc.snapshot == snapshot
      modifies this`steps, this`pc, db, cluster
      ensures Tracks() && old(steps) <= steps && pc.Polling? && pc.snapshot == snapshot
      ensures all ==> Own(separate, snapshot) <= pc.gone
      ensures !all ==> left in Own(separate, snapshot) && (left in cluster.deployments || left in cluster.pods)
    {
      left := Key(0, false);
      var todo := snapshot;
      while todo != {}
        invariant Tracks() && old(steps) <= steps && pc.Polling? && pc.snapshot == snapshot && todo <= snapshot
        invariant Own(separate, snapshot - todo) <= pc.gone
        decreases |todo|
      {
        var d :| d in todo;
        OwnWith(separate, snapshot, todo, d);
        var gone;
        gone, left := DetectorGone(d);
        if !gone {
          return false, left;
        }
        todo := todo - {d};
      }
      assert snapshot - {} == snapshot;
      return true, left;
    }

    /** Polls until everything is gone or the time is up; then every poll, which ended at one of `found`, has found something. */
    method WaitForPods(snapshot: set<Detector>, polls: nat) returns (all: bool, ghost found: seq<nat>)
      requires Tracks() && pc.Polling? && pc.snapshot == snapshot
      modifies this`steps, this`pc, db, cluster
      ensures Tracks() && old(steps) <= steps && pc.Polling? && pc.snapshot == snapshot
      ensures all ==> Own(separate, snapshot) <= pc.gone
      ensures !all ==> |found| == polls && FoundEachTime(start, steps, |old(steps)|, found, Own(separate, snapshot))
    {
      found := [];
      for i := 0 to polls
        invariant Tracks() && old(steps) <= steps && pc.Polling? && pc.snapshot == snapshot
        invariant |found| == i && FoundEachTime(start, steps, |old(steps)|, found, Own(separate, snapshot))
      {
        ghost var before, left := steps, Key(0, false);
        all, left := AllFullyDeleted(snapshot);
        if all {
          return true, found;
        }
        ghost var s, was := Now(), steps;
        pc := Polling(snapshot, {}, {});
        Took(s, PollAgain);
        StillFound(start, before, was, |old(steps)|, found, Own(separate, snapshot));
        OneMoreFound(start, was, steps, |old(steps)|, found, Own(separate, snapshot), left);
        found := found + [|was|];
      }
      return false, found;
    }

    /** Removes the rows of one detector of the snapshot. */
    method RemoveRecord(d: Detector)
      requires Tracks() && pc.Removing? && d in pc.todo
      modifies this`steps, this`pc, db, cluster
      ensures Tracks() && old(steps) < steps && pc == Removing(old(pc).snapshot, old(pc).todo - {d})
      ensures steps[|steps| - 1] == RemoveRows(d) && !HasRow(db.rows, d)
    {
      Interfere();
      ghost var s := Now();
      db.DeleteRecords(d);
      pc := Removing(pc.snapshot, pc.todo - {d});
      Took(s, RemoveRows(d));
    }

    /** One detector of the snapshot after the other. */
    method RemoveEach(snapshot: set<Detector>)
      requires Tracks() && pc == Removing(snapshot, snapshot)
      modifies this`steps, this`pc, db, cluster
      ensures Tracks() && old(steps) <= steps && pc == Removing(snapshot, {})
      ensures AllRemoved(steps[|old(steps)|..], snapshot)
    {
      var todo := snapshot;
      while todo != {}
        invariant Tracks() && old(steps) <= steps && pc == Removing(snapshot, todo) && todo <= snapshot
        invariant AllRemoved(steps[|old(steps)|..], snapshot - todo)
        decreases |todo|
      {
        var d :| d in todo;
        ghost var was := steps;
        RemoveRecord(d);
        OneMoreRemoved(was, steps, |old(steps)|, snapshot - todo, d);
        OneMore(snapshot, todo, d);
        todo := todo - {d};
      }
      assert snapshot - {} == snapshot;
    }

    method RemoveRecords(snapshot: set<Detector>)
      requires Tracks() && pc == Removing(snapshot, snapshot)
      modifies this`steps, this`pc, db, cluster
      ensures Tracks() && old(steps) <= steps && pc == Listing
      ensures AllRemoved(steps[|old(steps)|..], snapshot)
    {
      RemoveEach(snapshot);
      ghost var s, was := Now(), steps;
      pc := Listing;
      Took(s, DoneRemoving);
      StillRemoved(was, steps, |old(steps)|, snapshot);
    }

    /** The detectors marked now, with the deletion of their deployments still to be requested. */
    method TakeMarked() returns (snapshot: set<Detector>, ghost at: nat)
      requires Tracks() && pc == Top
      modifies this`steps, this`pc, db, cluster
      ensures Tracks() && old(steps) <= steps && |old(steps)| <= at && TookAt(start, steps, at, TakeSnapshot)
      ensures snapshot == Pending(StateAt(start, steps, at).rows)
      ensures if snapshot == {} then pc == Listing else StillToRequest(snapshot, snapshot)
    {
      Interfere();
      ghost var s, was := Now(), steps;
      snapshot := db.GetPendingDeletions();
      pc := DoSnapshot(s).pc;
      at := |steps|;
      Took(s, TakeSnapshot);
      assert steps[..at] == was;
    }

    /**
     * Deletes what is marked when its snapshot is taken, at `at`: it requests the deletions and removes the rows,
     * unless every one of its polls, which ended at `found`, finds one of the deployments or a pod of it.
     */
    method ProcessDeletions(polls: nat) returns (ghost at: nat, ghost found: seq<nat>)
      requires Tracks() && pc == Top
      modifies this`steps, this`pc, db, cluster
      ensures Tracks() && pc == Listing && old(steps) <= steps && |old(steps)| <= at
      ensures Purged(start, steps, at, found, polls)
    {
      var snapshot;
      snapshot, at := TakeMarked();
      found := [];
      if snapshot == {} {
        return;
      }
      ghost var taken := steps;
      found := DeleteMarked(snapshot, polls, at);
      StillTook(start, taken, steps, at, TakeSnapshot);
    }

    /** Requests the deletions, waits for the pods, and removes the rows or gives up. */
    method DeleteMarked(snapshot: set<Detector>, polls: nat, ghost at: nat) returns (ghost found: seq<nat>)
      requires Tracks() && snapshot != {} && StillToRequest(snapshot, snapshot) && at <= |steps|
      modifies this`steps, this`pc, db, cluster
      ensures Tracks() && pc == Listing && old(steps) <= steps
      ensures AllRemoved(steps[at..], snapshot)
              || (|found| == polls && FoundEachTime(start, steps, at, found, Own(separate, snapshot)))
    {
      RequestDeletions(snapshot);
      var all;
      all, found := WaitForPods(snapshot, polls);
      ghost var s, was := Now(), steps;
      if all {
        pc := Removing(snapshot, snapshot);
        Took(s, AllGone);
        ghost var begun := steps;
        RemoveRecords(snapshot);
        LaterRemoved(steps, at, |begun|, snapshot);
      } else {
        pc := Listing;
        Took(s, TimeOut);
        StillFound(start, was, steps, at, found, Own(separate, snapshot));
      }
    }

    // ---- creations ----

    /** Creates a deployment unless it is found. */
    method CreateDeployment(k: Key)
      requires Tracks() && pc.Creating? && k == Key(pc.d, pc.oodd)
      modifies this`steps, this`pc, db, cluster
      ensures Tracks() && old(steps) <= steps && pc == DoCreate(old(Now())).pc && Quiet(steps, |old(steps)|)
      ensures k in cluster.deployments && DeployedSince(start, steps, |old(steps)|, k)
    {
      Interfere();
      ghost var s := Now();
      if k !in cluster.deployments {
        cluster.deployments := cluster.deployments + {k};
      }
      pc := DoCreate(s).pc;
      Took(s, CreateIfMissing);
      assert steps[..|steps|] == steps;
    }

    /** Records that the deployments of a detector exist. */
    method RecordCreated(d: Detector)
      requires Tracks() && pc.Finishing? && pc.d == d
      modifies this`steps, this`pc, db, cluster
      ensures Tracks() && old(steps) <= steps && pc == Checking(old(pc).todo, old(pc).baseline)
      ensures RecordedSince(start, steps, |old(steps)|, d) && NoCheckSince(steps, |old(steps)|)
      ensures forall k | k in Own(separate, {d}) && k in db.rows :: db.rows[k].created
    {
      Interfere();
      ghost var s, was := Now(), steps;
      db.UpdateCreated(Key(d, false), true);
      if separate {
        db.UpdateCreated(Key(d, true), true);
      }
      pc := Checking(pc.todo, pc.baseline);
      Took(s, Record);
      assert steps[..|was|] == was;
      assert TookAt(start, steps, |was|, Record);
    }

    /** Creates the deployments of a detector, as far as the fault allows. */
    method CreateDeployments(d: Detector, fault: Fault)
      requires Tracks() && pc.Creating? && pc.d == d && !pc.oodd
      modifies this`steps, this`pc, db, cluster
      ensures Tracks() && old(steps) <= steps && Quiet(steps, |old(steps)|)
      ensures (pc.Creating? || pc.Finishing?) && pc.todo == old(pc).todo && pc.baseline == old(pc).baseline && pc.d == d
      ensures fault.AfterCreation? || fault.NoFault? ==> pc.Finishing?
      ensures !fault.BeforePrimary? ==> DeployedSince(start, steps, |old(steps)|, Key(d, false))
      ensures separate && (fault.AfterCreation? || fault.NoFault?) ==> DeployedSince(start, steps, |old(steps)|, Key(d, true))
    {
      if fault.BeforePrimary? {
        return;
      }
      CreateDeployment(Key(d, false));
      if separate && !fault.BeforeOodd? {
        ghost var was := steps;
        CreateDeployment(Key(d, true));
        StillDeployed(start, was, steps, |old(steps)|, |old(steps)|, Key(d, false));
        StillDeployed(start, steps, steps, |was|, |old(steps)|, Key(d, true));
      }
    }

    /** Brings one detector up. A rollout that is not complete, or an error, leaves it unrecorded. */
    method CheckDetector(d: Detector, fault: Fault)
      requires Tracks() && pc.Checking? && d in pc.todo
      modifies this`steps, this`pc, db, cluster
      ensures Tracks() && pc == Checking(old(pc).todo - {d}, old(pc).baseline)
      ensures old(steps) < steps && steps[|old(steps)|] == Step.Check(d)
      ensures BroughtUp(start, steps, |old(steps)|, d, fault)
      ensures if fault.NoFault? then forall k | k in Own(separate, {d}) && k in db.rows :: db.rows[k].created
              else Record !in steps[|old(steps)|..]
      ensures NoCheckSince(steps, |old(steps)| + 1)
    {
      ghost var s := Now();
      pc := Creating(d, false, pc.todo - {d}, pc.baseline);
      Took(s, Check(d));
      ghost var looked := steps;
      CreateDeployments(d, fault);
      ghost var was := steps;
      if fault.NoFault? {
        RecordCreated(d);
      } else {
        Skip();
      }
      UpThen(start, looked, was, steps, |old(steps)|, d, fault);
    }

    ghost method Skip()
      requires Tracks() && (pc.Creating? || pc.Finishing?)
      modifies this`steps, this`pc
      ensures Tracks() && old(steps) <= steps && Quiet(steps, |old(steps)|) && pc == Checking(old(pc).todo, old(pc).baseline)
    {
      var s := Now();
      pc := Checking(pc.todo, pc.baseline);
      Took(s, SkipDetector);
    }

    /** Brings one of the listed detectors up, and looks whether the configuration has changed. */
    method CheckNext(d: Detector, todo: set<Detector>, baseline: set<Detector>, faults: Detector -> Fault, ghost at: nat)
      returns (changed: bool)
      requires Tracks() && d in todo && todo <= baseline && pc == Checking(todo, baseline) && at <= |steps|
      requires AllBroughtUp(start, steps, at, baseline - todo, faults)
      requires OnlyWhileUnchanged(start, steps, at, baseline)
      requires |steps| == at + 1 || (Pending(db.rows) == {} && Active(db.rows) == baseline)
      modifies this`steps, this`pc, db, cluster
      ensures Tracks() && pc == Checking(todo - {d}, baseline) && old(steps) <= steps
      ensures AllBroughtUp(start, steps, at, baseline - (todo - {d}), faults)
      ensures OnlyWhileUnchanged(start, steps, at, baseline)
      ensures changed <==> Pending(db.rows) != {} || Active(db.rows) != baseline
    {
      ghost var was := steps;
      CheckDetector(d, faults(d));
      CheckedUnchanged(start, was, steps, at, baseline);
      OneMoreUp(start, was, steps, at, baseline - todo, d, faults);
      OneMore(baseline, todo, d);
      ghost var up := steps;
      Interfere();
      StillAllUp(start, up, steps, at, baseline - (todo - {d}), faults);
      StillUnchanged(start, up, steps, at, baseline);
      var pending := db.GetPendingDeletions();
      var active := db.GetActive();
      changed := pending != {} || active != baseline;
    }

    /** Lists the active detectors. */
    method ListActive() returns (baseline: set<Detector>, ghost at: nat)
      requires Tracks() && pc == Listing
      modifies this`steps, this`pc, db, cluster
      ensures Tracks() && pc == Checking(baseline, baseline) && old(steps) <= steps && |old(steps)| <= at
      ensures TookAt(start, steps, at, List) && |steps| == at + 1 && baseline == Active(StateAt(start, steps, at).rows)
    {
      Interfere();
      ghost var s, was := Now(), steps;
      baseline := db.GetActive();
      pc := Checking(baseline, baseline);
      at := |steps|;
      Took(s, List);
      assert steps[..at] == was;
    }

    /** The loop over the listed detectors: it ends with all of them looked at, or with a change. */
    method CheckListed(baseline: set<Detector>, faults: Detector -> Fault, ghost at: nat)
      requires Tracks() && pc == Checking(baseline, baseline) && |steps| == at + 1
      modifies this`steps, this`pc, db, cluster
      ensures Tracks() && pc.Checking? && pc.baseline == baseline && old(steps) <= steps
      ensures OnlyWhileUnchanged(start, steps, at, baseline)
      ensures AllBroughtUp(start, steps, at, baseline, faults) || Pending(db.rows) != {} || Active(db.rows) != baseline
      ensures pc.todo == {} || Pending(db.rows) != {} || Active(db.rows) != baseline
    {
      var todo, changed := baseline, false;
      while todo != {} && !changed
        invariant Tracks() && pc == Checking(todo, baseline) && todo <= baseline && old(steps) <= steps
        invariant AllBroughtUp(start, steps, at, baseline - todo, faults) && OnlyWhileUnchanged(start, steps, at, baseline)
        invariant if changed then Pending(db.rows) != {} || Active(db.rows) != baseline
                  else |steps| == at + 1 || (Pending(db.rows) == {} && Active(db.rows) == baseline)
        decreases |todo|
      {
        var d :| d in todo;
        changed := CheckNext(d, todo, baseline, faults, at);
        todo := todo - {d};
      }
      assert todo == {} ==> baseline - todo == baseline;
    }

    /**
     * Brings up every active detector, until the configuration changes: each of those listed at `at` is brought
     * up as far as its faults allow, or in the end a detector is marked or the listed ones are not those that are active. It
     * goes on to another detector only as long as nothing has changed.
     */
    method CheckDetectors(faults: Detector -> Fault) returns (ghost at: nat)
      requires Tracks() && pc == Listing
      modifies this`steps, this`pc, db, cluster
      ensures Tracks() && pc == Waiting && old(steps) <= steps && |old(steps)| <= at
      ensures Created(start, steps, at, faults)
    {
      var baseline;
      baseline, at := ListActive();
      ghost var listed := steps;
      CheckListed(baseline, faults, at);
      ghost var s, was := Now(), steps;
      pc := Waiting;
      Took(s, BreakOff);
      StillTook(start, listed, steps, at, List);
      StillUnchanged(start, was, steps, at, baseline);
      if AllBroughtUp(start, was, at, baseline, faults) {
        StillAllUp(start, was, steps, at, baseline, faults);
      }
    }

    // ---- the status in the database ----

    method RefreshOne(k: Key)
      requires Tracks() && pc.Refreshing? && k in pc.left
      modifies this`steps, this`pc, db, cluster
      ensures Tracks() && pc == Refreshing(old(pc).left - {k})
      ensures old(steps) < steps && Refresh(k) in steps[|old(steps)|..]
      ensures k in db.rows ==> db.rows[k].created == (k in cluster.deployments)
    {
      Interfere();
      ghost var s := Now();
      db.UpdateCreated(k, k in cluster.deployments);
      pc := Refreshing(pc.left - {k});
      ghost var now := |steps|;
      Took(s, Refresh(k));
      assert steps[|old(steps)|..][now - |old(steps)|] == Refresh(k);
    }

    /** Both deployments of one detector, or its only one. */
    method RefreshDetector(d: Detector, ghost todo: set<Detector>)
      requires Tracks() && d in todo && pc == Refreshing(Own(separate, todo))
      modifies this`steps, this`pc, db, cluster
      ensures Tracks() && pc == Refreshing(Own(separate, todo - {d}))
      ensures old(steps) < steps && AllRefreshed(steps[|old(steps)|..], Own(separate, {d}))
    {
      OwnWithout(separate, todo, d);
      ghost var was := steps;
      RefreshOne(Key(d, false));
      if separate {
        ghost var first := steps;
        RefreshOne(Key(d, true));
        StillIn(first, steps, |was|, Refresh(Key(d, false)));
        LaterIn(steps, |was|, |first|, Refresh(Key(d, true)));
      }
    }

    method RefreshAll(all: set<Detector>)
      requires Tracks() && pc == Refreshing(Own(separate, all))
      modifies this`steps, this`pc, db, cluster
      ensures Tracks() && pc.Refreshing? && pc.left == {}
      ensures old(steps) <= steps && AllRefreshed(steps[|old(steps)|..], Own(separate, all))
    {
      var todo := all;
      ghost var before := steps;
      while todo != {}
        invariant Tracks() && pc == Refreshing(Own(separate, todo)) && todo <= all
        invariant before <= steps && AllRefreshed(steps[|before|..], Own(separate, all - todo))
        decreases |todo|
      {
        var d :| d in todo;
        ghost var was := steps;
        RefreshDetector(d, todo);
        OneMoreRefreshed(before, was, steps, separate, all, todo, d);
        todo := todo - {d};
      }
      assert all - {} == all;
    }

    /** The detectors that have a row now. */
    method StartStatus() returns (detectors: set<Detector>, ghost at: nat)
      requires Tracks() && pc == Waiting
      modifies this`steps, this`pc, db, cluster
      ensures Tracks() && pc == Refreshing(Own(separate, detectors)) && old(steps) <= steps && |old(steps)| <= at
      ensures TookAt(start, steps, at, StartRefresh) && detectors == Detectors(StateAt(start, steps, at).rows)
    {
      Interfere();
      ghost var s, before := Now(), steps;
      detectors := set k | k in db.rows :: k.detector;
      pc := Refreshing(Own(separate, detectors));
      at := |steps|;
      Took(s, StartRefresh);
      assert steps[..at] == before;
    }

    /**
     * Records whether its deployment is found: for both deployments of every detector that has a row when
     * the refresh starts, at `at`.
     */
    method RefreshStatus() returns (ghost at: nat)
      requires Tracks() && pc == Waiting
      modifies this`steps, this`pc, db, cluster
      ensures Tracks() && pc == Top && old(steps) <= steps && |old(steps)| <= at && StatusTaken(start, steps, at)
    {
      var detectors;
      detectors, at := StartStatus();
      ghost var begun := steps;
      RefreshAll(detectors);
      LaterRefreshed(steps, at, |begun|, Own(separate, detectors));
      ghost var was := steps;
      ghost var s := Now();
      pc := Top;
      Took(s, DoneRefreshing);
      StillRefreshed(was, steps, at, Own(separate, detectors));
      StillTook(start, begun, steps, at, StartRefresh);
      RefreshedIsTaken(start, steps, at);
    }

    /** One turn of the loop: the deletion phase, the creation phase and the refresh of the status. */
    method OneTurn(polls: nat, faults: Detector -> Fault) returns (ghost turn: Turn)
      requires Tracks() && pc == Top
      modifies this`steps, this`pc, db, cluster
      ensures Tracks() && pc == Top && old(steps) <= steps
      ensures TookTurn(start, steps, turn, polls, faults) && turn.begin == |old(steps)| && turn.end == |steps|
    {
      ghost var snapshot, found := ProcessDeletions(polls);
      ghost var deleted := steps;
      ghost var list := CheckDetectors(faults);
      ghost var created := steps;
      ghost var refresh := RefreshStatus();
      turn := Turn(|old(steps)|, snapshot, found, |deleted|, list, |created|, refresh, |steps|);
      assert steps[..|deleted|] == deleted && steps[..|created|] == created && steps[..|steps|] == steps;
    }

    /** One turn after the others. */
    method NextTurn(turns: seq<Detector -> Fault>, i: nat, polls: nat, ghost marks: seq<Turn>) returns (ghost marks': seq<Turn>)
      requires Tracks() && pc == Top && i == |marks| < |turns| && TookTurns(start, steps, marks, polls, turns)
      modifies this`steps, this`pc, db, cluster
      ensures Tracks() && pc == Top && |marks'| == i + 1 && TookTurns(start, steps, marks', polls, turns)
    {
      ghost var was := steps;
      ghost var turn := OneTurn(polls, turns[i]);
      OneMoreTurn(start, was, steps, marks, turn, polls, turns);
      marks' := marks + [turn];
    }

    /**
     * Any number of turns of the updater's loop, with anything happening in between: turn i meets the faults
     * turns[i] and went through its three phases as marks[i] says. All of it is a run of the protocol, so in the
     * end no deployment and no pod is without a row.
     */
    method ManageUpdateModels(turns: seq<Detector -> Fault>, polls: nat) returns (ghost marks: seq<Turn>)
      requires Tracks() && pc == Top && Inv(start)
      modifies this`steps, this`pc, db, cluster
      ensures Tracks() && pc == Top && NoOrphan(Now())
      ensures |marks| == |turns| && TookTurns(start, steps, marks, polls, turns)
    {
      marks := [];
      for i := 0 to |turns|
        invariant Tracks() && pc == Top && |marks| == i && TookTurns(start, steps, marks, polls, turns)
      {
        marks := NextTurn(turns, i, polls, marks);
      }
      InvRun(start, steps);
    }
  }

  lemma OneMore(all: set<Detector>, todo: set<Detector>, d: Detector)
    requires d in todo && todo <= all
    ensures all - (todo - {d}) == (all - todo) + {d}
  {
  }

  /** What was brought up after the detector was looked at counts from then on. */
  lemma UpThen(start: State, looked: seq<Step>, was: seq<Step>, steps: seq<Step>, since: nat, d: Detector, fault: Fault)
    requires since <= |looked| <= |was| && was <= steps
    requires !fault.BeforePrimary? ==> DeployedSince(start, was, |looked|, Key(d, false))
    requires start.separate && (fault.AfterCreation? || fault.NoFault?) ==> DeployedSince(start, was, |looked|, Key(d, true))
    requires fault.NoFault? ==> RecordedSince(start, steps, |was|, d)
    ensures BroughtUp(start, steps, since, d, fault)
  {
    if !fault.BeforePrimary? {
      StillDeployed(start, was, steps, |looked|, since, Key(d, false));
    }
    if start.separate && (fault.AfterCreation? || fault.NoFault?) {
      StillDeployed(start, was, steps, |looked|, since, Key(d, true));
    }
    if fault.NoFault? {
      StillRecorded(start, steps, steps, |was|, since, d);
    }
  }

  lemma OwnWithout(separate: bool, todo: set<Detector>, d: Detector)
    requires d in todo
    ensures Key(d, false) in Own(separate, todo) && (separate ==> Key(d, true) in Own(separate, todo))
    ensures Own(separate, todo - {d}) ==
            if separate then Own(separate, todo) - {Key(d, false)} - {Key(d, true)} else Own(separate, todo) - {Key(d, false)}
    ensures separate ==> Key(d, true) in Own(separate, todo) - {Key(d, false)}
    ensures Own(separate, todo - {d}) == {} <==> todo - {d} == {}
  {
    assert todo - {d} != {} ==> Own(separate, todo - {d}) != {} by {
      if e :| e in todo - {d} {
        assert Key(e, false) in Own(separate, todo - {d});
      }
    }
  }

  lemma OwnWith(separate: bool, snapshot: set<Detector>, todo: set<Detector>, d: Detector)
    requires d in todo && todo <= snapshot
    ensures Own(separate, snapshot - (todo - {d})) == Own(separate, snapshot - todo) + Own(separate, {d})
    ensures Own(separate, {d}) <= Own(separate, snapshot)
  {
    assert snapshot - (todo - {d}) == (snapshot - todo) + {d};
  }
}
