// What one turn of the updater's loop did, read off the steps of a run: which steps it took
// and what they found.

module UpdaterTurns {
  import opened DeploymentRows
  import opened UpdaterProtocol

  /** Where bringing up a detector fails, if it does. A rollout that is not complete counts as a failure at the end. */
  datatype Fault = NoFault | BeforePrimary | BeforeOodd | AfterCreation

  /** The state in which the step at `at` was taken. */
  ghost function StateAt(start: State, steps: seq<Step>, at: nat): State
    requires at <= |steps| && Valid(start, steps[..at])
  {
    Run(start, steps[..at])
  }

  /** The step at `at` was this one. */
  ghost predicate TookAt(start: State, steps: seq<Step>, at: nat, st: Step) {
    at < |steps| && steps[at] == st && Valid(start, steps[..at])
  }

  /** No detector was looked at since. */
  ghost predicate NoCheckSince(steps: seq<Step>, since: nat) {
    forall i | since <= i < |steps| :: !steps[i].Check?
  }

  /** Neither was anything recorded. */
  ghost predicate Quiet(steps: seq<Step>, since: nat) {
    NoCheckSince(steps, since) && forall i | since <= i < |steps| :: !steps[i].Record?
  }

  // ---- deletions ----

  /** When the step at `at` ended a poll, some of these deployments, or pods of them, were there. */
  ghost predicate Found(start: State, steps: seq<Step>, at: nat, keys: set<Key>) {
    TookAt(start, steps, at, PollAgain)
    && exists k :: k in keys && (k in StateAt(start, steps, at).deployments || k in StateAt(start, steps, at).pods)
  }

  /** One poll after the other ended like that. */
  ghost predicate FoundEachTime(start: State, steps: seq<Step>, since: nat, found: seq<nat>, keys: set<Key>) {
    && (forall i | 0 <= i < |found| :: since <= found[i] && Found(start, steps, found[i], keys))
    && (forall i, j | 0 <= i < j < |found| :: found[i] < found[j])
  }

  /** The rows of all these detectors were removed. */
  ghost predicate AllRemoved(since: seq<Step>, ds: set<Detector>) {
    forall d | d in ds :: RemoveRows(d) in since
  }

  /** The deletion phase that took its snapshot at `at` removed the rows of all of it, or found something in every poll. */
  ghost predicate Purged(start: State, steps: seq<Step>, at: nat, found: seq<nat>, polls: nat) {
    TookAt(start, steps, at, TakeSnapshot)
    && var snapshot := Pending(StateAt(start, steps, at).rows);
       || AllRemoved(steps[at..], snapshot)
       || (|found| == polls && FoundEachTime(start, steps, at, found, Own(start.separate, snapshot)))
  }

  // ---- creations ----

  /** The deployment was there at some time since. */
  ghost predicate DeployedSince(start: State, steps: seq<Step>, since: nat, k: Key) {
    exists at :: since <= at <= |steps| && Valid(start, steps[..at]) && k in StateAt(start, steps, at).deployments
  }

  /** It was recorded of the detector that its deployments exist. */
  ghost predicate RecordedSince(start: State, steps: seq<Step>, since: nat, d: Detector) {
    exists at :: since <= at && TookAt(start, steps, at, Record)
                 && StateAt(start, steps, at).pc.Finishing? && StateAt(start, steps, at).pc.d == d
  }

  /** The detector was brought up, as far as the fault allows. */
  ghost predicate BroughtUp(start: State, steps: seq<Step>, since: nat, d: Detector, fault: Fault) {
    && (!fault.BeforePrimary? ==> DeployedSince(start, steps, since, Key(d, false)))
    && (start.separate && (fault.AfterCreation? || fault.NoFault?) ==> DeployedSince(start, steps, since, Key(d, true)))
    && (fault.NoFault? ==> RecordedSince(start, steps, since, d))
  }

  ghost predicate AllBroughtUp(start: State, steps: seq<Step>, since: nat, ds: set<Detector>, faults: Detector -> Fault) {
    since <= |steps| && forall d | d in ds :: Step.Check(d) in steps[since..] && BroughtUp(start, steps, since, d, faults(d))
  }

  /** When the step at `i` was taken, no detector was marked and the active ones were still those listed. */
  ghost predicate UnchangedAt(start: State, steps: seq<Step>, i: nat, listed: set<Detector>) {
    i <= |steps| && Valid(start, steps[..i])
    && Pending(StateAt(start, steps, i).rows) == {} && Active(StateAt(start, steps, i).rows) == listed
  }

  /** After those listed at `at`, but for the first, detectors were looked at only while nothing had changed. */
  ghost predicate OnlyWhileUnchanged(start: State, steps: seq<Step>, at: nat, listed: set<Detector>) {
    forall i | at + 1 < i < |steps| && steps[i].Check? :: UnchangedAt(start, steps, i, listed)
  }

  /**
   * The creation phase that listed the active detectors at `at` has brought up each of them, or in the end a
   * detector is marked, or others are active; it has gone on only as long as nothing had changed.
   */
  ghost predicate Created(start: State, steps: seq<Step>, at: nat, faults: Detector -> Fault) {
    TookAt(start, steps, at, List) && Valid(start, steps)
    && var listed, rows := Active(StateAt(start, steps, at).rows), Run(start, steps).rows;
       && (AllBroughtUp(start, steps, at, listed, faults) || Pending(rows) != {} || Active(rows) != listed)
       && OnlyWhileUnchanged(start, steps, at, listed)
  }

  // ---- status ----

  /** Every one of these deployments had its status recorded. */
  ghost predicate AllRefreshed(since: seq<Step>, keys: set<Key>) {
    forall k | k in keys :: Refresh(k) in since
  }

  /** Both deployments of every detector that had a row at `at`, or its only one, had their status recorded. */
  ghost predicate StatusTaken(start: State, steps: seq<Step>, at: nat) {
    TookAt(start, steps, at, StartRefresh)
    && forall k: Key | HasRow(StateAt(start, steps, at).rows, k.detector) && (k.oodd ==> start.separate) :: Refresh(k) in steps[at..]
  }

  lemma RefreshedIsTaken(start: State, steps: seq<Step>, at: nat)
    requires TookAt(start, steps, at, StartRefresh)
    requires AllRefreshed(steps[at..], Own(start.separate, Detectors(StateAt(start, steps, at).rows)))
    ensures StatusTaken(start, steps, at)
  {
    var rows := StateAt(start, steps, at).rows;
    forall k: Key | HasRow(rows, k.detector) && (k.oodd ==> start.separate)
      ensures k in Own(start.separate, Detectors(rows))
    {
      assert Key(k.detector, false) in rows || Key(k.detector, true) in rows;
      assert k.detector in Detectors(rows);
    }
  }

  // ---- a turn ----

  /** Where a turn began, took its snapshot, listed, refreshed, and where its phases ended. */
  datatype Turn = Turn(begin: nat, snapshot: nat, found: seq<nat>, deleted: nat, list: nat, created: nat, refresh: nat, end: nat)

  /** The turn went through its three phases, in this order. */
  ghost predicate TookTurn(start: State, steps: seq<Step>, t: Turn, polls: nat, faults: Detector -> Fault) {
    && t.begin <= t.snapshot < t.deleted <= t.list < t.created <= t.refresh < t.end <= |steps|
    && Purged(start, steps[..t.deleted], t.snapshot, t.found, polls)
    && Created(start, steps[..t.created], t.list, faults)
    && StatusTaken(start, steps[..t.end], t.refresh)
  }

  /** Each of the turns was taken within these steps. */
  ghost predicate AllTaken(start: State, steps: seq<Step>, marks: seq<Turn>, polls: nat, turns: seq<Detector -> Fault>) {
    |marks| <= |turns| && forall i | 0 <= i < |marks| :: TookTurn(start, steps, marks[i], polls, turns[i])
  }

  /** These turns, one right after the other, up to the end of the steps. */
  ghost predicate TookTurns(start: State, steps: seq<Step>, marks: seq<Turn>, polls: nat, turns: seq<Detector -> Fault>) {
    && AllTaken(start, steps, marks, polls, turns) && (marks != [] ==> marks[|marks| - 1].end == |steps|)
    && (forall i | 0 < i < |marks| :: marks[i].begin == marks[i - 1].end)
  }

  // ---- what was taken stays taken ----

  lemma SamePrefix(was: seq<Step>, steps: seq<Step>, at: nat)
    requires was <= steps && at <= |was|
    ensures steps[..at] == was[..at] && (at < |was| ==> steps[at] == was[at])
  {
  }

  lemma StillIn(was: seq<Step>, steps: seq<Step>, at: nat, st: Step)
    requires was <= steps && at <= |was| && st in was[at..]
    ensures st in steps[at..]
  {
    var i :| 0 <= i < |was[at..]| && was[at..][i] == st;
    assert steps[at..][i] == st;
  }

  lemma LaterIn(steps: seq<Step>, at: nat, later: nat, st: Step)
    requires at <= later <= |steps| && st in steps[later..]
    ensures st in steps[at..]
  {
    var i :| 0 <= i < |steps[later..]| && steps[later..][i] == st;
    assert steps[at..][i + later - at] == st;
  }

  lemma StillTook(start: State, was: seq<Step>, steps: seq<Step>, at: nat, st: Step)
    requires was <= steps && TookAt(start, was, at, st)
    ensures TookAt(start, steps, at, st) && StateAt(start, steps, at) == StateAt(start, was, at)
  {
    SamePrefix(was, steps, at);
  }

  lemma StillFound(start: State, was: seq<Step>, steps: seq<Step>, since: nat, found: seq<nat>, keys: set<Key>)
    requires was <= steps && FoundEachTime(start, was, since, found, keys)
    ensures FoundEachTime(start, steps, since, found, keys)
  {
    forall i | 0 <= i < |found|
      ensures since <= found[i] && Found(start, steps, found[i], keys)
    {
      StillTook(start, was, steps, found[i], PollAgain);
    }
  }

  /** One more poll, at the end of `was`, found something. */
  lemma OneMoreFound(start: State, was: seq<Step>, steps: seq<Step>, since: nat, found: seq<nat>, keys: set<Key>, k: Key)
    requires FoundEachTime(start, was, since, found, keys) && steps == was + [PollAgain] && since <= |was|
    requires Valid(start, was) && k in keys && (k in Run(start, was).deployments || k in Run(start, was).pods)
    ensures FoundEachTime(start, steps, since, found + [|was|], keys)
  {
    StillFound(start, was, steps, since, found, keys);
    assert steps[..|was|] == was;
    assert Found(start, steps, |was|, keys);
  }

  lemma StillRemoved(was: seq<Step>, steps: seq<Step>, at: nat, ds: set<Detector>)
    requires was <= steps && at <= |was| && AllRemoved(was[at..], ds)
    ensures AllRemoved(steps[at..], ds)
  {
    forall d | d in ds
      ensures RemoveRows(d) in steps[at..]
    {
      StillIn(was, steps, at, RemoveRows(d));
    }
  }

  lemma LaterRemoved(steps: seq<Step>, at: nat, later: nat, ds: set<Detector>)
    requires at <= later <= |steps| && AllRemoved(steps[later..], ds)
    ensures AllRemoved(steps[at..], ds)
  {
    forall d | d in ds
      ensures RemoveRows(d) in steps[at..]
    {
      LaterIn(steps, at, later, RemoveRows(d));
    }
  }

  lemma OneMoreRemoved(was: seq<Step>, steps: seq<Step>, at: nat, ds: set<Detector>, d: Detector)
    requires was <= steps && at <= |was| < |steps| && AllRemoved(was[at..], ds) && steps[|steps| - 1] == RemoveRows(d)
    ensures AllRemoved(steps[at..], ds + {d})
  {
    StillRemoved(was, steps, at, ds);
    assert steps[at..][|steps| - 1 - at] == RemoveRows(d);
  }

  lemma StillDeployed(start: State, was: seq<Step>, steps: seq<Step>, at: nat, since: nat, k: Key)
    requires was <= steps && since <= at && DeployedSince(start, was, at, k)
    ensures DeployedSince(start, steps, since, k)
  {
    var p: nat :| at <= p <= |was| && Valid(start, was[..p]) && k in StateAt(start, was, p).deployments;
    SamePrefix(was, steps, p);
    assert Valid(start, steps[..p]) && k in StateAt(start, steps, p).deployments;
  }

  lemma StillRecorded(start: State, was: seq<Step>, steps: seq<Step>, at: nat, since: nat, d: Detector)
    requires was <= steps && since <= at && RecordedSince(start, was, at, d)
    ensures RecordedSince(start, steps, since, d)
  {
    var p: nat :| at <= p && TookAt(start, was, p, Record) && StateAt(start, was, p).pc.Finishing? && StateAt(start, was, p).pc.d == d;
    StillTook(start, was, steps, p, Record);
  }

  lemma StillUp(start: State, was: seq<Step>, steps: seq<Step>, at: nat, since: nat, d: Detector, fault: Fault)
    requires was <= steps && since <= at && BroughtUp(start, was, at, d, fault)
    ensures BroughtUp(start, steps, since, d, fault)
  {
    if !fault.BeforePrimary? {
      StillDeployed(start, was, steps, at, since, Key(d, false));
    }
    if start.separate && (fault.AfterCreation? || fault.NoFault?) {
      StillDeployed(start, was, steps, at, since, Key(d, true));
    }
    if fault.NoFault? {
      StillRecorded(start, was, steps, at, since, d);
    }
  }

  lemma StillAllUp(start: State, was: seq<Step>, steps: seq<Step>, at: nat, ds: set<Detector>, faults: Detector -> Fault)
    requires was <= steps && at <= |was| && AllBroughtUp(start, was, at, ds, faults)
    ensures AllBroughtUp(start, steps, at, ds, faults)
  {
    forall d | d in ds
      ensures Step.Check(d) in steps[at..] && BroughtUp(start, steps, at, d, faults(d))
    {
      StillIn(was, steps, at, Step.Check(d));
      StillUp(start, was, steps, at, at, d, faults(d));
    }
  }

  lemma OneMoreUp(start: State, was: seq<Step>, steps: seq<Step>, at: nat, ds: set<Detector>, d: Detector, faults: Detector -> Fault)
    requires was < steps && at <= |was| && AllBroughtUp(start, was, at, ds, faults)
    requires steps[|was|] == Step.Check(d) && BroughtUp(start, steps, |was|, d, faults(d))
    ensures AllBroughtUp(start, steps, at, ds + {d}, faults)
  {
    StillAllUp(start, was, steps, at, ds, faults);
    assert steps[at..][|was| - at] == Step.Check(d);
    StillUp(start, steps, steps, |was|, at, d, faults(d));
  }

  lemma AlsoUnchanged(start: State, was: seq<Step>, steps: seq<Step>, i: nat, listed: set<Detector>)
    requires was <= steps && i <= |was| && UnchangedAt(start, was, i, listed)
    ensures UnchangedAt(start, steps, i, listed)
  {
    SamePrefix(was, steps, i);
  }

  lemma StillUnchanged(start: State, was: seq<Step>, steps: seq<Step>, at: nat, listed: set<Detector>)
    requires was <= steps && OnlyWhileUnchanged(start, was, at, listed) && NoCheckSince(steps, |was|)
    ensures OnlyWhileUnchanged(start, steps, at, listed)
  {
    forall i | at + 1 < i < |steps| && steps[i].Check?
      ensures UnchangedAt(start, steps, i, listed)
    {
      AlsoUnchanged(start, was, steps, i, listed);
    }
  }

  /** One more detector was looked at, right after the list or with nothing changed. */
  lemma CheckedUnchanged(start: State, was: seq<Step>, steps: seq<Step>, at: nat, listed: set<Detector>)
    requires was < steps && OnlyWhileUnchanged(start, was, at, listed) && NoCheckSince(steps, |was| + 1)
    requires |was| == at + 1
             || (Valid(start, was) && Pending(Run(start, was).rows) == {} && Active(Run(start, was).rows) == listed)
    ensures OnlyWhileUnchanged(start, steps, at, listed)
  {
    forall i | at + 1 < i < |steps| && steps[i].Check?
      ensures UnchangedAt(start, steps, i, listed)
    {
      assert i <= |was|;
      if i == |was| {
        assert was[..i] == was;
      }
      AlsoUnchanged(start, was, steps, i, listed);
    }
  }

  lemma StillRefreshed(was: seq<Step>, steps: seq<Step>, at: nat, keys: set<Key>)
    requires was <= steps && at <= |was| && AllRefreshed(was[at..], keys)
    ensures AllRefreshed(steps[at..], keys)
  {
    forall k | k in keys
      ensures Refresh(k) in steps[at..]
    {
      StillIn(was, steps, at, Refresh(k));
    }
  }

  lemma LaterRefreshed(steps: seq<Step>, at: nat, later: nat, keys: set<Key>)
    requires at <= later <= |steps| && AllRefreshed(steps[later..], keys)
    ensures AllRefreshed(steps[at..], keys)
  {
    forall k | k in keys
      ensures Refresh(k) in steps[at..]
    {
      LaterIn(steps, at, later, Refresh(k));
    }
  }

  lemma OneMoreRefreshed(before: seq<Step>, was: seq<Step>, steps: seq<Step>, separate: bool, all: set<Detector>,
                         todo: set<Detector>, d: Detector)
    requires before <= was < steps && AllRefreshed(was[|before|..], Own(separate, all - todo))
    requires d in todo && todo <= all && AllRefreshed(steps[|was|..], Own(separate, {d}))
    ensures AllRefreshed(steps[|before|..], Own(separate, all - (todo - {d})))
  {
    StillRefreshed(was, steps, |before|, Own(separate, all - todo));
    LaterRefreshed(steps, |before|, |was|, Own(separate, {d}));
    assert all - (todo - {d}) == (all - todo) + {d};
    assert Own(separate, all - (todo - {d})) == Own(separate, all - todo) + Own(separate, {d});
  }

  lemma StillTurn(start: State, was: seq<Step>, steps: seq<Step>, t: Turn, polls: nat, faults: Detector -> Fault)
    requires was <= steps && TookTurn(start, was, t, polls, faults)
    ensures TookTurn(start, steps, t, polls, faults)
  {
    SamePrefix(was, steps, t.deleted);
    SamePrefix(was, steps, t.created);
    SamePrefix(was, steps, t.end);
  }

  lemma StillTaken(start: State, was: seq<Step>, steps: seq<Step>, marks: seq<Turn>, polls: nat, turns: seq<Detector -> Fault>)
    requires was <= steps && AllTaken(start, was, marks, polls, turns)
    ensures AllTaken(start, steps, marks, polls, turns)
  {
    forall i | 0 <= i < |marks|
      ensures TookTurn(start, steps, marks[i], polls, turns[i])
    {
      StillTurn(start, was, steps, marks[i], polls, turns[i]);
    }
  }

  lemma {:induction false} OneMoreTaken(start: State, steps: seq<Step>, marks: seq<Turn>, t: Turn, polls: nat,
                                        turns: seq<Detector -> Fault>)
    requires AllTaken(start, steps, marks, polls, turns) && |marks| < |turns|
    requires TookTurn(start, steps, t, polls, turns[|marks|])
    ensures AllTaken(start, steps, marks + [t], polls, turns)
  {
    var more := marks + [t];
    forall i | 0 <= i < |more|
      ensures TookTurn(start, steps, more[i], polls, turns[i])
    {
      assert i < |marks| ==> more[i] == marks[i];
    }
  }

  lemma OneMoreTurn(start: State, was: seq<Step>, steps: seq<Step>, marks: seq<Turn>, t: Turn, polls: nat, turns: seq<Detector -> Fault>)
    requires was <= steps && TookTurns(start, was, marks, polls, turns) && |marks| < |turns|
    requires TookTurn(start, steps, t, polls, turns[|marks|]) && t.begin == |was| && t.end == |steps|
    ensures TookTurns(start, steps, marks + [t], polls, turns)
  {
    StillTaken(start, was, steps, marks, polls, turns);
    OneMoreTaken(start, steps, marks, t, polls, turns);
  }
}
