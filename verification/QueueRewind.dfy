// The one way in which the retention sweep breaks order and repeats: it takes a tracking file
// between the reader's choice of the file and its reading of the tracker.

module QueueRewind {
  import opened Collections
  import opened QueueTypes
  import opened QueueFiles
  import opened QueueInvariant
  import opened QueueHistory
  import opened QueueDelivery
  import opened QueueOrder
  import opened QueueWitness

  /** The reader started no file again. */
  ghost predicate NoneRewound(s: State) {
    forall n | n in s.files :: !s.files[n].rewound
  }

  lemma NoneRewoundStep(s: State, st: Step)
    requires Inv(s) && NoneRewound(s) && Enabled(s, st) && !Rewinds(s, st)
    ensures NoneRewound(Do(s, st))
  {
    if st.Create? {
      CreateIsFresh(s, st.w);
    }
    StaysUnrewound(s, st);
  }

  lemma StaysUnrewound(s: State, st: Step)
    requires NoneRewound(s) && Enabled(s, st) && !Rewinds(s, st)
    requires st.Create? ==> s.writers[st.w].last.value !in s.files
    ensures NoneRewound(Do(s, st))
  {
  }

  /** After s, a line that was consumed by then is handed over again. */
  ghost predicate HandsAgain(s: State, s': State) {
    exists k :: |s.handed| <= k < |s'.handed| && s'.handed[k] in s.acked
  }

  lemma YieldIsNew(s: State, st: Step)
    requires Inv(s) && HistoryOk(s) && NoneRewound(s) && Enabled(s, st) && Yields(s, st)
    ensures Do(s, st).handed == s.handed + [s.files[s.reader.n].lines[s.reader.i]]
    ensures s.files[s.reader.n].lines[s.reader.i] !in s.acked
  {
    assert FileOk(s, s.reader.n) && CountersOk(s, s.reader.n);
  }

  lemma AckedGrows(s: State, st: Step)
    requires Enabled(s, st)
    ensures s.acked <= Do(s, st).acked
  {
  }

  /** A consumed line is handed over never again, whatever crashes, as long as no sweep makes the reader start again. */
  lemma {:induction false} ConsumedOnce(s: State, steps: seq<Step>)
    requires Inv(s) && HistoryOk(s) && NoneRewound(s) && Valid(s, steps) && Steady(s, steps)
    ensures s.handed <= Run(s, steps).handed && !HandsAgain(s, Run(s, steps))
    decreases |steps|
  {
    if steps != [] {
      var s1 := Do(s, steps[0]);
      OnceStep(s, steps[0]);
      ConsumedOnce(s1, steps[1..]);
      OnceMore(s, s1, Run(s1, steps[1..]));
    }
  }

  lemma OnceStep(s: State, st: Step)
    requires Inv(s) && HistoryOk(s) && NoneRewound(s) && Enabled(s, st) && !Rewinds(s, st)
    ensures Inv(Do(s, st)) && HistoryOk(Do(s, st)) && NoneRewound(Do(s, st))
    ensures s.handed <= Do(s, st).handed && s.acked <= Do(s, st).acked
    ensures forall k | |s.handed| <= k < |Do(s, st).handed| :: Do(s, st).handed[k] !in s.acked
  {
    InvStep(s, st);
    HistoryStep(s, st);
    NoneRewoundStep(s, st);
    AckedGrows(s, st);
    if Yields(s, st) {
      YieldIsNew(s, st);
    } else {
      KeepsRecord(s, st);
    }
  }

  lemma OnceMore(s: State, s1: State, s2: State)
    requires s.handed <= s1.handed <= s2.handed && s.acked <= s1.acked
    requires !HandsAgain(s1, s2) && forall k | |s.handed| <= k < |s1.handed| :: s1.handed[k] !in s.acked
    ensures !HandsAgain(s, s2)
  {
    forall k | |s.handed| <= k < |s2.handed|
      ensures s2.handed[k] !in s.acked
    {
      assert k < |s1.handed| ==> s2.handed[k] == s1.handed[k];
    }
  }

  // ---- and a sweep that makes it start again repeats what was consumed ----

  lemma Longer(s: State, steps: seq<Step>, st: Step)
    requires Valid(s, steps) && Enabled(Run(s, steps), st) && ByReader(st) && forall r | r in steps :: ByReader(r)
    ensures Valid(s, steps + [st]) && Run(s, steps + [st]) == Do(Run(s, steps), st)
    ensures forall r | r in steps + [st] :: ByReader(r)
  {
    ThenStep(s, steps, st);
  }

  /** The reader's steps from its choice up to the tracker. */
  lemma ToTracker(s: State, n: Name) returns (steps: seq<Step>)
    requires n in s.files && s.files[n].tracker.None?
    requires (s.reader == Chosen(n) && s.files[n].dir == Reading) || s.reader == DataOpen(n) || s.reader == TrackerOpen(n)
    ensures Valid(s, steps) && forall st | st in steps :: ByReader(st)
    ensures Run(s, steps).reader == AtLine(n, 0) && Run(s, steps).handed == s.handed
    ensures n in Run(s, steps).files && Run(s, steps).files[n].lines == s.files[n].lines
  {
    steps := [];
    if s.reader.Chosen? {
      Longer(s, steps, CheckData);
      steps := steps + [CheckData];
    }
    if s.reader.Chosen? || s.reader.DataOpen? {
      Longer(s, steps, OpenTracker);
      steps := steps + [OpenTracker];
    }
    Longer(s, steps, ReadSkip);
    steps := steps + [ReadSkip];
  }

  lemma RewindRepeats(s: State, n: Name) returns (steps: seq<Step>)
    requires Inv(s) && HistoryOk(s) && Enabled(s, SweepTracker(n)) && Rewinds(s, SweepTracker(n))
    ensures Valid(Do(s, SweepTracker(n)), steps) && forall st | st in steps :: ByReader(st)
    ensures HandsAgain(s, Run(Do(s, SweepTracker(n)), steps))
  {
    assert FileOk(s, n) && CountersOk(s, n);
    var s1 := Do(s, SweepTracker(n));
    steps := ToTracker(s1, n);
    Longer(s1, steps, ReadLine);
    steps := steps + [ReadLine];
    assert Run(s1, steps).handed[|s.handed|] == s.files[n].lines[0];
  }

  lemma {:induction false} ReaderIsSteady(s: State, steps: seq<Step>)
    requires Valid(s, steps) && forall st | st in steps :: ByReader(st)
    ensures Steady(s, steps)
    decreases |steps|
  {
    if steps != [] {
      assert ByReader(steps[0]) && forall st | st in steps[1..] :: st in steps;
      ReaderIsSteady(Do(s, steps[0]), steps[1..]);
    }
  }

  /** After the sweep of n's tracker, these steps, without another such sweep, hand a consumed line over again. */
  ghost predicate RepeatsBy(s: State, n: Name, steps: seq<Step>)
    requires Enabled(s, SweepTracker(n))
  {
    var s1 := Do(s, SweepTracker(n));
    Valid(s1, steps) && Steady(s1, steps) && HandsAgain(s, Run(s1, steps))
  }

  /**
   * Exactly those sweeps break it: after a sweep of a tracker, a consumed line can be handed over again
   * without another such sweep if and only if the reader had chosen its file, the tracker counted some
   * lines, and the reader had not read it yet.
   */
  lemma SweepRepeatsIff(s: State, n: Name)
    requires Inv(s) && HistoryOk(s) && NoneRewound(s) && Enabled(s, SweepTracker(n))
    ensures (exists steps :: RepeatsBy(s, n, steps)) <==> Rewinds(s, SweepTracker(n))
  {
    if Rewinds(s, SweepTracker(n)) {
      var steps := RewindRepeats(s, n);
      ReaderIsSteady(Do(s, SweepTracker(n)), steps);
      assert RepeatsBy(s, n, steps);
    } else {
      forall steps | RepeatsBy(s, n, steps)
        ensures false
      {
        HarmlessSweep(s, n, steps);
      }
    }
  }

  lemma HarmlessSweep(s: State, n: Name, steps: seq<Step>)
    requires Inv(s) && HistoryOk(s) && NoneRewound(s) && Enabled(s, SweepTracker(n)) && !Rewinds(s, SweepTracker(n))
    requires Valid(Do(s, SweepTracker(n)), steps) && Steady(Do(s, SweepTracker(n)), steps)
    ensures !HandsAgain(s, Run(Do(s, SweepTracker(n)), steps))
  {
    var all := [SweepTracker(n)] + steps;
    assert all[1..] == steps;
    ConsumedOnce(s, all);
  }

  // ---- a run that breaks order and the bound on repeats ----

  const BOTH: seq<Line> := [FIRST, SECOND]

  /** File 5 with two lines of writer 0. */
  function Two(dir: Dir, tracker: Option<nat>, seen: nat, acked: nat, rewound: bool): File {
    File(BOTH, dir, tracker, 0, 0, seen, acked, rewound, rewound, if rewound then Swept else Live)
  }

  function At(f: File, pc: ReaderPc, handed: seq<Line>, acked: set<Line>, crashes: nat): State {
    State(map[5 := f], map[0 := Writer(Some(5), 2, Idle, BOTH, [5, 5])], pc, {5}, handed, acked, crashes, 0)
  }

  ghost predicate Reaches(steps: seq<Step>, s: State) {
    Valid(Init({0}), steps) && Run(Init({0}), steps) == s
  }

  lemma Go(steps: seq<Step>, s: State, st: Step, s': State)
    requires Reaches(steps, s) && Enabled(s, st) && Do(s, st) == s'
    ensures Reaches(steps + [st], s')
  {
    ThenStep(Init({0}), steps, st);
  }

  lemma TwoLinesQueued() returns (steps: seq<Step>)
    ensures Reaches(steps, At(Two(Writing, None, 0, 0, false), Choosing, [], {}, 0))
  {
    var s := Init({0});
    steps := OneLineQueued();
    ThenStep(s, steps, Start(0, SECOND));
    steps := steps + [Start(0, SECOND)];
    assert Run(s, steps).writers == map[0 := Writer(Some(5), 1, Opening(SECOND), [FIRST], [5])];
    ThenStep(s, steps, OpenExisting(0));
    steps := steps + [OpenExisting(0)];
    assert Run(s, steps).writers == map[0 := Writer(Some(5), 1, Appending(SECOND), [FIRST], [5])];
    ThenStep(s, steps, Append(0));
    steps := steps + [Append(0)];
    assert [FIRST] + [SECOND] == BOTH && [5] + [5] == [5, 5];
    assert Run(s, steps).writers == map[0 := Writer(Some(5), 2, Idle, BOTH, [5, 5])];
    assert Run(s, steps).files == map[5 := Two(Writing, None, 0, 0, false)];
  }

  lemma TwoLinesMoved() returns (steps: seq<Step>)
    ensures Reaches(steps, At(Two(Reading, None, 0, 0, false), Chosen(5), [], {}, 0))
  {
    steps := TwoLinesQueued();
    var f := Two(Writing, None, 0, 0, false);
    Go(steps, At(f, Choosing, [], {}, 0), ChooseOldest(5), At(f, Renaming(5), [], {}, 0));
    steps := steps + [ChooseOldest(5)];
    Go(steps, At(f, Renaming(5), [], {}, 0), Rename, At(Two(Reading, None, 0, 0, false), Chosen(5), [], {}, 0));
    steps := steps + [Rename];
  }

  /** The chosen file is opened, without a tracker to say how far it was read. */
  lemma OpenedAtStart(before: seq<Step>, seen: nat, acked: nat, rewound: bool, handed: seq<Line>, done: set<Line>,
                      crashes: nat) returns (steps: seq<Step>)
    requires Reaches(before, At(Two(Reading, None, seen, acked, rewound), Chosen(5), handed, done, crashes))
    ensures Reaches(steps, At(Two(Reading, Some(0), seen, acked, rewound), AtLine(5, 0), handed, done, crashes))
  {
    var g, h := Two(Reading, None, seen, acked, rewound), Two(Reading, Some(0), seen, acked, rewound);
    Go(before, At(g, Chosen(5), handed, done, crashes), CheckData, At(g, DataOpen(5), handed, done, crashes));
    steps := before + [CheckData];
    Go(steps, At(g, DataOpen(5), handed, done, crashes), OpenTracker, At(h, TrackerOpen(5), handed, done, crashes));
    steps := steps + [OpenTracker];
    Go(steps, At(h, TrackerOpen(5), handed, done, crashes), ReadSkip, At(h, AtLine(5, 0), handed, done, crashes));
    steps := steps + [ReadSkip];
  }

  /** The next line is read and consumed. */
  lemma OneConsumed(before: seq<Step>, k: nat, tracker: nat, seen: nat, acked: nat, rewound: bool, handed: seq<Line>,
                    done: set<Line>, crashes: nat) returns (steps: seq<Step>)
    requires k < 2 && Reaches(before, At(Two(Reading, Some(tracker), seen, acked, rewound), AtLine(5, k), handed, done, crashes))
    ensures Reaches(steps, At(Two(Reading, Some(tracker + 1), Max(seen, k + 1), Max(acked, k + 1), rewound), AtLine(5, k + 1),
                              handed + [BOTH[k]], done + {BOTH[k]}, crashes))
  {
    var f := Two(Reading, Some(tracker), seen, acked, rewound);
    var g := Two(Reading, Some(tracker), Max(seen, k + 1), acked, rewound);
    var h := Two(Reading, Some(tracker + 1), Max(seen, k + 1), Max(acked, k + 1), rewound);
    var more := handed + [BOTH[k]];
    OneRead(k, tracker, seen, acked, rewound, handed, done, crashes);
    Go(before, At(f, AtLine(5, k), handed, done, crashes), ReadLine, At(g, Yielded(5, k), more, done, crashes));
    steps := before + [ReadLine];
    Go(steps, At(g, Yielded(5, k), more, done, crashes), Ack, At(h, AtLine(5, k + 1), more, done + {BOTH[k]}, crashes));
    steps := steps + [Ack];
  }

  lemma OneRead(k: nat, tracker: nat, seen: nat, acked: nat, rewound: bool, handed: seq<Line>, done: set<Line>, crashes: nat)
    requires k < 2
    ensures var s := At(Two(Reading, Some(tracker), seen, acked, rewound), AtLine(5, k), handed, done, crashes);
            DoReadLine(s) == At(Two(Reading, Some(tracker), Max(seen, k + 1), acked, rewound), Yielded(5, k),
                                handed + [BOTH[k]], done, crashes)
  {
  }

  lemma BothConsumed() returns (steps: seq<Step>)
    ensures Reaches(steps, At(Two(Reading, Some(2), 2, 2, false), AtLine(5, 2), BOTH, {FIRST, SECOND}, 0))
  {
    steps := TwoLinesMoved();
    steps := OpenedAtStart(steps, 0, 0, false, [], {}, 0);
    steps := OneConsumed(steps, 0, 0, 0, 0, false, [], {}, 0);
    steps := OneConsumed(steps, 1, 1, 1, 1, false, [] + [FIRST], {} + {FIRST}, 0);
    assert [] + [FIRST] + [SECOND] == BOTH;
    assert {} + {FIRST} + {SECOND} == {FIRST, SECOND};
  }

  /** A crash, and a sweep of the tracker once the file is chosen again. */
  lemma SweptOnceChosen() returns (steps: seq<Step>)
    ensures Reaches(steps, At(Two(Reading, None, 2, 2, true), Chosen(5), BOTH, {FIRST, SECOND}, 1))
  {
    var f, done := Two(Reading, Some(2), 2, 2, false), {FIRST, SECOND};
    steps := BothConsumed();
    Go(steps, At(f, AtLine(5, 2), BOTH, done, 0), Crash, At(f, Choosing, BOTH, done, 1));
    steps := steps + [Crash];
    Go(steps, At(f, Choosing, BOTH, done, 1), ChooseTracked(5), At(f, Chosen(5), BOTH, done, 1));
    steps := steps + [ChooseTracked(5)];
    SweptAway(BOTH, done);
    Go(steps, At(f, Chosen(5), BOTH, done, 1), SweepTracker(5), At(Two(Reading, None, 2, 2, true), Chosen(5), BOTH, done, 1));
    steps := steps + [SweepTracker(5)];
  }

  lemma SweptAway(handed: seq<Line>, done: set<Line>)
    ensures DoSweepTracker(At(Two(Reading, Some(2), 2, 2, false), Chosen(5), handed, done, 1), 5)
            == At(Two(Reading, None, 2, 2, true), Chosen(5), handed, done, 1)
  {
  }

  /**
   * A run with one crash and one sweep, of a tracker between the choice of its file and its reading: two
   * lines are handed over four times, more than the bound for steady runs, and not in the order of writing.
   */
  lemma SweptTrackerRepeats() returns (steps: seq<Step>)
    ensures Valid(Init({0}), steps)
    ensures var s := Run(Init({0}), steps);
            && s.handed == [FIRST, SECOND, FIRST, SECOND] && s.crashes == 1
            && |s.handed| > |(set l | l in s.handed)| + s.crashes
            && !Rising(Seen(s, 0))
  {
    var done := {FIRST, SECOND};
    steps := SweptOnceChosen();
    steps := OpenedAtStart(steps, 2, 2, true, BOTH, done, 1);
    steps := OneConsumed(steps, 0, 0, 2, 2, true, BOTH, done, 1);
    steps := OneConsumed(steps, 1, 1, 2, 2, true, BOTH + [FIRST], done + {FIRST}, 1);
    var s := Run(Init({0}), steps);
    assert s.handed == [FIRST, SECOND, FIRST, SECOND];
    assert (set l | l in s.handed) == {FIRST, SECOND};
    NotRising(s);
  }

  lemma NotRising(s: State)
    requires s.handed == [FIRST, SECOND, FIRST, SECOND]
    ensures !Rising(Seen(s, 0))
  {
    OfAppend([FIRST, SECOND, FIRST], SECOND, 0);
    OfAppend([FIRST, SECOND], FIRST, 0);
    OfAppend([FIRST], SECOND, 0);
    OfAppend([], FIRST, 0);
    assert [] + [FIRST] == [FIRST] && [FIRST] + [SECOND] == [FIRST, SECOND];
    assert [FIRST, SECOND] + [FIRST] == [FIRST, SECOND, FIRST];
    assert [FIRST, SECOND, FIRST] + [SECOND] == s.handed;
    DedupAppend([FIRST, SECOND, FIRST], SECOND);
    DedupAppend([FIRST, SECOND], FIRST);
    DedupAppend([FIRST], SECOND);
    DedupAppend([], FIRST);
    assert Dedup([]) == [];
    assert Seen(s, 0)[1].serial == 1 && Seen(s, 0)[2].serial == 0;
  }
}
