// The promises that the queue needs from its environment are needed: without them
// lines are lost.

module QueueWitness {
  import opened Collections
  import opened QueueTypes
  import opened QueueFiles
  import opened QueueInvariant
  import opened QueueHistory
  import opened QueueDelivery

  const FIRST := Line(0, 0, 7, Image(0, 0), 0, Proper)
  const SECOND := Line(0, 1, 8, Image(0, 1), 0, Proper)

  /** Nothing fails, crashes or is swept. */
  ghost predicate Uneventful(st: Step) {
    !st.SweepData? && !st.SweepTracker? && !st.Crash? && !st.Fail? && !st.WriterCrash?
  }

  /** The line is on disk, and no continuation ever hands it over. */
  ghost predicate NeverDelivered(s: State, n: Name, j: nat) {
    n in s.files && j < |s.files[n].lines|
    && forall more | Valid(s, more) :: s.files[n].lines[j] !in Run(s, more).handed
  }

  lemma NeverDeliveredIfLost(ids: set<WriterId>, steps: seq<Step>, n: Name, j: nat)
    requires Valid(Init(ids), steps)
    requires var s := Run(Init(ids), steps); n in s.files && j < |s.files[n].lines| && Lost(s.files[n], j)
    ensures NeverDelivered(Run(Init(ids), steps), n, j)
  {
    var s := Run(Init(ids), steps);
    InvInit(ids);
    HistoryRun(Init(ids), steps);
    forall more | Valid(s, more)
      ensures s.files[n].lines[j] !in Run(s, more).handed
    {
      LostForever(s, more, n, j);
    }
  }

  /** One writer has queued one line in file 5, and nothing else happened. */
  lemma FirstPathChosen() returns (steps: seq<Step>)
    ensures Valid(Init({0}), steps) && forall st | st in steps :: Uneventful(st)
    ensures Run(Init({0}), steps) ==
            State(map[], map[0 := Writer(Some(5), 0, Creating(FIRST), [], [])], Choosing, {5}, [], {}, 0, 0)
  {
    var s := Init({0});
    assert s.writers == map[0 := FRESH_WRITER];
    ThenStep(s, [], Start(0, FIRST));
    steps := [] + [Start(0, FIRST)];
    assert Run(s, steps).writers == map[0 := Writer(None, 0, Generating(FIRST), [], [])];
    ThenStep(s, steps, Generate(0, 5));
    steps := steps + [Generate(0, 5)];
    assert Run(s, steps).writers == map[0 := Writer(Some(5), 0, Creating(FIRST), [], [])];
  }

  lemma OneLineQueued() returns (steps: seq<Step>)
    ensures Valid(Init({0}), steps) && forall st | st in steps :: Uneventful(st)
    ensures Run(Init({0}), steps) ==
            State(map[5 := File([FIRST], Writing, None, 0, 0, 0, 0, false, false, Live)],
                  map[0 := Writer(Some(5), 1, Idle, [FIRST], [5])], Choosing, {5}, [], {}, 0, 0)
  {
    var s := Init({0});
    steps := FirstPathChosen();
    ThenStep(s, steps, Create(0));
    steps := steps + [Create(0)];
    assert Run(s, steps).writers == map[0 := Writer(Some(5), 0, Appending(FIRST), [], [])];
    assert Run(s, steps).files == map[5 := File([], Writing, None, 0, 0, 0, 0, false, false, Live)];
    ThenStep(s, steps, Append(0));
    steps := steps + [Append(0)];
    assert [] + [FIRST] == [FIRST];
    assert Run(s, steps).writers[0].written == [FIRST] && Run(s, steps).writers[0].place == [5];
    assert Run(s, steps).writers == map[0 := Writer(Some(5), 1, Idle, [FIRST], [5])];
    assert Run(s, steps).files == map[5 := File([FIRST], Writing, None, 0, 0, 0, 0, false, false, Live)];
  }

  /**
   * A reader that crashes after its rename and before it creates the tracker loses the file: here no
   * sweep ran and no writer was busy, and still the queued line is never delivered.
   */
  lemma CrashInWindowLoses() returns (steps: seq<Step>)
    ensures Valid(Init({0}), steps)
    ensures NeverDelivered(Run(Init({0}), steps), 5, 0)
    ensures forall st | st in steps :: !st.SweepData? && !st.SweepTracker?
  {
    var s := Init({0});
    steps := OneLineMoved();
    ThenStep(s, steps, Crash);
    steps := steps + [Crash];
    NeverDeliveredIfLost({0}, steps, 5, 0);
  }

  /**
   * An append in flight that lands after the final readline is lost as well: here nothing crashed and no
   * sweep ran, the writer was told that its line was written, and the line is never delivered.
   */
  lemma LateAppendLoses() returns (steps: seq<Step>)
    ensures Valid(Init({0}), steps)
    ensures NeverDelivered(Run(Init({0}), steps), 5, 1)
    ensures forall st | st in steps :: Uneventful(st)
  {
    var before := FileOpenTwice();
    var reading := OpenBoth(before);
    var handed := ReadFirst(reading);
    steps := FinishAndAppend(handed);
  }

  /** The writer holds file 5 open while the reader moves it and opens it. */
  lemma OneLineMoved() returns (steps: seq<Step>)
    ensures Valid(Init({0}), steps) && forall st | st in steps :: Uneventful(st)
    ensures Run(Init({0}), steps) ==
            State(map[5 := File([FIRST], Reading, None, 0, 0, 0, 0, false, false, Live)],
                  map[0 := Writer(Some(5), 1, Idle, [FIRST], [5])], Chosen(5), {5}, [], {}, 0, 0)
  {
    var s := Init({0});
    steps := OneLineQueued();
    ThenStep(s, steps, ChooseOldest(5));
    steps := steps + [ChooseOldest(5)];
    ThenStep(s, steps, Rename);
    steps := steps + [Rename];
    assert Run(s, steps).files == map[5 := File([FIRST], Reading, None, 0, 0, 0, 0, false, false, Live)];
  }

  lemma WriterHoldsFile() returns (steps: seq<Step>)
    ensures Valid(Init({0}), steps) && forall st | st in steps :: Uneventful(st)
    ensures Run(Init({0}), steps) ==
            State(map[5 := File([FIRST], Writing, None, 0, 0, 0, 0, false, false, Live)],
                  map[0 := Writer(Some(5), 1, Appending(SECOND), [FIRST], [5])], Choosing, {5}, [], {}, 0, 0)
  {
    var s := Init({0});
    steps := OneLineQueued();
    ThenStep(s, steps, Start(0, SECOND));
    steps := steps + [Start(0, SECOND)];
    assert Run(s, steps).writers == map[0 := Writer(Some(5), 1, Opening(SECOND), [FIRST], [5])];
    ThenStep(s, steps, OpenExisting(0));
    steps := steps + [OpenExisting(0)];
    assert Run(s, steps).writers == map[0 := Writer(Some(5), 1, Appending(SECOND), [FIRST], [5])];
  }

  lemma FileOpenTwice() returns (steps: seq<Step>)
    ensures Valid(Init({0}), steps) && forall st | st in steps :: Uneventful(st)
    ensures Run(Init({0}), steps) ==
            State(map[5 := File([FIRST], Reading, None, 0, 0, 0, 0, false, false, Live)],
                  map[0 := Writer(Some(5), 1, Appending(SECOND), [FIRST], [5])], Chosen(5), {5}, [], {}, 0, 0)
  {
    var s := Init({0});
    steps := WriterHoldsFile();
    ThenStep(s, steps, ChooseOldest(5));
    steps := steps + [ChooseOldest(5)];
    ThenStep(s, steps, Rename);
    steps := steps + [Rename];
    assert Run(s, steps).files == map[5 := File([FIRST], Reading, None, 0, 0, 0, 0, false, false, Live)];
  }

  lemma OpenBoth(before: seq<Step>) returns (steps: seq<Step>)
    requires Valid(Init({0}), before) && forall st | st in before :: Uneventful(st)
    requires Run(Init({0}), before) ==
             State(map[5 := File([FIRST], Reading, None, 0, 0, 0, 0, false, false, Live)],
                   map[0 := Writer(Some(5), 1, Appending(SECOND), [FIRST], [5])], Chosen(5), {5}, [], {}, 0, 0)
    ensures Valid(Init({0}), steps) && forall st | st in steps :: Uneventful(st)
    ensures Run(Init({0}), steps) ==
            State(map[5 := File([FIRST], Reading, Some(0), 0, 0, 0, 0, false, false, Live)],
                  map[0 := Writer(Some(5), 1, Appending(SECOND), [FIRST], [5])], TrackerOpen(5), {5}, [], {}, 0, 0)
  {
    var s := Init({0});
    ThenStep(s, before, CheckData);
    steps := before + [CheckData];
    ThenStep(s, steps, OpenTracker);
    steps := steps + [OpenTracker];
    assert Run(s, steps).files == map[5 := File([FIRST], Reading, Some(0), 0, 0, 0, 0, false, false, Live)];
  }

  lemma ReadFirst(before: seq<Step>) returns (steps: seq<Step>)
    requires Valid(Init({0}), before) && forall st | st in before :: Uneventful(st)
    requires Run(Init({0}), before) ==
             State(map[5 := File([FIRST], Reading, Some(0), 0, 0, 0, 0, false, false, Live)],
                   map[0 := Writer(Some(5), 1, Appending(SECOND), [FIRST], [5])], TrackerOpen(5), {5}, [], {}, 0, 0)
    ensures Valid(Init({0}), steps) && forall st | st in steps :: Uneventful(st)
    ensures Run(Init({0}), steps) ==
            State(map[5 := File([FIRST], Reading, Some(0), 0, 0, 1, 0, false, false, Live)],
                  map[0 := Writer(Some(5), 1, Appending(SECOND), [FIRST], [5])], Yielded(5, 0), {5}, [FIRST], {}, 0, 0)
  {
    var s := Init({0});
    ThenStep(s, before, ReadSkip);
    steps := before + [ReadSkip];
    ThenStep(s, steps, ReadLine);
    steps := steps + [ReadLine];
    assert Run(s, steps).files == map[5 := File([FIRST], Reading, Some(0), 0, 0, 1, 0, false, false, Live)];
  }

  lemma FinishAndAppend(before: seq<Step>) returns (steps: seq<Step>)
    requires Valid(Init({0}), before)
    requires forall st | st in before :: Uneventful(st)
    requires Run(Init({0}), before) ==
             State(map[5 := File([FIRST], Reading, Some(0), 0, 0, 1, 0, false, false, Live)],
                   map[0 := Writer(Some(5), 1, Appending(SECOND), [FIRST], [5])], Yielded(5, 0), {5}, [FIRST], {}, 0, 0)
    ensures Valid(Init({0}), steps) && NeverDelivered(Run(Init({0}), steps), 5, 1)
    ensures forall st | st in steps :: Uneventful(st)
  {
    var s := Init({0});
    steps := before;
    ThenStep(s, steps, Ack);
    steps := steps + [Ack];
    ThenStep(s, steps, ReadLine);
    steps := steps + [ReadLine];
    ThenStep(s, steps, LastLine);
    steps := steps + [LastLine];
    ThenStep(s, steps, Append(0));
    steps := steps + [Append(0)];
    ThenStep(s, steps, UnlinkData);
    steps := steps + [UnlinkData];
    NeverDeliveredIfLost({0}, steps, 5, 1);
  }
}
