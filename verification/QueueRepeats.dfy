// How often lines are handed over again, over every run: at most once for each crash of the reader,
// and once for each line counted by a tracker that a sweep took just before the reader read it.

module QueueRepeats {
  import opened Collections
  import opened QueueTypes
  import opened QueueFiles
  import opened QueueInvariant
  import opened QueueHistory
  import opened QueueOrder

  /** The reader has the file or will come back to it. */
  ghost predicate Given(s: State, n: Name) {
    n in s.files && (s.files[n].tracker.Some? || Holds(s.reader, n))
  }

  /** The reader is about to read file n, from the first line if there is no tracker. */
  ghost predicate Starting(s: State, n: Name) {
    n in s.files
    && ((s.reader == Chosen(n) && s.files[n].dir == Reading) || s.reader == DataOpen(n) || s.reader == TrackerOpen(n))
  }

  /** How many consumed lines of the file the reader would hand over again. */
  ghost function Backlog(s: State, n: Name): int
    requires n in s.files
  {
    var f := s.files[n];
    if Holds(s.reader, n) && HasIndex(s.reader) then f.acked - s.reader.i
    else if f.tracker.Some? then f.acked - f.tracker.value
    else if Starting(s, n) then f.acked
    else 0
  }

  /** What the hand-overs so far are charged to. */
  ghost function Budget(s: State, extra: nat): nat {
    |s.acked| + s.interrupted + extra + if AtYield(s.reader) then 1 else 0
  }

  /** `extra` is the number of lines that sweeps made the reader start again with. */
  ghost predicate CountOk(s: State, extra: nat) {
    && |s.handed| <= Budget(s, extra)
    && (forall n | Given(s, n) :: |s.handed| + Backlog(s, n) <= Budget(s, extra))
    && s.interrupted <= s.crashes
  }

  /** The lines that a step makes the reader start again with. */
  function TakenBack(s: State, st: Step): nat {
    if Rewinds(s, st) then s.files[st.n].tracker.value else 0
  }

  function TakenBackBy(s: State, steps: seq<Step>): nat
    requires Valid(s, steps)
    decreases |steps|
  {
    if steps == [] then 0 else TakenBack(s, steps[0]) + TakenBackBy(Do(s, steps[0]), steps[1..])
  }

  /** Nothing of the file was handed over yet. */
  ghost predicate NoneSeen(s: State, n: Name) {
    n in s.files && s.files[n].seen == 0 && Backlog(s, n) <= 0
  }

  /** The backlog of a file grows only by what a sweep takes back. */
  lemma BacklogByReader(s: State, st: Step, n: Name)
    requires ReaderOk(s) && Enabled(s, st) && Given(Do(s, st), n) && n in s.files && FileShape(s.files[n])
    requires st.ChooseTracked? || st.ChooseOldest? || st.Rename? || st.CheckData? || st.OpenTracker? || st.ReadSkip?
             || st.Crash?
    ensures (Given(s, n) && Backlog(Do(s, st), n) <= Backlog(s, n)) || NoneSeen(Do(s, st), n)
  {
  }

  lemma BacklogBySweep(s: State, st: Step, n: Name)
    requires ReaderOk(s) && Enabled(s, st) && Given(Do(s, st), n) && n in s.files && FileShape(s.files[n])
    requires st.UnlinkData? || st.UnlinkTracker? || st.SweepData? || st.SweepTracker?
    ensures Given(s, n) && Backlog(Do(s, st), n) <= Backlog(s, n) + TakenBack(s, st)
  {
  }

  lemma BacklogByWriter(s: State, st: Step, n: Name)
    requires ReaderOk(s) && Enabled(s, st) && Given(Do(s, st), n) && (st.Create? ==> s.writers[st.w].last.value !in s.files)
    requires st.Start? || st.Generate? || st.OpenExisting? || st.Create? || st.Append? || st.Fail? || st.WriterCrash?
    ensures (Given(s, n) && Backlog(Do(s, st), n) == Backlog(s, n)) || NoneSeen(Do(s, st), n)
  {
  }

  // ---- every step keeps the count ----

  /** A step that hands nothing over and consumes nothing. */
  lemma CountQuiet(s: State, st: Step, extra: nat)
    requires Inv(s) && CountOk(s, extra) && Enabled(s, st) && !st.Ack? && !Yields(s, st)
    ensures CountOk(Do(s, st), extra + TakenBack(s, st))
  {
    var s', more := Do(s, st), extra + TakenBack(s, st);
    BudgetGrows(s, st, extra);
    forall n | Given(s', n)
      ensures |s'.handed| + Backlog(s', n) <= Budget(s', more)
    {
      BacklogOne(s, st, n);
    }
  }

  lemma BudgetGrows(s: State, st: Step, extra: nat)
    requires Enabled(s, st) && !st.Ack? && !Yields(s, st)
    ensures Do(s, st).handed == s.handed && Budget(Do(s, st), extra + TakenBack(s, st)) >= Budget(s, extra) + TakenBack(s, st)
    ensures s.interrupted <= s.crashes ==> Do(s, st).interrupted <= Do(s, st).crashes
  {
  }

  lemma BacklogOne(s: State, st: Step, n: Name)
    requires Inv(s) && Enabled(s, st) && !st.Ack? && !Yields(s, st) && Given(Do(s, st), n)
    ensures (Given(s, n) && Backlog(Do(s, st), n) <= Backlog(s, n) + TakenBack(s, st)) || NoneSeen(Do(s, st), n)
  {
    if st.Create? {
      CreateIsFresh(s, st.w);
    }
    assert n in s.files ==> FileOk(s, n);
    if st.Start? || st.Generate? || st.OpenExisting? || st.Create? || st.Append? || st.Fail? || st.WriterCrash? {
      BacklogByWriter(s, st, n);
    } else if st.UnlinkData? || st.UnlinkTracker? || st.SweepData? || st.SweepTracker? {
      BacklogBySweep(s, st, n);
    } else if st.ReadLine? || st.LastLine? {
      BacklogAtEof(s, st, n);
    } else {
      BacklogByReader(s, st, n);
    }
  }

  lemma BacklogAtEof(s: State, st: Step, n: Name)
    requires Enabled(s, st) && (st.ReadLine? || st.LastLine?) && !Yields(s, st) && Given(Do(s, st), n)
    ensures Given(s, n) && Backlog(Do(s, st), n) == Backlog(s, n)
  {
  }

  lemma CountYield(s: State, st: Step, extra: nat)
    requires CountOk(s, extra) && Enabled(s, st) && Yields(s, st)
    ensures CountOk(Do(s, st), extra)
  {
    var s' := Do(s, st);
    assert |s'.handed| == |s.handed| + 1 && Budget(s', extra) == Budget(s, extra) + 1;
    forall n | Given(s', n)
      ensures |s'.handed| + Backlog(s', n) <= Budget(s', extra)
    {
      assert Given(s, n) && Backlog(s', n) == Backlog(s, n);
    }
  }

  /** A consumed line is new, or one less to hand over again. */
  lemma CountAck(s: State, extra: nat)
    requires Inv(s) && HistoryOk(s) && CountOk(s, extra) && Enabled(s, Ack)
    ensures CountOk(DoAck(s), extra)
  {
    var n, i := s.reader.n, s.reader.i;
    assert FileOk(s, n) && CountersOk(s, n);
    assert Given(s, n);
    AckCounts(s);
    AckBacklog(s);
    AckElsewhere(s);
    AckBudget(s, extra);
  }

  /** Only the file at hand is given to the reader. */
  lemma AckElsewhere(s: State)
    requires ReaderOk(s) && Enabled(s, Ack)
    ensures forall m | Given(DoAck(s), m) :: m == s.reader.n
  {
  }

  lemma AckCounts(s: State)
    requires Enabled(s, Ack) && CountersOk(s, s.reader.n)
    ensures |DoAck(s).acked| == |s.acked| + if s.reader.i < s.files[s.reader.n].acked then 0 else 1
  {
    var n, i := s.reader.n, s.reader.i;
    if i < s.files[n].acked {
      assert s.acked + {s.files[n].lines[i]} == s.acked;
    }
  }

  lemma AckBacklog(s: State)
    requires Enabled(s, Ack) && FileShape(s.files[s.reader.n]) && IndexOk(s.reader, s.files[s.reader.n])
    ensures var i, f := s.reader.i, s.files[s.reader.n];
            && Backlog(s, s.reader.n) == f.acked - i >= 0
            && Backlog(DoAck(s), s.reader.n) == if i < f.acked then f.acked - i - 1 else 0
  {
  }

  lemma AckBudget(s: State, extra: nat)
    requires Enabled(s, Ack) && CountOk(s, extra) && Given(s, s.reader.n)
    requires forall m | Given(DoAck(s), m) :: m == s.reader.n
    requires |DoAck(s).acked| == |s.acked| + if Backlog(s, s.reader.n) > 0 then 0 else 1
    requires Backlog(s, s.reader.n) >= 0
    requires Backlog(DoAck(s), s.reader.n) == if Backlog(s, s.reader.n) > 0 then Backlog(s, s.reader.n) - 1 else 0
    ensures CountOk(DoAck(s), extra)
  {
    assert DoAck(s).handed == s.handed && DoAck(s).interrupted == s.interrupted && DoAck(s).crashes == s.crashes;
    assert !AtYield(DoAck(s).reader);
  }

  lemma CountStep(s: State, st: Step, extra: nat)
    requires Inv(s) && HistoryOk(s) && CountOk(s, extra) && Enabled(s, st)
    ensures CountOk(Do(s, st), extra + TakenBack(s, st))
  {
    if st.Ack? {
      CountAck(s, extra);
    } else if Yields(s, st) {
      CountYield(s, st, extra);
    } else {
      CountQuiet(s, st, extra);
    }
  }

  lemma {:induction false} CountRun(s: State, steps: seq<Step>, extra: nat)
    requires Inv(s) && HistoryOk(s) && CountOk(s, extra) && Valid(s, steps)
    ensures Inv(Run(s, steps)) && HistoryOk(Run(s, steps)) && CountOk(Run(s, steps), extra + TakenBackBy(s, steps))
    decreases |steps|
  {
    if steps != [] {
      InvStep(s, steps[0]);
      HistoryStep(s, steps[0]);
      CountStep(s, steps[0], extra);
      CountRun(Do(s, steps[0]), steps[1..], extra + TakenBack(s, steps[0]));
    }
  }

  /**
   * In every run, repeated hand-overs are at most the crashes of the reader and the lines counted by the
   * trackers that sweeps took from a file chosen and not yet read.
   */
  lemma RepeatsBounded(ids: set<WriterId>, steps: seq<Step>)
    requires Valid(Init(ids), steps)
    ensures var s := Run(Init(ids), steps);
            |s.handed| <= |Elements(s.handed)| + s.crashes + TakenBackBy(Init(ids), steps)
  {
    OrderInit(ids);
    CountRun(Init(ids), steps, 0);
    DifferentLines(Run(Init(ids), steps), TakenBackBy(Init(ids), steps));
  }

  lemma DifferentLines(s: State, extra: nat)
    requires Inv(s) && HistoryOk(s) && CountOk(s, extra)
    ensures |s.handed| <= |Elements(s.handed)| + s.crashes + extra
  {
    SubsetSize(s.acked, Elements(s.handed));
    if AtYield(s.reader) {
      var n := s.reader.n;
      assert FileOk(s, n) && CountersOk(s, n) && Given(s, n);
      if s.reader.i >= s.files[n].acked {
        OneMoreLine(s.acked, CurrentLine(s), s.handed);
      }
    }
  }

  lemma OneMoreLine(acked: set<Line>, l: Line, handed: seq<Line>)
    requires l !in acked && l in handed && forall k | k in acked :: k in handed
    ensures |acked| + 1 <= |Elements(handed)|
  {
    SubsetSize(acked + {l}, Elements(handed));
  }

  /** Without such a sweep only the crashes count. */
  lemma {:induction false} SteadyTakesNone(s: State, steps: seq<Step>)
    requires Valid(s, steps) && Steady(s, steps)
    ensures TakenBackBy(s, steps) == 0
    decreases |steps|
  {
    if steps != [] {
      SteadyTakesNone(Do(s, steps[0]), steps[1..]);
    }
  }
}
