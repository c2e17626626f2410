// The promises of the environment under which no line is lost.

module QueueCalm {
  import opened QueueTypes
  import opened QueueFiles
  import opened QueueInvariant
  import opened QueueHistory

  /**
   * The environment keeps the three promises the queue depends on: the sweep finds nothing old enough,
   * the reader does not crash between its rename and the creation of the tracker, and no writer still
   * holds the file open when the reader tries its final readline.
   */
  predicate Calm(s: State, st: Step) {
    && !st.SweepData? && !st.SweepTracker?
    && (st.Crash? ==> !InWindow(s))
    && (st.LastLine? && s.reader.AtEof? ==> !HeldOpen(s, s.reader.n))
  }

  predicate CalmRun(s: State, steps: seq<Step>)
    requires Valid(s, steps)
    decreases |steps|
  {
    steps == [] || (Calm(s, steps[0]) && CalmRun(Do(s, steps[0]), steps[1..]))
  }

  ghost predicate CalmFile(s: State, n: Name)
    requires n in s.files
  {
    var f := s.files[n];
    && (f.fate.Live? || f.fate.Finished?)
    && (f.fate.Finished? ==> f.fate.upTo == |f.lines| && !HeldOpen(s, n))
  }

  ghost predicate CalmState(s: State) {
    && (forall n | n in s.files :: CalmFile(s, n))
    && ((s.reader.Drained? || s.reader.YieldedLast?) && s.reader.n in s.files ==>
          !HeldOpen(s, s.reader.n)
          && |s.files[s.reader.n].lines| == s.reader.i + if s.reader.Drained? then 0 else 1)
  }

  lemma CalmByWriter(s: State, st: Step)
    requires Enabled(s, st) && CalmState(s) && ReaderOk(s)
    requires st.Start? || st.Generate? || st.OpenExisting? || st.Fail? || st.WriterCrash? || st.Append?
             || (st.Create? && s.writers[st.w].last.value !in s.files)
    requires st.Append? ==> s.files[s.writers[st.w].last.value].owner == st.w
    requires forall n | n in s.files && s.files[n].dir == Writing :: s.files[n].fate.Live?
    ensures CalmState(Do(s, st))
  {
    assert forall n | n in s.files :: CalmFile(s, n);
  }

  lemma CalmByReader(s: State, st: Step)
    requires Enabled(s, st) && CalmState(s) && Calm(s, st) && ReaderOk(s)
    requires !s.reader.Choosing? ==> s.reader.n in s.files && FileShape(s.files[s.reader.n])
    requires st.ChooseTracked? || st.ChooseOldest? || st.Rename? || st.CheckData? || st.OpenTracker? || st.ReadSkip?
             || st.Crash?
    ensures CalmState(Do(s, st))
  {
    assert forall n | n in s.files :: CalmFile(s, n);
  }

  lemma CalmByLoop(s: State, st: Step)
    requires Enabled(s, st) && CalmState(s) && Calm(s, st) && ReaderOk(s)
    requires st.ReadLine? || st.Ack? || st.LastLine? || st.UnlinkData? || st.UnlinkTracker?
    requires FileShape(s.files[s.reader.n])
    ensures CalmState(Do(s, st))
  {
    assert forall n | n in s.files :: CalmFile(s, n);
  }

  lemma CalmStep(s: State, st: Step)
    requires Inv(s) && Enabled(s, st) && CalmState(s) && Calm(s, st)
    ensures CalmState(Do(s, st))
  {
    assert !s.reader.Choosing? ==> s.reader.n in s.files && FileOk(s, s.reader.n);
    if st.Start? || st.Generate? || st.OpenExisting? || st.Fail? || st.WriterCrash? || st.Append? || st.Create? {
      assert forall n | n in s.files :: FileOk(s, n);
      if st.Create? {
        CreateIsFresh(s, st.w);
      }
      assert st.Append? ==> WriterOk(s, st.w);
      CalmByWriter(s, st);
    } else if st.ReadLine? || st.Ack? || st.LastLine? || st.UnlinkData? || st.UnlinkTracker? {
      CalmByLoop(s, st);
    } else {
      CalmByReader(s, st);
    }
  }

  lemma {:induction false} CalmRunKeeps(s: State, steps: seq<Step>)
    requires Inv(s) && HistoryOk(s) && CalmState(s) && Valid(s, steps) && CalmRun(s, steps)
    ensures Inv(Run(s, steps)) && HistoryOk(Run(s, steps)) && CalmState(Run(s, steps))
    decreases |steps|
  {
    if steps != [] {
      InvStep(s, steps[0]);
      HistoryStep(s, steps[0]);
      CalmStep(s, steps[0]);
      CalmRunKeeps(Do(s, steps[0]), steps[1..]);
    }
  }

  /** Line k of writer w is in a file of the writing directory, or still ahead of the reader, or consumed. */
  ghost predicate Safe(s: State, w: WriterId, k: nat)
    requires w in s.writers && k < |s.writers[w].written| && k < |s.writers[w].place|
  {
    var l, n := s.writers[w].written[k], s.writers[w].place[k];
    && n in s.files
    && exists j | 0 <= j < |s.files[n].lines| ::
         s.files[n].lines[j] == l
         && (s.files[n].dir == Writing
             || l in s.acked
             || (s.files[n].dir == Reading
                 && (s.files[n].tracker.Some? ==> s.files[n].tracker.value <= j)
                 && (s.files[n].tracker.None? ==> Holds(s.reader, n))))
  }

  /**
   * At-least-once delivery: at every moment of every calm run, no appended line is lost, and a data
   * file is gone only once all its lines were consumed.
   */
  lemma NoLoss(ids: set<WriterId>, steps: seq<Step>)
    requires Valid(Init(ids), steps) && CalmRun(Init(ids), steps)
    ensures var s := Run(Init(ids), steps);
            && (forall w, k | w in s.writers && 0 <= k < |s.writers[w].written| ::
                  k < |s.writers[w].place| && Safe(s, w, k))
            && (forall n, j | n in s.files && s.files[n].dir == Unlinked && 0 <= j < |s.files[n].lines| ::
                  s.files[n].lines[j] in s.acked)
  {
    InvInit(ids);
    CalmRunKeeps(Init(ids), steps);
    var s := Run(Init(ids), steps);
    forall w, k | w in s.writers && 0 <= k < |s.writers[w].written|
      ensures k < |s.writers[w].place| && Safe(s, w, k)
    {
      SafeLine(s, w, k);
    }
    forall n, j | n in s.files && s.files[n].dir == Unlinked && 0 <= j < |s.files[n].lines|
      ensures s.files[n].lines[j] in s.acked
    {
      assert FileOk(s, n) && CalmFile(s, n) && CountersOk(s, n);
    }
  }

  lemma SafeLine(s: State, w: WriterId, k: nat)
    requires Inv(s) && HistoryOk(s) && CalmState(s) && w in s.writers && k < |s.writers[w].written|
    ensures k < |s.writers[w].place| && Safe(s, w, k)
  {
    assert WriterOk(s, w);
    assert Located(s, w, k);
    var n := s.writers[w].place[k];
    assert FileOk(s, n) && CalmFile(s, n) && CountersOk(s, n);
    assert s.files[n].lines[k - s.files[n].base] == s.writers[w].written[k];
  }
}
