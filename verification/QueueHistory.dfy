// The record of what was handed over and consumed agrees with the files.

module QueueHistory {
  import opened QueueTypes
  import opened QueueFiles
  import opened QueueInvariant

  /** The counters of file n agree with the record of what was handed over and consumed. */
  ghost predicate CountersOk(s: State, n: Name)
    requires n in s.files
  {
    var f := s.files[n];
    forall j | 0 <= j < |f.lines| ::
      (f.lines[j] in s.acked <==> j < f.acked) && (f.lines[j] in s.handed <==> j < f.seen)
  }

  /** Line l is the one its writer appended under this serial. */
  ghost predicate Appended(s: State, l: Line) {
    l.writer in s.writers && l.serial < |s.writers[l.writer].written| && s.writers[l.writer].written[l.serial] == l
  }

  ghost predicate HistoryOk(s: State) {
    && (forall n | n in s.files :: CountersOk(s, n))
    && (forall l | l in s.handed :: Appended(s, l))
    && (forall l | l in s.acked :: l in s.handed)
  }

  /** A line is in one place only. */
  lemma OnePlace(s: State, m: Name, j: nat, n: Name, i: nat)
    requires Inv(s) && m in s.files && n in s.files && j < |s.files[m].lines| && i < |s.files[n].lines|
    requires s.files[m].lines[j] == s.files[n].lines[i]
    ensures m == n && j == i
  {
    assert FileOk(s, m) && FileOk(s, n);
    assert WriterOk(s, s.files[m].owner) && WriterOk(s, s.files[n].owner);
  }

  /** No line was consumed, handed over or appended. */
  ghost predicate Quiet(s: State, s': State) {
    && s'.handed == s.handed && s'.acked == s.acked && s'.writers.Keys == s.writers.Keys
    && (forall w | w in s.writers :: s'.writers[w].written == s.writers[w].written)
    && s.files.Keys <= s'.files.Keys
    && (forall n | n in s.files ::
          s'.files[n].lines == s.files[n].lines && s'.files[n].seen == s.files[n].seen
          && s'.files[n].acked == s.files[n].acked)
    && (forall n | n in s'.files && n !in s.files :: s'.files[n].lines == [])
  }

  lemma QuietHistory(s: State, s': State)
    requires HistoryOk(s) && Quiet(s, s')
    ensures HistoryOk(s')
  {
    forall n | n in s'.files
      ensures CountersOk(s', n)
    {
      assert n in s.files ==> CountersOk(s, n);
    }
    assert forall l | l in s.handed :: Appended(s, l);
  }

  lemma QuietWriter(s: State, st: Step)
    requires Enabled(s, st)
    requires st.Start? || st.Generate? || st.OpenExisting? || st.Fail? || st.WriterCrash?
             || (st.Create? && s.writers[st.w].last.value !in s.files)
    ensures Quiet(s, Do(s, st))
  {
  }

  lemma QuietOpen(s: State, st: Step)
    requires Enabled(s, st)
    requires st.ChooseTracked? || st.ChooseOldest? || st.Rename? || st.CheckData? || st.OpenTracker? || st.ReadSkip?
    ensures Quiet(s, Do(s, st))
  {
  }

  lemma QuietClose(s: State, st: Step)
    requires Enabled(s, st)
    requires st.UnlinkData? || st.UnlinkTracker? || st.Crash? || st.SweepData? || st.SweepTracker?
    ensures Quiet(s, Do(s, st))
  {
  }

  /** The steps that append, hand over or consume a line. */
  ghost predicate Loud(st: Step) {
    st.Append? || st.ReadLine? || st.LastLine? || st.Ack?
  }

  lemma QuietStep(s: State, st: Step)
    requires Inv(s) && Enabled(s, st) && !Loud(st)
    ensures Quiet(s, Do(s, st))
  {
    if st.Create? {
      CreateIsFresh(s, st.w);
      QuietWriter(s, st);
    } else if st.Start? || st.Generate? || st.OpenExisting? || st.Fail? || st.WriterCrash? {
      QuietWriter(s, st);
    } else if st.UnlinkData? || st.UnlinkTracker? || st.Crash? || st.SweepData? || st.SweepTracker? {
      QuietClose(s, st);
    } else {
      QuietOpen(s, st);
    }
  }

  lemma HistoryAppend(s: State, w: WriterId)
    requires Inv(s) && HistoryOk(s) && Enabled(s, Append(w))
    ensures HistoryOk(DoAppend(s, w))
  {
    var s', n, line := DoAppend(s, w), s.writers[w].last.value, s.writers[w].pc.line;
    assert WriterOk(s, w) && FileOk(s, n);
    assert line !in s.handed by { assert line in s.handed ==> Appended(s, line); }
    forall m | m in s'.files
      ensures CountersOk(s', m)
    {
      assert CountersOk(s, m);
    }
    forall l | l in s.handed
      ensures Appended(s', l)
    {
      assert Appended(s, l);
    }
  }

  /** Only line i of file n has the value of that line. */
  lemma OnlyThere(s: State, n: Name, i: nat)
    requires Inv(s) && n in s.files && i < |s.files[n].lines|
    ensures forall m, j | m in s.files && 0 <= j < |s.files[m].lines| && s.files[m].lines[j] == s.files[n].lines[i] ::
              m == n && j == i
    ensures Appended(s, s.files[n].lines[i])
  {
    forall m, j | m in s.files && 0 <= j < |s.files[m].lines| && s.files[m].lines[j] == s.files[n].lines[i]
      ensures m == n && j == i
    {
      OnePlace(s, m, j, n, i);
    }
    assert FileOk(s, n);
    assert WriterOk(s, s.files[n].owner);
  }

  lemma HistoryYield(s: State, n: Name, i: nat, pc: ReaderPc)
    requires n in s.files && i < |s.files[n].lines| && HistoryOk(s) && i <= s.files[n].seen
    requires Appended(s, s.files[n].lines[i])
    requires forall m, j | m in s.files && 0 <= j < |s.files[m].lines| && s.files[m].lines[j] == s.files[n].lines[i] ::
               m == n && j == i
    ensures HistoryOk(Yield(s, n, i, pc))
  {
    var s' := Yield(s, n, i, pc);
    forall m | m in s'.files
      ensures CountersOk(s', m)
    {
      assert CountersOk(s, m);
    }
    forall k | k in s'.handed
      ensures Appended(s', k)
    {
      assert k in s.handed || k == s.files[n].lines[i];
      assert k in s.handed ==> Appended(s, k);
    }
  }

  lemma HistoryConsume(s: State)
    requires AtYield(s.reader) && HeldLine(s) && HistoryOk(s)
    requires s.reader.i <= s.files[s.reader.n].acked && s.reader.i < s.files[s.reader.n].seen
    requires forall m, j | m in s.files && 0 <= j < |s.files[m].lines| && s.files[m].lines[j] == CurrentLine(s) ::
               m == s.reader.n && j == s.reader.i
    ensures HistoryOk(DoAck(s))
  {
    var s' := DoAck(s);
    assert CountersOk(s, s.reader.n);
    forall m | m in s'.files
      ensures CountersOk(s', m)
    {
      assert CountersOk(s, m);
    }
    forall k | k in s.handed
      ensures Appended(s', k)
    {
      assert Appended(s, k);
    }
  }

  lemma HistoryAck(s: State)
    requires Inv(s) && HistoryOk(s) && AtYield(s.reader) && HeldLine(s)
    ensures HistoryOk(DoAck(s))
    ensures !s.files[s.reader.n].rewound ==> CurrentLine(s) !in s.acked
  {
    var n := s.reader.n;
    assert FileOk(s, n) && CountersOk(s, n);
    OnlyThere(s, n, s.reader.i);
    HistoryConsume(s);
  }

  lemma HistoryRead(s: State, st: Step)
    requires Inv(s) && HistoryOk(s) && Enabled(s, st) && (st.ReadLine? || st.LastLine?)
    ensures HistoryOk(Do(s, st))
  {
    var n, i := s.reader.n, s.reader.i;
    if i < |s.files[n].lines| {
      assert FileOk(s, n);
      OnlyThere(s, n, i);
      HistoryYield(s, n, i, if st.ReadLine? then Yielded(n, i) else YieldedLast(n, i));
    } else {
      QuietHistory(s, Do(s, st));
    }
  }

  lemma HistoryStep(s: State, st: Step)
    requires Inv(s) && HistoryOk(s) && Enabled(s, st)
    ensures HistoryOk(Do(s, st))
  {
    if st.Append? {
      HistoryAppend(s, st.w);
    } else if st.Ack? {
      HistoryAck(s);
    } else if st.ReadLine? || st.LastLine? {
      HistoryRead(s, st);
    } else {
      QuietStep(s, st);
      QuietHistory(s, Do(s, st));
    }
  }

  lemma {:induction false} HistoryRun(s: State, steps: seq<Step>)
    requires Inv(s) && HistoryOk(s) && Valid(s, steps)
    ensures Inv(Run(s, steps)) && HistoryOk(Run(s, steps))
    decreases |steps|
  {
    if steps != [] {
      InvStep(s, steps[0]);
      HistoryStep(s, steps[0]);
      HistoryRun(Do(s, steps[0]), steps[1..]);
    }
  }
}
