// At-least-once delivery: where every appended line is, which lines are lost, and
// when none is.

module QueueDelivery {
  import opened Collections
  import opened QueueTypes
  import opened QueueFiles
  import opened QueueInvariant
  import opened QueueHistory

  // ---- what no run undoes ----

  /** A file outside the writing directory stays outside, and at most the append in flight still reaches it. */
  ghost predicate LeftWriting(s: State, s': State, n: Name)
    requires n in s.files
  {
    s.files[n].dir != Writing ==>
      n in s'.files && s'.files[n].dir != Writing && s.files[n].lines <= s'.files[n].lines
      && |s'.files[n].lines| + Held(s', n) <= |s.files[n].lines| + Held(s, n)
  }

  lemma LeftByWriter(s: State, st: Step, n: Name)
    requires Enabled(s, st) && n in s.files
    requires st.Start? || st.Generate? || st.OpenExisting? || st.Fail? || st.WriterCrash? || st.Append?
             || (st.Create? && s.writers[st.w].last.value !in s.files)
    requires st.Append? ==> s.files[s.writers[st.w].last.value].owner == st.w
    ensures LeftWriting(s, Do(s, st), n)
  {
  }

  lemma LeftByReader(s: State, st: Step, n: Name)
    requires Enabled(s, st) && n in s.files
    requires st.ChooseTracked? || st.ChooseOldest? || st.Rename? || st.CheckData? || st.OpenTracker? || st.ReadSkip?
             || st.Crash?
    ensures LeftWriting(s, Do(s, st), n)
  {
  }

  lemma LeftByLoop(s: State, st: Step, n: Name)
    requires Enabled(s, st) && n in s.files
    requires st.ReadLine? || st.Ack? || st.LastLine? || st.UnlinkData? || st.UnlinkTracker? || st.SweepData? || st.SweepTracker?
    ensures LeftWriting(s, Do(s, st), n)
  {
  }

  lemma LeftWritingStep(s: State, st: Step, n: Name)
    requires Inv(s) && Enabled(s, st) && n in s.files
    ensures LeftWriting(s, Do(s, st), n)
  {
    if st.Create? {
      CreateIsFresh(s, st.w);
      LeftByWriter(s, st, n);
    } else if st.Append? {
      assert WriterOk(s, st.w);
      LeftByWriter(s, st, n);
    } else if st.Start? || st.Generate? || st.OpenExisting? || st.Fail? || st.WriterCrash? {
      LeftByWriter(s, st, n);
    } else if st.ChooseTracked? || st.ChooseOldest? || st.Rename? || st.CheckData? || st.OpenTracker? || st.ReadSkip?
              || st.Crash? {
      LeftByReader(s, st, n);
    } else {
      LeftByLoop(s, st, n);
    }
  }

  /**
   * Once moved, a name never comes back to the writing directory, and over any continuation its
   * file gains at most one line, and only if a writer held it open at the move.
   */
  lemma {:induction false} MovedForGood(s: State, steps: seq<Step>, n: Name)
    requires Inv(s) && Valid(s, steps) && n in s.files && s.files[n].dir != Writing
    ensures n in Run(s, steps).files && Run(s, steps).files[n].dir != Writing
    ensures s.files[n].lines <= Run(s, steps).files[n].lines
    ensures |Run(s, steps).files[n].lines| <= |s.files[n].lines| + Held(s, n)
    ensures |Run(s, steps).files[n].lines| + Held(Run(s, steps), n) <= |s.files[n].lines| + Held(s, n)
    decreases |steps|
  {
    if steps != [] {
      InvStep(s, steps[0]);
      LeftWritingStep(s, steps[0], n);
      MovedForGood(Do(s, steps[0]), steps[1..], n);
    }
  }

  // ---- lines that are lost ----

  /** The reader is done with file n, or cannot find it. */
  ghost predicate Closed(s: State, n: Name) {
    n in s.files
    && (s.files[n].fate.Finished?
        || (s.files[n].dir != Writing && s.files[n].tracker.None? && !Holds(s.reader, n) && s.reader != Renaming(n)))
  }

  ghost predicate StillClosed(s: State, s': State, n: Name) {
    n in s.files && Closed(s', n) && s'.files[n].seen == s.files[n].seen && s'.files[n].acked == s.files[n].acked
    && s.files[n].lines <= s'.files[n].lines
  }

  lemma ClosedForWriters(s: State, st: Step, n: Name)
    requires Enabled(s, st) && Closed(s, n)
    requires st.Start? || st.Generate? || st.OpenExisting? || st.Fail? || st.WriterCrash? || st.Append?
             || (st.Create? && s.writers[st.w].last.value !in s.files)
    ensures StillClosed(s, Do(s, st), n)
  {
  }

  lemma ClosedForReader(s: State, st: Step, n: Name)
    requires Enabled(s, st) && Closed(s, n) && ReaderOk(s) && FileShape(s.files[n])
    requires st.ChooseTracked? || st.ChooseOldest? || st.Rename? || st.CheckData? || st.OpenTracker? || st.ReadSkip?
             || st.Crash?
    ensures StillClosed(s, Do(s, st), n)
  {
  }

  lemma ClosedForLoop(s: State, st: Step, n: Name)
    requires Enabled(s, st) && Closed(s, n) && ReaderOk(s)
    requires st.ReadLine? || st.Ack? || st.LastLine? || st.UnlinkData? || st.UnlinkTracker? || st.SweepData? || st.SweepTracker?
    ensures StillClosed(s, Do(s, st), n)
  {
  }

  lemma ClosedStep(s: State, st: Step, n: Name)
    requires Inv(s) && Enabled(s, st) && Closed(s, n)
    ensures StillClosed(s, Do(s, st), n)
  {
    if st.Create? {
      CreateIsFresh(s, st.w);
      ClosedForWriters(s, st, n);
    } else if st.Start? || st.Generate? || st.OpenExisting? || st.Fail? || st.WriterCrash? || st.Append? {
      ClosedForWriters(s, st, n);
    } else if st.ChooseTracked? || st.ChooseOldest? || st.Rename? || st.CheckData? || st.OpenTracker? || st.ReadSkip?
              || st.Crash? {
      assert FileOk(s, n);
      ClosedForReader(s, st, n);
    } else {
      ClosedForLoop(s, st, n);
    }
  }

  lemma {:induction false} ClosedForever(s: State, steps: seq<Step>, n: Name)
    requires Inv(s) && Valid(s, steps) && Closed(s, n)
    ensures StillClosed(s, Run(s, steps), n)
    decreases |steps|
  {
    if steps != [] {
      InvStep(s, steps[0]);
      ClosedStep(s, steps[0], n);
      ClosedForever(Do(s, steps[0]), steps[1..], n);
    }
  }

  /** The line was left in a file without a tracker, or arrived after the last read of its file. */
  predicate Lost(f: File, j: nat) {
    f.fate.Stranded? || (f.fate.Finished? && f.fate.upTo <= j)
  }

  /** A lost line is never handed over, whatever happens next. */
  lemma LostForever(s: State, steps: seq<Step>, n: Name, j: nat)
    requires Inv(s) && HistoryOk(s) && Valid(s, steps)
    requires n in s.files && j < |s.files[n].lines| && Lost(s.files[n], j)
    ensures s.files[n].lines[j] !in Run(s, steps).handed && s.files[n].lines[j] !in Run(s, steps).acked
  {
    assert FileOk(s, n);
    ClosedForever(s, steps, n);
    HistoryRun(s, steps);
    assert CountersOk(Run(s, steps), n);
  }

  // ---- lines that are not lost: the reader alone delivers them ----

  ghost function WritingSet(s: State): set<Name> {
    set n | n in s.files && s.files[n].dir == Writing
  }

  ghost predicate InProcess(s: State) {
    !NoTracker(s) || !(s.reader.Choosing? || s.reader.Renaming?)
  }

  /** How far the reader is from having nothing left to do. */
  ghost function FilesLeft(s: State): nat {
    2 * |WritingSet(s)| + if InProcess(s) then 1 else 0
  }

  ghost function Stage(s: State): nat {
    match s.reader
    case Choosing => if NoTracker(s) then 12 else 10
    case Renaming(n) => if InDir(s, n, Writing) then 11 else 13
    case Chosen(_) => 9
    case DataOpen(_) => 8
    case TrackerOpen(_) => 7
    case AtLine(_, _) => 6
    case Yielded(_, _) => 6
    case AtEof(_, _) => 5
    case YieldedLast(_, _) => 4
    case Drained(_, _) => 3
    case DataGone(_) => 2
  }

  ghost function LinesLeft(s: State): nat {
    if (s.reader.AtLine? || s.reader.Yielded?) && s.reader.n in s.files && s.reader.i <= |s.files[s.reader.n].lines|
    then 2 * (|s.files[s.reader.n].lines| - s.reader.i) + if s.reader.AtLine? then 1 else 0
    else 0
  }

  ghost predicate Idle(s: State) {
    s.reader.Choosing? && NoTracker(s) && WritingSet(s) == {}
  }

  /** No line arrived behind the reader's back since the end of its file was read. */
  ghost predicate Punctual(s: State) {
    s.reader.Drained? && s.reader.n in s.files ==> |s.files[s.reader.n].lines| <= s.reader.i
  }

  lemma LeastName(names: set<Name>) returns (n: Name)
    requires names != {}
    ensures n in names && forall m | m in names :: n <= m
    decreases |names|
  {
    var p :| p in names;
    var smaller := set m | m in names && m < p;
    if smaller == {} {
      n := p;
      assert forall m | m in names && m < p :: m in smaller;
    } else {
      SubsetSize(smaller, names);
      n := LeastName(smaller);
      assert forall m | m in names && m < p :: m in smaller;
    }
  }

  /** The only step of the reader's loop at this point. */
  ghost function Forced(r: ReaderPc): Step
    requires !r.Choosing?
  {
    match r
    case Renaming(_) => Rename
    case Chosen(_) => CheckData
    case DataOpen(_) => OpenTracker
    case TrackerOpen(_) => ReadSkip
    case AtLine(_, _) => ReadLine
    case Yielded(_, _) => Ack
    case AtEof(_, _) => LastLine
    case YieldedLast(_, _) => Ack
    case Drained(_, _) => UnlinkData
    case DataGone(_) => UnlinkTracker
  }

  lemma NextStep(s: State) returns (st: Step)
    requires Inv(s) && !Idle(s)
    ensures Enabled(s, st) && ByReader(st)
  {
    if !s.reader.Choosing? {
      st := Forced(s.reader);
      assert s.reader.n in s.files && FileOk(s, s.reader.n);
    } else if NoTracker(s) {
      var n := LeastName(WritingSet(s));
      st := ChooseOldest(n);
      assert forall m | m in s.files && s.files[m].dir == Writing :: m in WritingSet(s);
    } else {
      var n :| n in s.files && s.files[n].tracker.Some?;
      st := ChooseTracked(n);
    }
  }

  ghost predicate ByReader(st: Step) {
    st.ChooseTracked? || st.ChooseOldest? || st.Rename? || st.CheckData? || st.OpenTracker? || st.ReadSkip?
    || st.ReadLine? || st.Ack? || st.LastLine? || st.UnlinkData? || st.UnlinkTracker?
  }

  ghost predicate Closer(s: State, s': State) {
    FilesLeft(s') < FilesLeft(s)
    || (FilesLeft(s') == FilesLeft(s)
        && (Stage(s') < Stage(s) || (Stage(s') == Stage(s) && LinesLeft(s') < LinesLeft(s))))
  }

  /** Lines stay where they are, and a live file only ever becomes a file read to its end. */
  ghost predicate Progress(s: State, s': State) {
    && s'.files.Keys == s.files.Keys
    && forall n | n in s.files ::
         && s'.files[n].lines == s.files[n].lines
         && (s.files[n].fate.Live? ==> s'.files[n].fate.Live? || s'.files[n].fate == Finished(|s.files[n].lines|))
         && (!s.files[n].fate.Live? ==> s'.files[n].fate == s.files[n].fate)
  }

  lemma CloserChoosing(s: State, st: Step)
    requires ReaderOk(s) && Enabled(s, st) && (st.ChooseTracked? || st.ChooseOldest?)
    ensures Closer(s, Do(s, st)) && Progress(s, Do(s, st)) && Punctual(Do(s, st))
  {
    assert WritingSet(Do(s, st)) == WritingSet(s);
  }

  lemma CloserRename(s: State)
    requires ReaderOk(s) && Enabled(s, Rename)
    ensures Closer(s, DoRename(s)) && Progress(s, DoRename(s)) && Punctual(DoRename(s))
  {
    var s', n := DoRename(s), s.reader.n;
    if s.files[n].dir == Writing {
      assert WritingSet(s') == WritingSet(s) - {n};
      assert |WritingSet(s')| == |WritingSet(s)| - 1;
    } else {
      assert WritingSet(s') == WritingSet(s);
    }
  }

  lemma CloserOpening(s: State, st: Step)
    requires ReaderOk(s) && Enabled(s, st) && (st.CheckData? || st.OpenTracker? || st.ReadSkip?)
    ensures Closer(s, Do(s, st)) && Progress(s, Do(s, st)) && Punctual(Do(s, st))
  {
    assert WritingSet(Do(s, st)) == WritingSet(s);
  }

  lemma CloserReading(s: State, st: Step)
    requires ReaderOk(s) && Enabled(s, st) && (st.ReadLine? || st.LastLine?)
    requires FileShape(s.files[s.reader.n])
    ensures Closer(s, Do(s, st)) && Progress(s, Do(s, st)) && Punctual(Do(s, st))
  {
    if st.ReadLine? {
      CloserReadLine(s);
    } else {
      CloserLastLine(s);
    }
  }

  lemma CloserReadLine(s: State)
    requires ReaderOk(s) && Enabled(s, ReadLine) && FileShape(s.files[s.reader.n])
    ensures Closer(s, DoReadLine(s)) && Progress(s, DoReadLine(s)) && Punctual(DoReadLine(s))
  {
    assert WritingSet(DoReadLine(s)) == WritingSet(s);
  }

  lemma CloserLastLine(s: State)
    requires ReaderOk(s) && Enabled(s, LastLine) && FileShape(s.files[s.reader.n])
    ensures Closer(s, DoLastLine(s)) && Progress(s, DoLastLine(s)) && Punctual(DoLastLine(s))
  {
    assert WritingSet(DoLastLine(s)) == WritingSet(s);
  }

  lemma CloserAck(s: State)
    requires ReaderOk(s) && Enabled(s, Ack) && FileShape(s.files[s.reader.n])
    ensures Closer(s, DoAck(s)) && Progress(s, DoAck(s)) && Punctual(DoAck(s))
  {
    assert WritingSet(DoAck(s)) == WritingSet(s);
  }

  lemma CloserUnlinking(s: State, st: Step)
    requires ReaderOk(s) && Enabled(s, st) && (st.UnlinkData? || st.UnlinkTracker?)
    requires FileShape(s.files[s.reader.n]) && Punctual(s)
    ensures Closer(s, Do(s, st)) && Progress(s, Do(s, st)) && Punctual(Do(s, st))
  {
    assert WritingSet(Do(s, st)) == WritingSet(s);
  }

  lemma CloserStep(s: State, st: Step)
    requires Inv(s) && Enabled(s, st) && ByReader(st) && Punctual(s)
    ensures Closer(s, Do(s, st)) && Progress(s, Do(s, st)) && Punctual(Do(s, st))
  {
    assert !s.reader.Choosing? ==> s.reader.n in s.files && FileOk(s, s.reader.n);
    if st.ChooseTracked? || st.ChooseOldest? {
      CloserChoosing(s, st);
    } else if st.Rename? {
      CloserRename(s);
    } else if st.CheckData? || st.OpenTracker? || st.ReadSkip? {
      CloserOpening(s, st);
    } else if st.ReadLine? || st.LastLine? {
      CloserReading(s, st);
    } else if st.Ack? {
      CloserAck(s);
    } else {
      CloserUnlinking(s, st);
    }
  }

  /** Left alone, the reader empties the queue: every live file ends up read to its end and unlinked. */
  lemma Drain(s: State) returns (steps: seq<Step>)
    requires Inv(s) && Punctual(s)
    ensures Valid(s, steps) && Idle(Run(s, steps)) && Progress(s, Run(s, steps)) && Inv(Run(s, steps))
    ensures forall st | st in steps :: ByReader(st)
    ensures forall n | n in s.files && s.files[n].fate.Live? ::
              Run(s, steps).files[n].fate == Finished(|s.files[n].lines|)
    decreases FilesLeft(s), Stage(s), LinesLeft(s)
  {
    if Idle(s) {
      steps := [];
      assert forall n | n in s.files :: FileOk(s, n) && n !in WritingSet(s);
    } else {
      var st := NextStep(s);
      CloserStep(s, st);
      InvStep(s, st);
      var rest := Drain(Do(s, st));
      steps := [st] + rest;
      assert steps[1..] == rest;
    }
  }

  /**
   * Exactly the lost lines are undeliverable: whatever state a run without sweeps of this file has
   * reached, some continuation consumes the line if and only if it was neither left in a file without
   * a tracker nor appended after the last read of its file.
   */
  lemma DeliverableIff(s: State, n: Name, j: nat)
    requires Inv(s) && HistoryOk(s) && n in s.files && j < |s.files[n].lines| && !s.files[n].fate.Swept?
    ensures (exists steps :: Valid(s, steps) && s.files[n].lines[j] in Run(s, steps).acked) <==> !Lost(s.files[n], j)
  {
    if Lost(s.files[n], j) {
      forall steps | Valid(s, steps)
        ensures s.files[n].lines[j] !in Run(s, steps).acked
      {
        LostForever(s, steps, n, j);
      }
    } else {
      var steps := Deliver(s, n, j);
    }
  }

  lemma Deliver(s: State, n: Name, j: nat) returns (steps: seq<Step>)
    requires Inv(s) && HistoryOk(s) && n in s.files && j < |s.files[n].lines| && !s.files[n].fate.Swept?
    requires !Lost(s.files[n], j)
    ensures Valid(s, steps) && s.files[n].lines[j] in Run(s, steps).acked
  {
    assert FileOk(s, n);
    if s.files[n].fate.Finished? {
      steps := [];
      assert CountersOk(s, n);
    } else if Punctual(s) {
      steps := DeliverByDraining(s, n, j);
    } else {
      steps := DeliverByRestart(s, n, j);
    }
  }

  /** A restart of the reader reads the line that arrived after the last read. */
  lemma DeliverByRestart(s: State, n: Name, j: nat) returns (steps: seq<Step>)
    requires Inv(s) && HistoryOk(s) && !Punctual(s) && n in s.files && j < |s.files[n].lines| && s.files[n].fate.Live?
    ensures Valid(s, steps) && s.files[n].lines[j] in Run(s, steps).acked
  {
    Restart(s);
    var rest := DeliverByDraining(DoCrash(s), n, j);
    AfterCrash(s, rest);
    steps := [Crash] + rest;
  }

  lemma AfterCrash(s: State, rest: seq<Step>)
    requires Valid(DoCrash(s), rest)
    ensures Valid(s, [Crash] + rest) && Run(s, [Crash] + rest) == Run(DoCrash(s), rest)
  {
    assert ([Crash] + rest)[1..] == rest;
  }

  lemma DeliverByDraining(s: State, n: Name, j: nat) returns (steps: seq<Step>)
    requires Inv(s) && HistoryOk(s) && Punctual(s) && n in s.files && j < |s.files[n].lines| && s.files[n].fate.Live?
    ensures Valid(s, steps) && s.files[n].lines[j] in Run(s, steps).acked
  {
    steps := Drain(s);
    HistoryRun(s, steps);
    assert FileOk(Run(s, steps), n) && CountersOk(Run(s, steps), n);
  }

  lemma Restart(s: State)
    requires Inv(s) && HistoryOk(s) && !Punctual(s)
    ensures Inv(DoCrash(s)) && HistoryOk(DoCrash(s)) && Punctual(DoCrash(s)) && DoCrash(s).files == s.files
  {
    InvStep(s, Crash);
    HistoryStep(s, Crash);
  }
}
