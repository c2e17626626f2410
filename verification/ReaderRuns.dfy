// The runs of the reader's generator between two points where it is suspended.

module ReaderRuns {
  import opened QueueTypes
  import opened QueueFiles
  import opened QueueInvariant
  import opened QueueDelivery

  /** These steps of the reader alone lead from s to s'. */
  ghost predicate ReaderRun(s: State, steps: seq<Step>, s': State) {
    && Valid(s, steps) && Run(s, steps) == s'
    && (forall st | st in steps :: ByReader(st))
    && Punctual(s')
  }

  /** The reader is at a point of its loop where it has a file, and the file's record exists. */
  predicate AtFile(s: State) { !s.reader.Choosing? && s.reader.n in s.files }

  /** One more step, from a state that the run has reached. */
  lemma Extend(s0: State, steps: seq<Step>, s: State, st: Step)
    requires Inv(s0) && ReaderRun(s0, steps, s) && Enabled(s, st) && ByReader(st)
    ensures ReaderRun(s0, steps + [st], Do(s, st)) && Closer(s, Do(s, st))
    ensures !Do(s, st).reader.Choosing? ==> AtFile(Do(s, st))
  {
    InvRun(s0, steps);
    ThenStep(s0, steps, st);
    InvStep(s, st);
    CloserStep(s, st);
  }

  lemma CloserTwice(a: State, b: State, c: State)
    requires Closer(a, b) && Closer(b, c)
    ensures Closer(a, c)
  {
  }

  lemma OneCloser(s: State, st: Step)
    requires Inv(s) && Punctual(s) && Enabled(s, st) && ByReader(st)
    ensures Inv(Do(s, st)) && Punctual(Do(s, st)) && Closer(s, Do(s, st))
  {
    InvStep(s, st);
    CloserStep(s, st);
  }

  /** A run of the reader that takes a step at all brings it closer to an empty queue. */
  lemma {:induction false} RunIsCloser(s: State, steps: seq<Step>)
    requires Inv(s) && Punctual(s) && Valid(s, steps) && (forall st | st in steps :: ByReader(st)) && steps != []
    ensures Closer(s, Run(s, steps))
    decreases |steps|
  {
    var rest := steps[1..];
    assert ByReader(steps[0]) && forall st | st in rest :: st in steps;
    OneCloser(s, steps[0]);
    if rest != [] {
      RunIsCloser(Do(s, steps[0]), rest);
      CloserTwice(s, Do(s, steps[0]), Run(Do(s, steps[0]), rest));
    }
  }

  // ---- unlinking both files ----

  function Deleted(s: State): State
    requires s.reader.Drained? && AtFile(s)
  {
    DoUnlinkTracker(DoUnlinkData(s))
  }

  lemma DeletedRun(s0: State, steps: seq<Step>, s: State)
    requires Inv(s0) && ReaderRun(s0, steps, s) && s.reader.Drained? && AtFile(s)
    ensures ReaderRun(s0, steps + [UnlinkData] + [UnlinkTracker], Deleted(s)) && Closer(s, Deleted(s))
  {
    Extend(s0, steps, s, UnlinkData);
    Extend(s0, steps + [UnlinkData], DoUnlinkData(s), UnlinkTracker);
    CloserTwice(s, DoUnlinkData(s), Deleted(s));
  }

  // ---- from a yield, or from the wait at the end of the file ----

  function ResumeSteps(s: State): seq<Step> {
    if s.reader.YieldedLast? then [Ack] + [UnlinkData] + [UnlinkTracker] else [Ack]
  }

  function Resumed(s: State): State
    requires AtYield(s.reader) && HeldLine(s)
  {
    if s.reader.YieldedLast? then Deleted(DoAck(s)) else DoAck(s)
  }

  lemma ResumedRun(s: State)
    requires Inv(s) && AtYield(s.reader)
    ensures HeldLine(s) && ReaderRun(s, ResumeSteps(s), Resumed(s)) && CurrentLine(s) in Resumed(s).acked
    ensures !Resumed(s).reader.Choosing? ==> AtFile(Resumed(s))
  {
    assert FileOk(s, s.reader.n);
    assert [] + [Ack] == [Ack];
    Extend(s, [], s, Ack);
    if s.reader.YieldedLast? {
      DeletedRun(s, [Ack], DoAck(s));
    }
  }

  function FinalReadSteps(s: State): seq<Step>
    requires s.reader.AtEof? && AtFile(s)
  {
    if DoLastLine(s).reader.YieldedLast? then [LastLine] else [LastLine] + [UnlinkData] + [UnlinkTracker]
  }

  function FinalRead(s: State): State
    requires s.reader.AtEof? && AtFile(s)
  {
    var s1 := DoLastLine(s);
    if s1.reader.YieldedLast? then s1 else Deleted(s1)
  }

  lemma FinalReadRun(s: State)
    requires Inv(s) && s.reader.AtEof?
    ensures AtFile(s) && ReaderRun(s, FinalReadSteps(s), FinalRead(s))
  {
    assert [] + [LastLine] == [LastLine];
    Extend(s, [], s, LastLine);
    if !DoLastLine(s).reader.YieldedLast? {
      DeletedRun(s, [LastLine], DoLastLine(s));
    }
  }

  // ---- opening the chosen file ----

  function OpenSteps(s: State): seq<Step>
    requires s.reader.Chosen? && AtFile(s)
  {
    if s.files[s.reader.n].dir == Reading then [CheckData] + [OpenTracker] + [ReadSkip] else [CheckData]
  }

  function Opened(s: State): State
    requires s.reader.Chosen? && AtFile(s)
  {
    var s1 := DoCheckData(s);
    if s.files[s.reader.n].dir == Reading then DoReadSkip(DoOpenTracker(s1)) else s1
  }

  lemma OpenedRun(s0: State, steps: seq<Step>, s: State)
    requires Inv(s0) && ReaderRun(s0, steps, s) && s.reader.Chosen? && AtFile(s)
    ensures ReaderRun(s0, steps + OpenSteps(s), Opened(s)) && Closer(s, Opened(s))
  {
    Extend(s0, steps, s, CheckData);
    var s1 := DoCheckData(s);
    if s.files[s.reader.n].dir == Reading {
      CheckedOpens(s);
      TrackedRun(s0, steps + [CheckData], s1);
      CloserTwice(s, s1, Opened(s));
      assert steps + [CheckData] + ([OpenTracker] + [ReadSkip]) == steps + OpenSteps(s);
    }
  }

  lemma CheckedOpens(s: State)
    requires s.reader.Chosen? && AtFile(s) && s.files[s.reader.n].dir == Reading
    ensures DoCheckData(s).reader.DataOpen? && AtFile(DoCheckData(s))
    ensures Opened(s) == DoReadSkip(DoOpenTracker(DoCheckData(s)))
    ensures OpenSteps(s) == [CheckData] + ([OpenTracker] + [ReadSkip])
  {
  }

  lemma TrackedRun(s0: State, steps: seq<Step>, s: State)
    requires Inv(s0) && ReaderRun(s0, steps, s) && s.reader.DataOpen? && AtFile(s)
    ensures ReaderRun(s0, steps + ([OpenTracker] + [ReadSkip]), DoReadSkip(DoOpenTracker(s)))
    ensures Closer(s, DoReadSkip(DoOpenTracker(s)))
  {
    var s1 := DoOpenTracker(s);
    Extend(s0, steps, s, OpenTracker);
    Extend(s0, steps + [OpenTracker], s1, ReadSkip);
    CloserTwice(s, s1, DoReadSkip(s1));
    assert steps + [OpenTracker] + [ReadSkip] == steps + ([OpenTracker] + [ReadSkip]);
  }

  // ---- choosing a file ----

  /** File n may be chosen next: it has a tracker, or nothing has one and it is the oldest in the writing directory. */
  predicate Choosable(s: State, n: Name) {
    Tracked(s, n) || (NoTracker(s) && Oldest(s, n))
  }

  function ChooseSteps(s: State, n: Name): seq<Step> {
    if Tracked(s, n) then [ChooseTracked(n)] else [ChooseOldest(n)] + [Rename]
  }

  function Taken(s: State, n: Name): State
    requires Choosable(s, n)
  {
    if Tracked(s, n) then s.(reader := Chosen(n)) else DoRename(s.(reader := Renaming(n)))
  }

  lemma TakenRun(s0: State, steps: seq<Step>, s: State, n: Name)
    requires Inv(s0) && ReaderRun(s0, steps, s) && s.reader.Choosing? && Choosable(s, n)
    ensures Taken(s, n).reader.Chosen? && AtFile(Taken(s, n))
    ensures ReaderRun(s0, steps + ChooseSteps(s, n) + OpenSteps(Taken(s, n)), Opened(Taken(s, n)))
    ensures Closer(s, Opened(Taken(s, n)))
  {
    if Tracked(s, n) {
      Extend(s0, steps, s, ChooseTracked(n));
    } else {
      var s1 := s.(reader := Renaming(n));
      Extend(s0, steps, s, ChooseOldest(n));
      Extend(s0, steps + [ChooseOldest(n)], s1, Rename);
      CloserTwice(s, s1, DoRename(s1));
      assert steps + [ChooseOldest(n)] + [Rename] == steps + ChooseSteps(s, n);
    }
    OpenedRun(s0, steps + ChooseSteps(s, n), Taken(s, n));
    CloserTwice(s, Taken(s, n), Opened(Taken(s, n)));
  }
}
