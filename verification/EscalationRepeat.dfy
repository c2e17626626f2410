// A run in which a settled line is submitted again although no crash forgot its acknowledgement: a sweep
// that could not remove an expired image takes the tracker of a file of sixteen lines between the reader's
// choice of the file and its reading.

module EscalationRepeat {
  import opened Collections
  import opened QueueTypes
  import opened QueueFiles
  import opened EscalationSystem
  import opened EscalationExpiry
  import opened EscalationLeftover
  import opened EscalationDuplicates
  import opened EscalationRetry
  import opened ConsumerRuns
  import opened WriterRuns
  import opened ProducerRuns

  // ---- sixteen lines in one file ----

  const COUNT: nat := CACHE_MAX_ENTRIES + 1

  function Nth(k: nat): Line { Line(0, k, k, Image(0, k), 0, Proper) }

  function Lines(n: nat): seq<Line> { seq(n, k requires 0 <= k => Nth(k)) }

  const LAST: Line := Nth(CACHE_MAX_ENTRIES)

  ghost predicate Reached(steps: seq<SysStep>, s: Sys) {
    Steps(InitSys({0}), steps) && After(InitSys({0}), steps) == s
  }

  lemma Then(steps: seq<SysStep>, s: Sys, st: SysStep)
    requires Reached(steps, s) && Can(s, st)
    ensures Reached(steps + [st], Next(s, st))
  {
    StepsThen(InitSys({0}), steps, st);
  }

  lemma ThenAll(steps: seq<SysStep>, s: Sys, more: seq<SysStep>)
    requires Reached(steps, s) && Steps(s, more)
    ensures Reached(steps + more, After(s, more))
  {
    Joined(InitSys({0}), steps, more);
  }

  lemma OneMore(n: nat)
    ensures Lines(n) + [Nth(n)] == Lines(n + 1)
  {
  }

  /** Nothing was read yet and n lines are queued. */
  ghost predicate Queueing(s: Sys, n: nat) {
    && s.q.files == map[5 := File(Lines(n), Writing, None, 0, 0, 0, 0, false, false, Live)] && s.q.used == {5}
    && 0 in s.q.writers && s.q.writers[0].last == Some(5) && s.q.writers[0].num == n && s.q.writers[0].pc.Idle?
    && s.q.writers[0].written == Lines(n)
    && s.env.clock == 0 && 0 in s.env.drafts && s.env.drafts[0].NoDraft? && 0 in s.env.attempts && s.env.attempts[0] == n
    && (forall k | 0 <= k < n :: Image(0, k) in s.env.images)
    && Untouched(s)
  }

  ghost predicate Untouched(s: Sys) {
    s.q.reader.Choosing? && s.consumer.Resting? && s.cache == [] && s.log.submitted == s.log.lostAcks == multiset{}
  }

  lemma FirstEffect()
    ensures var s := InitSys({0});
            Enabled(s.q, Step.Start(0, Nth(0))) && FreshName(s.q, 0, 5) && Queueing(Queued(s, 0, Nth(0), 5, NoFault), 1)
  {
    assert Lines(0) == [] && [] + [Nth(0)] == Lines(1) == [Nth(0)];
  }

  lemma NextEffect(s: Sys, n: nat)
    requires Queueing(s, n) && 0 < n < MAX_QUEUE_FILE_LINES
    ensures Enabled(s.q, Step.Start(0, Nth(n))) && FreshName(s.q, 0, 6)
    ensures Queueing(Queued(s, 0, Nth(n), 6, NoFault), n + 1)
  {
    OneMore(n);
  }

  lemma FirstQueued() returns (steps: seq<SysStep>, s: Sys)
    ensures Reached(steps, s) && Queueing(s, 1)
  {
    SysStart({0});
    FirstEffect();
    steps := QueuedRun(InitSys({0}), 0, Nth(0), 5, NoFault);
    s := Queued(InitSys({0}), 0, Nth(0), 5, NoFault);
  }

  lemma NextQueued(before: seq<SysStep>, s: Sys, n: nat) returns (steps: seq<SysStep>, s': Sys)
    requires Reached(before, s) && Queueing(s, n) && 0 < n < MAX_QUEUE_FILE_LINES
    ensures Reached(steps, s') && Queueing(s', n + 1)
  {
    SysStart({0});
    SysRun(InitSys({0}), before);
    NextEffect(s, n);
    var more := QueuedRun(s, 0, Nth(n), 6, NoFault);
    ThenAll(before, s, more);
    steps, s' := before + more, Queued(s, 0, Nth(n), 6, NoFault);
  }

  lemma {:induction false} AllQueued(n: nat) returns (steps: seq<SysStep>, s: Sys)
    requires 0 < n <= COUNT
    ensures Reached(steps, s) && Queueing(s, n)
  {
    if n == 1 {
      steps, s := FirstQueued();
    } else {
      steps, s := AllQueued(n - 1);
      steps, s := NextQueued(steps, s, n - 1);
    }
  }

  // ---- reading them ----

  ghost predicate FileThere(q: State) {
    5 in q.files && q.files[5].lines == Lines(COUNT) && q.files[5].dir == Reading && q.files[5].tracker.Some?
  }

  /** The image of the last line is there, and the line was submitted `times` times. */
  ghost predicate Kept(s: Sys, cache: seq<RequestId>, times: nat, settled: bool) {
    && s.cache == cache && LAST.image in s.env.images && 5 in s.env.movedAt
    && s.log.lostAcks == multiset{} && s.log.submitted[LAST] == times && (settled ==> LAST in s.log.settled)
  }

  /** The file was moved, with a tracker or not, and no line of it is with the consumer. */
  ghost predicate At(s: Sys, pc: ReaderPc, tracked: bool, cache: seq<RequestId>, times: nat, settled: bool) {
    && 5 in s.q.files && s.q.files[5].lines == Lines(COUNT) && s.q.files[5].dir == Reading
    && s.q.files[5].tracker.Some? == tracked
    && s.q.reader == pc && s.consumer.Resting? && Kept(s, cache, times, settled)
  }

  /** The reader is about to read line i. */
  ghost predicate ReadyAt(s: Sys, i: nat, cache: seq<RequestId>, times: nat, settled: bool) {
    At(s, ReaderPc.AtLine(5, i), true, cache, times, settled)
  }

  /** Line i is with the consumer, which is at pc. */
  ghost predicate HandedOver(s: Sys, i: nat, pc: ConsumerPc) {
    FileThere(s.q) && s.q.reader == ReaderPc.Yielded(5, i) && s.consumer == pc
  }

  lemma ReadEffect(s: Sys, i: nat)
    requires FileThere(s.q) && s.q.reader == ReaderPc.AtLine(5, i) && i < COUNT
    ensures Can(s, Queue(ReadLine))
    ensures var s' := Next(s, Queue(ReadLine));
            && HandedOver(s', i, Checking) && InHand(s'.q) && CurrentLine(s'.q) == Nth(i)
            && s'.env == s.env && s'.cache == s.cache && s'.log == s.log
  {
  }

  lemma AckEffect(s: Sys, i: nat, o: Outcome)
    requires HandedOver(s, i, Done(o)) && i < COUNT
    ensures Can(s, Queue(Ack))
    ensures var s' := Next(s, Queue(Ack));
            && FileThere(s'.q) && s'.q.reader == ReaderPc.AtLine(5, i + 1) && s'.consumer.Resting?
            && s'.env == s.env && s'.cache == s.cache && s'.log == s.log.(outcomes := s'.log.outcomes)
  {
  }

  lemma {:induction false} ConsumersKeep(s: Sys, steps: seq<SysStep>)
    requires Steps(s, steps) && forall st | st in steps :: st.Consume?
    ensures After(s, steps).log.lostAcks == s.log.lostAcks && s.log.settled <= After(s, steps).log.settled
    decreases |steps|
  {
    if steps != [] {
      assert steps[0].Consume? && forall st | st in steps[1..] :: st in steps;
      ConsumersKeep(Next(s, steps[0]), steps[1..]);
    }
  }

  /** An earlier line is handled to the end: submitted if its image is there. */
  lemma HandledOnce(s: Sys, i: nat, cache: seq<RequestId>, times: nat, settled: bool) returns (more: seq<SysStep>, s': Sys)
    requires HandedOver(s, i, Checking) && InHand(s.q) && CurrentLine(s.q) == Nth(i) && Kept(s, cache, times, settled)
    requires i < CACHE_MAX_ENTRIES && i !in cache
    ensures Steps(s, more) && After(s, more) == s'
    ensures s'.consumer.Done? && HandedOver(s', i, s'.consumer)
    ensures Kept(s', RequestWindow.Add(cache, i, CACHE_MAX_ENTRIES), times, settled)
  {
    more, s' := HandledRun(s, [Cloud(Success)], 0);
    ConsumersKeep(s, more);
  }

  lemma OneLine(before: seq<SysStep>, s: Sys, i: nat, cache: seq<RequestId>, times: nat, settled: bool)
    returns (steps: seq<SysStep>, s': Sys)
    requires Reached(before, s) && ReadyAt(s, i, cache, times, settled) && i < CACHE_MAX_ENTRIES && i !in cache
    ensures Reached(steps, s')
    ensures ReadyAt(s', i + 1, RequestWindow.Add(cache, i, CACHE_MAX_ENTRIES), times, settled)
  {
    ReadEffect(s, i);
    Then(before, s, Queue(ReadLine));
    var s1 := Next(s, Queue(ReadLine));
    var more, s2 := HandledOnce(s1, i, cache, times, settled);
    ThenAll(before + [Queue(ReadLine)], s1, more);
    AckEffect(s2, i, s2.consumer.outcome);
    Then(before + [Queue(ReadLine)] + more, s2, Queue(Ack));
    steps, s' := before + [Queue(ReadLine)] + more + [Queue(Ack)], Next(s2, Queue(Ack));
  }

  // ---- the cache in the first and in the second pass ----

  /** The ids of the first n lines. */
  function Ids(n: nat): seq<RequestId> { seq(n, k requires 0 <= k => k) }

  /** The ids after line j, and those before it again: all but its own. */
  function AllBut(j: nat): seq<RequestId>
    requires j <= CACHE_MAX_ENTRIES
  {
    seq(CACHE_MAX_ENTRIES, k requires 0 <= k => if j + 1 + k < COUNT then j + 1 + k else j + 1 + k - COUNT)
  }

  lemma FillStep(n: nat)
    requires n < CACHE_MAX_ENTRIES
    ensures n !in Ids(n) && RequestWindow.Add(Ids(n), n, CACHE_MAX_ENTRIES) == Ids(n + 1)
  {
  }

  lemma FullStep()
    ensures RequestWindow.MakeRoom(Ids(CACHE_MAX_ENTRIES), CACHE_MAX_ENTRIES) + [CACHE_MAX_ENTRIES] == AllBut(0)
    ensures CACHE_MAX_ENTRIES !in Ids(CACHE_MAX_ENTRIES)
  {
  }

  lemma TurnStep(j: nat)
    requires j < CACHE_MAX_ENTRIES
    ensures j !in AllBut(j) && RequestWindow.Add(AllBut(j), j, CACHE_MAX_ENTRIES) == AllBut(j + 1)
  {
  }

  lemma {:induction false} FirstPass(before: seq<SysStep>, s: Sys, n: nat) returns (steps: seq<SysStep>, s': Sys)
    requires Reached(before, s) && ReadyAt(s, 0, Ids(0), 0, false) && n <= CACHE_MAX_ENTRIES
    ensures Reached(steps, s') && ReadyAt(s', n, Ids(n), 0, false)
  {
    steps, s' := before, s;
    if n > 0 {
      steps, s' := FirstPass(before, s, n - 1);
      FillStep(n - 1);
      steps, s' := OneLine(steps, s', n - 1, Ids(n - 1), 0, false);
    }
  }

  lemma {:induction false} SecondPass(before: seq<SysStep>, s: Sys, n: nat) returns (steps: seq<SysStep>, s': Sys)
    requires Reached(before, s) && ReadyAt(s, 0, AllBut(0), 1, true) && n <= CACHE_MAX_ENTRIES
    ensures Reached(steps, s') && ReadyAt(s', n, AllBut(n), 1, true)
  {
    steps, s' := before, s;
    if n > 0 {
      steps, s' := SecondPass(before, s, n - 1);
      TurnStep(n - 1);
      steps, s' := OneLine(steps, s', n - 1, AllBut(n - 1), 1, true);
    }
  }

  // ---- the choice of the file, and the sweep after it ----

  /** The reader chose the file, which has no tracker. */
  ghost predicate ChosenAt(s: Sys, cache: seq<RequestId>, times: nat, settled: bool) {
    At(s, ReaderPc.Chosen(5), false, cache, times, settled)
  }

  lemma TakenEffect(s: Sys)
    requires Queueing(s, COUNT)
    ensures Can(s, Queue(ChooseOldest(5))) && Can(Next(s, Queue(ChooseOldest(5))), Queue(Rename))
    ensures ChosenAt(Next(Next(s, Queue(ChooseOldest(5))), Queue(Rename)), Ids(0), 0, false)
  {
  }

  lemma CheckEffect(s: Sys, cache: seq<RequestId>, times: nat, settled: bool)
    requires ChosenAt(s, cache, times, settled)
    ensures Can(s, Queue(CheckData))
    ensures At(Next(s, Queue(CheckData)), ReaderPc.DataOpen(5), false, cache, times, settled)
  {
  }

  lemma TrackEffect(s: Sys, cache: seq<RequestId>, times: nat, settled: bool)
    requires At(s, ReaderPc.DataOpen(5), false, cache, times, settled)
    ensures Can(s, Queue(OpenTracker)) && Next(s, Queue(OpenTracker)).q.files[5].tracker == Some(0)
    ensures At(Next(s, Queue(OpenTracker)), ReaderPc.TrackerOpen(5), true, cache, times, settled)
  {
  }

  lemma SkipEffect(s: Sys, cache: seq<RequestId>, times: nat, settled: bool)
    requires At(s, ReaderPc.TrackerOpen(5), true, cache, times, settled) && s.q.files[5].tracker == Some(0)
    ensures Can(s, Queue(ReadSkip)) && ReadyAt(Next(s, Queue(ReadSkip)), 0, cache, times, settled)
  {
  }

  lemma Opened(before: seq<SysStep>, s: Sys, cache: seq<RequestId>, times: nat, settled: bool)
    returns (steps: seq<SysStep>, s': Sys)
    requires Reached(before, s) && ChosenAt(s, cache, times, settled)
    ensures Reached(steps, s') && ReadyAt(s', 0, cache, times, settled)
  {
    CheckEffect(s, cache, times, settled);
    Then(before, s, Queue(CheckData));
    steps, s' := before + [Queue(CheckData)], Next(s, Queue(CheckData));
    TrackEffect(s', cache, times, settled);
    Then(steps, s', Queue(OpenTracker));
    steps, s' := steps + [Queue(OpenTracker)], Next(s', Queue(OpenTracker));
    SkipEffect(s', cache, times, settled);
    Then(steps, s', Queue(ReadSkip));
    steps, s' := steps + [Queue(ReadSkip)], Next(s', Queue(ReadSkip));
  }

  lemma FirstTaken() returns (steps: seq<SysStep>, s: Sys)
    ensures Reached(steps, s) && ChosenAt(s, Ids(0), 0, false)
  {
    steps, s := AllQueued(COUNT);
    TakenEffect(s);
    Then(steps, s, Queue(ChooseOldest(5)));
    steps, s := steps + [Queue(ChooseOldest(5))], Next(s, Queue(ChooseOldest(5)));
    Then(steps, s, Queue(Rename));
    steps, s := steps + [Queue(Rename)], Next(s, Queue(Rename));
  }

  // ---- the last line, up to the removal of its image ----

  ghost predicate LastInHand(s: Sys, pc: ConsumerPc, cache: seq<RequestId>, times: nat, settled: bool) {
    HandedOver(s, CACHE_MAX_ENTRIES, pc) && InHand(s.q) && CurrentLine(s.q) == LAST && Kept(s, cache, times, settled)
  }

  /** An attempt is made and acknowledged. */
  lemma AgainEffect(s: Sys, cache: seq<RequestId>, times: nat, settled: bool)
    requires LastInHand(s, Checking, cache, times, settled) && CACHE_MAX_ENTRIES !in cache
    ensures Can(s, Consume(CheckCache)) && Next(s, Consume(CheckCache)).consumer == Submitting
    ensures Can(Next(s, Consume(CheckCache)), Consume(ReadImage))
    ensures Can(Next(Next(s, Consume(CheckCache)), Consume(ReadImage)), Consume(SubmitOk))
    ensures LastInHand(Next(Next(Next(s, Consume(CheckCache)), Consume(ReadImage)), Consume(SubmitOk)),
                       Evicting(Submitted), cache, times + 1, settled)
  {
  }

  lemma Acknowledged(before: seq<SysStep>, s: Sys, cache: seq<RequestId>, times: nat, settled: bool)
    returns (steps: seq<SysStep>, s': Sys)
    requires Reached(before, s) && LastInHand(s, Checking, cache, times, settled) && CACHE_MAX_ENTRIES !in cache
    ensures Reached(steps, s') && LastInHand(s', Evicting(Submitted), cache, times + 1, settled)
  {
    AgainEffect(s, cache, times, settled);
    Then(before, s, Consume(CheckCache));
    steps, s' := before + [Consume(CheckCache)], Next(s, Consume(CheckCache));
    Then(steps, s', Consume(ReadImage));
    steps, s' := steps + [Consume(ReadImage)], Next(s', Consume(ReadImage));
    Then(steps, s', Consume(SubmitOk));
    steps, s' := steps + [Consume(SubmitOk)], Next(s', Consume(SubmitOk));
  }

  lemma CacheEffect(s: Sys)
    requires LastInHand(s, Evicting(Submitted), Ids(CACHE_MAX_ENTRIES), 1, false)
    ensures Can(s, Consume(Evict)) && Can(Next(s, Consume(Evict)), Consume(Touch))
    ensures LastInHand(Next(Next(s, Consume(Evict)), Consume(Touch)), Removing(Submitted), AllBut(0), 1, true)
  {
    FullStep();
  }

  /** The reader crashes before the image is removed. */
  lemma CrashEffect(s: Sys)
    requires LastInHand(s, Removing(Submitted), AllBut(0), 1, true)
    ensures Can(s, Queue(Crash)) && At(Next(s, Queue(Crash)), Choosing, true, AllBut(0), 1, true)
  {
  }

  lemma ChooseEffect(s: Sys)
    requires At(s, Choosing, true, AllBut(0), 1, true)
    ensures Can(s, Queue(ChooseTracked(5)))
    ensures At(Next(s, Queue(ChooseTracked(5))), ReaderPc.Chosen(5), true, AllBut(0), 1, true)
  {
  }

  /** The time after which the sweep takes the tracker. */
  function WindowPasses(s: Sys): SysStep
    requires 5 in s.env.movedAt
  {
    Around(Tick(s.env.movedAt[5] + RETENTION + 1))
  }

  /** Going through the images first, the sweep leaves the one of the last line only if its removal fails. */
  lemma SweepEffect(s: Sys)
    requires At(s, ReaderPc.Chosen(5), true, AllBut(0), 1, true)
    ensures Can(s, WindowPasses(s)) && Can(Next(s, WindowPasses(s)), Queue(SweepTracker(5)))
    ensures ChosenAt(Next(Next(s, WindowPasses(s)), Queue(SweepTracker(5))), AllBut(0), 1, true)
  {
  }

  lemma Read(before: seq<SysStep>, s: Sys, cache: seq<RequestId>, times: nat, settled: bool)
    returns (steps: seq<SysStep>, s': Sys)
    requires Reached(before, s) && ReadyAt(s, CACHE_MAX_ENTRIES, cache, times, settled)
    ensures Reached(steps, s') && LastInHand(s', Checking, cache, times, settled)
  {
    ReadEffect(s, CACHE_MAX_ENTRIES);
    Then(before, s, Queue(ReadLine));
    steps, s' := before + [Queue(ReadLine)], Next(s, Queue(ReadLine));
  }

  lemma SubmittedOnce() returns (steps: seq<SysStep>, s: Sys)
    ensures Reached(steps, s) && LastInHand(s, Removing(Submitted), AllBut(0), 1, true)
  {
    steps, s := FirstTaken();
    steps, s := Opened(steps, s, Ids(0), 0, false);
    steps, s := FirstPass(steps, s, CACHE_MAX_ENTRIES);
    steps, s := Read(steps, s, Ids(CACHE_MAX_ENTRIES), 0, false);
    FullStep();
    steps, s := Acknowledged(steps, s, Ids(CACHE_MAX_ENTRIES), 0, false);
    CacheEffect(s);
    Then(steps, s, Consume(Evict));
    steps, s := steps + [Consume(Evict)], Next(s, Consume(Evict));
    Then(steps, s, Consume(Touch));
    steps, s := steps + [Consume(Touch)], Next(s, Consume(Touch));
  }

  lemma SweptAtChoice() returns (steps: seq<SysStep>, s: Sys)
    ensures Reached(steps, s) && ChosenAt(s, AllBut(0), 1, true)
  {
    steps, s := SubmittedOnce();
    CrashEffect(s);
    Then(steps, s, Queue(Crash));
    steps, s := steps + [Queue(Crash)], Next(s, Queue(Crash));
    ChooseEffect(s);
    Then(steps, s, Queue(ChooseTracked(5)));
    steps, s := steps + [Queue(ChooseTracked(5))], Next(s, Queue(ChooseTracked(5)));
    SweepEffect(s);
    Then(steps, s, WindowPasses(s));
    steps, s := steps + [WindowPasses(s)], Next(s, WindowPasses(s));
    Then(steps, s, Queue(SweepTracker(5)));
    steps, s := steps + [Queue(SweepTracker(5))], Next(s, Queue(SweepTracker(5)));
  }

  /** The last line is handed over again, settled, with its image there and its id not in the cache. */
  lemma HandedOverAgain() returns (steps: seq<SysStep>, s: Sys)
    ensures Reached(steps, s) && LastInHand(s, Checking, AllBut(CACHE_MAX_ENTRIES), 1, true)
  {
    steps, s := SweptAtChoice();
    steps, s := Opened(steps, s, AllBut(0), 1, true);
    steps, s := SecondPass(steps, s, CACHE_MAX_ENTRIES);
    steps, s := Read(steps, s, AllBut(CACHE_MAX_ENTRIES), 1, true);
  }

  /** So ReplayIsSkipped does not hold of every file: here a settled line of a file started again is not recognised. */
  lemma SettledIsNotSkipped() returns (steps: seq<SysStep>)
    ensures Steps(InitSys({0}), steps)
    ensures var s := After(InitSys({0}), steps);
            && InHand(s.q) && s.consumer.Checking? && CurrentLine(s.q) in s.log.settled
            && Can(s, Consume(CheckCache)) && Next(s, Consume(CheckCache)).consumer == Submitting
  {
    var s: Sys;
    steps, s := HandedOverAgain();
    AgainEffect(s, AllBut(CACHE_MAX_ENTRIES), 1, true);
  }

  /**
   * BoundedDuplication needs its condition: the sweep takes the tracker while the image of a settled line is still
   * there, long after its time, so its removal must have failed. The line is submitted twice, and no crash forgot an
   * acknowledgement.
   */
  lemma SettledIsSubmittedAgain() returns (steps: seq<SysStep>)
    ensures Steps(InitSys({0}), steps)
    ensures After(InitSys({0}), steps).log.submitted[LAST] == 2 && Forgotten(InitSys({0}), steps, LAST) == 0
    ensures !HarmlessSteps(InitSys({0}), steps)
  {
    var s: Sys;
    steps, s := HandedOverAgain();
    steps, s := Acknowledged(steps, s, AllBut(CACHE_MAX_ENTRIES), 1, true);
    ForgottenRun(InitSys({0}), steps, LAST);
    if HarmlessSteps(InitSys({0}), steps) {
      BoundedDuplication({0}, steps, LAST);
    }
  }
}
