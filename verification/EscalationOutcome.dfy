// What becomes of every line over whole runs: one outcome each, fair failure records,
// and images that are there when they are needed.

module EscalationOutcome {
  import opened Collections
  import opened QueueTypes
  import opened QueueFiles
  import opened QueueInvariant
  import opened QueueHistory
  import opened EscalationSystem
  import opened EscalationBase
  import opened EscalationImages
  import opened EscalationReplay
  import opened EscalationExpiry

  // ---- every line has a definite end ----

  /** The handling of line l came to an end of its own: acknowledged, recorded as failed, or expired. */
  ghost predicate Concluded(g: Log, l: Line) {
    l in g.submitted || l in g.dropped || exists k | 0 <= k < |g.records| :: g.records[k].line == l
  }

  /** Some line with this request id was concluded. */
  ghost predicate Resolved(g: Log, r: RequestId) {
    exists l: Line :: l.request == r && Concluded(g, l)
  }

  /** The outcome is backed by what happened. */
  ghost predicate Backed(g: Log, l: Line, o: Outcome) {
    (l.form.Garbled? ==> o.Recorded?) && Happened(g, l, o)
  }

  ghost predicate Happened(g: Log, l: Line, o: Outcome) {
    match o
    case Submitted => l in g.submitted
    case Duplicate => Resolved(g, l.request)
    case Recorded => exists k | 0 <= k < |g.records| :: g.records[k].line == l
    case Dropped => l in g.dropped
  }

  ghost predicate ConsumerBacked(g: Log, c: ConsumerPc, l: Line) {
    && (l.form.Garbled? ==> c.Resting? || c.Checking? || c == Done(Recorded))
    && (c.Evicting? || c.Touching? || c.Removing? || c.Done? ==> Backed(g, l, c.outcome))
  }

  ghost predicate OutcomesOk(s: Sys) {
    var g := s.log;
    && g.outcomes.Keys == s.q.acked
    && (forall l | l in g.outcomes :: Backed(g, l, g.outcomes[l]))
    && (forall r | r in s.cache :: Resolved(g, r))
    && (forall l | l in g.settled :: Resolved(g, l.request))
    && (InHand(s.q) ==> ConsumerBacked(g, s.consumer, CurrentLine(s.q)))
  }

  /** Nothing that was concluded is taken back. */
  ghost predicate LogGrows(g: Log, g': Log) {
    g.submitted <= g'.submitted && g.dropped <= g'.dropped && g.records <= g'.records
  }

  lemma StillConcluded(g: Log, g': Log, l: Line)
    requires LogGrows(g, g') && Concluded(g, l)
    ensures Concluded(g', l)
  {
    if k :| 0 <= k < |g.records| && g.records[k].line == l {
      assert g'.records[k].line == l;
    }
  }

  lemma StillResolved(g: Log, g': Log, r: RequestId)
    requires LogGrows(g, g') && Resolved(g, r)
    ensures Resolved(g', r)
  {
    var l: Line :| l.request == r && Concluded(g, l);
    StillConcluded(g, g', l);
  }

  lemma StillBacked(g: Log, g': Log, l: Line, o: Outcome)
    requires LogGrows(g, g') && Backed(g, l, o)
    ensures Backed(g', l, o)
  {
    if o.Duplicate? {
      StillResolved(g, g', l.request);
    } else if o.Recorded? {
      var k :| 0 <= k < |g.records| && g.records[k].line == l;
      assert g'.records[k].line == l;
    }
  }

  lemma BackedResolves(g: Log, l: Line, o: Outcome)
    requires Backed(g, l, o)
    ensures Resolved(g, l.request)
  {
    if !o.Duplicate? {
      assert Concluded(g, l);
    }
  }

  lemma LogGrowsConsume(s: Sys, c: ConsumerStep, l: Line)
    requires CanConsume(s, c, l)
    ensures LogGrows(s.log, LogAfter(s, c, l)) && LogAfter(s, c, l).outcomes == s.log.outcomes
    ensures LogAfter(s, c, l).settled <= s.log.settled + {l}
  {
  }

  /** Each end that the consumer reaches is backed. */
  lemma ConsumerBackedConsume(s: Sys, c: ConsumerStep, l: Line)
    requires CanConsume(s, c, l) && ConsumerBacked(s.log, s.consumer, l)
    requires forall r | r in s.cache :: Resolved(s.log, r)
    ensures ConsumerBacked(LogAfter(s, c, l), ConsumerAfter(s, c, l), l)
  {
    LogGrowsConsume(s, c, l);
    var g' := LogAfter(s, c, l);
    if s.consumer.Evicting? || s.consumer.Touching? || s.consumer.Removing? {
      StillBacked(s.log, g', l, s.consumer.outcome);
    } else if c.Reject? || (c.Judge? && !Expired(l, s.env.clock)) {
      assert g'.records[|s.log.records|].line == l;
    }
  }

  lemma OutcomesConsume(s: Sys, c: ConsumerStep)
    requires OutcomesOk(s) && InHand(s.q) && CanConsume(s, c, CurrentLine(s.q))
    ensures OutcomesOk(DoConsume(s, c, CurrentLine(s.q)))
  {
    var l := CurrentLine(s.q);
    var s' := DoConsume(s, c, l);
    var g, g' := s.log, LogAfter(s, c, l);
    LogGrowsConsume(s, c, l);
    ConsumerBackedConsume(s, c, l);
    forall k | k in g'.outcomes
      ensures Backed(g', k, g'.outcomes[k])
    {
      StillBacked(g, g', k, g.outcomes[k]);
    }
    forall r | r in s'.cache
      ensures Resolved(g', r)
    {
      CacheResolved(s, c, l, r);
    }
    forall k | k in g'.settled
      ensures Resolved(g', k.request)
    {
      SettledResolved(s, c, l, k);
    }
  }

  lemma CacheResolved(s: Sys, c: ConsumerStep, l: Line, r: RequestId)
    requires CanConsume(s, c, l) && ConsumerBacked(s.log, s.consumer, l) && LogGrows(s.log, LogAfter(s, c, l))
    requires (forall r | r in s.cache :: Resolved(s.log, r)) && r in CacheAfter(s, c, l)
    ensures Resolved(LogAfter(s, c, l), r)
  {
    if r in s.cache {
      StillResolved(s.log, LogAfter(s, c, l), r);
    } else {
      BackedResolves(s.log, l, s.consumer.outcome);
      StillResolved(s.log, LogAfter(s, c, l), l.request);
    }
  }

  lemma SettledResolved(s: Sys, c: ConsumerStep, l: Line, k: Line)
    requires CanConsume(s, c, l) && ConsumerBacked(s.log, s.consumer, l) && LogGrows(s.log, LogAfter(s, c, l))
    requires (forall k | k in s.log.settled :: Resolved(s.log, k.request)) && k in LogAfter(s, c, l).settled
    ensures Resolved(LogAfter(s, c, l), k.request)
  {
    if k in s.log.settled {
      StillResolved(s.log, LogAfter(s, c, l), k.request);
    } else {
      BackedResolves(s.log, l, s.consumer.outcome);
      StillResolved(s.log, LogAfter(s, c, l), l.request);
    }
  }

  lemma LogQueue(s: Sys, st: Step)
    requires Allowed(s, st)
    ensures var s' := DoQueue(s, st);
            && LogGrows(s.log, s'.log) && s'.log.submitted == s.log.submitted && s'.log.settled == s.log.settled
            && s'.log.credited == s.log.credited && s'.cache == s.cache && s'.q == Do(s.q, st)
            && (!st.Ack? ==> s'.log.outcomes == s.log.outcomes)
            && (st.Ack? ==> s'.log.outcomes == s.log.outcomes[CurrentLine(s.q) := s.consumer.outcome])
            && (!st.Crash? ==> s'.log.lostAcks == s.log.lostAcks)
            && (st.Ack? || st.Crash? ==> s'.consumer.Resting?)
            && (s'.consumer == s.consumer || s'.consumer == Checking || s'.consumer == Resting)
  {
  }

  lemma AckedQueue(q: State, st: Step)
    requires Enabled(q, st)
    ensures Do(q, st).acked == if st.Ack? then q.acked + {CurrentLine(q)} else q.acked
  {
  }

  /** If the consumer goes on with what it was doing, the line in hand is the same. */
  lemma HandQueue(s: Sys, st: Step)
    requires BaseOk(s) && Allowed(s, st) && InHand(Do(s.q, st)) && DoQueue(s, st).consumer != Checking
    ensures InHand(s.q) && CurrentLine(Do(s.q, st)) == CurrentLine(s.q) && DoQueue(s, st).consumer == s.consumer
  {
    ReaderMoves(s.q, st);
    LogQueue(s, st);
    if QueueOrder.Yields(s.q, st) {
      YieldChecks(s, st);
    } else {
      if AtYield(s.q.reader) {
        CurrentInHand(s);
      }
      FrameQuiet(s.q, st);
    }
  }

  lemma YieldChecks(s: Sys, st: Step)
    requires Allowed(s, st) && QueueOrder.Yields(s.q, st)
    ensures DoQueue(s, st).consumer == Checking
  {
    YieldEffect(s, st);
  }

  lemma OutcomesQueue(s: Sys, st: Step)
    requires BaseOk(s) && OutcomesOk(s) && Allowed(s, st)
    ensures OutcomesOk(DoQueue(s, st))
  {
    OutcomesLog(s, st);
    if InHand(Do(s.q, st)) {
      HandBacked(s, st);
    }
  }

  lemma OutcomesLog(s: Sys, st: Step)
    requires BaseOk(s) && OutcomesOk(s) && Allowed(s, st)
    ensures var s' := DoQueue(s, st);
            && s'.q == Do(s.q, st) && s'.log.outcomes.Keys == s'.q.acked
            && (forall l | l in s'.log.outcomes :: Backed(s'.log, l, s'.log.outcomes[l]))
            && (forall r | r in s'.cache :: Resolved(s'.log, r))
            && (forall l | l in s'.log.settled :: Resolved(s'.log, l.request))
  {
    LogQueue(s, st);
    AckedQueue(s.q, st);
    StillOutcomes(s, DoQueue(s, st).log, if st.Ack? then Some(CurrentLine(s.q)) else None);
  }

  /** A log that grows, with at most one more line counted under the outcome that the consumer has for it. */
  lemma StillOutcomes(s: Sys, g': Log, counted: Option<Line>)
    requires OutcomesOk(s) && LogGrows(s.log, g') && g'.settled == s.log.settled
    requires g'.submitted == s.log.submitted && g'.credited == s.log.credited
    requires counted.Some? ==>
               InHand(s.q) && counted.value == CurrentLine(s.q) && s.consumer.Done?
               && g'.outcomes == s.log.outcomes[counted.value := s.consumer.outcome]
    requires counted.None? ==> g'.outcomes == s.log.outcomes
    ensures forall l | l in g'.outcomes :: Backed(g', l, g'.outcomes[l])
    ensures forall r | r in s.cache :: Resolved(g', r)
    ensures forall l | l in g'.settled :: Resolved(g', l.request)
  {
    forall l | l in g'.outcomes
      ensures Backed(g', l, g'.outcomes[l])
    {
      StillBacked(s.log, g', l, g'.outcomes[l]);
    }
    forall r | Resolved(s.log, r)
      ensures Resolved(g', r)
    {
      StillResolved(s.log, g', r);
    }
  }

  lemma HandBacked(s: Sys, st: Step)
    requires BaseOk(s) && Allowed(s, st) && InHand(Do(s.q, st))
    requires InHand(s.q) ==> ConsumerBacked(s.log, s.consumer, CurrentLine(s.q))
    ensures ConsumerBacked(DoQueue(s, st).log, DoQueue(s, st).consumer, CurrentLine(Do(s.q, st)))
  {
    LogQueue(s, st);
    if DoQueue(s, st).consumer != Checking {
      HandQueue(s, st);
      if s.consumer.Evicting? || s.consumer.Touching? || s.consumer.Removing? || s.consumer.Done? {
        StillBacked(s.log, DoQueue(s, st).log, CurrentLine(s.q), s.consumer.outcome);
      }
    }
  }

  lemma OutcomesStep(s: Sys, st: SysStep)
    requires BaseOk(s) && OutcomesOk(s) && Can(s, st)
    ensures OutcomesOk(Next(s, st))
  {
    if st.Consume? {
      OutcomesConsume(s, st.c);
    } else if st.Queue? {
      OutcomesQueue(s, st.st);
    }
  }

  lemma {:induction false} OutcomesRun(s: Sys, steps: seq<SysStep>)
    requires SysOk(s) && OutcomesOk(s) && Steps(s, steps)
    ensures SysOk(After(s, steps)) && OutcomesOk(After(s, steps))
    decreases |steps|
  {
    if steps != [] {
      SysStepKeeps(s, steps[0]);
      OutcomesStep(s, steps[0]);
      OutcomesRun(Next(s, steps[0]), steps[1..]);
    }
  }

  /**
   * The life of a line, in every run: once the reader counted it, it has exactly one outcome, and that
   * outcome is backed by an acknowledged submission, a failure record or an expiry of this line or, for
   * a duplicate, of a line with the same request id. Its image is gone and its id had been cached, unless
   * the line is garbled, which is recorded. A line that is queued and not settled still has its image,
   * unless the sweep took it after the window.
   */
  lemma LifeOfALine(ids: set<WriterId>, steps: seq<SysStep>)
    requires Steps(InitSys(ids), steps)
    ensures var s := After(InitSys(ids), steps);
            && s.log.outcomes.Keys == s.q.acked
            && (forall l | l in s.q.acked ::
                  && Backed(s.log, l, s.log.outcomes[l]) && Resolved(s.log, l.request)
                  && (if l.form.Garbled? then s.log.outcomes[l] == Recorded
                      else l in s.log.settled && l.image !in s.env.images))
            && (forall l | Appended(s.q, l) && l !in s.log.settled ::
                  l.image in s.env.images || (l.image in s.env.swept && PastWindow(l, s.env.clock)))
  {
    SysStart(ids);
    OutcomesRun(InitSys(ids), steps);
    var s := After(InitSys(ids), steps);
    forall l | Appended(s.q, l) && l !in s.log.settled
      ensures l.image in s.env.images || (l.image in s.env.swept && PastWindow(l, s.env.clock))
    {
      assert WriterImages(s.env, s.log.settled, l.writer, s.q.writers[l.writer]);
    }
  }

  /**
   * Retention and expiry agree, in every run: whatever the sweep removes and whenever the reader crashes,
   * no failure record of an escalation with a readable time is due to a missing image, or was found past the
   * retention window by its expiry check.
   */
  lemma RetentionAgrees(ids: set<WriterId>, steps: seq<SysStep>)
    requires Steps(InitSys(ids), steps)
    ensures var s := After(InitSys(ids), steps);
            && (forall r | r in s.log.records && r.line.form.Proper? :: !r.missing && !PastWindow(r.line, r.at))
            && (forall l | Appended(s.q, l) && l.image in s.env.swept :: PastWindow(l, s.env.clock))
            && (InHand(s.q) && s.consumer.Submitting? && CurrentLine(s.q).image !in s.env.images ==>
                  PastWindow(CurrentLine(s.q), s.env.clock))
  {
    SysStart(ids);
    SysRun(InitSys(ids), steps);
    var s := After(InitSys(ids), steps);
    forall l | Appended(s.q, l) && l.image in s.env.swept
      ensures PastWindow(l, s.env.clock)
    {
      assert WriterImages(s.env, s.log.settled, l.writer, s.q.writers[l.writer]);
    }
    if InHand(s.q) && s.consumer.Submitting? && CurrentLine(s.q).image !in s.env.images {
      MissingIsExpired(s);
    }
  }

  // ---- without the sweep of images, a replay finds its image ----

  ghost predicate NoImageSweep(st: SysStep) {
    !(st.Around? && st.e.SweepImage?)
  }

  lemma ImagesUnswept(s: Sys, st: SysStep)
    requires Can(s, st) && NoImageSweep(st) && s.env.swept == {}
    ensures Next(s, st).env.swept == {}
  {
  }

  lemma {:induction false} UnsweptRun(s: Sys, steps: seq<SysStep>)
    requires Steps(s, steps) && s.env.swept == {} && forall st | st in steps :: NoImageSweep(st)
    ensures After(s, steps).env.swept == {}
    decreases |steps|
  {
    if steps != [] {
      ImagesUnswept(s, steps[0]);
      UnsweptRun(Next(s, steps[0]), steps[1..]);
    }
  }

  /**
   * In every run in which no image is swept, an escalation that is about to be attempted has its image, replayed
   * or not, unless a sweep made the reader start its file again.
   */
  lemma ReplayFindsImage(ids: set<WriterId>, steps: seq<SysStep>)
    requires Steps(InitSys(ids), steps) && forall st | st in steps :: NoImageSweep(st)
    ensures var s := After(InitSys(ids), steps);
            InHand(s.q) && s.consumer.Submitting? && !s.q.files[s.q.reader.n].rewound ==>
              CurrentLine(s.q).image in s.env.images
  {
    SysStart(ids);
    SysRun(InitSys(ids), steps);
    UnsweptRun(InitSys(ids), steps);
    var s := After(InitSys(ids), steps);
    if InHand(s.q) && s.consumer.Submitting? && !s.q.files[s.q.reader.n].rewound {
      ImageInHand(s);
    }
  }

  lemma ImageInHand(s: Sys)
    requires SysOk(s) && s.env.swept == {} && InHand(s.q) && s.consumer.Submitting? && !s.q.files[s.q.reader.n].rewound
    ensures CurrentLine(s.q).image in s.env.images
  {
    var l := CurrentLine(s.q);
    NotSettledYet(s);
    assert FileOk(s.q, s.q.reader.n) && WriterOk(s.q, l.writer);
    assert WriterImages(s.env, s.log.settled, l.writer, s.q.writers[l.writer]);
  }
}
