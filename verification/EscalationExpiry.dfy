// Expiry against the sweep, and the invariant of the whole escalation queue.

module EscalationExpiry {
  import opened QueueTypes
  import opened QueueFiles
  import opened QueueInvariant
  import opened QueueHistory
  import opened EscalationSystem
  import opened EscalationBase
  import opened EscalationImages
  import opened EscalationReplay

  /** File n was moved, and every line that is in it, or still on its way there, is one of these. */
  ghost predicate MovedIn(q: State, n: Name, lines: iset<Line>) {
    && n in q.files && q.files[n].dir != Writing
    && (forall j | 0 <= j < |q.files[n].lines| :: q.files[n].lines[j] in lines)
    && (HeldOpen(q, n) ==> q.writers[q.files[n].owner].pc.line in lines)
  }

  ghost function QueuedBy(at: nat): iset<Line> { iset l: Line | l.queuedAt <= at }

  /** Every line that is in file n, or still on its way there, was queued before the file was moved. */
  ghost predicate MovedOk(q: State, n: Name, at: nat) { MovedIn(q, n, QueuedBy(at)) }

  ghost predicate TimesOk(q: State, v: Env) {
    && (forall n | n in v.movedAt :: MovedOk(q, n, v.movedAt[n]))
    && (forall n | n in q.files && q.files[n].trackerSwept :: n in v.movedAt && v.movedAt[n] + RETENTION < v.clock)
  }

  /** Failures are judged fairly: a missing image means an expired escalation, and no record is of an expired one. */
  ghost predicate JudgedOk(s: Sys) {
    && (InHand(s.q) && s.consumer == Failing(true) ==> CurrentLine(s.q).queuedAt + RETENTION < s.env.clock)
    && (forall r | r in s.log.records ::
          (r.missing ==> !r.line.form.Proper?) && !Expired(r.line, r.at) && r.at <= s.env.clock)
    && (forall l | l in s.log.dropped :: Expired(l, s.env.clock))
  }

  lemma MovedByWriter(q: State, st: Step, n: Name, lines: iset<Line>)
    requires Enabled(q, st) && ByWriter(st) && MovedIn(q, n, lines)
    requires st.Create? ==> q.writers[st.w].last.value !in q.files
    requires st.Append? ==> q.files[q.writers[st.w].last.value].owner == st.w
    ensures MovedIn(Do(q, st), n, lines)
  {
  }

  lemma MovedByReader(q: State, st: Step, n: Name, lines: iset<Line>)
    requires Enabled(q, st) && MovedIn(q, n, lines)
    requires st.ChooseTracked? || st.ChooseOldest? || st.Rename? || st.CheckData? || st.OpenTracker? || st.ReadSkip?
             || st.Crash?
    ensures MovedIn(Do(q, st), n, lines)
  {
  }

  lemma MovedByLoop(q: State, st: Step, n: Name, lines: iset<Line>)
    requires Enabled(q, st) && MovedIn(q, n, lines)
    requires st.ReadLine? || st.Ack? || st.LastLine? || st.UnlinkData? || st.UnlinkTracker? || st.SweepData?
             || st.SweepTracker?
    ensures MovedIn(Do(q, st), n, lines)
  {
  }

  lemma MovedStep(q: State, st: Step, n: Name, lines: iset<Line>)
    requires Inv(q) && Enabled(q, st) && MovedIn(q, n, lines)
    ensures MovedIn(Do(q, st), n, lines)
  {
    if ByWriter(st) {
      if st.Create? {
        CreateIsFresh(q, st.w);
      }
      assert WriterOk(q, st.w);
      MovedByWriter(q, st, n, lines);
    } else if st.ReadLine? || st.Ack? || st.LastLine? || st.UnlinkData? || st.UnlinkTracker? || st.SweepData?
              || st.SweepTracker? {
      MovedByLoop(q, st, n, lines);
    } else {
      MovedByReader(q, st, n, lines);
    }
  }

  /** A file being moved holds only lines queued by now. */
  lemma MovedNow(s: Sys)
    requires BaseOk(s) && ImagesOk(s.env, s.log.settled, s.q.writers)
    requires s.q.reader.Renaming? && s.q.files[s.q.reader.n].dir == Writing
    ensures MovedOk(DoRename(s.q), s.q.reader.n, s.env.clock)
  {
    var n := s.q.reader.n;
    var w := s.q.files[n].owner;
    assert FileOk(s.q, n);
    assert WriterImages(s.env, s.log.settled, w, s.q.writers[w]);
  }

  lemma SweptTrackers(q: State, st: Step)
    requires Enabled(q, st)
    requires st.Create? ==> q.writers[st.w].last.value !in q.files
    ensures forall n | n in Do(q, st).files && Do(q, st).files[n].trackerSwept ::
              (n in q.files && q.files[n].trackerSwept) || st == SweepTracker(n)
  {
  }

  ghost predicate Moves(q: State, st: Step)
    requires Enabled(q, st)
  {
    st.Rename? && q.files[q.reader.n].dir == Writing
  }

  lemma MovesFile(s: Sys, st: Step)
    requires Allowed(s, st)
    ensures var v' := EnvWith(s, st, Do(s.q, st));
            && v'.clock == s.env.clock
            && v'.movedAt == if Moves(s.q, st) then s.env.movedAt[s.q.reader.n := s.env.clock] else s.env.movedAt
  {
  }

  lemma TimesKept(s: Sys, st: Step, n: Name)
    requires BaseOk(s) && TimesOk(s.q, s.env) && Allowed(s, st) && n in s.env.movedAt
    ensures MovedOk(Do(s.q, st), n, s.env.movedAt[n])
  {
    assert MovedOk(s.q, n, s.env.movedAt[n]);
    MovedStep(s.q, st, n, QueuedBy(s.env.movedAt[n]));
  }

  lemma SweptInTime(s: Sys, st: Step, n: Name)
    requires BaseOk(s) && TimesOk(s.q, s.env) && Allowed(s, st)
    requires n in Do(s.q, st).files && Do(s.q, st).files[n].trackerSwept
    ensures n in s.env.movedAt && s.env.movedAt[n] + RETENTION < s.env.clock
  {
    if st.Create? {
      CreateIsFresh(s.q, st.w);
    }
    SweptTrackers(s.q, st);
  }

  lemma TimesQueue(s: Sys, st: Step)
    requires BaseOk(s) && ImagesOk(s.env, s.log.settled, s.q.writers) && TimesOk(s.q, s.env) && Allowed(s, st)
    ensures TimesOk(Do(s.q, st), EnvWith(s, st, Do(s.q, st)))
  {
    var q', v' := Do(s.q, st), EnvWith(s, st, Do(s.q, st));
    forall n | n in v'.movedAt
      ensures MovedOk(q', n, v'.movedAt[n])
    {
      MovedQueue(s, st, n);
    }
    forall n | n in q'.files && q'.files[n].trackerSwept
      ensures n in v'.movedAt && v'.movedAt[n] + RETENTION < v'.clock
    {
      SweptQueue(s, st, n);
    }
  }

  lemma MovedQueue(s: Sys, st: Step, n: Name)
    requires BaseOk(s) && ImagesOk(s.env, s.log.settled, s.q.writers) && TimesOk(s.q, s.env) && Allowed(s, st)
    requires n in EnvWith(s, st, Do(s.q, st)).movedAt
    ensures MovedOk(Do(s.q, st), n, EnvWith(s, st, Do(s.q, st)).movedAt[n])
  {
    MovesFile(s, st);
    if Moves(s.q, st) && n == s.q.reader.n {
      MovedNow(s);
    } else {
      TimesKept(s, st, n);
    }
  }

  lemma SweptQueue(s: Sys, st: Step, n: Name)
    requires BaseOk(s) && TimesOk(s.q, s.env) && Allowed(s, st)
    requires n in Do(s.q, st).files && Do(s.q, st).files[n].trackerSwept
    ensures var v' := EnvWith(s, st, Do(s.q, st)); n in v'.movedAt && v'.movedAt[n] + RETENTION < v'.clock
  {
    MovesFile(s, st);
    SweptInTime(s, st, n);
    assert MovedOk(s.q, n, s.env.movedAt[n]);
  }

  /** An escalation whose image is missing has expired. */
  lemma MissingIsExpired(s: Sys)
    requires BaseOk(s) && ImagesOk(s.env, s.log.settled, s.q.writers) && ReplayOk(s) && TimesOk(s.q, s.env)
    requires InHand(s.q) && s.consumer.Submitting? && CurrentLine(s.q).image !in s.env.images
    ensures CurrentLine(s.q).queuedAt + RETENTION < s.env.clock
  {
    var l, n := CurrentLine(s.q), s.q.reader.n;
    assert FileOk(s.q, n);
    if l in s.log.settled {
      // Only a tracker swept before it was read lets a settled line come back unrecognised.
      assert s.q.files[n].rewound by {
        if !s.q.files[n].rewound {
          NotSettledYet(s);
        }
      }
      assert MovedOk(s.q, n, s.env.movedAt[n]);
    } else {
      assert WriterImages(s.env, s.log.settled, l.writer, s.q.writers[l.writer]);
    }
  }

  ghost predicate SysOk(s: Sys) {
    BaseOk(s) && ImagesOk(s.env, s.log.settled, s.q.writers) && ReplayOk(s) && TimesOk(s.q, s.env) && JudgedOk(s)
  }

  lemma SysStart(ids: set<WriterId>)
    ensures SysOk(InitSys(ids))
  {
    InvInit(ids);
  }

  lemma TimesEnv(q: State, v: Env, e: EnvStep)
    requires TimesOk(q, v) && CanEnv(v, e)
    ensures TimesOk(q, DoEnv(v, e))
  {
  }

  lemma JudgedEnv(s: Sys, e: EnvStep)
    requires JudgedOk(s) && CanEnv(s.env, e)
    ensures JudgedOk(s.(env := DoEnv(s.env, e)))
  {
  }

  lemma SysEnv(s: Sys, e: EnvStep)
    requires SysOk(s) && CanEnv(s.env, e)
    ensures SysOk(s.(env := DoEnv(s.env, e)))
  {
    BaseStep(s, Around(e));
    ImagesEnv(s.env, s.log.settled, s.q.writers, e);
    ReplayEnv(s, e);
    TimesEnv(s.q, s.env, e);
    JudgedEnv(s, e);
  }

  lemma JudgedConsume(s: Sys, c: ConsumerStep, l: Line)
    requires JudgedOk(s) && InHand(s.q) && l == CurrentLine(s.q) && CanConsume(s, c, l)
    requires c.SubmitMissing? ==> l.queuedAt + RETENTION < s.env.clock
    ensures JudgedOk(DoConsume(s, c, l))
  {
  }

  /** The line in hand is one that its writer wrote. */
  lemma HandIsWritten(q: State)
    requires Inv(q) && InHand(q)
    ensures Appended(q, CurrentLine(q))
  {
    assert FileOk(q, q.reader.n) && WriterOk(q, q.files[q.reader.n].owner);
  }

  lemma ImagesAfter(s: Sys, c: ConsumerStep, l: Line)
    requires ImagesOk(s.env, s.log.settled, s.q.writers) && Appended(s.q, l) && CanConsume(s, c, l)
    requires c.RemoveImage? ==> l in s.log.settled
    ensures ImagesOk(EnvAfter(s, c, l), LogAfter(s, c, l).settled, s.q.writers)
  {
    if c.RemoveImage? {
      ImagesRemove(s.env, s.log.settled, s.q.writers, l);
    } else {
      ImagesSettle(s.env, s.log.settled, LogAfter(s, c, l).settled, s.q.writers);
    }
  }

  lemma ImagesConsume(s: Sys, c: ConsumerStep)
    requires BaseOk(s) && ImagesOk(s.env, s.log.settled, s.q.writers) && ReplayOk(s) && InHand(s.q)
    requires CanConsume(s, c, CurrentLine(s.q))
    ensures ImagesOk(EnvAfter(s, c, CurrentLine(s.q)), LogAfter(s, c, CurrentLine(s.q)).settled, s.q.writers)
  {
    HandIsWritten(s.q);
    ImagesAfter(s, c, CurrentLine(s.q));
  }

  lemma SysConsume(s: Sys, c: ConsumerStep)
    requires SysOk(s) && InHand(s.q) && CanConsume(s, c, CurrentLine(s.q))
    ensures SysOk(DoConsume(s, c, CurrentLine(s.q)))
  {
    BaseConsume(s, c, CurrentLine(s.q));
    ImagesConsume(s, c);
    ReplayConsume(s, c);
    if c.SubmitMissing? {
      MissingIsExpired(s);
    }
    JudgedConsume(s, c, CurrentLine(s.q));
  }

  lemma JudgedQueue(s: Sys, st: Step)
    requires BaseOk(s) && JudgedOk(s) && Allowed(s, st)
    ensures JudgedOk(DoQueue(s, st))
  {
    RecordsKept(s, st);
    if DoQueue(s, st).consumer.Failing? {
      HandKept(s, st);
    }
  }

  lemma RecordsKept(s: Sys, st: Step)
    requires Allowed(s, st)
    ensures DoQueue(s, st).env.clock == s.env.clock
    ensures DoQueue(s, st).log.records == s.log.records && DoQueue(s, st).log.dropped == s.log.dropped
    ensures DoQueue(s, st).consumer.Failing? ==>
              s.consumer == DoQueue(s, st).consumer && !st.Ack? && !st.Crash? && DoQueue(s, st).q == Do(s.q, st)
  {
  }

  /** While the consumer is failing on a line, that line stays in hand. */
  lemma HandKept(s: Sys, st: Step)
    requires BaseOk(s) && Allowed(s, st) && s.consumer.Failing? && !st.Ack? && !st.Crash?
    ensures SameHand(s.q, Do(s.q, st))
  {
    CurrentInHand(s);
    FrameQuiet(s.q, st);
  }

  lemma SysQueue(s: Sys, st: Step)
    requires SysOk(s) && Allowed(s, st)
    ensures SysOk(DoQueue(s, st))
  {
    BaseQueue(s, st);
    ImagesAndTimesQueue(s, st);
    JudgedQueue(s, st);
    ReplayQueue(s, st);
  }

  lemma SettledStays(s: Sys, st: Step)
    requires Allowed(s, st)
    ensures DoQueue(s, st).log.settled == s.log.settled
    ensures DoQueue(s, st).q == Do(s.q, st) && DoQueue(s, st).env == EnvWith(s, st, Do(s.q, st))
  {
  }

  lemma ImagesAndTimesQueue(s: Sys, st: Step)
    requires BaseOk(s) && ImagesOk(s.env, s.log.settled, s.q.writers) && TimesOk(s.q, s.env) && Allowed(s, st)
    ensures ImagesOk(DoQueue(s, st).env, DoQueue(s, st).log.settled, DoQueue(s, st).q.writers)
    ensures TimesOk(DoQueue(s, st).q, DoQueue(s, st).env)
  {
    SettledStays(s, st);
    ImagesQueue(s, st);
    TimesQueue(s, st);
  }

  lemma AckEffect(s: Sys)
    requires Allowed(s, Ack)
    ensures var s' := DoQueue(s, Ack);
            && s'.q == DoAck(s.q) && s'.cache == s.cache && s'.log.settled == s.log.settled
            && s'.env == s.env && s'.consumer == Resting
  {
  }

  lemma YieldEffect(s: Sys, st: Step)
    requires Allowed(s, st) && QueueOrder.Yields(s.q, st)
    ensures var s', n, i := DoQueue(s, st), s.q.reader.n, s.q.reader.i;
            && s'.q == Yield(s.q, n, i, if st.ReadLine? then Yielded(n, i) else YieldedLast(n, i))
            && s'.cache == s.cache && s'.log == s.log && s'.env == s.env && s'.consumer == Checking
  {
  }

  lemma ReplayQueue(s: Sys, st: Step)
    requires BaseOk(s) && ReplayOk(s) && Allowed(s, st)
    ensures ReplayOk(DoQueue(s, st))
  {
    if st.Ack? {
      AckEffect(s);
      ReplayAck(s);
    } else if QueueOrder.Yields(s.q, st) {
      var n, i := s.q.reader.n, s.q.reader.i;
      YieldEffect(s, st);
      ReplayYield(s, n, i, if st.ReadLine? then Yielded(n, i) else YieldedLast(n, i));
    } else {
      ReplayQuiet(s, st);
    }
  }

  lemma SysStepKeeps(s: Sys, st: SysStep)
    requires SysOk(s) && Can(s, st)
    ensures SysOk(Next(s, st))
  {
    match st {
      case Around(e) => SysEnv(s, e);
      case Consume(c) => SysConsume(s, c);
      case Queue(f) => SysQueue(s, f);
    }
  }

  lemma {:induction false} SysRun(s: Sys, steps: seq<SysStep>)
    requires SysOk(s) && Steps(s, steps)
    ensures SysOk(After(s, steps))
    decreases |steps|
  {
    if steps != [] {
      SysStepKeeps(s, steps[0]);
      SysRun(Next(s, steps[0]), steps[1..]);
    }
  }
}
