// How often a queued escalation can be submitted.

module EscalationDuplicates {
  import opened QueueTypes
  import opened QueueFiles
  import opened EscalationSystem
  import opened EscalationBase
  import opened EscalationReplay
  import opened EscalationExpiry
  import opened EscalationOutcome
  import opened EscalationLeftover

  ghost function One(b: bool): nat { if b then 1 else 0 }

  /** Each acknowledged submission of l was forgotten by a crash, or settled l, or is about to settle it. */
  ghost predicate Counted(s: Sys, l: Line) {
    s.log.submitted[l] ==
      s.log.lostAcks[l] + One(l in s.log.credited) + One(AckAtRisk(s) && CurrentLine(s.q) == l)
  }

  ghost predicate CountsOk(s: Sys) {
    && (forall l: Line :: Counted(s, l))
    && s.log.credited <= s.log.settled
  }

  lemma CountsConsume(s: Sys, c: ConsumerStep, k: Line)
    requires InHand(s.q) && CanConsume(s, c, CurrentLine(s.q)) && Counted(s, k)
    requires ConsumerOk(s.consumer, CurrentLine(s.q), s.cache, s.log.settled, s.env.images)
    requires AckAtRisk(s) || s.consumer.Calling? ==> CurrentLine(s.q) !in s.log.credited
    ensures Counted(DoConsume(s, c, CurrentLine(s.q)), k)
  {
  }

  lemma CreditsConsume(s: Sys, c: ConsumerStep, l: Line)
    requires CanConsume(s, c, l) && s.log.credited <= s.log.settled
    ensures LogAfter(s, c, l).credited <= LogAfter(s, c, l).settled
  {
  }

  lemma CountsQueue(s: Sys, st: Step, k: Line)
    requires BaseOk(s) && Counted(s, k) && Allowed(s, st)
    ensures Counted(DoQueue(s, st), k)
  {
    var s' := DoQueue(s, st);
    LogQueue(s, st);
    if st.Crash? {
      CrashForgets(s);
    } else if AckAtRisk(s') {
      HandQueue(s, st);
    } else if AckAtRisk(s) {
      RiskStays(s, st);
    }
  }

  lemma CrashForgets(s: Sys)
    requires Allowed(s, Crash)
    ensures !AckAtRisk(DoQueue(s, Crash))
    ensures DoQueue(s, Crash).log.lostAcks ==
            if AckAtRisk(s) then s.log.lostAcks + multiset{CurrentLine(s.q)} else s.log.lostAcks
  {
  }

  /** Only a crash takes an acknowledged submission from the consumer's hands before its id is cached. */
  lemma RiskStays(s: Sys, st: Step)
    requires BaseOk(s) && AckAtRisk(s) && Allowed(s, st) && !st.Crash?
    ensures AckAtRisk(DoQueue(s, st))
  {
    ReaderMoves(s.q, st);
    BaseQueue(s, st);
    RiskConsumer(s, st);
    CurrentInHand(DoQueue(s, st));
  }

  lemma RiskConsumer(s: Sys, st: Step)
    requires AckAtRisk(s) && Allowed(s, st) && !st.Crash?
    ensures DoQueue(s, st).consumer == s.consumer
  {
  }

  lemma CountsStep(s: Sys, st: SysStep)
    requires SysOk(s) && HandUnsettled(s) && CountsOk(s) && Can(s, st)
    ensures CountsOk(Next(s, st))
  {
    match st {
      case Around(e) =>
        assert forall l: Line :: Counted(s, l) ==> Counted(Next(s, st), l);
      case Consume(c) =>
        CreditsConsume(s, c, CurrentLine(s.q));
        forall l: Line
          ensures Counted(Next(s, st), l)
        {
          CountsConsume(s, c, l);
        }
      case Queue(f) =>
        LogQueue(s, f);
        forall l: Line
          ensures Counted(Next(s, st), l)
        {
          CountsQueue(s, f, l);
        }
    }
  }

  /** How many crashes of the run came between the acknowledgement of a submission of l and the caching of its id. */
  function Forgotten(s: Sys, steps: seq<SysStep>, l: Line): nat
    requires Steps(s, steps)
    decreases |steps|
  {
    if steps == [] then 0
    else
      (if steps[0] == Queue(Crash) && AckAtRisk(s) && CurrentLine(s.q) == l then 1 else 0)
      + Forgotten(Next(s, steps[0]), steps[1..], l)
  }

  lemma ForgottenStep(s: Sys, st: SysStep, l: Line)
    requires Can(s, st)
    ensures Next(s, st).log.lostAcks[l] ==
            s.log.lostAcks[l] + One(st == Queue(Crash) && AckAtRisk(s) && CurrentLine(s.q) == l)
  {
    if st.Queue? {
      LogQueue(s, st.st);
      if st.st.Crash? {
        CrashForgets(s);
      }
    }
  }

  lemma {:induction false} ForgottenRun(s: Sys, steps: seq<SysStep>, l: Line)
    requires Steps(s, steps)
    ensures After(s, steps).log.lostAcks[l] == s.log.lostAcks[l] + Forgotten(s, steps, l)
    decreases |steps|
  {
    if steps != [] {
      ForgottenStep(s, steps[0], l);
      ForgottenRun(Next(s, steps[0]), steps[1..], l);
    }
  }

  lemma {:induction false} CountsRun(s: Sys, steps: seq<SysStep>)
    requires SysOk(s) && LeftoversOk(s) && HandUnsettled(s) && CountsOk(s) && Steps(s, steps) && HarmlessSteps(s, steps)
    ensures CountsOk(After(s, steps))
    decreases |steps|
  {
    if steps != [] {
      SysStepKeeps(s, steps[0]);
      LeftoverStep(s, steps[0]);
      CountsStep(s, steps[0]);
      CountsRun(Next(s, steps[0]), steps[1..]);
    }
  }

  /**
   * Bounded duplication: over every run in which a sweep makes the reader start a file again only if the images
   * of the settled lines of the file are gone, the cloud acknowledges at most one submission of a queued line,
   * plus one for each crash between such an acknowledgement and the caching of the id.
   */
  lemma BoundedDuplication(ids: set<WriterId>, steps: seq<SysStep>, l: Line)
    requires Steps(InitSys(ids), steps) && HarmlessSteps(InitSys(ids), steps)
    ensures After(InitSys(ids), steps).log.submitted[l] <= 1 + Forgotten(InitSys(ids), steps, l)
  {
    var s := InitSys(ids);
    SysStart(ids);
    CountsRun(s, steps);
    ForgottenRun(s, steps, l);
    LeftoverRun(s, steps);
    NotTwice(After(s, steps), l);
  }

  /** A settled line is not submitted again. */
  lemma NotTwice(s: Sys, l: Line)
    requires HandUnsettled(s) && CountsOk(s)
    ensures s.log.submitted[l] <= 1 + s.log.lostAcks[l]
  {
    assert Counted(s, l);
  }

  /**
   * A crash after the id was cached costs nothing: in every run, when the reader hands over a settled line
   * of a file that no sweep made it start again, the consumer finds the id in the cache and skips the
   * submission.
   */
  lemma ReplayIsSkipped(ids: set<WriterId>, steps: seq<SysStep>)
    requires Steps(InitSys(ids), steps)
    ensures var s := After(InitSys(ids), steps);
            InHand(s.q) && s.consumer.Checking? && CurrentLine(s.q) in s.log.settled
            && !s.q.files[s.q.reader.n].rewound ==>
              Can(s, Consume(CheckCache)) && Next(s, Consume(CheckCache)).consumer == Evicting(Duplicate)
  {
    var s := After(InitSys(ids), steps);
    SysStart(ids);
    SysRun(InitSys(ids), steps);
    if InHand(s.q) && s.consumer.Checking? && CurrentLine(s.q) in s.log.settled && !s.q.files[s.q.reader.n].rewound {
      if CurrentLine(s.q).request !in s.cache {
        NotSettledYet(s);
      }
    }
  }

  /**
   * And of any file, as long as its image is still there and sweeps were harmless in this sense: so a settled
   * line is attempted again only to find its image missing.
   */
  lemma LeftoverIsSkipped(ids: set<WriterId>, steps: seq<SysStep>)
    requires Steps(InitSys(ids), steps) && HarmlessSteps(InitSys(ids), steps)
    ensures var s := After(InitSys(ids), steps);
            InHand(s.q) && s.consumer.Checking? && CurrentLine(s.q) in s.log.settled
            && CurrentLine(s.q).image in s.env.images ==>
              Can(s, Consume(CheckCache)) && Next(s, Consume(CheckCache)).consumer == Evicting(Duplicate)
  {
    var s := After(InitSys(ids), steps);
    SysStart(ids);
    LeftoverRun(InitSys(ids), steps);
    if InHand(s.q) && CurrentLine(s.q) in s.log.settled && CurrentLine(s.q).image in s.env.images {
      LeftInHand(s);
    }
  }
}
