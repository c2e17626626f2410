// Once the reader counted a line it is not submitted again, whatever crashes and sweeps do.

module EscalationRewind {
  import opened QueueTypes
  import opened QueueFiles
  import opened EscalationSystem
  import opened EscalationReplay
  import opened EscalationExpiry
  import opened EscalationOutcome

  /** The image of an attempt was there, so the reader has not counted the line yet. */
  ghost predicate CallingUncounted(s: Sys) {
    InHand(s.q) && s.consumer.Calling? ==> CurrentLine(s.q) !in s.q.acked
  }

  lemma UncountedConsume(s: Sys, c: ConsumerStep, l: Line)
    requires InHand(s.q) && l == CurrentLine(s.q) && CanConsume(s, c, l) && CallingUncounted(s)
    requires ConsumerOk(s.consumer, l, s.cache, s.log.settled, s.env.images)
    requires l in s.q.acked && !l.form.Garbled? ==> l.image !in s.env.images
    ensures CallingUncounted(DoConsume(s, c, l))
    ensures forall k | k in s.q.acked :: DoConsume(s, c, l).log.submitted[k] == s.log.submitted[k]
  {
  }

  lemma UncountedQueue(s: Sys, st: Step)
    requires SysOk(s) && CallingUncounted(s) && Allowed(s, st)
    ensures CallingUncounted(DoQueue(s, st)) && DoQueue(s, st).log.submitted == s.log.submitted
    ensures s.q.acked <= DoQueue(s, st).q.acked
  {
    LogQueue(s, st);
    AckedQueue(s.q, st);
    if InHand(Do(s.q, st)) && DoQueue(s, st).consumer.Calling? {
      HandQueue(s, st);
    }
  }

  lemma UncountedStep(s: Sys, st: SysStep)
    requires SysOk(s) && CallingUncounted(s) && Can(s, st)
    ensures CallingUncounted(Next(s, st)) && s.q.acked <= Next(s, st).q.acked
    ensures forall k | k in s.q.acked :: Next(s, st).log.submitted[k] == s.log.submitted[k]
  {
    if st.Consume? {
      UncountedConsume(s, st.c, CurrentLine(s.q));
    } else if st.Queue? {
      UncountedQueue(s, st.st);
    }
  }

  lemma {:induction false} UncountedRun(s: Sys, steps: seq<SysStep>)
    requires SysOk(s) && CallingUncounted(s) && Steps(s, steps)
    ensures SysOk(After(s, steps)) && CallingUncounted(After(s, steps))
    ensures forall k | k in s.q.acked :: After(s, steps).log.submitted[k] == s.log.submitted[k]
    decreases |steps|
  {
    if steps != [] {
      SysStepKeeps(s, steps[0]);
      UncountedStep(s, steps[0]);
      UncountedRun(Next(s, steps[0]), steps[1..]);
    }
  }

  /**
   * Once the reader counted a line, the cloud acknowledges no further submission of it, however often
   * crashes and sweeps make the reader hand it over again.
   */
  lemma CountedForGood(ids: set<WriterId>, before: seq<SysStep>, more: seq<SysStep>, l: Line)
    requires Steps(InitSys(ids), before) && Steps(After(InitSys(ids), before), more)
    requires l in After(InitSys(ids), before).q.acked
    ensures After(After(InitSys(ids), before), more).log.submitted[l] == After(InitSys(ids), before).log.submitted[l]
  {
    SysStart(ids);
    UncountedRun(InitSys(ids), before);
    UncountedRun(After(InitSys(ids), before), more);
  }
}
