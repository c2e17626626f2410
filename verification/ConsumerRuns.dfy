// The handling of one queued escalation, step by step, as a run of the system.

module ConsumerRuns {
  import opened QueueTypes
  import opened QueueFiles
  import opened EscalationSystem
  import opened EscalationRetry

  /** These steps of the consumer alone lead from s to s'. */
  ghost predicate ConsumerRun(s: Sys, steps: seq<SysStep>, s': Sys) {
    && Steps(s, steps) && After(s, steps) == s'
    && (forall st | st in steps :: st.Consume?)
    && s'.q == s.q
  }

  lemma {:induction false} StepsThen(s: Sys, steps: seq<SysStep>, st: SysStep)
    requires Steps(s, steps) && Can(After(s, steps), st)
    ensures Steps(s, steps + [st]) && After(s, steps + [st]) == Next(After(s, steps), st)
    decreases |steps|
  {
    if steps == [] {
      assert (steps + [st])[1..] == [];
    } else {
      assert (steps + [st])[1..] == steps[1..] + [st];
      StepsThen(Next(s, steps[0]), steps[1..], st);
    }
  }

  lemma {:induction false} Joined(s: Sys, a: seq<SysStep>, b: seq<SysStep>)
    requires Steps(s, a) && Steps(After(s, a), b)
    ensures Steps(s, a + b) && After(s, a + b) == After(After(s, a), b)
    decreases |a|
  {
    if a == [] {
      assert a + b == b;
    } else {
      assert (a + b)[1..] == a[1..] + b;
      Joined(Next(s, a[0]), a[1..], b);
    }
  }

  lemma Extend(s0: Sys, steps: seq<SysStep>, s: Sys, c: ConsumerStep)
    requires ConsumerRun(s0, steps, s) && InHand(s0.q) && CanConsume(s, c, CurrentLine(s0.q))
    ensures ConsumerRun(s0, steps + [Consume(c)], DoConsume(s, c, CurrentLine(s0.q)))
  {
    StepsThen(s0, steps, Consume(c));
  }

  /** The steps of one attempt that is to be repeated. */
  function RetrySteps(a: Answer): seq<SysStep> {
    if a.NoClient? then [Consume(SubmitRetry)] else [Consume(ReadImage), Consume(SubmitRetry)]
  }

  lemma OneRetry(s0: Sys, steps: seq<SysStep>, s: Sys, a: Answer)
    requires ConsumerRun(s0, steps, s) && InHand(s0.q) && s.consumer.Submitting?
    requires a.Cloud? ==> CurrentLine(s0.q).image in s.env.images
    ensures ConsumerRun(s0, steps + RetrySteps(a), s)
  {
    var l := CurrentLine(s0.q);
    if a.NoClient? {
      Extend(s0, steps, s, SubmitRetry);
      assert DoConsume(s, SubmitRetry, l) == s;
    } else {
      Extend(s0, steps, s, ReadImage);
      Extend(s0, steps + [Consume(ReadImage)], DoConsume(s, ReadImage, l), SubmitRetry);
      assert DoConsume(DoConsume(s, ReadImage, l), SubmitRetry, l) == s;
      assert steps + [Consume(ReadImage)] + [Consume(SubmitRetry)] == steps + RetrySteps(a);
    }
  }

  lemma {:induction false} Retries(s0: Sys, steps: seq<SysStep>, s: Sys, answers: seq<Answer>, k: nat)
    returns (more: seq<SysStep>)
    requires ConsumerRun(s0, steps, s) && InHand(s0.q) && s.consumer.Submitting?
    requires k <= |answers| && AllRetried(answers, CurrentLine(s0.q).image in s.env.images, k)
    ensures ConsumerRun(s0, more, s)
    decreases k
  {
    more := steps;
    if k > 0 {
      more := Retries(s0, steps, s, answers, k - 1);
      assert Retried(AttemptOf(answers[k - 1], CurrentLine(s0.q).image in s.env.images));
      OneRetry(s0, more, s, answers[k - 1]);
      more := more + RetrySteps(answers[k - 1]);
    }
  }

  /** Line l has been handled with outcome o: what changed, and that nothing else did. `missing`: its last attempt missed the image. */
  ghost predicate Handled(s: Sys, s': Sys, l: Line, o: Outcome, missing: bool) {
    && s'.q == s.q && s'.consumer == Done(o)
    && s'.cache == RequestWindow.Add(s.cache, l.request, CACHE_MAX_ENTRIES)
    && s'.env == s.env.(images := s.env.images - {l.image})
    && s'.log.submitted == s.log.submitted + (if o.Submitted? then multiset{l} else multiset{})
    && s'.log.records == s.log.records + (if o.Recorded? then [Record(l, s.env.clock, missing)] else [])
    && s'.log.dropped == s.log.dropped + (if o.Dropped? then {l} else {})
  }

  /** The last attempt's consequence. */
  function OutcomeOf(last: Attempt, l: Line, now: nat): Outcome {
    if last.Success? then Submitted else if Expired(l, now) then Dropped else Recorded
  }

  /** The consumer is about to look at a line that parses. */
  predicate Readable(s: Sys)
    requires InHand(s.q)
  {
    s.consumer.Checking? && !CurrentLine(s.q).form.Garbled?
  }

  /** A line that does not parse is recorded as it is; nothing else is known of it. */
  ghost predicate Rejected(s: Sys, s': Sys, l: Line) {
    s' == s.(consumer := Done(Recorded), log := s.log.(records := s.log.records + [Record(l, s.env.clock, false)]))
  }

  lemma RejectedRun(s: Sys) returns (steps: seq<SysStep>, s': Sys)
    requires InHand(s.q) && s.consumer.Checking? && CurrentLine(s.q).form.Garbled?
    ensures ConsumerRun(s, steps, s') && Rejected(s, s', CurrentLine(s.q))
  {
    Extend(s, [], s, Reject);
    steps, s' := [] + [Consume(Reject)], DoConsume(s, Reject, CurrentLine(s.q));
  }

  lemma DuplicateRun(s: Sys) returns (steps: seq<SysStep>, s': Sys)
    requires InHand(s.q) && Readable(s) && CurrentLine(s.q).request in s.cache
    ensures ConsumerRun(s, steps, s') && Handled(s, s', CurrentLine(s.q), Duplicate, false)
  {
    var l := CurrentLine(s.q);
    Extend(s, [], s, CheckCache);
    var s1 := DoConsume(s, CheckCache, l);
    Extend(s, [] + [Consume(CheckCache)], s1, Evict);
    var s2 := DoConsume(s1, Evict, l);
    Extend(s, [] + [Consume(CheckCache)] + [Consume(Evict)], s2, RemoveImage);
    steps := [] + [Consume(CheckCache)] + [Consume(Evict)] + [Consume(RemoveImage)];
    s' := DoConsume(s2, RemoveImage, l);
  }

  /** From the end of the attempts to the end of the line. */
  lemma FinishRun(s0: Sys, before: seq<SysStep>, s: Sys, o: Outcome) returns (steps: seq<SysStep>, s': Sys)
    requires ConsumerRun(s0, before, s) && InHand(s0.q)
    requires s.consumer == Evicting(o) && CurrentLine(s0.q).request !in s.cache
    ensures ConsumerRun(s0, steps, s')
    ensures s'.consumer == Done(o) && s'.cache == RequestWindow.Add(s.cache, CurrentLine(s0.q).request, CACHE_MAX_ENTRIES)
    ensures s'.env == s.env.(images := s.env.images - {CurrentLine(s0.q).image})
    ensures s'.log.submitted == s.log.submitted && s'.log.records == s.log.records && s'.log.dropped == s.log.dropped
  {
    var l := CurrentLine(s0.q);
    Extend(s0, before, s, Evict);
    var s1 := DoConsume(s, Evict, l);
    Extend(s0, before + [Consume(Evict)], s1, Touch);
    var s2 := DoConsume(s1, Touch, l);
    Extend(s0, before + [Consume(Evict)] + [Consume(Touch)], s2, RemoveImage);
    steps := before + [Consume(Evict)] + [Consume(Touch)] + [Consume(RemoveImage)];
    s' := DoConsume(s2, RemoveImage, l);
  }

  /** The attempts that are repeated, up to the point where the next one is made. */
  lemma AttemptsRun(s: Sys, answers: seq<Answer>, retries: nat) returns (steps: seq<SysStep>, s': Sys)
    requires InHand(s.q) && Readable(s) && CurrentLine(s.q).request !in s.cache
    requires retries <= |answers| && AllRetried(answers, CurrentLine(s.q).image in s.env.images, retries)
    ensures ConsumerRun(s, steps, s') && s' == s.(consumer := Submitting)
  {
    Extend(s, [], s, CheckCache);
    s' := s.(consumer := Submitting);
    assert DoConsume(s, CheckCache, CurrentLine(s.q)) == s';
    steps := Retries(s, [] + [Consume(CheckCache)], s', answers, retries);
  }

  /** The attempt that ends it: acknowledged, or failed for good. */
  lemma LastAttempt(s0: Sys, before: seq<SysStep>, s: Sys, last: Answer) returns (steps: seq<SysStep>, s': Sys)
    requires ConsumerRun(s0, before, s) && InHand(s0.q) && s.consumer.Submitting?
    requires !Retried(AttemptOf(last, CurrentLine(s0.q).image in s.env.images))
    ensures ConsumerRun(s0, steps, s')
    ensures var l, there := CurrentLine(s0.q), CurrentLine(s0.q).image in s.env.images;
            s' == if AttemptOf(last, there).Success?
                  then s.(consumer := Evicting(Submitted), log := s.log.(submitted := s.log.submitted + multiset{l}))
                  else s.(consumer := Failing(Misses(last, there)))
  {
    var l := CurrentLine(s0.q);
    steps, s' := before, s;
    if last.Cloud? && l.image in s.env.images {
      Extend(s0, steps, s, ReadImage);
      steps, s' := steps + [Consume(ReadImage)], DoConsume(s, ReadImage, l);
    }
    var c := if AttemptOf(last, l.image in s.env.images).Success? then SubmitOk
             else if Misses(last, l.image in s.env.images) then SubmitMissing else SubmitRefused;
    Extend(s0, steps, s', c);
    steps, s' := steps + [Consume(c)], DoConsume(s', c, l);
  }

  /** A line whose id is not cached, handled to the end. */
  lemma HandledRun(s: Sys, answers: seq<Answer>, retries: nat) returns (steps: seq<SysStep>, s': Sys)
    requires InHand(s.q) && Readable(s) && CurrentLine(s.q).request !in s.cache
    requires retries < |answers| && AllRetried(answers, CurrentLine(s.q).image in s.env.images, retries)
    requires !Retried(AttemptOf(answers[retries], CurrentLine(s.q).image in s.env.images))
    ensures ConsumerRun(s, steps, s')
    ensures var there := CurrentLine(s.q).image in s.env.images;
            Handled(s, s', CurrentLine(s.q), OutcomeOf(AttemptOf(answers[retries], there), CurrentLine(s.q), s.env.clock),
                    Misses(answers[retries], there))
  {
    var l, there := CurrentLine(s.q), CurrentLine(s.q).image in s.env.images;
    var s1: Sys;
    steps, s1 := AttemptsRun(s, answers, retries);
    var s2: Sys;
    steps, s2 := LastAttempt(s, steps, s1, answers[retries]);
    if AttemptOf(answers[retries], there).Success? {
      steps, s' := FinishRun(s, steps, s2, Submitted);
    } else {
      Extend(s, steps, s2, Judge);
      steps, s2 := steps + [Consume(Judge)], DoConsume(s2, Judge, l);
      steps, s' := FinishRun(s, steps, s2, OutcomeOf(AttemptOf(answers[retries], there), l, s.env.clock));
    }
  }
}
