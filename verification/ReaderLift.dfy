// A resumption of the reader inside the whole escalation queue: what it takes back from the
// consumer, and what it hands over.

module ReaderLift {
  import opened QueueFiles
  import opened QueueDelivery
  import opened EscalationSystem
  import opened EscalationBase
  import opened ProducerRuns

  lemma {:induction false} HandedGrows(q: State, steps: seq<Step>)
    requires Valid(q, steps)
    ensures |q.handed| <= |Run(q, steps).handed|
    ensures !AtYield(q.reader) && AtYield(Run(q, steps).reader) ==> |q.handed| < |Run(q, steps).handed|
    decreases |steps|
  {
    if steps != [] {
      HandedStep(q, steps[0]);
      HandedGrows(Do(q, steps[0]), steps[1..]);
    }
  }

  lemma HandedStep(q: State, st: Step)
    requires Enabled(q, st)
    ensures |q.handed| <= |Do(q, st).handed|
    ensures !AtYield(q.reader) && AtYield(Do(q, st).reader) ==> |q.handed| < |Do(q, st).handed|
    ensures AtYield(q.reader) && ByReader(st) ==> st == Ack && !AtYield(Do(q, st).reader)
  {
  }

  /** The steps hand over at most one line, and none after it. */
  ghost predicate OneLine(q: State, steps: seq<Step>) {
    && Valid(q, steps) && (forall st | st in steps :: ByReader(st))
    && var q' := Run(q, steps);
       |q'.handed| == |q.handed| + if AtYield(q'.reader) then 1 else 0
  }

  /** The reader takes back a line only once the consumer is done with it. */
  ghost predicate Returned(s: Sys) { AtYield(s.q.reader) ==> InHand(s.q) && s.consumer.Done? }

  /** Nothing outside the files changes, except that the consumer gets a line or rests, and what is remembered of it. */
  ghost predicate OnlyReader(s: Sys, s': Sys) {
    && s'.cache == s.cache && s'.env.images == s.env.images && s'.env.clock == s.env.clock
    && s'.log == s.log.(outcomes := s'.log.outcomes)
  }

  lemma LiftedFirst(s: Sys, st: Step)
    requires Enabled(s.q, st) && ByReader(st) && (st == Ack ==> s.consumer.Done?)
    ensures Can(s, Queue(st)) && Next(s, Queue(st)).q == Do(s.q, st)
    ensures OnlyReader(s, Next(s, Queue(st)))
    ensures !AtYield(s.q.reader) && AtYield(Do(s.q, st).reader) ==> Next(s, Queue(st)).consumer == Checking
  {
    FirstAllowed(s, st);
    FirstFrame(s, st);
    if !AtYield(s.q.reader) && AtYield(Do(s.q, st).reader) {
      FirstChecking(s, st);
    }
  }

  lemma FirstAllowed(s: Sys, st: Step)
    requires Enabled(s.q, st) && ByReader(st) && (st == Ack ==> s.consumer.Done?)
    ensures Allowed(s, st)
  {
  }

  lemma FirstFrame(s: Sys, st: Step)
    requires Allowed(s, st) && ByReader(st)
    ensures DoQueue(s, st).q == Do(s.q, st) && OnlyReader(s, DoQueue(s, st))
  {
  }

  lemma FirstChecking(s: Sys, st: Step)
    requires Allowed(s, st) && !AtYield(s.q.reader) && AtYield(Do(s.q, st).reader)
    ensures DoQueue(s, st).consumer == Checking
  {
  }

  /** From a state in which no line is out: the steps are steps of the system. */
  lemma {:induction false} LiftedReading(s: Sys, steps: seq<Step>)
    requires BaseOk(s) && !AtYield(s.q.reader) && OneLine(s.q, steps)
    ensures Steps(s, Lift(steps)) && After(s, Lift(steps)).q == Run(s.q, steps)
    ensures OnlyReader(s, After(s, Lift(steps))) && BaseOk(After(s, Lift(steps)))
    ensures AtYield(Run(s.q, steps).reader) ==> After(s, Lift(steps)).consumer == Checking
    decreases |steps|
  {
    if steps != [] {
      var st, rest := steps[0], steps[1..];
      var q1 := Do(s.q, st);
      assert ByReader(st) && forall r | r in rest :: r in steps;
      HandedStep(s.q, st);
      assert st != Ack;
      LiftedFirst(s, st);
      BaseStep(s, Queue(st));
      var s1 := Next(s, Queue(st));
      assert Lift(steps)[1..] == Lift(rest);
      HandedGrows(q1, rest);
      if AtYield(q1.reader) {
        NothingAfterYield(q1, rest);
      } else {
        NoHandOverYet(s.q, st);
        LiftedReading(s1, rest);
      }
    }
  }

  lemma NoHandOverYet(q: State, st: Step)
    requires Enabled(q, st) && !AtYield(q.reader) && !AtYield(Do(q, st).reader)
    ensures |Do(q, st).handed| == |q.handed|
  {
  }

  lemma NothingAfterYield(q: State, steps: seq<Step>)
    requires AtYield(q.reader) && Valid(q, steps) && (forall st | st in steps :: ByReader(st))
    requires AtYield(Run(q, steps).reader) ==> |Run(q, steps).handed| == |q.handed|
    requires !AtYield(Run(q, steps).reader) ==> |Run(q, steps).handed| < |q.handed|
    ensures steps == []
  {
    HandedGrows(q, steps);
    if steps != [] {
      HandedStep(q, steps[0]);
      HandedGrows(Do(q, steps[0]), steps[1..]);
    }
  }

  /** A resumption: if a line is out, it is taken back first. */
  lemma {:induction false} LiftedResumption(s: Sys, steps: seq<Step>)
    requires BaseOk(s) && Returned(s) && OneLine(s.q, steps) && (AtYield(s.q.reader) ==> steps != [])
    ensures Steps(s, Lift(steps)) && After(s, Lift(steps)).q == Run(s.q, steps)
    ensures OnlyReader(s, After(s, Lift(steps))) && BaseOk(After(s, Lift(steps)))
    ensures AtYield(Run(s.q, steps).reader) ==> After(s, Lift(steps)).consumer == Checking
  {
    if !AtYield(s.q.reader) {
      LiftedReading(s, steps);
    } else {
      var st, rest := steps[0], steps[1..];
      assert ByReader(st) && forall r | r in rest :: r in steps;
      HandedStep(s.q, st);
      LiftedFirst(s, st);
      BaseStep(s, Queue(st));
      assert Lift(steps)[1..] == Lift(rest);
      AckHandsNothing(s.q);
      LiftedReading(Next(s, Queue(st)), rest);
    }
  }

  lemma AckHandsNothing(q: State)
    requires Enabled(q, Ack)
    ensures |DoAck(q).handed| == |q.handed|
  {
  }
}
