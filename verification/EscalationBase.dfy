// The file side inside the whole escalation queue: its invariant holds, and the
// consumer is busy exactly while a line is in hand.

module EscalationBase {
  import opened QueueTypes
  import opened QueueFiles
  import opened QueueInvariant
  import opened QueueHistory
  import opened EscalationSystem

  /** The file side keeps its invariant, and the consumer is busy exactly while a line is in hand. */
  ghost predicate BaseOk(s: Sys) {
    && Inv(s.q) && HistoryOk(s.q)
    && (AtYield(s.q.reader) <==> !s.consumer.Resting?)
    && s.env.drafts.Keys == s.env.attempts.Keys == s.q.writers.Keys
  }

  lemma CurrentInHand(s: Sys)
    requires BaseOk(s) && !s.consumer.Resting?
    ensures InHand(s.q)
  {
    assert FileOk(s.q, s.q.reader.n);
  }

  /** Which steps give the consumer a line, and which take it back. */
  lemma ReaderMoves(q: State, st: Step)
    requires Enabled(q, st)
    ensures Do(q, st).writers.Keys == q.writers.Keys
    ensures AtYield(Do(q, st).reader) ==> AtYield(q.reader) || st.ReadLine? || st.LastLine?
    ensures AtYield(q.reader) && !st.Ack? && !st.Crash? ==> Do(q, st).reader == q.reader
    ensures st.Ack? || st.Crash? ==> !AtYield(Do(q, st).reader)
  {
  }

  lemma BaseQueue(s: Sys, st: Step)
    requires BaseOk(s) && Allowed(s, st)
    ensures BaseOk(DoQueue(s, st))
  {
    InvStep(s.q, st);
    HistoryStep(s.q, st);
    BusyStays(s, st);
  }

  /** The consumer starts with a line, and rests when the line is taken back. */
  lemma BusyStays(s: Sys, st: Step)
    requires Allowed(s, st) && (AtYield(s.q.reader) <==> !s.consumer.Resting?)
    requires s.env.drafts.Keys == s.env.attempts.Keys == s.q.writers.Keys
    ensures DoQueue(s, st).q == Do(s.q, st)
    ensures AtYield(Do(s.q, st).reader) <==> !DoQueue(s, st).consumer.Resting?
    ensures DoQueue(s, st).env.drafts.Keys == DoQueue(s, st).env.attempts.Keys == Do(s.q, st).writers.Keys
  {
    ReaderMoves(s.q, st);
  }

  lemma DraftKeys(v: Env, e: EnvStep)
    requires CanEnv(v, e) && v.drafts.Keys == v.attempts.Keys
    ensures DoEnv(v, e).drafts.Keys == DoEnv(v, e).attempts.Keys == v.drafts.Keys
  {
  }

  lemma BaseConsume(s: Sys, c: ConsumerStep, l: Line)
    requires BaseOk(s) && CanConsume(s, c, l)
    ensures BaseOk(DoConsume(s, c, l))
  {
  }

  lemma BaseStep(s: Sys, st: SysStep)
    requires BaseOk(s) && Can(s, st)
    ensures BaseOk(Next(s, st))
  {
    if st.Around? {
      DraftKeys(s.env, st.e);
    } else if st.Consume? {
      BaseConsume(s, st.c, CurrentLine(s.q));
    } else {
      BaseQueue(s, st.st);
    }
  }
}
