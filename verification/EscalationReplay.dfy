// Replays after a crash: a line whose id was cached is recognised, so it is not
// submitted again and its missing image is not missed.

module EscalationReplay {
  import opened QueueTypes
  import opened QueueFiles
  import opened QueueInvariant
  import opened QueueHistory
  import QueueOrder
  import opened EscalationSystem
  import opened EscalationBase
  import opened EscalationImages

  /** The line of file f that a restarted reader would hand over again was left by the consumer half-way. */
  predicate Pending(f: File) {
    !f.rewound && f.seen == f.acked + 1 && f.acked < |f.lines|
  }

  /** If that line has settled, its id is still in the cache. */
  ghost predicate ReplaySafe(q: State, cache: seq<RequestId>, settled: set<Line>, n: Name)
    requires n in q.files
  {
    var f := q.files[n];
    QueueOrder.Active(q, n) && Pending(f) && f.lines[f.acked] in settled ==> f.lines[f.acked].request in cache
  }

  ghost predicate AllReplaySafe(q: State, cache: seq<RequestId>, settled: set<Line>) {
    forall n | n in q.files :: ReplaySafe(q, cache, settled, n)
  }

  /** What the consumer's program counter says about the line in hand. */
  ghost predicate ConsumerOk(c: ConsumerPc, l: Line, cache: seq<RequestId>, settled: set<Line>, images: map<Image, nat>) {
    && (c.Removing? || (c.Done? && !l.form.Garbled?) ==> l in settled && l.request in cache)
    && (c.Done? && !l.form.Garbled? ==> l.image !in images)
    && (l.form.Garbled? ==> c.Resting? || c.Checking? || c == Done(Recorded))
    && (c == Evicting(Duplicate) ==> l.request in cache)
    && (c.Submitting? || c.Calling? || c.Failing? || c.Touching? || (c.Evicting? && !c.outcome.Duplicate?) ==> l.request !in cache)
    && (c.Touching? ==> !c.outcome.Duplicate?)
  }

  ghost predicate ReplayParts(q: State, cache: seq<RequestId>, settled: set<Line>, images: map<Image, nat>, c: ConsumerPc) {
    && (forall l | l in settled :: l in q.handed && !l.form.Garbled?)
    && (forall l | l in q.acked && !l.form.Garbled? :: l in settled && l.image !in images)
    && AllReplaySafe(q, cache, settled)
    && (InHand(q) ==> ConsumerOk(c, CurrentLine(q), cache, settled, images))
  }

  ghost predicate ReplayOk(s: Sys) {
    ReplayParts(s.q, s.cache, s.log.settled, s.env.images, s.consumer)
  }

  /** While a line is in hand, it is the only one that a restart would hand over again. */
  lemma HandIsPending(q: State, n: Name)
    requires Inv(q) && InHand(q) && n in q.files && QueueOrder.Active(q, n)
    ensures n == q.reader.n
    ensures !q.files[n].rewound ==> Pending(q.files[n]) && q.files[n].lines[q.files[n].acked] == CurrentLine(q)
  {
    assert FileOk(q, n);
  }

  /** Before its id is cached, the line in hand has not settled, unless the reader started its file again. */
  lemma NotSettledYet(s: Sys)
    requires Inv(s.q) && ReplayOk(s) && InHand(s.q)
    requires CurrentLine(s.q).request !in s.cache && !s.q.files[s.q.reader.n].rewound
    ensures CurrentLine(s.q) !in s.log.settled
  {
    var n := s.q.reader.n;
    assert FileOk(s.q, n);
    assert QueueOrder.Active(s.q, n);
    HandIsPending(s.q, n);
    assert ReplaySafe(s.q, s.cache, s.log.settled, n);
  }

  lemma ReplayConsume(s: Sys, c: ConsumerStep)
    requires BaseOk(s) && ReplayOk(s) && InHand(s.q) && CanConsume(s, c, CurrentLine(s.q))
    ensures ReplayOk(DoConsume(s, c, CurrentLine(s.q)))
  {
    var l, s' := CurrentLine(s.q), DoConsume(s, c, CurrentLine(s.q));
    HandedInHand(s.q);
    ReplayConsumeHand(s, c, l);
    forall n | n in s.q.files
      ensures ReplaySafe(s.q, s'.cache, s'.log.settled, n)
    {
      ReplayConsumeOne(s, n, l, s'.cache, s'.log.settled);
    }
  }

  lemma HandedInHand(q: State)
    requires Inv(q) && HistoryOk(q) && InHand(q)
    ensures CurrentLine(q) in q.handed
  {
    assert FileOk(q, q.reader.n) && CountersOk(q, q.reader.n);
  }

  lemma ReplayConsumeOne(s: Sys, n: Name, l: Line, cache: seq<RequestId>, settled: set<Line>)
    requires Inv(s.q) && InHand(s.q) && l == CurrentLine(s.q) && n in s.q.files
    requires ReplaySafe(s.q, s.cache, s.log.settled, n)
    requires s.log.settled <= settled <= s.log.settled + {l}
    requires (l in settled ==> l in s.log.settled || l.request in cache) && (l.request in s.cache ==> l.request in cache)
    ensures ReplaySafe(s.q, cache, settled, n)
  {
    if QueueOrder.Active(s.q, n) {
      HandIsPending(s.q, n);
    }
  }

  lemma ReplayConsumeHand(s: Sys, c: ConsumerStep, l: Line)
    requires CanConsume(s, c, l) && ConsumerOk(s.consumer, l, s.cache, s.log.settled, s.env.images)
    ensures var s' := DoConsume(s, c, l);
            && ConsumerOk(s'.consumer, l, s'.cache, s'.log.settled, s'.env.images)
            && (l in s'.log.settled ==> l in s.log.settled || l.request in s'.cache)
            && (l.request in s.cache ==> l.request in s'.cache)
            && s.log.settled <= s'.log.settled <= s.log.settled + {l}
            && s'.env.images.Keys <= s.env.images.Keys && s'.q == s.q
  {
  }

  lemma ReplayEnv(s: Sys, e: EnvStep)
    requires BaseOk(s) && ReplayOk(s) && ImagesOk(s.env, s.log.settled, s.q.writers) && CanEnv(s.env, e)
    ensures ReplayOk(s.(env := DoEnv(s.env, e)))
  {
    var v' := DoEnv(s.env, e);
    forall l | l in s.q.handed && l.image !in s.env.images
      ensures l.image !in v'.images
    {
      assert Appended(s.q, l);
      assert WriterImages(s.env, s.log.settled, l.writer, s.q.writers[l.writer]);
    }
    if InHand(s.q) {
      assert FileOk(s.q, s.q.reader.n) && CountersOk(s.q, s.q.reader.n);
    }
  }

  // ---- steps of the file protocol ----

  /** No file became pending. */
  ghost predicate ReplayFrame(q: State, q': State) {
    && q'.handed == q.handed && q'.acked == q.acked
    && forall n | n in q'.files && QueueOrder.Active(q', n) && Pending(q'.files[n]) ::
         n in q.files && QueueOrder.Active(q, n) && Pending(q.files[n])
         && q'.files[n].lines[q'.files[n].acked] == q.files[n].lines[q.files[n].acked]
  }

  /** The line in hand, if there is one, is the same. */
  ghost predicate SameHand(q: State, q': State) {
    InHand(q') ==> InHand(q) && CurrentLine(q') == CurrentLine(q)
  }

  lemma FrameByWriter(q: State, st: Step)
    requires Enabled(q, st) && ByWriter(st) && ReaderOk(q)
    requires st.Create? ==> q.writers[st.w].last.value !in q.files
    requires st.Append? ==> FileShape(q.files[q.writers[st.w].last.value])
    ensures ReplayFrame(q, Do(q, st))
  {
  }

  lemma HandByWriter(q: State, st: Step)
    requires Enabled(q, st) && ByWriter(st) && (AtYield(q.reader) ==> HeldLine(q))
    requires st.Create? ==> q.writers[st.w].last.value !in q.files
    ensures SameHand(q, Do(q, st))
  {
  }

  lemma FrameByReader(q: State, st: Step)
    requires Enabled(q, st) && ReaderOk(q)
    requires st.ChooseTracked? || st.ChooseOldest? || st.Rename? || st.CheckData? || st.OpenTracker? || st.ReadSkip?
             || st.Crash?
    requires st.Rename? ==> FileShape(q.files[q.reader.n])
    ensures ReplayFrame(q, Do(q, st)) && SameHand(q, Do(q, st))
  {
  }

  lemma FrameByLoop(q: State, st: Step)
    requires Enabled(q, st) && ReaderOk(q) && (AtYield(q.reader) ==> HeldLine(q))
    requires st.UnlinkData? || st.UnlinkTracker? || st.SweepData? || st.SweepTracker?
    ensures ReplayFrame(q, Do(q, st)) && SameHand(q, Do(q, st))
  {
  }

  lemma FrameByEof(q: State, st: Step)
    requires Enabled(q, st) && (st.ReadLine? || st.LastLine?) && q.reader.i >= |q.files[q.reader.n].lines|
    ensures ReplayFrame(q, Do(q, st)) && SameHand(q, Do(q, st))
  {
  }

  lemma ReplayFramed(s: Sys, s': Sys)
    requires ReplayOk(s) && ReplayFrame(s.q, s'.q) && SameHand(s.q, s'.q)
    requires s'.cache == s.cache && s'.log.settled == s.log.settled && s'.env.images == s.env.images
    requires InHand(s'.q) ==> s'.consumer == s.consumer
    ensures ReplayOk(s')
  {
    forall n | n in s'.q.files
      ensures ReplaySafe(s'.q, s'.cache, s'.log.settled, n)
    {
      assert n in s.q.files ==> ReplaySafe(s.q, s.cache, s.log.settled, n);
    }
  }

  lemma FrameQuiet(q: State, st: Step)
    requires Inv(q) && Enabled(q, st) && !st.Ack? && !QueueOrder.Yields(q, st) && (AtYield(q.reader) ==> HeldLine(q))
    ensures ReplayFrame(q, Do(q, st)) && SameHand(q, Do(q, st))
  {
    if ByWriter(st) {
      if st.Create? {
        CreateIsFresh(q, st.w);
      } else if st.Append? {
        assert WriterOk(q, st.w) && FileOk(q, q.writers[st.w].last.value);
      }
      FrameByWriter(q, st);
      HandByWriter(q, st);
    } else if st.ReadLine? || st.LastLine? {
      FrameByEof(q, st);
    } else if st.UnlinkData? || st.UnlinkTracker? || st.SweepData? || st.SweepTracker? {
      FrameByLoop(q, st);
    } else {
      assert st.Rename? ==> FileOk(q, q.reader.n);
      FrameByReader(q, st);
    }
  }

  lemma ReplayQuiet(s: Sys, st: Step)
    requires BaseOk(s) && ReplayOk(s) && Allowed(s, st) && !st.Ack? && !QueueOrder.Yields(s.q, st)
    ensures ReplayOk(DoQueue(s, st))
  {
    assert AtYield(s.q.reader) ==> HeldLine(s.q) by {
      if AtYield(s.q.reader) {
        CurrentInHand(s);
      }
    }
    FrameQuiet(s.q, st);
    ReaderMoves(s.q, st);
    SameConsumer(s, st);
    ReplayFramed(s, DoQueue(s, st));
  }

  lemma SameConsumer(s: Sys, st: Step)
    requires Allowed(s, st) && !st.Ack?
    ensures DoQueue(s, st).cache == s.cache && DoQueue(s, st).log.settled == s.log.settled
    ensures DoQueue(s, st).env.images == s.env.images
    ensures AtYield(s.q.reader) && !st.Crash? ==> DoQueue(s, st).consumer == s.consumer
  {
  }

  lemma ReplayYield(s: Sys, n: Name, i: nat, pc: ReaderPc)
    requires BaseOk(s) && ReplayOk(s) && HasIndex(s.q.reader) && !AtYield(s.q.reader)
    requires s.q.reader.n == n && s.q.reader.i == i && i < |s.q.files[n].lines| && AtYield(pc) && pc.n == n && pc.i == i
    ensures ReplayParts(Yield(s.q, n, i, pc), s.cache, s.log.settled, s.env.images, Checking)
  {
    var q' := Yield(s.q, n, i, pc);
    assert FileOk(s.q, n) && CountersOk(s.q, n);
    forall m | m in q'.files
      ensures ReplaySafe(q', s.cache, s.log.settled, m)
    {
      assert ReplaySafe(s.q, s.cache, s.log.settled, m);
    }
  }

  lemma ReplayAck(s: Sys)
    requires BaseOk(s) && ReplayOk(s) && InHand(s.q) && s.consumer.Done?
    ensures ReplayParts(DoAck(s.q), s.cache, s.log.settled, s.env.images, Resting)
  {
    assert FileOk(s.q, s.q.reader.n);
    forall m | m in s.q.files
      ensures ReplaySafe(DoAck(s.q), s.cache, s.log.settled, m)
    {
      ReplayAckOne(s, m);
    }
  }

  lemma ReplayAckOne(s: Sys, m: Name)
    requires Inv(s.q) && HistoryOk(s.q) && InHand(s.q) && m in s.q.files
    requires forall l | l in s.log.settled :: l in s.q.handed
    requires ReplaySafe(s.q, s.cache, s.log.settled, m)
    ensures ReplaySafe(DoAck(s.q), s.cache, s.log.settled, m)
  {
    if QueueOrder.Active(DoAck(s.q), m) {
      HandIsPending(s.q, m);
      assert FileOk(s.q, m) && CountersOk(s.q, m);
    }
  }
}
