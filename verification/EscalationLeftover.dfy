// Settled lines whose image is still on disk: those that could be submitted again. As long as no sweep
// makes the reader start a file with such a line again, the reader comes back to that line first, and
// finds its id in the cache.

module EscalationLeftover {
  import opened QueueTypes
  import opened QueueFiles
  import opened QueueInvariant
  import opened QueueHistory
  import opened QueueRepeats
  import opened EscalationSystem
  import opened EscalationBase
  import opened EscalationImages
  import opened EscalationReplay
  import opened EscalationExpiry
  import opened EscalationOutcome

  /** Line j of the file has settled and its image is still there. */
  ghost predicate LeftAt(f: File, settled: set<Line>, images: map<Image, nat>, j: int) {
    0 <= j < |f.lines| && f.lines[j] in settled && f.lines[j].image in images
  }

  /** No settled line of the file has its image. */
  ghost predicate NoneLeft(f: File, settled: set<Line>, images: map<Image, nat>) {
    forall j :: !LeftAt(f, settled, images, j)
  }

  /** Such a line of a file that the reader has or will come back to is the next one of it, and its id is cached. */
  ghost predicate LeftoverOk(q: State, cache: seq<RequestId>, settled: set<Line>, images: map<Image, nat>, n: Name) {
    Given(q, n) ==>
      forall j | LeftAt(q.files[n], settled, images, j) ::
        j == q.files[n].acked && q.files[n].lines[j].request in cache && Backlog(q, n) <= 0
  }

  ghost predicate LeftoversOk(s: Sys) {
    forall n :: LeftoverOk(s.q, s.cache, s.log.settled, s.env.images, n)
  }

  /** A line being submitted, or just acknowledged, has not settled before. */
  ghost predicate HandUnsettled(s: Sys) {
    InHand(s.q) && (s.consumer.Calling? || s.consumer == Evicting(Submitted) || s.consumer == Touching(Submitted)) ==>
      CurrentLine(s.q) !in s.log.settled
  }

  /** If the step makes the reader start a file again, the images of the settled lines of that file are gone. */
  ghost predicate Harmless(s: Sys, st: SysStep) {
    st.Queue? && Rewinds(s.q, st.st) ==> NoneLeft(s.q.files[st.st.n], s.log.settled, s.env.images)
  }

  /** A run of which that is true at every step. */
  ghost predicate HarmlessSteps(s: Sys, steps: seq<SysStep>)
    requires Steps(s, steps)
    decreases |steps|
  {
    steps == [] || (Harmless(s, steps[0]) && HarmlessSteps(Next(s, steps[0]), steps[1..]))
  }

  // ---- images go ----

  /** Of what has been handed over, no image comes back. */
  lemma ImagesGo(s: Sys, e: EnvStep, l: Line)
    requires BaseOk(s) && ImagesOk(s.env, s.log.settled, s.q.writers) && CanEnv(s.env, e) && l in s.q.handed
    requires l.image in DoEnv(s.env, e).images
    ensures l.image in s.env.images
  {
    assert Appended(s.q, l);
    assert WriterImages(s.env, s.log.settled, l.writer, s.q.writers[l.writer]);
  }

  lemma LeftoverFewer(q: State, cache: seq<RequestId>, settled: set<Line>, images: map<Image, nat>, images': map<Image, nat>,
                      n: Name)
    requires LeftoverOk(q, cache, settled, images, n)
    requires forall l | l in settled && l.image in images' :: l.image in images
    ensures LeftoverOk(q, cache, settled, images', n)
  {
    if Given(q, n) {
      forall j | LeftAt(q.files[n], settled, images', j)
        ensures LeftAt(q.files[n], settled, images, j)
      {
      }
    }
  }

  lemma LeftoverEnv(s: Sys, e: EnvStep)
    requires SysOk(s) && LeftoversOk(s) && CanEnv(s.env, e)
    ensures LeftoversOk(s.(env := DoEnv(s.env, e)))
  {
    var v' := DoEnv(s.env, e);
    forall l | l in s.log.settled && l.image in v'.images
      ensures l.image in s.env.images
    {
      ImagesGo(s, e, l);
    }
    forall n
      ensures LeftoverOk(s.q, s.cache, s.log.settled, v'.images, n)
    {
      LeftoverFewer(s.q, s.cache, s.log.settled, s.env.images, v'.images, n);
    }
  }

  // ---- the consumer ----

  /** If its image is there, the line in hand is the next one of its file. */
  lemma HandIsNext(s: Sys)
    requires BaseOk(s) && ReplayOk(s) && InHand(s.q) && CurrentLine(s.q).image in s.env.images
    requires !CurrentLine(s.q).form.Garbled?
    ensures s.q.reader.i == s.q.files[s.q.reader.n].acked && Backlog(s.q, s.q.reader.n) <= 0
  {
    assert CurrentLine(s.q) !in s.q.acked;
    UnconsumedIsNext(s.q);
  }

  lemma UnconsumedIsNext(q: State)
    requires Inv(q) && HistoryOk(q) && InHand(q) && CurrentLine(q) !in q.acked
    ensures q.reader.i == q.files[q.reader.n].acked && Backlog(q, q.reader.n) <= 0
  {
    assert FileOk(q, q.reader.n) && CountersOk(q, q.reader.n);
  }

  /** No other line of its file is left over. */
  lemma OnlyHandLeft(q: State, cache: seq<RequestId>, settled: set<Line>, images: map<Image, nat>, j: int)
    requires Inv(q) && InHand(q) && LeftoverOk(q, cache, settled, images, q.reader.n)
    requires LeftAt(q.files[q.reader.n], settled, images, j)
    ensures j == q.reader.i && CurrentLine(q).request in cache
  {
    assert FileOk(q, q.reader.n) && Given(q, q.reader.n);
  }

  /** A settled line in hand whose image is there is recognised. */
  lemma LeftInHand(s: Sys)
    requires Inv(s.q) && InHand(s.q) && LeftoversOk(s)
    requires CurrentLine(s.q) in s.log.settled && CurrentLine(s.q).image in s.env.images
    ensures CurrentLine(s.q).request in s.cache
  {
    var n := s.q.reader.n;
    assert LeftoverOk(s.q, s.cache, s.log.settled, s.env.images, n);
    assert LeftAt(s.q.files[n], s.log.settled, s.env.images, s.q.reader.i);
    OnlyHandLeft(s.q, s.cache, s.log.settled, s.env.images, s.q.reader.i);
  }

  lemma LeftoverConsumeOne(s: Sys, c: ConsumerStep, l: Line, n: Name)
    requires BaseOk(s) && ReplayOk(s) && LeftoversOk(s) && InHand(s.q) && l == CurrentLine(s.q) && CanConsume(s, c, l)
    ensures LeftoverOk(s.q, DoConsume(s, c, l).cache, DoConsume(s, c, l).log.settled, DoConsume(s, c, l).env.images, n)
  {
    var s' := DoConsume(s, c, l);
    ReplayConsumeHand(s, c, l);
    if Given(s.q, n) {
      GivenInHand(s.q, n);
      forall j | LeftAt(s.q.files[n], s'.log.settled, s'.env.images, j)
        ensures j == s.q.files[n].acked && s.q.files[n].lines[j].request in s'.cache && Backlog(s.q, n) <= 0
      {
        LeftAfter(s, s', l, j);
      }
    }
  }

  lemma GivenInHand(q: State, n: Name)
    requires Inv(q) && InHand(q) && Given(q, n)
    ensures n == q.reader.n
  {
  }

  /** What is left over after a consumer step is the line in hand. */
  lemma LeftAfter(s: Sys, s': Sys, l: Line, j: int)
    requires BaseOk(s) && ReplayOk(s) && LeftoversOk(s) && InHand(s.q) && l == CurrentLine(s.q)
    requires s'.env.images.Keys <= s.env.images.Keys && s.log.settled <= s'.log.settled <= s.log.settled + {l}
    requires l in s'.log.settled ==> !l.form.Garbled? && (l in s.log.settled || l.request in s'.cache)
    requires l.request in s.cache ==> l.request in s'.cache
    requires LeftAt(s.q.files[s.q.reader.n], s'.log.settled, s'.env.images, j)
    ensures j == s.q.files[s.q.reader.n].acked && l.request in s'.cache && Backlog(s.q, s.q.reader.n) <= 0
    ensures s.q.files[s.q.reader.n].lines[j] == l
  {
    OnlyHandAfter(s, s', l, j);
    HandIsNext(s);
    if l in s.log.settled {
      LeftInHand(s);
    }
  }

  lemma OnlyHandAfter(s: Sys, s': Sys, l: Line, j: int)
    requires Inv(s.q) && LeftoversOk(s) && InHand(s.q) && l == CurrentLine(s.q)
    requires s'.env.images.Keys <= s.env.images.Keys && s'.log.settled <= s.log.settled + {l}
    requires LeftAt(s.q.files[s.q.reader.n], s'.log.settled, s'.env.images, j)
    ensures j == s.q.reader.i && s.q.files[s.q.reader.n].lines[j] == l
  {
    var n := s.q.reader.n;
    if s.q.files[n].lines[j] == l {
      OnePlace(s.q, n, j, n, s.q.reader.i);
    } else {
      assert LeftoverOk(s.q, s.cache, s.log.settled, s.env.images, n);
      assert LeftAt(s.q.files[n], s.log.settled, s.env.images, j);
      OnlyHandLeft(s.q, s.cache, s.log.settled, s.env.images, j);
    }
  }

  lemma UnsettledConsume(s: Sys, c: ConsumerStep, l: Line)
    requires InHand(s.q) && l == CurrentLine(s.q) && CanConsume(s, c, l) && HandUnsettled(s)
    requires ConsumerOk(s.consumer, l, s.cache, s.log.settled, s.env.images)
    requires l in s.log.settled && l.image in s.env.images ==> l.request in s.cache
    ensures HandUnsettled(DoConsume(s, c, l))
  {
  }

  lemma LeftoverConsume(s: Sys, c: ConsumerStep)
    requires SysOk(s) && LeftoversOk(s) && HandUnsettled(s) && InHand(s.q) && CanConsume(s, c, CurrentLine(s.q))
    ensures LeftoversOk(DoConsume(s, c, CurrentLine(s.q))) && HandUnsettled(DoConsume(s, c, CurrentLine(s.q)))
  {
    var l := CurrentLine(s.q);
    forall n
      ensures LeftoverOk(s.q, DoConsume(s, c, l).cache, DoConsume(s, c, l).log.settled, DoConsume(s, c, l).env.images, n)
    {
      LeftoverConsumeOne(s, c, l, n);
    }
    if l in s.log.settled && l.image in s.env.images {
      LeftInHand(s);
    }
    UnsettledConsume(s, c, l);
  }

  // ---- steps of the file protocol ----

  /** The lines of file n that were handed over are those that were, in the same places. */
  ghost predicate SameSeen(q: State, q': State, n: Name) {
    && n in q.files && n in q'.files && q'.files[n].acked == q.files[n].acked
    && q.files[n].seen <= |q.files[n].lines| <= |q'.files[n].lines|
    && forall j | 0 <= j < q.files[n].seen :: q'.files[n].lines[j] == q.files[n].lines[j]
  }

  lemma SeenStays(q: State, st: Step, n: Name)
    requires Enabled(q, st) && !st.Ack? && n in q.files && FileShape(q.files[n])
    requires st.Create? ==> q.writers[st.w].last.value !in q.files
    ensures SameSeen(q, Do(q, st), n)
  {
  }

  /** What of a file had settled before was handed over, so it is among the lines seen. */
  lemma SettledIsSeen(q: State, q': State, settled: set<Line>, n: Name, j: int)
    requires HistoryOk(q) && n in q.files && n in q'.files && CountersOk(q', n)
    requires (forall l | l in settled :: l in q'.handed) && 0 <= j < |q'.files[n].lines| && q'.files[n].lines[j] in settled
    ensures j < q'.files[n].seen
  {
  }

  /** A step that hands nothing over and takes nothing back. */
  lemma LeftoverQuiet(s: Sys, st: Step, n: Name)
    requires BaseOk(s) && ReplayOk(s) && LeftoverOk(s.q, s.cache, s.log.settled, s.env.images, n)
    requires Enabled(s.q, st) && !st.Ack? && !QueueOrder.Yields(s.q, st)
    requires Rewinds(s.q, st) ==> NoneLeft(s.q.files[st.n], s.log.settled, s.env.images)
    ensures LeftoverOk(Do(s.q, st), s.cache, s.log.settled, s.env.images, n)
  {
    var q' := Do(s.q, st);
    if Given(q', n) {
      HistoryStep(s.q, st);
      InvStep(s.q, st);
      KeptHanded(s.q, st);
      BacklogOne(s.q, st, n);
      assert FileOk(q', n) && CountersOk(q', n);
      forall j | LeftAt(q'.files[n], s.log.settled, s.env.images, j)
        ensures j == q'.files[n].acked && q'.files[n].lines[j].request in s.cache && Backlog(q', n) <= 0
      {
        assert q'.files[n].lines[j] in q'.handed;
        LeftBefore(s, st, n, j);
      }
    }
  }

  lemma KeptHanded(q: State, st: Step)
    requires Enabled(q, st) && !QueueOrder.Yields(q, st)
    ensures Do(q, st).handed == q.handed
  {
  }

  lemma LeftBefore(s: Sys, st: Step, n: Name, j: int)
    requires Inv(s.q) && LeftoverOk(s.q, s.cache, s.log.settled, s.env.images, n) && Enabled(s.q, st) && !st.Ack?
    requires n in Do(s.q, st).files && 0 <= j < Do(s.q, st).files[n].seen <= |Do(s.q, st).files[n].lines|
    requires !QueueOrder.Yields(s.q, st)
    requires LeftAt(Do(s.q, st).files[n], s.log.settled, s.env.images, j)
    requires Given(s.q, n) && Backlog(Do(s.q, st), n) <= Backlog(s.q, n) + TakenBack(s.q, st)
    requires Rewinds(s.q, st) ==> NoneLeft(s.q.files[st.n], s.log.settled, s.env.images)
    ensures j == Do(s.q, st).files[n].acked && Do(s.q, st).files[n].lines[j].request in s.cache && Backlog(Do(s.q, st), n) <= 0
  {
    if st.Create? {
      CreateIsFresh(s.q, st.w);
    }
    assert FileOk(s.q, n);
    SeenStays(s.q, st, n);
    SeenCounts(s.q, st, n);
    assert LeftAt(s.q.files[n], s.log.settled, s.env.images, j);
    if Rewinds(s.q, st) {
      RewindsGiven(s.q, st, n);
    }
  }

  lemma SeenCounts(q: State, st: Step, n: Name)
    requires Enabled(q, st) && !QueueOrder.Yields(q, st) && n in q.files
    requires st.Create? ==> q.writers[st.w].last.value !in q.files
    ensures Do(q, st).files[n].seen == q.files[n].seen
  {
  }

  /** The file that the sweep makes the reader start again is the only one given to it. */
  lemma RewindsGiven(q: State, st: Step, n: Name)
    requires Inv(q) && Rewinds(q, st) && Given(q, n)
    ensures n == st.n
  {
  }

  lemma LeftoverYield(s: Sys, st: Step, n: Name)
    requires LeftoverOk(s.q, s.cache, s.log.settled, s.env.images, n)
    requires Enabled(s.q, st) && QueueOrder.Yields(s.q, st)
    ensures LeftoverOk(Do(s.q, st), s.cache, s.log.settled, s.env.images, n)
  {
    var q' := Do(s.q, st);
    if Given(q', n) {
      assert Given(s.q, n) && Backlog(q', n) == Backlog(s.q, n);
      forall j | LeftAt(q'.files[n], s.log.settled, s.env.images, j)
        ensures LeftAt(s.q.files[n], s.log.settled, s.env.images, j)
      {
      }
    }
  }

  /** Once the consumer is done with a line, no line of its file is left over. */
  lemma LeftoverAck(s: Sys, n: Name)
    requires BaseOk(s) && ReplayOk(s) && LeftoversOk(s) && Allowed(s, Ack)
    ensures LeftoverOk(DoAck(s.q), s.cache, s.log.settled, s.env.images, n)
  {
    if Given(DoAck(s.q), n) {
      AckElsewhere(s.q);
      DoneLeavesNone(s);
      SameLinesAck(s.q);
      forall j | LeftAt(DoAck(s.q).files[n], s.log.settled, s.env.images, j)
        ensures LeftAt(s.q.files[n], s.log.settled, s.env.images, j)
      {
      }
    }
  }

  lemma SameLinesAck(q: State)
    requires Enabled(q, Ack)
    ensures DoAck(q).files[q.reader.n].lines == q.files[q.reader.n].lines
  {
  }

  lemma DoneLeavesNone(s: Sys)
    requires BaseOk(s) && ReplayOk(s) && LeftoversOk(s) && InHand(s.q) && s.consumer.Done?
    ensures NoneLeft(s.q.files[s.q.reader.n], s.log.settled, s.env.images)
  {
    var n := s.q.reader.n;
    forall j
      ensures !LeftAt(s.q.files[n], s.log.settled, s.env.images, j)
    {
      if LeftAt(s.q.files[n], s.log.settled, s.env.images, j) {
        assert LeftoverOk(s.q, s.cache, s.log.settled, s.env.images, n);
        OnlyHandLeft(s.q, s.cache, s.log.settled, s.env.images, j);
      }
    }
  }

  lemma LeftoverQueue(s: Sys, st: Step)
    requires SysOk(s) && LeftoversOk(s) && HandUnsettled(s) && Allowed(s, st) && Harmless(s, Queue(st))
    ensures LeftoversOk(DoQueue(s, st)) && HandUnsettled(DoQueue(s, st))
  {
    LogQueue(s, st);
    forall n
      ensures LeftoverOk(Do(s.q, st), s.cache, s.log.settled, s.env.images, n)
    {
      if st.Ack? {
        LeftoverAck(s, n);
      } else if QueueOrder.Yields(s.q, st) {
        LeftoverYield(s, st, n);
      } else {
        LeftoverQuiet(s, st, n);
      }
    }
    SameImages(s, st);
    if InHand(Do(s.q, st)) && DoQueue(s, st).consumer != Checking {
      HandQueue(s, st);
    }
  }

  lemma SameImages(s: Sys, st: Step)
    requires Allowed(s, st)
    ensures DoQueue(s, st).env.images == s.env.images && DoQueue(s, st).log.settled == s.log.settled
  {
  }

  lemma LeftoverStep(s: Sys, st: SysStep)
    requires SysOk(s) && LeftoversOk(s) && HandUnsettled(s) && Can(s, st) && Harmless(s, st)
    ensures LeftoversOk(Next(s, st)) && HandUnsettled(Next(s, st))
  {
    match st {
      case Around(e) => LeftoverEnv(s, e);
      case Consume(c) => LeftoverConsume(s, c);
      case Queue(f) => LeftoverQueue(s, f);
    }
  }

  lemma {:induction false} LeftoverRun(s: Sys, steps: seq<SysStep>)
    requires SysOk(s) && LeftoversOk(s) && HandUnsettled(s) && Steps(s, steps) && HarmlessSteps(s, steps)
    ensures SysOk(After(s, steps)) && LeftoversOk(After(s, steps)) && HandUnsettled(After(s, steps))
    decreases |steps|
  {
    if steps != [] {
      SysStepKeeps(s, steps[0]);
      LeftoverStep(s, steps[0]);
      LeftoverRun(Next(s, steps[0]), steps[1..]);
    }
  }
}
