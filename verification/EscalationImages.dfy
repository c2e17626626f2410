// Images and the clock: an image is on disk before its line is queued and stays
// there until the line's id was cached, unless the sweep took it after it expired.

module EscalationImages {
  import opened QueueTypes
  import opened QueueFiles
  import opened EscalationSystem
  import opened EscalationBase

  /** An image is no older than the escalation it belongs to; if the sweep took it, the escalation had expired. */
  ghost predicate Dated(v: Env, image: Image, at: nat) {
    && (image in v.images ==> at <= v.images[image] <= v.clock)
    && (image in v.swept ==> at + RETENTION < v.clock)
  }

  ghost predicate Kept(v: Env, image: Image) {
    image in v.images || image in v.swept
  }

  ghost predicate OwnImage(v: Env, w: WriterId, image: Image, at: nat)
    requires w in v.attempts
  {
    image.writer == w && image.attempt < v.attempts[w] && at <= v.clock && Dated(v, image, at)
  }

  ghost predicate LineImage(v: Env, settled: set<Line>, w: WriterId, l: Line)
    requires w in v.attempts
  {
    OwnImage(v, w, l.image, l.queuedAt) && (l !in settled ==> Kept(v, l.image))
  }

  ghost predicate DraftOk(v: Env, w: WriterId)
    requires w in v.attempts && w in v.drafts
  {
    var d := v.drafts[w];
    && (d.Stamped? ==> d.at <= v.clock)
    && (d.Imaged? ==> OwnImage(v, w, d.image, d.at) && Kept(v, d.image))
  }

  /** A writer's images are all different: lines use them in the order they were written. */
  ghost predicate ImageOrder(wr: Writer, d: Draft) {
    && (forall j, k | 0 <= j < k < |wr.written| :: wr.written[j].image.attempt < wr.written[k].image.attempt)
    && (wr.pc.Busy() ==> forall k | 0 <= k < |wr.written| :: wr.written[k].image.attempt < wr.pc.line.image.attempt)
    && (d.Imaged? ==> forall k | 0 <= k < |wr.written| :: wr.written[k].image.attempt < d.image.attempt)
    && (d.Imaged? && wr.pc.Busy() ==> wr.pc.line.image.attempt < d.image.attempt)
  }

  ghost predicate WriterImages(v: Env, settled: set<Line>, w: WriterId, wr: Writer)
    requires w in v.attempts && w in v.drafts
  {
    && (forall k | 0 <= k < |wr.written| :: LineImage(v, settled, w, wr.written[k]))
    && (wr.pc.Busy() ==> LineImage(v, settled, w, wr.pc.line))
    && DraftOk(v, w)
    && ImageOrder(wr, v.drafts[w])
  }

  ghost predicate ImagesOk(v: Env, settled: set<Line>, writers: map<WriterId, Writer>) {
    && v.drafts.Keys == v.attempts.Keys == writers.Keys
    && (forall image | image in v.swept || image in v.images ::
          image.writer in v.attempts && image.attempt < v.attempts[image.writer])
    && forall w | w in writers :: WriterImages(v, settled, w, writers[w])
  }

  lemma ImagesTick(v: Env, v': Env, settled: set<Line>, writers: map<WriterId, Writer>)
    requires ImagesOk(v, settled, writers)
    requires v'.drafts == v.drafts && v'.attempts == v.attempts && v.clock <= v'.clock
    requires forall image | Kept(v, image) :: Kept(v', image)
    requires forall image, at | Dated(v, image, at) :: Dated(v', image, at)
    requires v'.images.Keys + v'.swept <= v.images.Keys + v.swept
    ensures ImagesOk(v', settled, writers)
  {
    forall w | w in writers
      ensures WriterImages(v', settled, w, writers[w])
    {
      ImagesTickOne(v, v', settled, w, writers[w]);
    }
  }

  lemma ImagesTickOne(v: Env, v': Env, settled: set<Line>, w: WriterId, wr: Writer)
    requires w in v.attempts && w in v.drafts && WriterImages(v, settled, w, wr)
    requires v'.drafts == v.drafts && v'.attempts == v.attempts && v.clock <= v'.clock
    requires forall image | Kept(v, image) :: Kept(v', image)
    requires forall image, at | Dated(v, image, at) :: Dated(v', image, at)
    ensures WriterImages(v', settled, w, wr)
  {
  }

  lemma ImagesDraft(v: Env, settled: set<Line>, writers: map<WriterId, Writer>, w: WriterId, d: Draft)
    requires ImagesOk(v, settled, writers) && w in writers && (d.NoDraft? || d == Stamped(v.clock))
    ensures ImagesOk(v.(drafts := v.drafts[w := d]), settled, writers)
  {
    var v' := v.(drafts := v.drafts[w := d]);
    assert v'.drafts.Keys == v.drafts.Keys;
    forall u | u in writers
      ensures u in v'.attempts && u in v'.drafts && WriterImages(v', settled, u, writers[u])
    {
      DraftAt(v, settled, writers, w, d, u);
    }
  }

  lemma DraftAt(v: Env, settled: set<Line>, writers: map<WriterId, Writer>, w: WriterId, d: Draft, u: WriterId)
    requires ImagesOk(v, settled, writers) && w in writers && (d.NoDraft? || d == Stamped(v.clock)) && u in writers
    ensures var v' := v.(drafts := v.drafts[w := d]);
            u in v'.attempts && u in v'.drafts && WriterImages(v', settled, u, writers[u])
  {
    assert WriterImages(v, settled, u, writers[u]);
    ImagesDraftOne(v, v.(drafts := v.drafts[w := d]), settled, w, u, writers[u]);
  }

  lemma ImagesDraftOne(v: Env, v': Env, settled: set<Line>, w: WriterId, u: WriterId, wr: Writer)
    requires u in v.attempts && u in v.drafts && WriterImages(v, settled, u, wr)
    requires w in v'.drafts && v' == v.(drafts := v.drafts[w := v'.drafts[w]])
    requires v'.drafts[w].NoDraft? || v'.drafts[w] == Stamped(v.clock)
    ensures WriterImages(v', settled, u, wr)
  {
  }

  lemma ImagesWrite(v: Env, settled: set<Line>, writers: map<WriterId, Writer>, w: WriterId)
    requires ImagesOk(v, settled, writers) && CanEnv(v, WriteImage(w))
    ensures ImagesOk(DoEnv(v, WriteImage(w)), settled, writers)
  {
    var v' := DoEnv(v, WriteImage(w));
    DraftKeys(v, WriteImage(w));
    forall u | u in writers
      ensures WriterImages(v', settled, u, writers[u])
    {
      ImagesWriteOne(v, v', settled, w, u, writers[u]);
    }
  }

  lemma ImagesWriteOne(v: Env, v': Env, settled: set<Line>, w: WriterId, u: WriterId, wr: Writer)
    requires u in v.attempts && u in v.drafts && WriterImages(v, settled, u, wr)
    requires CanEnv(v, WriteImage(w)) && v' == DoEnv(v, WriteImage(w)) && Image(w, v.attempts[w]) !in v.swept
    ensures u in v'.attempts && u in v'.drafts && WriterImages(v', settled, u, wr)
  {
  }

  lemma ImagesEnv(v: Env, settled: set<Line>, writers: map<WriterId, Writer>, e: EnvStep)
    requires ImagesOk(v, settled, writers) && CanEnv(v, e)
    ensures ImagesOk(DoEnv(v, e), settled, writers)
  {
    if e.Tick? || e.SweepImage? {
      ImagesTick(v, DoEnv(v, e), settled, writers);
    } else if e.WriteImage? {
      ImagesWrite(v, settled, writers, e.w);
    } else {
      ImagesDraft(v, settled, writers, e.w, if e.Stamp? then Stamped(v.clock) else NoDraft);
    }
  }

  /** Settling more lines asks for fewer images. */
  lemma ImagesSettle(v: Env, settled: set<Line>, settled': set<Line>, writers: map<WriterId, Writer>)
    requires ImagesOk(v, settled, writers) && settled <= settled'
    ensures ImagesOk(v, settled', writers)
  {
    forall w | w in writers
      ensures WriterImages(v, settled', w, writers[w])
    {
      assert WriterImages(v, settled, w, writers[w]);
    }
  }

  /** An image goes only once its line has settled, and no other line uses it. */
  lemma ImagesRemove(v: Env, settled: set<Line>, writers: map<WriterId, Writer>, l: Line)
    requires ImagesOk(v, settled, writers) && l in settled
    requires l.writer in writers && l.serial < |writers[l.writer].written| && writers[l.writer].written[l.serial] == l
    ensures ImagesOk(v.(images := v.images - {l.image}), settled, writers)
  {
    var v' := v.(images := v.images - {l.image});
    assert WriterImages(v, settled, l.writer, writers[l.writer]);
    assert OwnImage(v, l.writer, l.image, l.queuedAt);
    forall w | w in writers
      ensures WriterImages(v', settled, w, writers[w])
    {
      if w == l.writer {
        ImagesRemoveOwn(v, settled, writers[w], l);
      } else {
        ImagesRemoveOther(v, settled, w, writers[w], l.image);
      }
    }
  }

  lemma ImagesRemoveOwn(v: Env, settled: set<Line>, wr: Writer, l: Line)
    requires l.writer in v.attempts && l.writer in v.drafts && WriterImages(v, settled, l.writer, wr) && l in settled
    requires l.serial < |wr.written| && wr.written[l.serial] == l
    ensures WriterImages(v.(images := v.images - {l.image}), settled, l.writer, wr)
  {
  }

  lemma ImagesRemoveOther(v: Env, settled: set<Line>, w: WriterId, wr: Writer, image: Image)
    requires w in v.attempts && w in v.drafts && WriterImages(v, settled, w, wr) && image.writer != w
    ensures WriterImages(v.(images := v.images - {image}), settled, w, wr)
  {
  }

  /** What the steps of a writer do to its line. */
  ghost predicate LineMoves(st: Step, wr: Writer, wr': Writer) {
    || (st.Start? && wr'.pc.Busy() && wr'.pc.line == st.line && wr'.written == wr.written)
    || (st.Append? && wr'.pc.Idle? && wr.pc.Busy() && wr'.written == wr.written + [wr.pc.line])
    || (wr.pc.Busy() && wr'.pc.Busy() && wr'.pc.line == wr.pc.line && wr'.written == wr.written)
    || (wr'.pc.Idle? && wr'.written == wr.written)
  }

  ghost predicate ByWriter(st: Step) {
    st.Start? || st.Generate? || st.OpenExisting? || st.Create? || st.Append? || st.Fail? || st.WriterCrash?
  }

  lemma WriterEffect(q: State, st: Step)
    requires Enabled(q, st) && ByWriter(st)
    ensures st.w in q.writers && st.w in Do(q, st).writers
    ensures Do(q, st).writers == q.writers[st.w := Do(q, st).writers[st.w]]
    ensures LineMoves(st, q.writers[st.w], Do(q, st).writers[st.w])
  {
  }

  lemma ImagesMove(v: Env, settled: set<Line>, w: WriterId, st: Step, wr: Writer, wr': Writer)
    requires w in v.attempts && w in v.drafts && WriterImages(v, settled, w, wr) && LineMoves(st, wr, wr')
    requires st.Start? ==> v.drafts[w] == Imaged(st.line.queuedAt, st.line.image)
    ensures WriterImages(if st.Start? then v.(drafts := v.drafts[w := NoDraft]) else v, settled, w, wr')
  {
  }

  /** A writer step moves its line along: from the draft to the call, from the call to the file. */
  lemma ImagesWriter(v: Env, settled: set<Line>, writers: map<WriterId, Writer>, st: Step, wr': Writer)
    requires ImagesOk(v, settled, writers) && ByWriter(st) && st.w in writers && LineMoves(st, writers[st.w], wr')
    requires st.Start? ==> v.drafts[st.w] == Imaged(st.line.queuedAt, st.line.image)
    ensures ImagesOk(if st.Start? then v.(drafts := v.drafts[st.w := NoDraft]) else v, settled, writers[st.w := wr'])
  {
    if st.Start? {
      ImagesStart(v, settled, writers, st, wr');
    } else {
      ImagesStay(v, settled, writers, st, wr');
    }
  }

  lemma ImagesStart(v: Env, settled: set<Line>, writers: map<WriterId, Writer>, st: Step, wr': Writer)
    requires ImagesOk(v, settled, writers) && st.Start? && st.w in writers && LineMoves(st, writers[st.w], wr')
    requires v.drafts[st.w] == Imaged(st.line.queuedAt, st.line.image)
    ensures ImagesOk(v.(drafts := v.drafts[st.w := NoDraft]), settled, writers[st.w := wr'])
  {
    ImagesDraft(v, settled, writers, st.w, NoDraft);
    ImagesMove(v, settled, st.w, st, writers[st.w], wr');
    ImagesReplace(v.(drafts := v.drafts[st.w := NoDraft]), settled, writers, st.w, wr');
  }

  lemma ImagesStay(v: Env, settled: set<Line>, writers: map<WriterId, Writer>, st: Step, wr': Writer)
    requires ImagesOk(v, settled, writers) && ByWriter(st) && !st.Start? && st.w in writers && LineMoves(st, writers[st.w], wr')
    ensures ImagesOk(v, settled, writers[st.w := wr'])
  {
    ImagesMove(v, settled, st.w, st, writers[st.w], wr');
    ImagesReplace(v, settled, writers, st.w, wr');
  }

  lemma ImagesReplace(v: Env, settled: set<Line>, writers: map<WriterId, Writer>, w: WriterId, wr': Writer)
    requires ImagesOk(v, settled, writers) && w in writers && WriterImages(v, settled, w, wr')
    ensures ImagesOk(v, settled, writers[w := wr'])
  {
  }

  lemma ImagesQueue(s: Sys, st: Step)
    requires ImagesOk(s.env, s.log.settled, s.q.writers) && Allowed(s, st)
    ensures ImagesOk(EnvWith(s, st, Do(s.q, st)), s.log.settled, Do(s.q, st).writers)
  {
    if ByWriter(st) {
      WriterEffect(s.q, st);
      ImagesWriter(s.env, s.log.settled, s.q.writers, st, Do(s.q, st).writers[st.w]);
    } else {
      WritersIdle(s.q, st);
      ImagesTick(s.env, EnvWith(s, st, Do(s.q, st)), s.log.settled, s.q.writers);
    }
  }

  lemma WritersIdle(q: State, st: Step)
    requires Enabled(q, st) && !ByWriter(st)
    ensures Do(q, st).writers == q.writers
  {
  }
}
