// What every step of the file protocol keeps, whatever the interleaving of
// writers, reader, sweep and crashes.

module QueueInvariant {
  import opened Collections
  import opened QueueTypes
  import opened QueueFiles

  /** What one file record satisfies on its own. */
  ghost predicate FileShape(f: File) {
    && |f.lines| <= MAX_QUEUE_FILE_LINES
    && f.acked <= f.seen <= |f.lines|
    && (!f.rewound ==> f.seen <= f.acked + 1)
    && (f.rewound ==> f.trackerSwept)
    && (f.tracker.Some? ==> f.tracker.value <= f.acked && (!f.rewound ==> f.tracker.value == f.acked))
    && (f.dir == Writing ==> f.tracker.None? && f.seen == 0 && f.fate.Live?)
    && (f.fate.Live? ==> !f.trackerSwept && f.dir != Unlinked && (f.tracker.None? ==> f.seen == 0))
    && (f.fate.Stranded? ==> f.dir == Reading && f.tracker.None? && f.seen == 0 && !f.trackerSwept)
    && (f.fate.Finished? ==> f.dir == Unlinked && f.fate.upTo == f.acked == f.seen && !f.trackerSwept)
  }

  /** A file holds a contiguous piece of what its owner appended. */
  ghost predicate FileWritten(f: File, wr: Writer) {
    && f.base + |f.lines| <= |wr.written|
    && forall j | 0 <= j < |f.lines| :: f.lines[j] == wr.written[f.base + j]
  }

  ghost predicate FileOk(s: State, n: Name)
    requires n in s.files
  {
    var f := s.files[n];
    && n in s.used
    && FileShape(f)
    && f.owner in s.writers
    && FileWritten(f, s.writers[f.owner])
    && (f.fate.Live? && f.dir == Reading && f.tracker.None? ==> s.reader == Chosen(n) || s.reader == DataOpen(n))
    && (f.fate.Finished? ==> |f.lines| + Held(s, n) <= f.fate.upTo + 1)
  }

  ghost predicate WriterShape(w: WriterId, wr: Writer) {
    && |wr.place| == |wr.written|
    && (forall k | 0 <= k < |wr.written| :: wr.written[k].writer == w && wr.written[k].serial == k)
    && (wr.pc.Busy() ==> wr.pc.line.writer == w && wr.pc.line.serial == |wr.written|)
    && (wr.pc.Opening? ==> wr.last.Some? && wr.num < MAX_QUEUE_FILE_LINES)
    && (wr.pc.Creating? ==> wr.last.Some? && wr.num == 0)
    && (wr.pc.Appending? ==> wr.last.Some? && wr.num < MAX_QUEUE_FILE_LINES)
  }

  /** Serial k of writer w is in the file where its writer put it. */
  ghost predicate Located(s: State, w: WriterId, k: nat)
    requires w in s.writers && k < |s.writers[w].place|
  {
    var n := s.writers[w].place[k];
    && n in s.files && s.files[n].owner == w
    && s.files[n].base <= k < s.files[n].base + |s.files[n].lines|
  }

  /** The writer's last path, once created, is its newest file and holds its newest lines. */
  ghost predicate LastPath(s: State, w: WriterId, n: Name)
    requires w in s.writers
  {
    && n in s.used
    && (n in s.files ==>
          && s.files[n].owner == w
          && s.writers[w].num == |s.files[n].lines|
          && s.files[n].base + |s.files[n].lines| == |s.writers[w].written|
          && forall m | m in s.files && s.files[m].owner == w :: m <= n)
    && (s.writers[w].pc.Creating? ==> n !in s.files && forall m | m in s.files && s.files[m].owner == w :: m < n)
    && (s.writers[w].pc.Appending? ==> n in s.files)
  }

  ghost predicate WriterOk(s: State, w: WriterId)
    requires w in s.writers
  {
    var wr := s.writers[w];
    && WriterShape(w, wr)
    && (wr.last.Some? ==> LastPath(s, w, wr.last.value))
    && (forall k | 0 <= k < |wr.place| :: Located(s, w, k))
  }

  ghost predicate DistinctPaths(s: State) {
    forall v, w | v in s.writers && w in s.writers && v != w && s.writers[v].last.Some? ::
      s.writers[v].last != s.writers[w].last
  }

  /** Files of one writer follow each other in name order as in append order. */
  ghost predicate Sequential(s: State) {
    forall m, n | m in s.files && n in s.files && s.files[m].owner == s.files[n].owner && m < n ::
      s.files[m].base + |s.files[m].lines| <= s.files[n].base
  }

  ghost predicate OneTracker(s: State) {
    forall m, n | m in s.files && n in s.files && s.files[m].tracker.Some? && s.files[n].tracker.Some? :: m == n
  }

  /** The reader's loop has been given file n. */
  ghost predicate Holds(r: ReaderPc, n: Name) {
    !r.Choosing? && !r.Renaming? && r.n == n
  }

  ghost predicate HasIndex(r: ReaderPc) {
    r.AtLine? || r.Yielded? || r.AtEof? || r.YieldedLast? || r.Drained?
  }

  /** The reader's position agrees with the tracker, or with what was consumed once its tracker is safe. */
  ghost predicate IndexOk(r: ReaderPc, f: File)
    requires HasIndex(r)
  {
    && r.i <= f.acked
    && (f.tracker.Some? ==> f.tracker.value == r.i)
    && (!f.trackerSwept ==> f.tracker.Some?)
    && (!f.rewound ==> r.i == f.acked)
    && (AtYield(r) ==> r.i < f.seen)
    && ((r.AtEof? || r.Drained?) && !f.rewound ==> r.i == f.seen)
  }

  ghost function Held(s: State, n: Name): nat { if HeldOpen(s, n) then 1 else 0 }

  /** What the reader's loop knows about the file it was given. */
  ghost predicate HeldOk(r: ReaderPc, f: File, held: nat) {
    && f.dir != Writing && !f.fate.Stranded?
    && (f.fate.Finished? ==> r.Chosen? || r.DataGone?)
    && ((r.Chosen? || r.DataOpen?) && !f.trackerSwept && !f.fate.Finished? && f.tracker.None? ==> f.seen == 0)
    && (r.TrackerOpen? && !f.trackerSwept ==> f.tracker.Some?)
    && (((r.Chosen? && f.dir == Reading) || r.DataOpen? || r.TrackerOpen?) && f.tracker.None? && !f.rewound ==>
          f.acked == 0)
    && (HasIndex(r) ==> IndexOk(r, f))
    && (r.AtEof? || r.YieldedLast? || r.Drained? ==> |f.lines| + held <= r.i + 1)
    && (r.DataGone? ==> f.dir == Unlinked)
  }

  ghost predicate ReaderOk(s: State) {
    && (s.reader.Renaming? ==> s.reader.n in s.files && s.files[s.reader.n].dir != Reading && NoTracker(s))
    && (!s.reader.Choosing? && !s.reader.Renaming? ==>
          && s.reader.n in s.files
          && HeldOk(s.reader, s.files[s.reader.n], Held(s, s.reader.n))
          && forall m | m in s.files && s.files[m].tracker.Some? :: m == s.reader.n)
  }

  ghost predicate Inv(s: State) {
    && (forall n | n in s.files :: FileOk(s, n))
    && (forall w | w in s.writers :: WriterOk(s, w))
    && DistinctPaths(s)
    && Sequential(s)
    && OneTracker(s)
    && ReaderOk(s)
  }

  lemma InvInit(ids: set<WriterId>)
    ensures Inv(Init(ids))
  {
  }

  /** The same writers, and the same contents in the same files. */
  ghost predicate SameContents(s: State, s': State) {
    && s'.writers == s.writers && s'.used == s.used && s'.files.Keys == s.files.Keys
    && forall n | n in s.files ::
         && s'.files[n].lines == s.files[n].lines && s'.files[n].owner == s.files[n].owner
         && s'.files[n].base == s.files[n].base
  }

  lemma WritersUnaffected(s: State, s': State)
    requires Inv(s) && SameContents(s, s')
    ensures forall w | w in s'.writers :: WriterOk(s', w)
    ensures DistinctPaths(s') && Sequential(s')
    ensures forall n :: HeldOpen(s', n) == HeldOpen(s, n)
  {
    forall w | w in s'.writers
      ensures WriterOk(s', w)
    {
      assert WriterOk(s, w);
      forall k | 0 <= k < |s.writers[w].place|
        ensures Located(s', w, k)
      {
        assert Located(s, w, k);
      }
    }
  }

  /** A step of the reader or of the sweep that touches only file n. */
  ghost predicate Touches(s: State, s': State, n: Name) {
    && SameContents(s, s')
    && n in s.files
    && forall m | m in s.files && m != n :: s'.files[m] == s.files[m]
  }

  lemma UntouchedFileOk(s: State, s': State, n: Name, m: Name)
    requires Touches(s, s', n) && m in s.files && m != n && FileOk(s, m)
    requires s'.reader == s.reader || s.reader.Choosing? || s.reader.Renaming? || s.reader.n == n
    ensures FileOk(s', m)
  {
  }

  lemma OneFileTouched(s: State, s': State, n: Name)
    requires Inv(s) && Touches(s, s', n)
    requires FileOk(s', n)
    requires s'.reader == s.reader || s.reader.Choosing? || s.reader.Renaming? || s.reader.n == n
    requires OneTracker(s') && ReaderOk(s')
    ensures Inv(s')
  {
    WritersUnaffected(s, s');
    forall m | m in s'.files && m != n
      ensures FileOk(s', m)
    {
      UntouchedFileOk(s, s', n, m);
    }
  }

  // ---- steps of a writer ----

  /** Writer w is now wr; no file changed, and w holds no file open outside the writing directory. */
  ghost predicate OnlyWriter(s: State, s': State, w: WriterId, wr: Writer) {
    && w in s.writers
    && s' == s.(writers := s.writers[w := wr], used := s'.used) && s.used <= s'.used
    && wr.written == s.writers[w].written && wr.place == s.writers[w].place
    && (wr.last == s.writers[w].last || wr.last.None? || wr.last.value !in s.used)
    && (wr.pc.Appending? ==> wr.last.Some? && InDir(s, wr.last.value, Writing))
  }

  lemma OtherWritersKept(s: State, s': State, w: WriterId, wr: Writer)
    requires Inv(s) && OnlyWriter(s, s', w, wr)
    requires WriterShape(w, wr) && (wr.last.Some? ==> LastPath(s', w, wr.last.value))
    ensures forall v | v in s'.writers :: WriterOk(s', v)
    ensures DistinctPaths(s')
  {
    forall v | v in s'.writers
      ensures WriterOk(s', v)
    {
      assert WriterOk(s, v);
      forall k | 0 <= k < |s.writers[v].place|
        ensures Located(s', v, k)
      {
        assert Located(s, v, k);
      }
    }
    forall v | v in s.writers && s.writers[v].last.Some?
      ensures s.writers[v].last.value in s.used
    {
      assert WriterOk(s, v);
    }
  }

  lemma WriterOnly(s: State, s': State, w: WriterId, wr: Writer)
    requires Inv(s) && OnlyWriter(s, s', w, wr)
    requires WriterShape(w, wr) && (wr.last.Some? ==> LastPath(s', w, wr.last.value))
    ensures Inv(s')
  {
    OtherWritersKept(s, s', w, wr);
    FilesKept(s, s', w, wr);
    assert Sequential(s') && OneTracker(s');
  }

  lemma FilesKept(s: State, s': State, w: WriterId, wr: Writer)
    requires (forall n | n in s.files :: FileOk(s, n)) && ReaderOk(s) && OnlyWriter(s, s', w, wr)
    ensures forall n | n in s'.files :: FileOk(s', n)
    ensures ReaderOk(s')
  {
    forall n | n in s'.files
      ensures FileOk(s', n)
    {
      assert FileOk(s, n);
    }
  }

  lemma InvStart(s: State, w: WriterId, line: Line)
    requires Inv(s) && Enabled(s, Start(w, line))
    ensures Inv(DoStart(s, w, line))
  {
    assert WriterOk(s, w);
    WriterOnly(s, DoStart(s, w, line), w, DoStart(s, w, line).writers[w]);
  }

  lemma InvGenerate(s: State, w: WriterId, n: Name)
    requires Inv(s) && Enabled(s, Generate(w, n))
    ensures Inv(DoGenerate(s, w, n))
  {
    assert WriterOk(s, w);
    assert n in s.files ==> FileOk(s, n);
    WriterOnly(s, DoGenerate(s, w, n), w, DoGenerate(s, w, n).writers[w]);
  }

  lemma InvOpenExisting(s: State, w: WriterId)
    requires Inv(s) && Enabled(s, OpenExisting(w))
    ensures Inv(DoOpenExisting(s, w))
  {
    assert WriterOk(s, w);
    WriterOnly(s, DoOpenExisting(s, w), w, DoOpenExisting(s, w).writers[w]);
  }

  lemma InvFail(s: State, w: WriterId)
    requires Inv(s) && w in s.writers
    ensures Inv(DoFail(s, w)) && Inv(DoWriterCrash(s, w))
  {
    assert WriterOk(s, w);
    WriterOnly(s, DoFail(s, w), w, DoFail(s, w).writers[w]);
    WriterOnly(s, DoWriterCrash(s, w), w, DoWriterCrash(s, w).writers[w]);
  }

  /** O_CREAT never meets an existing name: the path that a writer creates has no file yet. */
  lemma CreateIsFresh(s: State, w: WriterId)
    requires Inv(s) && Enabled(s, Create(w))
    ensures s.writers[w].last.value !in s.files
  {
    assert WriterOk(s, w);
  }

  /** Only files of writer w changed: its last path n was created, or got a line. */
  ghost predicate OnlyLastFile(s: State, s': State, w: WriterId, n: Name) {
    && w in s.writers && s.writers[w].last == Some(n)
    && s'.writers.Keys == s.writers.Keys && (forall v | v in s.writers && v != w :: s'.writers[v] == s.writers[v])
    && s'.files.Keys == s.files.Keys + {n} && (forall m | m in s.files && m != n :: s'.files[m] == s.files[m])
    && s'.files[n].owner == w && (n in s.files ==> s.files[n].owner == w)
    && s'.used == s.used && s'.reader == s.reader && s'.writers[w].last == Some(n)
  }

  lemma OthersKept(s: State, s': State, w: WriterId, n: Name)
    requires (forall v | v in s.writers :: WriterOk(s, v)) && DistinctPaths(s) && OnlyLastFile(s, s', w, n)
    ensures forall v | v in s'.writers && v != w :: WriterOk(s', v)
    ensures DistinctPaths(s')
  {
    forall v | v in s'.writers && v != w
      ensures WriterOk(s', v)
    {
      assert WriterOk(s, v);
      forall k | 0 <= k < |s.writers[v].place|
        ensures Located(s', v, k)
      {
        assert Located(s, v, k);
      }
    }
  }

  lemma OtherFilesKept(s: State, s': State, w: WriterId, n: Name)
    requires Inv(s) && OnlyLastFile(s, s', w, n)
    requires s.writers[w].written <= s'.writers[w].written
    ensures forall m | m in s'.files && m != n :: FileOk(s', m)
  {
    forall m | m in s'.files && m != n
      ensures FileOk(s', m)
    {
      assert FileOk(s, m);
      OtherFileKept(s, s', w, n, m);
    }
  }

  lemma OtherFileKept(s: State, s': State, w: WriterId, n: Name, m: Name)
    requires OnlyLastFile(s, s', w, n) && s.writers[w].written <= s'.writers[w].written
    requires m in s.files && m != n && FileOk(s, m)
    ensures FileOk(s', m)
  {
  }

  lemma InvCreate(s: State, w: WriterId)
    requires Inv(s) && Enabled(s, Create(w))
    ensures Inv(DoCreate(s, w))
  {
    var s' := DoCreate(s, w);
    var n := s.writers[w].last.value;
    assert WriterOk(s, w);
    OthersKept(s, s', w, n);
    OtherFilesKept(s, s', w, n);
    CreatedFileOk(s, w);
    CreatedLast(s, w);
  }

  lemma CreatedFileOk(s: State, w: WriterId)
    requires Enabled(s, Create(w)) && WriterOk(s, w) && ReaderOk(s) && OneTracker(s)
    ensures FileOk(DoCreate(s, w), s.writers[w].last.value)
    ensures ReaderOk(DoCreate(s, w)) && OneTracker(DoCreate(s, w))
  {
  }

  lemma CreatedLast(s: State, w: WriterId)
    requires Enabled(s, Create(w)) && WriterOk(s, w) && Sequential(s)
    requires forall m | m in s.files :: FileOk(s, m)
    ensures WriterOk(DoCreate(s, w), w) && Sequential(DoCreate(s, w))
  {
    var s' := DoCreate(s, w);
    forall k | 0 <= k < |s.writers[w].place|
      ensures Located(s', w, k)
    {
      assert Located(s, w, k);
    }
    forall m | m in s.files
      ensures s.files[m].owner in s.writers
              && s.files[m].base + |s.files[m].lines| <= |s.writers[s.files[m].owner].written|
    {
      assert FileOk(s, m);
    }
  }

  lemma InvAppend(s: State, w: WriterId)
    requires Inv(s) && Enabled(s, Append(w))
    ensures Inv(DoAppend(s, w))
  {
    var s' := DoAppend(s, w);
    var n := s.writers[w].last.value;
    assert WriterOk(s, w) && FileOk(s, n);
    OthersKept(s, s', w, n);
    OtherFilesKept(s, s', w, n);
    AppendedFileOk(s, w);
    AppendedLast(s, w);
  }

  lemma AppendedFileOk(s: State, w: WriterId)
    requires Enabled(s, Append(w)) && WriterOk(s, w) && ReaderOk(s) && OneTracker(s)
    requires FileOk(s, s.writers[w].last.value)
    ensures FileOk(DoAppend(s, w), s.writers[w].last.value)
    ensures ReaderOk(DoAppend(s, w)) && OneTracker(DoAppend(s, w))
  {
  }

  lemma AppendedLast(s: State, w: WriterId)
    requires Enabled(s, Append(w)) && WriterOk(s, w) && Sequential(s)
    ensures WriterOk(DoAppend(s, w), w) && Sequential(DoAppend(s, w))
  {
    var s' := DoAppend(s, w);
    forall k | 0 <= k < |s'.writers[w].place|
      ensures Located(s', w, k)
    {
      if k < |s.writers[w].place| {
        assert Located(s, w, k);
      }
    }
  }

  // ---- steps of the reader and of the sweep ----

  /** Everything about a step of the reader on the file it holds that can be told from that file. */
  ghost predicate LocalOk(s: State, s': State, n: Name) {
    && Touches(s, s', n) && FileOk(s', n) && ReaderOk(s') && OneTracker(s')
  }

  ghost predicate LocalPre(s: State) {
    && !s.reader.Choosing? && s.reader.n in s.files && FileOk(s, s.reader.n) && ReaderOk(s) && OneTracker(s)
  }

  lemma LocalRename(s: State)
    requires LocalPre(s) && s.reader.Renaming?
    ensures LocalOk(s, DoRename(s), s.reader.n)
  {
  }

  lemma LocalCheckData(s: State)
    requires LocalPre(s) && s.reader.Chosen?
    ensures LocalOk(s, DoCheckData(s), s.reader.n)
  {
  }

  lemma LocalOpenTracker(s: State)
    requires LocalPre(s) && s.reader.DataOpen?
    ensures LocalOk(s, DoOpenTracker(s), s.reader.n)
  {
  }

  lemma LocalReadSkip(s: State)
    requires LocalPre(s) && s.reader.TrackerOpen?
    ensures LocalOk(s, DoReadSkip(s), s.reader.n)
  {
  }

  lemma YieldLocal(s: State, pc: ReaderPc)
    requires LocalPre(s) && HasIndex(s.reader) && s.reader.i < |s.files[s.reader.n].lines|
    requires pc == Yielded(s.reader.n, s.reader.i)
             || (pc == YieldedLast(s.reader.n, s.reader.i) && s.reader.AtEof?)
    ensures LocalOk(s, Yield(s, s.reader.n, s.reader.i, pc), s.reader.n)
  {
    var n := s.reader.n;
    assert FileShape(Yield(s, n, s.reader.i, pc).files[n]);
  }

  lemma LocalReadLine(s: State)
    requires LocalPre(s) && s.reader.AtLine?
    ensures LocalOk(s, DoReadLine(s), s.reader.n)
  {
    if s.reader.i < |s.files[s.reader.n].lines| {
      YieldLocal(s, Yielded(s.reader.n, s.reader.i));
    }
  }

  lemma LocalAck(s: State)
    requires LocalPre(s) && AtYield(s.reader) && HeldLine(s)
    ensures LocalOk(s, DoAck(s), s.reader.n)
  {
  }

  lemma LocalLastLine(s: State)
    requires LocalPre(s) && s.reader.AtEof?
    ensures LocalOk(s, DoLastLine(s), s.reader.n)
  {
    if s.reader.i < |s.files[s.reader.n].lines| {
      YieldLocal(s, YieldedLast(s.reader.n, s.reader.i));
    }
  }

  lemma LocalUnlinkData(s: State)
    requires LocalPre(s) && s.reader.Drained?
    ensures LocalOk(s, DoUnlinkData(s), s.reader.n)
  {
  }

  lemma LocalUnlinkTracker(s: State)
    requires LocalPre(s) && s.reader.DataGone?
    ensures LocalOk(s, DoUnlinkTracker(s), s.reader.n)
  {
  }

  lemma InvHeld(s: State, st: Step)
    requires Inv(s) && Enabled(s, st)
    requires st.Rename? || st.CheckData? || st.OpenTracker? || st.ReadSkip? || st.ReadLine? || st.Ack? || st.LastLine?
             || st.UnlinkData? || st.UnlinkTracker?
    ensures Inv(Do(s, st))
  {
    assert LocalPre(s);
    match st {
      case Rename => LocalRename(s);
      case CheckData => LocalCheckData(s);
      case OpenTracker => LocalOpenTracker(s);
      case ReadSkip => LocalReadSkip(s);
      case ReadLine => LocalReadLine(s);
      case Ack => LocalAck(s);
      case LastLine => LocalLastLine(s);
      case UnlinkData => LocalUnlinkData(s);
      case UnlinkTracker => LocalUnlinkTracker(s);
    }
    OneFileTouched(s, Do(s, st), s.reader.n);
  }

  lemma InvChoose(s: State, n: Name, pc: ReaderPc)
    requires Inv(s) && s.reader.Choosing? && n in s.files
    requires (pc == Chosen(n) && Tracked(s, n)) || (pc == Renaming(n) && NoTracker(s) && Oldest(s, n))
    ensures Inv(s.(reader := pc))
  {
    assert FileOk(s, n);
    OneFileTouched(s, s.(reader := pc), n);
  }

  lemma CrashLocal(s: State)
    requires LocalPre(s)
    ensures LocalOk(s, DoCrash(s), s.reader.n)
  {
  }

  lemma InvCrash(s: State)
    requires Inv(s)
    ensures Inv(DoCrash(s))
  {
    if s.reader.Choosing? {
      WritersUnaffected(s, DoCrash(s));
      forall m | m in s.files
        ensures FileOk(DoCrash(s), m)
      {
        assert FileOk(s, m);
      }
    } else {
      CrashLocal(s);
      OneFileTouched(s, DoCrash(s), s.reader.n);
    }
  }

  ghost predicate SweepPre(s: State, n: Name) {
    n in s.files && FileOk(s, n) && ReaderOk(s) && OneTracker(s)
  }

  lemma SweepDataLocal(s: State, n: Name)
    requires SweepPre(s, n)
    ensures LocalOk(s, DoSweepData(s, n), n)
  {
  }

  lemma SweepTrackerLocal(s: State, n: Name)
    requires SweepPre(s, n) && Tracked(s, n)
    ensures LocalOk(s, DoSweepTracker(s, n), n)
  {
  }

  lemma InvSweep(s: State, st: Step)
    requires Inv(s) && Enabled(s, st) && (st.SweepData? || st.SweepTracker?)
    ensures Inv(Do(s, st))
  {
    assert SweepPre(s, st.n);
    if st.SweepData? {
      SweepDataLocal(s, st.n);
    } else {
      SweepTrackerLocal(s, st.n);
    }
    OneFileTouched(s, Do(s, st), st.n);
  }

  // ---- every step, every run ----

  lemma InvStep(s: State, st: Step)
    requires Inv(s) && Enabled(s, st)
    ensures Inv(Do(s, st))
  {
    match st {
      case Start(w, line) => InvStart(s, w, line);
      case Generate(w, n) => InvGenerate(s, w, n);
      case OpenExisting(w) => InvOpenExisting(s, w);
      case Create(w) => InvCreate(s, w);
      case Append(w) => InvAppend(s, w);
      case Fail(w) => InvFail(s, w);
      case WriterCrash(w) => InvFail(s, w);
      case ChooseTracked(n) => InvChoose(s, n, Chosen(n));
      case ChooseOldest(n) => InvChoose(s, n, Renaming(n));
      case Crash => InvCrash(s);
      case SweepData(n) => InvSweep(s, st);
      case SweepTracker(n) => InvSweep(s, st);
      case _ => InvHeld(s, st);
    }
  }

  lemma {:induction false} InvRun(s: State, steps: seq<Step>)
    requires Inv(s) && Valid(s, steps)
    ensures Inv(Run(s, steps))
    decreases |steps|
  {
    if steps != [] {
      InvStep(s, steps[0]);
      InvRun(Do(s, steps[0]), steps[1..]);
    }
  }

  /**
   * In every run, whatever crashes and is swept: there is at most one tracking file, so the reader's choice
   * among tracking files is determined; no file is longer than the limit; and a path opened with O_CREAT
   * has never existed before, so no name is created twice.
   */
  lemma FilesOfEveryRun(ids: set<WriterId>, steps: seq<Step>)
    requires Valid(Init(ids), steps)
    ensures var s := Run(Init(ids), steps);
            && (forall m, n | m in s.files && n in s.files && s.files[m].tracker.Some? && s.files[n].tracker.Some? :: m == n)
            && (forall n | n in s.files :: |s.files[n].lines| <= MAX_QUEUE_FILE_LINES)
            && (forall w | Enabled(s, Create(w)) :: s.writers[w].last.value !in s.files)
  {
    InvInit(ids);
    InvRun(Init(ids), steps);
    var s := Run(Init(ids), steps);
    forall n | n in s.files
      ensures |s.files[n].lines| <= MAX_QUEUE_FILE_LINES
    {
      assert FileOk(s, n);
    }
    forall w | Enabled(s, Create(w))
      ensures s.writers[w].last.value !in s.files
    {
      CreateIsFresh(s, w);
    }
  }
}
