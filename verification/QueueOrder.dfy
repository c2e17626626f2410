// The order in which the lines of a writer are delivered, and how often they repeat.

module QueueOrder {
  import opened QueueTypes
  import opened QueueFiles
  import opened QueueInvariant
  import opened QueueHistory
  import opened QueueCalm

  /** The lines of writer w, in the order they were handed over. */
  function Of(ls: seq<Line>, w: WriterId): seq<Line>
    decreases |ls|
  {
    if ls == [] then []
    else
      var front, last := Of(ls[..|ls| - 1], w), ls[|ls| - 1];
      if last.writer == w then front + [last] else front
  }

  /** A sequence with its adjacent repeats removed. */
  function Dedup(ls: seq<Line>): seq<Line>
    decreases |ls|
  {
    if |ls| <= 1 then ls
    else
      var front, last := ls[..|ls| - 1], ls[|ls| - 1];
      if front[|front| - 1] == last then Dedup(front) else Dedup(front) + [last]
  }

  /** Serials strictly increase. */
  predicate Rising(ls: seq<Line>) {
    forall i, j | 0 <= i < j < |ls| :: ls[i].serial < ls[j].serial
  }

  /** The serial after the last line. */
  function Next(ls: seq<Line>): nat {
    if ls == [] then 0 else ls[|ls| - 1].serial + 1
  }

  lemma OfAppend(ls: seq<Line>, l: Line, w: WriterId)
    ensures Of(ls + [l], w) == if l.writer == w then Of(ls, w) + [l] else Of(ls, w)
  {
    assert (ls + [l])[..|ls|] == ls;
  }

  lemma {:induction false} OfMembers(ls: seq<Line>, w: WriterId)
    ensures forall l | l in Of(ls, w) :: l in ls && l.writer == w
    decreases |ls|
  {
    if ls != [] {
      OfMembers(ls[..|ls| - 1], w);
    }
  }

  lemma {:induction false} DedupLast(ls: seq<Line>)
    ensures |Dedup(ls)| <= |ls| && (Dedup(ls) == [] <==> ls == [])
    ensures ls != [] ==> Dedup(ls)[|Dedup(ls)| - 1] == ls[|ls| - 1]
    decreases |ls|
  {
    if |ls| > 1 {
      DedupLast(ls[..|ls| - 1]);
    }
  }

  lemma DedupAppend(ls: seq<Line>, l: Line)
    ensures Dedup(ls + [l]) == if ls != [] && ls[|ls| - 1] == l then Dedup(ls) else Dedup(ls) + [l]
  {
    assert (ls + [l])[..|ls|] == ls;
  }

  /** What the consumer saw of writer w, repeats removed. */
  function Seen(s: State, w: WriterId): seq<Line> { Dedup(Of(s.handed, w)) }

  /** The reader has the file, or will come back to it. */
  ghost predicate Active(s: State, n: Name) {
    n in s.files && !s.files[n].fate.Finished? && (s.files[n].tracker.Some? || Holds(s.reader, n))
  }

  /** File f against the position reached in its owner's lines. */
  ghost predicate FilePosition(f: File, active: bool, next: nat) {
    && !f.rewound
    && (f.seen > 0 ==> f.base + f.seen <= next)
    && (f.dir == Writing ==> next <= f.base)
    && (active ==> if f.seen == 0 then next <= f.base else next == f.base + f.seen)
  }

  /** Every file against the positions reached. */
  ghost predicate Positions(s: State, next: WriterId -> nat) {
    && (forall n | n in s.files :: FilePosition(s.files[n], Active(s, n), next(s.files[n].owner)))
    && InTurn(s)
  }

  /** No file waits that should come before the reader's. */
  ghost predicate InTurn(s: State) {
    forall n, m | n in s.files && m in s.files && s.files[m].owner == s.files[n].owner
                  && s.files[m].dir == Writing && (Active(s, n) || s.reader == Renaming(n)) :: n <= m
  }

  ghost function Reached(s: State): WriterId -> nat {
    w => Next(Seen(s, w))
  }

  ghost predicate OrderOk(s: State) {
    && Positions(s, Reached(s))
    && (forall w | w in s.writers :: Rising(Seen(s, w)))
  }

  lemma NextInRange(s: State, w: WriterId)
    requires HistoryOk(s) && w in s.writers
    ensures Next(Seen(s, w)) <= |s.writers[w].written|
  {
    DedupLast(Of(s.handed, w));
    OfMembers(s.handed, w);
    if Seen(s, w) != [] {
      assert Appended(s, Seen(s, w)[|Seen(s, w)| - 1]);
    }
  }

  /** A step that hands nothing over. */
  lemma OrderQuiet(s: State, s': State)
    requires OrderOk(s) && s'.handed == s.handed && s'.writers.Keys == s.writers.Keys && Positions(s', Reached(s))
    ensures OrderOk(s')
  {
    assert forall w :: Reached(s')(w) == Reached(s)(w);
  }

  /** No file moved back, none was read further, and none came up for reading. */
  ghost predicate Settled(s: State, s': State) {
    && s'.files.Keys == s.files.Keys
    && forall n | n in s.files ::
         && s'.files[n].owner == s.files[n].owner && s'.files[n].base == s.files[n].base
         && s'.files[n].seen == s.files[n].seen && s'.files[n].rewound == s.files[n].rewound
         && (s'.files[n].dir == Writing ==> s.files[n].dir == Writing)
         && (Active(s', n) ==> Active(s, n))
         && (s'.reader == Renaming(n) ==> s.reader == Renaming(n))
  }

  lemma SettledPositions(s: State, s': State, next: WriterId -> nat)
    requires Positions(s, next) && Settled(s, s')
    ensures Positions(s', next)
  {
  }

  lemma SettledByWriter(s: State, st: Step)
    requires Enabled(s, st)
    requires st.Start? || st.Generate? || st.OpenExisting? || st.Fail? || st.WriterCrash? || st.Append?
    ensures Settled(s, Do(s, st))
  {
  }

  lemma SettledByReader(s: State, st: Step)
    requires Enabled(s, st) && ReaderOk(s)
    requires st.ChooseTracked? || st.CheckData? || st.OpenTracker? || st.ReadSkip?
    ensures Settled(s, Do(s, st))
  {
  }

  lemma SettledByCrash(s: State)
    ensures Settled(s, DoCrash(s))
  {
  }

  lemma SettledByAck(s: State)
    requires Enabled(s, Ack)
    ensures Settled(s, DoAck(s))
  {
  }

  lemma SettledByUnlink(s: State, st: Step)
    requires Enabled(s, st) && (st.UnlinkData? || st.UnlinkTracker?)
    ensures Settled(s, Do(s, st))
  {
  }

  lemma SettledBySweep(s: State, st: Step)
    requires Enabled(s, st) && (st.SweepData? || st.SweepTracker?) && !Rewinds(s, st)
    ensures Settled(s, Do(s, st))
  {
  }

  lemma SettledByEof(s: State, st: Step)
    requires Enabled(s, st) && (st.ReadLine? || st.LastLine?) && s.reader.i >= |s.files[s.reader.n].lines|
    ensures Settled(s, Do(s, st))
  {
  }

  lemma PositionsByCreate(s: State, w: WriterId, next: WriterId -> nat)
    requires Positions(s, next) && Enabled(s, Create(w)) && s.writers[w].last.value !in s.files
    requires next(w) <= |s.writers[w].written| && ReaderOk(s)
    requires forall m | m in s.files && s.files[m].owner == w :: m < s.writers[w].last.value
    ensures Positions(DoCreate(s, w), next)
  {
  }

  lemma PositionsByMove(s: State, st: Step, next: WriterId -> nat)
    requires Positions(s, next) && Enabled(s, st) && ReaderOk(s) && (st.ChooseOldest? || st.Rename?)
    requires st.Rename? ==> FileShape(s.files[s.reader.n])
    ensures Positions(Do(s, st), next)
  {
  }

  lemma OrderStepQuiet(s: State, st: Step)
    requires Inv(s) && HistoryOk(s) && OrderOk(s) && Enabled(s, st) && !Rewinds(s, st) && !Yields(s, st)
    ensures OrderOk(Do(s, st))
  {
    if st.Create? {
      CreateIsFresh(s, st.w);
      NextInRange(s, st.w);
      assert WriterOk(s, st.w);
      PositionsByCreate(s, st.w, Reached(s));
    } else if st.ChooseOldest? || st.Rename? {
      assert st.Rename? ==> FileOk(s, s.reader.n);
      PositionsByMove(s, st, Reached(s));
    } else {
      if st.Start? || st.Generate? || st.OpenExisting? || st.Fail? || st.WriterCrash? || st.Append? {
        SettledByWriter(s, st);
      } else if st.ReadLine? || st.LastLine? {
        SettledByEof(s, st);
      } else if st.Ack? {
        SettledByAck(s);
      } else if st.UnlinkData? || st.UnlinkTracker? {
        SettledByUnlink(s, st);
      } else if st.SweepData? || st.SweepTracker? {
        SettledBySweep(s, st);
      } else if st.Crash? {
        SettledByCrash(s);
      } else {
        SettledByReader(s, st);
      }
      SettledPositions(s, Do(s, st), Reached(s));
    }
    KeepsRecord(s, st);
    OrderQuiet(s, Do(s, st));
  }

  /** The step hands a line to the consumer. */
  ghost predicate Yields(s: State, st: Step)
    requires Enabled(s, st)
  {
    (st.ReadLine? || st.LastLine?) && s.reader.i < |s.files[s.reader.n].lines|
  }

  lemma KeepsRecord(s: State, st: Step)
    requires Enabled(s, st) && !Yields(s, st)
    ensures Do(s, st).handed == s.handed && Do(s, st).writers.Keys == s.writers.Keys
  {
  }

  // ---- handing a line over ----

  /** Line i of a file that the reader holds, against the last line of its writer that was handed over. */
  lemma NewOrRepeatIn(f: File, r: ReaderPc, wr: Writer, ls: seq<Line>)
    requires FileShape(f) && FileWritten(f, wr) && WriterShape(f.owner, wr) && FilePosition(f, true, Next(ls))
    requires HasIndex(r) && IndexOk(r, f) && r.i < |f.lines|
    requires ls != [] ==> (var last := ls[|ls| - 1]; last.serial < |wr.written| && wr.written[last.serial] == last)
    ensures f.lines[r.i].writer == f.owner && f.lines[r.i].serial == f.base + r.i
    ensures r.i == f.seen ==> Next(ls) <= f.lines[r.i].serial
    ensures r.i < f.seen ==> ls != [] && ls[|ls| - 1] == f.lines[r.i] && f.seen == r.i + 1
  {
  }

  /** The line in hand is either the next new one of its writer or the one handed over last. */
  lemma NewOrRepeat(s: State, n: Name, i: nat)
    requires Inv(s) && HistoryOk(s) && OrderOk(s) && HasIndex(s.reader) && !AtYield(s.reader)
    requires s.reader.n == n && s.reader.i == i && i < |s.files[n].lines|
    ensures var f, l := s.files[n], s.files[n].lines[i];
            var ls := Of(s.handed, f.owner);
            && l.writer == f.owner && l.serial == f.base + i
            && (i == f.seen ==> Next(ls) <= l.serial)
            && (i < f.seen ==> ls != [] && ls[|ls| - 1] == l && Next(ls) == l.serial + 1 && f.seen == i + 1)
  {
    var f := s.files[n];
    assert FileOk(s, n) && WriterOk(s, f.owner);
    LastAppended(s, f.owner);
    PositionInHand(s, n);
    NewOrRepeatIn(f, s.reader, s.writers[f.owner], Of(s.handed, f.owner));
  }

  lemma LastAppended(s: State, w: WriterId)
    requires HistoryOk(s) && w in s.writers
    ensures Of(s.handed, w) != [] ==>
              var last := Of(s.handed, w)[|Of(s.handed, w)| - 1];
              last.serial < |s.writers[w].written| && s.writers[w].written[last.serial] == last
  {
    OfMembers(s.handed, w);
    if Of(s.handed, w) != [] {
      assert Appended(s, Of(s.handed, w)[|Of(s.handed, w)| - 1]);
    }
  }

  lemma PositionInHand(s: State, n: Name)
    requires ReaderOk(s) && OrderOk(s) && HasIndex(s.reader) && s.reader.n == n
    ensures FilePosition(s.files[n], true, Next(Of(s.handed, s.files[n].owner)))
  {
    assert FilePosition(s.files[n], Active(s, n), Reached(s)(s.files[n].owner));
    DedupLast(Of(s.handed, s.files[n].owner));
  }

  lemma SeenAfter(s: State, l: Line, w: WriterId, handed: seq<Line>)
    requires handed == s.handed + [l]
    ensures l.writer != w ==> Of(handed, w) == Of(s.handed, w)
    ensures l.writer == w && Next(Of(s.handed, w)) <= l.serial ==> Dedup(Of(handed, w)) == Seen(s, w) + [l]
    ensures l.writer == w && Of(s.handed, w) != [] && Of(s.handed, w)[|Of(s.handed, w)| - 1] == l ==>
              Dedup(Of(handed, w)) == Seen(s, w)
  {
    OfAppend(s.handed, l, w);
    DedupAppend(Of(s.handed, w), l);
  }

  lemma RisingAppend(ls: seq<Line>, l: Line)
    requires Rising(ls) && Next(ls) <= l.serial
    ensures Rising(ls + [l])
  {
  }

  /** Handing over a line that is new, or the one handed over last again. */
  lemma SeenLine(s: State, l: Line, again: bool, handed: seq<Line>, w: WriterId)
    requires handed == s.handed + [l] && Rising(Seen(s, w))
    requires l.writer == w && !again ==> Next(Of(s.handed, w)) <= l.serial
    requires l.writer == w && again ==> Of(s.handed, w) != [] && Of(s.handed, w)[|Of(s.handed, w)| - 1] == l
    ensures Rising(Dedup(Of(handed, w)))
    ensures w != l.writer ==> Of(handed, w) == Of(s.handed, w)
    ensures w == l.writer ==> Next(Dedup(Of(handed, w))) == l.serial + 1 >= Next(Seen(s, w))
    ensures w == l.writer && !again ==> Dedup(Of(handed, w)) == Seen(s, w) + [l]
    ensures w == l.writer && again ==> Dedup(Of(handed, w)) == Seen(s, w)
  {
    SeenAfter(s, l, w, handed);
    if w == l.writer {
      DedupLast(Of(s.handed, w));
      AfterLine(Seen(s, w), Dedup(Of(handed, w)), l, again);
    }
  }

  lemma AfterLine(seen: seq<Line>, now: seq<Line>, l: Line, again: bool)
    requires Rising(seen) && (again ==> seen != [] && seen[|seen| - 1] == l && now == seen)
    requires !again ==> Next(seen) <= l.serial && now == seen + [l]
    ensures Rising(now) && Next(now) == l.serial + 1 >= Next(seen)
  {
    if !again {
      RisingAppend(seen, l);
    }
  }

  /** After handing over line l of file n, its writer's position is just past l; the others stand. */
  lemma SeenYield(s: State, n: Name, i: nat, handed: seq<Line>, w: WriterId)
    requires Inv(s) && HistoryOk(s) && OrderOk(s) && HasIndex(s.reader) && !AtYield(s.reader) && w in s.writers
    requires s.reader.n == n && s.reader.i == i && i < |s.files[n].lines|
    requires handed == s.handed + [s.files[n].lines[i]]
    ensures Rising(Dedup(Of(handed, w)))
    ensures w != s.files[n].owner ==> Of(handed, w) == Of(s.handed, w)
    ensures w == s.files[n].owner ==> Next(Dedup(Of(handed, w))) == s.files[n].base + i + 1 >= Next(Seen(s, w))
    ensures s.files[n].seen <= i ==> w == s.files[n].owner ==> Dedup(Of(handed, w)) == Seen(s, w) + [s.files[n].lines[i]]
    ensures i < s.files[n].seen ==> Dedup(Of(handed, w)) == Seen(s, w)
  {
    NewOrRepeat(s, n, i);
    YieldRoom(s, n, i);
    SeenLine(s, s.files[n].lines[i], i < s.files[n].seen, handed, w);
  }

  lemma OrderYield(s: State, n: Name, i: nat, pc: ReaderPc)
    requires Inv(s) && HistoryOk(s) && OrderOk(s) && HasIndex(s.reader) && !AtYield(s.reader)
    requires s.reader.n == n && s.reader.i == i && i < |s.files[n].lines| && !pc.Choosing? && !pc.Renaming? && pc.n == n
    ensures OrderOk(Yield(s, n, i, pc))
  {
    var s' := Yield(s, n, i, pc);
    forall w | w in s.writers
      ensures Rising(Seen(s', w)) && (w != s.files[n].owner ==> Reached(s')(w) == Reached(s)(w))
      ensures w == s.files[n].owner ==> Reached(s')(w) == s.files[n].base + i + 1 >= Reached(s)(w)
    {
      SeenYield(s, n, i, s'.handed, w);
    }
    YieldRoom(s, n, i);
    PositionsYield(s, n, i, pc, Reached(s), Reached(s'));
  }

  /** The owner's files that still wait come after all of file n. */
  lemma YieldRoom(s: State, n: Name, i: nat)
    requires Inv(s) && OrderOk(s) && HasIndex(s.reader) && s.reader.n == n && s.reader.i == i
    ensures s.files[n].owner in s.writers
    ensures i <= s.files[n].seen <= i + 1 && !s.files[n].fate.Finished? && s.files[n].dir != Writing
    ensures forall m | m in s.files ::
              s.files[m].owner in s.writers
              && (s.files[m].owner == s.files[n].owner && s.files[m].dir == Writing ==>
                    s.files[n].base + |s.files[n].lines| <= s.files[m].base)
  {
    assert FileOk(s, n) && FilePosition(s.files[n], Active(s, n), Reached(s)(s.files[n].owner));
    forall m | m in s.files
      ensures s.files[m].owner in s.writers
      ensures s.files[m].owner == s.files[n].owner && s.files[m].dir == Writing ==>
                s.files[n].base + |s.files[n].lines| <= s.files[m].base
    {
      assert FileOk(s, m);
    }
  }

  lemma PositionsYield(s: State, n: Name, i: nat, pc: ReaderPc, next: WriterId -> nat, next': WriterId -> nat)
    requires ReaderOk(s) && Positions(s, next) && HasIndex(s.reader) && s.reader.n == n && s.reader.i == i
    requires i < |s.files[n].lines| && i <= s.files[n].seen <= i + 1 && s.files[n].dir != Writing
    requires !pc.Choosing? && !pc.Renaming? && pc.n == n
    requires next'(s.files[n].owner) == s.files[n].base + i + 1 >= next(s.files[n].owner)
    requires forall w | w in s.writers && w != s.files[n].owner :: next'(w) == next(w)
    requires forall m | m in s.files ::
               s.files[m].owner in s.writers
               && (s.files[m].owner == s.files[n].owner && s.files[m].dir == Writing ==>
                     s.files[n].base + |s.files[n].lines| <= s.files[m].base)
    ensures Positions(Yield(s, n, i, pc), next')
  {
    var s' := Yield(s, n, i, pc);
    forall m | m in s'.files
      ensures FilePosition(s'.files[m], Active(s', m), next'(s'.files[m].owner))
    {
      assert FilePosition(s.files[m], Active(s, m), next(s.files[m].owner));
      PositionYield(s, n, i, pc, m, next(s.files[m].owner), next'(s.files[m].owner));
    }
    TurnYield(s, n, i, pc);
  }

  lemma TurnYield(s: State, n: Name, i: nat, pc: ReaderPc)
    requires InTurn(s) && HasIndex(s.reader) && s.reader.n == n && n in s.files && i < |s.files[n].lines|
    requires !pc.Choosing? && !pc.Renaming? && pc.n == n
    ensures InTurn(Yield(s, n, i, pc))
  {
    assert forall m | m in s.files :: Active(Yield(s, n, i, pc), m) ==> Active(s, m);
  }

  /** One file: the one at hand moves on, the others stand, unless they come later. */
  lemma PositionYield(s: State, n: Name, i: nat, pc: ReaderPc, m: Name, next: nat, next': nat)
    requires ReaderOk(s) && HasIndex(s.reader) && s.reader.n == n && s.reader.i == i && m in s.files
    requires i < |s.files[n].lines| && i <= s.files[n].seen <= i + 1 && s.files[n].dir != Writing
    requires !pc.Choosing? && !pc.Renaming? && pc.n == n
    requires FilePosition(s.files[m], Active(s, m), next)
    requires if s.files[m].owner == s.files[n].owner then next' == s.files[n].base + i + 1 >= next else next' == next
    requires s.files[m].owner == s.files[n].owner && s.files[m].dir == Writing ==>
               s.files[n].base + |s.files[n].lines| <= s.files[m].base
    ensures FilePosition(Yield(s, n, i, pc).files[m], Active(Yield(s, n, i, pc), m), next')
  {
  }

  lemma OrderStep(s: State, st: Step)
    requires Inv(s) && HistoryOk(s) && OrderOk(s) && Enabled(s, st) && !Rewinds(s, st)
    ensures OrderOk(Do(s, st))
  {
    if Yields(s, st) {
      OrderYield(s, s.reader.n, s.reader.i,
                 if st.ReadLine? then Yielded(s.reader.n, s.reader.i) else YieldedLast(s.reader.n, s.reader.i));
    } else {
      OrderStepQuiet(s, st);
    }
  }

  /** Unless a sweep makes the reader start again, a writer's lines reach the consumer in order, apart from repeats. */
  lemma {:induction false} OrderRun(s: State, steps: seq<Step>)
    requires Inv(s) && HistoryOk(s) && OrderOk(s) && Valid(s, steps) && Steady(s, steps)
    ensures Inv(Run(s, steps)) && HistoryOk(Run(s, steps)) && OrderOk(Run(s, steps))
    decreases |steps|
  {
    if steps != [] {
      InvStep(s, steps[0]);
      HistoryStep(s, steps[0]);
      OrderStep(s, steps[0]);
      OrderRun(Do(s, steps[0]), steps[1..]);
    }
  }

  lemma OrderInit(ids: set<WriterId>)
    ensures Inv(Init(ids)) && HistoryOk(Init(ids)) && OrderOk(Init(ids)) && CalmState(Init(ids))
  {
    InvInit(ids);
  }

  /** Whatever is lost on the way: without repeats, what is delivered of a writer is in the order it was written. */
  lemma InOrder(ids: set<WriterId>, steps: seq<Step>, w: WriterId)
    requires Valid(Init(ids), steps) && Steady(Init(ids), steps) && w in ids
    ensures var s := Run(Init(ids), steps);
            Rising(Seen(s, w)) && forall l | l in Of(s.handed, w) :: Appended(s, l)
  {
    OrderInit(ids);
    OrderRun(Init(ids), steps);
    var s := Run(Init(ids), steps);
    OfMembers(s.handed, w);
    assert forall l | l in s.handed :: Appended(s, l);
    WritersStay(Init(ids), steps);
  }

  lemma {:induction false} WritersStay(s: State, steps: seq<Step>)
    requires Valid(s, steps)
    ensures Run(s, steps).writers.Keys == s.writers.Keys
    decreases |steps|
  {
    if steps != [] {
      WritersStayStep(s, steps[0]);
      WritersStay(Do(s, steps[0]), steps[1..]);
    }
  }

  lemma WritersStayStep(s: State, st: Step)
    requires Enabled(s, st)
    ensures Do(s, st).writers.Keys == s.writers.Keys
  {
  }

  // ---- in calm runs nothing is skipped ----

  /** What was delivered of each writer is a prefix of what it wrote. */
  ghost predicate PrefixOk(s: State) {
    forall w | w in s.writers ::
      Reached(s)(w) <= |s.writers[w].written| && Seen(s, w) == s.writers[w].written[..Reached(s)(w)]
  }

  /** A line written before those of file n is in a file that sorts before n. */
  lemma EarlierFile(s: State, n: Name, k: nat) returns (m: Name)
    requires n in s.files && s.files[n].owner in s.writers && WriterOk(s, s.files[n].owner) && Sequential(s)
    requires k < s.files[n].base && s.files[n].base <= |s.writers[s.files[n].owner].place|
    ensures m in s.files && s.files[m].owner == s.files[n].owner && m < n
    ensures s.files[m].base <= k < s.files[m].base + |s.files[m].lines|
  {
    m := s.writers[s.files[n].owner].place[k];
    assert Located(s, s.files[n].owner, k);
  }

  /** Every line written before the file at hand was delivered. */
  lemma EarlierDelivered(s: State, n: Name, k: nat)
    requires Inv(s) && OrderOk(s) && CalmState(s) && HasIndex(s.reader) && s.reader.n == n
    requires k < s.files[n].base
    ensures k < Reached(s)(s.files[n].owner)
  {
    var w := s.files[n].owner;
    assert FileOk(s, n) && WriterOk(s, w);
    var m := EarlierFile(s, n, k);
    assert FileOk(s, m) && CalmFile(s, m);
    EarlierIsFinished(s, n, m, Reached(s));
  }

  /** An earlier file of the same writer was read to its end. */
  lemma EarlierIsFinished(s: State, n: Name, m: Name, next: WriterId -> nat)
    requires ReaderOk(s) && Positions(s, next) && HasIndex(s.reader) && s.reader.n == n
    requires m in s.files && FileOk(s, m) && CalmFile(s, m) && m < n && s.files[m].owner == s.files[n].owner
    ensures s.files[m].fate == Finished(|s.files[m].lines|) && s.files[m].seen == |s.files[m].lines|
    ensures |s.files[m].lines| > 0 ==> s.files[m].base + |s.files[m].lines| <= next(s.files[m].owner)
  {
    assert Active(s, n);
    assert FilePosition(s.files[m], Active(s, m), next(s.files[m].owner));
  }

  /** The reader starts a file only when everything its writer wrote before was delivered. */
  lemma NextExact(s: State, n: Name, i: nat)
    requires Inv(s) && OrderOk(s) && CalmState(s) && HasIndex(s.reader) && s.reader.n == n && s.reader.i == i
    requires i == s.files[n].seen
    ensures Reached(s)(s.files[n].owner) == s.files[n].base + i
  {
    var f := s.files[n];
    assert FileOk(s, n) && FilePosition(f, Active(s, n), Reached(s)(f.owner));
    if f.base > 0 {
      EarlierDelivered(s, n, f.base - 1);
    }
  }

  lemma PrefixOne(s: State, n: Name, i: nat, handed: seq<Line>, w: WriterId)
    requires Inv(s) && HistoryOk(s) && OrderOk(s) && CalmState(s) && HasIndex(s.reader) && !AtYield(s.reader)
    requires s.reader.n == n && s.reader.i == i && i < |s.files[n].lines| && w in s.writers
    requires handed == s.handed + [s.files[n].lines[i]]
    requires Reached(s)(w) <= |s.writers[w].written| && Seen(s, w) == s.writers[w].written[..Reached(s)(w)]
    ensures Next(Dedup(Of(handed, w))) <= |s.writers[w].written|
    ensures Dedup(Of(handed, w)) == s.writers[w].written[..Next(Dedup(Of(handed, w)))]
  {
    SeenYield(s, n, i, handed, w);
    if w == s.files[n].owner {
      YieldRoom(s, n, i);
      if i == s.files[n].seen {
        NextExact(s, n, i);
        WrittenAt(s, n, i);
        PrefixExtend(Seen(s, w), s.writers[w].written, s.files[n].lines[i]);
      }
    }
  }

  /** Where line i of file n is in what its writer wrote. */
  lemma WrittenAt(s: State, n: Name, i: nat)
    requires Inv(s) && n in s.files && i < |s.files[n].lines|
    ensures var f := s.files[n];
            && f.owner in s.writers && f.base + i < |s.writers[f.owner].written|
            && s.writers[f.owner].written[f.base + i] == f.lines[i] && f.lines[i].serial == f.base + i
  {
    assert FileOk(s, n) && WriterOk(s, s.files[n].owner);
  }

  lemma PrefixExtend(ls: seq<Line>, written: seq<Line>, l: Line)
    requires Next(ls) < |written| && ls == written[..Next(ls)] && l == written[Next(ls)] && l.serial == Next(ls)
    ensures ls + [l] == written[..Next(ls + [l])]
  {
  }

  lemma PrefixYield(s: State, st: Step)
    requires Inv(s) && HistoryOk(s) && OrderOk(s) && CalmState(s) && PrefixOk(s) && Enabled(s, st) && Yields(s, st)
    ensures PrefixOk(Do(s, st))
  {
    var n, i, s' := s.reader.n, s.reader.i, Do(s, st);
    forall w | w in s'.writers
      ensures Reached(s')(w) <= |s'.writers[w].written| && Seen(s', w) == s'.writers[w].written[..Reached(s')(w)]
    {
      PrefixOne(s, n, i, s'.handed, w);
    }
  }

  lemma PrefixSame(s: State, s': State)
    requires PrefixOk(s) && s'.handed == s.handed && s'.writers.Keys == s.writers.Keys
    requires forall w | w in s.writers :: s.writers[w].written <= s'.writers[w].written
    ensures PrefixOk(s')
  {
    forall w | w in s'.writers
      ensures Reached(s')(w) <= |s'.writers[w].written| && Seen(s', w) == s'.writers[w].written[..Reached(s')(w)]
    {
      assert Seen(s', w) == Seen(s, w) && Reached(s')(w) == Reached(s)(w);
    }
  }

  lemma PrefixQuiet(s: State, st: Step)
    requires PrefixOk(s) && Enabled(s, st) && !Yields(s, st)
    ensures PrefixOk(Do(s, st))
  {
    KeepsRecord(s, st);
    WrittenGrows(s, st);
    PrefixSame(s, Do(s, st));
  }

  lemma WrittenGrows(s: State, st: Step)
    requires Enabled(s, st)
    ensures forall w | w in s.writers :: w in Do(s, st).writers && s.writers[w].written <= Do(s, st).writers[w].written
  {
  }

  lemma {:induction false} PrefixRun(s: State, steps: seq<Step>)
    requires Inv(s) && HistoryOk(s) && OrderOk(s) && CalmState(s) && PrefixOk(s)
    requires Valid(s, steps) && CalmRun(s, steps)
    ensures PrefixOk(Run(s, steps))
    decreases |steps|
  {
    if steps != [] {
      var st := steps[0];
      InvStep(s, st);
      HistoryStep(s, st);
      OrderStep(s, st);
      CalmStep(s, st);
      if Yields(s, st) {
        PrefixYield(s, st);
      } else {
        PrefixQuiet(s, st);
      }
      PrefixRun(Do(s, st), steps[1..]);
    }
  }

  /** In every calm run, the lines delivered of a writer, repeats removed, are a prefix of what it wrote. */
  lemma PrefixDelivered(ids: set<WriterId>, steps: seq<Step>, w: WriterId)
    requires Valid(Init(ids), steps) && CalmRun(Init(ids), steps) && w in ids
    ensures w in Run(Init(ids), steps).writers
    ensures Dedup(Of(Run(Init(ids), steps).handed, w)) <= Run(Init(ids), steps).writers[w].written
  {
    OrderInit(ids);
    PrefixRun(Init(ids), steps);
    WritersStay(Init(ids), steps);
  }
}
