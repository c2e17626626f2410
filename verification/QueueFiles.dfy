// The file side of the escalation queue as a step protocol: queue writers, the
// queue reader, the retention sweep and crashes act on shared files, one atomic
// file-system operation at a time.

module QueueFiles {
  import opened Collections
  import opened QueueTypes

  /** The directory that holds a queue file. An unlinked file can still be open in some process. */
  datatype Dir = Writing | Reading | Unlinked

  /** What became of a file; a record for the proofs, which no step consults. */
  datatype Fate =
    | Live
    | Stranded            // moved to the reading directory by a reader that crashed before creating its tracker
    | Swept               // its data file or its tracker was removed by the retention sweep
    | Finished(upTo: nat) // unlinked by the reader after its first `upTo` lines

  /**
   * A queue file. `lines`, `dir` and `tracker` (the length of its tracking file, if there is one)
   * are on disk. The other fields record history: who created it, how many lines its writer had
   * appended before, how many of its lines were yielded and consumed, whether the sweep took its tracker, and
   * whether it took it when that made the reader start again.
   */
  datatype File = File(
    lines: seq<Line>, dir: Dir, tracker: Option<nat>,
    owner: WriterId, base: nat, seen: nat, acked: nat, trackerSwept: bool, rewound: bool, fate: Fate)

  /** Where a writer is inside one call of `write_escalation`. */
  datatype WriterPc =
    | Idle
    | Generating(line: Line) // about to choose a new path
    | Opening(line: Line)    // about to open the last path without O_CREAT
    | Creating(line: Line)   // about to open the new path with O_CREAT
    | Appending(line: Line)  // holds the last path open
  {
    predicate Busy() { !Idle? }
  }

  /** A writer: its two fields, its program counter, and the history of what it appended and where. */
  datatype Writer = Writer(last: Option<Name>, num: nat, pc: WriterPc, written: seq<Line>, place: seq<Name>)

  const FRESH_WRITER := Writer(None, 0, Idle, [], [])

  /** Where the reader's generator is. `i` is the number of lines of file `n` taken before the current one. */
  datatype ReaderPc =
    | Choosing
    | Renaming(n: Name)            // picked as the oldest file of the writing directory
    | Chosen(n: Name)              // handed to the reading loop, nothing opened yet
    | DataOpen(n: Name)            // data file open, tracker not yet
    | TrackerOpen(n: Name)         // both open, tracker length not yet read
    | AtLine(n: Name, i: nat)
    | Yielded(n: Name, i: nat)     // line i is with the consumer
    | AtEof(n: Name, i: nat)       // the loop saw the end of the file
    | YieldedLast(n: Name, i: nat) // the line of the final readline is with the consumer
    | Drained(n: Name, i: nat)     // about to unlink the data file
    | DataGone(n: Name)            // about to unlink the tracker

  datatype State = State(
    files: map<Name, File>, writers: map<WriterId, Writer>, reader: ReaderPc,
    used: set<Name>,       // every name generated so far
    handed: seq<Line>,     // every line handed to the consumer, in order
    acked: set<Line>,      // every line whose consumption was recorded by the reader
    crashes: nat,          // crashes of the reader process
    interrupted: nat)      // those that happened while a line was with the consumer

  datatype Step =
    | Start(w: WriterId, line: Line) | Generate(w: WriterId, n: Name) | OpenExisting(w: WriterId)
    | Create(w: WriterId) | Append(w: WriterId) | Fail(w: WriterId) | WriterCrash(w: WriterId)
    | ChooseTracked(n: Name) | ChooseOldest(n: Name) | Rename | CheckData | OpenTracker | ReadSkip
    | ReadLine | Ack | LastLine | UnlinkData | UnlinkTracker | Crash
    | SweepData(n: Name) | SweepTracker(n: Name)

  function Init(ids: set<WriterId>): State {
    State(map[], map w | w in ids :: FRESH_WRITER, Choosing, {}, [], {}, 0, 0)
  }

  predicate InDir(s: State, n: Name, d: Dir) {
    n in s.files && s.files[n].dir == d
  }

  predicate Tracked(s: State, n: Name) {
    n in s.files && s.files[n].tracker.Some?
  }

  /** No name in the writing directory sorts before n. */
  predicate Oldest(s: State, n: Name) {
    InDir(s, n, Writing) && forall m | m in s.files && s.files[m].dir == Writing :: n <= m
  }

  predicate NoTracker(s: State) {
    forall n | n in s.files :: s.files[n].tracker.None?
  }

  /** A new path: never generated before, and later in time than every file of this writer. */
  predicate FreshName(s: State, w: WriterId, n: Name) {
    n !in s.used && forall m | m in s.files && s.files[m].owner == w :: m < n
  }

  predicate WriterAt(s: State, w: WriterId) { w in s.writers }

  predicate Enabled(s: State, st: Step) {
    match st
    case Start(w, line) =>
      WriterAt(s, w) && s.writers[w].pc.Idle? && line.writer == w && line.serial == |s.writers[w].written|
    case Generate(w, n) => WriterAt(s, w) && s.writers[w].pc.Generating? && FreshName(s, w, n)
    case OpenExisting(w) => WriterAt(s, w) && s.writers[w].pc.Opening?
    case Create(w) => WriterAt(s, w) && s.writers[w].pc.Creating? && s.writers[w].last.Some?
    case Append(w) => CanAppend(s, w)
    case Fail(w) => WriterAt(s, w) && s.writers[w].pc.Busy()
    case WriterCrash(w) => WriterAt(s, w)
    case ChooseTracked(n) => s.reader.Choosing? && Tracked(s, n)
    case ChooseOldest(n) => s.reader.Choosing? && NoTracker(s) && Oldest(s, n)
    case Rename => s.reader.Renaming? && s.reader.n in s.files
    case CheckData => s.reader.Chosen? && s.reader.n in s.files
    case OpenTracker => s.reader.DataOpen? && s.reader.n in s.files
    case ReadSkip => s.reader.TrackerOpen? && s.reader.n in s.files
    case ReadLine => s.reader.AtLine? && s.reader.n in s.files
    case Ack => AtYield(s.reader) && HeldLine(s)
    case LastLine => s.reader.AtEof? && s.reader.n in s.files
    case UnlinkData => s.reader.Drained? && s.reader.n in s.files
    case UnlinkTracker => s.reader.DataGone? && s.reader.n in s.files
    case Crash => true
    case SweepData(n) => n in s.files && s.files[n].dir != Unlinked
    case SweepTracker(n) => Tracked(s, n)
  }

  predicate AtYield(r: ReaderPc) { r.Yielded? || r.YieldedLast? }

  predicate HeldLine(s: State)
    requires AtYield(s.reader)
  {
    s.reader.n in s.files && s.reader.i < |s.files[s.reader.n].lines|
  }

  /** The line with the consumer. */
  function CurrentLine(s: State): Line
    requires AtYield(s.reader) && HeldLine(s)
  {
    s.files[s.reader.n].lines[s.reader.i]
  }

  function Max(a: nat, b: nat): nat { if a < b then b else a }

  function SetWriter(s: State, w: WriterId, wr: Writer): State { s.(writers := s.writers[w := wr]) }

  function SetFile(s: State, n: Name, f: File): State { s.(files := s.files[n := f]) }

  function SweptFate(f: Fate): Fate { if f.Finished? then f else Swept }

  /** The reader hands line i of file n to its consumer. */
  function Yield(s: State, n: Name, i: nat, pc: ReaderPc): State
    requires n in s.files && i < |s.files[n].lines|
  {
    var f := s.files[n];
    SetFile(s, n, f.(seen := Max(f.seen, i + 1))).(handed := s.handed + [f.lines[i]], reader := pc)
  }

  /** True in the window between the rename and the creation of the tracker. */
  predicate InWindow(s: State) {
    (s.reader.Chosen? || s.reader.DataOpen?) && s.reader.n in s.files
    && s.files[s.reader.n].fate.Live? && s.files[s.reader.n].tracker.None?
  }

  // ---- steps of a writer ----

  function DoStart(s: State, w: WriterId, line: Line): State
    requires WriterAt(s, w)
  {
    var wr := s.writers[w];
    SetWriter(s, w, wr.(pc := if wr.last.None? || wr.num >= MAX_QUEUE_FILE_LINES then Generating(line) else Opening(line)))
  }

  function DoGenerate(s: State, w: WriterId, n: Name): State
    requires WriterAt(s, w) && s.writers[w].pc.Generating?
  {
    var wr := s.writers[w];
    SetWriter(s, w, wr.(last := Some(n), num := 0, pc := Creating(wr.pc.line))).(used := s.used + {n})
  }

  /** The last path resolves only while the file is in the writing directory. */
  function DoOpenExisting(s: State, w: WriterId): State
    requires WriterAt(s, w) && s.writers[w].pc.Opening?
  {
    var wr := s.writers[w];
    var found := wr.last.Some? && InDir(s, wr.last.value, Writing);
    SetWriter(s, w, wr.(pc := if found then Appending(wr.pc.line) else Generating(wr.pc.line)))
  }

  function DoCreate(s: State, w: WriterId): State
    requires WriterAt(s, w) && s.writers[w].pc.Creating? && s.writers[w].last.Some?
  {
    var wr := s.writers[w];
    var f := File([], Writing, None, w, |wr.written|, 0, 0, false, false, Live);
    SetWriter(SetFile(s, wr.last.value, f), w, wr.(pc := Appending(wr.pc.line)))
  }

  predicate CanAppend(s: State, w: WriterId) {
    WriterAt(s, w) && s.writers[w].pc.Appending? && s.writers[w].last.Some? && s.writers[w].last.value in s.files
  }

  function DoAppend(s: State, w: WriterId): State
    requires CanAppend(s, w)
  {
    var wr := s.writers[w];
    var n := wr.last.value;
    var f := s.files[n];
    SetWriter(SetFile(s, n, f.(lines := f.lines + [wr.pc.line])), w,
              wr.(num := wr.num + 1, pc := Idle, written := wr.written + [wr.pc.line], place := wr.place + [n]))
  }

  function DoFail(s: State, w: WriterId): State
    requires WriterAt(s, w)
  {
    SetWriter(s, w, s.writers[w].(pc := Idle))
  }

  function DoWriterCrash(s: State, w: WriterId): State
    requires WriterAt(s, w)
  {
    SetWriter(s, w, s.writers[w].(last := None, num := 0, pc := Idle))
  }

  // ---- steps of the reader ----

  function DoRename(s: State): State
    requires s.reader.Renaming? && s.reader.n in s.files
  {
    var n := s.reader.n;
    if s.files[n].dir == Writing
    then SetFile(s, n, s.files[n].(dir := Reading)).(reader := Chosen(n))
    else s.(reader := Choosing)
  }

  function DoCheckData(s: State): State
    requires s.reader.Chosen? && s.reader.n in s.files
  {
    var n := s.reader.n;
    if s.files[n].dir == Reading
    then s.(reader := DataOpen(n))
    else SetFile(s, n, s.files[n].(tracker := None)).(reader := Choosing)
  }

  function DoOpenTracker(s: State): State
    requires s.reader.DataOpen? && s.reader.n in s.files
  {
    var n := s.reader.n;
    var f := s.files[n];
    SetFile(s, n, if f.tracker.None? then f.(tracker := Some(0)) else f).(reader := TrackerOpen(n))
  }

  function DoReadSkip(s: State): State
    requires s.reader.TrackerOpen? && s.reader.n in s.files
  {
    var n := s.reader.n;
    s.(reader := AtLine(n, if s.files[n].tracker.Some? then s.files[n].tracker.value else 0))
  }

  function DoReadLine(s: State): State
    requires s.reader.AtLine? && s.reader.n in s.files
  {
    var n, i := s.reader.n, s.reader.i;
    if i < |s.files[n].lines| then Yield(s, n, i, Yielded(n, i)) else s.(reader := AtEof(n, i))
  }

  function DoAck(s: State): State
    requires AtYield(s.reader) && HeldLine(s)
  {
    var n, i := s.reader.n, s.reader.i;
    var f := s.files[n];
    var f' := f.(tracker := if f.tracker.Some? then Some(f.tracker.value + 1) else None, acked := Max(f.acked, i + 1));
    SetFile(s, n, f').(acked := s.acked + {f.lines[i]},
                       reader := if s.reader.Yielded? then AtLine(n, i + 1) else Drained(n, i + 1))
  }

  function DoLastLine(s: State): State
    requires s.reader.AtEof? && s.reader.n in s.files
  {
    var n, i := s.reader.n, s.reader.i;
    if i < |s.files[n].lines| then Yield(s, n, i, YieldedLast(n, i)) else s.(reader := Drained(n, i))
  }

  function DoUnlinkData(s: State): State
    requires s.reader.Drained? && s.reader.n in s.files
  {
    var n, i := s.reader.n, s.reader.i;
    var f := s.files[n];
    SetFile(s, n, f.(dir := Unlinked, fate := if f.fate.Live? then Finished(i) else f.fate)).(reader := DataGone(n))
  }

  function DoUnlinkTracker(s: State): State
    requires s.reader.DataGone? && s.reader.n in s.files
  {
    var n := s.reader.n;
    SetFile(s, n, s.files[n].(tracker := None)).(reader := Choosing)
  }

  function DoCrash(s: State): State {
    var s' := if InWindow(s) then SetFile(s, s.reader.n, s.files[s.reader.n].(fate := Stranded)) else s;
    s'.(reader := Choosing, crashes := s.crashes + 1,
        interrupted := s.interrupted + if AtYield(s.reader) then 1 else 0)
  }

  // ---- steps of the retention sweep ----

  /** The reader is about to read file n and has not read yet how many of its lines the tracker counts. */
  predicate Unread(s: State, n: Name) {
    && n in s.files && s.files[n].tracker.Some? && s.files[n].tracker.value > 0
    && ((s.reader == Chosen(n) && s.files[n].dir == Reading) || s.reader == DataOpen(n) || s.reader == TrackerOpen(n))
  }

  /** The step takes the tracker of a file just before the reader reads it: the reader starts at the first line again. */
  predicate Rewinds(s: State, st: Step) { st.SweepTracker? && Unread(s, st.n) }

  function DoSweepData(s: State, n: Name): State
    requires n in s.files
  {
    SetFile(s, n, s.files[n].(dir := Unlinked, fate := SweptFate(s.files[n].fate)))
  }

  function DoSweepTracker(s: State, n: Name): State
    requires n in s.files
  {
    var f := s.files[n];
    SetFile(s, n, f.(tracker := None, fate := SweptFate(f.fate), trackerSwept := f.trackerSwept || !f.fate.Finished?,
                     rewound := f.rewound || Unread(s, n)))
  }

  function Do(s: State, st: Step): State
    requires Enabled(s, st)
  {
    match st
    case Start(w, line) => DoStart(s, w, line)
    case Generate(w, n) => DoGenerate(s, w, n)
    case OpenExisting(w) => DoOpenExisting(s, w)
    case Create(w) => DoCreate(s, w)
    case Append(w) => DoAppend(s, w)
    case Fail(w) => DoFail(s, w)
    case WriterCrash(w) => DoWriterCrash(s, w)
    case ChooseTracked(n) => s.(reader := Chosen(n))
    case ChooseOldest(n) => s.(reader := Renaming(n))
    case Rename => DoRename(s)
    case CheckData => DoCheckData(s)
    case OpenTracker => DoOpenTracker(s)
    case ReadSkip => DoReadSkip(s)
    case ReadLine => DoReadLine(s)
    case Ack => DoAck(s)
    case LastLine => DoLastLine(s)
    case UnlinkData => DoUnlinkData(s)
    case UnlinkTracker => DoUnlinkTracker(s)
    case Crash => DoCrash(s)
    case SweepData(n) => DoSweepData(s, n)
    case SweepTracker(n) => DoSweepTracker(s, n)
  }

  /** The steps can be taken one after the other from s. */
  predicate Valid(s: State, steps: seq<Step>)
    decreases |steps|
  {
    steps == [] || (Enabled(s, steps[0]) && Valid(Do(s, steps[0]), steps[1..]))
  }

  function Run(s: State, steps: seq<Step>): State
    requires Valid(s, steps)
    decreases |steps|
  {
    if steps == [] then s else Run(Do(s, steps[0]), steps[1..])
  }

  /** A run in which no sweep makes the reader start a file again. */
  predicate Steady(s: State, steps: seq<Step>)
    requires Valid(s, steps)
    decreases |steps|
  {
    steps == [] || (!Rewinds(s, steps[0]) && Steady(Do(s, steps[0]), steps[1..]))
  }

  lemma {:induction false} ThenStep(s: State, steps: seq<Step>, st: Step)
    requires Valid(s, steps) && Enabled(Run(s, steps), st)
    ensures Valid(s, steps + [st]) && Run(s, steps + [st]) == Do(Run(s, steps), st)
    decreases |steps|
  {
    if steps == [] {
      assert (steps + [st])[1..] == [];
    } else {
      assert (steps + [st])[1..] == steps[1..] + [st];
      ThenStep(Do(s, steps[0]), steps[1..], st);
    }
  }

  /** Some writer holds file n open for appending. */
  predicate HeldOpen(s: State, n: Name) {
    n in s.files && s.files[n].owner in s.writers
    && s.writers[s.files[n].owner].pc.Appending? && s.writers[s.files[n].owner].last == Some(n)
  }
}
