// The runs of one call of the writer.

module WriterRuns {
  import opened Collections
  import opened QueueTypes
  import opened QueueFiles
  import opened QueueInvariant

  /** What the operating system does to one attempt to write a line. */
  datatype Fault = NoFault | OpenFails | WriteFails

  predicate NeedsNewPath(wr: Writer) { wr.last.None? || wr.num >= MAX_QUEUE_FILE_LINES }

  /** The writer's last path still resolves. */
  predicate Resolves(s: State, w: WriterId)
    requires w in s.writers
  {
    s.writers[w].last.Some? && InDir(s, s.writers[w].last.value, Writing)
  }

  /** The protocol steps of one call of `write_escalation`. */
  function CallSteps(s: State, w: WriterId, line: Line, newName: Name, fault: Fault): seq<Step>
    requires w in s.writers
  {
    if NeedsNewPath(s.writers[w]) then [Start(w, line), Generate(w, newName)] + CreateSteps(w, fault)
    else if Resolves(s, w) then [Start(w, line)] + AppendSteps(w, fault)
    else [Start(w, line), OpenExisting(w), Generate(w, newName)] + CreateSteps(w, fault)
  }

  function CreateSteps(w: WriterId, fault: Fault): seq<Step> {
    match fault
    case NoFault => [Create(w), Append(w)]
    case OpenFails => [Fail(w)]
    case WriteFails => [Create(w), Fail(w)]
  }

  function AppendSteps(w: WriterId, fault: Fault): seq<Step> {
    match fault
    case NoFault => [OpenExisting(w), Append(w)]
    case OpenFails => [Fail(w)]
    case WriteFails => [OpenExisting(w), Fail(w)]
  }

  /** The writer and the files after a call that ends on the new path n. */
  function AfterNewPath(s: State, w: WriterId, line: Line, n: Name, fault: Fault): State
    requires w in s.writers
  {
    var wr := s.writers[w];
    var lines := if fault.NoFault? then [line] else [];
    var f := File(lines, Writing, None, w, |wr.written|, 0, 0, false, false, Live);
    s.(files := if fault.OpenFails? then s.files else s.files[n := f],
       used := s.used + {n},
       writers := s.writers[w := Writer(Some(n), |lines|, Idle, if fault.NoFault? then wr.written + [line] else wr.written,
                                        if fault.NoFault? then wr.place + [n] else wr.place)])
  }

  lemma CreateRun(s: State, before: seq<Step>, w: WriterId, line: Line, n: Name, fault: Fault, wr: Writer)
    requires Valid(s, before) && w in s.writers && n !in s.files && wr == s.writers[w]
    requires Run(s, before) ==
             s.(used := s.used + {n}, writers := s.writers[w := wr.(last := Some(n), num := 0, pc := Creating(line))])
    ensures Valid(s, before + CreateSteps(w, fault))
    ensures Run(s, before + CreateSteps(w, fault)) == AfterNewPath(s, w, line, n, fault)
  {
    if fault.OpenFails? {
      ThenStep(s, before, Fail(w));
      assert DoFail(Run(s, before), w) == AfterNewPath(s, w, line, n, fault) by {
        assert Run(s, before).writers[w := AfterNewPath(s, w, line, n, fault).writers[w]]
               == s.writers[w := AfterNewPath(s, w, line, n, fault).writers[w]];
      }
    } else {
      var last := if fault.NoFault? then Append(w) else Fail(w);
      ThenStep(s, before, Create(w));
      ThenStep(s, before + [Create(w)], last);
      assert before + CreateSteps(w, fault) == before + [Create(w)] + [last];
      CreateThen(s, w, line, n, fault, wr);
    }
  }

  lemma CreateThen(s: State, w: WriterId, line: Line, n: Name, fault: Fault, wr: Writer)
    requires w in s.writers && n !in s.files && !fault.OpenFails? && wr == s.writers[w]
    ensures var at := s.(used := s.used + {n}, writers := s.writers[w := wr.(last := Some(n), num := 0, pc := Creating(line))]);
            CanAppend(DoCreate(at, w), w)
            && (if fault.NoFault? then DoAppend(DoCreate(at, w), w) else DoFail(DoCreate(at, w), w))
               == AfterNewPath(s, w, line, n, fault)
  {
    var at := s.(used := s.used + {n}, writers := s.writers[w := wr.(last := Some(n), num := 0, pc := Creating(line))]);
    var s1, goal := DoCreate(at, w), AfterNewPath(s, w, line, n, fault);
    var s2 := if fault.NoFault? then DoAppend(s1, w) else DoFail(s1, w);
    assert [] + [line] == [line];
    assert s2.writers == goal.writers;
    assert s2.files == goal.files;
  }

  /** The state after a whole call. */
  function AfterCall(s: State, w: WriterId, line: Line, newName: Name, fault: Fault): State
    requires w in s.writers
  {
    var wr := s.writers[w];
    if NeedsNewPath(wr) || !Resolves(s, w) then AfterNewPath(s, w, line, newName, fault)
    else if fault.NoFault? then
      var n := wr.last.value;
      s.(files := s.files[n := s.files[n].(lines := s.files[n].lines + [line])],
         writers := s.writers[w := wr.(num := wr.num + 1, written := wr.written + [line], place := wr.place + [n])])
    else s
  }

  /** The last file of the writer has room for a line, and its path still resolves. */
  ghost predicate CanGoOn(s: State, wr: Writer) {
    wr.last.Some? && wr.num < 200 && wr.last.value in s.files && s.files[wr.last.value].dir == Writing
  }

  /**
   * Where the line of a call goes: behind the lines of the last file as long as that has room and resolves,
   * and otherwise into a new file, alone. A call that fails leaves every line that was there as it was.
   */
  lemma LineOfCall(s: State, w: WriterId, line: Line, newName: Name, fault: Fault)
    requires w in s.writers && newName !in s.files
    ensures var wr, s' := s.writers[w], AfterCall(s, w, line, newName, fault);
            var wr' := s'.writers[w];
            && wr'.written == wr.written + (if fault.NoFault? then [line] else [])
            && (forall n | n in s.files :: n in s'.files &&
                  s'.files[n] == if fault.NoFault? && CanGoOn(s, wr) && wr.last == Some(n)
                                 then s.files[n].(lines := s.files[n].lines + [line]) else s.files[n])
            && (forall n | n in s'.files && n !in s.files :: n == newName && s'.files[n].dir == Writing && s'.files[n].owner == w
                  && s'.files[n].lines == (if fault.NoFault? then [line] else []) && s'.files[n].tracker.None?)
            && (newName in s'.files <==> !CanGoOn(s, wr) && !fault.OpenFails?)
            && wr'.last == (if CanGoOn(s, wr) then wr.last else Some(newName))
            && wr'.num == (if CanGoOn(s, wr) then wr.num else 0) + (if fault.NoFault? then 1 else 0)
  {
  }

  // ---- the pieces of a call, as its methods divide it ----

  function Reset(s: State, w: WriterId, n: Name): State
    requires w in s.writers
  {
    s.(used := s.used + {n}, writers := s.writers[w := s.writers[w].(last := Some(n), num := 0)])
  }

  /** After opening the path for appending: the same, or with the path created. */
  function OpenedToAppend(s: State, w: WriterId, create: bool): State
    requires w in s.writers && s.writers[w].last.Some?
  {
    if create
    then s.(files := s.files[s.writers[w].last.value := File([], Writing, None, w, |s.writers[w].written|, 0, 0, false, false, Live)])
    else s
  }

  function Landed(s: State, w: WriterId, line: Line): State
    requires w in s.writers && s.writers[w].last.Some? && s.writers[w].last.value in s.files
  {
    var wr := s.writers[w];
    var n := wr.last.value;
    s.(files := s.files[n := s.files[n].(lines := s.files[n].lines + [line])],
       writers := s.writers[w := wr.(written := wr.written + [line], place := wr.place + [n])])
  }

  /** After `_write_to_path`. */
  function AfterPath(s: State, w: WriterId, line: Line, newName: Name, isNewFile: bool, fault: Fault): State
    requires w in s.writers && s.writers[w].last.Some?
  {
    var moved := !isNewFile && !Resolves(s, w);
    var at := if moved then Reset(s, w, newName) else s;
    if fault.OpenFails? then at
    else if fault.WriteFails? then OpenedToAppend(at, w, isNewFile || moved)
    else Landed(OpenedToAppend(at, w, isNewFile || moved), w, line)
  }

  function Counted(s: State, w: WriterId): State
    requires w in s.writers
  {
    s.(writers := s.writers[w := s.writers[w].(num := s.writers[w].num + 1)])
  }

  /** The pieces make up the call. */
  lemma PiecesOfCall(s: State, w: WriterId, line: Line, newName: Name, fault: Fault)
    requires w in s.writers && s.writers[w].pc.Idle? && newName !in s.files
    ensures var isNewFile := NeedsNewPath(s.writers[w]);
            var at := AfterPath(if isNewFile then Reset(s, w, newName) else s, w, line, newName, isNewFile, fault);
            (if fault.NoFault? then Counted(at, w) else at) == AfterCall(s, w, line, newName, fault)
  {
    var isNewFile, goal := NeedsNewPath(s.writers[w]), AfterCall(s, w, line, newName, fault);
    var at := AfterPath(if isNewFile then Reset(s, w, newName) else s, w, line, newName, isNewFile, fault);
    assert [] + [line] == [line];
    assert (if fault.NoFault? then Counted(at, w) else at).writers == goal.writers;
    assert at.files == goal.files;
  }

  function UpToGenerate(s: State, w: WriterId, line: Line, newName: Name): seq<Step>
    requires w in s.writers
  {
    if NeedsNewPath(s.writers[w]) then [Start(w, line), Generate(w, newName)]
    else [Start(w, line), OpenExisting(w), Generate(w, newName)]
  }

  lemma GenerateRun(s: State, w: WriterId, line: Line, newName: Name)
    requires Enabled(s, Start(w, line)) && FreshName(s, w, newName)
    requires NeedsNewPath(s.writers[w]) || !Resolves(s, w)
    ensures Valid(s, UpToGenerate(s, w, line, newName))
    ensures Run(s, UpToGenerate(s, w, line, newName)) ==
            s.(used := s.used + {newName},
               writers := s.writers[w := s.writers[w].(last := Some(newName), num := 0, pc := Creating(line))])
  {
    var wr, s1 := s.writers[w], DoStart(s, w, line);
    ThenStep(s, [], Start(w, line));
    var before, at := [] + [Start(w, line)], s1;
    if !NeedsNewPath(wr) {
      ThenStep(s, before, OpenExisting(w));
      before, at := before + [OpenExisting(w)], DoOpenExisting(s1, w);
    }
    ThenStep(s, before, Generate(w, newName));
    assert before + [Generate(w, newName)] == UpToGenerate(s, w, line, newName);
    assert DoGenerate(at, w, newName).writers ==
           s.writers[w := wr.(last := Some(newName), num := 0, pc := Creating(line))];
  }

  lemma NewPathRun(s: State, w: WriterId, line: Line, newName: Name, fault: Fault)
    requires newName !in s.files && Enabled(s, Start(w, line)) && FreshName(s, w, newName)
    requires NeedsNewPath(s.writers[w]) || !Resolves(s, w)
    ensures Valid(s, CallSteps(s, w, line, newName, fault))
    ensures Run(s, CallSteps(s, w, line, newName, fault)) == AfterNewPath(s, w, line, newName, fault)
  {
    GenerateRun(s, w, line, newName);
    CreateRun(s, UpToGenerate(s, w, line, newName), w, line, newName, fault, s.writers[w]);
    assert UpToGenerate(s, w, line, newName) + CreateSteps(w, fault) == CallSteps(s, w, line, newName, fault);
  }

  lemma ExistingRun(s: State, w: WriterId, line: Line, newName: Name, fault: Fault)
    requires Enabled(s, Start(w, line)) && !NeedsNewPath(s.writers[w]) && Resolves(s, w)
    ensures Valid(s, CallSteps(s, w, line, newName, fault))
    ensures Run(s, CallSteps(s, w, line, newName, fault)) == AfterCall(s, w, line, newName, fault)
  {
    ThenStep(s, [], Start(w, line));
    var before := [] + [Start(w, line)];
    if fault.OpenFails? {
      ThenStep(s, before, Fail(w));
    } else {
      var last := if fault.NoFault? then Append(w) else Fail(w);
      ThenStep(s, before, OpenExisting(w));
      ThenStep(s, before + [OpenExisting(w)], last);
      assert before + AppendSteps(w, fault) == before + [OpenExisting(w)] + [last];
    }
    assert before + AppendSteps(w, fault) == CallSteps(s, w, line, newName, fault);
  }

  /** A call of the writer with nothing in between is a run of the protocol. */
  lemma CallIsRun(s: State, w: WriterId, line: Line, newName: Name, fault: Fault)
    requires Inv(s) && Enabled(s, Start(w, line)) && FreshName(s, w, newName)
    ensures Valid(s, CallSteps(s, w, line, newName, fault))
    ensures Run(s, CallSteps(s, w, line, newName, fault)) == AfterCall(s, w, line, newName, fault)
    ensures Inv(AfterCall(s, w, line, newName, fault))
  {
    assert newName in s.files ==> FileOk(s, newName);
    if NeedsNewPath(s.writers[w]) || !Resolves(s, w) {
      NewPathRun(s, w, line, newName, fault);
    } else {
      ExistingRun(s, w, line, newName, fault);
    }
    InvRun(s, CallSteps(s, w, line, newName, fault));
  }
}
