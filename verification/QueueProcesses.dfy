// The writer and the reader as the objects they are in the program, each proved to
// take only steps of the file protocol.

module QueueProcesses {
  import opened Collections
  import opened QueueTypes
  import opened QueueFiles
  import opened QueueInvariant
  import opened WriterRuns
  import opened ReaderRuns
  import opened QueueDelivery

  /** The shared directories. */
  class Disk {
    var files: map<Name, File>
    var used: set<Name>

    constructor ()
      ensures files == map[] && used == {}
    {
      files := map[];
      used := {};
    }
  }

  class QueueWriter {
    const id: WriterId
    var lastFilePath: Option<Name>
    var numLinesWritten: nat
    var written: seq<Line>
    var place: seq<Name>

    constructor (id: WriterId)
      ensures this.id == id && lastFilePath == None && numLinesWritten == 0 && written == [] && place == []
    {
      this.id := id;
      lastFilePath := None;
      numLinesWritten := 0;
      written := [];
      place := [];
    }

    /** The protocol state: this writer between two calls, among the other processes of `world`. */
    ghost function Within(world: State, disk: Disk): State
      reads this, disk
    {
      world.(files := disk.files, used := disk.used,
             writers := world.writers[id := Writer(lastFilePath, numLinesWritten, WriterPc.Idle, written, place)])
    }

    /**
     * Writes a line: to the last path if it is not full and still resolves, otherwise to the new path
     * `newName`. By `CallIsRun` the result is that of a run of the protocol, whatever fails in it.
     */
    method WriteEscalation(disk: Disk, line: Line, newName: Name, fault: Fault, ghost world: State) returns (ok: bool)
      requires newName !in disk.files
      modifies this, disk
      ensures ok <==> fault == NoFault
      ensures Within(world, disk) == AfterCall(old(Within(world, disk)), id, line, newName, fault)
    {
      PiecesOfCall(Within(world, disk), id, line, newName, fault);
      var isNewFile := false;
      if lastFilePath.None? || numLinesWritten >= MAX_QUEUE_FILE_LINES {
        ResetToNewFile(disk, newName, world);
        isNewFile := true;
      }
      ok := WriteToPath(disk, line, newName, isNewFile, fault, world);
      ghost var at := Within(world, disk);
      if ok {
        numLinesWritten := numLinesWritten + 1;
        assert Within(world, disk).writers == Counted(at, id).writers;
      }
    }

    /** Opens the last path, with O_CREAT only if it is new or if another new path is needed, and appends. */
    method WriteToPath(disk: Disk, line: Line, newName: Name, isNewFile: bool, fault: Fault, ghost world: State)
      returns (ok: bool)
      requires lastFilePath.Some?
      modifies this, disk
      ensures ok <==> fault == NoFault
      ensures Within(world, disk) == AfterPath(old(Within(world, disk)), id, line, newName, isNewFile, fault)
    {
      ghost var s := Within(world, disk);
      ok := false;
      var create := isNewFile;
      if !isNewFile && !(lastFilePath.value in disk.files && disk.files[lastFilePath.value].dir == Writing) {
        ResetToNewFile(disk, newName, world);
        create := true;
      }
      if fault == OpenFails {
        return;
      }
      if create {
        disk.files := disk.files[lastFilePath.value := File([], Writing, None, id, |written|, 0, 0, false, false, Live)];
      }
      if fault == WriteFails {
        return;
      }
      ghost var at := Within(world, disk);
      var n := lastFilePath.value;
      disk.files := disk.files[n := disk.files[n].(lines := disk.files[n].lines + [line])];
      written := written + [line];
      place := place + [n];
      ok := true;
      assert Within(world, disk).writers == Landed(at, id, line).writers;
    }

    method ResetToNewFile(disk: Disk, newName: Name, ghost world: State)
      modifies this`lastFilePath, this`numLinesWritten, disk`used
      ensures lastFilePath == Some(newName) && numLinesWritten == 0
      ensures Within(world, disk) == Reset(old(Within(world, disk)), id, newName)
    {
      ghost var s := Within(world, disk);
      lastFilePath := Some(newName);
      numLinesWritten := 0;
      disk.used := disk.used + {newName};
      assert Within(world, disk).writers == Reset(s, id, newName).writers;
    }
  }

  /** The reader's generator as a resumable object: `pc` is where it is suspended. */
  class QueueReader {
    var pc: ReaderPc
    ghost var handed: seq<Line>
    ghost var consumed: set<Line>

    constructor ()
      ensures pc == Choosing && handed == [] && consumed == {}
    {
      pc := Choosing;
      handed := [];
      consumed := {};
    }

    /** The protocol state: this reader among the other processes of `world`. */
    ghost function Within(world: State, disk: Disk): State
      reads this, disk
    {
      world.(files := disk.files, reader := pc, handed := handed, acked := consumed)
    }

    /** Where the generator can be suspended: at a yield, or in one of its two waits. */
    predicate Suspended()
      reads this
    {
      pc.Choosing? || pc.AtEof? || AtYield(pc)
    }

    /**
     * Resumes the generator until it yields a line or waits: for a file, or before the final read of
     * one. The resumption is a run of the protocol's reader steps, it records the previous line as
     * consumed, and it hands over one line, or none if it waits; it waits for a file only if none is left. Unless
     * there was none to begin with, it brings the reader closer to an empty queue.
     */
    method Next(disk: Disk, ghost world: State) returns (line: Option<Line>, ghost steps: seq<Step>)
      requires Inv(Within(world, disk)) && Suspended()
      modifies this, disk`files
      ensures ReaderRun(old(Within(world, disk)), steps, Within(world, disk))
      ensures old(AtYield(pc)) ==> old(HeldLine(Within(world, disk))) && old(CurrentLine(Within(world, disk))) in consumed
      ensures HandedOver(old(handed), line, world, disk)
      ensures QueueDelivery.Idle(old(Within(world, disk))) || Closer(old(Within(world, disk)), Within(world, disk))
    {
      ghost var s0 := Within(world, disk);
      line, steps := Wake(disk, world);
      if line.None? {
        line, steps := Proceed(disk, world, s0, steps);
      }
      if steps != [] {
        RunIsCloser(s0, steps);
      }
    }

    /** From where the generator is suspended up to its loops. */
    method Wake(disk: Disk, ghost world: State) returns (line: Option<Line>, ghost steps: seq<Step>)
      requires Inv(Within(world, disk)) && Suspended()
      modifies this, disk`files
      ensures ReaderRun(old(Within(world, disk)), steps, Within(world, disk))
      ensures old(AtYield(pc)) ==> old(HeldLine(Within(world, disk))) && old(CurrentLine(Within(world, disk))) in consumed
      ensures line.Some? ==> HandedOver(old(handed), line, world, disk)
      ensures line.None? ==> (pc.Choosing? || (pc.AtLine? && pc.n in disk.files)) && handed == old(handed)
      ensures steps != [] || (old(pc).Choosing? && Within(world, disk) == old(Within(world, disk)))
    {
      ghost var s0 := Within(world, disk);
      line, steps := None, [];
      if pc.AtEof? {
        FinalReadRun(s0);
        steps := FinalReadSteps(s0);
        line := ReadFinalLine(disk, world);
      } else if AtYield(pc) {
        ResumedRun(s0);
        steps := ResumeSteps(s0);
        Resume(disk, world);
      }
    }

    /** What a resumption that yields `line` leaves behind. */
    ghost predicate HandedOver(before: seq<Line>, line: Option<Line>, world: State, disk: Disk)
      reads this, disk
    {
      var s := Within(world, disk);
      if line.None? then handed == before && (pc.AtEof? || QueueDelivery.Idle(s))
      else AtYield(pc) && HeldLine(s) && CurrentLine(s) == line.value && handed == before + [line.value]
    }

    /** The loop over files, until one is open, and then the next turn of the loop over its lines. */
    method Proceed(disk: Disk, ghost world: State, ghost s0: State, ghost before: seq<Step>)
      returns (line: Option<Line>, ghost steps: seq<Step>)
      requires pc.Choosing? || (pc.AtLine? && pc.n in disk.files)
      requires Inv(s0) && ReaderRun(s0, before, Within(world, disk))
      modifies this`pc, this`handed, disk`files
      ensures ReaderRun(s0, steps, Within(world, disk))
      ensures HandedOver(old(handed), line, world, disk)
      ensures steps == [] ==> line.None? && QueueDelivery.Idle(Within(world, disk))
    {
      steps := before;
      while pc.Choosing?
        invariant pc.Choosing? || (pc.AtLine? && pc.n in disk.files)
        invariant ReaderRun(s0, steps, Within(world, disk)) && handed == old(handed)
        decreases FilesLeft(Within(world, disk)), Stage(Within(world, disk)), LinesLeft(Within(world, disk))
      {
        ghost var s := Within(world, disk);
        var path := ChooseNewFile(disk, world);
        if path.None? {
          return None, steps;
        }
        TakenRun(s0, steps, s, path.value);
        steps := steps + ChooseSteps(s, path.value) + OpenSteps(Taken(s, path.value));
        Open(disk, world);
      }
      Extend(s0, steps, Within(world, disk), ReadLine);
      steps := steps + [ReadLine];
      line := ReadNextLine(disk, world);
    }

    /** The generator's code after a yield, up to the next read. */
    method Resume(disk: Disk, ghost world: State)
      requires AtYield(pc) && HeldLine(Within(world, disk))
      modifies this`pc, this`consumed, disk`files
      ensures Within(world, disk) == Resumed(old(Within(world, disk)))
    {
      WriteTracker(disk, world);
      if pc.Drained? {
        DeleteFiles(disk, world);
      }
    }

    /** Appends a mark to the tracking file: the line just yielded has been consumed. */
    method WriteTracker(disk: Disk, ghost world: State)
      requires AtYield(pc) && HeldLine(Within(world, disk))
      modifies this`pc, this`consumed, disk`files
      ensures Within(world, disk) == DoAck(old(Within(world, disk)))
    {
      var n, i := pc.n, pc.i;
      var f := disk.files[n];
      consumed := consumed + {f.lines[i]};
      var mark := if f.tracker.Some? then Some(f.tracker.value + 1) else None;
      disk.files := disk.files[n := f.(tracker := mark, acked := Max(f.acked, i + 1))];
      pc := if pc.Yielded? then AtLine(n, i + 1) else Drained(n, i + 1);
    }

    /** Deletes the data file, then its tracking file. */
    method DeleteFiles(disk: Disk, ghost world: State)
      requires pc.Drained? && pc.n in disk.files
      modifies this`pc, disk`files
      ensures Within(world, disk) == Deleted(old(Within(world, disk)))
    {
      var n, i := pc.n, pc.i;
      var f := disk.files[n];
      disk.files := disk.files[n := f.(dir := Unlinked, fate := if f.fate.Live? then Finished(i) else f.fate)];
      disk.files := disk.files[n := disk.files[n].(tracker := None)];
      pc := Choosing;
    }

    /** The next line of the loop over lines, or none at the end of the file. */
    method ReadNextLine(disk: Disk, ghost world: State) returns (line: Option<Line>)
      requires pc.AtLine? && pc.n in disk.files
      modifies this`pc, this`handed, disk`files
      ensures Within(world, disk) == DoReadLine(old(Within(world, disk)))
      ensures HandedOver(old(handed), line, world, disk)
    {
      var n, i := pc.n, pc.i;
      if i < |disk.files[n].lines| {
        line := Some(disk.files[n].lines[i]);
        Yield(disk, n, i, Yielded(n, i));
      } else {
        line := None;
        pc := AtEof(n, i);
      }
    }

    /** The final read, for a line that arrived meanwhile; without one, the files are deleted. */
    method ReadFinalLine(disk: Disk, ghost world: State) returns (line: Option<Line>)
      requires pc.AtEof? && pc.n in disk.files
      modifies this`pc, this`handed, disk`files
      ensures Within(world, disk) == FinalRead(old(Within(world, disk)))
      ensures line.None? ==> pc.Choosing? && handed == old(handed)
      ensures line.Some? ==> HandedOver(old(handed), line, world, disk)
    {
      var n, i := pc.n, pc.i;
      if i < |disk.files[n].lines| {
        line := Some(disk.files[n].lines[i]);
        Yield(disk, n, i, YieldedLast(n, i));
      } else {
        line := None;
        pc := Drained(n, i);
        DeleteFiles(disk, world);
      }
    }

    method Yield(disk: Disk, n: Name, i: nat, at: ReaderPc)
      requires n in disk.files && i < |disk.files[n].lines|
      modifies this`pc, this`handed, disk`files
      ensures pc == at && handed == old(handed) + [old(disk.files)[n].lines[i]]
      ensures disk.files == old(disk.files)[n := old(disk.files)[n].(seen := Max(old(disk.files)[n].seen, i + 1))]
    {
      var f := disk.files[n];
      handed := handed + [f.lines[i]];
      disk.files := disk.files[n := f.(seen := Max(f.seen, i + 1))];
      pc := at;
    }

    /** Picks a file that has a tracker, or else moves the oldest file out of the writing directory. */
    method ChooseNewFile(disk: Disk, ghost world: State) returns (path: Option<Name>)
      requires pc.Choosing?
      modifies this`pc, disk`files
      ensures path.None? ==> QueueDelivery.Idle(Within(world, disk)) && Within(world, disk) == old(Within(world, disk))
      ensures path.Some? ==>
                && Choosable(old(Within(world, disk)), path.value)
                && Within(world, disk) == Taken(old(Within(world, disk)), path.value)
      ensures (exists m :: m in old(disk.files) && old(disk.files)[m].tracker.Some?) ==>
                path.Some? && path.value in old(disk.files) && old(disk.files)[path.value].tracker.Some?
                && disk.files == old(disk.files)
      ensures (forall m | m in old(disk.files) :: old(disk.files)[m].tracker.None?) && path.Some? ==>
                && path.value in old(disk.files) && old(disk.files)[path.value].dir == Writing
                && (forall m | m in old(disk.files) && old(disk.files)[m].dir == Writing :: path.value <= m)
                && disk.files == old(disk.files)[path.value := old(disk.files)[path.value].(dir := Reading)]
      ensures path.None? ==> forall m | m in old(disk.files) :: old(disk.files)[m].dir != Writing
    {
      ghost var s := Within(world, disk);
      var tracked := set n | n in disk.files && disk.files[n].tracker.Some?;
      if tracked != {} {
        var n :| n in tracked;
        pc := Chosen(n);
        return Some(n);
      }
      assert forall n | n in s.files && s.files[n].tracker.Some? :: n in tracked;
      var writing := set n | n in disk.files && disk.files[n].dir == Writing;
      if writing == {} {
        assert WritingSet(s) == writing;
        assert forall m | m in disk.files && disk.files[m].dir == Writing :: m in writing;
        return None;
      }
      var n := OldestOf(writing);
      assert forall m | m in s.files && s.files[m].dir == Writing :: m in writing;
      disk.files := disk.files[n := disk.files[n].(dir := Reading)];
      pc := Chosen(n);
      return Some(n);
    }

    /** The least of some names: the first of them in sorted order. */
    static method OldestOf(names: set<Name>) returns (oldest: Name)
      requires names != {}
      ensures oldest in names && forall m | m in names :: oldest <= m
    {
      oldest :| oldest in names;
      var rest := names;
      while rest != {}
        invariant rest <= names && oldest in names
        invariant forall m | m in names && m !in rest :: oldest <= m
        decreases |rest|
      {
        var m :| m in rest;
        if m < oldest {
          oldest := m;
        }
        rest := rest - {m};
      }
    }

    /** Discards an orphaned tracker, or opens the data file and its tracker and skips the consumed lines. */
    method Open(disk: Disk, ghost world: State)
      requires pc.Chosen? && pc.n in disk.files
      modifies this`pc, disk`files
      ensures Within(world, disk) == Opened(old(Within(world, disk)))
    {
      var n := pc.n;
      var f := disk.files[n];
      if f.dir != Reading {
        disk.files := disk.files[n := f.(tracker := None)];
        pc := Choosing;
        return;
      }
      var tracker := if f.tracker.None? then f.(tracker := Some(0)) else f;
      disk.files := disk.files[n := tracker];
      pc := AtLine(n, tracker.tracker.value);
    }
  }
}
