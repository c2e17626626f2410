// Queueing an escalation, whatever fails on the way.

module EscalationProducer {
  import opened QueueTypes
  import opened QueueFiles
  import opened QueueInvariant
  import opened EscalationSystem
  import opened WriterRuns
  import opened QueueProcesses
  import opened ProducerRuns

  /** The image directory, and how many images each writer has put there under names of its own. */
  class ImageDirectory {
    var images: map<Image, nat>
    var attempts: map<WriterId, nat>

    ghost predicate Valid()
      reads this
    {
      Drawn(images, attempts)
    }

    constructor (images: map<Image, nat>, attempts: map<WriterId, nat>)
      requires Drawn(images, attempts)
      ensures Valid() && this.images == images && this.attempts == attempts
    {
      this.images := images;
      this.attempts := attempts;
    }

    /** Writes an image to a new path. */
    method WriteImageBytes(w: WriterId, now: nat) returns (path: Image)
      requires Valid() && w in attempts
      modifies this
      ensures Valid() && path == Image(w, old(attempts)[w]) && path !in old(images)
      ensures images == old(images)[path := now] && attempts == old(attempts)[w := old(attempts)[w] + 1]
    {
      path := Image(w, attempts[w]);
      images := images[path := now];
      attempts := attempts[w := attempts[w] + 1];
    }
  }

  /** The objects are those of the system s, and the writer is between two calls. */
  ghost predicate Shows(s: Sys, writer: QueueWriter, disk: Disk, dir: ImageDirectory)
    reads writer, disk, dir
  {
    && writer.id in s.q.writers && writer.Within(s.q, disk) == s.q
    && dir.Valid() && dir.images == s.env.images && dir.attempts == s.env.attempts
    && writer.id in s.env.drafts && s.env.drafts[writer.id].NoDraft? && writer.id in s.env.attempts
  }

  lemma CanStart(q: State, w: WriterId, line: Line)
    requires w in q.writers && q.writers[w].pc.Idle? && line.writer == w && line.serial == |q.writers[w].written|
    ensures Enabled(q, Step.Start(w, line))
  {
  }

  lemma NameIsFree(q: State, n: Name)
    requires Inv(q) && n !in q.used
    ensures n !in q.files
  {
    assert n in q.files ==> FileOk(q, n);
  }

  /** A state that shows a writer's objects shows them in itself. */
  lemma WithinItself(writer: QueueWriter, disk: Disk, world: State, q: State)
    requires writer.Within(world, disk) == q
    ensures writer.Within(q, disk) == q
  {
    assert q.writers[writer.id := q.writers[writer.id]] == q.writers;
  }

  /**
   * Queues an escalation and never fails its caller. With nothing in between, the call is a run of the
   * system, in which the image is on disk before the line is: if the image cannot be written nothing
   * changes, and if the line cannot be written the image stays behind.
   */
  method WriteEscalationToQueue(writer: QueueWriter, disk: Disk, dir: ImageDirectory, request: RequestId, now: nat,
                                newName: Name, imageFails: bool, fault: Fault, ghost s: Sys)
    returns (ghost steps: seq<SysStep>, ghost s': Sys)
    requires Shows(s, writer, disk, dir) && Inv(s.q) && FreshName(s.q, writer.id, newName) && now == s.env.clock
    modifies writer, disk, dir
    ensures Steps(s, steps) && After(s, steps) == s' && Shows(s', writer, disk, dir)
    ensures var id := writer.id;
            var line := Line(id, |s.q.writers[id].written|, request, Image(id, s.env.attempts[id]), now, Proper);
            s' == if imageFails then s else Queued(s, id, line, newName, fault)
  {
    if imageFails {
      steps := AbandonedRun(s, writer.id);
      return steps, s;
    }
    var path := dir.WriteImageBytes(writer.id, now);
    var line := Line(writer.id, |writer.written|, request, path, now, Proper);
    steps, s' := LineQueued(s, writer.id, line, newName, fault);
    var ok := writer.WriteEscalation(disk, line, newName, fault, s.q);
    assert writer.Within(s.q, disk) == s'.q;
    WithinItself(writer, disk, s.q, s'.q);
  }

  lemma LineQueued(s: Sys, w: WriterId, line: Line, newName: Name, fault: Fault) returns (steps: seq<SysStep>, s': Sys)
    requires Inv(s.q) && FreshName(s.q, w, newName) && w in s.q.writers && s.q.writers[w].pc.Idle?
    requires w in s.env.drafts && w in s.env.attempts && s.env.drafts[w].NoDraft?
    requires line.writer == w && line.serial == |s.q.writers[w].written|
    requires line.queuedAt == s.env.clock && line.image == Image(w, s.env.attempts[w])
    ensures Steps(s, steps) && After(s, steps) == s' && s' == Queued(s, w, line, newName, fault)
    ensures Enabled(s.q, Step.Start(w, line)) && newName !in s.q.files
  {
    CanStart(s.q, w, line);
    steps := QueuedRun(s, w, line, newName, fault);
    s' := Queued(s, w, line, newName, fault);
    NameIsFree(s.q, newName);
  }
}
