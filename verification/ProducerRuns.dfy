// Queueing an escalation as a run of the system: the timestamp, then the image, then
// the line.

module ProducerRuns {
  import opened QueueTypes
  import opened QueueFiles
  import opened QueueInvariant
  import opened EscalationSystem
  import opened EscalationImages
  import opened WriterRuns

  /** The file steps as steps of the whole system. */
  function Lift(steps: seq<Step>): seq<SysStep>
    decreases |steps|
  {
    if steps == [] then [] else [Queue(steps[0])] + Lift(steps[1..])
  }

  ghost predicate MidCall(st: Step) { ByWriter(st) && !st.Start? }

  lemma {:induction false} LiftedRun(s: Sys, steps: seq<Step>)
    requires Valid(s.q, steps) && forall st | st in steps :: MidCall(st)
    ensures Steps(s, Lift(steps)) && After(s, Lift(steps)) == s.(q := Run(s.q, steps))
    decreases |steps|
  {
    if steps != [] {
      assert MidCall(steps[0]);
      LiftedStep(s, steps[0]);
      LiftedRun(Next(s, Queue(steps[0])), steps[1..]);
      assert Lift(steps)[1..] == Lift(steps[1..]);
    }
  }

  lemma LiftedStep(s: Sys, st: Step)
    requires Enabled(s.q, st) && MidCall(st)
    ensures Can(s, Queue(st)) && Next(s, Queue(st)) == s.(q := Do(s.q, st))
  {
  }

  lemma CallThenMidCall(q: State, w: WriterId, line: Line, newName: Name, fault: Fault)
    requires w in q.writers
    ensures var steps := CallSteps(q, w, line, newName, fault);
            steps != [] && steps[0] == Step.Start(w, line) && forall st | st in steps[1..] :: MidCall(st)
  {
  }

  // ---- image paths ----

  /** Every image there was written under a path that its writer has used up. */
  ghost predicate Drawn(images: map<Image, nat>, attempts: map<WriterId, nat>) {
    forall image | image in images :: image.writer in attempts && image.attempt < attempts[image.writer]
  }

  /** So it is in every run: the path of the next image of a writer was never used. */
  lemma ImagesAreDrawn(v: Env, settled: set<Line>, writers: map<WriterId, Writer>)
    requires ImagesOk(v, settled, writers)
    ensures Drawn(v.images, v.attempts)
  {
  }

  /** The system once writer w has stamped its next escalation and written its image. */
  function Prepared(s: Sys, w: WriterId): Sys
    requires w in s.env.drafts && w in s.env.attempts
  {
    var image := Image(w, s.env.attempts[w]);
    s.(env := s.env.(images := s.env.images[image := s.env.clock], attempts := s.env.attempts[w := s.env.attempts[w] + 1],
                     drafts := s.env.drafts[w := Imaged(s.env.clock, image)]))
  }

  /** The system after one call: the image is there, and the line is queued unless its write failed. */
  function Queued(s: Sys, w: WriterId, line: Line, newName: Name, fault: Fault): Sys
    requires w in s.env.drafts && w in s.env.attempts && w in s.q.writers
  {
    var p := Prepared(s, w);
    p.(q := AfterCall(s.q, w, line, newName, fault), env := p.env.(drafts := s.env.drafts[w := NoDraft]))
  }

  lemma PreparedRun(s: Sys, w: WriterId)
    requires w in s.env.drafts && w in s.env.attempts && s.env.drafts[w].NoDraft?
    ensures var stamped := Next(s, Around(Stamp(w)));
            && Can(s, Around(Stamp(w))) && Can(stamped, Around(WriteImage(w)))
            && Next(stamped, Around(WriteImage(w))) == Prepared(s, w)
  {
    assert s.env.drafts[w := Stamped(s.env.clock)][w := Imaged(s.env.clock, Image(w, s.env.attempts[w]))]
           == s.env.drafts[w := Imaged(s.env.clock, Image(w, s.env.attempts[w]))];
  }

  /** From the image on: the call of the writer as steps of the system. */
  lemma WriteRun(s: Sys, w: WriterId, line: Line, newName: Name, fault: Fault) returns (steps: seq<SysStep>)
    requires Inv(s.q) && Enabled(s.q, Step.Start(w, line)) && FreshName(s.q, w, newName)
    requires w in s.env.drafts && s.env.drafts[w] == Imaged(line.queuedAt, line.image)
    ensures Steps(s, steps)
    ensures After(s, steps) ==
            s.(q := AfterCall(s.q, w, line, newName, fault), env := s.env.(drafts := s.env.drafts[w := NoDraft]))
  {
    var calls := CallSteps(s.q, w, line, newName, fault);
    CallIsRun(s.q, w, line, newName, fault);
    CallThenMidCall(s.q, w, line, newName, fault);
    var s1 := Next(s, Queue(Step.Start(w, line)));
    LiftedRun(s1, calls[1..]);
    steps := [Queue(Step.Start(w, line))] + Lift(calls[1..]);
    assert steps[1..] == Lift(calls[1..]);
  }

  /** Stamp, image and line with nothing in between are a run of the system. */
  lemma QueuedRun(s: Sys, w: WriterId, line: Line, newName: Name, fault: Fault) returns (steps: seq<SysStep>)
    requires Inv(s.q) && Enabled(s.q, Step.Start(w, line)) && FreshName(s.q, w, newName)
    requires w in s.env.drafts && w in s.env.attempts && s.env.drafts[w].NoDraft?
    requires line.queuedAt == s.env.clock && line.image == Image(w, s.env.attempts[w])
    ensures Steps(s, steps) && After(s, steps) == Queued(s, w, line, newName, fault)
  {
    PreparedRun(s, w);
    var p := Prepared(s, w);
    var rest := WriteRun(p, w, line, newName, fault);
    var stamped := Next(s, Around(Stamp(w)));
    assert p.env.drafts[w := NoDraft] == s.env.drafts[w := NoDraft];
    steps := [Around(WriteImage(w))] + rest;
    assert steps[1..] == rest;
    assert Steps(stamped, steps) && After(stamped, steps) == After(p, rest);
    var all := [Around(Stamp(w))] + steps;
    assert all[1..] == steps;
    steps := all;
  }

  lemma OneStep(s: Sys, st: SysStep)
    requires Can(s, st)
    ensures Steps(s, [st]) && After(s, [st]) == Next(s, st)
  {
    var rest := [st][1..];
    assert rest == [];
    assert Steps(Next(s, st), rest) && After(Next(s, st), rest) == Next(s, st);
  }

  /** A call whose image cannot be written leaves everything as it was. */
  lemma AbandonedRun(s: Sys, w: WriterId) returns (steps: seq<SysStep>)
    requires w in s.env.drafts && s.env.drafts[w].NoDraft?
    ensures Steps(s, steps) && After(s, steps) == s
  {
    var stamped, drop := Next(s, Around(Stamp(w))), Around(DropDraft(w));
    assert s.env.drafts[w := Stamped(s.env.clock)][w := NoDraft] == s.env.drafts;
    assert Next(stamped, drop) == s;
    OneStep(stamped, drop);
    steps := [Around(Stamp(w))] + [drop];
    assert steps[1..] == [drop];
  }
}
