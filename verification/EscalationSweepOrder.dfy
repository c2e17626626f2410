// The order of one sweep: it removes the expired images before it comes to the tracking files, against the
// same cutoff. An image is written before its line and its line before the file is moved, so a sweep whose
// removals succeed takes a tracker only when the images of that file's lines are gone.

module EscalationSweepOrder {
  import opened QueueTypes
  import opened QueueFiles
  import opened QueueInvariant
  import opened EscalationSystem
  import opened EscalationBase
  import opened EscalationImages
  import opened EscalationExpiry
  import opened EscalationLeftover
  import opened EscalationDuplicates
  import Retention = EscalationRetention

  /** The sweep that started at this time has gone through the images: none is left that was too old then. */
  ghost predicate SweptThrough(v: Env, start: nat) {
    start <= v.clock && forall image | image in v.images :: v.images[image] + RETENTION >= start
  }

  /** File n was moved too long before this time, so a sweep that started then removes its tracker. */
  predicate Stale(v: Env, n: Name, start: nat) { n in v.movedAt && v.movedAt[n] + RETENTION < start }

  /** If the step sweeps a tracker, it belongs to a sweep that has gone through the images. */
  ghost predicate ImagesFirst(s: Sys, st: SysStep) {
    st.Queue? && st.st.SweepTracker? ==> exists start :: Stale(s.env, st.st.n, start) && SweptThrough(s.env, start)
  }

  ghost predicate ImagesFirstSteps(s: Sys, steps: seq<SysStep>)
    requires Steps(s, steps)
    decreases |steps|
  {
    steps == [] || (ImagesFirst(s, steps[0]) && ImagesFirstSteps(Next(s, steps[0]), steps[1..]))
  }

  /** Once a sweep has gone through the images, that stays so, whatever is written meanwhile. */
  lemma SweptThroughStays(s: Sys, st: SysStep, start: nat)
    requires Can(s, st) && SweptThrough(s.env, start)
    ensures SweptThrough(Next(s, st).env, start)
  {
  }

  // ---- images of moved files ----

  /** The lines whose image, if it is there, was written by then. */
  ghost function ImagedBy(images: map<Image, nat>, at: nat): iset<Line> {
    iset l: Line | l.image in images ==> images[l.image] <= at
  }

  /** Every line that is in a moved file, or still on its way there, has its image from before the move. */
  ghost predicate MovesOk(q: State, v: Env) {
    forall n | n in v.movedAt :: MovedIn(q, n, ImagedBy(v.images, v.movedAt[n]))
  }

  lemma FewerLines(q: State, n: Name, lines: iset<Line>, lines': iset<Line>)
    requires MovedIn(q, n, lines)
    requires forall j | 0 <= j < |q.files[n].lines| :: q.files[n].lines[j] in lines'
    requires HeldOpen(q, n) ==> q.writers[q.files[n].owner].pc.line in lines'
    ensures MovedIn(q, n, lines')
  {
  }

  /** A line that is in a file, or on its way there, has its image already. */
  lemma NoNewImage(s: Sys, w: WriterId, at: nat, l: Line)
    requires BaseOk(s) && ImagesOk(s.env, s.log.settled, s.q.writers) && CanEnv(s.env, WriteImage(w))
    requires IsWritten(s.q, l) && l in ImagedBy(s.env.images, at)
    ensures l in ImagedBy(DoEnv(s.env, WriteImage(w)).images, at)
  {
    assert WriterImages(s.env, s.log.settled, l.writer, s.q.writers[l.writer]);
  }

  /** Its writer appended the line or is about to. */
  ghost predicate IsWritten(q: State, l: Line) {
    l.writer in q.writers
    && (l in q.writers[l.writer].written || (q.writers[l.writer].pc.Busy() && q.writers[l.writer].pc.line == l))
  }

  lemma LinesAreWritten(q: State, n: Name)
    requires Inv(q) && n in q.files
    ensures forall j | 0 <= j < |q.files[n].lines| :: IsWritten(q, q.files[n].lines[j])
    ensures HeldOpen(q, n) ==> IsWritten(q, q.writers[q.files[n].owner].pc.line)
  {
    assert FileOk(q, n) && WriterOk(q, q.files[n].owner);
  }

  lemma MovesWrite(s: Sys, w: WriterId, n: Name, at: nat)
    requires BaseOk(s) && ImagesOk(s.env, s.log.settled, s.q.writers) && CanEnv(s.env, WriteImage(w))
    requires MovedIn(s.q, n, ImagedBy(s.env.images, at))
    ensures MovedIn(s.q, n, ImagedBy(DoEnv(s.env, WriteImage(w)).images, at))
  {
    LinesAreWritten(s.q, n);
    forall l | IsWritten(s.q, l) && l in ImagedBy(s.env.images, at)
      ensures l in ImagedBy(DoEnv(s.env, WriteImage(w)).images, at)
    {
      NoNewImage(s, w, at, l);
    }
    FewerLines(s.q, n, ImagedBy(s.env.images, at), ImagedBy(DoEnv(s.env, WriteImage(w)).images, at));
  }

  /** Fewer images, with the times they had. */
  lemma MovesFewer(q: State, n: Name, images: map<Image, nat>, images': map<Image, nat>, at: nat)
    requires MovedIn(q, n, ImagedBy(images, at))
    requires forall image | image in images' :: image in images && images'[image] == images[image]
    ensures MovedIn(q, n, ImagedBy(images', at))
  {
  }

  lemma MovesEnv(s: Sys, e: EnvStep)
    requires SysOk(s) && MovesOk(s.q, s.env) && CanEnv(s.env, e)
    ensures MovesOk(s.q, DoEnv(s.env, e))
  {
    var v' := DoEnv(s.env, e);
    forall n | n in v'.movedAt
      ensures MovedIn(s.q, n, ImagedBy(v'.images, v'.movedAt[n]))
    {
      if e.WriteImage? {
        MovesWrite(s, e.w, n, s.env.movedAt[n]);
      } else {
        MovesFewer(s.q, n, s.env.images, v'.images, s.env.movedAt[n]);
      }
    }
  }

  /** A file being moved now holds only lines with images from before. */
  lemma MovingNow(s: Sys)
    requires SysOk(s) && s.q.reader.Renaming? && s.q.files[s.q.reader.n].dir == Writing
    ensures MovedIn(DoRename(s.q), s.q.reader.n, ImagedBy(s.env.images, s.env.clock))
  {
    LinesAreWritten(s.q, s.q.reader.n);
    forall l | IsWritten(s.q, l)
      ensures l in ImagedBy(s.env.images, s.env.clock)
    {
      WrittenByNow(s, l);
    }
    MovingLines(s.q, ImagedBy(s.env.images, s.env.clock));
  }

  lemma WrittenByNow(s: Sys, l: Line)
    requires ImagesOk(s.env, s.log.settled, s.q.writers) && IsWritten(s.q, l)
    ensures l in ImagedBy(s.env.images, s.env.clock)
  {
    assert WriterImages(s.env, s.log.settled, l.writer, s.q.writers[l.writer]);
  }

  lemma MovingLines(q: State, lines: iset<Line>)
    requires q.reader.Renaming? && q.reader.n in q.files && q.files[q.reader.n].dir == Writing
    requires forall j | 0 <= j < |q.files[q.reader.n].lines| :: q.files[q.reader.n].lines[j] in lines
    requires HeldOpen(q, q.reader.n) ==> q.writers[q.files[q.reader.n].owner].pc.line in lines
    ensures MovedIn(DoRename(q), q.reader.n, lines)
  {
  }

  lemma MovesQueueOne(s: Sys, st: Step, n: Name)
    requires SysOk(s) && MovesOk(s.q, s.env) && Allowed(s, st) && n in EnvWith(s, st, Do(s.q, st)).movedAt
    ensures MovedIn(Do(s.q, st), n, ImagedBy(s.env.images, EnvWith(s, st, Do(s.q, st)).movedAt[n]))
  {
    MovesFile(s, st);
    if Moves(s.q, st) && n == s.q.reader.n {
      MovingNow(s);
    } else {
      MovedStep(s.q, st, n, ImagedBy(s.env.images, s.env.movedAt[n]));
    }
  }

  lemma MovesQueue(s: Sys, st: Step)
    requires SysOk(s) && MovesOk(s.q, s.env) && Allowed(s, st)
    ensures MovesOk(DoQueue(s, st).q, DoQueue(s, st).env)
  {
    var v' := EnvWith(s, st, Do(s.q, st));
    SameImages(s, st);
    forall n | n in v'.movedAt
      ensures MovedIn(Do(s.q, st), n, ImagedBy(v'.images, v'.movedAt[n]))
    {
      MovesQueueOne(s, st, n);
    }
  }

  lemma MovesConsume(s: Sys, c: ConsumerStep, l: Line)
    requires MovesOk(s.q, s.env) && CanConsume(s, c, l)
    ensures MovesOk(s.q, DoConsume(s, c, l).env)
  {
    forall n | n in s.env.movedAt
      ensures MovedIn(s.q, n, ImagedBy(EnvAfter(s, c, l).images, s.env.movedAt[n]))
    {
      MovesFewer(s.q, n, s.env.images, EnvAfter(s, c, l).images, s.env.movedAt[n]);
    }
  }

  lemma MovesStep(s: Sys, st: SysStep)
    requires SysOk(s) && MovesOk(s.q, s.env) && Can(s, st)
    ensures MovesOk(Next(s, st).q, Next(s, st).env)
  {
    match st {
      case Around(e) => MovesEnv(s, e);
      case Consume(c) => MovesConsume(s, c, CurrentLine(s.q));
      case Queue(f) => MovesQueue(s, f);
    }
  }

  // ---- so such a sweep does no harm ----

  /** When the tracker of a file goes, the images of its lines have gone. */
  lemma ImagesGoFirst(s: Sys, st: SysStep)
    requires SysOk(s) && MovesOk(s.q, s.env) && Can(s, st) && ImagesFirst(s, st)
    ensures Harmless(s, st)
  {
    if st.Queue? && Rewinds(s.q, st.st) {
      var n := st.st.n;
      var start :| Stale(s.env, n, start) && SweptThrough(s.env, start);
      assert MovedIn(s.q, n, ImagedBy(s.env.images, s.env.movedAt[n]));
      forall j
        ensures !LeftAt(s.q.files[n], s.log.settled, s.env.images, j)
      {
        assert 0 <= j < |s.q.files[n].lines| ==> s.q.files[n].lines[j] in ImagedBy(s.env.images, s.env.movedAt[n]);
      }
    }
  }

  lemma {:induction false} OrderedIsHarmless(s: Sys, steps: seq<SysStep>)
    requires SysOk(s) && MovesOk(s.q, s.env) && Steps(s, steps) && ImagesFirstSteps(s, steps)
    ensures HarmlessSteps(s, steps)
    decreases |steps|
  {
    if steps != [] {
      ImagesGoFirst(s, steps[0]);
      SysStepKeeps(s, steps[0]);
      MovesStep(s, steps[0]);
      OrderedIsHarmless(Next(s, steps[0]), steps[1..]);
    }
  }

  /**
   * Bounded duplication, whenever the sweep comes: if every sweep that takes a tracker has removed all the
   * images that were too old when it started, the cloud acknowledges at most one submission of a queued line,
   * plus one for each crash between such an acknowledgement and the caching of the id.
   */
  lemma BoundedIfImagesFirst(ids: set<WriterId>, steps: seq<SysStep>, l: Line)
    requires Steps(InitSys(ids), steps) && ImagesFirstSteps(InitSys(ids), steps)
    ensures After(InitSys(ids), steps).log.submitted[l] <= 1 + Forgotten(InitSys(ids), steps, l)
  {
    SysStart(ids);
    OrderedIsHarmless(InitSys(ids), steps);
    BoundedDuplication(ids, steps, l);
  }

  // ---- the sweep as the program makes it ----

  lemma {:induction false} JoinedOrder(s: Sys, a: seq<SysStep>, b: seq<SysStep>)
    requires Steps(s, a) && Steps(After(s, a), b) && ImagesFirstSteps(s, a) && ImagesFirstSteps(After(s, a), b)
    ensures Steps(s, a + b) && After(s, a + b) == After(After(s, a), b) && ImagesFirstSteps(s, a + b)
    decreases |a|
  {
    if a == [] {
      assert a + b == b;
    } else {
      assert (a + b)[1..] == a[1..] + b;
      JoinedOrder(Next(s, a[0]), a[1..], b);
    }
  }

  ghost predicate TakesNoTracker(st: SysStep) { !(st.Queue? && st.st.SweepTracker?) }

  lemma {:induction false} NoTrackerTaken(s: Sys, steps: seq<SysStep>)
    requires Steps(s, steps) && forall st | st in steps :: TakesNoTracker(st)
    ensures ImagesFirstSteps(s, steps)
    decreases |steps|
  {
    if steps != [] {
      assert TakesNoTracker(steps[0]) && forall st | st in steps[1..] :: st in steps;
      NoTrackerTaken(Next(s, steps[0]), steps[1..]);
    }
  }

  /** After the images, the trackers of stale files may go. */
  lemma {:induction false} TrackersInOrder(s: Sys, steps: seq<SysStep>, start: nat)
    requires Steps(s, steps) && SweptThrough(s.env, start)
    requires forall st | st in steps :: st.Queue? && st.st.SweepTracker? && Stale(s.env, st.st.n, start)
    ensures ImagesFirstSteps(s, steps)
    decreases |steps|
  {
    if steps != [] {
      assert steps[0] in steps && forall st | st in steps[1..] :: st in steps;
      SweepLeavesEnv(s, steps[0].st);
      TrackersInOrder(Next(s, steps[0]), steps[1..], start);
    }
  }

  lemma SweepLeavesEnv(s: Sys, st: Step)
    requires Allowed(s, st) && st.SweepTracker?
    ensures DoQueue(s, st).env == s.env
  {
  }

  /** What a whole sweep leaves: of the images those that are young enough, and these files and trackers fewer. */
  ghost function WhollySwept(s: Sys, start: nat, data: set<Name>, trackers: set<Name>): Sys {
    Retention.Swept(s, Retention.ExpiredImages(s.env.images, start))
      .(q := Retention.TrackersSwept(Retention.DataSwept(s.q, data), trackers))
  }

  lemma ThroughImages(s: Sys, start: nat)
    requires start <= s.env.clock
    ensures SweptThrough(Retention.Swept(s, Retention.ExpiredImages(s.env.images, start)).env, start)
  {
  }

  lemma StillTracked(q: State, data: set<Name>, n: Name)
    requires Tracked(q, n)
    ensures Tracked(Retention.DataSwept(q, data), n)
  {
  }

  /**
   * A sweep all of whose removals succeed is a run of the system: images, queue files and trackers in this
   * order and against one cutoff. Its trackers go after the images, as the theorem above asks.
   */
  lemma WholeSweepIsRun(s: Sys, start: nat, data: set<Name>, trackers: set<Name>) returns (steps: seq<SysStep>)
    requires start <= s.env.clock && forall n | n in data :: n in s.q.files && s.q.files[n].dir != Unlinked
    requires forall n | n in trackers :: Tracked(s.q, n) && Stale(s.env, n, start)
    ensures Steps(s, steps) && After(s, steps) == WhollySwept(s, start, data, trackers) && ImagesFirstSteps(s, steps)
  {
    var first := Retention.SweepIsRun(s, start);
    var s1 := After(s, first);
    ThroughImages(s, start);
    var second := Retention.DataSweepIsRun(s1, data);
    var s2 := After(s1, second);
    forall n | n in trackers
      ensures Tracked(s2.q, n) && Stale(s2.env, n, start)
    {
      StillTracked(s.q, data, n);
    }
    var third := Retention.TrackerSweepIsRun(s2, trackers);
    NoTrackerTaken(s, first);
    NoTrackerTaken(s1, second);
    TrackersInOrder(s2, third, start);
    JoinedOrder(s, first, second);
    JoinedOrder(s, first + second, third);
    steps := first + second + third;
  }
}
