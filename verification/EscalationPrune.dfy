// The retention sweep over the directories of the escalation queue is a run of the
// system: what it leaves in them is what the system shows afterwards.

module EscalationPrune {
  import opened QueueTypes
  import opened QueueFiles
  import opened EscalationSystem
  import opened EscalationRetention
  import opened EscalationSweepOrder
  import ConsumerRuns

  // ---- directories that show a system ----

  /** The image directory: every image with its time. */
  ghost predicate ImageEntries(entries: map<Path, Entry>, images: map<Image, nat>) {
    forall image ::
      && (ImagePath(image) in entries <==> image in images)
      && (image in images ==> entries[ImagePath(image)] == Entry(true, images[image]))
  }

  /** A queue directory: the files that are in it. */
  ghost predicate QueueEntries(entries: map<Path, Entry>, q: State, d: Dir) {
    forall n ::
      && (QueuePath(n) in entries <==> InDir(q, n, d))
      && (InDir(q, n, d) ==> entries[QueuePath(n)].isFile)
  }

  /** The tracking files, which are no older than the move of their file. */
  ghost predicate TrackerEntries(entries: map<Path, Entry>, s: Sys) {
    forall n ::
      && (TrackerPath(n) in entries <==> Tracked(s.q, n))
      && (Tracked(s.q, n) ==> TrackedSince(entries[TrackerPath(n)], s.env, n))
  }

  predicate TrackedSince(e: Entry, v: Env, n: Name) { e.isFile && n in v.movedAt && v.movedAt[n] <= e.modified }

  /** The entries of the directories for images, for files being written, and for files being read. */
  ghost predicate ShowsEntries(s: Sys, images: map<Path, Entry>, writing: map<Path, Entry>, reading: map<Path, Entry>) {
    && ImageEntries(images, s.env.images) && QueueEntries(writing, s.q, Writing)
    && QueueEntries(reading, s.q, Reading) && TrackerEntries(reading, s)
  }

  /** A sweep can list the directory. */
  ghost predicate Listed(d: Directory) { d.present && d.readable }

  // ---- what a sweep removes ----

  /** Some of the entries are gone; of the files of the system, those were written before the window. */
  ghost predicate Pruned(before: map<Path, Entry>, left: map<Path, Entry>, now: nat) {
    && (forall p | p in left :: p in before && left[p] == before[p])
    && (forall p | p in before && p !in left :: before[p].isFile && before[p].modified + RETENTION < now)
  }

  function GoneImages(v: Env, left: map<Path, Entry>): set<Image> {
    set image | image in v.images && ImagePath(image) !in left
  }

  function GoneData(q: State, writing: map<Path, Entry>, reading: map<Path, Entry>): set<Name> {
    set n | n in q.files && ((q.files[n].dir == Writing && QueuePath(n) !in writing)
                             || (q.files[n].dir == Reading && QueuePath(n) !in reading))
  }

  function GoneTrackers(q: State, reading: map<Path, Entry>): set<Name> {
    set n | n in q.files && q.files[n].tracker.Some? && TrackerPath(n) !in reading
  }

  /** The system after such a sweep. */
  ghost function SystemLeft(s: Sys, images: map<Path, Entry>, writing: map<Path, Entry>, reading: map<Path, Entry>): Sys {
    EscalationRetention.Swept(s, GoneImages(s.env, images))
      .(q := TrackersSwept(DataSwept(s.q, GoneData(s.q, writing, reading)), GoneTrackers(s.q, reading)))
  }

  lemma LeftFiles(q: State, data: set<Name>, trackers: set<Name>, n: Name, d: Dir)
    requires d != Unlinked
    ensures var q' := TrackersSwept(DataSwept(q, data), trackers);
            && (InDir(q', n, d) <==> InDir(q, n, d) && n !in data)
            && (Tracked(q', n) <==> Tracked(q, n) && n !in trackers)
  {
  }

  lemma LeftImages(v: Env, images: map<Path, Entry>, left: map<Path, Entry>, now: nat)
    requires ImageEntries(images, v.images) && Pruned(images, left, now)
    ensures ImageEntries(left, v.images - GoneImages(v, left))
    ensures forall image | image in GoneImages(v, left) :: v.images[image] + RETENTION < now
  {
    forall image | image in v.images && ImagePath(image) !in left
      ensures v.images[image] + RETENTION < now
    {
      assert ImagePath(image) in images;
    }
  }

  lemma LeftQueue(q: State, q': State, d: Dir, entries: map<Path, Entry>, left: map<Path, Entry>, now: nat)
    requires QueueEntries(entries, q, d) && Pruned(entries, left, now)
    requires forall n :: InDir(q', n, d) <==> InDir(q, n, d) && QueuePath(n) in left
    ensures QueueEntries(left, q', d)
  {
  }

  lemma LeftTrackers(s: Sys, s': Sys, entries: map<Path, Entry>, left: map<Path, Entry>, now: nat)
    requires TrackerEntries(entries, s) && Pruned(entries, left, now) && s'.env.movedAt == s.env.movedAt
    requires forall n :: Tracked(s'.q, n) <==> Tracked(s.q, n) && TrackerPath(n) in left
    ensures TrackerEntries(left, s')
    ensures forall n | Tracked(s.q, n) && TrackerPath(n) !in left :: Stale(s.env, n, now)
  {
    forall n | Tracked(s.q, n) && TrackerPath(n) !in left
      ensures Stale(s.env, n, now)
    {
      assert TrackerPath(n) in entries && TrackedSince(entries[TrackerPath(n)], s.env, n);
    }
  }

  /** What is left shows the system that is left. */
  lemma LeftIsShown(s: Sys, images: map<Path, Entry>, writing: map<Path, Entry>, reading: map<Path, Entry>,
                    images': map<Path, Entry>, writing': map<Path, Entry>, reading': map<Path, Entry>, now: nat)
    requires ShowsEntries(s, images, writing, reading)
    requires Pruned(images, images', now) && Pruned(writing, writing', now) && Pruned(reading, reading', now)
    ensures ShowsEntries(SystemLeft(s, images', writing', reading'), images', writing', reading')
    ensures forall image | image in GoneImages(s.env, images') :: s.env.images[image] + RETENTION < now
    ensures forall n | n in GoneTrackers(s.q, reading') :: Tracked(s.q, n) && Stale(s.env, n, now)
  {
    var s' := SystemLeft(s, images', writing', reading');
    forall n
      ensures InDir(s'.q, n, Writing) <==> InDir(s.q, n, Writing) && QueuePath(n) in writing'
      ensures InDir(s'.q, n, Reading) <==> InDir(s.q, n, Reading) && QueuePath(n) in reading'
      ensures Tracked(s'.q, n) <==> Tracked(s.q, n) && TrackerPath(n) in reading'
    {
      LeftFiles(s.q, GoneData(s.q, writing', reading'), GoneTrackers(s.q, reading'), n, Writing);
      LeftFiles(s.q, GoneData(s.q, writing', reading'), GoneTrackers(s.q, reading'), n, Reading);
    }
    LeftImages(s.env, images, images', now);
    LeftQueue(s.q, s'.q, Writing, writing, writing', now);
    LeftQueue(s.q, s'.q, Reading, reading, reading', now);
    LeftTrackers(s, s', reading, reading', now);
  }

  /** Whatever part of what has expired is removed, it is removed by steps of the system. */
  lemma PartSweepIsRun(s: Sys, start: nat, images: set<Image>, data: set<Name>, trackers: set<Name>) returns (steps: seq<SysStep>)
    requires start <= s.env.clock
    requires forall image | image in images :: image in s.env.images && s.env.images[image] + RETENTION < start
    requires forall n | n in data :: n in s.q.files && s.q.files[n].dir != Unlinked
    requires forall n | n in trackers :: Tracked(s.q, n) && Stale(s.env, n, start)
    ensures Steps(s, steps)
    ensures After(s, steps) == EscalationRetention.Swept(s, images).(q := TrackersSwept(DataSwept(s.q, data), trackers))
  {
    var first := SweepOf(s, images, start);
    var s1 := EscalationRetention.Swept(s, images);
    var second := DataSweepIsRun(s1, data);
    var s2 := s1.(q := DataSwept(s1.q, data));
    forall n | n in trackers
      ensures Tracked(s2.q, n) && Stale(s2.env, n, start)
    {
      StillTracked(s.q, data, n);
    }
    var third := TrackerSweepIsRun(s2, trackers);
    ConsumerRuns.Joined(s, first, second);
    ConsumerRuns.Joined(s, first + second, third);
    steps := first + second + third;
  }

  /** What a sweep leaves of a directory that it can list, or cannot. */
  function LeftOf(entries: map<Path, Entry>, listed: bool, stuck: set<Path>, now: nat): map<Path, Entry> {
    if listed then Kept(entries, stuck, now) else entries
  }

  lemma LeftIsPruned(entries: map<Path, Entry>, listed: bool, stuck: set<Path>, now: nat)
    ensures Pruned(entries, LeftOf(entries, listed, stuck, now), now)
  {
  }

  /** Which images are gone. */
  lemma GoneImagesAre(v: Env, images: map<Path, Entry>, listed: bool, stuck: set<Path>, now: nat)
    requires ImageEntries(images, v.images)
    ensures var gone := GoneImages(v, LeftOf(images, listed, stuck, now));
            && (forall image :: image in gone <==>
                  image in v.images && v.images[image] + RETENTION < now && listed && ImagePath(image) !in stuck)
            && (listed && stuck == {} ==> gone == ExpiredImages(v.images, now))
  {
  }

  /** The steps of a sweep that leaves these entries. */
  lemma EntriesSweptIsRun(s: Sys, images: map<Path, Entry>, writing: map<Path, Entry>, reading: map<Path, Entry>,
                          images': map<Path, Entry>, writing': map<Path, Entry>, reading': map<Path, Entry>, now: nat)
    returns (steps: seq<SysStep>)
    requires ShowsEntries(s, images, writing, reading) && now <= s.env.clock
    requires Pruned(images, images', now) && Pruned(writing, writing', now) && Pruned(reading, reading', now)
    ensures Steps(s, steps) && After(s, steps) == SystemLeft(s, images', writing', reading')
    ensures GoneImages(s.env, images') == ExpiredImages(s.env.images, now) ==> ImagesFirstSteps(s, steps)
  {
    LeftIsShown(s, images, writing, reading, images', writing', reading', now);
    var gone, data, trackers := GoneImages(s.env, images'), GoneData(s.q, writing', reading'), GoneTrackers(s.q, reading');
    if gone == ExpiredImages(s.env.images, now) {
      steps := WholeSweepIsRun(s, now, data, trackers);
    } else {
      steps := PartSweepIsRun(s, now, gone, data, trackers);
    }
  }

  // ---- the sweep ----

  /** The sweep of the image directory alone, as the lemma about the system has it. */
  method PruneImages(dir: Directory, now: nat, ghost s: Sys) returns (ghost steps: seq<SysStep>)
    requires ImageEntries(dir.entries, s.env.images) && dir.stuck == {} && now <= s.env.clock
    modifies dir`entries
    ensures Steps(s, steps) && After(s, steps) == EscalationRetention.Swept(s, ExpiredImages(s.env.images, now))
    ensures ImageEntries(dir.entries, After(s, steps).env.images)
  {
    PruneDirectory(dir, now);
    steps := SweepIsRun(s, now);
  }

  /**
   * The sweep over all directories is a run of the system. An image is gone exactly if it was written longer than
   * the window before the sweep and can be removed. If the images can all be listed and removed, the run is one
   * that takes the images before the trackers, as the bound on duplicates asks.
   */
  method PruneQueue(images: Directory, writing: Directory, reading: Directory, failed: Directory, now: nat, ghost s: Sys)
    returns (ghost steps: seq<SysStep>, ghost s': Sys)
    requires images != writing && images != reading && images != failed && writing != reading && writing != failed && reading != failed
    requires ShowsEntries(s, images.entries, writing.entries, reading.entries) && now <= s.env.clock
    modifies images, writing, reading, failed
    ensures Steps(s, steps) && After(s, steps) == s'
    ensures ShowsEntries(s', images.entries, writing.entries, reading.entries)
    ensures forall image | image in s.env.images ::
              image !in s'.env.images <==>
              s.env.images[image] + RETENTION < now && Listed(images) && ImagePath(image) !in images.stuck
    ensures forall d | d in [images, writing, reading, failed] :: d.entries == LeftOf(old(d.entries), Listed(d), d.stuck, now)
    ensures Listed(images) && images.stuck == {} ==> ImagesFirstSteps(s, steps)
  {
    ghost var before, beforeW, beforeR := images.entries, writing.entries, reading.entries;
    var dirs := [images, writing, reading, failed];
    PruneExpiredQueueData(dirs, now);
    assert dirs[0] == images && dirs[1] == writing && dirs[2] == reading;
    LeftIsPruned(before, Listed(images), images.stuck, now);
    LeftIsPruned(beforeW, Listed(writing), writing.stuck, now);
    LeftIsPruned(beforeR, Listed(reading), reading.stuck, now);
    GoneImagesAre(s.env, before, Listed(images), images.stuck, now);
    LeftIsShown(s, before, beforeW, beforeR, images.entries, writing.entries, reading.entries, now);
    steps := EntriesSweptIsRun(s, before, beforeW, beforeR, images.entries, writing.entries, reading.entries, now);
    s' := SystemLeft(s, images.entries, writing.entries, reading.entries);
  }
}
