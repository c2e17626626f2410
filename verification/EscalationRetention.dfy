// The retention sweep: age-based deletion over every directory that the queue writes.

module EscalationRetention {
  import opened QueueTypes
  import opened QueueFiles
  import opened EscalationSystem

  /** What the paths in these directories are: an image, a queue file, a tracking file, or something else. */
  datatype Path = ImagePath(image: Image) | QueuePath(n: Name) | TrackerPath(n: Name) | OtherPath(name: string)

  datatype Entry = Entry(isFile: bool, modified: int)

  /** A directory that the sweep visits. Opening or removing some of its entries may fail. */
  class Directory {
    const present: bool
    const readable: bool
    var entries: map<Path, Entry>
    const stuck: set<Path>

    constructor (present: bool, readable: bool, entries: map<Path, Entry>, stuck: set<Path>)
      ensures this.present == present && this.readable == readable && this.entries == entries && this.stuck == stuck
    {
      this.present := present;
      this.readable := readable;
      this.entries := entries;
      this.stuck := stuck;
    }
  }

  /** The sweep removes this entry. */
  predicate Expires(e: Entry, now: int) { e.isFile && e.modified < now - RETENTION }

  /** What the sweep leaves of a directory. */
  function Kept(entries: map<Path, Entry>, stuck: set<Path>, now: int): (left: map<Path, Entry>)
    ensures forall p :: p in left <==> p in entries && (entries[p].isFile && entries[p].modified + RETENTION < now ==> p in stuck)
    ensures forall p | p in left :: left[p] == entries[p]
  {
    map p | p in entries && (!Expires(entries[p], now) || p in stuck) :: entries[p]
  }

  /**
   * Deletes from every directory exactly the files older than the retention window, whatever their
   * meaning; a missing or unreadable directory, and a file that cannot be removed, stop nothing else.
   */
  method PruneExpiredQueueData(dirs: seq<Directory>, now: int)
    requires forall i, j | 0 <= i < j < |dirs| :: dirs[i] != dirs[j]
    modifies dirs
    ensures forall d | d in dirs ::
              d.entries == if d.present && d.readable then Kept(old(d.entries), d.stuck, now) else old(d.entries)
  {
    var i := 0;
    while i < |dirs|
      invariant 0 <= i <= |dirs|
      invariant forall k | 0 <= k < i ::
                  dirs[k].entries == if dirs[k].present && dirs[k].readable
                                     then Kept(old(dirs[k].entries), dirs[k].stuck, now) else old(dirs[k].entries)
      invariant forall k | i <= k < |dirs| :: dirs[k].entries == old(dirs[k].entries)
    {
      if dirs[i].present && dirs[i].readable {
        PruneDirectory(dirs[i], now);
      }
      i := i + 1;
    }
  }

  method PruneDirectory(dir: Directory, now: int)
    modifies dir`entries
    ensures dir.entries == Kept(old(dir.entries), dir.stuck, now)
  {
    var paths := dir.entries.Keys;
    ghost var was := dir.entries;
    while paths != {}
      invariant paths <= was.Keys
      invariant forall p | p in dir.entries :: p in was && dir.entries[p] == was[p]
      invariant forall p | p in paths :: p in dir.entries
      invariant forall p | p in was && p !in paths ::
                  p in dir.entries <==> !Expires(was[p], now) || p in dir.stuck
      decreases |paths|
    {
      var p :| p in paths;
      paths := paths - {p};
      if p in dir.entries && dir.entries[p].isFile && p !in dir.stuck {
        if dir.entries[p].modified < now - RETENTION {
          dir.entries := dir.entries - {p};
        }
      }
    }
  }

  // ---- the sweep of the images inside the system ----

  /** The images that a sweep starting now removes. */
  function ExpiredImages(images: map<Image, nat>, now: nat): set<Image> {
    set image | image in images && images[image] + RETENTION < now
  }

  function Swept(s: Sys, gone: set<Image>): Sys {
    s.(env := s.env.(images := s.env.images - gone, swept := s.env.swept + gone))
  }

  lemma SweptOneMore(s: Sys, image: Image, start: nat, gone: set<Image>)
    requires image in gone && Can(s, Around(SweepImage(image, start)))
    ensures Swept(Next(s, Around(SweepImage(image, start))), gone - {image}) == Swept(s, gone)
  {
    assert s.env.images - {image} - (gone - {image}) == s.env.images - gone;
    assert s.env.swept + {image} + (gone - {image}) == s.env.swept + gone;
  }

  lemma {:induction false} SweepOf(s: Sys, gone: set<Image>, start: nat) returns (steps: seq<SysStep>)
    requires start <= s.env.clock
    requires forall image | image in gone :: image in s.env.images && s.env.images[image] + RETENTION < start
    ensures Steps(s, steps) && After(s, steps) == Swept(s, gone) && forall st | st in steps :: st.Around?
    decreases |gone|
  {
    if gone == {} {
      steps := [];
      assert s.env.images - {} == s.env.images;
    } else {
      var image :| image in gone;
      var st := Around(SweepImage(image, start));
      SweptOneMore(s, image, start, gone);
      var rest := SweepOf(Next(s, st), gone - {image}, start);
      steps := [st] + rest;
      assert steps[1..] == rest;
    }
  }

  /**
   * A sweep of the image directory is a run of the system: it removes exactly the images written longer
   * than the retention window before it started, and touches nothing else that the system shows.
   */
  lemma SweepIsRun(s: Sys, start: nat) returns (steps: seq<SysStep>)
    requires start <= s.env.clock
    ensures Steps(s, steps) && After(s, steps) == Swept(s, ExpiredImages(s.env.images, start))
    ensures forall st | st in steps :: st.Around?
  {
    steps := SweepOf(s, ExpiredImages(s.env.images, start), start);
  }

  // ---- the sweep of the queue's own directories inside the system ----

  /** The files once these data files were swept. */
  function DataSwept(q: State, gone: set<Name>): State {
    q.(files := map n | n in q.files :: if n in gone then DoSweepData(q, n).files[n] else q.files[n])
  }

  /** The files once these tracking files were swept. */
  function TrackersSwept(q: State, gone: set<Name>): State {
    q.(files := map n | n in q.files :: if n in gone then DoSweepTracker(q, n).files[n] else q.files[n])
  }

  lemma DataOneMore(q: State, n: Name, gone: set<Name>)
    requires n in gone && n in q.files
    ensures DataSwept(DoSweepData(q, n), gone - {n}) == DataSwept(q, gone)
  {
    assert DataSwept(DoSweepData(q, n), gone - {n}).files == DataSwept(q, gone).files;
  }

  lemma TrackersOneMore(q: State, n: Name, gone: set<Name>)
    requires n in gone && n in q.files
    ensures TrackersSwept(DoSweepTracker(q, n), gone - {n}) == TrackersSwept(q, gone)
  {
    var q1 := DoSweepTracker(q, n);
    forall m | m in q.files && m != n
      ensures DoSweepTracker(q1, m).files[m] == DoSweepTracker(q, m).files[m]
    {
    }
    assert TrackersSwept(q1, gone - {n}).files == TrackersSwept(q, gone).files;
  }

  /** A sweep of data files, whichever of those on disk have expired, is a run of the system. */
  lemma {:induction false} DataSweepIsRun(s: Sys, gone: set<Name>) returns (steps: seq<SysStep>)
    requires forall n | n in gone :: n in s.q.files && s.q.files[n].dir != Unlinked
    ensures Steps(s, steps) && After(s, steps) == s.(q := DataSwept(s.q, gone))
    ensures forall st | st in steps :: st.Queue? && st.st.SweepData?
    decreases |gone|
  {
    if gone == {} {
      steps := [];
      assert DataSwept(s.q, {}).files == s.q.files;
    } else {
      var n :| n in gone;
      DataOneMore(s.q, n, gone);
      var rest := DataSweepIsRun(Next(s, Queue(SweepData(n))), gone - {n});
      steps := [Queue(SweepData(n))] + rest;
      assert steps[1..] == rest;
    }
  }

  /** So is a sweep of tracking files of files that were moved longer than the window ago. */
  lemma {:induction false} TrackerSweepIsRun(s: Sys, gone: set<Name>) returns (steps: seq<SysStep>)
    requires forall n | n in gone :: Tracked(s.q, n) && n in s.env.movedAt && s.env.movedAt[n] + RETENTION < s.env.clock
    ensures Steps(s, steps) && After(s, steps) == s.(q := TrackersSwept(s.q, gone))
    ensures forall st | st in steps :: st.Queue? && st.st.SweepTracker? && st.st.n in gone
    decreases |gone|
  {
    if gone == {} {
      steps := [];
      assert TrackersSwept(s.q, {}).files == s.q.files;
    } else {
      var n :| n in gone;
      TrackersOneMore(s.q, n, gone);
      var rest := TrackerSweepIsRun(Next(s, Queue(SweepTracker(n))), gone - {n});
      steps := [Queue(SweepTracker(n))] + rest;
      assert steps[1..] == rest;
    }
  }
}
