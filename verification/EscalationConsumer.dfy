// One turn of the consumer of queued escalations.

module EscalationConsumer {
  import opened Collections
  import opened QueueTypes
  import opened QueueFiles
  import opened EscalationSystem
  import opened EscalationRetry
  import opened ConsumerRuns
  import opened RequestCacheModel

  /** The directories of the consumer other than the cache: images with their times, and failure records. */
  class ConsumerDisk {
    var images: map<Image, nat>
    var records: seq<Record>

    constructor (images: map<Image, nat>, records: seq<Record>)
      ensures this.images == images && this.records == records
    {
      this.images := images;
      this.records := records;
    }
  }

  /** The directories are those of the system s. */
  ghost predicate Shows(s: Sys, disk: ConsumerDisk, cache: RequestCache)
    reads disk, cache
  {
    disk.images == s.env.images && disk.records == s.log.records && cache.window == s.cache
    && cache.maxEntries == CACHE_MAX_ENTRIES && cache.Valid()
  }

  /** What becomes of the line. */
  function Verdict(s: Sys, l: Line, answers: seq<Answer>): Option<Outcome> {
    var there := l.image in s.env.images;
    var last := Decisive(answers, there);
    if l.form.Garbled? then Some(Recorded)
    else if l.request in s.cache then Some(Duplicate)
    else if last.None? then None else Some(OutcomeOf(AttemptOf(last.value, there), l, s.env.clock))
  }

  /** The attempt that ended it got as far as the image and missed it. */
  predicate MissedImage(s: Sys, l: Line, answers: seq<Answer>) {
    var there := l.image in s.env.images;
    l.request !in s.cache && Decisive(answers, there).Some? && Misses(Decisive(answers, there).value, there)
  }

  /** Handles a line that parses. */
  method HandleReadable(disk: ConsumerDisk, cache: RequestCache, l: Line, answers: seq<Answer>, now: nat, touched: int,
                        ghost s: Sys)
    returns (outcome: Option<Outcome>, ghost steps: seq<SysStep>, ghost s': Sys)
    requires Shows(s, disk, cache) && InHand(s.q) && l == CurrentLine(s.q) && Readable(s) && now == s.env.clock
    requires forall other | other in cache.entries :: cache.entries[other] < touched
    modifies disk, cache
    ensures ConsumerRun(s, steps, s') && Shows(s', disk, cache)
    ensures outcome.Some? ==> Handled(s, s', l, outcome.value, MissedImage(s, l, answers))
    ensures outcome.None? ==> s' == s.(consumer := Submitting)
    ensures outcome == Verdict(s, l, answers)
    ensures forall id | id in cache.entries :: cache.entries[id] <= touched
  {
    var cached := cache.Contains(l.request);
    var o := Duplicate;
    if cached {
      steps, s' := DuplicateRun(s);
    } else {
      var result, retries, _, _ := ConsumeQueuedEscalation(answers, l.image in disk.images);
      if result.None? {
        steps, s' := AttemptsRun(s, answers, retries);
        return None, steps, s';
      }
      steps, s' := HandledRun(s, answers, retries);
      if result.value.Success? {
        o := Submitted;
      } else if l.form.Proper? && now >= l.queuedAt + RETENTION {
        o := Dropped;
      } else {
        o := Recorded;
        disk.records := disk.records + [Record(l, now, Misses(answers[retries], l.image in disk.images))];
      }
    }
    cache.Add(l.request, touched);
    disk.images := disk.images - {l.image};
    return Some(o), steps, s';
  }

  /**
   * One turn of the consumer's loop. `answers` is what the attempts meet, `now` the clock
   * and `touched` the modification time that a new cache entry gets. With nothing in between, the turn is a
   * run of the system's consumer steps; it ends with the line handled, or with attempts still to come.
   */
  method HandleEscalation(disk: ConsumerDisk, cache: RequestCache, l: Line, answers: seq<Answer>, now: nat, touched: int,
                          ghost s: Sys)
    returns (outcome: Option<Outcome>, ghost steps: seq<SysStep>, ghost s': Sys)
    requires Shows(s, disk, cache) && InHand(s.q) && l == CurrentLine(s.q) && s.consumer.Checking? && now == s.env.clock
    requires forall other | other in cache.entries :: cache.entries[other] < touched
    modifies disk, cache
    ensures ConsumerRun(s, steps, s') && Shows(s', disk, cache)
    ensures outcome.Some? ==> if l.form.Garbled? then Rejected(s, s', l) else Handled(s, s', l, outcome.value, MissedImage(s, l, answers))
    ensures outcome.None? ==> s' == s.(consumer := Submitting)
    ensures outcome == Verdict(s, l, answers)
    ensures forall id | id in cache.entries :: cache.entries[id] <= touched
  {
    if l.form.Garbled? {
      steps, s' := RejectedRun(s);
      disk.records := disk.records + [Record(l, now, false)];
      return Some(Recorded), steps, s';
    }
    outcome, steps, s' := HandleReadable(disk, cache, l, answers, now, touched, s);
  }
}
