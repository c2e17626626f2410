// The whole escalation queue: the file protocol, the images, the cache of request
// ids, the consumer of the reader and the retention sweep, under one clock.

module EscalationSystem {
  import opened QueueTypes
  import opened QueueFiles
  import RequestWindow

  /** A queued escalation older than this has expired (QUEUE_RETENTION_DAYS, in the unit of the clock). */
  const RETENTION: nat := 7 * 24 * 3600
  const CACHE_MAX_ENTRIES: nat := 15

  datatype Outcome = Submitted | Duplicate | Recorded | Dropped

  /** Where the consumer is with the line it was handed. */
  datatype ConsumerPc =
    | Resting
    | Checking
    | Submitting                // about to make an attempt: to get a client, and to read the image
    | Calling                   // the image is read, the cloud has not answered yet
    | Failing(missing: bool)     // the escalation failed for good; `missing` if its image was not there
    | Evicting(outcome: Outcome) // about to look the id up and to make room for it in the cache
    | Touching(outcome: Outcome) // about to create the cache entry
    | Removing(outcome: Outcome) // about to unlink the image
    | Done(outcome: Outcome)

  /** What a writer has prepared of its next escalation. */
  datatype Draft = NoDraft | Stamped(at: nat) | Imaged(at: nat, image: Image)

  /** A failure record; `at` is the time of the expiry check that led to it, or of the failed parse. */
  datatype Record = Record(line: Line, at: nat, missing: bool)

  /** The clock, the image files with their modification times, and what the writers are preparing. */
  datatype Env = Env(
    clock: nat,
    images: map<Image, nat>,
    swept: set<Image>,          // history: images removed by the sweep
    drafts: map<WriterId, Draft>,
    attempts: map<WriterId, nat>, // images written so far by each writer
    movedAt: map<Name, nat>)    // history: when the reader moved each file

  /** What became of the lines; history. */
  datatype Log = Log(
    submitted: multiset<Line>,  // submissions that the cloud acknowledged
    lostAcks: multiset<Line>,   // those forgotten by a crash before the id was cached
    settled: set<Line>,         // lines whose id was put in the cache, or found there, at the end of their handling
    credited: set<Line>,        // those settled by an acknowledged submission
    records: seq<Record>,
    dropped: set<Line>,         // lines that failed after they had expired
    outcomes: map<Line, Outcome>) // the outcome under which the reader counted a line

  /** `cache` holds the cached request ids, oldest first. */
  datatype Sys = Sys(q: State, env: Env, cache: seq<RequestId>, consumer: ConsumerPc, log: Log)

  datatype EnvStep =
    | Tick(ticks: nat) | Stamp(w: WriterId) | WriteImage(w: WriterId) | DropDraft(w: WriterId)
    | SweepImage(image: Image, start: nat)

  datatype ConsumerStep =
    | Reject | CheckCache | ReadImage | SubmitOk | SubmitRetry | SubmitRefused | SubmitMissing | Judge | Evict | Touch | RemoveImage

  datatype SysStep = Around(e: EnvStep) | Consume(c: ConsumerStep) | Queue(st: Step)

  function InitSys(ids: set<WriterId>): Sys {
    Sys(Init(ids), Env(0, map[], {}, map w | w in ids :: NoDraft, map w | w in ids :: 0, map[]), [], Resting,
        Log(multiset{}, multiset{}, {}, {}, [], {}, map[]))
  }

  predicate InHand(q: State) {
    AtYield(q.reader) && HeldLine(q)
  }

  predicate PastWindow(l: Line, now: nat) { now >= l.queuedAt + RETENTION }

  /** The consumer sees that the line is past the window. */
  predicate Expired(l: Line, now: nat) { l.form.Proper? && PastWindow(l, now) }

  // ---- the environment: clock, images, drafts, image sweep ----

  predicate CanEnv(v: Env, e: EnvStep) {
    match e
    case Tick(_) => true
    case Stamp(w) => w in v.drafts && v.drafts[w].NoDraft?
    case WriteImage(w) => w in v.drafts && w in v.attempts && v.drafts[w].Stamped?
    case DropDraft(w) => w in v.drafts
    case SweepImage(image, start) => image in v.images && start <= v.clock && v.images[image] + RETENTION < start
  }

  function DoEnv(v: Env, e: EnvStep): Env
    requires CanEnv(v, e)
  {
    match e
    case Tick(ticks) => v.(clock := v.clock + ticks)
    case Stamp(w) => v.(drafts := v.drafts[w := Stamped(v.clock)])
    case WriteImage(w) =>
      var image := Image(w, v.attempts[w]);
      v.(images := v.images[image := v.clock], attempts := v.attempts[w := v.attempts[w] + 1],
         drafts := v.drafts[w := Imaged(v.drafts[w].at, image)])
    case DropDraft(w) => v.(drafts := v.drafts[w := NoDraft])
    case SweepImage(image, _) => v.(images := v.images - {image}, swept := v.swept + {image})
  }

  // ---- the consumer of the reader's lines ----

  /** The step is one that the consumer can take with line l in hand. */
  predicate CanConsume(s: Sys, c: ConsumerStep, l: Line) {
    match c
    case Reject => s.consumer.Checking? && l.form.Garbled?
    case CheckCache => s.consumer.Checking? && !l.form.Garbled?
    case ReadImage => s.consumer.Submitting? && l.image in s.env.images
    case SubmitOk => s.consumer.Calling?
    case SubmitRetry => s.consumer.Submitting? || s.consumer.Calling? // no client, or an answer of the cloud
    case SubmitRefused => s.consumer.Submitting? || s.consumer.Calling?
    case SubmitMissing => s.consumer.Submitting? && l.image !in s.env.images
    case Judge => s.consumer.Failing?
    case Evict => s.consumer.Evicting?
    case Touch => s.consumer.Touching?
    case RemoveImage => s.consumer.Removing?
  }

  function ConsumerAfter(s: Sys, c: ConsumerStep, l: Line): ConsumerPc
    requires CanConsume(s, c, l)
  {
    match c
    case Reject => Done(Recorded)
    case CheckCache => if l.request in s.cache then Evicting(Duplicate) else Submitting
    case ReadImage => Calling
    case SubmitOk => Evicting(Submitted)
    case SubmitRetry => Submitting
    case SubmitRefused => Failing(false)
    case SubmitMissing => Failing(true)
    case Judge => Evicting(if Expired(l, s.env.clock) then Dropped else Recorded)
    case Evict => if l.request in s.cache then Removing(s.consumer.outcome) else Touching(s.consumer.outcome)
    case Touch => Removing(s.consumer.outcome)
    case RemoveImage => Done(s.consumer.outcome)
  }

  function CacheAfter(s: Sys, c: ConsumerStep, l: Line): seq<RequestId> {
    if c.Evict? && l.request !in s.cache then RequestWindow.MakeRoom(s.cache, CACHE_MAX_ENTRIES)
    else if c.Touch? then s.cache + [l.request]
    else s.cache
  }

  function LogAfter(s: Sys, c: ConsumerStep, l: Line): Log
    requires CanConsume(s, c, l)
  {
    var g := s.log;
    if c.Reject? then g.(records := g.records + [Record(l, s.env.clock, false)])
    else if c.SubmitOk? then g.(submitted := g.submitted + multiset{l})
    else if c.Judge? then
      if Expired(l, s.env.clock) then g.(dropped := g.dropped + {l})
      else g.(records := g.records + [Record(l, s.env.clock, s.consumer.missing)])
    else if c.Evict? && l.request in s.cache then g.(settled := g.settled + {l})
    else if c.Touch? then
      g.(settled := g.settled + {l}, credited := if s.consumer.outcome.Submitted? then g.credited + {l} else g.credited)
    else g
  }

  function EnvAfter(s: Sys, c: ConsumerStep, l: Line): Env {
    if c.RemoveImage? then s.env.(images := s.env.images - {l.image}) else s.env
  }

  function DoConsume(s: Sys, c: ConsumerStep, l: Line): Sys
    requires CanConsume(s, c, l)
  {
    Sys(s.q, EnvAfter(s, c, l), CacheAfter(s, c, l), ConsumerAfter(s, c, l), LogAfter(s, c, l))
  }

  // ---- the file protocol inside the system ----

  /** What the rest of the system adds to the guard of a file step. */
  predicate Allowed(s: Sys, st: Step) {
    && Enabled(s.q, st)
    && (st.Start? ==>
          st.w in s.env.drafts && s.env.drafts[st.w] == Imaged(st.line.queuedAt, st.line.image))
    && (st.Ack? ==> s.consumer.Done?)
    && (st.SweepTracker? ==> st.n in s.env.movedAt && s.env.movedAt[st.n] + RETENTION < s.env.clock)
  }

  /** A crash of the reader process at this point forgets an acknowledged submission. */
  predicate AckAtRisk(s: Sys) {
    InHand(s.q) && (s.consumer == Evicting(Submitted) || s.consumer == Touching(Submitted))
  }

  function ConsumerWith(s: Sys, st: Step, q: State): ConsumerPc {
    if st.ReadLine? || st.LastLine? then if AtYield(q.reader) then Checking else s.consumer
    else if st.Ack? || st.Crash? then Resting
    else s.consumer
  }

  function EnvWith(s: Sys, st: Step, q: State): Env {
    if st.Start? then s.env.(drafts := s.env.drafts[st.w := NoDraft])
    else if st.Rename? && q.reader.Chosen? then s.env.(movedAt := s.env.movedAt[q.reader.n := s.env.clock])
    else s.env
  }

  function LogWith(s: Sys, st: Step): Log {
    if st.Ack? && InHand(s.q) && s.consumer.Done? then
      s.log.(outcomes := s.log.outcomes[CurrentLine(s.q) := s.consumer.outcome])
    else if st.Crash? && AckAtRisk(s) then s.log.(lostAcks := s.log.lostAcks + multiset{CurrentLine(s.q)})
    else s.log
  }

  function DoQueue(s: Sys, st: Step): Sys
    requires Allowed(s, st)
  {
    var q := Do(s.q, st);
    Sys(q, EnvWith(s, st, q), s.cache, ConsumerWith(s, st, q), LogWith(s, st))
  }

  // ---- all steps ----

  predicate Can(s: Sys, st: SysStep) {
    match st
    case Around(e) => CanEnv(s.env, e)
    case Consume(c) => InHand(s.q) && CanConsume(s, c, CurrentLine(s.q))
    case Queue(f) => Allowed(s, f)
  }

  function Next(s: Sys, st: SysStep): Sys
    requires Can(s, st)
  {
    match st
    case Around(e) => s.(env := DoEnv(s.env, e))
    case Consume(c) => DoConsume(s, c, CurrentLine(s.q))
    case Queue(f) => DoQueue(s, f)
  }

  predicate Steps(s: Sys, steps: seq<SysStep>)
    decreases |steps|
  {
    steps == [] || (Can(s, steps[0]) && Steps(Next(s, steps[0]), steps[1..]))
  }

  function After(s: Sys, steps: seq<SysStep>): Sys
    requires Steps(s, steps)
    decreases |steps|
  {
    if steps == [] then s else After(Next(s, steps[0]), steps[1..])
  }
}
