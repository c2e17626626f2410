// The process that reads the escalation queue: a line from the reader, then its handling,
// and again.

module EscalationLoop {
  import opened Collections
  import opened QueueTypes
  import opened QueueFiles
  import opened QueueProcesses
  import opened EscalationSystem
  import opened EscalationBase
  import opened EscalationRetry
  import opened EscalationConsumer
  import opened ConsumerRuns
  import opened RequestCacheModel
  import opened ProducerRuns
  import opened ReaderLift

  /** What happens around one turn: the time that passes before it, what the attempts meet, and the time of a new cache entry. */
  datatype Turn = Turn(ticks: nat, answers: seq<Answer>, touched: int)

  /** The objects are those of the system s, and nothing is half done. */
  ghost predicate ShowsAll(s: Sys, reader: QueueReader, disk: Disk, dirs: ConsumerDisk, cache: RequestCache)
    reads reader, disk, dirs, cache
  {
    BaseOk(s) && Shows(s, dirs, cache) && reader.Within(s.q, disk) == s.q && reader.Suspended() && Returned(s)
  }

  /** New cache entries are younger than all others. */
  ghost predicate Increasing(turns: seq<Turn>) {
    forall i, j | 0 <= i < j < |turns| :: turns[i].touched < turns[j].touched
  }

  lemma {:induction false} BaseRun(s: Sys, steps: seq<SysStep>)
    requires BaseOk(s) && Steps(s, steps)
    ensures BaseOk(After(s, steps))
    decreases |steps|
  {
    if steps != [] {
      BaseStep(s, steps[0]);
      BaseRun(Next(s, steps[0]), steps[1..]);
    }
  }

  function Later(s: Sys, ticks: nat): Sys { s.(env := s.env.(clock := s.env.clock + ticks)) }

  lemma TickRun(s: Sys, ticks: nat) returns (steps: seq<SysStep>)
    requires BaseOk(s)
    ensures Steps(s, steps) && After(s, steps) == Later(s, ticks) && BaseOk(Later(s, ticks))
  {
    OneStep(s, Around(Tick(ticks)));
    BaseStep(s, Around(Tick(ticks)));
    steps := [Around(Tick(ticks))];
  }

  lemma ReaderItself(reader: QueueReader, disk: Disk, world: State, q: State)
    requires reader.Within(world, disk) == q
    ensures reader.Within(q, disk) == q
  {
  }

  // ---- what one turn does ----

  /** The attempt number k is the first that is not to be repeated. */
  predicate EndsAt(answers: seq<Answer>, there: bool, k: nat) {
    k < |answers| && AllRetried(answers, there, k) && !Retried(AttemptOf(answers[k], there))
  }

  /** Some attempt is not to be repeated. */
  predicate Decide(answers: seq<Answer>, there: bool) {
    exists k: nat | k < |answers| :: !Retried(AttemptOf(answers[k], there))
  }

  /** The line is still being retried when the answers end. */
  predicate StillRetried(s: Sys, l: Line, answers: seq<Answer>) {
    !l.form.Garbled? && l.request !in s.cache && !Decide(answers, l.image in s.env.images)
  }

  /** The log and the directories of the consumer stay as they are. */
  ghost predicate Untouched(s: Sys, s': Sys) {
    && s'.env.images == s.env.images && s'.cache == s.cache && s'.log.submitted == s.log.submitted
    && s'.log.records == s.log.records && s'.log.dropped == s.log.dropped
  }

  /** The id is cached and the image is gone. */
  ghost predicate Settled(s: Sys, s': Sys, l: Line) {
    && l.request in s'.cache && s'.env.images == s.env.images - {l.image}
    && s'.cache == RequestWindow.Add(s.cache, l.request, CACHE_MAX_ENTRIES)
  }

  /** The attempt a ended the attempts for line l: a submission, an expired escalation, or a failure record. */
  ghost predicate EndedBy(s: Sys, s': Sys, l: Line, a: Answer) {
    var there := l.image in s.env.images;
    var ok := AttemptOf(a, there) == Success;
    var expired := !ok && l.form.Proper? && s.env.clock >= l.queuedAt + RETENTION;
    && s'.log.submitted == s.log.submitted + (if ok then multiset{l} else multiset{})
    && s'.log.dropped == s.log.dropped + (if expired then {l} else {})
    && s'.log.records == s.log.records + (if ok || expired then [] else [Record(l, s.env.clock, a.Cloud? && !there)])
  }

  /** What a turn that is handed line l makes of it. */
  ghost predicate LineTurn(s: Sys, s': Sys, l: Line, answers: seq<Answer>) {
    if l.form.Garbled? then
      Untouched(s, s'.(log := s'.log.(records := s.log.records)))
      && s'.log.records == s.log.records + [Record(l, s.env.clock, false)]
    else if l.request in s.cache then
      Settled(s, s', l) && s'.log.submitted == s.log.submitted && s'.log.records == s.log.records && s'.log.dropped == s.log.dropped
    else if StillRetried(s, l, answers) then Untouched(s, s')
    else Settled(s, s', l) && forall k: nat | EndsAt(answers, l.image in s.env.images, k) :: EndedBy(s, s', l, answers[k])
  }

  /** The reader goes on towards an empty queue, unless it waits in one. */
  ghost predicate GoesOn(s: Sys, s': Sys) { QueueDelivery.Idle(s.q) || QueueDelivery.Closer(s.q, s'.q) }

  /** One turn: a line that it hands over and handles, or none, and then the reader waits. */
  ghost predicate TookTurn(s: Sys, s': Sys, line: Option<Line>, answers: seq<Answer>) {
    GoesOn(s, s')
    && if line.None? then s'.q.handed == s.q.handed && (s'.q.reader.AtEof? || QueueDelivery.Idle(s'.q)) && Untouched(s, s')
       else s'.q.handed == s.q.handed + [line.value] && LineTurn(s, s', line.value, answers)
  }

  lemma {:induction false} DecisiveIs(answers: seq<Answer>, there: bool)
    ensures Decisive(answers, there).Some? <==> Decide(answers, there)
    ensures Decide(answers, there) ==> exists k: nat :: EndsAt(answers, there, k)
    ensures forall k: nat | EndsAt(answers, there, k) :: Decisive(answers, there) == Some(answers[k])
  {
    if answers != [] {
      DecisiveIs(answers[1..], there);
      if Retried(AttemptOf(answers[0], there)) {
        forall k: nat | EndsAt(answers, there, k)
          ensures Decisive(answers, there) == Some(answers[k])
        {
          assert EndsAt(answers[1..], there, k - 1);
        }
        if Decide(answers[1..], there) {
          var k: nat :| EndsAt(answers[1..], there, k);
          assert EndsAt(answers, there, k + 1);
        }
        if k: nat :| k < |answers| && !Retried(AttemptOf(answers[k], there)) {
          assert !Retried(AttemptOf(answers[1..][k - 1], there));
        }
      } else {
        assert EndsAt(answers, there, 0);
        forall k: nat | EndsAt(answers, there, k)
          ensures k == 0
        {
        }
      }
    }
  }

  /** Handling a line has the effect of a turn on it. */
  lemma VerdictTurns(s: Sys, s': Sys, l: Line, answers: seq<Answer>, outcome: Option<Outcome>)
    requires outcome == Verdict(s, l, answers)
    requires outcome.Some? ==> if l.form.Garbled? then Rejected(s, s', l) else Handled(s, s', l, outcome.value, MissedImage(s, l, answers))
    requires outcome.None? ==> s' == s.(consumer := Submitting)
    ensures LineTurn(s, s', l, answers)
    ensures outcome.None? <==> StillRetried(s, l, answers)
  {
    DecisiveIs(answers, l.image in s.env.images);
  }

  lemma LiftedLine(s: Sys, taken: seq<Step>, q': State, line: Option<Line>)
    requires BaseOk(s) && Returned(s) && OneLine(s.q, taken) && (AtYield(s.q.reader) ==> taken != [])
    requires Run(s.q, taken) == q' && (line.Some? ==> AtYield(q'.reader))
    ensures Steps(s, Lift(taken)) && After(s, Lift(taken)).q == q' && BaseOk(After(s, Lift(taken)))
    ensures OnlyReader(s, After(s, Lift(taken)))
    ensures line.Some? ==> After(s, Lift(taken)).consumer == Checking
  {
    LiftedResumption(s, taken);
  }

  /** What the reader leaves behind when it is asked for the next line. */
  ghost predicate Asked(s: Sys, s': Sys, line: Option<Line>) {
    GoesOn(s, s') && if line.None? then !AtYield(s'.q.reader) && s'.q.handed == s.q.handed && (s'.q.reader.AtEof? || QueueDelivery.Idle(s'.q))
    else InHand(s'.q) && CurrentLine(s'.q) == line.value && s'.consumer == Checking && s'.q.handed == s.q.handed + [line.value]
  }

  /** Asks the reader for the next line. */
  method NextLine(reader: QueueReader, disk: Disk, dirs: ConsumerDisk, cache: RequestCache, ghost s: Sys)
    returns (line: Option<Line>, ghost steps: seq<SysStep>, ghost s': Sys)
    requires ShowsAll(s, reader, disk, dirs, cache)
    modifies reader, disk
    ensures Steps(s, steps) && After(s, steps) == s' && BaseOk(s') && OnlyReader(s, s') && Asked(s, s', line)
    ensures Shows(s', dirs, cache) && reader.Within(s'.q, disk) == s'.q && reader.Suspended()
  {
    ghost var taken: seq<Step>;
    line, taken := reader.Next(disk, s.q);
    ghost var q' := reader.Within(s.q, disk);
    LiftedLine(s, taken, q', line);
    steps, s' := Lift(taken), After(s, Lift(taken));
    ReaderItself(reader, disk, s.q, q');
  }

  /** Handles the line in hand: true unless it is still being retried. */
  method HandleLine(dirs: ConsumerDisk, cache: RequestCache, l: Line, turn: Turn, now: nat,
                    ghost s0: Sys, ghost before: seq<SysStep>, ghost s: Sys)
    returns (handled: bool, ghost steps: seq<SysStep>, ghost s': Sys)
    requires Steps(s0, before) && After(s0, before) == s
    requires BaseOk(s) && Shows(s, dirs, cache) && InHand(s.q) && l == CurrentLine(s.q) && s.consumer == Checking
    requires now == s.env.clock && forall id | id in cache.entries :: cache.entries[id] < turn.touched
    modifies dirs, cache
    ensures Steps(s0, steps) && After(s0, steps) == s' && s'.q == s.q && s'.env.clock == now && BaseOk(s')
    ensures Shows(s', dirs, cache) && (handled ==> Returned(s'))
    ensures LineTurn(s, s', l, turn.answers) && (handled <==> !StillRetried(s, l, turn.answers))
    ensures forall id | id in cache.entries :: cache.entries[id] <= turn.touched
  {
    var outcome;
    ghost var more;
    outcome, more, s' := HandleEscalation(dirs, cache, l, turn.answers, now, turn.touched, s);
    BaseRun(s, more);
    Joined(s0, before, more);
    VerdictTurns(s, s', l, turn.answers, outcome);
    handled, steps := outcome.Some?, before + more;
  }

  lemma SameTurn(s: Sys, t: Sys, s': Sys, l: Line, answers: seq<Answer>)
    requires OnlyReader(s, t) && LineTurn(t, s', l, answers)
    ensures LineTurn(s, s', l, answers) && (StillRetried(s, l, answers) <==> StillRetried(t, l, answers))
  {
  }

  /**
   * One turn of the loop: either the reader waits and nothing else changes, or one line is handed over and handled.
   * It goes on unless that line is still being retried, and the reader goes on towards an empty queue.
   */
  method OneTurn(reader: QueueReader, disk: Disk, dirs: ConsumerDisk, cache: RequestCache, turn: Turn, now: nat, ghost s: Sys)
    returns (line: Option<Line>, goesOn: bool, ghost steps: seq<SysStep>, ghost s': Sys)
    requires ShowsAll(s, reader, disk, dirs, cache) && now == s.env.clock
    requires forall id | id in cache.entries :: cache.entries[id] < turn.touched
    modifies reader, disk, dirs, cache
    ensures Steps(s, steps) && After(s, steps) == s' && s'.env.clock == now && BaseOk(s')
    ensures Shows(s', dirs, cache) && reader.Within(s'.q, disk) == s'.q && reader.Suspended()
    ensures goesOn ==> Returned(s')
    ensures TookTurn(s, s', line, turn.answers)
    ensures goesOn <==> line.None? || !StillRetried(s, line.value, turn.answers)
    ensures forall id | id in cache.entries :: cache.entries[id] <= turn.touched
  {
    line, steps, s' := NextLine(reader, disk, dirs, cache, s);
    goesOn := true;
    if line.Some? {
      ghost var t := s';
      goesOn, steps, s' := HandleLine(dirs, cache, line.value, turn, now, s, steps, s');
      SameTurn(s, t, s', line.value, turn.answers);
    }
  }

  /** One turn, after the time that passes before it. */
  method TimedTurn(reader: QueueReader, disk: Disk, dirs: ConsumerDisk, cache: RequestCache, turn: Turn, before: nat, ghost s: Sys)
    returns (line: Option<Line>, goesOn: bool, now: nat, ghost steps: seq<SysStep>, ghost s': Sys)
    requires ShowsAll(s, reader, disk, dirs, cache) && before == s.env.clock
    requires forall id | id in cache.entries :: cache.entries[id] < turn.touched
    modifies reader, disk, dirs, cache
    ensures Steps(s, steps) && After(s, steps) == s' && now == s'.env.clock && BaseOk(s')
    ensures Shows(s', dirs, cache) && reader.Within(s'.q, disk) == s'.q && reader.Suspended()
    ensures goesOn ==> Returned(s')
    ensures TookTurn(Later(s, turn.ticks), s', line, turn.answers)
    ensures goesOn <==> line.None? || !StillRetried(s, line.value, turn.answers)
    ensures forall id | id in cache.entries :: cache.entries[id] <= turn.touched
  {
    now := before + turn.ticks;
    ghost var tick := TickRun(s, turn.ticks);
    line, goesOn, steps, s' := OneTurn(reader, disk, dirs, cache, turn, now, Later(s, turn.ticks));
    Joined(s, tick, steps);
    steps := tick + steps;
  }

  // ---- what all turns do ----

  /** From states[0], one turn after the other: turn k hands over lines[k], if it hands over any. */
  ghost predicate Trail(states: seq<Sys>, lines: seq<Option<Line>>, turns: seq<Turn>) {
    && |states| == |lines| + 1 && |lines| <= |turns|
    && forall k | 0 <= k < |lines| :: TookTurn(Later(states[k], turns[k].ticks), states[k + 1], lines[k], turns[k].answers)
  }

  /** The line was submitted, or failed and was recorded or had expired. */
  ghost predicate HasOutcome(s: Sys, l: Line) {
    l in s.log.submitted || l in s.log.dropped || exists r :: r in s.log.records && r.line == l
  }

  /** Every line handed over has its outcome, unless its id was cached. */
  ghost predicate AllHandled(states: seq<Sys>, lines: seq<Option<Line>>, s: Sys)
    requires |states| == |lines| + 1
  {
    forall k | 0 <= k < |lines| && lines[k].Some? :: HasOutcome(s, lines[k].value) || lines[k].value.request in states[k].cache
  }

  /** The lines that the turns hand over. */
  function HandedBy(lines: seq<Option<Line>>): seq<Line> {
    if lines == [] then []
    else
      var last := lines[|lines| - 1];
      HandedBy(lines[..|lines| - 1]) + if last.Some? then [last.value] else []
  }

  lemma OutcomeLasts(s: Sys, s': Sys, line: Option<Line>, answers: seq<Answer>, l: Line)
    requires TookTurn(s, s', line, answers) && HasOutcome(s, l)
    ensures HasOutcome(s', l)
  {
    if line.Some? && !line.value.form.Garbled? && line.value.request !in s.cache && !StillRetried(s, line.value, answers) {
      DecisiveIs(answers, line.value.image in s.env.images);
    }
    if r :| r in s.log.records && r.line == l {
      assert r in s'.log.records;
    }
  }

  lemma OutcomeOfTurn(s: Sys, s': Sys, l: Line, answers: seq<Answer>)
    requires TookTurn(s, s', Some(l), answers) && !StillRetried(s, l, answers)
    ensures HasOutcome(s', l) || l.request in s.cache
  {
    if l.form.Garbled? {
      assert Record(l, s.env.clock, false) in s'.log.records;
    } else if l.request !in s.cache {
      var there := l.image in s.env.images;
      DecisiveIs(answers, there);
      var k: nat :| EndsAt(answers, there, k);
      assert EndedBy(s, s', l, answers[k]);
      var r := Record(l, s.env.clock, answers[k].Cloud? && !there);
      assert s'.log.records == s.log.records + [r] ==> r in s'.log.records;
    }
  }

  lemma HandledThen(states: seq<Sys>, lines: seq<Option<Line>>, ticks: nat, s': Sys, line: Option<Line>, answers: seq<Answer>)
    requires |states| == |lines| + 1 && AllHandled(states, lines, states[|lines|])
    requires TookTurn(Later(states[|lines|], ticks), s', line, answers)
    requires line.None? || !StillRetried(states[|lines|], line.value, answers)
    ensures AllHandled(states + [s'], lines + [line], s')
  {
    var before := Later(states[|lines|], ticks);
    forall k | 0 <= k < |lines| + 1 && (lines + [line])[k].Some?
      ensures HasOutcome(s', (lines + [line])[k].value) || (lines + [line])[k].value.request in (states + [s'])[k].cache
    {
      if k == |lines| {
        OutcomeOfTurn(before, s', line.value, answers);
      } else if HasOutcome(states[|lines|], lines[k].value) {
        OutcomeLasts(before, s', line, answers, lines[k].value);
      }
    }
  }

  /** The turns so far are a run that ends in the last of the states and hands over these lines. */
  ghost predicate Ran(s: Sys, steps: seq<SysStep>, states: seq<Sys>, lines: seq<Option<Line>>, turns: seq<Turn>) {
    && Trail(states, lines, turns) && states[0] == s
    && Steps(s, steps) && After(s, steps) == states[|lines|]
    && states[|lines|].q.handed == s.q.handed + HandedBy(lines)
  }

  lemma RanThen(s: Sys, steps: seq<SysStep>, states: seq<Sys>, lines: seq<Option<Line>>, turns: seq<Turn>,
                more: seq<SysStep>, s': Sys, line: Option<Line>)
    requires Ran(s, steps, states, lines, turns) && |lines| < |turns|
    requires Steps(states[|lines|], more) && After(states[|lines|], more) == s'
    requires TookTurn(Later(states[|lines|], turns[|lines|].ticks), s', line, turns[|lines|].answers)
    ensures Ran(s, steps + more, states + [s'], lines + [line], turns)
  {
    var n := |lines|;
    Joined(s, steps, more);
    assert (lines + [line])[..n] == lines;
    assert (states + [s'])[n] == states[n];
  }

  /** The turn after those so far. */
  method NextTurn(reader: QueueReader, disk: Disk, dirs: ConsumerDisk, cache: RequestCache, turns: seq<Turn>, k: nat, before: nat,
                  ghost s: Sys, ghost steps0: seq<SysStep>, ghost states0: seq<Sys>, ghost lines0: seq<Option<Line>>)
    returns (goesOn: bool, now: nat, ghost steps: seq<SysStep>, ghost states: seq<Sys>, ghost lines: seq<Option<Line>>)
    requires k == |lines0| < |turns| && Ran(s, steps0, states0, lines0, turns) && AllHandled(states0, lines0, states0[k])
    requires ShowsAll(states0[k], reader, disk, dirs, cache) && before == states0[k].env.clock
    requires forall id | id in cache.entries :: cache.entries[id] < turns[k].touched
    modifies reader, disk, dirs, cache
    ensures |lines| == k + 1 && Ran(s, steps, states, lines, turns) && now == states[k + 1].env.clock
    ensures Shows(states[k + 1], dirs, cache) && reader.Within(states[k + 1].q, disk) == states[k + 1].q
    ensures if goesOn then ShowsAll(states[k + 1], reader, disk, dirs, cache) && AllHandled(states, lines, states[k + 1])
            else lines[k].Some? && StillRetried(states[k], lines[k].value, turns[k].answers)
    ensures forall id | id in cache.entries :: cache.entries[id] <= turns[k].touched
  {
    var line;
    ghost var more, s';
    line, goesOn, now, more, s' := TimedTurn(reader, disk, dirs, cache, turns[k], before, states0[k]);
    RanThen(s, steps0, states0, lines0, turns, more, s', line);
    if goesOn {
      HandledThen(states0, lines0, turns[k].ticks, s', line, turns[k].answers);
    }
    steps, states, lines := steps0 + more, states0 + [s'], lines0 + [line];
  }

  /**
   * The loop over the reader's lines, for any number of turns, as long as an escalation is not retried
   * beyond the answers given. It is a run of the whole escalation queue, so everything proved of its runs holds.
   * It stops early only at a line that is still being retried; every line before it has been handled.
   */
  method ReadFromEscalationQueue(reader: QueueReader, disk: Disk, dirs: ConsumerDisk, cache: RequestCache, turns: seq<Turn>,
                                 start: nat, ghost s: Sys)
    returns (ghost steps: seq<SysStep>, ghost states: seq<Sys>, ghost lines: seq<Option<Line>>)
    requires ShowsAll(s, reader, disk, dirs, cache) && start == s.env.clock && Increasing(turns)
    requires forall k, id | 0 <= k < |turns| && id in cache.entries :: cache.entries[id] < turns[k].touched
    modifies reader, disk, dirs, cache
    ensures Ran(s, steps, states, lines, turns)
    ensures Shows(states[|lines|], dirs, cache) && reader.Within(states[|lines|].q, disk) == states[|lines|].q
    ensures |lines| == |turns| || (lines != [] && var n := |lines| - 1;
              lines[n].Some? && StillRetried(states[n], lines[n].value, turns[n].answers))
    ensures (forall k, there | 0 <= k < |turns| :: Decide(turns[k].answers, there)) ==>
              |lines| == |turns| && AllHandled(states, lines, states[|lines|])
  {
    steps, states, lines := [], [s], [];
    var now := start;
    for k := 0 to |turns|
      invariant |lines| == k && Ran(s, steps, states, lines, turns) && AllHandled(states, lines, states[k])
      invariant ShowsAll(states[k], reader, disk, dirs, cache) && now == states[k].env.clock
      invariant forall i, id | k <= i < |turns| && id in cache.entries :: cache.entries[id] < turns[i].touched
    {
      var goesOn;
      goesOn, now, steps, states, lines := NextTurn(reader, disk, dirs, cache, turns, k, now, s, steps, states, lines);
      if !goesOn {
        return;
      }
    }
  }
}
