// How long, and after which failures, a queued escalation is tried again.

module EscalationRetry {
  import opened Collections

  datatype Failure = ClientError | MaxRetry | ReadTimeout | Http(status: int) | FileMissing | OtherFailure

  datatype Attempt = Success | Failed(failure: Failure)

  /** What is met by one attempt: no client can be had, or the image is looked for and then the cloud answers. */
  datatype Answer = NoClient(failure: Failure) | Cloud(attempt: Attempt)

  /** How one attempt ends (`_escalate_once`): the client comes first, the image second, the cloud last. */
  function AttemptOf(a: Answer, imageThere: bool): Attempt {
    match a
    case NoClient(failure) => Failed(failure)
    case Cloud(attempt) => if imageThere then attempt else Failed(FileMissing)
  }

  /** The attempt gets as far as the image and does not find it. */
  predicate Misses(a: Answer, imageThere: bool) { a.Cloud? && !imageThere }

  /** The connect and read timeouts of one attempt, in seconds. */
  datatype Timeout = Timeout(connect: nat, read: nat)

  const RETRY_WAIT_TIMES: seq<nat> := [0, 1, 5, 10, 30]
  const HTTP_TOO_MANY_REQUESTS := 429

  predicate IsRetryable(f: Failure) {
    f.ClientError? || f.MaxRetry? || f.ReadTimeout? || (f.Http? && f.status == HTTP_TOO_MANY_REQUESTS)
  }

  /** The attempt is one after which the loop goes on. */
  predicate Retried(a: Attempt) { a.Failed? && IsRetryable(a.failure) }

  /** The first answer that ends the attempts. */
  function Decisive(answers: seq<Answer>, imageThere: bool): Option<Answer> {
    if answers == [] then None
    else if Retried(AttemptOf(answers[0], imageThere)) then Decisive(answers[1..], imageThere)
    else Some(answers[0])
  }

  /** A failure that may pass: no connection, no answer in time, or too many requests. */
  ghost predicate MayPass(f: Failure) { f in {ClientError, MaxRetry, ReadTimeout, Http(429)} }

  /**
   * Which answers leave the decision to those that follow: failures that may pass, of the client or of the cloud. Any
   * other decides, and so does every answer that comes as far as the image if that is not there.
   */
  lemma {:induction false} WhichPassItOn(a: Answer, rest: seq<Answer>, imageThere: bool)
    ensures a.NoClient? ==> Decisive([a] + rest, imageThere) == if MayPass(a.failure) then Decisive(rest, imageThere) else Some(a)
    ensures a.Cloud? && !imageThere ==> Decisive([a] + rest, imageThere) == Some(a)
    ensures a.Cloud? && imageThere ==>
              Decisive([a] + rest, imageThere) ==
              if a.attempt.Failed? && MayPass(a.attempt.failure) then Decisive(rest, imageThere) else Some(a)
  {
    assert ([a] + rest)[1..] == rest;
  }

  /** The first k attempts are to be repeated. */
  predicate AllRetried(answers: seq<Answer>, imageThere: bool, k: nat)
    requires k <= |answers|
  {
    forall i | 0 <= i < k :: Retried(AttemptOf(answers[i], imageThere))
  }

  lemma {:induction false} DecisiveAfter(answers: seq<Answer>, imageThere: bool, k: nat)
    requires k <= |answers| && AllRetried(answers, imageThere, k)
    ensures Decisive(answers, imageThere) == Decisive(answers[k..], imageThere)
  {
    if k > 0 {
      assert Retried(AttemptOf(answers[0], imageThere));
      assert answers[1..][k - 1..] == answers[k..];
      DecisiveAfter(answers[1..], imageThere, k - 1);
    }
  }

  /**
   * Attempts an escalation until it succeeds or fails for good. `answers` are those met by the attempts that are
   * made before the observation ends; the result is None if they all are to be retried.
   */
  method ConsumeQueuedEscalation(answers: seq<Answer>, imageThere: bool)
    returns (result: Option<Attempt>, retries: nat, waits: seq<nat>, timeouts: seq<Timeout>)
    ensures result.None? <==> Decisive(answers, imageThere).None?
    ensures retries <= |answers| && AllRetried(answers, imageThere, retries)
    ensures result.None? ==> retries == |answers| == |timeouts|
    ensures result.Some? ==>
              && retries < |answers| && Decisive(answers, imageThere) == Some(answers[retries])
              && result.value == AttemptOf(answers[retries], imageThere) && !Retried(result.value)
              && |timeouts| == retries + 1
    ensures |waits| == retries && forall k | 0 <= k < retries :: waits[k] == if k < 4 then [0, 1, 5, 10][k] else 30
    ensures forall k | 0 <= k < |timeouts| :: timeouts[k] == if k == 0 then Timeout(5, 15) else Timeout(1, 15)
  {
    retries, waits, timeouts := 0, [], [];
    var timeout := Timeout(5, 15);
    while retries < |answers|
      invariant retries <= |answers| && AllRetried(answers, imageThere, retries)
      invariant |waits| == retries == |timeouts| && timeout == (if retries == 0 then Timeout(5, 15) else Timeout(1, 15))
      invariant forall k | 0 <= k < retries :: waits[k] == if k < 4 then [0, 1, 5, 10][k] else 30
      invariant forall k | 0 <= k < retries :: timeouts[k] == if k == 0 then Timeout(5, 15) else Timeout(1, 15)
    {
      timeouts := timeouts + [timeout];
      var attempt := AttemptOf(answers[retries], imageThere);
      if attempt.Success? || !IsRetryable(attempt.failure) {
        DecisiveAfter(answers, imageThere, retries);
        return Some(attempt), retries, waits, timeouts;
      }
      timeout := Timeout(1, 15);
      var at := if retries < |RETRY_WAIT_TIMES| - 1 then retries else |RETRY_WAIT_TIMES| - 1;
      waits := waits + [RETRY_WAIT_TIMES[at]];
      retries := retries + 1;
    }
    DecisiveAfter(answers, imageThere, retries);
    return None, retries, waits, timeouts;
  }
}
