/**
 The bounded HTTP operation: at most four attempts, and the first attempt that decides the outcome ends it. What the
 server does on each attempt is given; sleeping is counted in seconds.
 */
module Http {
  const MAX_RESPONSE_BYTES: nat := 512_000
  const MAX_RETRIES: int := 3

  /** The Retry-After header: missing, not a number, or a finite number of seconds. */
  datatype RetryAfter = Missing | NotANumber | Seconds(s: real)

  /** What an attempt meets. `parsed` says whether the body is a JSON object. */
  datatype Attempt =
    | Response(status: nat, retryAfter: RetryAfter, chunks: seq<nat>, parsed: bool)
    | Unreachable

  datatype Failure = RateLimited | Unavailable | Rejected | InvalidResponse | TimedOut
  datatype Outcome = Success | Failed(failure: Failure)

  predicate Transient(status: nat) {
    status in {408, 429, 500, 502, 503, 504}
  }

  function Clamp(retries: int): nat {
    if retries < 0 then 0 else if retries > MAX_RETRIES then MAX_RETRIES else retries
  }

  function Sum(chunks: seq<nat>): nat {
    if chunks == [] then 0 else Sum(chunks[..|chunks| - 1]) + chunks[|chunks| - 1]
  }

  /** No connection, a timeout status, too many requests, or a server error that may pass. */
  predicate Undecided(a: Attempt) {
    a.Unreachable? || a.status == 408 || a.status == 429 || a.status == 500 || 502 <= a.status <= 504
  }

  /** min(0.25 * 2 ** attempt, 2.0) */
  function Backoff(attempt: nat): (d: real)
    ensures 0.0 < d <= 2.0
  {
    if attempt == 0 then 0.25
    else if Backoff(attempt - 1) * 2.0 <= 2.0 then Backoff(attempt - 1) * 2.0
    else 2.0
  }

  function PowerOfTwo(n: nat): real {
    if n == 0 then 1.0 else 2.0 * PowerOfTwo(n - 1)
  }

  lemma {:induction false} BackoffIsCapped(attempt: nat)
    ensures Backoff(attempt) == if 0.25 * PowerOfTwo(attempt) <= 2.0 then 0.25 * PowerOfTwo(attempt) else 2.0
    ensures PowerOfTwo(attempt) >= 1.0
  {
    if attempt > 0 {
      BackoffIsCapped(attempt - 1);
    }
  }

  /** The pause after an undecided attempt that is not the last. */
  function Pause(a: Attempt, attempt: nat): (d: real)
    ensures 0.0 <= d <= 3.0
    ensures a.Response? && a.retryAfter.Seconds? && 0.0 <= a.retryAfter.s <= 3.0 ==> d == a.retryAfter.s
    ensures a.Response? && a.retryAfter.Seconds? && a.retryAfter.s < 0.0 ==> d == 0.0
    ensures a.Response? && a.retryAfter.Seconds? && a.retryAfter.s > 3.0 ==> d == 3.0
    ensures a.Unreachable? || !a.retryAfter.Seconds? ==> d == Backoff(attempt)
  {
    if a.Response? && a.retryAfter.Seconds? then
      if a.retryAfter.s < 0.0 then 0.0 else if a.retryAfter.s > 3.0 then 3.0 else a.retryAfter.s
    else
      Backoff(attempt)
  }

  function Pauses(attempts: seq<Attempt>, n: nat): (d: real)
    requires n <= |attempts|
    ensures 0.0 <= d <= 3.0 * n as real
  {
    if n == 0 then 0.0 else Pauses(attempts, n - 1) + Pause(attempts[n - 1], n - 1)
  }

  /** The body is read chunk by chunk and given up as soon as it is too long. */
  method BodyTooLong(chunks: seq<nat>) returns (tooLong: bool)
    ensures tooLong <==> Sum(chunks) > MAX_RESPONSE_BYTES
  {
    var size := 0;
    var i := 0;
    while i < |chunks|
      invariant i <= |chunks| && size == Sum(chunks[..i]) <= MAX_RESPONSE_BYTES
    {
      assert chunks[..i + 1][..i] == chunks[..i];
      size := size + chunks[i];
      i := i + 1;
      if size > MAX_RESPONSE_BYTES {
        SumGrows(chunks, i, |chunks|);
        assert chunks[..|chunks|] == chunks;
        return true;
      }
    }
    assert chunks[..|chunks|] == chunks;
    return false;
  }

  lemma {:induction false} SumGrows(chunks: seq<nat>, m: nat, n: nat)
    requires m <= n <= |chunks|
    ensures Sum(chunks[..m]) <= Sum(chunks[..n])
  {
    if m < n {
      assert chunks[..n][..n - 1] == chunks[..n - 1];
      SumGrows(chunks, m, n - 1);
    }
  }

  /**
   The retry loop. `attempts` is what the server would do on each attempt; `used` are the requests really sent. The
   result is the verdict of the first decisive attempt among the allowed ones, or the failure of the last allowed one;
   never more than four requests are sent and never more than nine seconds slept.
   */
  method RequestJson(attempts: seq<Attempt>, retries: int) returns (r: Outcome, used: nat, slept: real)
    requires |attempts| == MAX_RETRIES + 1
    ensures 1 <= used <= 1 + (if retries < 0 then 0 else if retries > 3 then 3 else retries)
    ensures forall i | 0 <= i < used - 1 :: Undecided(attempts[i])
    ensures Undecided(attempts[used - 1]) ==>
              && used == 1 + (if retries < 0 then 0 else if retries > 3 then 3 else retries)
              && r == match attempts[used - 1]
                      case Unreachable => Failed(TimedOut)
                      case Response(status, _, _, _) => Failed(if status == 429 then RateLimited else Unavailable)
    ensures !Undecided(attempts[used - 1]) ==>
              var a := attempts[used - 1];
              r == if a.status < 200 || a.status > 299 then Failed(Rejected)
                   else if a.parsed && Sum(a.chunks) <= 512_000 then Success
                   else Failed(InvalidResponse)
    ensures slept == Pauses(attempts, used - 1) <= 9.0
  {
    var allowed := Clamp(retries);
    slept := 0.0;
    var attempt := 0;
    while attempt < allowed + 1
      invariant attempt <= allowed
      invariant forall i | 0 <= i < attempt :: Undecided(attempts[i])
      invariant slept == Pauses(attempts, attempt)
      decreases allowed + 1 - attempt
    {
      var delay := Backoff(attempt);
      var a := attempts[attempt];
      match a {
        case Response(status, retryAfter, chunks, parsed) =>
          if Transient(status) {
            if attempt < allowed {
              if retryAfter.Seconds? {
                delay := if retryAfter.s < 0.0 then 0.0 else if retryAfter.s > 3.0 then 3.0 else retryAfter.s;
              }
            } else {
              return Failed(if status == 429 then RateLimited else Unavailable), attempt + 1, slept;
            }
          } else if status < 200 || status >= 300 {
            return Failed(Rejected), attempt + 1, slept;
          } else {
            var tooLong := BodyTooLong(chunks);
            if tooLong {
              return Failed(InvalidResponse), attempt + 1, slept;
            }
            return if parsed then Success else Failed(InvalidResponse), attempt + 1, slept;
          }
        case Unreachable =>
          if attempt >= allowed {
            return Failed(TimedOut), attempt + 1, slept;
          }
      }
      slept := slept + delay;
      attempt := attempt + 1;
    }
    // The loop never runs out: the statement after it is dead.
    assert false;
  }
}
