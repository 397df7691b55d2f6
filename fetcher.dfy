/**
 * `fetch_with_retries`: up to `retries` HTTP GETs, returning the parsed body
 * of the first status-200 response, sleeping `backoff_factor ** attempt`
 * seconds after each attempt that failed, and `None` once the attempts are
 * used up.
 *
 * The HTTP client is a parameter: `net(i)` is what the i-th call of
 * `requests.get` yields. Sleeping is recorded, not performed.
 */
module Fetcher {
  import opened Wrappers

  /** One call of the HTTP client: a response (status code and parsed JSON body), or a raised `RequestException`. */
  datatype Outcome<B> = Reply(status: int, body: B) | Raised

  /** How one attempt ends: with the body, with a logged failure and a backoff sleep, or silently. */
  datatype Verdict<B> = Done(body: B) | Backoff | Next

  /** What one run of the retry loop did: its result, how many calls it made, and the delays it slept, in order. */
  datatype Run<B> = Run(result: Option<B>, attempts: nat, sleeps: seq<int>)

  /** `Response.raise_for_status()` raises an `HTTPError` exactly for the 4xx and 5xx codes. */
  predicate RaisesForStatus(status: int) {
    400 <= status < 600
  }

  predicate IsOk<B>(o: Outcome<B>) {
    o.Reply? && o.status == 200
  }

  /**
   * The body of the `try` block with its `except RequestException` handler.
   * The `HTTPError` that `raise_for_status` raises is a `RequestException`,
   * so it lands in the same handler as a network error.
   */
  function Classify<B>(o: Outcome<B>): Verdict<B> {
    match o
    case Raised => Backoff
    case Reply(status, body) =>
      if status == 200 then Done(body)
      else if status in {502, 503, 429} then Backoff
      else if RaisesForStatus(status) then Backoff
      else Next
  }

  /** The backoff delay: Python's `backoff_factor ** attempt` on integers. */
  function Pow(b: int, e: nat): int {
    if e == 0 then 1 else b * Pow(b, e - 1)
  }

  /** The run of the loop from attempt `attempt` on. */
  function FetchFrom<B>(net: nat -> Outcome<B>, attempt: nat, retries: int, backoff: int): (r: Run<B>)
    ensures r.attempts <= if attempt < retries then retries - attempt else 0
    ensures |r.sleeps| <= r.attempts
    decreases retries - attempt
  {
    if retries <= attempt then Run(None, 0, [])
    else
      match Classify(net(attempt))
      case Done(body) => Run(Some(body), 1, [])
      case Backoff =>
        var rest := FetchFrom(net, attempt + 1, retries, backoff);
        Run(rest.result, rest.attempts + 1, [Pow(backoff, attempt)] + rest.sleeps)
      case Next =>
        var rest := FetchFrom(net, attempt + 1, retries, backoff);
        Run(rest.result, rest.attempts + 1, rest.sleeps)
  }

  /** The whole run, `for attempt in range(retries)`. */
  function Fetch<B>(net: nat -> Outcome<B>, retries: int, backoff: int): Run<B> {
    FetchFrom(net, 0, retries, backoff)
  }

  /** The delay that attempt `i` sleeps: `backoff ** i` when it failed, none otherwise. */
  function DelayOf<B>(net: nat -> Outcome<B>, i: nat, backoff: int): seq<int> {
    if Classify(net(i)).Backoff? then [Pow(backoff, i)] else []
  }

  /** The delays slept by attempts `lo` up to `hi` - 1, in attempt order. */
  function Delays<B>(net: nat -> Outcome<B>, lo: nat, hi: int, backoff: int): seq<int>
    decreases hi - lo
  {
    if hi <= lo then [] else Delays(net, lo, hi - 1, backoff) + DelayOf(net, hi - 1, backoff)
  }

  lemma {:induction false} DelaysFront<B>(net: nat -> Outcome<B>, lo: nat, hi: int, backoff: int)
    requires lo < hi
    ensures Delays(net, lo, hi, backoff) == DelayOf(net, lo, backoff) + Delays(net, lo + 1, hi, backoff)
    decreases hi - lo
  {
    if lo + 1 < hi {
      DelaysFront(net, lo, hi - 1, backoff);
    }
  }

  /**
   * When attempt k is the first status-200 reply from `lo` on, the run
   * returns its body after k - lo + 1 calls, having slept the delays of
   * the failures before k.
   */
  lemma {:induction false} FetchFromFirstOk<B>(net: nat -> Outcome<B>, lo: nat, k: nat, retries: int, backoff: int)
    requires lo <= k < retries && IsOk(net(k))
    requires forall j :: lo <= j < k ==> !IsOk(net(j))
    ensures FetchFrom(net, lo, retries, backoff) == Run(Some(net(k).body), k - lo + 1, Delays(net, lo, k, backoff))
    decreases k - lo
  {
    if lo < k {
      FetchFromFirstOk(net, lo + 1, k, retries, backoff);
      DelaysFront(net, lo, k, backoff);
    }
  }

  /** With no status-200 reply from `lo` on, the run makes every remaining call and returns `None`. */
  lemma {:induction false} FetchFromExhausted<B>(net: nat -> Outcome<B>, lo: nat, retries: int, backoff: int)
    requires forall j :: lo <= j < retries ==> !IsOk(net(j))
    ensures FetchFrom(net, lo, retries, backoff)
      == Run(None, if lo < retries then retries - lo else 0, Delays(net, lo, retries, backoff))
    decreases retries - lo
  {
    if lo < retries {
      FetchFromExhausted(net, lo + 1, retries, backoff);
      if lo + 1 < retries {
        DelaysFront(net, lo, retries, backoff);
      }
    }
  }

  /**
   * The first status-200 reply among the first `retries` calls decides the
   * result: its body is returned after k + 1 calls, and every earlier
   * failing attempt i slept `backoff ** i`.
   */
  lemma FetchReturnsFirstOk<B>(net: nat -> Outcome<B>, k: nat, retries: int, backoff: int)
    requires k < retries && IsOk(net(k))
    requires forall j :: 0 <= j < k ==> !IsOk(net(j))
    ensures Fetch(net, retries, backoff) == Run(Some(net(k).body), k + 1, Delays(net, 0, k, backoff))
  {
    FetchFromFirstOk(net, 0, k, retries, backoff);
  }

  /**
   * Without a status-200 reply the loop makes exactly `retries` calls,
   * sleeps after every failing one (the last included), and returns `None`.
   */
  lemma FetchExhausted<B>(net: nat -> Outcome<B>, retries: int, backoff: int)
    requires forall j :: 0 <= j < retries ==> !IsOk(net(j))
    ensures Fetch(net, retries, backoff)
      == Run(None, if 0 < retries then retries else 0, Delays(net, 0, retries, backoff))
  {
    FetchFromExhausted(net, 0, retries, backoff);
  }

  /** The result is some body exactly when one of the first `retries` calls answered 200, and then it is the first such body. */
  lemma FetchResult<B>(net: nat -> Outcome<B>, retries: int, backoff: int, v: B)
    ensures Fetch(net, retries, backoff).result == Some(v) <==>
      exists k: nat :: k < retries && IsOk(net(k)) && net(k).body == v
        && forall j :: 0 <= j < k ==> !IsOk(net(j))
  {
    if k: nat :| k < retries && IsOk(net(k)) && forall j :: 0 <= j < k ==> !IsOk(net(j)) {
      FetchReturnsFirstOk(net, k, retries, backoff);
    } else {
      forall j | 0 <= j < retries ensures !IsOk(net(j)) {
        if IsOk(net(j)) {
          FirstOkExists(net, j);
        }
      }
      FetchExhausted(net, retries, backoff);
    }
  }

  /** Some call up to k answered 200, so there is a first one. */
  lemma {:induction false} FirstOkExists<B>(net: nat -> Outcome<B>, k: nat)
    requires IsOk(net(k))
    ensures exists f: nat :: f <= k && IsOk(net(f)) && forall j :: 0 <= j < f ==> !IsOk(net(j))
  {
    if forall j :: 0 <= j < k ==> !IsOk(net(j)) {
    } else {
      var j :| 0 <= j < k && IsOk(net(j));
      FirstOkExists(net, j);
    }
  }

  /** Which replies make an attempt fail with a backoff sleep: every 4xx and 5xx status, and a raised exception. */
  lemma BackoffStatuses<B>(status: int, body: B)
    ensures Classify(Reply(status, body)).Backoff? <==> RaisesForStatus(status)
    ensures Classify(Reply(status, body)).Next? <==> status != 200 && !RaisesForStatus(status)
    ensures Classify<B>(Raised).Backoff?
  {
  }

  /**
   * `fetch_with_retries(url, headers, params, retries, backoff_factor)`,
   * returning also the number of calls made and the delays slept.
   */
  method FetchWithRetries<B>(net: nat -> Outcome<B>, retries: int, backoffFactor: int)
    returns (response: Option<B>, attempts: nat, sleeps: seq<int>)
    ensures Run(response, attempts, sleeps) == Fetch(net, retries, backoffFactor)
  {
    attempts, sleeps := 0, [];
    var attempt: nat := 0;
    while attempt < retries
      invariant attempt == 0 || attempt <= retries
      invariant attempts == attempt
      invariant sleeps == Delays(net, 0, attempt, backoffFactor)
      invariant forall j :: 0 <= j < attempt ==> !IsOk(net(j))
      decreases retries - attempt
    {
      attempts := attempts + 1;
      var outcome := net(attempt);
      match outcome {
        case Reply(status, body) =>
          if status == 200 {
            FetchReturnsFirstOk(net, attempt, retries, backoffFactor);
            return Some(body), attempts, sleeps;
          } else if status in {502, 503, 429} {
            sleeps := sleeps + [Pow(backoffFactor, attempt)];
          } else if RaisesForStatus(status) {
            // raise_for_status(): the HTTPError is caught as a RequestException
            sleeps := sleeps + [Pow(backoffFactor, attempt)];
          }
        case Raised =>
          sleeps := sleeps + [Pow(backoffFactor, attempt)];
      }
      attempt := attempt + 1;
    }
    FetchExhausted(net, retries, backoffFactor);
    response := None;
  }

  /**
   * The default schedule: when all five attempts fail, the loop sleeps
   * 1, 2, 4, 8 and 16 seconds (the last sleep follows the last attempt)
   * and returns `None`.
   */
  lemma DefaultScheduleWhenAllFail<B>(net: nat -> Outcome<B>)
    requires forall j :: 0 <= j < 5 ==> Classify(net(j)).Backoff?
    ensures Fetch(net, 5, 2) == Run(None, 5, [1, 2, 4, 8, 16])
  {
    FetchExhausted(net, 5, 2);
    assert Delays(net, 0, 1, 2) == [1];
    assert Delays(net, 0, 2, 2) == [1, 2];
    assert Delays(net, 0, 3, 2) == [1, 2, 4];
    assert Delays(net, 0, 4, 2) == [1, 2, 4, 8];
    assert Pow(2, 4) == 16;
  }

  /** 503, 503, then 200: three calls, sleeping 1 s and then 2 s, and the third body is returned. */
  lemma UnavailableTwiceThenOk<B>(net: nat -> Outcome<B>, body: B)
    requires net(0) == Reply(503, body) && net(1) == Reply(503, body) && net(2) == Reply(200, body)
    ensures Fetch(net, 5, 2) == Run(Some(body), 3, [1, 2])
  {
    FetchReturnsFirstOk(net, 2, 5, 2);
    assert Delays(net, 0, 1, 2) == [1];
  }

  /**
   * A 404 is not failed fast: `raise_for_status` raises an `HTTPError`,
   * which the `RequestException` handler catches, so the call is retried
   * with the full backoff schedule.
   */
  lemma NotFoundIsRetried<B>(net: nat -> Outcome<B>)
    requires forall j :: 0 <= j < 5 ==> net(j).Reply? && net(j).status == 404
    ensures Fetch(net, 5, 2) == Run(None, 5, [1, 2, 4, 8, 16])
  {
    DefaultScheduleWhenAllFail(net);
  }

  /** A non-200 status below 400 (a 304, say) moves on to the next attempt without sleeping. */
  lemma NotModifiedNeverSleeps<B>(net: nat -> Outcome<B>)
    requires forall j :: 0 <= j < 5 ==> net(j).Reply? && net(j).status == 304
    ensures Fetch(net, 5, 2) == Run(None, 5, [])
  {
    FetchExhausted(net, 5, 2);
    assert Delays(net, 0, 1, 2) == [];
    assert Delays(net, 0, 2, 2) == [];
    assert Delays(net, 0, 3, 2) == [];
    assert Delays(net, 0, 4, 2) == [];
  }
}
