/**
 * The Riot API as an abstract provider, and the bounded rate-limit retry
 * that lib/riot/sync.ts wraps around every provider call. HTTP, headers and
 * JSON decoding are not modelled: each call simply has an outcome, chosen by
 * an oracle indexed by the attempt number. `Math.random()` jitter is an
 * oracle too, and sleeping is recorded as a pause instead of being performed.
 */
module RiotApi {
  import opened Wrappers
  import Regions

  /** `RiotAccount` (only the PUUID is used). */
  datatype Account = Account(puuid: string)

  /** `RiotLeagueEntry`. */
  datatype LeagueEntry = LeagueEntry(queueType: string, tier: string, rank: string, leaguePoints: int, wins: int, losses: int)

  /** The outcome of one provider call: a value, a rate-limit error, or any other error. */
  datatype Call<+T> =
    | Ok(value: T)
    | RateLimited(retryAfterSeconds: int, limitType: Option<string>, message: string)
    | Err(message: string)

  /** Outcome oracles for the two endpoints the sync uses, per request and attempt number. */
  datatype Provider = Provider(
    account: (Regions.AccountRegion, string, string) -> nat -> Call<Account>,
    league: (Regions.Platform, string) -> nat -> Call<seq<LeagueEntry>>)

  /** `Math.floor(Math.random() * 250)`. */
  type Jitter = j: int | 0 <= j < 250

  const RATE_LIMIT_RETRIES: nat := 2

  /** One retry: the warning logged (attempt, wait in seconds, limit type) and the milliseconds slept. */
  datatype Pause = Pause(attempt: nat, waitSeconds: int, limitType: Option<string>, sleepMs: int)

  function Max(a: int, b: int): int { if a < b then b else a }

  /** The pause taken after a rate-limit error on attempt `attempt`. */
  function PauseFor(retryAfterSeconds: int, limitType: Option<string>, jitter: Jitter, attempt: nat): (p: Pause)
    ensures p.waitSeconds >= 1 && p.waitSeconds >= retryAfterSeconds
    ensures p.waitSeconds * 1000 <= p.sleepMs < p.waitSeconds * 1000 + 250
    ensures p.attempt == attempt && p.limitType == limitType
  {
    var waitSeconds := Max(1, retryAfterSeconds);
    Pause(attempt, waitSeconds, limitType, waitSeconds * 1000 + jitter)
  }

  /** What the retry loop ends with: the last call's outcome, returned or rethrown, and the pauses before it. */
  datatype Retried<+T> = Retried(last: Call<T>, pauses: seq<Pause>)

  /**
   * The retry rule from attempt `attempt` on: a rate-limit error is retried
   * while fewer than `RATE_LIMIT_RETRIES` retries were made; a value is
   * returned and any other error, or a rate-limit error once the retries are
   * spent, propagates.
   */
  function Retry<T>(fn: nat -> Call<T>, jitter: nat -> Jitter, attempt: nat): Retried<T>
    requires attempt <= RATE_LIMIT_RETRIES
    decreases RATE_LIMIT_RETRIES - attempt
  {
    match fn(attempt)
    case RateLimited(seconds, limitType, _) =>
      if attempt < RATE_LIMIT_RETRIES then
        var rest := Retry(fn, jitter, attempt + 1);
        Retried(rest.last, [PauseFor(seconds, limitType, jitter(attempt), attempt)] + rest.pauses)
      else Retried(fn(attempt), [])
    case _ => Retried(fn(attempt), [])
  }

  /** A rate-limit error with retries left: one pause, then the rest of the retries. */
  lemma RetryPauses<T>(fn: nat -> Call<T>, jitter: nat -> Jitter, attempt: nat)
    requires attempt < RATE_LIMIT_RETRIES && fn(attempt).RateLimited?
    ensures var rest := Retry(fn, jitter, attempt + 1);
      Retry(fn, jitter, attempt) == Retried(rest.last,
        [PauseFor(fn(attempt).retryAfterSeconds, fn(attempt).limitType, jitter(attempt), attempt)] + rest.pauses)
  {
  }

  /** Otherwise the call's outcome ends the retries. */
  lemma RetryStops<T>(fn: nat -> Call<T>, jitter: nat -> Jitter, attempt: nat)
    requires attempt <= RATE_LIMIT_RETRIES
    requires !(fn(attempt).RateLimited? && attempt < RATE_LIMIT_RETRIES)
    ensures Retry(fn, jitter, attempt) == Retried(fn(attempt), [])
  {
  }

  /** `withRateLimitRetry`: the `while (true)` loop with its mutable attempt counter. */
  method WithRateLimitRetry<T>(fn: nat -> Call<T>, jitter: nat -> Jitter) returns (last: Call<T>, pauses: seq<Pause>)
    ensures Retried(last, pauses) == Retry(fn, jitter, 0)
  {
    var attempt: nat := 0;
    pauses := [];
    while true
      invariant attempt <= RATE_LIMIT_RETRIES
      invariant Retry(fn, jitter, 0) == Retried(Retry(fn, jitter, attempt).last, pauses + Retry(fn, jitter, attempt).pauses)
      decreases RATE_LIMIT_RETRIES - attempt
    {
      var outcome := fn(attempt);
      if outcome.RateLimited? && attempt < RATE_LIMIT_RETRIES {
        var pause := PauseFor(outcome.retryAfterSeconds, outcome.limitType, jitter(attempt), attempt);
        RetryPauses(fn, jitter, attempt);
        assert pauses + ([pause] + Retry(fn, jitter, attempt + 1).pauses) ==
          (pauses + [pause]) + Retry(fn, jitter, attempt + 1).pauses;
        pauses := pauses + [pause];
        attempt := attempt + 1;
        continue;
      }
      RetryStops(fn, jitter, attempt);
      assert pauses + [] == pauses;
      return outcome, pauses;
    }
  }

  /**
   * The retry outcome, characterized from outside: after `k` pauses the
   * result is the outcome of call `k`; every earlier call was rate limited
   * and paused for accordingly; and `k` is the first call that was not rate
   * limited, or the last allowed one.
   */
  lemma {:induction false} RetryCharacterized<T>(fn: nat -> Call<T>, jitter: nat -> Jitter, attempt: nat)
    requires attempt <= RATE_LIMIT_RETRIES
    ensures var r := Retry(fn, jitter, attempt);
      var k := attempt + |r.pauses|;
      k <= RATE_LIMIT_RETRIES &&
      r.last == fn(k) &&
      (k < RATE_LIMIT_RETRIES ==> !fn(k).RateLimited?) &&
      (forall i :: 0 <= i < |r.pauses| ==>
        (fn(attempt + i).RateLimited? &&
         r.pauses[i] == PauseFor(fn(attempt + i).retryAfterSeconds, fn(attempt + i).limitType, jitter(attempt + i), attempt + i)))
    decreases RATE_LIMIT_RETRIES - attempt
  {
    if fn(attempt).RateLimited? && attempt < RATE_LIMIT_RETRIES {
      RetryCharacterized(fn, jitter, attempt + 1);
      var r := Retry(fn, jitter, attempt);
      var rest := Retry(fn, jitter, attempt + 1);
      forall i | 0 < i < |r.pauses|
        ensures r.pauses[i] == rest.pauses[i - 1]
      {
      }
    }
  }

  /** `fn` is called at most `1 + RATE_LIMIT_RETRIES` times, and only on attempts `0..|pauses|`. */
  lemma RetryCallsBounded<T>(fn: nat -> Call<T>, jitter: nat -> Jitter)
    ensures |Retry(fn, jitter, 0).pauses| + 1 <= 1 + RATE_LIMIT_RETRIES
  {
    RetryCharacterized(fn, jitter, 0);
  }

  /** A value or a non-rate-limit error on the first call ends the loop at once: one call, no pause. */
  lemma RetryStopsOnFirstSettled<T>(fn: nat -> Call<T>, jitter: nat -> Jitter)
    requires !fn(0).RateLimited?
    ensures Retry(fn, jitter, 0) == Retried(fn(0), [])
  {
  }

  /** Three rate-limit errors in a row: two pauses, and the third error propagates. */
  lemma RetryGivesUp<T>(fn: nat -> Call<T>, jitter: nat -> Jitter)
    requires fn(0).RateLimited? && fn(1).RateLimited? && fn(2).RateLimited?
    ensures Retry(fn, jitter, 0).last == fn(2)
    ensures |Retry(fn, jitter, 0).pauses| == 2
  {
  }

  /** Only the calls the loop makes matter: two oracles that agree on them give the same outcome. */
  lemma RetryUsesOnlyMadeCalls<T>(fn: nat -> Call<T>, other: nat -> Call<T>, jitter: nat -> Jitter)
    requires forall i :: 0 <= i <= |Retry(fn, jitter, 0).pauses| ==> fn(i) == other(i)
    ensures Retry(other, jitter, 0) == Retry(fn, jitter, 0)
  {
    assert fn(0) == other(0);
    if fn(0).RateLimited? {
      assert fn(1) == other(1);
      if fn(1).RateLimited? {
        assert fn(2) == other(2);
      }
    }
  }

  /** Each pause lasts at least one second and at most the advertised wait plus 249 ms. */
  lemma PausesBounded<T>(fn: nat -> Call<T>, jitter: nat -> Jitter)
    ensures forall p :: p in Retry(fn, jitter, 0).pauses ==> 1000 <= p.sleepMs < p.waitSeconds * 1000 + 250
  {
    RetryCharacterized(fn, jitter, 0);
  }
}
