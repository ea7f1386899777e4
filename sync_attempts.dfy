/**
 * The sync-attempt bookkeeping of lib/riot/sync-attempts.ts: per-player
 * outcomes are folded into counters, an error list and a final status.
 * `nowIso()` is the parameter `now`.
 */
module SyncAttempts {
  import opened Wrappers

  datatype Status = Running | Succeeded | Partial | Failed

  /** `SyncAttemptResult`: one player's outcome. */
  datatype AttemptResult =
    | PlayerSucceeded(playerId: string)
    | PlayerFailed(playerId: string, error: string)

  /** `SyncAttemptError`. */
  datatype AttemptError = AttemptError(playerId: string, error: string)

  /** `SyncAttempt`. */
  datatype Attempt = Attempt(
    status: Status,
    totalDue: int,
    limit: Option<int>,
    attempted: nat,
    succeeded: nat,
    failed: nat,
    errors: seq<AttemptError>,
    startedAt: string,
    finishedAt: Option<string>)

  /** How many results succeeded. */
  function CountSucceeded(results: seq<AttemptResult>): (n: nat)
    ensures n <= |results|
  {
    if results == [] then 0
    else (if results[0].PlayerSucceeded? then 1 else 0) + CountSucceeded(results[1..])
  }

  /** How many results failed. */
  function CountFailed(results: seq<AttemptResult>): (n: nat)
    ensures n <= |results|
  {
    if results == [] then 0
    else (if results[0].PlayerFailed? then 1 else 0) + CountFailed(results[1..])
  }

  /** The failed results, in order, as error records. */
  function Errors(results: seq<AttemptResult>): (errors: seq<AttemptError>)
    ensures |errors| <= |results|
  {
    if results == [] then []
    else
      var rest := Errors(results[1..]);
      match results[0]
      case PlayerFailed(id, e) => [AttemptError(id, e)] + rest
      case PlayerSucceeded(_) => rest
  }

  /** The status rule: no failure is a success (even with nothing attempted), no success a failure, else partial. */
  function StatusFor(succeeded: nat, failed: nat): (s: Status)
    ensures s != Running
    ensures s == Succeeded <==> failed == 0
    ensures s == Failed <==> succeeded == 0 && failed > 0
    ensures s == Partial <==> succeeded > 0 && failed > 0
  {
    if failed == 0 then Succeeded
    else if succeeded == 0 then Failed
    else Partial
  }

  /** `createSyncAttempt`: a running attempt with zeroed counters. */
  function CreateSyncAttempt(totalDue: int, limit: Option<int>, now: string): (a: Attempt)
    ensures a.status == Running && a.attempted == 0 && a.succeeded == 0 && a.failed == 0
    ensures a.errors == [] && a.finishedAt == None
    ensures a.totalDue == totalDue && a.limit == limit && a.startedAt == now
  {
    Attempt(Running, totalDue, limit, 0, 0, 0, [], now, None)
  }

  /** `completeSyncAttempt`. */
  function CompleteSyncAttempt(attempt: Attempt, results: seq<AttemptResult>, now: string): (done: Attempt)
    ensures done.attempted == |results|
    ensures done.succeeded + done.failed == done.attempted
    ensures done.succeeded == CountSucceeded(results) && done.failed == CountFailed(results)
    ensures |done.errors| == done.failed
    ensures forall e :: e in done.errors <==> PlayerFailed(e.playerId, e.error) in results
    ensures done.status != Running
    ensures done.status == Succeeded <==> done.failed == 0
    ensures done.status == Failed <==> done.succeeded == 0 && done.failed > 0
    ensures done.status == Partial <==> done.succeeded > 0 && done.failed > 0
    ensures done.totalDue == attempt.totalDue && done.limit == attempt.limit && done.startedAt == attempt.startedAt
    ensures done.finishedAt == Some(now)
  {
    var succeeded := CountSucceeded(results);
    var failed := CountFailed(results);
    CountsAddUp(results);
    ErrorsCountFailures(results);
    ErrorsAreFailures(results);
    attempt.(status := StatusFor(succeeded, failed), attempted := |results|, succeeded := succeeded,
             failed := failed, errors := Errors(results), finishedAt := Some(now))
  }

  /** Every result is counted exactly once. */
  lemma {:induction false} CountsAddUp(results: seq<AttemptResult>)
    ensures CountSucceeded(results) + CountFailed(results) == |results|
  {
    if results != [] {
      CountsAddUp(results[1..]);
    }
  }

  lemma {:induction false} ErrorsCountFailures(results: seq<AttemptResult>)
    ensures |Errors(results)| == CountFailed(results)
  {
    if results != [] {
      ErrorsCountFailures(results[1..]);
    }
  }

  /** The error list holds exactly the failed results, in input order, with their ids and messages. */
  lemma {:induction false} ErrorsAreFailures(results: seq<AttemptResult>)
    ensures forall e :: e in Errors(results) <==> PlayerFailed(e.playerId, e.error) in results
  {
    if results != [] {
      ErrorsAreFailures(results[1..]);
      assert results == [results[0]] + results[1..];
    }
  }

  /** Counting and collecting split over concatenation, so batches can be tallied piecewise. */
  lemma {:induction false} TallyConcat(a: seq<AttemptResult>, b: seq<AttemptResult>)
    ensures CountSucceeded(a + b) == CountSucceeded(a) + CountSucceeded(b)
    ensures CountFailed(a + b) == CountFailed(a) + CountFailed(b)
    ensures Errors(a + b) == Errors(a) + Errors(b)
  {
    if a != [] {
      assert (a + b)[1..] == a[1..] + b;
      TallyConcat(a[1..], b);
    } else {
      assert a + b == b;
    }
  }

  /** A completed attempt is consistent: counters add up, the errors match the failures and the status follows them. */
  predicate Consistent(a: Attempt) {
    a.succeeded + a.failed == a.attempted &&
    |a.errors| == a.failed &&
    a.status == StatusFor(a.succeeded, a.failed)
  }

  lemma CompletedIsConsistent(attempt: Attempt, results: seq<AttemptResult>, now: string)
    ensures Consistent(CompleteSyncAttempt(attempt, results, now))
  {
    var done := CompleteSyncAttempt(attempt, results, now);
    ErrorsCountFailures(results);
  }

  /** Completing an attempt again with the same results changes nothing but the finish time. */
  lemma CompleteAgain(attempt: Attempt, results: seq<AttemptResult>, now: string, later: string)
    ensures CompleteSyncAttempt(CompleteSyncAttempt(attempt, results, now), results, later) ==
      CompleteSyncAttempt(attempt, results, later)
  {
  }

  /** tests/sync-attempts.test.ts: with no players due the attempt is a success with zero counts. */
  lemma EmptyIsSuccess(totalDue: int, limit: Option<int>, start: string, now: string)
    ensures CompleteSyncAttempt(CreateSyncAttempt(totalDue, limit, start), [], now).status == Succeeded
  {
  }

  /** One success and one failure make a partial attempt whose only error is the failure. */
  lemma MixedIsPartial(a: Attempt, okId: string, badId: string, message: string, now: string)
    ensures CompleteSyncAttempt(a, [PlayerSucceeded(okId), PlayerFailed(badId, message)], now).status == Partial
    ensures CompleteSyncAttempt(a, [PlayerSucceeded(okId), PlayerFailed(badId, message)], now).errors == [AttemptError(badId, message)]
  {
    var results := [PlayerSucceeded(okId), PlayerFailed(badId, message)];
    assert results[1..] == [PlayerFailed(badId, message)];
    assert results[1..][1..] == [];
    assert CountSucceeded(results) == 1;
    assert CountFailed(results) == 1;
    assert Errors(results) == [AttemptError(badId, message)];
  }
}
