/**
 * The sync half of lib/riot/sync.ts: `syncPlayer`, the two batch loops of
 * `syncDuePlayers` and `syncGroupPlayers`, and the summaries they return.
 * Each step is specified by a function from the database state to the new
 * state, the log events written and the exception that escapes (if any);
 * the methods perform the same steps against a `Store.Database` and are
 * proved to agree with those functions.
 *
 * The clock (`nowIso`), `crypto.randomUUID`, the retry jitter and the Riot
 * provider are parameters, gathered in `Env`. Sleeping is an event.
 */
module Sync {
  import opened Wrappers
  import opened Schema
  import Seqs
  import Time
  import Regions
  import RiotApi
  import UriEncoding
  import Queries
  import Store
  import DuePlayers
  import Queues

  const API_DELAY_MS: int := 350

  /** The two provider calls `syncPlayer` wraps in the retry loop. */
  datatype Endpoint = AccountLookup | LeagueLookup

  /** The `action` field of the retry warning. */
  function ActionName(e: Endpoint): string {
    match e
    case AccountLookup => "getAccountByRiotId"
    case LeagueLookup => "getLeagueEntriesByPuuid"
  }

  /**
   * Everything outside the program: provider outcomes, the jitter drawn for
   * each retry of a player's lookup, `nowIso()` and `crypto.randomUUID()` as
   * seen while that player is synced, and the message of the `TypeError`
   * `fetch` rejects with when it cannot parse a URL.
   */
  datatype Env = Env(
    provider: RiotApi.Provider,
    jitter: (string, Endpoint) -> nat -> RiotApi.Jitter,
    clock: string -> string,
    uuid: string -> string,
    badUrl: string -> string)

  /** The log lines and sleeps of a sync run. */
  datatype Event =
    | RateLimitWarning(playerId: string, action: string, region: string, pause: RiotApi.Pause)
    | SyncSucceeded(playerId: string, gameName: string, tagLine: string, queueType: string)
    | SyncFailed(playerId: string, gameName: string, tagLine: string, error: string)
    | Slept(ms: int)

  /** A step's effect: the new state, the events, and the message of an escaping exception. */
  datatype Step = Step(db: Db, events: seq<Event>, thrown: Option<string>)

  /** A provider lookup's effect: its value or the failure's message, and the warnings logged. */
  datatype Lookup<+T> = Lookup(result: Result<T, string>, events: seq<Event>)

  function Warnings(c: DuePlayers.Candidate, e: Endpoint, pauses: seq<RiotApi.Pause>): (w: seq<Event>)
    ensures |w| == |pauses|
    ensures forall i :: 0 <= i < |w| ==> w[i] == RateLimitWarning(c.id, ActionName(e), c.region, pauses[i])
  {
    seq(|pauses|, i requires 0 <= i < |pauses| => RateLimitWarning(c.id, ActionName(e), c.region, pauses[i]))
  }

  function Failed(c: DuePlayers.Candidate, message: string): Event {
    SyncFailed(c.id, c.gameName, c.tagLine, message)
  }

  /** `!puuid`: null and the empty string both need the account lookup. */
  predicate NeedsAccount(puuid: Option<string>) {
    puuid.None? || puuid.value == ""
  }

  function MissingPuuidMessage(c: DuePlayers.Candidate): string {
    "Missing PUUID for " + c.gameName + "#" + c.tagLine + " (" + c.region + ")"
  }

  /** The PUUID the player already has, or the one the account lookup returns. */
  function ResolvePuuid(c: DuePlayers.Candidate, accountRegion: Regions.AccountRegion, env: Env): (r: Lookup<string>)
    ensures r.result.Success? ==> r.result.value != ""
  {
    if NeedsAccount(c.puuid) then
      var call := env.provider.account(accountRegion, c.gameName, c.tagLine);
      var retried := RiotApi.Retry(call, env.jitter(c.id, AccountLookup), 0);
      var warnings := Warnings(c, AccountLookup, retried.pauses);
      match retried.last
      case Ok(account) =>
        if account.puuid == "" then Lookup(Failure(MissingPuuidMessage(c)), warnings)
        else Lookup(Success(account.puuid), warnings)
      case _ => Lookup(Failure(retried.last.message), warnings)
    else Lookup(Success(c.puuid.value), [])
  }

  /** The league entries of the PUUID. */
  function FetchEntries(c: DuePlayers.Candidate, platform: Regions.Platform, puuid: string, env: Env): Lookup<seq<RiotApi.LeagueEntry>> {
    var retried := RiotApi.Retry(env.provider.league(platform, puuid), env.jitter(c.id, LeagueLookup), 0);
    var warnings := Warnings(c, LeagueLookup, retried.pauses);
    match retried.last
    case Ok(entries) => Lookup(Success(entries), warnings)
    case _ => Lookup(Failure(retried.last.message), warnings)
  }

  /** `entries.find((entry) => entry.queueType === queueType)`. */
  function PickEntry(entries: seq<RiotApi.LeagueEntry>, queueType: string): (solo: Option<RiotApi.LeagueEntry>)
    ensures solo.None? <==> forall e :: e in entries ==> e.queueType != queueType
    ensures solo.Some? ==> solo.value.queueType == queueType
    ensures solo.Some? ==> exists i :: 0 <= i < |entries| && entries[i] == solo.value && forall j :: 0 <= j < i ==> entries[j].queueType != queueType
  {
    Seqs.Find(entries, (e: RiotApi.LeagueEntry) => e.queueType == queueType)
  }

  function OpggPrefix(platform: Regions.Platform): string {
    "https://www.op.gg/summoners/" + Regions.OpggRegion(platform) + "/"
  }

  /** The player's op.gg profile: the region's path, then `encodeURIComponent(gameName-tagLine)`, which decodes back. */
  function OpggUrl(platform: Regions.Platform, gameName: string, tagLine: string): (url: string)
    ensures |OpggPrefix(platform)| <= |url| && url[..|OpggPrefix(platform)|] == OpggPrefix(platform)
    ensures UriEncoding.PercentDecode(url[|OpggPrefix(platform)|..]) == UriEncoding.Utf8(gameName + "-" + tagLine)
  {
    var url := OpggPrefix(platform) + UriEncoding.EncodeUriComponent(gameName + "-" + tagLine);
    UriEncoding.EncodeUriComponentBytes(gameName + "-" + tagLine);
    assert url[|OpggPrefix(platform)|..] == UriEncoding.EncodeUriComponent(gameName + "-" + tagLine);
    url
  }

  function TierOf(solo: Option<RiotApi.LeagueEntry>): Option<string> { if solo.Some? then Some(solo.value.tier) else None }
  function DivisionOf(solo: Option<RiotApi.LeagueEntry>): Option<string> { if solo.Some? then Some(solo.value.rank) else None }
  function LpOf(solo: Option<RiotApi.LeagueEntry>): Option<int> { if solo.Some? then Some(solo.value.leaguePoints) else None }
  function WinsOf(solo: Option<RiotApi.LeagueEntry>): Option<int> { if solo.Some? then Some(solo.value.wins) else None }
  function LossesOf(solo: Option<RiotApi.LeagueEntry>): Option<int> { if solo.Some? then Some(solo.value.losses) else None }

  /** The `updatePlayerSync` call: no queue type, the PUUID, the entry's rank or nulls, the URL and the time. */
  function RankPatch(puuid: string, solo: Option<RiotApi.LeagueEntry>, url: string, now: string): Queries.SyncPatch {
    Queries.SyncPatch(Queries.Keep, Queries.Set(puuid), Queries.Set(TierOf(solo)), Queries.Set(DivisionOf(solo)),
      Queries.Set(LpOf(solo)), Queries.Set(WinsOf(solo)), Queries.Set(LossesOf(solo)), Queries.Set(Some(url)), now)
  }

  /** The `insertRankSnapshot` call: the same rank, the player's queue type, fetched at the same time. */
  function SnapshotFor(id: string, c: DuePlayers.Candidate, solo: Option<RiotApi.LeagueEntry>, now: string): Snapshot {
    Snapshot(id, c.id, c.queueType, TierOf(solo), DivisionOf(solo), LpOf(solo), WinsOf(solo), LossesOf(solo), now)
  }

  /** SQLite's message for a rejected write, `UNIQUE constraint failed: <table>.<column>, …`. */
  function ViolationMessage(v: Violation): string {
    "UNIQUE constraint failed: " + Qualified(v.table, v.columns)
  }

  function Qualified(table: string, columns: seq<string>): string {
    if columns == [] then ""
    else table + "." + columns[0] + (if |columns| > 1 then ", " + Qualified(table, columns[1..]) else "")
  }

  /** The two writes, one after the other: a rejected snapshot leaves the player row already updated. */
  function WriteRank(db: Db, c: DuePlayers.Candidate, platform: Regions.Platform, puuid: string,
                     entries: seq<RiotApi.LeagueEntry>, env: Env): Step {
    var solo := PickEntry(entries, c.queueType);
    var now := env.clock(c.id);
    var updated := Queries.UpdatePlayerSync(db, c.id, RankPatch(puuid, solo, OpggUrl(platform, c.gameName, c.tagLine), now));
    var inserted := Queries.InsertRankSnapshot(updated, SnapshotFor(env.uuid(c.id), c, solo, now));
    if inserted.value.Some? then Step(inserted.db, [Failed(c, ViolationMessage(inserted.value.value))], None)
    else Step(inserted.db, [SyncSucceeded(c.id, c.gameName, c.tagLine, c.queueType)], None)
  }

  /**
   * The `try` block of `syncPlayer` with its `catch`: every failure of the
   * lookups or the writes is caught and logged, so nothing escapes.
   */
  function TrySync(db: Db, c: DuePlayers.Candidate, platform: Regions.Platform, env: Env): Step {
    var resolved := ResolvePuuid(c, Regions.AccountRegionForPlatform(platform), env);
    if resolved.result.Failure? then Step(db, resolved.events + [Failed(c, resolved.result.error)], None)
    else
      var fetched := FetchEntries(c, platform, resolved.result.value, env);
      var events := resolved.events + fetched.events;
      if fetched.result.Failure? then Step(db, events + [Failed(c, fetched.result.error)], None)
      else
        var written := WriteRank(db, c, platform, resolved.result.value, fetched.result.value, env);
        Step(written.db, events + written.events, None)
  }

  /** The league endpoint's URL, with the region written into the host name. */
  function LeagueUrl(region: Regions.Mapped, puuid: string): string {
    "https://" + Regions.MappedText(region) + ".api.riotgames.com/lol/league/v4/entries/by-puuid/" + puuid
  }

  /**
   * The `try` block for a region that is an inherited member of
   * `platformMap`: the account lookup goes to Europe (the fallback of
   * `accountRegionForPlatform`), but the league URL has no valid host, so
   * `fetch` rejects; that error is not a rate limit, so it is not retried,
   * and the `catch` logs it. Nothing is written.
   */
  function TryUnroutable(db: Db, c: DuePlayers.Candidate, region: Regions.Mapped, env: Env): (r: Step)
    ensures r.db == db && r.thrown.None?
  {
    var resolved := ResolvePuuid(c, Regions.AccountRegionOf(region), env);
    if resolved.result.Failure? then Step(db, resolved.events + [Failed(c, resolved.result.error)], None)
    else Step(db, resolved.events + [Failed(c, env.badUrl(LeagueUrl(region, resolved.result.value)))], None)
  }

  /** `syncPlayer`. An unsupported region throws before the `try` and escapes. */
  function SyncPlayerSpec(db: Db, c: DuePlayers.Candidate, env: Env): Step {
    match Regions.NormalizePlatformRegion(c.region)
    case Failure(message) => Step(db, [], Some(message))
    case Success(Listed(platform)) => TrySync(db, c, platform, env)
    case Success(region) => TryUnroutable(db, c, region, env)
  }

  /** The PUUID step of `syncPlayer`, with its reassigned `puuid`. */
  method ResolvePuuidStep(c: DuePlayers.Candidate, accountRegion: Regions.AccountRegion, env: Env) returns (result: Result<string, string>, events: seq<Event>)
    ensures Lookup(result, events) == ResolvePuuid(c, accountRegion, env)
  {
    var puuid := if c.puuid.Some? then c.puuid.value else "";
    events := [];
    if puuid == "" {
      var last, pauses := RiotApi.WithRateLimitRetry(env.provider.account(accountRegion, c.gameName, c.tagLine), env.jitter(c.id, AccountLookup));
      events := Warnings(c, AccountLookup, pauses);
      if !last.Ok? {
        return Failure(last.message), events;
      }
      puuid := last.value.puuid;
    }
    if puuid == "" {
      return Failure(MissingPuuidMessage(c)), events;
    }
    return Success(puuid), events;
  }

  /** The league step of `syncPlayer`. */
  method FetchEntriesStep(c: DuePlayers.Candidate, platform: Regions.Platform, puuid: string, env: Env)
    returns (result: Result<seq<RiotApi.LeagueEntry>, string>, events: seq<Event>)
    ensures Lookup(result, events) == FetchEntries(c, platform, puuid, env)
  {
    var last, pauses := RiotApi.WithRateLimitRetry(env.provider.league(platform, puuid), env.jitter(c.id, LeagueLookup));
    events := Warnings(c, LeagueLookup, pauses);
    if !last.Ok? {
      return Failure(last.message), events;
    }
    return Success(last.value), events;
  }

  /** The two writes of `syncPlayer`. */
  method WriteRankStep(store: Store.Database, c: DuePlayers.Candidate, platform: Regions.Platform, puuid: string,
                       entries: seq<RiotApi.LeagueEntry>, env: Env) returns (events: seq<Event>)
    requires store.Valid()
    modifies store
    ensures store.Valid()
    ensures Step(store.State(), events, None) == WriteRank(old(store.State()), c, platform, puuid, entries, env)
  {
    var now := env.clock(c.id);
    var solo := PickEntry(entries, c.queueType);
    store.UpdatePlayerSync(c.id, RankPatch(puuid, solo, OpggUrl(platform, c.gameName, c.tagLine), now));
    var rejected := store.InsertRankSnapshot(SnapshotFor(env.uuid(c.id), c, solo, now));
    if rejected.Some? {
      return [Failed(c, ViolationMessage(rejected.value))];
    }
    return [SyncSucceeded(c.id, c.gameName, c.tagLine, c.queueType)];
  }

  /** `syncPlayer` against the store. */
  method SyncPlayer(store: Store.Database, c: DuePlayers.Candidate, env: Env) returns (thrown: Option<string>, events: seq<Event>)
    requires store.Valid()
    modifies store
    ensures store.Valid()
    ensures Step(store.State(), events, thrown) == SyncPlayerSpec(old(store.State()), c, env)
  {
    var normalized := Regions.NormalizePlatformRegion(c.region);
    if normalized.Failure? {
      return Some(normalized.error), [];
    }
    var region := normalized.value;
    var accountRegion := Regions.AccountRegionOf(region);
    var puuid, resolveEvents := ResolvePuuidStep(c, accountRegion, env);
    if puuid.Failure? {
      return None, resolveEvents + [Failed(c, puuid.error)];
    }
    if !region.Listed? {
      return None, resolveEvents + [Failed(c, env.badUrl(LeagueUrl(region, puuid.value)))];
    }
    var platform := region.platform;
    var entries, fetchEvents := FetchEntriesStep(c, platform, puuid.value, env);
    events := resolveEvents + fetchEvents;
    if entries.Failure? {
      return None, events + [Failed(c, entries.error)];
    }
    var writeEvents := WriteRankStep(store, c, platform, puuid.value, entries.value, env);
    events := events + writeEvents;
    thrown := None;
  }

  /** Only an unsupported region escapes, and then nothing was written or logged. */
  lemma SyncPlayerThrowsUnchanged(db: Db, c: DuePlayers.Candidate, env: Env)
    ensures SyncPlayerSpec(db, c, env).thrown.Some? <==> Regions.NormalizePlatformRegion(c.region).Failure?
    ensures SyncPlayerSpec(db, c, env).thrown.Some? ==>
      SyncPlayerSpec(db, c, env) == Step(db, [], Some("Unsupported region: " + c.region))
  {
  }

  /** A step preceded by earlier events. */
  function After(events: seq<Event>, s: Step): Step {
    Step(s.db, events + s.events, s.thrown)
  }

  /** `syncPlayer` as one turn of the batch loop. */
  function PlayerStep(env: Env): (Db, DuePlayers.Candidate) -> Step {
    (db: Db, c: DuePlayers.Candidate) => SyncPlayerSpec(db, c, env)
  }

  /**
   * The batch loop over a per-player step: each player's step is followed by
   * a 350 ms sleep; an exception escaping a step ends the loop.
   */
  function RunSteps(db: Db, batch: seq<DuePlayers.Candidate>, step: (Db, DuePlayers.Candidate) -> Step): Step
    decreases |batch|
  {
    if batch == [] then Step(db, [], None)
    else
      var first := step(db, batch[0]);
      if first.thrown.Some? then first
      else After(first.events + [Slept(API_DELAY_MS)], RunSteps(first.db, batch[1..], step))
  }

  /** The batch loop of `syncDuePlayers` and `syncGroupPlayers`. */
  function RunBatchSpec(db: Db, batch: seq<DuePlayers.Candidate>, env: Env): Step {
    RunSteps(db, batch, PlayerStep(env))
  }

  /** A turn of the batch loop whose player did not throw: its events and a sleep come before the rest. */
  lemma BatchContinues(before: Db, rest: seq<DuePlayers.Candidate>, env: Env, after: Db, playerEvents: seq<Event>)
    requires rest != []
    requires SyncPlayerSpec(before, rest[0], env) == Step(after, playerEvents, None)
    ensures RunBatchSpec(before, rest, env) == After(playerEvents + [Slept(API_DELAY_MS)], RunBatchSpec(after, rest[1..], env))
  {
  }

  /** A turn of the batch loop whose player threw: the loop ends with that exception. */
  lemma BatchStops(before: Db, rest: seq<DuePlayers.Candidate>, env: Env, message: string, playerEvents: seq<Event>)
    requires rest != []
    requires SyncPlayerSpec(before, rest[0], env) == Step(before, playerEvents, Some(message))
    ensures RunBatchSpec(before, rest, env) == Step(before, playerEvents, Some(message))
  {
  }

  /** Earlier events before earlier events. */
  lemma AfterAfter(a: seq<Event>, b: seq<Event>, s: Step)
    ensures After(a, After(b, s)) == After(a + b, s)
  {
    assert a + (b + s.events) == a + b + s.events;
  }

  /** The `for … of batch` loop with its awaited `syncPlayer` and `sleep`. */
  method RunBatch(store: Store.Database, batch: seq<DuePlayers.Candidate>, env: Env) returns (thrown: Option<string>, events: seq<Event>)
    requires store.Valid()
    modifies store
    ensures store.Valid()
    ensures Step(store.State(), events, thrown) == RunBatchSpec(old(store.State()), batch, env)
  {
    ghost var start := store.State();
    events := [];
    var i := 0;
    while i < |batch|
      invariant 0 <= i <= |batch| && store.Valid()
      invariant RunBatchSpec(start, batch, env) == After(events, RunBatchSpec(store.State(), batch[i..], env))
    {
      ghost var before := store.State();
      var playerThrown, playerEvents := SyncPlayer(store, batch[i], env);
      assert batch[i..][0] == batch[i] && batch[i..][1..] == batch[i + 1..];
      if playerThrown.Some? {
        SyncPlayerThrowsUnchanged(before, batch[i], env);
        BatchStops(before, batch[i..], env, playerThrown.value, playerEvents);
        return playerThrown, events + playerEvents;
      }
      BatchContinues(before, batch[i..], env, store.State(), playerEvents);
      var turn := playerEvents + [Slept(API_DELAY_MS)];
      AfterAfter(events, turn, RunBatchSpec(store.State(), batch[i + 1..], env));
      events := events + turn;
      i := i + 1;
    }
    assert batch[i..] == [];
    thrown := None;
  }

  /** What a sync function ends with: its summary, or the exception that escaped it. */
  datatype Outcome = Completed(summary: DuePlayers.Summary) | Threw(message: string)

  datatype Run = Run(db: Db, events: seq<Event>, outcome: Outcome)

  function Finish(s: Step, summary: DuePlayers.Summary): Run {
    Run(s.db, s.events, if s.thrown.Some? then Threw(s.thrown.value) else Completed(summary))
  }

  /** The due list of `syncDuePlayers` over the rows of the current state. */
  function DueNow(db: Db, now: int, parse: string -> Option<int>): seq<DuePlayers.Candidate> {
    DuePlayers.DueList(DuePlayers.Grouped(Queries.PlayersForSync(db)), now, parse)
  }

  /** `syncDuePlayers`: the batch is the first `limit` due players, 5 by default. */
  function SyncDuePlayersSpec(db: Db, limit: Option<int>, env: Env, now: int, parse: string -> Option<int>): Run {
    var due := DueNow(db, now, parse);
    var n := limit.GetOr(DuePlayers.DEFAULT_BATCH_SIZE);
    Finish(RunBatchSpec(db, DuePlayers.Batch(due, n), env), DuePlayers.SummaryFor(due, n))
  }

  method SyncDuePlayers(store: Store.Database, limit: Option<int>, env: Env, now: int, parse: string -> Option<int>)
    returns (outcome: Outcome, events: seq<Event>)
    requires store.Valid()
    modifies store
    ensures store.Valid()
    ensures Run(store.State(), events, outcome) == SyncDuePlayersSpec(old(store.State()), limit, env, now, parse)
  {
    var rows := Queries.PlayersForSync(store.State());
    var candidates := DuePlayers.GroupByPlayer(rows);
    var due := DuePlayers.DueList(candidates, now, parse);
    var n := limit.GetOr(DuePlayers.DEFAULT_BATCH_SIZE);
    var thrown;
    thrown, events := RunBatch(store, DuePlayers.Batch(due, n), env);
    outcome := if thrown.Some? then Threw(thrown.value) else Completed(DuePlayers.SummaryFor(due, n));
  }

  /** The record `syncGroupPlayers` passes to `syncPlayer`: the group's interval, a missing queue as solo/duo. */
  function GroupCandidate(p: Player, interval: real): (c: DuePlayers.Candidate)
    ensures c.id == p.id && c.minInterval == interval
  {
    DuePlayers.Candidate(p.id, p.gameName, p.tagLine, p.region, p.queueType.GetOr(Queues.QUEUE_SOLO),
      p.puuid, p.lastSyncAt, interval)
  }

  function GroupCandidates(players: seq<Player>, interval: real): (cs: seq<DuePlayers.Candidate>)
    ensures |cs| == |players|
    ensures forall i :: 0 <= i < |players| ==> cs[i] == GroupCandidate(players[i], interval)
  {
    seq(|players|, i requires 0 <= i < |players| => GroupCandidate(players[i], interval))
  }

  /** The group's players that are due: all of them with `force`, else those past the group's interval. */
  function GroupDue(db: Db, groupId: string, interval: real, force: bool, now: int, parse: string -> Option<int>): seq<Player> {
    Seqs.Filter(Queries.GroupPlayers(db, groupId), (p: Player) => force || Time.IsPast(p.lastSyncAt, interval, now, parse))
  }

  /** `syncGroupPlayers`: nothing for a group without settings; no sorting of the due players. */
  function SyncGroupPlayersSpec(db: Db, groupId: string, force: bool, limit: Option<int>, env: Env,
                                now: int, parse: string -> Option<int>): Run {
    match Queries.GroupSyncSettings(db, groupId)
    case None => Run(db, [], Completed(DuePlayers.Summary(0, 0)))
    case Some(settings) =>
      var due := GroupDue(db, groupId, settings.syncIntervalMinutes, force, now, parse);
      var n := limit.GetOr(DuePlayers.DEFAULT_BATCH_SIZE);
      var batch := GroupCandidates(Seqs.SliceTo(due, n), settings.syncIntervalMinutes);
      Finish(RunBatchSpec(db, batch, env), DuePlayers.Summary(Seqs.Min(|due|, n), |due|))
  }

  method SyncGroupPlayers(store: Store.Database, groupId: string, force: bool, limit: Option<int>, env: Env,
                          now: int, parse: string -> Option<int>) returns (outcome: Outcome, events: seq<Event>)
    requires store.Valid()
    modifies store
    ensures store.Valid()
    ensures Run(store.State(), events, outcome) == SyncGroupPlayersSpec(old(store.State()), groupId, force, limit, env, now, parse)
  {
    var settings := Queries.GroupSyncSettings(store.State(), groupId);
    if settings.None? {
      return Completed(DuePlayers.Summary(0, 0)), [];
    }
    var interval := settings.value.syncIntervalMinutes;
    var due := GroupDue(store.State(), groupId, interval, force, now, parse);
    var n := limit.GetOr(DuePlayers.DEFAULT_BATCH_SIZE);
    var thrown;
    thrown, events := RunBatch(store, GroupCandidates(Seqs.SliceTo(due, n), interval), env);
    outcome := if thrown.Some? then Threw(thrown.value) else Completed(DuePlayers.Summary(Seqs.Min(|due|, n), |due|));
  }
}
