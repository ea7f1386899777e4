/**
 * What lib/riot/sync.ts promises about a sync, stated over the functions of
 * module Sync: only an unsupported region escapes `syncPlayer`; each synced
 * player gets exactly one outcome line; the account lookup happens only for
 * a player without a PUUID; only the player's own row and one snapshot are
 * written, and the snapshot repeats the row's rank and sync time; the batch
 * syncs its players once each, in order; `force` makes every group player due.
 */
module SyncProperties {
  import opened Wrappers
  import opened Schema
  import Seqs
  import Time
  import Regions
  import RiotApi
  import Queries
  import DuePlayers
  import opened Sync

  /** A success or failure line, as opposed to a retry warning or a sleep. */
  predicate IsOutcome(e: Event) {
    e.SyncSucceeded? || e.SyncFailed?
  }

  /** The players an event log reports an outcome for, in order. */
  function OutcomeIds(events: seq<Event>): seq<string> {
    if events == [] then []
    else (if IsOutcome(events[0]) then [events[0].playerId] else []) + OutcomeIds(events[1..])
  }

  lemma {:induction false} OutcomeIdsConcat(a: seq<Event>, b: seq<Event>)
    ensures OutcomeIds(a + b) == OutcomeIds(a) + OutcomeIds(b)
  {
    if a == [] {
      assert a + b == b;
    } else {
      assert (a + b)[0] == a[0] && (a + b)[1..] == a[1..] + b;
      OutcomeIdsConcat(a[1..], b);
    }
  }

  lemma {:induction false} NoOutcomes(events: seq<Event>)
    requires forall i :: 0 <= i < |events| ==> !IsOutcome(events[i])
    ensures OutcomeIds(events) == []
  {
    if events != [] {
      NoOutcomes(events[1..]);
    }
  }

  function Ids(batch: seq<DuePlayers.Candidate>): (ids: seq<string>)
    ensures |ids| == |batch|
    ensures forall i :: 0 <= i < |batch| ==> ids[i] == batch[i].id
  {
    seq(|batch|, i requires 0 <= i < |batch| => batch[i].id)
  }

  function Last<T>(s: seq<T>): T
    requires s != []
  {
    s[|s| - 1]
  }

  /** *`syncPlayer` never lets an exception escape* once the region is known; an unknown region escapes untouched. */
  lemma SyncPlayerEscapes(db: Db, c: DuePlayers.Candidate, env: Env)
    ensures SyncPlayerSpec(db, c, env).thrown.Some? <==> Regions.NormalizePlatformRegion(c.region).Failure?
    ensures SyncPlayerSpec(db, c, env).thrown.Some? ==>
      SyncPlayerSpec(db, c, env) == Step(db, [], Some("Unsupported region: " + c.region))
  {
    SyncPlayerThrowsUnchanged(db, c, env);
  }

  /** Retry warnings, all about this player. */
  predicate WarningsFor(events: seq<Event>, id: string) {
    forall i :: 0 <= i < |events| ==> events[i].RateLimitWarning? && events[i].playerId == id
  }

  lemma ResolveWarnings(c: DuePlayers.Candidate, accountRegion: Regions.AccountRegion, env: Env)
    ensures WarningsFor(ResolvePuuid(c, accountRegion, env).events, c.id)
    ensures |ResolvePuuid(c, accountRegion, env).events| <= RiotApi.RATE_LIMIT_RETRIES
  {
    if NeedsAccount(c.puuid) {
      RiotApi.RetryCallsBounded(env.provider.account(accountRegion, c.gameName, c.tagLine),
        env.jitter(c.id, AccountLookup));
    }
  }

  lemma FetchWarnings(c: DuePlayers.Candidate, platform: Regions.Platform, puuid: string, env: Env)
    ensures WarningsFor(FetchEntries(c, platform, puuid, env).events, c.id)
    ensures |FetchEntries(c, platform, puuid, env).events| <= RiotApi.RATE_LIMIT_RETRIES
  {
    RiotApi.RetryCallsBounded(env.provider.league(platform, puuid), env.jitter(c.id, LeagueLookup));
  }

  /** The retry warnings `syncPlayer` logs before its outcome line. */
  function LoggedWarnings(c: DuePlayers.Candidate, platform: Regions.Platform, env: Env): seq<Event> {
    var resolved := ResolvePuuid(c, Regions.AccountRegionForPlatform(platform), env);
    if resolved.result.Failure? then resolved.events
    else resolved.events + FetchEntries(c, platform, resolved.result.value, env).events
  }

  lemma LoggedWarningsFor(c: DuePlayers.Candidate, platform: Regions.Platform, env: Env)
    ensures WarningsFor(LoggedWarnings(c, platform, env), c.id)
    ensures |LoggedWarnings(c, platform, env)| <= 2 * RiotApi.RATE_LIMIT_RETRIES
  {
    var resolved := ResolvePuuid(c, Regions.AccountRegionForPlatform(platform), env);
    ResolveWarnings(c, Regions.AccountRegionForPlatform(platform), env);
    if resolved.result.Success? {
      FetchWarnings(c, platform, resolved.result.value, env);
    }
  }

  /** The events of the `try` block: the warnings, then one outcome line about the player. */
  lemma SyncPlayerEvents(db: Db, c: DuePlayers.Candidate, env: Env, platform: Regions.Platform)
    ensures var events := TrySync(db, c, platform, env).events;
      events != [] && events == LoggedWarnings(c, platform, env) + [Last(events)] &&
      IsOutcome(Last(events)) && Last(events).playerId == c.id
  {
    var resolved := ResolvePuuid(c, Regions.AccountRegionForPlatform(platform), env);
    if resolved.result.Success? {
      var fetched := FetchEntries(c, platform, resolved.result.value, env);
      if fetched.result.Success? {
        var written := WriteRank(db, c, platform, resolved.result.value, fetched.result.value, env);
        WriteRankLogsOnce(db, c, platform, resolved.result.value, fetched.result.value, env);
        assert TrySync(db, c, platform, env).events == LoggedWarnings(c, platform, env) + written.events;
      }
    }
  }

  /** The writes log one line, success or failure, about the player. */
  lemma WriteRankLogsOnce(db: Db, c: DuePlayers.Candidate, platform: Regions.Platform, puuid: string,
                          entries: seq<RiotApi.LeagueEntry>, env: Env)
    ensures var events := WriteRank(db, c, platform, puuid, entries, env).events;
      |events| == 1 && IsOutcome(events[0]) && events[0].playerId == c.id
  {
  }

  /**
   * A player that does not escape logs at most two retry warnings per
   * lookup and then exactly one line, success or failure, about itself.
   */
  lemma SyncPlayerOutcome(db: Db, c: DuePlayers.Candidate, env: Env)
    requires SyncPlayerSpec(db, c, env).thrown.None?
    ensures var events := SyncPlayerSpec(db, c, env).events;
      events != [] && IsOutcome(Last(events)) && Last(events).playerId == c.id &&
      WarningsFor(events[..|events| - 1], c.id) &&
      |events| <= 1 + 2 * RiotApi.RATE_LIMIT_RETRIES
    ensures OutcomeIds(SyncPlayerSpec(db, c, env).events) == [c.id]
  {
    SyncPlayerEscapes(db, c, env);
    var region := Regions.NormalizePlatformRegion(c.region).value;
    if region.Listed? {
      var platform := region.platform;
      assert SyncPlayerSpec(db, c, env) == TrySync(db, c, platform, env);
      var events := TrySync(db, c, platform, env).events;
      SyncPlayerEvents(db, c, env, platform);
      var warnings := LoggedWarnings(c, platform, env);
      LoggedWarningsFor(c, platform, env);
      assert events[..|events| - 1] == warnings;
      NoOutcomes(warnings);
      OutcomeIdsConcat(warnings, [Last(events)]);
    } else {
      assert SyncPlayerSpec(db, c, env) == TryUnroutable(db, c, region, env);
      var events := TryUnroutable(db, c, region, env).events;
      var warnings := ResolvePuuid(c, Regions.AccountRegionOf(region), env).events;
      ResolveWarnings(c, Regions.AccountRegionOf(region), env);
      assert events[..|events| - 1] == warnings;
      NoOutcomes(warnings);
      OutcomeIdsConcat(warnings, [Last(events)]);
    }
  }

  /**
   * A region that is an inherited member of `platformMap` does not escape:
   * the player's failure is logged, nothing is written, and the rest of the
   * batch goes on.
   */
  lemma InheritedRegionCaught(db: Db, c: DuePlayers.Candidate, env: Env)
    requires Regions.NormalForm(c.region) in Regions.INHERITED_KEYS
    ensures var r := SyncPlayerSpec(db, c, env);
      r.db == db && r.thrown.None? && r.events != [] && Last(r.events).SyncFailed? && Last(r.events).playerId == c.id
  {
    Regions.InheritedIff(c.region);
  }

  /** A player with a PUUID is never looked up: the account endpoint's outcomes cannot matter. */
  lemma AccountLookupSkipped(db: Db, c: DuePlayers.Candidate, env: Env,
                             other: (Regions.AccountRegion, string, string) -> nat -> RiotApi.Call<RiotApi.Account>)
    requires !NeedsAccount(c.puuid)
    ensures SyncPlayerSpec(db, c, env) == SyncPlayerSpec(db, c, env.(provider := env.provider.(account := other)))
  {
    match Regions.NormalizePlatformRegion(c.region)
    case Failure(_) =>
    case Success(Listed(platform)) => TrySyncSkipsAccount(db, c, platform, env, other);
    case Success(region) =>
  }

  lemma TrySyncSkipsAccount(db: Db, c: DuePlayers.Candidate, platform: Regions.Platform, env: Env,
                            other: (Regions.AccountRegion, string, string) -> nat -> RiotApi.Call<RiotApi.Account>)
    requires !NeedsAccount(c.puuid)
    ensures TrySync(db, c, platform, env) == TrySync(db, c, platform, env.(provider := env.provider.(account := other)))
  {
    var changed := env.(provider := env.provider.(account := other));
    assert ResolvePuuid(c, Regions.AccountRegionForPlatform(platform), env) == ResolvePuuid(c, Regions.AccountRegionForPlatform(platform), changed);
    OnlyAccountChanged(db, c, platform, env, changed);
  }

  /** The league lookup and the writes do not consult the account endpoint. */
  lemma OnlyAccountChanged(db: Db, c: DuePlayers.Candidate, platform: Regions.Platform, env: Env, changed: Env)
    requires changed == env.(provider := changed.provider) && changed.provider.league == env.provider.league
    ensures forall puuid :: FetchEntries(c, platform, puuid, env) == FetchEntries(c, platform, puuid, changed)
    ensures forall puuid, entries :: WriteRank(db, c, platform, puuid, entries, env) == WriteRank(db, c, platform, puuid, entries, changed)
  {
  }

  /** A player without a PUUID is looked up: an account error is logged as the failure, and nothing is written. */
  lemma AccountLookupFailure(db: Db, c: DuePlayers.Candidate, env: Env, platform: Regions.Platform, message: string)
    requires NeedsAccount(c.puuid)
    requires env.provider.account(Regions.AccountRegionForPlatform(platform), c.gameName, c.tagLine)(0) == RiotApi.Err(message)
    ensures TrySync(db, c, platform, env) == Step(db, [SyncFailed(c.id, c.gameName, c.tagLine, message)], None)
  {
  }

  /** Account found but with an empty PUUID: the `Missing PUUID` error is logged, and nothing is written. */
  lemma MissingPuuid(db: Db, c: DuePlayers.Candidate, env: Env, platform: Regions.Platform)
    requires NeedsAccount(c.puuid)
    requires env.provider.account(Regions.AccountRegionForPlatform(platform), c.gameName, c.tagLine)(0) == RiotApi.Ok(RiotApi.Account(""))
    ensures TrySync(db, c, platform, env) ==
      Step(db, [SyncFailed(c.id, c.gameName, c.tagLine, "Missing PUUID for " + c.gameName + "#" + c.tagLine + " (" + c.region + ")")], None)
  {
  }

  /** Which rows a sync may touch: the player's own row (not its notes, identity or queue) and one new snapshot. */
  predicate SyncFrame(db: Db, next: Db, id: string) {
    next.users == db.users && next.groups == db.groups && next.members == db.members && next.links == db.links &&
    |next.players| == |db.players| &&
    (forall i :: 0 <= i < |db.players| && db.players[i].id != id ==> next.players[i] == db.players[i]) &&
    (forall i :: 0 <= i < |db.players| ==>
      next.players[i].id == db.players[i].id && SameIdentity(next.players[i], db.players[i]) &&
      next.players[i].queueType == db.players[i].queueType &&
      next.players[i].notes == db.players[i].notes && next.players[i].objective == db.players[i].objective &&
      next.players[i].monthCheckpoint == db.players[i].monthCheckpoint) &&
    |db.snapshots| <= |next.snapshots| <= |db.snapshots| + 1 && next.snapshots[..|db.snapshots|] == db.snapshots
  }

  lemma UnchangedInFrame(db: Db, id: string)
    ensures SyncFrame(db, db, id)
  {
    assert db.snapshots[..|db.snapshots|] == db.snapshots;
  }

  /** The `try` block writes only the player's row and one snapshot. */
  lemma TrySyncFrame(db: Db, c: DuePlayers.Candidate, platform: Regions.Platform, env: Env)
    ensures SyncFrame(db, TrySync(db, c, platform, env).db, c.id)
  {
    var resolved := ResolvePuuid(c, Regions.AccountRegionForPlatform(platform), env);
    if resolved.result.Success? {
      var puuid := resolved.result.value;
      var fetched := FetchEntries(c, platform, puuid, env);
      if fetched.result.Success? {
        WriteRankFramed(db, c, platform, puuid, fetched.result.value, env);
      }
    }
  }

  lemma WriteRankFramed(db: Db, c: DuePlayers.Candidate, platform: Regions.Platform, puuid: string,
                        entries: seq<RiotApi.LeagueEntry>, env: Env)
    ensures SyncFrame(db, WriteRank(db, c, platform, puuid, entries, env).db, c.id)
  {
    var solo := PickEntry(entries, c.queueType);
    var now := env.clock(c.id);
    WritesFramed(db, c.id, RankPatch(puuid, solo, OpggUrl(platform, c.gameName, c.tagLine), now), SnapshotFor(env.uuid(c.id), c, solo, now));
  }

  /** The player update (which keeps the queue type) followed by the snapshot insert stays within `SyncFrame`. */
  lemma WritesFramed(db: Db, id: string, patch: Queries.SyncPatch, snapshot: Snapshot)
    requires patch.queueType.Keep?
    ensures SyncFrame(db, Queries.InsertRankSnapshot(Queries.UpdatePlayerSync(db, id, patch), snapshot).db, id)
  {
  }

  lemma SyncPlayerFrame(db: Db, c: DuePlayers.Candidate, env: Env)
    ensures SyncFrame(db, SyncPlayerSpec(db, c, env).db, c.id)
  {
    var normalized := Regions.NormalizePlatformRegion(c.region);
    if normalized.Success? && normalized.value.Listed? {
      TrySyncFrame(db, c, normalized.value.platform, env);
    } else {
      assert SyncPlayerSpec(db, c, env).db == db;
      UnchangedInFrame(db, c.id);
    }
  }

  /**
   * A success appended exactly one snapshot: the player's, in its queue,
   * fetched at the time written as the player's `lastSyncAt`, with the rank
   * written to the player's row. A failure appended none.
   */
  lemma SyncPlayerSnapshot(db: Db, c: DuePlayers.Candidate, platform: Regions.Platform, env: Env)
    ensures var r := TrySync(db, c, platform, env);
      r.events != [] &&
      (Last(r.events).SyncFailed? ==> r.db.snapshots == db.snapshots) &&
      (Last(r.events).SyncSucceeded? ==>
        |r.db.snapshots| == |db.snapshots| + 1 &&
        (var s := r.db.snapshots[|db.snapshots|];
         s.playerId == c.id && s.queueType == c.queueType && s.fetchedAt == env.clock(c.id) &&
         forall i :: 0 <= i < |r.db.players| && r.db.players[i].id == c.id ==>
           r.db.players[i].lastSyncAt == Some(s.fetchedAt) && r.db.players[i].tier == s.tier &&
           r.db.players[i].division == s.division && r.db.players[i].lp == s.lp &&
           r.db.players[i].wins == s.wins && r.db.players[i].losses == s.losses))
  {
    SyncPlayerEvents(db, c, env, platform);
    var resolved := ResolvePuuid(c, Regions.AccountRegionForPlatform(platform), env);
    if resolved.result.Success? {
      var fetched := FetchEntries(c, platform, resolved.result.value, env);
      if fetched.result.Success? {
        var w := WriteRank(db, c, platform, resolved.result.value, fetched.result.value, env);
        WriteRankSnapshot(db, c, platform, resolved.result.value, fetched.result.value, env);
        assert TrySync(db, c, platform, env) == Step(w.db, resolved.events + fetched.events + w.events, None);
      }
    }
  }

  /** The writes: a rejected snapshot logs a failure and adds none; otherwise one snapshot matching the row is added. */
  lemma WriteRankSnapshot(db: Db, c: DuePlayers.Candidate, platform: Regions.Platform, puuid: string,
                          entries: seq<RiotApi.LeagueEntry>, env: Env)
    ensures var r := WriteRank(db, c, platform, puuid, entries, env);
      r.events != [] &&
      (Last(r.events).SyncFailed? ==> r.db.snapshots == db.snapshots) &&
      (Last(r.events).SyncSucceeded? ==>
        |r.db.snapshots| == |db.snapshots| + 1 &&
        (var s := r.db.snapshots[|db.snapshots|];
         s.playerId == c.id && s.queueType == c.queueType && s.fetchedAt == env.clock(c.id) &&
         forall i :: 0 <= i < |r.db.players| && r.db.players[i].id == c.id ==>
           r.db.players[i].lastSyncAt == Some(s.fetchedAt) && r.db.players[i].tier == s.tier &&
           r.db.players[i].division == s.division && r.db.players[i].lp == s.lp &&
           r.db.players[i].wins == s.wins && r.db.players[i].losses == s.losses))
  {
    var solo := PickEntry(entries, c.queueType);
    var now := env.clock(c.id);
    var updated := Queries.UpdatePlayerSync(db, c.id, RankPatch(puuid, solo, OpggUrl(platform, c.gameName, c.tagLine), now));
    assert updated.snapshots == db.snapshots;
  }

  /**
   * The happy path: with a PUUID, league entries on the first call and a
   * fresh snapshot id, the player row gets the rank of the first entry in
   * the player's queue (nulls when none matches), the PUUID, the op.gg URL
   * and the sync time, and the success line is the only event.
   */
  lemma SyncPlayerRecordsRank(db: Db, c: DuePlayers.Candidate, env: Env, platform: Regions.Platform,
                              entries: seq<RiotApi.LeagueEntry>)
    requires !NeedsAccount(c.puuid)
    requires env.provider.league(platform, c.puuid.value)(0) == RiotApi.Ok(entries)
    requires forall x :: x in db.snapshots ==> x.id != env.uuid(c.id)
    ensures var r := TrySync(db, c, platform, env);
      var solo := PickEntry(entries, c.queueType);
      r.events == [SyncSucceeded(c.id, c.gameName, c.tagLine, c.queueType)] &&
      r.db.snapshots == db.snapshots + [Snapshot(env.uuid(c.id), c.id, c.queueType, TierOf(solo), DivisionOf(solo),
                                                 LpOf(solo), WinsOf(solo), LossesOf(solo), env.clock(c.id))] &&
      |r.db.players| == |db.players| &&
      forall i :: 0 <= i < |db.players| && db.players[i].id == c.id ==>
        r.db.players[i].puuid == c.puuid && r.db.players[i].tier == TierOf(solo) &&
        r.db.players[i].division == DivisionOf(solo) && r.db.players[i].lp == LpOf(solo) &&
        r.db.players[i].wins == WinsOf(solo) && r.db.players[i].losses == LossesOf(solo) &&
        r.db.players[i].opggUrl == Some(OpggUrl(platform, c.gameName, c.tagLine)) &&
        r.db.players[i].lastSyncAt == Some(env.clock(c.id))
  {
    assert ResolvePuuid(c, Regions.AccountRegionForPlatform(platform), env) == Lookup(Success(c.puuid.value), []);
    FetchFirstOk(c, platform, c.puuid.value, env, entries);
    WriteRankRecords(db, c, platform, c.puuid.value, entries, env);
    assert TrySync(db, c, platform, env) == WriteRank(db, c, platform, c.puuid.value, entries, env);
  }

  /** A league call that succeeds at once is the lookup's value, with no warning. */
  lemma FetchFirstOk(c: DuePlayers.Candidate, platform: Regions.Platform, puuid: string, env: Env, entries: seq<RiotApi.LeagueEntry>)
    requires env.provider.league(platform, puuid)(0) == RiotApi.Ok(entries)
    ensures FetchEntries(c, platform, puuid, env) == Lookup(Success(entries), [])
  {
  }

  /** With a fresh snapshot id both writes succeed and agree on the rank. */
  lemma WriteRankRecords(db: Db, c: DuePlayers.Candidate, platform: Regions.Platform, puuid: string,
                         entries: seq<RiotApi.LeagueEntry>, env: Env)
    requires forall x :: x in db.snapshots ==> x.id != env.uuid(c.id)
    ensures var r := WriteRank(db, c, platform, puuid, entries, env);
      var solo := PickEntry(entries, c.queueType);
      r.thrown.None? && r.events == [SyncSucceeded(c.id, c.gameName, c.tagLine, c.queueType)] &&
      r.db.snapshots == db.snapshots + [Snapshot(env.uuid(c.id), c.id, c.queueType, TierOf(solo), DivisionOf(solo),
                                                 LpOf(solo), WinsOf(solo), LossesOf(solo), env.clock(c.id))] &&
      |r.db.players| == |db.players| &&
      forall i :: 0 <= i < |db.players| && db.players[i].id == c.id ==>
        r.db.players[i].puuid == Some(puuid) && r.db.players[i].tier == TierOf(solo) &&
        r.db.players[i].division == DivisionOf(solo) && r.db.players[i].lp == LpOf(solo) &&
        r.db.players[i].wins == WinsOf(solo) && r.db.players[i].losses == LossesOf(solo) &&
        r.db.players[i].opggUrl == Some(OpggUrl(platform, c.gameName, c.tagLine)) &&
        r.db.players[i].lastSyncAt == Some(env.clock(c.id))
  {
    var solo := PickEntry(entries, c.queueType);
    var patch := RankPatch(puuid, solo, OpggUrl(platform, c.gameName, c.tagLine), env.clock(c.id));
    var updated := Queries.UpdatePlayerSync(db, c.id, patch);
    assert updated.snapshots == db.snapshots;
  }

  // ---------------------------------------------------------------- batches

  /*
   * The batch lemmas are proved once for `RunSteps` over any step with the
   * property at hand, then instantiated with `PlayerStep`.
   */

  /** Each turn that does not throw logs exactly one outcome, for its own player. */
  ghost predicate OneOutcomeEach(step: (Db, DuePlayers.Candidate) -> Step) {
    forall db, c :: step(db, c).thrown.None? ==> OutcomeIds(step(db, c).events) == [c.id]
  }

  /** A turn throws exactly for the players `ok` rejects, with `message`, and then does nothing. */
  ghost predicate ThrowsWhere(step: (Db, DuePlayers.Candidate) -> Step, ok: DuePlayers.Candidate -> bool,
                              message: DuePlayers.Candidate -> string) {
    forall db, c :: (step(db, c).thrown.Some? <==> !ok(c)) &&
      (step(db, c).thrown.Some? ==> step(db, c) == Step(db, [], Some(message(c))))
  }

  /** Each turn writes only as much as `SyncFrame` allows. */
  ghost predicate FramedEach(step: (Db, DuePlayers.Candidate) -> Step) {
    forall db, c :: SyncFrame(db, step(db, c).db, c.id)
  }

  lemma PlayerStepOutcomes(env: Env)
    ensures OneOutcomeEach(PlayerStep(env))
  {
    forall db, c | PlayerStep(env)(db, c).thrown.None?
      ensures OutcomeIds(PlayerStep(env)(db, c).events) == [c.id]
    {
      SyncPlayerOutcome(db, c, env);
    }
  }

  lemma PlayerStepThrows(env: Env)
    ensures ThrowsWhere(PlayerStep(env), RegionOk, UnsupportedRegion)
  {
    forall db, c
      ensures (PlayerStep(env)(db, c).thrown.Some? <==> !RegionOk(c)) &&
        (PlayerStep(env)(db, c).thrown.Some? ==> PlayerStep(env)(db, c) == Step(db, [], Some(UnsupportedRegion(c))))
    {
      SyncPlayerEscapes(db, c, env);
    }
  }

  lemma PlayerStepFramed(env: Env)
    ensures FramedEach(PlayerStep(env))
  {
    forall db, c
      ensures SyncFrame(db, PlayerStep(env)(db, c).db, c.id)
    {
      SyncPlayerFrame(db, c, env);
    }
  }

  /** Without an escape, every player of the batch gets one outcome, in batch order. */
  lemma {:induction false} StepsOutcomes(db: Db, batch: seq<DuePlayers.Candidate>, step: (Db, DuePlayers.Candidate) -> Step)
    requires OneOutcomeEach(step)
    requires RunSteps(db, batch, step).thrown.None?
    ensures OutcomeIds(RunSteps(db, batch, step).events) == Ids(batch)
    decreases |batch|
  {
    if batch != [] {
      var first := step(db, batch[0]);
      var rest := RunSteps(first.db, batch[1..], step);
      assert RunSteps(db, batch, step).events == first.events + [Slept(API_DELAY_MS)] + rest.events;
      StepsOutcomes(first.db, batch[1..], step);
      TurnOutcomes(first.events, rest.events);
      IdsCons(batch);
    }
  }

  /** The sleep after a turn reports no outcome. */
  lemma TurnOutcomes(turn: seq<Event>, rest: seq<Event>)
    ensures OutcomeIds(turn + [Slept(API_DELAY_MS)] + rest) == OutcomeIds(turn) + OutcomeIds(rest)
  {
    OutcomeIdsConcat(turn, [Slept(API_DELAY_MS)]);
    OutcomeIdsConcat(turn + [Slept(API_DELAY_MS)], rest);
  }

  lemma IdsCons(batch: seq<DuePlayers.Candidate>)
    requires batch != []
    ensures Ids(batch) == [batch[0].id] + Ids(batch[1..])
  {
  }

  /** Without an escape, every batch player is synced once, in batch order, each followed by a sleep. */
  lemma BatchOutcomes(db: Db, batch: seq<DuePlayers.Candidate>, env: Env)
    requires RunBatchSpec(db, batch, env).thrown.None?
    ensures OutcomeIds(RunBatchSpec(db, batch, env).events) == Ids(batch)
  {
    PlayerStepOutcomes(env);
    StepsOutcomes(db, batch, PlayerStep(env));
  }

  predicate RegionOk(c: DuePlayers.Candidate) {
    Regions.NormalizePlatformRegion(c.region).Success?
  }

  /** The error `normalizePlatformRegion` throws for the player's region. */
  function UnsupportedRegion(c: DuePlayers.Candidate): string {
    "Unsupported region: " + c.region
  }

  /** The position of the first player `ok` rejects. */
  function FirstFailing(batch: seq<DuePlayers.Candidate>, ok: DuePlayers.Candidate -> bool): (k: Option<nat>)
    ensures k.None? <==> forall j :: 0 <= j < |batch| ==> ok(batch[j])
    ensures k.Some? ==> k.value < |batch| && !ok(batch[k.value]) && forall j :: 0 <= j < k.value ==> ok(batch[j])
  {
    if batch == [] then None
    else if !ok(batch[0]) then Some(0)
    else
      match FirstFailing(batch[1..], ok)
      case None => None
      case Some(k) => Some(k + 1)
  }

  /** The loop escapes iff some player is rejected; then with the first one's error, after the players before it. */
  lemma {:induction false} StepsEscape(db: Db, batch: seq<DuePlayers.Candidate>, step: (Db, DuePlayers.Candidate) -> Step,
                                       ok: DuePlayers.Candidate -> bool, message: DuePlayers.Candidate -> string)
    requires ThrowsWhere(step, ok, message) && OneOutcomeEach(step)
    ensures RunSteps(db, batch, step).thrown.Some? <==> FirstFailing(batch, ok).Some?
    ensures FirstFailing(batch, ok).Some? ==>
      var k := FirstFailing(batch, ok).value;
      RunSteps(db, batch, step).thrown == Some(message(batch[k])) &&
      OutcomeIds(RunSteps(db, batch, step).events) == Ids(batch[..k])
    decreases |batch|
  {
    if batch != [] {
      var first := step(db, batch[0]);
      if first.thrown.Some? {
        assert batch[..0] == [];
      } else {
        var rest := RunSteps(first.db, batch[1..], step);
        StepsEscape(first.db, batch[1..], step, ok, message);
        TurnOutcomes(first.events, rest.events);
        if FirstFailing(batch[1..], ok).Some? {
          var k := FirstFailing(batch[1..], ok).value;
          assert batch[1..][k] == batch[k + 1];
          IdsOfPrefix(batch, k);
        }
      }
    }
  }

  /**
   * The batch escapes iff one of its players has an unsupported region;
   * then the first such player's error escapes and only the players before
   * it were synced.
   */
  lemma BatchEscapes(db: Db, batch: seq<DuePlayers.Candidate>, env: Env)
    ensures RunBatchSpec(db, batch, env).thrown.Some? <==> FirstFailing(batch, RegionOk).Some?
    ensures FirstFailing(batch, RegionOk).Some? ==>
      var k := FirstFailing(batch, RegionOk).value;
      RunBatchSpec(db, batch, env).thrown == Some("Unsupported region: " + batch[k].region) &&
      OutcomeIds(RunBatchSpec(db, batch, env).events) == Ids(batch[..k])
  {
    PlayerStepOutcomes(env);
    PlayerStepThrows(env);
    StepsEscape(db, batch, PlayerStep(env), RegionOk, UnsupportedRegion);
  }

  lemma IdsOfPrefix(batch: seq<DuePlayers.Candidate>, k: nat)
    requires k < |batch|
    ensures Ids(batch[..k + 1]) == [batch[0].id] + Ids(batch[1..][..k])
  {
    var left := Ids(batch[..k + 1]);
    var right := [batch[0].id] + Ids(batch[1..][..k]);
    forall i | 0 <= i < |left|
      ensures left[i] == right[i]
    {
      if i > 0 {
        assert batch[1..][..k][i - 1] == batch[i];
      }
    }
  }

  /** The rows of players outside the batch stay as they were. */
  lemma {:induction false} StepsFrame(db: Db, batch: seq<DuePlayers.Candidate>, step: (Db, DuePlayers.Candidate) -> Step, i: nat)
    requires FramedEach(step)
    requires i < |db.players| && forall k :: 0 <= k < |batch| ==> batch[k].id != db.players[i].id
    ensures var next := RunSteps(db, batch, step).db;
      |next.players| == |db.players| && next.players[i] == db.players[i]
    decreases |batch|
  {
    if batch != [] {
      var first := step(db, batch[0]);
      assert SyncFrame(db, first.db, batch[0].id);
      if first.thrown.None? {
        StepsFrame(first.db, batch[1..], step, i);
      }
    }
  }

  /** A batch run as a whole touches no player outside the batch. */
  lemma BatchFrame(db: Db, batch: seq<DuePlayers.Candidate>, env: Env, i: nat)
    requires i < |db.players| && forall k :: 0 <= k < |batch| ==> batch[k].id != db.players[i].id
    ensures var next := RunBatchSpec(db, batch, env).db;
      |next.players| == |db.players| && next.players[i] == db.players[i]
  {
    PlayerStepFramed(env);
    StepsFrame(db, batch, PlayerStep(env), i);
  }

  /** Users, groups, memberships and links stay as they were. */
  lemma {:induction false} StepsKeepGroups(db: Db, batch: seq<DuePlayers.Candidate>, step: (Db, DuePlayers.Candidate) -> Step)
    requires FramedEach(step)
    ensures var next := RunSteps(db, batch, step).db;
      next.users == db.users && next.groups == db.groups && next.members == db.members && next.links == db.links
    decreases |batch|
  {
    if batch != [] {
      var first := step(db, batch[0]);
      assert SyncFrame(db, first.db, batch[0].id);
      if first.thrown.None? {
        StepsKeepGroups(first.db, batch[1..], step);
      }
    }
  }

  /** A batch writes only players and snapshots: users, groups, memberships and links stay as they were. */
  lemma BatchKeepsGroups(db: Db, batch: seq<DuePlayers.Candidate>, env: Env)
    ensures var next := RunBatchSpec(db, batch, env).db;
      next.users == db.users && next.groups == db.groups && next.members == db.members && next.links == db.links
  {
    PlayerStepFramed(env);
    StepsKeepGroups(db, batch, PlayerStep(env));
  }

  /** `syncGroupPlayers` leaves the groups, memberships and links alone. */
  lemma SyncGroupKeepsGroups(db: Db, groupId: string, force: bool, limit: Option<int>, env: Env, now: int, parse: string -> Option<int>)
    ensures var next := SyncGroupPlayersSpec(db, groupId, force, limit, env, now, parse).db;
      next.users == db.users && next.groups == db.groups && next.members == db.members && next.links == db.links
  {
    match Queries.GroupSyncSettings(db, groupId)
    case None =>
    case Some(settings) =>
      var due := GroupDue(db, groupId, settings.syncIntervalMinutes, force, now, parse);
      var n := limit.GetOr(DuePlayers.DEFAULT_BATCH_SIZE);
      BatchKeepsGroups(db, GroupCandidates(Seqs.SliceTo(due, n), settings.syncIntervalMinutes), env);
  }

  /** Every player keeps its id, notes, objective and month checkpoint. */
  lemma {:induction false} StepsKeepNotes(db: Db, batch: seq<DuePlayers.Candidate>, step: (Db, DuePlayers.Candidate) -> Step, i: nat)
    requires FramedEach(step)
    requires i < |db.players|
    ensures var next := RunSteps(db, batch, step).db;
      |next.players| == |db.players| && next.players[i].id == db.players[i].id &&
      next.players[i].notes == db.players[i].notes && next.players[i].objective == db.players[i].objective &&
      next.players[i].monthCheckpoint == db.players[i].monthCheckpoint
    decreases |batch|
  {
    if batch != [] {
      var first := step(db, batch[0]);
      assert SyncFrame(db, first.db, batch[0].id);
      if first.thrown.None? {
        StepsKeepNotes(first.db, batch[1..], step, i);
      }
    }
  }

  lemma BatchKeepsNotes(db: Db, batch: seq<DuePlayers.Candidate>, env: Env, i: nat)
    requires i < |db.players|
    ensures var next := RunBatchSpec(db, batch, env).db;
      |next.players| == |db.players| && next.players[i].id == db.players[i].id &&
      next.players[i].notes == db.players[i].notes && next.players[i].objective == db.players[i].objective &&
      next.players[i].monthCheckpoint == db.players[i].monthCheckpoint
  {
    PlayerStepFramed(env);
    StepsKeepNotes(db, batch, PlayerStep(env), i);
  }

  // ---------------------------------------------------------------- the two entry points

  /**
   * `syncDuePlayers` over valid regions: it completes with
   * `{ processed: min(totalDue, limit), totalDue }`, and the players synced
   * are the first `limit` due players (5 by default), in due order.
   */
  lemma SyncDuePlayersReport(db: Db, limit: Option<int>, env: Env, now: int, parse: string -> Option<int>)
    requires forall c :: c in DueNow(db, now, parse) ==> RegionOk(c)
    ensures var due := DueNow(db, now, parse);
      var n := if limit.Some? then limit.value else 5;
      var run := SyncDuePlayersSpec(db, limit, env, now, parse);
      run.outcome == Completed(DuePlayers.Summary(Seqs.Min(|due|, n), |due|)) &&
      (n >= 0 ==> OutcomeIds(run.events) == Ids(due[..Seqs.Min(|due|, n)]))
  {
    var due := DueNow(db, now, parse);
    var n := limit.GetOr(DuePlayers.DEFAULT_BATCH_SIZE);
    var batch := DuePlayers.Batch(due, n);
    BatchEscapes(db, batch, env);
    BatchOutcomes(db, batch, env);
  }

  /** A batch without unsupported regions completes with its summary and one outcome per player, in order. */
  lemma CleanBatch(db: Db, batch: seq<DuePlayers.Candidate>, env: Env, summary: DuePlayers.Summary)
    requires FirstFailing(batch, RegionOk).None?
    ensures Finish(RunBatchSpec(db, batch, env), summary).outcome == Completed(summary)
    ensures OutcomeIds(Finish(RunBatchSpec(db, batch, env), summary).events) == Ids(batch)
  {
    BatchEscapes(db, batch, env);
    BatchOutcomes(db, batch, env);
  }

  /** `syncGroupPlayers` on a group without settings syncs nothing and reports `{0, 0}`. */
  lemma GroupWithoutSettings(db: Db, groupId: string, force: bool, limit: Option<int>, env: Env, now: int, parse: string -> Option<int>)
    requires Queries.GroupSyncSettings(db, groupId).None?
    ensures SyncGroupPlayersSpec(db, groupId, force, limit, env, now, parse) == Run(db, [], Completed(DuePlayers.Summary(0, 0)))
  {
  }

  /** With `force`, every player of the group is due. */
  lemma ForceSelectsAll(db: Db, groupId: string, interval: real, now: int, parse: string -> Option<int>)
    ensures GroupDue(db, groupId, interval, true, now, parse) == Queries.GroupPlayers(db, groupId)
  {
    Seqs.FilterAll(Queries.GroupPlayers(db, groupId), (p: Player) => true || Time.IsPast(p.lastSyncAt, interval, now, parse));
  }

  /** Without `force`, a group player is due iff the group's own interval has passed since its last sync. */
  lemma GroupDueByInterval(db: Db, groupId: string, interval: real, now: int, parse: string -> Option<int>, p: Player)
    ensures p in GroupDue(db, groupId, interval, false, now, parse) <==>
      p in db.players && Link(groupId, p.id) in db.links && Time.IsPast(p.lastSyncAt, interval, now, parse)
  {
  }

  /** A group sync over valid regions syncs the first `limit` due players in table order and reports them. */
  lemma SyncGroupPlayersReport(db: Db, groupId: string, force: bool, limit: Option<int>, env: Env, now: int, parse: string -> Option<int>)
    requires Queries.GroupSyncSettings(db, groupId).Some?
    requires forall p :: p in Queries.GroupPlayers(db, groupId) ==> Regions.NormalizePlatformRegion(p.region).Success?
    ensures var settings := Queries.GroupSyncSettings(db, groupId).value;
      var due := GroupDue(db, groupId, settings.syncIntervalMinutes, force, now, parse);
      var n := if limit.Some? then limit.value else 5;
      var run := SyncGroupPlayersSpec(db, groupId, force, limit, env, now, parse);
      run.outcome == Completed(DuePlayers.Summary(Seqs.Min(|due|, n), |due|)) &&
      (n >= 0 ==> OutcomeIds(run.events) == PlayerIds(due[..Seqs.Min(|due|, n)]))
  {
    var settings := Queries.GroupSyncSettings(db, groupId).value;
    var due := GroupDue(db, groupId, settings.syncIntervalMinutes, force, now, parse);
    var n := limit.GetOr(DuePlayers.DEFAULT_BATCH_SIZE);
    var players := Seqs.SliceTo(due, n);
    var batch := GroupCandidates(players, settings.syncIntervalMinutes);
    forall p | p in players
      ensures p in Queries.GroupPlayers(db, groupId)
    {
      assert p in due;
    }
    GroupBatchReport(db, players, Queries.GroupPlayers(db, groupId), settings.syncIntervalMinutes, env,
      DuePlayers.Summary(Seqs.Min(|due|, n), |due|));
  }

  /** A batch drawn from players with valid regions runs to completion and reports each of them. */
  lemma GroupBatchReport(db: Db, players: seq<Player>, pool: seq<Player>, interval: real, env: Env, summary: DuePlayers.Summary)
    requires forall p :: p in pool ==> Regions.NormalizePlatformRegion(p.region).Success?
    requires forall p :: p in players ==> p in pool
    ensures var run := Finish(RunBatchSpec(db, GroupCandidates(players, interval), env), summary);
      run.outcome == Completed(summary) && OutcomeIds(run.events) == PlayerIds(players)
  {
    var batch := GroupCandidates(players, interval);
    GroupRegionsOk(players, pool, interval);
    CleanBatch(db, batch, env, summary);
    assert Ids(batch) == PlayerIds(players);
  }

  lemma GroupRegionsOk(players: seq<Player>, pool: seq<Player>, interval: real)
    requires forall p :: p in pool ==> Regions.NormalizePlatformRegion(p.region).Success?
    requires forall p :: p in players ==> p in pool
    ensures FirstFailing(GroupCandidates(players, interval), RegionOk).None?
  {
    var batch := GroupCandidates(players, interval);
    forall j | 0 <= j < |batch|
      ensures RegionOk(batch[j])
    {
      assert players[j] in players;
    }
  }

  function PlayerIds(players: seq<Player>): (ids: seq<string>)
    ensures |ids| == |players|
    ensures forall i :: 0 <= i < |players| ==> ids[i] == players[i].id
  {
    seq(|players|, i requires 0 <= i < |players| => players[i].id)
  }
}
