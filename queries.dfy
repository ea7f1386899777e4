/**
 * The queries of lib/db/queries.ts as functions from a database state to
 * the next state and the query's result. Each `where` clause becomes the
 * predicate that picks the rows a write touches; `CURRENT_TIMESTAMP` is the
 * parameter `stamp`. Rows come back in table order: SQLite gives no order
 * without `ORDER BY`, and the `updated_at`/`created_at` orderings are not
 * modelled.
 */
module Queries {
  import opened Wrappers
  import opened Schema
  import Seqs
  import Queues

  /** A write's outcome: the next database state and what the query returns. */
  datatype Written<+T> = Written(db: Db, value: T)

  // ---------------------------------------------------------------- users

  function FindUser(users: seq<User>, id: string): (found: Option<User>)
    ensures found.Some? ==> found.value in users && found.value.id == id
    ensures found.None? <==> forall u :: u in users ==> u.id != id
  {
    Seqs.Find(users, (u: User) => u.id == id)
  }

  /** `update users set email = ? where id = ?`. */
  function SetUserEmail(users: seq<User>, id: string, email: string): (r: seq<User>)
    ensures |r| == |users|
    ensures forall i :: 0 <= i < |users| ==> r[i].id == users[i].id
    ensures forall i :: 0 <= i < |users| && users[i].id != id ==> r[i] == users[i]
    ensures forall i :: 0 <= i < |users| && users[i].id == id ==> r[i].email == Some(email)
  {
    seq(|users|, i requires 0 <= i < |users| => if users[i].id == id then users[i].(email := Some(email)) else users[i])
  }

  /** After the update, the first row with the id is the old first row with the new email. */
  lemma FindAfterSetEmail(users: seq<User>, id: string, email: string)
    requires FindUser(users, id).Some?
    ensures FindUser(SetUserEmail(users, id, email), id) == Some(FindUser(users, id).value.(email := Some(email)))
  {
    var k := FindUserAt(users, id);
    var updated := SetUserEmail(users, id, email);
    FindUserFirst(updated, id, k);
  }

  /** Where `find` stopped: the first user with the id. */
  lemma FindUserAt(users: seq<User>, id: string) returns (k: nat)
    requires FindUser(users, id).Some?
    ensures k < |users| && users[k] == FindUser(users, id).value
    ensures forall j :: 0 <= j < k ==> users[j].id != id
  {
    k :| 0 <= k < |users| && users[k] == FindUser(users, id).value && forall j :: 0 <= j < k ==> users[j].id != id;
  }

  /** The first user with the id is what `find` returns. */
  lemma FindUserFirst(users: seq<User>, id: string, k: nat)
    requires k < |users| && users[k].id == id
    requires forall j :: 0 <= j < k ==> users[j].id != id
    ensures FindUser(users, id) == Some(users[k])
  {
    Seqs.FindFirst(users, (u: User) => u.id == id, k);
  }

  /**
   * `ensureUser`: an existing user is returned as it is unless a different
   * non-empty email is supplied, which then replaces its email; a missing
   * user is inserted with the email given (`None` for `undefined`).
   */
  function EnsureUser(db: Db, id: string, email: Option<string>): (w: Written<Option<User>>)
    ensures w.db.(users := db.users) == db
    ensures w.value.Some? && w.value.value.id == id && w.value == FindUser(w.db.users, id)
    ensures FindUser(db.users, id).None? ==>
      w.db.users == db.users + [User(id, email)] && w.value == Some(User(id, email))
    ensures FindUser(db.users, id).Some? && (email.None? || email == Some("")) ==>
      w == Written(db, FindUser(db.users, id))
    ensures FindUser(db.users, id).Some? && email.Some? && email.value != "" ==>
      w.value == Some(FindUser(db.users, id).value.(email := email)) &&
      |w.db.users| == |db.users| &&
      forall i :: 0 <= i < |db.users| && db.users[i].id != id ==> w.db.users[i] == db.users[i]
  {
    match FindUser(db.users, id)
    case Some(existing) =>
      if email.Some? && email.value != "" && existing.email != email then
        FindAfterSetEmail(db.users, id, email.value);
        var next := db.(users := SetUserEmail(db.users, id, email.value));
        Written(next, FindUser(next.users, id))
      else Written(db, Some(existing))
    case None =>
      var next := db.(users := db.users + [User(id, email)]);
      assert FindUser(next.users, id) == Some(User(id, email)) by {
        Seqs.FindFirst(next.users, (u: User) => u.id == id, |db.users|);
      }
      Written(next, FindUser(next.users, id))
  }

  /** Ensuring the same user twice is the same as ensuring it once. */
  lemma EnsureUserIdempotent(db: Db, id: string, email: Option<string>)
    ensures var w := EnsureUser(db, id, email); EnsureUser(w.db, id, email) == w
  {
  }

  lemma EnsureUserValid(db: Db, id: string, email: Option<string>)
    requires Valid(db)
    ensures Valid(EnsureUser(db, id, email).db)
  {
  }

  // ---------------------------------------------------------------- groups

  /** A `group_members` row ties the user to the group. */
  predicate IsMember(members: seq<Member>, groupId: string, userId: string) {
    exists m :: m in members && m.groupId == groupId && m.userId == userId
  }

  /** `getGroupsForUser`: the groups the user owns or is a member of. */
  function GroupsForUser(db: Db, userId: string): (r: seq<Group>)
    ensures forall g :: g in r <==> g in db.groups && (g.ownerId == userId || IsMember(db.members, g.id, userId))
  {
    Seqs.Filter(db.groups, (g: Group) => g.ownerId == userId || IsMember(db.members, g.id, userId))
  }

  function FindGroup(groups: seq<Group>, id: string): (found: Option<Group>)
    ensures found.Some? ==> found.value in groups && found.value.id == id
    ensures found.None? <==> forall g :: g in groups ==> g.id != id
  {
    Seqs.Find(groups, (g: Group) => g.id == id)
  }

  /** The group part of `getGroupBySlug`. */
  function FindGroupBySlug(groups: seq<Group>, slug: string): (found: Option<Group>)
    ensures found.Some? ==> found.value in groups && found.value.slug == slug
    ensures found.None? <==> forall g :: g in groups ==> g.slug != slug
  {
    Seqs.Find(groups, (g: Group) => g.slug == slug)
  }

  /** The parameters of `createGroup`. */
  datatype NewGroup = NewGroup(
    id: string, name: string, slug: string, ownerId: string,
    isPublic: bool, syncIntervalMinutes: real, manualCooldownMinutes: real)

  function GroupRow(g: NewGroup): Group {
    Group(g.id, g.name, g.slug, g.ownerId, g.isPublic, g.syncIntervalMinutes, g.manualCooldownMinutes, None)
  }

  /**
   * `createGroup`: insert the group, then the owner's membership. The two
   * inserts are separate statements, so a rejected membership leaves the
   * group in place.
   */
  function CreateGroup(db: Db, g: NewGroup): (w: Written<Result<Group, Violation>>)
    ensures w.value.Success? <==>
      (forall x :: x in db.groups ==> x.id != g.id && x.slug != g.slug) && !IsMember(db.members, g.id, g.ownerId)
    ensures w.value.Success? ==>
      w.value.value == GroupRow(g) &&
      w.db == db.(groups := db.groups + [GroupRow(g)], members := db.members + [Member(g.id, g.ownerId, "owner")])
    ensures !(forall x :: x in db.groups ==> x.id != g.id && x.slug != g.slug) ==> w.db == db
    ensures (forall x :: x in db.groups ==> x.id != g.id && x.slug != g.slug) ==>
      w.db.groups == db.groups + [GroupRow(g)] && w.db.(groups := db.groups, members := db.members) == db
  {
    if FindGroup(db.groups, g.id).Some? then Written(db, Failure(Violation("groups", ["id"])))
    else if FindGroupBySlug(db.groups, g.slug).Some? then Written(db, Failure(Violation("groups", ["slug"])))
    else
      var withGroup := db.(groups := db.groups + [GroupRow(g)]);
      if IsMember(db.members, g.id, g.ownerId) then
        Written(withGroup, Failure(Violation("group_members", ["group_id", "user_id"])))
      else
        Written(withGroup.(members := db.members + [Member(g.id, g.ownerId, "owner")]), Success(GroupRow(g)))
  }

  lemma CreateGroupValid(db: Db, g: NewGroup)
    requires Valid(db)
    ensures Valid(CreateGroup(db, g).db)
  {
    var w := CreateGroup(db, g);
    if w.value.Success? {
      assert w.db.members == db.members + [Member(g.id, g.ownerId, "owner")];
      forall i, j | 0 <= i < j < |w.db.members|
        ensures (w.db.members[i].groupId, w.db.members[i].userId) != (w.db.members[j].groupId, w.db.members[j].userId)
      {
        if j == |db.members| {
          assert db.members[i] in db.members;
        }
      }
    }
  }

  /** Applies `f` to the rows with group id `id`. */
  function UpdateGroups(groups: seq<Group>, id: string, f: Group -> Group): (r: seq<Group>)
    ensures |r| == |groups|
    ensures forall i :: 0 <= i < |groups| ==> r[i] == if groups[i].id == id then f(groups[i]) else groups[i]
  {
    seq(|groups|, i requires 0 <= i < |groups| => if groups[i].id == id then f(groups[i]) else groups[i])
  }

  /** `updateGroupSettings`: only the two intervals of the one group change. */
  function UpdateGroupSettings(db: Db, groupId: string, syncIntervalMinutes: real, manualCooldownMinutes: real): (next: Db)
    ensures next.(groups := db.groups) == db
    ensures |next.groups| == |db.groups|
    ensures forall i :: 0 <= i < |db.groups| && db.groups[i].id != groupId ==> next.groups[i] == db.groups[i]
    ensures forall i :: 0 <= i < |db.groups| && db.groups[i].id == groupId ==>
      next.groups[i].(syncIntervalMinutes := 0.0, manualCooldownMinutes := 0.0) ==
        db.groups[i].(syncIntervalMinutes := 0.0, manualCooldownMinutes := 0.0) &&
      next.groups[i].syncIntervalMinutes == syncIntervalMinutes &&
      next.groups[i].manualCooldownMinutes == manualCooldownMinutes
  {
    db.(groups := UpdateGroups(db.groups, groupId,
      (g: Group) => g.(syncIntervalMinutes := syncIntervalMinutes, manualCooldownMinutes := manualCooldownMinutes)))
  }

  /** `touchGroupManualSync`: only the group's `last_manual_sync_at` changes, to the current timestamp. */
  function TouchGroupManualSync(db: Db, groupId: string, stamp: string): (next: Db)
    ensures next.(groups := db.groups) == db
    ensures |next.groups| == |db.groups|
    ensures forall i :: 0 <= i < |db.groups| && db.groups[i].id != groupId ==> next.groups[i] == db.groups[i]
    ensures forall i :: 0 <= i < |db.groups| && db.groups[i].id == groupId ==>
      next.groups[i] == db.groups[i].(lastManualSyncAt := Some(stamp))
  {
    db.(groups := UpdateGroups(db.groups, groupId, (g: Group) => g.(lastManualSyncAt := Some(stamp))))
  }

  /** Updates keep every group's id and slug, so the constraints survive. */
  lemma UpdateGroupsValid(db: Db, next: Db)
    requires Valid(db)
    requires next.(groups := db.groups) == db && |next.groups| == |db.groups|
    requires forall i :: 0 <= i < |db.groups| ==> next.groups[i].id == db.groups[i].id && next.groups[i].slug == db.groups[i].slug
    ensures Valid(next)
  {
  }

  /** What `getGroupSyncSettings` selects. */
  datatype SyncSettings = SyncSettings(syncIntervalMinutes: real, manualCooldownMinutes: real, lastManualSyncAt: Option<string>)

  /** `getGroupSyncSettings`: the settings of the group with that id, or `None` (`undefined`). */
  function GroupSyncSettings(db: Db, groupId: string): (settings: Option<SyncSettings>)
    ensures settings.None? <==> forall g :: g in db.groups ==> g.id != groupId
    ensures settings.Some? ==>
      (exists g :: g in db.groups && g.id == groupId &&
        settings.value == SyncSettings(g.syncIntervalMinutes, g.manualCooldownMinutes, g.lastManualSyncAt))
  {
    match FindGroup(db.groups, groupId)
    case None => None
    case Some(g) => Some(SyncSettings(g.syncIntervalMinutes, g.manualCooldownMinutes, g.lastManualSyncAt))
  }

  /** After an update that keeps ids, the first group with the id is the updated first group. */
  lemma FindAfterUpdate(groups: seq<Group>, id: string, f: Group -> Group)
    requires FindGroup(groups, id).Some?
    requires forall g :: f(g).id == g.id
    ensures FindGroup(UpdateGroups(groups, id, f), id) == Some(f(FindGroup(groups, id).value))
  {
    var k := FindGroupAt(groups, id);
    var updated := UpdateGroups(groups, id, f);
    assert updated[k] == f(groups[k]);
    FindGroupFirst(updated, id, k);
  }

  /** Where `find` stopped: the first group with the id. */
  lemma FindGroupAt(groups: seq<Group>, id: string) returns (k: nat)
    requires FindGroup(groups, id).Some?
    ensures k < |groups| && groups[k] == FindGroup(groups, id).value
    ensures forall j :: 0 <= j < k ==> groups[j].id != id
  {
    k :| 0 <= k < |groups| && groups[k] == FindGroup(groups, id).value && forall j :: 0 <= j < k ==> groups[j].id != id;
  }

  /** The first group with the id is what `find` returns. */
  lemma FindGroupFirst(groups: seq<Group>, id: string, k: nat)
    requires k < |groups| && groups[k].id == id
    requires forall j :: 0 <= j < k ==> groups[j].id != id
    ensures FindGroup(groups, id) == Some(groups[k])
  {
    Seqs.FindFirst(groups, (g: Group) => g.id == id, k);
  }

  /** After a touch, the group's settings report the touch's timestamp and keep their intervals. */
  lemma TouchSetsLastManualSync(db: Db, groupId: string, stamp: string)
    requires GroupSyncSettings(db, groupId).Some?
    ensures GroupSyncSettings(TouchGroupManualSync(db, groupId, stamp), groupId) ==
      Some(GroupSyncSettings(db, groupId).value.(lastManualSyncAt := Some(stamp)))
  {
    FindAfterUpdate(db.groups, groupId, (g: Group) => g.(lastManualSyncAt := Some(stamp)));
  }

  // ---------------------------------------------------------------- players

  /** `findPlayerByIdentity`. */
  function FindPlayerByIdentity(players: seq<Player>, gameName: string, tagLine: string, region: string): (found: Option<Player>)
    ensures found.Some? ==>
      (found.value in players &&
       found.value.gameName == gameName && found.value.tagLine == tagLine && found.value.region == region)
    ensures found.None? <==> forall p :: p in players ==> !(p.gameName == gameName && p.tagLine == tagLine && p.region == region)
  {
    Seqs.Find(players, (p: Player) => p.gameName == gameName && p.tagLine == tagLine && p.region == region)
  }

  /** The unique identity index: at most one player has a given identity. */
  lemma IdentityUnique(players: seq<Player>, p: Player, q: Player)
    requires PlayersKeyed(players)
    requires p in players && q in players && SameIdentity(p, q)
    ensures p == q
  {
    var i :| 0 <= i < |players| && players[i] == p;
    var j :| 0 <= j < |players| && players[j] == q;
  }

  function FindPlayer(players: seq<Player>, id: string): (found: Option<Player>)
    ensures found.Some? ==> found.value in players && found.value.id == id
    ensures found.None? <==> forall p :: p in players ==> p.id != id
  {
    Seqs.Find(players, (p: Player) => p.id == id)
  }

  /** A freshly inserted player: only identity, queue and op.gg URL set. */
  function PlayerRow(id: string, gameName: string, tagLine: string, region: string, queueType: string, opggUrl: Option<string>): Player {
    Player(id, gameName, tagLine, region, Some(queueType), None, opggUrl, None, None, None, None, None, None, None, None, None)
  }

  /**
   * `createPlayer`: rejected on a duplicate id or identity; otherwise the row
   * is appended with the queue type defaulting to solo/duo and returned.
   */
  function CreatePlayer(db: Db, id: string, gameName: string, tagLine: string, region: string,
                        queueType: Option<string>, opggUrl: Option<string>): (w: Written<Result<Player, Violation>>)
    ensures w.value.Success? <==>
      forall p :: p in db.players ==> p.id != id && !(p.gameName == gameName && p.tagLine == tagLine && p.region == region)
    ensures w.value.Failure? ==> w.db == db
    ensures w.value.Success? ==>
      w.value.value == PlayerRow(id, gameName, tagLine, region, queueType.GetOr(Queues.QUEUE_SOLO), opggUrl) &&
      w.db == db.(players := db.players + [w.value.value])
    ensures w.value.Success? && queueType.None? ==> w.value.value.queueType == Some("RANKED_SOLO_5x5")
  {
    if FindPlayer(db.players, id).Some? then Written(db, Failure(Violation("players", ["id"])))
    else if FindPlayerByIdentity(db.players, gameName, tagLine, region).Some? then
      Written(db, Failure(Violation("players", ["game_name", "tag_line", "region"])))
    else
      var row := PlayerRow(id, gameName, tagLine, region, queueType.GetOr(Queues.QUEUE_SOLO), opggUrl);
      var next := db.(players := db.players + [row]);
      assert FindPlayer(next.players, id) == Some(row) by {
        Seqs.FindFirst(next.players, (p: Player) => p.id == id, |db.players|);
      }
      Written(next, Success(row))
  }

  lemma CreatePlayerValid(db: Db, id: string, gameName: string, tagLine: string, region: string,
                          queueType: Option<string>, opggUrl: Option<string>)
    requires Valid(db)
    ensures Valid(CreatePlayer(db, id, gameName, tagLine, region, queueType, opggUrl).db)
  {
    var w := CreatePlayer(db, id, gameName, tagLine, region, queueType, opggUrl);
    if w.value.Success? {
      forall i, j | 0 <= i < j < |w.db.players|
        ensures w.db.players[i].id != w.db.players[j].id && !SameIdentity(w.db.players[i], w.db.players[j])
      {
        if j == |db.players| {
          assert db.players[i] in db.players;
        }
      }
    }
  }

  /** A freshly created player is found by its identity. */
  lemma CreatedPlayerFound(db: Db, id: string, gameName: string, tagLine: string, region: string,
                           queueType: Option<string>, opggUrl: Option<string>)
    requires CreatePlayer(db, id, gameName, tagLine, region, queueType, opggUrl).value.Success?
    ensures var w := CreatePlayer(db, id, gameName, tagLine, region, queueType, opggUrl);
      FindPlayerByIdentity(w.db.players, gameName, tagLine, region) == Some(w.value.value)
  {
    var w := CreatePlayer(db, id, gameName, tagLine, region, queueType, opggUrl);
    Seqs.FindFirst(w.db.players, (p: Player) => p.gameName == gameName && p.tagLine == tagLine && p.region == region, |db.players|);
  }

  /** Applies `f` to the rows with player id `id`. */
  function UpdatePlayers(players: seq<Player>, id: string, f: Player -> Player): (r: seq<Player>)
    ensures |r| == |players|
    ensures forall i :: 0 <= i < |players| ==> r[i] == if players[i].id == id then f(players[i]) else players[i]
  {
    seq(|players|, i requires 0 <= i < |players| => if players[i].id == id then f(players[i]) else players[i])
  }

  /** `updatePlayerMeta`: the three editable notes of one player, and nothing else. */
  function UpdatePlayerMeta(db: Db, playerId: string, notes: Option<string>, objective: Option<string>, monthCheckpoint: Option<string>): (next: Db)
    ensures next.(players := db.players) == db
    ensures |next.players| == |db.players|
    ensures forall i :: 0 <= i < |db.players| && db.players[i].id != playerId ==> next.players[i] == db.players[i]
    ensures forall i :: 0 <= i < |db.players| && db.players[i].id == playerId ==>
      next.players[i].notes == notes && next.players[i].objective == objective && next.players[i].monthCheckpoint == monthCheckpoint
    ensures forall i :: 0 <= i < |db.players| ==> SameRank(next.players[i], db.players[i])
  {
    db.(players := UpdatePlayers(db.players, playerId,
      (p: Player) => p.(notes := notes, objective := objective, monthCheckpoint := monthCheckpoint)))
  }

  /** Identity, queue, rank and sync columns agree. */
  predicate SameRank(p: Player, q: Player) {
    p.id == q.id && SameIdentity(p, q) && p.queueType == q.queueType && p.puuid == q.puuid && p.opggUrl == q.opggUrl &&
    p.tier == q.tier && p.division == q.division && p.lp == q.lp && p.wins == q.wins && p.losses == q.losses &&
    p.lastSyncAt == q.lastSyncAt
  }

  /** A column of `updatePlayerSync`: `undefined` leaves it, anything else (including `null`) writes it. */
  datatype Patch<+T> = Keep | Set(value: T)

  /** The parameters of `updatePlayerSync` after `playerId`. */
  datatype SyncPatch = SyncPatch(
    queueType: Patch<string>,
    puuid: Patch<string>,
    tier: Patch<Option<string>>,
    division: Patch<Option<string>>,
    lp: Patch<Option<int>>,
    wins: Patch<Option<int>>,
    losses: Patch<Option<int>>,
    opggUrl: Patch<Option<string>>,
    lastSyncAt: string)

  function PatchOf<T>(p: Patch<T>, current: T): T {
    if p.Keep? then current else p.value
  }

  function PatchOptional<T>(p: Patch<T>, current: Option<T>): Option<T> {
    if p.Keep? then current else Some(p.value)
  }

  /** One row with the patch applied. */
  function ApplySync(p: Player, patch: SyncPatch): (q: Player)
    ensures q.id == p.id && SameIdentity(p, q)
    ensures q.notes == p.notes && q.objective == p.objective && q.monthCheckpoint == p.monthCheckpoint
    ensures q.lastSyncAt == Some(patch.lastSyncAt)
    ensures patch.tier.Set? ==> q.tier == patch.tier.value
    ensures patch.tier.Keep? ==> q.tier == p.tier
    ensures patch.puuid.Set? ==> q.puuid == Some(patch.puuid.value)
    ensures patch.puuid.Keep? ==> q.puuid == p.puuid
    ensures patch.queueType.Set? ==> q.queueType == Some(patch.queueType.value)
    ensures patch.queueType.Keep? ==> q.queueType == p.queueType
    ensures patch.division.Set? ==> q.division == patch.division.value
    ensures patch.division.Keep? ==> q.division == p.division
    ensures patch.lp.Set? ==> q.lp == patch.lp.value
    ensures patch.lp.Keep? ==> q.lp == p.lp
    ensures patch.wins.Set? ==> q.wins == patch.wins.value
    ensures patch.wins.Keep? ==> q.wins == p.wins
    ensures patch.losses.Set? ==> q.losses == patch.losses.value
    ensures patch.losses.Keep? ==> q.losses == p.losses
    ensures patch.opggUrl.Set? ==> q.opggUrl == patch.opggUrl.value
    ensures patch.opggUrl.Keep? ==> q.opggUrl == p.opggUrl
  {
    p.(queueType := PatchOptional(patch.queueType, p.queueType),
       puuid := PatchOptional(patch.puuid, p.puuid),
       tier := PatchOf(patch.tier, p.tier),
       division := PatchOf(patch.division, p.division),
       lp := PatchOf(patch.lp, p.lp),
       wins := PatchOf(patch.wins, p.wins),
       losses := PatchOf(patch.losses, p.losses),
       opggUrl := PatchOf(patch.opggUrl, p.opggUrl),
       lastSyncAt := Some(patch.lastSyncAt))
  }

  /** `updatePlayerSync`: only the one player's row, and in it only the columns the patch sets. */
  function UpdatePlayerSync(db: Db, playerId: string, patch: SyncPatch): (next: Db)
    ensures next.(players := db.players) == db
    ensures |next.players| == |db.players|
    ensures forall i :: 0 <= i < |db.players| && db.players[i].id != playerId ==> next.players[i] == db.players[i]
    ensures forall i :: 0 <= i < |db.players| && db.players[i].id == playerId ==> next.players[i] == ApplySync(db.players[i], patch)
    ensures forall i :: 0 <= i < |db.players| ==>
      next.players[i].notes == db.players[i].notes && next.players[i].objective == db.players[i].objective &&
      next.players[i].monthCheckpoint == db.players[i].monthCheckpoint
  {
    db.(players := UpdatePlayers(db.players, playerId, (p: Player) => ApplySync(p, patch)))
  }

  /** Player updates keep ids and identities, so the constraints survive. */
  lemma UpdatePlayersValid(db: Db, next: Db)
    requires Valid(db)
    requires next.(players := db.players) == db && |next.players| == |db.players|
    requires forall i :: 0 <= i < |db.players| ==> next.players[i].id == db.players[i].id && SameIdentity(next.players[i], db.players[i])
    ensures Valid(next)
  {
  }

  // ---------------------------------------------------------------- group membership of players

  /** `addPlayerToGroup`: `insert … on conflict do nothing` under the composite key. */
  function AddPlayerToGroup(db: Db, groupId: string, playerId: string): (next: Db)
    ensures next.(links := db.links) == db
    ensures Link(groupId, playerId) in next.links
    ensures forall l :: l in next.links <==> l in db.links || l == Link(groupId, playerId)
    ensures Link(groupId, playerId) in db.links ==> next == db
    ensures Link(groupId, playerId) !in db.links ==> next.links == db.links + [Link(groupId, playerId)]
  {
    if Link(groupId, playerId) in db.links then db else db.(links := db.links + [Link(groupId, playerId)])
  }

  /** Linking twice is linking once. */
  lemma AddPlayerToGroupIdempotent(db: Db, groupId: string, playerId: string)
    ensures AddPlayerToGroup(AddPlayerToGroup(db, groupId, playerId), groupId, playerId) == AddPlayerToGroup(db, groupId, playerId)
  {
  }

  lemma AddPlayerToGroupValid(db: Db, groupId: string, playerId: string)
    requires Valid(db)
    ensures Valid(AddPlayerToGroup(db, groupId, playerId))
  {
    var next := AddPlayerToGroup(db, groupId, playerId);
    forall i, j | 0 <= i < j < |next.links|
      ensures next.links[i] != next.links[j]
    {
      if j == |db.links| {
        assert db.links[i] in db.links;
      }
    }
  }

  /** `removePlayerFromGroup`: deletes the row matching both ids and no other. */
  function RemovePlayerFromGroup(db: Db, groupId: string, playerId: string): (next: Db)
    ensures next.(links := db.links) == db
    ensures forall l :: l in next.links <==> l in db.links && l != Link(groupId, playerId)
    ensures Link(groupId, playerId) !in db.links ==> next == db
  {
    var kept := Seqs.Filter(db.links, (l: Link) => !(l.groupId == groupId && l.playerId == playerId));
    if Link(groupId, playerId) !in db.links then
      Seqs.FilterAll(db.links, (l: Link) => !(l.groupId == groupId && l.playerId == playerId));
      db
    else db.(links := kept)
  }

  lemma {:induction false} FilterKeyed(links: seq<Link>, p: Link -> bool)
    requires LinksKeyed(links)
    ensures LinksKeyed(Seqs.Filter(links, p))
  {
    if links != [] {
      FilterKeyed(links[1..], p);
      var rest := Seqs.Filter(links[1..], p);
      if p(links[0]) {
        var r := [links[0]] + rest;
        forall i, j | 0 <= i < j < |r|
          ensures r[i] != r[j]
        {
          if i == 0 {
            assert r[j] in rest;
            assert r[j] in links[1..];
          }
        }
      }
    }
  }

  lemma RemovePlayerFromGroupValid(db: Db, groupId: string, playerId: string)
    requires Valid(db)
    ensures Valid(RemovePlayerFromGroup(db, groupId, playerId))
  {
    FilterKeyed(db.links, (l: Link) => !(l.groupId == groupId && l.playerId == playerId));
  }

  /** Removing a link just added restores the links that were there, as a set. */
  lemma RemoveUndoesAdd(db: Db, groupId: string, playerId: string)
    requires Link(groupId, playerId) !in db.links
    ensures forall l :: l in RemovePlayerFromGroup(AddPlayerToGroup(db, groupId, playerId), groupId, playerId).links <==> l in db.links
  {
  }

  /** `getGroupPlayers`: the players linked to the group. */
  function GroupPlayers(db: Db, groupId: string): (r: seq<Player>)
    ensures forall p :: p in r <==> p in db.players && Link(groupId, p.id) in db.links
    ensures |r| <= |db.players|
  {
    Seqs.Filter(db.players, (p: Player) => Link(groupId, p.id) in db.links)
  }

  /** A row of `getPlayersForSync`: the player's sync columns and one public group's interval. */
  datatype SyncRow = SyncRow(
    id: string, gameName: string, tagLine: string, region: string,
    queueType: Option<string>, puuid: Option<string>, lastSyncAt: Option<string>,
    groupId: string, syncIntervalMinutes: real)

  function JoinRow(p: Player, g: Group): SyncRow {
    SyncRow(p.id, p.gameName, p.tagLine, p.region, p.queueType, p.puuid, p.lastSyncAt, g.id, g.syncIntervalMinutes)
  }

  /** The public groups with id `groupId`, joined with `p`. */
  function JoinGroups(p: Player, groupId: string, groups: seq<Group>): (r: seq<SyncRow>)
    ensures forall row :: row in r <==> exists g :: g in groups && g.id == groupId && g.isPublic && row == JoinRow(p, g)
  {
    Seqs.FlatMap(groups, (g: Group) => if g.id == groupId && g.isPublic then [JoinRow(p, g)] else [])
  }

  /** Every public group linked to `p`, joined with `p`. */
  function JoinLinks(p: Player, links: seq<Link>, groups: seq<Group>): (r: seq<SyncRow>)
    ensures forall row :: row in r <==>
      exists g :: g in groups && g.isPublic && Link(g.id, p.id) in links && row == JoinRow(p, g)
  {
    var r := Seqs.FlatMap(links, (l: Link) => if l.playerId == p.id then JoinGroups(p, l.groupId, groups) else []);
    assert forall row :: row in r <==>
      exists g :: g in groups && g.isPublic && Link(g.id, p.id) in links && row == JoinRow(p, g) by {
      forall row | row in r
        ensures exists g :: g in groups && g.isPublic && Link(g.id, p.id) in links && row == JoinRow(p, g)
      {
        var l :| l in links && row in (if l.playerId == p.id then JoinGroups(p, l.groupId, groups) else []);
        var g :| g in groups && g.id == l.groupId && g.isPublic && row == JoinRow(p, g);
        assert l == Link(g.id, p.id);
      }
      forall row | exists g :: g in groups && g.isPublic && Link(g.id, p.id) in links && row == JoinRow(p, g)
        ensures row in r
      {
        var g :| g in groups && g.isPublic && Link(g.id, p.id) in links && row == JoinRow(p, g);
        var l := Link(g.id, p.id);
        assert row in (if l.playerId == p.id then JoinGroups(p, l.groupId, groups) else []);
      }
    }
    r
  }

  /**
   * `getPlayersForSync`: one row per player and public group it belongs to;
   * players only in private groups, and unlinked players, do not appear.
   */
  function PlayersForSync(db: Db): (rows: seq<SyncRow>)
    ensures forall row :: row in rows <==>
      exists p, g :: p in db.players && g in db.groups && g.isPublic && Link(g.id, p.id) in db.links && row == JoinRow(p, g)
  {
    var rows := Seqs.FlatMap(db.players, (p: Player) => JoinLinks(p, db.links, db.groups));
    assert forall row :: row in rows <==>
      exists p, g :: p in db.players && g in db.groups && g.isPublic && Link(g.id, p.id) in db.links && row == JoinRow(p, g) by {
      forall row | row in rows
        ensures exists p, g :: p in db.players && g in db.groups && g.isPublic && Link(g.id, p.id) in db.links && row == JoinRow(p, g)
      {
        var p :| p in db.players && row in JoinLinks(p, db.links, db.groups);
      }
      forall row | exists p, g :: p in db.players && g in db.groups && g.isPublic && Link(g.id, p.id) in db.links && row == JoinRow(p, g)
        ensures row in rows
      {
        var p, g :| p in db.players && g in db.groups && g.isPublic && Link(g.id, p.id) in db.links && row == JoinRow(p, g);
        assert row in JoinLinks(p, db.links, db.groups);
      }
    }
    rows
  }

  // ---------------------------------------------------------------- snapshots

  /** `insertRankSnapshot`: appends exactly the one row unless its id is taken. */
  function InsertRankSnapshot(db: Db, s: Snapshot): (w: Written<Option<Violation>>)
    ensures w.value.None? <==> forall x :: x in db.snapshots ==> x.id != s.id
    ensures w.value.None? ==> w.db == db.(snapshots := db.snapshots + [s])
    ensures w.value.Some? ==> w.db == db
  {
    if exists x :: x in db.snapshots && x.id == s.id then Written(db, Some(Violation("rank_snapshots", ["id"])))
    else Written(db.(snapshots := db.snapshots + [s]), None)
  }

  lemma InsertRankSnapshotValid(db: Db, s: Snapshot)
    requires Valid(db)
    ensures Valid(InsertRankSnapshot(db, s).db)
  {
    var w := InsertRankSnapshot(db, s);
    if w.value.None? {
      forall i, j | 0 <= i < j < |w.db.snapshots|
        ensures w.db.snapshots[i].id != w.db.snapshots[j].id
      {
        if j == |db.snapshots| {
          assert db.snapshots[i] in db.snapshots;
        }
      }
    }
  }
}
