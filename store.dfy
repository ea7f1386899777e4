/**
 * The database lib/db/queries.ts writes to, as an object whose table fields
 * the queries update in place. Each method's new state is the matching
 * function of module Queries applied to the old state, and every method
 * keeps the schema's key constraints.
 */
module Store {
  import opened Wrappers
  import opened Schema
  import Queries

  class Database {
    var users: seq<User>
    var groups: seq<Group>
    var members: seq<Member>
    var players: seq<Player>
    var links: seq<Link>
    var snapshots: seq<Snapshot>

    /** The tables as one value. */
    function State(): Db
      reads this
    {
      Db(users, groups, members, players, links, snapshots)
    }

    /** The class invariant: the schema's keys and unique indexes hold. */
    ghost predicate Valid()
      reads this
    {
      Schema.Valid(State())
    }

    constructor (db: Db)
      requires Schema.Valid(db)
      ensures State() == db && Valid()
    {
      users, groups, members, players, links, snapshots := db.users, db.groups, db.members, db.players, db.links, db.snapshots;
    }

    method EnsureUser(id: string, email: Option<string>) returns (user: Option<User>)
      requires Valid()
      modifies this
      ensures Valid()
      ensures Queries.Written(State(), user) == Queries.EnsureUser(old(State()), id, email)
    {
      var w := Queries.EnsureUser(State(), id, email);
      Queries.EnsureUserValid(State(), id, email);
      users := w.db.users;
      user := w.value;
    }

    method CreateGroup(g: Queries.NewGroup) returns (created: Result<Group, Violation>)
      requires Valid()
      modifies this
      ensures Valid()
      ensures Queries.Written(State(), created) == Queries.CreateGroup(old(State()), g)
    {
      var w := Queries.CreateGroup(State(), g);
      Queries.CreateGroupValid(State(), g);
      groups, members := w.db.groups, w.db.members;
      created := w.value;
    }

    method UpdateGroupSettings(groupId: string, syncIntervalMinutes: real, manualCooldownMinutes: real)
      requires Valid()
      modifies this
      ensures Valid()
      ensures State() == Queries.UpdateGroupSettings(old(State()), groupId, syncIntervalMinutes, manualCooldownMinutes)
    {
      var next := Queries.UpdateGroupSettings(State(), groupId, syncIntervalMinutes, manualCooldownMinutes);
      Queries.UpdateGroupsValid(State(), next);
      groups := next.groups;
    }

    method TouchGroupManualSync(groupId: string, stamp: string)
      requires Valid()
      modifies this
      ensures Valid()
      ensures State() == Queries.TouchGroupManualSync(old(State()), groupId, stamp)
    {
      var next := Queries.TouchGroupManualSync(State(), groupId, stamp);
      Queries.UpdateGroupsValid(State(), next);
      groups := next.groups;
    }

    method CreatePlayer(id: string, gameName: string, tagLine: string, region: string,
                        queueType: Option<string>, opggUrl: Option<string>) returns (created: Result<Player, Violation>)
      requires Valid()
      modifies this
      ensures Valid()
      ensures Queries.Written(State(), created) == Queries.CreatePlayer(old(State()), id, gameName, tagLine, region, queueType, opggUrl)
    {
      var w := Queries.CreatePlayer(State(), id, gameName, tagLine, region, queueType, opggUrl);
      Queries.CreatePlayerValid(State(), id, gameName, tagLine, region, queueType, opggUrl);
      players := w.db.players;
      created := w.value;
    }

    method AddPlayerToGroup(groupId: string, playerId: string)
      requires Valid()
      modifies this
      ensures Valid()
      ensures State() == Queries.AddPlayerToGroup(old(State()), groupId, playerId)
    {
      var next := Queries.AddPlayerToGroup(State(), groupId, playerId);
      Queries.AddPlayerToGroupValid(State(), groupId, playerId);
      links := next.links;
    }

    method RemovePlayerFromGroup(groupId: string, playerId: string)
      requires Valid()
      modifies this
      ensures Valid()
      ensures State() == Queries.RemovePlayerFromGroup(old(State()), groupId, playerId)
    {
      var next := Queries.RemovePlayerFromGroup(State(), groupId, playerId);
      Queries.RemovePlayerFromGroupValid(State(), groupId, playerId);
      links := next.links;
    }

    method UpdatePlayerMeta(playerId: string, notes: Option<string>, objective: Option<string>, monthCheckpoint: Option<string>)
      requires Valid()
      modifies this
      ensures Valid()
      ensures State() == Queries.UpdatePlayerMeta(old(State()), playerId, notes, objective, monthCheckpoint)
    {
      var next := Queries.UpdatePlayerMeta(State(), playerId, notes, objective, monthCheckpoint);
      Queries.UpdatePlayersValid(State(), next);
      players := next.players;
    }

    method UpdatePlayerSync(playerId: string, patch: Queries.SyncPatch)
      requires Valid()
      modifies this
      ensures Valid()
      ensures State() == Queries.UpdatePlayerSync(old(State()), playerId, patch)
    {
      var next := Queries.UpdatePlayerSync(State(), playerId, patch);
      Queries.UpdatePlayersValid(State(), next);
      players := next.players;
    }

    method InsertRankSnapshot(s: Snapshot) returns (rejected: Option<Violation>)
      requires Valid()
      modifies this
      ensures Valid()
      ensures Queries.Written(State(), rejected) == Queries.InsertRankSnapshot(old(State()), s)
    {
      var w := Queries.InsertRankSnapshot(State(), s);
      Queries.InsertRankSnapshotValid(State(), s);
      snapshots := w.db.snapshots;
      rejected := w.value;
    }
  }
}
