/**
 * The tables of lib/db/schema.ts as in-memory rows, and the key and
 * uniqueness constraints SQLite enforces on them. The `created_at` and
 * `updated_at` columns and the foreign keys are not modelled.
 */
module Schema {
  import opened Wrappers

  /** `users`. */
  datatype User = User(id: string, email: Option<string>)

  /** `groups`. Minutes are exact rationals (the validators accept 0.5). */
  datatype Group = Group(
    id: string,
    name: string,
    slug: string,
    ownerId: string,
    isPublic: bool,
    syncIntervalMinutes: real,
    manualCooldownMinutes: real,
    lastManualSyncAt: Option<string>)

  /** `group_members`. */
  datatype Member = Member(groupId: string, userId: string, role: string)

  /** `players`, with the `queue_type` column lib/db/queries.ts reads and writes. */
  datatype Player = Player(
    id: string,
    gameName: string,
    tagLine: string,
    region: string,
    queueType: Option<string>,
    puuid: Option<string>,
    opggUrl: Option<string>,
    tier: Option<string>,
    division: Option<string>,
    lp: Option<int>,
    wins: Option<int>,
    losses: Option<int>,
    notes: Option<string>,
    objective: Option<string>,
    monthCheckpoint: Option<string>,
    lastSyncAt: Option<string>)

  /** `group_players`. */
  datatype Link = Link(groupId: string, playerId: string)

  /** `rank_snapshots`. */
  datatype Snapshot = Snapshot(
    id: string,
    playerId: string,
    queueType: string,
    tier: Option<string>,
    division: Option<string>,
    lp: Option<int>,
    wins: Option<int>,
    losses: Option<int>,
    fetchedAt: string)

  /** The whole database: one sequence of rows per table, in insertion order. */
  datatype Db = Db(
    users: seq<User>,
    groups: seq<Group>,
    members: seq<Member>,
    players: seq<Player>,
    links: seq<Link>,
    snapshots: seq<Snapshot>)

  /** A rejected write: the table and the columns of the violated key or unique index. */
  datatype Violation = Violation(table: string, columns: seq<string>)

  predicate UsersKeyed(users: seq<User>) {
    forall i, j :: 0 <= i < j < |users| ==> users[i].id != users[j].id
  }

  predicate GroupsKeyed(groups: seq<Group>) {
    forall i, j :: 0 <= i < j < |groups| ==> groups[i].id != groups[j].id && groups[i].slug != groups[j].slug
  }

  predicate MembersKeyed(members: seq<Member>) {
    forall i, j :: 0 <= i < j < |members| ==>
      (members[i].groupId, members[i].userId) != (members[j].groupId, members[j].userId)
  }

  /** Two players with the same Riot id in the same region. */
  predicate SameIdentity(p: Player, q: Player) {
    p.gameName == q.gameName && p.tagLine == q.tagLine && p.region == q.region
  }

  predicate PlayersKeyed(players: seq<Player>) {
    forall i, j :: 0 <= i < j < |players| ==> players[i].id != players[j].id && !SameIdentity(players[i], players[j])
  }

  predicate LinksKeyed(links: seq<Link>) {
    forall i, j :: 0 <= i < j < |links| ==> links[i] != links[j]
  }

  predicate SnapshotsKeyed(snapshots: seq<Snapshot>) {
    forall i, j :: 0 <= i < j < |snapshots| ==> snapshots[i].id != snapshots[j].id
  }

  /**
   * The schema's constraints: primary keys of every table, the unique slug
   * (line 40), the unique player identity (lines 89-93) and the composite
   * keys of the two join tables (lines 60 and 110-112).
   */
  predicate Valid(db: Db) {
    UsersKeyed(db.users) && GroupsKeyed(db.groups) && MembersKeyed(db.members) &&
    PlayersKeyed(db.players) && LinksKeyed(db.links) && SnapshotsKeyed(db.snapshots)
  }
}
