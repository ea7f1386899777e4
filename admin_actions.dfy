/**
 * The server actions of app/admin/actions.ts. Each action first ensures the
 * signed-in user's row, then checks group access unless the user is an
 * admin, then writes through the store. A thrown `Error` is the outcome
 * `Thrown`; returning normally is `Returned`. Form parsing is modelled in
 * module Validations, so each action starts from the parsed input.
 */
module AdminActions {
  import opened Wrappers
  import opened Schema
  import Time
  import Regions
  import Slug
  import AdminAuth
  import Queries
  import Store
  import Sync
  import SyncProperties
  import Validations

  /** What the session reports: the user id and the primary email, if any. */
  datatype Session = Session(userId: string, email: Option<string>)

  /**
   * How an action ends. `Unbound` is an exception raised while a query is
   * built or bound because a parameter is not a SQL value; its text belongs
   * to the ORM and the driver and is not modelled.
   */
  datatype Done = Returned | Thrown(message: string) | Unbound

  /** The state an action leaves and how it ended. */
  datatype Effect = Effect(db: Db, done: Done)

  const NO_ACCESS := "No access to group"
  const INVALID_SLUG := "Slug inv\U{e1}lido"
  const MANUAL_SYNC_LIMIT := 5

  // ---------------------------------------------------------------- session and access

  /** The state after `requireUser`: the session's user row ensured. */
  function Signed(db: Db, session: Session): (signed: Db)
    ensures signed.(users := db.users) == db
  {
    Queries.EnsureUser(db, session.userId, session.email).db
  }

  /** `requireUser`: ensures the user row and reports whether the email is on the admin allowlist. */
  method RequireUser(store: Store.Database, session: Session, allowlist: Option<string>) returns (isAdmin: bool)
    requires store.Valid()
    modifies store
    ensures store.Valid()
    ensures store.State() == Signed(old(store.State()), session)
    ensures isAdmin == AdminAuth.IsAdminEmail(allowlist, session.email)
  {
    var user := store.EnsureUser(session.userId, session.email);
    isAdmin := AdminAuth.IsAdminEmail(allowlist, session.email);
  }

  /** `assertGroupAccess`: the group must be among the user's groups, else "No access to group". */
  function AccessCheck(db: Db, userId: string, groupId: string): (denied: Option<string>)
    ensures denied.None? <==>
      exists g :: g in db.groups && g.id == groupId && (g.ownerId == userId || Queries.IsMember(db.members, groupId, userId))
    ensures denied.Some? ==> denied.value == NO_ACCESS
  {
    if exists g :: g in Queries.GroupsForUser(db, userId) && g.id == groupId then None else Some(NO_ACCESS)
  }

  /** The access step of the mutating actions: skipped for admins. */
  function Gate(db: Db, userId: string, isAdmin: bool, groupId: string): Option<string> {
    if isAdmin then None else AccessCheck(db, userId, groupId)
  }

  /** Ensuring the user row changes only users, so it never changes the access answer. */
  lemma AccessSurvivesSignIn(db: Db, session: Session, userId: string, groupId: string)
    ensures AccessCheck(Signed(db, session), userId, groupId) == AccessCheck(db, userId, groupId)
  {
    var signed := Signed(db, session);
    assert signed.groups == db.groups && signed.members == db.members;
  }

  /** Admins pass every access check; others pass exactly when they own or belong to the group. */
  lemma GateAllows(db: Db, userId: string, isAdmin: bool, groupId: string)
    ensures Gate(db, userId, isAdmin, groupId).None? <==>
      isAdmin || exists g :: g in db.groups && g.id == groupId && (g.ownerId == userId || Queries.IsMember(db.members, groupId, userId))
  {
  }

  // ---------------------------------------------------------------- slug search

  /** A slug in use by some group: what `getGroupBySlug` finds. */
  predicate Taken(groups: seq<Group>, slug: string) {
    Queries.FindGroupBySlug(groups, slug).Some?
  }

  /** The `n`-th slug tried: the base slug, then `base-2`, `base-3`, … */
  function Candidate(base: string, n: nat): (slug: string)
    requires n >= 1
    ensures n == 1 ==> slug == base
    ensures n >= 2 ==> |slug| > |base| + 1 && slug[..|base|] == base && slug[|base|] == '-'
  {
    if n == 1 then base else Slug.WithSlugSuffix(base, n)
  }

  /** All candidates are different strings. */
  lemma CandidateInjective(base: string, m: nat, n: nat)
    requires m >= 1 && n >= 1
    requires Candidate(base, m) == Candidate(base, n)
    ensures m == n
  {
    if m >= 2 && n >= 2 {
      Slug.WithSlugSuffixInjective(base, m, n);
    }
  }

  /** `slug` is the first free candidate: free itself, with every earlier candidate taken. */
  ghost predicate LeastFree(groups: seq<Group>, base: string, slug: string) {
    !Taken(groups, slug) &&
    exists n: nat :: n >= 1 && slug == Candidate(base, n) && forall j: nat :: 1 <= j < n ==> Taken(groups, Candidate(base, j))
  }

  /** The slugs in use. */
  ghost function SlugsInUse(groups: seq<Group>): set<string> {
    set g | g in groups :: g.slug
  }

  /** The candidates before the `n`-th. */
  ghost function Tried(base: string, n: nat): set<string>
    requires n >= 1
  {
    set j: nat | 1 <= j < n :: Candidate(base, j)
  }

  lemma {:induction false} TriedCount(base: string, n: nat)
    requires n >= 1
    ensures |Tried(base, n)| == n - 1
  {
    if n == 1 {
      TriedNone(base);
    } else {
      TriedCount(base, n - 1);
      TriedStep(base, n - 1);
    }
  }

  lemma TriedNone(base: string)
    ensures |Tried(base, 1)| == 0
  {
    assert Tried(base, 1) == {};
  }

  /** One more candidate is one more tried slug, different from the earlier ones. */
  lemma TriedStep(base: string, n: nat)
    requires n >= 1
    ensures Tried(base, n + 1) == Tried(base, n) + {Candidate(base, n)}
    ensures Candidate(base, n) !in Tried(base, n)
    ensures |Tried(base, n + 1)| == |Tried(base, n)| + 1
  {
    assert Tried(base, n + 1) == Tried(base, n) + {Candidate(base, n)};
    forall j: nat | 1 <= j < n
      ensures Candidate(base, j) != Candidate(base, n)
    {
      if Candidate(base, j) == Candidate(base, n) {
        CandidateInjective(base, j, n);
      }
    }
  }

  lemma SubsetCardinality(a: set<string>, b: set<string>)
    requires a <= b
    ensures |a| <= |b|
  {
    assert b == a + (b - a);
  }

  /** Taken candidates are different slugs in use, so there are no more of them than slugs. */
  lemma TakenBounded(groups: seq<Group>, base: string, n: nat)
    requires n >= 1
    requires forall j: nat :: 1 <= j < n ==> Taken(groups, Candidate(base, j))
    ensures n - 1 <= |SlugsInUse(groups)|
  {
    TriedCount(base, n);
    forall x | x in Tried(base, n)
      ensures x in SlugsInUse(groups)
    {
      var j: nat :| 1 <= j < n && x == Candidate(base, j);
      var g := Queries.FindGroupBySlug(groups, x).value;
      assert g in groups;
    }
    SubsetCardinality(Tried(base, n), SlugsInUse(groups));
  }

  /**
   * The loop of `createGroupAction`: try the base slug, then `base-2`,
   * `base-3`, … until `getGroupBySlug` finds none. It ends because every
   * candidate tried is a different slug of one of the finitely many groups.
   */
  method ChooseSlug(groups: seq<Group>, base: string) returns (slug: string)
    ensures LeastFree(groups, base, slug)
  {
    slug := base;
    var suffix: nat := 2;
    while Queries.FindGroupBySlug(groups, slug).Some?
      invariant suffix >= 2
      invariant slug == Candidate(base, suffix - 1)
      invariant forall j: nat :: 1 <= j < suffix - 1 ==> Taken(groups, Candidate(base, j))
      decreases |SlugsInUse(groups)| + 2 - suffix
    {
      TakenBounded(groups, base, suffix);
      slug := Slug.WithSlugSuffix(base, suffix);
      suffix := suffix + 1;
    }
  }

  /** Only one slug is the least free candidate, so the search is determined by the groups. */
  lemma LeastFreeUnique(groups: seq<Group>, base: string, s: string, t: string)
    requires LeastFree(groups, base, s) && LeastFree(groups, base, t)
    ensures s == t
  {
    var m: nat :| m >= 1 && s == Candidate(base, m) && forall j: nat :: 1 <= j < m ==> Taken(groups, Candidate(base, j));
    var n: nat :| n >= 1 && t == Candidate(base, n) && forall j: nat :: 1 <= j < n ==> Taken(groups, Candidate(base, j));
  }

  /** A free base slug is used as it is. */
  lemma FreeBaseKept(groups: seq<Group>, base: string, slug: string)
    requires LeastFree(groups, base, slug)
    ensures !Taken(groups, base) <==> slug == base
  {
    var n: nat :| n >= 1 && slug == Candidate(base, n) && forall j: nat :: 1 <= j < n ==> Taken(groups, Candidate(base, j));
    if n >= 2 {
      assert Taken(groups, Candidate(base, 1));
    }
  }

  /** A taken base slug gives `base-k` for the least `k >= 2` whose slug is free. */
  lemma TakenBaseSuffixed(groups: seq<Group>, base: string, slug: string)
    requires LeastFree(groups, base, slug) && Taken(groups, base)
    ensures exists k: nat :: (k >= 2 && slug == Slug.WithSlugSuffix(base, k) &&
      forall j: nat :: 2 <= j < k ==> Taken(groups, Slug.WithSlugSuffix(base, j)))
  {
    var n: nat :| n >= 1 && slug == Candidate(base, n) && forall j: nat :: 1 <= j < n ==> Taken(groups, Candidate(base, j));
    assert n != 1;
    forall j: nat | 2 <= j < n
      ensures Taken(groups, Slug.WithSlugSuffix(base, j))
    {
      assert Taken(groups, Candidate(base, j));
    }
  }

  /** The chosen slug of a non-empty `slugify` result is itself a slug. */
  lemma LeastFreeIsSlug(groups: seq<Group>, name: string, slug: string)
    requires Slug.Slugify(name) != []
    requires LeastFree(groups, Slug.Slugify(name), slug)
    ensures Slug.IsSlug(slug)
  {
    var base := Slug.Slugify(name);
    var n: nat :| n >= 1 && slug == Candidate(base, n) && forall j: nat :: 1 <= j < n ==> Taken(groups, Candidate(base, j));
    if n >= 2 {
      Slug.WithSlugSuffixIsSlug(base, n);
    }
  }

  // ---------------------------------------------------------------- createGroupAction

  /** `createGroup` for the action, its rejection thrown as the database's message. */
  function InsertGroup(db: Db, g: Queries.NewGroup): (effect: Effect)
    ensures effect.done.Returned? <==>
      (forall x :: x in db.groups ==> x.id != g.id && x.slug != g.slug) && !Queries.IsMember(db.members, g.id, g.ownerId)
  {
    var w := Queries.CreateGroup(db, g);
    Effect(w.db, if w.value.Failure? then Thrown(Sync.ViolationMessage(w.value.error)) else Returned)
  }

  /** The group `createGroupAction` inserts once its slug is chosen: public, owned by the signed-in user. */
  function GroupFor(session: Session, input: Validations.CreateGroupInput, id: string, slug: string): Queries.NewGroup {
    Queries.NewGroup(id, input.name, slug, session.userId, true, input.syncIntervalMinutes, input.manualCooldownMinutes)
  }

  /**
   * `createGroupAction`: an empty `slugify(name)` throws "Slug inválido";
   * otherwise the group is created under the least free candidate slug.
   * The group id (`crypto.randomUUID()`) is a parameter.
   */
  method CreateGroupAction(store: Store.Database, session: Session, allowlist: Option<string>,
                           input: Validations.CreateGroupInput, id: string) returns (done: Done)
    requires store.Valid()
    modifies store
    ensures store.Valid()
    ensures Slug.Slugify(input.name) == [] ==>
      done == Thrown(INVALID_SLUG) && store.State() == Signed(old(store.State()), session)
    ensures Slug.Slugify(input.name) != [] ==>
      exists slug :: LeastFree(old(store.groups), Slug.Slugify(input.name), slug) &&
        Effect(store.State(), done) == InsertGroup(Signed(old(store.State()), session), GroupFor(session, input, id, slug))
  {
    var isAdmin := RequireUser(store, session, allowlist);
    var base := Slug.Slugify(input.name);
    if base == [] {
      return Thrown(INVALID_SLUG);
    }
    var slug := ChooseSlug(store.groups, base);
    var created := store.CreateGroup(GroupFor(session, input, id, slug));
    done := if created.Failure? then Thrown(Sync.ViolationMessage(created.error)) else Returned;
  }

  /** With a fresh id, the insert under the chosen slug succeeds: a new group and its owner. */
  lemma CreatedUnderChosenSlug(db: Db, session: Session, input: Validations.CreateGroupInput, id: string, slug: string)
    requires LeastFree(db.groups, Slug.Slugify(input.name), slug)
    requires forall x :: x in db.groups ==> x.id != id
    requires !Queries.IsMember(db.members, id, session.userId)
    ensures var effect := InsertGroup(db, GroupFor(session, input, id, slug));
      effect.done == Returned &&
      effect.db.groups == db.groups + [Group(id, input.name, slug, session.userId, true, input.syncIntervalMinutes, input.manualCooldownMinutes, None)] &&
      effect.db.members == db.members + [Member(id, session.userId, "owner")]
  {
    var g := GroupFor(session, input, id, slug);
    assert forall x :: x in db.groups ==> x.slug != slug;
    assert (forall x :: x in db.groups ==> x.id != g.id && x.slug != g.slug) && !Queries.IsMember(db.members, g.id, g.ownerId);
  }

  // ---------------------------------------------------------------- settings and removal

  /** `updateGroupSettingsAction`. */
  function UpdateSettingsSpec(db: Db, session: Session, allowlist: Option<string>, input: Validations.SettingsInput): Effect {
    var signed := Signed(db, session);
    match Gate(signed, session.userId, AdminAuth.IsAdminEmail(allowlist, session.email), input.groupId)
    case Some(message) => Effect(signed, Thrown(message))
    case None => Effect(Queries.UpdateGroupSettings(signed, input.groupId, input.syncIntervalMinutes, input.manualCooldownMinutes), Returned)
  }

  method UpdateGroupSettingsAction(store: Store.Database, session: Session, allowlist: Option<string>,
                                   input: Validations.SettingsInput) returns (done: Done)
    requires store.Valid()
    modifies store
    ensures store.Valid()
    ensures Effect(store.State(), done) == UpdateSettingsSpec(old(store.State()), session, allowlist, input)
  {
    var isAdmin := RequireUser(store, session, allowlist);
    var denied := Gate(store.State(), session.userId, isAdmin, input.groupId);
    if denied.Some? {
      return Thrown(denied.value);
    }
    store.UpdateGroupSettings(input.groupId, input.syncIntervalMinutes, input.manualCooldownMinutes);
    done := Returned;
  }

  /** A settings update either throws with only the user row ensured, or changes just that group's intervals. */
  lemma UpdateSettingsEffect(db: Db, session: Session, allowlist: Option<string>, input: Validations.SettingsInput)
    ensures var effect := UpdateSettingsSpec(db, session, allowlist, input);
      (effect.done.Thrown? <==>
        !AdminAuth.IsAdminEmail(allowlist, session.email) && AccessCheck(db, session.userId, input.groupId).Some?) &&
      (effect.done.Thrown? ==> effect.done.message == NO_ACCESS && effect.db == Signed(db, session)) &&
      effect.db.(users := db.users, groups := db.groups) == db &&
      forall i :: 0 <= i < |db.groups| && db.groups[i].id != input.groupId ==> effect.db.groups[i] == db.groups[i]
  {
    AccessSurvivesSignIn(db, session, session.userId, input.groupId);
  }

  /** `removePlayerAction`. */
  function RemovePlayerSpec(db: Db, session: Session, allowlist: Option<string>, input: Validations.RemovePlayerInput): Effect {
    var signed := Signed(db, session);
    match Gate(signed, session.userId, AdminAuth.IsAdminEmail(allowlist, session.email), input.groupId)
    case Some(message) => Effect(signed, Thrown(message))
    case None => Effect(Queries.RemovePlayerFromGroup(signed, input.groupId, input.playerId), Returned)
  }

  method RemovePlayerAction(store: Store.Database, session: Session, allowlist: Option<string>,
                            input: Validations.RemovePlayerInput) returns (done: Done)
    requires store.Valid()
    modifies store
    ensures store.Valid()
    ensures Effect(store.State(), done) == RemovePlayerSpec(old(store.State()), session, allowlist, input)
  {
    var isAdmin := RequireUser(store, session, allowlist);
    var denied := Gate(store.State(), session.userId, isAdmin, input.groupId);
    if denied.Some? {
      return Thrown(denied.value);
    }
    store.RemovePlayerFromGroup(input.groupId, input.playerId);
    done := Returned;
  }

  /** A removal that returns leaves the player out of the group and every other link and row in place. */
  lemma RemovePlayerEffect(db: Db, session: Session, allowlist: Option<string>, input: Validations.RemovePlayerInput)
    ensures var effect := RemovePlayerSpec(db, session, allowlist, input);
      (effect.done.Thrown? <==>
        !AdminAuth.IsAdminEmail(allowlist, session.email) && AccessCheck(db, session.userId, input.groupId).Some?) &&
      (effect.done.Thrown? ==> effect.db == Signed(db, session)) &&
      (effect.done.Returned? ==>
        Link(input.groupId, input.playerId) !in effect.db.links &&
        forall l :: l in db.links && l != Link(input.groupId, input.playerId) ==> l in effect.db.links) &&
      effect.db.players == db.players && effect.db.groups == db.groups
  {
    AccessSurvivesSignIn(db, session, session.userId, input.groupId);
  }

  // ---------------------------------------------------------------- addPlayerAction

  /** `addPlayerAction` once the region is a platform: find by identity, else create, then link. */
  function FindOrCreateLink(db: Db, input: Validations.PlayerInput, platform: Regions.Platform, id: string): Effect {
    var region := Regions.PlatformId(platform);
    match Queries.FindPlayerByIdentity(db.players, input.gameName, input.tagLine, region)
    case Some(existing) => Effect(Queries.AddPlayerToGroup(db, input.groupId, existing.id), Returned)
    case None =>
      var w := Queries.CreatePlayer(db, id, input.gameName, input.tagLine, region, Some(input.queueType),
                                    Some(Sync.OpggUrl(platform, input.gameName, input.tagLine)));
      match w.value
      case Failure(v) => Effect(w.db, Thrown(Sync.ViolationMessage(v)))
      case Success(player) => Effect(Queries.AddPlayerToGroup(w.db, input.groupId, player.id), Returned)
  }

  /**
   * `addPlayerAction`; an unsupported region throws from `normalizePlatformRegion`.
   * An inherited member of `platformMap` is an object, not a string, so the
   * identity lookup it is passed to throws before anything is written.
   */
  function AddPlayerSpec(db: Db, session: Session, allowlist: Option<string>, input: Validations.PlayerInput, id: string): Effect {
    var signed := Signed(db, session);
    match Gate(signed, session.userId, AdminAuth.IsAdminEmail(allowlist, session.email), input.groupId)
    case Some(message) => Effect(signed, Thrown(message))
    case None =>
      match Regions.NormalizePlatformRegion(input.region)
      case Failure(message) => Effect(signed, Thrown(message))
      case Success(Listed(platform)) => FindOrCreateLink(signed, input, platform, id)
      case Success(_) => Effect(signed, Unbound)
  }

  /** The player id (`crypto.randomUUID()`) is a parameter. */
  method AddPlayerAction(store: Store.Database, session: Session, allowlist: Option<string>,
                         input: Validations.PlayerInput, id: string) returns (done: Done)
    requires store.Valid()
    modifies store
    ensures store.Valid()
    ensures Effect(store.State(), done) == AddPlayerSpec(old(store.State()), session, allowlist, input, id)
  {
    var isAdmin := RequireUser(store, session, allowlist);
    var denied := Gate(store.State(), session.userId, isAdmin, input.groupId);
    if denied.Some? {
      return Thrown(denied.value);
    }
    var normalized := Regions.NormalizePlatformRegion(input.region);
    if normalized.Failure? {
      return Thrown(normalized.error);
    }
    if !normalized.value.Listed? {
      return Unbound;
    }
    var platform := normalized.value.platform;
    var region := Regions.PlatformId(platform);
    var found := Queries.FindPlayerByIdentity(store.players, input.gameName, input.tagLine, region);
    var playerId: string;
    if found.Some? {
      playerId := found.value.id;
    } else {
      var created := store.CreatePlayer(id, input.gameName, input.tagLine, region, Some(input.queueType),
                                        Some(Sync.OpggUrl(platform, input.gameName, input.tagLine)));
      if created.Failure? {
        return Thrown(Sync.ViolationMessage(created.error));
      }
      playerId := created.value.id;
    }
    store.AddPlayerToGroup(input.groupId, playerId);
    done := Returned;
  }

  /** A player with the normalized identity exists afterwards and is linked to the group, when the action returns. */
  lemma AddPlayerLinks(db: Db, session: Session, allowlist: Option<string>, input: Validations.PlayerInput, id: string)
    requires AddPlayerSpec(db, session, allowlist, input, id).done.Returned?
    ensures Regions.NormalizePlatformRegion(input.region).Success?
    ensures Regions.NormalizePlatformRegion(input.region).value.Listed?
    ensures var effect := AddPlayerSpec(db, session, allowlist, input, id);
      var region := Regions.PlatformId(Regions.NormalizePlatformRegion(input.region).value.platform);
      exists p :: p in effect.db.players && p.gameName == input.gameName && p.tagLine == input.tagLine &&
        p.region == region && Link(input.groupId, p.id) in effect.db.links
  {
    var signed := Signed(db, session);
    var platform := Regions.NormalizePlatformRegion(input.region).value.platform;
    var region := Regions.PlatformId(platform);
    var effect := AddPlayerSpec(db, session, allowlist, input, id);
    assert effect == FindOrCreateLink(signed, input, platform, id);
    match Queries.FindPlayerByIdentity(signed.players, input.gameName, input.tagLine, region)
    case Some(existing) =>
      assert existing in effect.db.players;
    case None =>
      var w := Queries.CreatePlayer(signed, id, input.gameName, input.tagLine, region, Some(input.queueType),
                                    Some(Sync.OpggUrl(platform, input.gameName, input.tagLine)));
      assert w.value.value in effect.db.players;
  }

  /** An existing player with the identity is reused: the players table is not touched. */
  lemma AddPlayerReuses(db: Db, session: Session, allowlist: Option<string>, input: Validations.PlayerInput, id: string,
                        platform: Regions.Platform)
    requires AccessCheck(db, session.userId, input.groupId).None?
    requires Regions.NormalizePlatformRegion(input.region) == Success(Regions.Listed(platform))
    requires Queries.FindPlayerByIdentity(db.players, input.gameName, input.tagLine, Regions.PlatformId(platform)).Some?
    ensures var effect := AddPlayerSpec(db, session, allowlist, input, id);
      effect.done == Returned && effect.db.players == db.players &&
      Link(input.groupId, Queries.FindPlayerByIdentity(db.players, input.gameName, input.tagLine, Regions.PlatformId(platform)).value.id) in effect.db.links
  {
    AccessSurvivesSignIn(db, session, session.userId, input.groupId);
  }

  /** An absent identity with a fresh id creates exactly one player row, with the op.gg URL, and links it. */
  lemma AddPlayerCreates(db: Db, session: Session, allowlist: Option<string>, input: Validations.PlayerInput, id: string,
                         platform: Regions.Platform)
    requires AccessCheck(db, session.userId, input.groupId).None?
    requires Regions.NormalizePlatformRegion(input.region) == Success(Regions.Listed(platform))
    requires Queries.FindPlayerByIdentity(db.players, input.gameName, input.tagLine, Regions.PlatformId(platform)).None?
    requires forall p :: p in db.players ==> p.id != id
    ensures var effect := AddPlayerSpec(db, session, allowlist, input, id);
      effect.done == Returned &&
      effect.db.players == db.players + [Queries.PlayerRow(id, input.gameName, input.tagLine, Regions.PlatformId(platform),
                                         input.queueType, Some(Sync.OpggUrl(platform, input.gameName, input.tagLine)))] &&
      Link(input.groupId, id) in effect.db.links
  {
    AccessSurvivesSignIn(db, session, session.userId, input.groupId);
  }

  /** Without access a non-admin's call throws and only the user row is ensured. */
  lemma AddPlayerDenied(db: Db, session: Session, allowlist: Option<string>, input: Validations.PlayerInput, id: string)
    requires !AdminAuth.IsAdminEmail(allowlist, session.email)
    requires AccessCheck(db, session.userId, input.groupId).Some?
    ensures AddPlayerSpec(db, session, allowlist, input, id) == Effect(Signed(db, session), Thrown(NO_ACCESS))
  {
    AccessSurvivesSignIn(db, session, session.userId, input.groupId);
  }

  /** A permitted call with an inherited region name fails at the identity lookup: only the user row is ensured. */
  lemma AddPlayerInheritedRegion(db: Db, session: Session, allowlist: Option<string>, input: Validations.PlayerInput, id: string)
    requires AccessCheck(db, session.userId, input.groupId).None?
    requires Regions.NormalForm(input.region) in Regions.INHERITED_KEYS
    ensures AddPlayerSpec(db, session, allowlist, input, id) == Effect(Signed(db, session), Unbound)
  {
    AccessSurvivesSignIn(db, session, session.userId, input.groupId);
    Regions.InheritedIff(input.region);
  }

  // ---------------------------------------------------------------- manualSyncGroupAction

  /** What `manualSyncGroupAction` leaves: the state, the sync's events and how it ended. */
  datatype ManualRun = ManualRun(db: Db, events: seq<Sync.Event>, done: Done)

  /**
   * `manualSyncGroupAction`. The clock reading `now` serves both the
   * cooldown check and the sync; `stamp` is the `CURRENT_TIMESTAMP` the
   * touch writes.
   */
  function ManualSyncSpec(db: Db, session: Session, allowlist: Option<string>, groupId: string, env: Sync.Env,
                          now: int, parse: string -> Option<int>, stamp: string): ManualRun {
    var signed := Signed(db, session);
    match Gate(signed, session.userId, AdminAuth.IsAdminEmail(allowlist, session.email), groupId)
    case Some(message) => ManualRun(signed, [], Thrown(message))
    case None =>
      match Queries.GroupSyncSettings(signed, groupId)
      case None => ManualRun(signed, [], Returned)
      case Some(settings) =>
        if !Time.IsPast(settings.lastManualSyncAt, settings.manualCooldownMinutes, now, parse) then
          ManualRun(signed, [], Returned)
        else ManualRunSync(signed, groupId, env, now, parse, stamp)
  }

  /** Past the cooldown: `syncGroupPlayers` with `force` and limit 5, then the touch when it returns. */
  function ManualRunSync(signed: Db, groupId: string, env: Sync.Env, now: int, parse: string -> Option<int>,
                         stamp: string): ManualRun {
    var run := Sync.SyncGroupPlayersSpec(signed, groupId, true, Some(MANUAL_SYNC_LIMIT), env, now, parse);
    match run.outcome
    case Threw(message) => ManualRun(run.db, run.events, Thrown(message))
    case Completed(_) => ManualRun(Queries.TouchGroupManualSync(run.db, groupId, stamp), run.events, Returned)
  }

  method ManualSyncGroupAction(store: Store.Database, session: Session, allowlist: Option<string>, groupId: string,
                               env: Sync.Env, now: int, parse: string -> Option<int>, stamp: string)
    returns (done: Done, events: seq<Sync.Event>)
    requires store.Valid()
    modifies store
    ensures store.Valid()
    ensures ManualRun(store.State(), events, done) == ManualSyncSpec(old(store.State()), session, allowlist, groupId, env, now, parse, stamp)
  {
    var isAdmin := RequireUser(store, session, allowlist);
    var denied := Gate(store.State(), session.userId, isAdmin, groupId);
    if denied.Some? {
      return Thrown(denied.value), [];
    }
    var settings := Queries.GroupSyncSettings(store.State(), groupId);
    if settings.None? {
      return Returned, [];
    }
    var allowed := Time.IsPast(settings.value.lastManualSyncAt, settings.value.manualCooldownMinutes, now, parse);
    if !allowed {
      return Returned, [];
    }
    var outcome;
    outcome, events := Sync.SyncGroupPlayers(store, groupId, true, Some(MANUAL_SYNC_LIMIT), env, now, parse);
    if outcome.Threw? {
      return Thrown(outcome.message), events;
    }
    store.TouchGroupManualSync(groupId, stamp);
    done := Returned;
  }

  /** A group without settings: nothing beyond the user row, no events. */
  lemma ManualSyncWithoutSettings(db: Db, session: Session, allowlist: Option<string>, groupId: string, env: Sync.Env,
                                  now: int, parse: string -> Option<int>, stamp: string)
    requires forall g :: g in db.groups ==> g.id != groupId
    ensures ManualSyncSpec(db, session, allowlist, groupId, env, now, parse, stamp).db == Signed(db, session)
    ensures ManualSyncSpec(db, session, allowlist, groupId, env, now, parse, stamp).events == []
  {
  }

  /** Before the cooldown has elapsed: no sync, no touch, no events. */
  lemma ManualSyncCoolingDown(db: Db, session: Session, allowlist: Option<string>, groupId: string, env: Sync.Env,
                              now: int, parse: string -> Option<int>, stamp: string)
    requires Queries.GroupSyncSettings(db, groupId).Some?
    requires var s := Queries.GroupSyncSettings(db, groupId).value;
      !Time.IsPast(s.lastManualSyncAt, s.manualCooldownMinutes, now, parse)
    ensures ManualSyncSpec(db, session, allowlist, groupId, env, now, parse, stamp).db == Signed(db, session)
    ensures ManualSyncSpec(db, session, allowlist, groupId, env, now, parse, stamp).events == []
  {
    SignedKeepsSettings(db, session, groupId);
  }

  lemma SignedKeepsSettings(db: Db, session: Session, groupId: string)
    ensures Queries.GroupSyncSettings(Signed(db, session), groupId) == Queries.GroupSyncSettings(db, groupId)
  {
    assert Signed(db, session).groups == db.groups;
  }

  /**
   * Once the cooldown has elapsed and access is granted, the action runs
   * `syncGroupPlayers` with `force` and limit 5 over the signed-in state,
   * and when that returns it touches the group, whose settings then report
   * `stamp` as the last manual sync.
   */
  lemma ManualSyncRuns(db: Db, session: Session, allowlist: Option<string>, groupId: string, env: Sync.Env,
                       now: int, parse: string -> Option<int>, stamp: string)
    requires AdminAuth.IsAdminEmail(allowlist, session.email) || AccessCheck(db, session.userId, groupId).None?
    requires Queries.GroupSyncSettings(db, groupId).Some?
    requires var s := Queries.GroupSyncSettings(db, groupId).value;
      Time.IsPast(s.lastManualSyncAt, s.manualCooldownMinutes, now, parse)
    ensures var run := Sync.SyncGroupPlayersSpec(Signed(db, session), groupId, true, Some(MANUAL_SYNC_LIMIT), env, now, parse);
      var manual := ManualSyncSpec(db, session, allowlist, groupId, env, now, parse, stamp);
      manual.events == run.events &&
      (run.outcome.Completed? ==>
        manual.done == Returned && manual.db == Queries.TouchGroupManualSync(run.db, groupId, stamp)) &&
      (run.outcome.Threw? ==> manual.done == Thrown(run.outcome.message) && manual.db == run.db)
    ensures var run := Sync.SyncGroupPlayersSpec(Signed(db, session), groupId, true, Some(MANUAL_SYNC_LIMIT), env, now, parse);
      var manual := ManualSyncSpec(db, session, allowlist, groupId, env, now, parse, stamp);
      run.outcome.Completed? ==>
        Queries.GroupSyncSettings(manual.db, groupId).Some? &&
        Queries.GroupSyncSettings(manual.db, groupId).value.lastManualSyncAt == Some(stamp)
  {
    var signed := Signed(db, session);
    AccessSurvivesSignIn(db, session, session.userId, groupId);
    SignedKeepsSettings(db, session, groupId);
    var run := Sync.SyncGroupPlayersSpec(signed, groupId, true, Some(MANUAL_SYNC_LIMIT), env, now, parse);
    if run.outcome.Completed? {
      SyncProperties.SyncGroupKeepsGroups(signed, groupId, true, Some(MANUAL_SYNC_LIMIT), env, now, parse);
      Queries.TouchSetsLastManualSync(run.db, groupId, stamp);
    }
  }
}
