/**
 * The form schemas of lib/validations/admin.ts. A form field arrives as
 * `FormData.get` gives it: `null` when absent, otherwise its text; values
 * built in code may also be `undefined`. `z.coerce.number()` applies
 * JavaScript's `Number` to the field, which is the parameter `toNumber` for
 * text (`None` standing for NaN, which zod rejects); `Number(null)` is 0 and
 * `Number(undefined)` is NaN. A rejected parse is the list of the fields
 * that failed, in schema order.
 */
module Validations {
  import opened Wrappers
  import Text
  import Queues

  datatype FieldValue = Undefined | Null | Text(text: string)

  /** The default of a `.default(...)` applies to `undefined` only. */
  datatype Field<T> = Invalid | Valid(value: T) {
    predicate Ok() { Valid? }
  }

  /** `z.string().min(n)`. */
  function StringMin(v: FieldValue, min: nat): (f: Field<string>)
    ensures f.Ok() <==> v.Text? && |v.text| >= min
    ensures f.Ok() ==> f.value == v.text
  {
    if v.Text? && |v.text| >= min then Valid(v.text) else Invalid
  }

  /** `Number(v)` as `z.coerce.number()` applies it. */
  function Coerce(v: FieldValue, toNumber: string -> Option<real>): Option<real> {
    match v
    case Undefined => None
    case Null => Some(0.0)
    case Text(s) => toNumber(s)
  }

  /** `z.coerce.number().min(lo).max(hi)`. */
  function NumberIn(v: FieldValue, lo: real, hi: real, toNumber: string -> Option<real>): (f: Field<real>)
    ensures f.Ok() ==> lo <= f.value <= hi
    ensures f.Ok() <==> Coerce(v, toNumber).Some? && lo <= Coerce(v, toNumber).value <= hi
  {
    match Coerce(v, toNumber)
    case Some(x) => if lo <= x <= hi then Valid(x) else Invalid
    case None => Invalid
  }

  /** `z.coerce.number().min(lo).max(hi).default(d)`: `undefined` takes the default unchecked. */
  function NumberInOrDefault(v: FieldValue, lo: real, hi: real, default: real, toNumber: string -> Option<real>): (f: Field<real>)
    ensures v.Undefined? ==> f == Valid(default)
    ensures !v.Undefined? ==> f == NumberIn(v, lo, hi, toNumber)
  {
    if v.Undefined? then Valid(default) else NumberIn(v, lo, hi, toNumber)
  }

  /** `z.enum(["RANKED_SOLO_5x5", "RANKED_FLEX_SR"]).default("RANKED_SOLO_5x5")`. */
  function QueueTypeField(v: FieldValue): (f: Field<string>)
    ensures f.Ok() ==> Queues.IsQueueType(f.value)
    ensures v.Undefined? ==> f == Valid(Queues.QUEUE_SOLO)
    ensures v.Text? ==> (f.Ok() <==> Queues.IsQueueType(v.text))
    ensures v.Null? ==> !f.Ok()
  {
    assert Queues.QUEUE_OPTIONS[0] in Queues.QUEUE_OPTIONS && Queues.QUEUE_OPTIONS[1] in Queues.QUEUE_OPTIONS;
    match v
    case Undefined => Valid(Queues.QUEUE_SOLO)
    case Null => Invalid
    case Text(q) => if q == Queues.QUEUE_SOLO || q == Queues.QUEUE_FLEX then Valid(q) else Invalid
  }

  /** `nullablePlayerText`: text of at most 160 characters, trimmed, with blank text becoming null. */
  function NullablePlayerText(v: FieldValue): (f: Field<Option<string>>)
    ensures f.Ok() <==> v.Text? && |v.text| <= 160
    ensures f.Ok() && f.value.Some? ==> f.value.value == Text.Trim(v.text) && f.value.value != ""
    ensures f.Ok() && f.value.None? ==> Text.Trim(v.text) == ""
  {
    match v
    case Text(s) =>
      if |s| <= 160 then
        var trimmed := Text.Trim(s);
        Valid(if |trimmed| > 0 then Some(trimmed) else None)
      else Invalid
    case _ => Invalid
  }

  /** The issue a failed field contributes to the error list. */
  function Issue(field: string, ok: bool): seq<string> {
    if ok then [] else [field]
  }

  datatype CreateGroupInput = CreateGroupInput(name: string, syncIntervalMinutes: real, manualCooldownMinutes: real)

  /** `createGroupSchema`: a name of two or more characters, intervals in range or defaulted (360 and 30). */
  function CreateGroupSchema(name: FieldValue, syncInterval: FieldValue, cooldown: FieldValue, toNumber: string -> Option<real>): (r: Result<CreateGroupInput, seq<string>>)
    ensures r.Success? <==>
      StringMin(name, 2).Ok() &&
      NumberInOrDefault(syncInterval, 0.5, 1440.0, 360.0, toNumber).Ok() &&
      NumberInOrDefault(cooldown, 0.5, 240.0, 30.0, toNumber).Ok()
    ensures r.Success? ==> (|r.value.name| >= 2 &&
      0.5 <= r.value.syncIntervalMinutes <= 1440.0 && 0.5 <= r.value.manualCooldownMinutes <= 240.0)
    ensures r.Failure? ==> r.error != []
  {
    var n := StringMin(name, 2);
    var s := NumberInOrDefault(syncInterval, 0.5, 1440.0, 360.0, toNumber);
    var c := NumberInOrDefault(cooldown, 0.5, 240.0, 30.0, toNumber);
    if n.Ok() && s.Ok() && c.Ok() then Success(CreateGroupInput(n.value, s.value, c.value))
    else
      Failure(Issue("name", n.Ok()) + Issue("syncIntervalMinutes", s.Ok()) + Issue("manualCooldownMinutes", c.Ok()))
  }

  datatype SettingsInput = SettingsInput(groupId: string, syncIntervalMinutes: real, manualCooldownMinutes: real)

  /** `settingsSchema`: a non-empty group id and both intervals in range, with no defaults. */
  function SettingsSchema(groupId: FieldValue, syncInterval: FieldValue, cooldown: FieldValue, toNumber: string -> Option<real>): (r: Result<SettingsInput, seq<string>>)
    ensures r.Success? <==>
      StringMin(groupId, 1).Ok() &&
      NumberIn(syncInterval, 0.5, 1440.0, toNumber).Ok() &&
      NumberIn(cooldown, 0.5, 240.0, toNumber).Ok()
    ensures r.Success? ==> (r.value.groupId != [] &&
      0.5 <= r.value.syncIntervalMinutes <= 1440.0 && 0.5 <= r.value.manualCooldownMinutes <= 240.0)
    ensures r.Failure? ==> r.error != []
  {
    var g := StringMin(groupId, 1);
    var s := NumberIn(syncInterval, 0.5, 1440.0, toNumber);
    var c := NumberIn(cooldown, 0.5, 240.0, toNumber);
    if g.Ok() && s.Ok() && c.Ok() then Success(SettingsInput(g.value, s.value, c.value))
    else
      Failure(Issue("groupId", g.Ok()) + Issue("syncIntervalMinutes", s.Ok()) + Issue("manualCooldownMinutes", c.Ok()))
  }

  datatype PlayerInput = PlayerInput(groupId: string, gameName: string, tagLine: string, region: string, queueType: string)

  /** `playerSchema`: a group id, name, tag and region of the minimum lengths and a known queue (solo by default). */
  function PlayerSchema(groupId: FieldValue, gameName: FieldValue, tagLine: FieldValue, region: FieldValue, queueType: FieldValue): (r: Result<PlayerInput, seq<string>>)
    ensures r.Success? <==>
      StringMin(groupId, 1).Ok() && StringMin(gameName, 2).Ok() && StringMin(tagLine, 2).Ok() &&
      StringMin(region, 2).Ok() && QueueTypeField(queueType).Ok()
    ensures r.Success? ==> (r.value.groupId != [] && |r.value.gameName| >= 2 && |r.value.tagLine| >= 2 &&
      |r.value.region| >= 2 && Queues.IsQueueType(r.value.queueType))
    ensures r.Failure? ==> r.error != []
  {
    var g := StringMin(groupId, 1);
    var n := StringMin(gameName, 2);
    var t := StringMin(tagLine, 2);
    var rg := StringMin(region, 2);
    var q := QueueTypeField(queueType);
    if g.Ok() && n.Ok() && t.Ok() && rg.Ok() && q.Ok() then Success(PlayerInput(g.value, n.value, t.value, rg.value, q.value))
    else
      Failure(Issue("groupId", g.Ok()) + Issue("gameName", n.Ok()) + Issue("tagLine", t.Ok()) + Issue("region", rg.Ok()) + Issue("queueType", q.Ok()))
  }

  datatype RemovePlayerInput = RemovePlayerInput(groupId: string, playerId: string)

  /** `removePlayerSchema`: both ids non-empty. */
  function RemovePlayerSchema(groupId: FieldValue, playerId: FieldValue): (r: Result<RemovePlayerInput, seq<string>>)
    ensures r.Success? <==> groupId.Text? && groupId.text != [] && playerId.Text? && playerId.text != []
    ensures r.Success? ==> r.value == RemovePlayerInput(groupId.text, playerId.text)
    ensures r.Failure? ==> r.error != []
  {
    var g := StringMin(groupId, 1);
    var p := StringMin(playerId, 1);
    if g.Ok() && p.Ok() then Success(RemovePlayerInput(g.value, p.value))
    else
      Failure(Issue("groupId", g.Ok()) + Issue("playerId", p.Ok()))
  }

  /** `manualSyncSchema`: a non-empty group id. */
  function ManualSyncSchema(groupId: FieldValue): (r: Result<string, seq<string>>)
    ensures r.Success? <==> groupId.Text? && groupId.text != []
    ensures r.Success? ==> r.value == groupId.text
    ensures r.Failure? ==> r.error == ["groupId"]
  {
    match StringMin(groupId, 1)
    case Valid(g) => Success(g)
    case Invalid => Failure(["groupId"])
  }

  datatype PlayerMetaInput = PlayerMetaInput(groupId: string, playerId: string, notes: Option<string>, objective: Option<string>, monthCheckpoint: Option<string>)

  /** `updatePlayerMetaSchema`: both ids non-empty and three nullable texts. */
  function UpdatePlayerMetaSchema(groupId: FieldValue, playerId: FieldValue, notes: FieldValue, objective: FieldValue, monthCheckpoint: FieldValue): (r: Result<PlayerMetaInput, seq<string>>)
    ensures r.Success? <==>
      StringMin(groupId, 1).Ok() && StringMin(playerId, 1).Ok() &&
      NullablePlayerText(notes).Ok() && NullablePlayerText(objective).Ok() && NullablePlayerText(monthCheckpoint).Ok()
    ensures r.Success? ==>
      r.value.notes == NullablePlayerText(notes).value &&
      r.value.objective == NullablePlayerText(objective).value &&
      r.value.monthCheckpoint == NullablePlayerText(monthCheckpoint).value
    ensures r.Failure? ==> r.error != []
  {
    var g := StringMin(groupId, 1);
    var p := StringMin(playerId, 1);
    var n := NullablePlayerText(notes);
    var o := NullablePlayerText(objective);
    var m := NullablePlayerText(monthCheckpoint);
    if g.Ok() && p.Ok() && n.Ok() && o.Ok() && m.Ok() then Success(PlayerMetaInput(g.value, p.value, n.value, o.value, m.value))
    else
      Failure(Issue("groupId", g.Ok()) + Issue("playerId", p.Ok()) + Issue("notes", n.Ok()) + Issue("objective", o.Ok()) + Issue("monthCheckpoint", m.Ok()))
  }

  /** Settings given as text are accepted exactly when the id is non-empty and both numbers lie in their ranges. */
  lemma SettingsAcceptedIff(groupId: string, syncText: string, cooldownText: string, sync: real, cooldown: real, toNumber: string -> Option<real>)
    requires toNumber(syncText) == Some(sync) && toNumber(cooldownText) == Some(cooldown)
    ensures SettingsSchema(Text(groupId), Text(syncText), Text(cooldownText), toNumber).Success? <==>
      groupId != [] && 0.5 <= sync <= 1440.0 && 0.5 <= cooldown <= 240.0
    ensures SettingsSchema(Text(groupId), Text(syncText), Text(cooldownText), toNumber).Success? ==>
      SettingsSchema(Text(groupId), Text(syncText), Text(cooldownText), toNumber).value == SettingsInput(groupId, sync, cooldown)
  {
  }

  /** Omitted intervals (`undefined`) take the defaults 360 and 30; a null field coerces to 0 and is rejected. */
  lemma CreateGroupDefaults(name: string, toNumber: string -> Option<real>)
    requires |name| >= 2
    ensures CreateGroupSchema(Text(name), Undefined, Undefined, toNumber) == Success(CreateGroupInput(name, 360.0, 30.0))
    ensures CreateGroupSchema(Text(name), Null, Undefined, toNumber) == Failure(["syncIntervalMinutes"])
  {
    assert Issue("name", true) + Issue("syncIntervalMinutes", false) + Issue("manualCooldownMinutes", true) == ["syncIntervalMinutes"];
  }

  /** A name shorter than two characters is rejected, whatever the intervals. */
  lemma CreateGroupShortName(name: string, syncInterval: FieldValue, cooldown: FieldValue, toNumber: string -> Option<real>)
    requires |name| < 2
    ensures CreateGroupSchema(Text(name), syncInterval, cooldown, toNumber).Failure?
    ensures "name" in CreateGroupSchema(Text(name), syncInterval, cooldown, toNumber).error
  {
  }

  /** An omitted queue is solo; a null one (absent form field) or an unknown one is rejected. */
  lemma PlayerQueueDefault(groupId: string, gameName: string, tagLine: string, region: string)
    requires groupId != [] && |gameName| >= 2 && |tagLine| >= 2 && |region| >= 2
    ensures PlayerSchema(Text(groupId), Text(gameName), Text(tagLine), Text(region), Undefined) ==
      Success(PlayerInput(groupId, gameName, tagLine, region, Queues.QUEUE_SOLO))
    ensures PlayerSchema(Text(groupId), Text(gameName), Text(tagLine), Text(region), Null) == Failure(["queueType"])
    ensures PlayerSchema(Text(groupId), Text(gameName), Text(tagLine), Text(region), Text("ARAM")).Failure?
  {
    assert Issue("groupId", true) + Issue("gameName", true) + Issue("tagLine", true) + Issue("region", true) + Issue("queueType", false) == ["queueType"];
    assert !Queues.IsQueueType("ARAM");
  }

  /** The transform is stable: feeding its text back in gives the same value. */
  lemma NullablePlayerTextStable(s: string)
    requires NullablePlayerText(Text(s)).Ok() && NullablePlayerText(Text(s)).value.Some?
    ensures NullablePlayerText(Text(NullablePlayerText(Text(s)).value.value)) == NullablePlayerText(Text(s))
  {
    Text.TrimIdempotent(s);
  }

  /** Blank text of any length up to 160 becomes null; longer text is rejected even when blank. */
  lemma NullablePlayerTextBlank(s: string)
    requires Text.Trim(s) == ""
    ensures |s| <= 160 ==> NullablePlayerText(Text(s)) == Valid(None)
    ensures |s| > 160 ==> NullablePlayerText(Text(s)) == Invalid
  {
  }
}
