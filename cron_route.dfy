/**
 * The cron endpoint of app/api/sync/route.ts: a `GET` that is authorized by
 * a bearer token equal to the trimmed `CRON_SECRET` (or, with no secret,
 * only in development), reads an optional `limit` query parameter clamped
 * to [1, 10], and runs `syncDuePlayers` once. The environment variables and
 * the request's header and query value are parameters.
 */
module CronRoute {
  import opened Wrappers
  import opened Schema
  import Seqs
  import Text
  import UriEncoding
  import DuePlayers
  import Store
  import Sync
  import SyncProperties

  const BEARER := "bearer"
  const MAX_LIMIT := 10

  /**
   * The least magnitude a decimal integer rounds to an infinite double
   * from: halfway between `Number.MAX_VALUE` and 2^1024, that is
   * 2^1024 - 2^970, where a tie rounds to the even neighbour 2^1024.
   */
  const DOUBLE_OVERFLOW: int := 179769313486231580793728971405303415079934132710037826936173778980444968292764750946649017977587207096330286416692887910946555547851940402630657488671505820681908902000708383676273854845817711531764475730270069855571366959622842914819860834936475292719074168444365510704342711559699508093042880177904174497792

  // ---------------------------------------------------------------- bearer token

  predicate NoLineTerminator(s: string) {
    forall i :: 0 <= i < |s| ==> !Text.IsLineTerminator(s[i])
  }

  /**
   * The shape `/^Bearer\s+(.+)$/i` gives a trimmed header `t` with group
   * `token`: six letters spelling "bearer" in any case, at least one
   * whitespace character, then the token.
   */
  predicate BearerShape(t: string, token: string) {
    |t| > 6 && Text.ToLower(t[..6]) == BEARER &&
    exists k :: (7 <= k <= |t| && (forall i :: 6 <= i < k ==> Text.IsSpace(t[i])) && t[k..] == token)
  }

  /**
   * The match on an already trimmed header. `\s+` is greedy and `t` ends in
   * a non-space, so group 1 is what follows the whole whitespace run; `.`
   * matches no line terminator and `$` only the end, so a line terminator
   * there fails the match. The group is trimmed as the source does.
   */
  function TokenOfTrimmed(t: string): (token: Option<string>)
    requires Text.IsTrimmed(t)
    ensures token.Some? ==> token.value != [] && Text.IsTrimmed(token.value) && NoLineTerminator(token.value)
    ensures token.Some? ==> BearerShape(t, token.value)
  {
    if |t| < 7 || Text.ToLower(t[..6]) != BEARER || !Text.IsSpace(t[6]) then None
    else
      var k := Text.LeadingSpaces(t[6..]);
      var rest := t[6 + k..];
      if rest == [] || exists i :: 0 <= i < |rest| && Text.IsLineTerminator(rest[i]) then None
      else
        var found := Text.Trim(rest);
        RestIsTrimmed(t, k);
        assert found == rest;
        if found == [] then None else Some(found)
  }

  /** `getBearerToken`: the header is trimmed, then matched against `/^Bearer\s+(.+)$/i`. */
  function GetBearerToken(header: string): (token: Option<string>)
    ensures token.Some? ==> token.value != [] && Text.IsTrimmed(token.value) && NoLineTerminator(token.value)
    ensures token.Some? ==> BearerShape(Text.Trim(header), token.value)
  {
    TokenOfTrimmed(Text.Trim(header))
  }

  /** What follows the whitespace run of a trimmed header is itself trimmed. */
  lemma RestIsTrimmed(t: string, k: nat)
    requires Text.IsTrimmed(t) && |t| >= 7 && k == Text.LeadingSpaces(t[6..])
    ensures Text.IsTrimmed(t[6 + k..])
  {
    var rest := t[6 + k..];
    if rest != [] {
      assert rest[0] == t[6..][k];
      assert rest[|rest| - 1] == t[|t| - 1];
    }
  }

  /** The header is trimmed first, so surrounding whitespace never matters. */
  lemma BearerIgnoresOuterSpace(header: string)
    ensures GetBearerToken(Text.Trim(header)) == GetBearerToken(header)
  {
    Text.TrimIdempotent(header);
  }

  /**
   * Every header of the shape `Bearer <spaces><token>`, in any case of
   * "Bearer" and with any whitespace around it, yields its token.
   */
  lemma BearerTokenRead(lead: string, prefix: string, ws: string, token: string, trail: string)
    requires Text.ToLower(prefix) == BEARER
    requires ws != [] && Text.AllSpaces(ws)
    requires Text.AllSpaces(lead) && Text.AllSpaces(trail)
    requires token != [] && Text.IsTrimmed(token) && NoLineTerminator(token)
    ensures GetBearerToken(lead + prefix + ws + token + trail) == Some(token)
  {
    var t := prefix + ws + token;
    assert |prefix| == 6;
    assert t[..6] == prefix;
    assert t[6..] == ws + token;
    assert Text.IsTrimmed(t) by {
      assert Text.LowerChar(prefix[0]) == Text.ToLower(prefix)[0] == 'b';
      assert t[0] == prefix[0];
      assert t[|t| - 1] == token[|token| - 1];
    }
    assert lead + prefix + ws + token + trail == lead + t + trail;
    Text.TrimSurrounded(lead, t, trail);
    Text.LeadingSpacesBefore(ws, token);
    assert t[6 + |ws|..] == token;
    assert Text.Trim(token) == token;
    assert Text.IsSpace(t[6]) by {
      assert t[6] == ws[0];
    }
    assert TokenOfTrimmed(t) == Some(token);
  }

  // ---------------------------------------------------------------- authorization

  /** `safeSecretCompare`: false on byte lengths that differ, else whether the UTF-8 bytes agree. */
  function SafeSecretCompare(expected: string, received: string): (same: bool)
    ensures same <==> expected == received
  {
    var e := UriEncoding.Utf8(expected);
    var r := UriEncoding.Utf8(received);
    if |e| != |r| then false
    else
      if e == r then UriEncoding.Utf8Injective(expected, received); true
      else false
  }

  /** The deployment settings the route reads: `CRON_SECRET` and whether `NODE_ENV` is "development". */
  datatype Config = Config(cronSecret: Option<string>, isDevelopment: bool)

  /** `CRON_SECRET?.trim()` is absent or empty. */
  predicate SecretMissing(secret: Option<string>) {
    secret.None? || Text.Trim(secret.value) == []
  }

  /**
   * `isAuthorized`: without a secret only development passes; with one, the
   * bearer token of the `authorization` header must equal the trimmed
   * secret. Nothing else of the request is consulted, so a secret passed in
   * the query string is ignored.
   */
  function IsAuthorized(config: Config, authorization: Option<string>): (ok: bool)
    ensures SecretMissing(config.cronSecret) ==> (ok <==> config.isDevelopment)
    ensures !SecretMissing(config.cronSecret) ==>
      (ok <==> GetBearerToken(authorization.GetOr("")) == Some(Text.Trim(config.cronSecret.value)))
  {
    var secret := if config.cronSecret.Some? then Some(Text.Trim(config.cronSecret.value)) else None;
    var bearer := GetBearerToken(authorization.GetOr(""));
    if secret.None? || secret.value == [] then config.isDevelopment
    else bearer.Some? && SafeSecretCompare(secret.value, bearer.value)
  }

  /** With a secret configured, a request without an `authorization` header is refused, in development too. */
  lemma MissingHeaderRefused(config: Config)
    requires !SecretMissing(config.cronSecret)
    ensures !IsAuthorized(config, None)
  {
    assert Text.Trim("") == "";
  }

  // ---------------------------------------------------------------- limit

  /** `/^-?\d+$/`: an optional minus sign, then at least one decimal digit, and nothing else. */
  predicate IsIntegerText(s: string) {
    s != [] && if s[0] == '-' then |s| >= 2 && Text.IsDigits(s[1..]) else Text.IsDigits(s)
  }

  /** The integer `Number.parseInt(s, 10)` reads from such a string, before rounding to a double. */
  function IntegerValue(s: string): int
    requires IsIntegerText(s)
  {
    if s[0] == '-' then -(Text.DecimalValue(s[1..]) as int) else Text.DecimalValue(s)
  }

  function Clamp(n: int): int {
    Seqs.Min(Seqs.Max(n, 1), MAX_LIMIT)
  }

  /**
   * The `limit` the route passes on: defined only for text of the integer
   * shape whose value stays finite as a double, and then clamped to
   * [1, MAX_LIMIT]; otherwise `undefined`.
   */
  function ParseLimit(param: Option<string>): (limit: Option<int>)
    ensures limit.Some? ==> 1 <= limit.value <= MAX_LIMIT
    ensures limit.Some? <==>
      param.Some? && IsIntegerText(param.value) && -DOUBLE_OVERFLOW < IntegerValue(param.value) < DOUBLE_OVERFLOW
    ensures limit.Some? && IntegerValue(param.value) < 1 ==> limit.value == 1
    ensures limit.Some? && IntegerValue(param.value) > MAX_LIMIT ==> limit.value == MAX_LIMIT
    ensures limit.Some? && 1 <= IntegerValue(param.value) <= MAX_LIMIT ==> limit.value == IntegerValue(param.value)
  {
    if param.None? || !IsIntegerText(param.value) then None
    else
      var parsed := IntegerValue(param.value);
      if -DOUBLE_OVERFLOW < parsed < DOUBLE_OVERFLOW then Some(Clamp(parsed)) else None
  }

  /** The decimal rendering of a number below the overflow bound is read back and clamped. */
  lemma LimitOfDecimal(n: nat)
    requires n < DOUBLE_OVERFLOW
    ensures ParseLimit(Some(Text.NatToString(n))) == Some(Clamp(n))
  {
    var s := Text.NatToString(n);
    Text.DecimalValueOfNatToString(n);
    assert s[0] != '-' by {
      assert Text.IsDigit(s[0]);
    }
  }

  /** A negative rendering (or `-0`) below the bound becomes the minimum limit 1. */
  lemma LimitOfNegative(n: nat)
    requires n < DOUBLE_OVERFLOW
    ensures ParseLimit(Some("-" + Text.NatToString(n))) == Some(1)
  {
    var s := "-" + Text.NatToString(n);
    Text.DecimalValueOfNatToString(n);
    assert s[1..] == Text.NatToString(n);
  }

  /** The limits of the route's examples: `99` is clamped to 10, `0` to 1, and `1abc` is ignored. */
  lemma LimitExamples()
    ensures ParseLimit(Some("99")) == Some(10)
    ensures ParseLimit(Some("0")) == Some(1)
    ensures ParseLimit(Some("1abc")) == None
  {
    LimitOfDecimal(99);
    LimitOfDecimal(0);
    assert Text.NatToString(99) == "99";
    assert Text.NatToString(0) == "0";
    assert !IsIntegerText("1abc") by {
      assert "1abc"[0] != '-' && "1abc"[1] == 'a';
    }
  }

  // ---------------------------------------------------------------- GET

  /** The parts of the request the route reads: the `authorization` header and the `limit` query value. */
  datatype Request = Request(authorization: Option<string>, limit: Option<string>)

  /** The response: 401, or 200 with the sync's summary and the limit used (`None` is `null`), or an escaped error. */
  datatype Reply = Unauthorized | Synced(summary: DuePlayers.Summary, limit: Option<int>) | Escaped(message: string)

  datatype CronRun = CronRun(db: Db, events: seq<Sync.Event>, reply: Reply)

  /** `GET`. */
  function CronGetSpec(db: Db, config: Config, request: Request, env: Sync.Env, now: int, parse: string -> Option<int>): CronRun {
    if !IsAuthorized(config, request.authorization) then CronRun(db, [], Unauthorized)
    else
      var limit := ParseLimit(request.limit);
      var run := Sync.SyncDuePlayersSpec(db, limit, env, now, parse);
      CronRun(run.db, run.events, match run.outcome
        case Completed(summary) => Synced(summary, limit)
        case Threw(message) => Escaped(message))
  }

  method CronGet(store: Store.Database, config: Config, request: Request, env: Sync.Env, now: int, parse: string -> Option<int>)
    returns (reply: Reply, events: seq<Sync.Event>)
    requires store.Valid()
    modifies store
    ensures store.Valid()
    ensures CronRun(store.State(), events, reply) == CronGetSpec(old(store.State()), config, request, env, now, parse)
  {
    if !IsAuthorized(config, request.authorization) {
      return Unauthorized, [];
    }
    var limit := ParseLimit(request.limit);
    var outcome;
    outcome, events := Sync.SyncDuePlayers(store, limit, env, now, parse);
    reply := match outcome
      case Completed(summary) => Synced(summary, limit)
      case Threw(message) => Escaped(message);
  }

  /** An unauthorized request answers 401 without running the sync: no write, no event. */
  lemma UnauthorizedSyncsNothing(db: Db, config: Config, request: Request, env: Sync.Env, now: int, parse: string -> Option<int>)
    requires !SecretMissing(config.cronSecret)
    requires GetBearerToken(request.authorization.GetOr("")) != Some(Text.Trim(config.cronSecret.value))
    ensures CronGetSpec(db, config, request, env, now, parse) == CronRun(db, [], Unauthorized)
  {
  }

  /**
   * An authorized request whose due players all have supported regions
   * reports the first `limit` (5 by default) processed out of all due, and
   * echoes the limit it used.
   */
  lemma AuthorizedReport(db: Db, config: Config, request: Request, env: Sync.Env, now: int, parse: string -> Option<int>)
    requires IsAuthorized(config, request.authorization)
    requires forall c :: c in Sync.DueNow(db, now, parse) ==> SyncProperties.RegionOk(c)
    ensures var limit := ParseLimit(request.limit);
      var due := Sync.DueNow(db, now, parse);
      var n := if limit.Some? then limit.value else DuePlayers.DEFAULT_BATCH_SIZE;
      CronGetSpec(db, config, request, env, now, parse).reply ==
        Synced(DuePlayers.Summary(Seqs.Min(|due|, n), |due|), limit) &&
      Seqs.Min(|due|, n) <= MAX_LIMIT
  {
    SyncProperties.SyncDuePlayersReport(db, ParseLimit(request.limit), env, now, parse);
  }
}
