# lol-and-friends rank sync, modelled in Dafny

lol-and-friends is a small web application. Groups of friends follow the
League of Legends ranks of their players. A cron route and a manual
"sync now" button fetch each player's league entry from the Riot API. The
entry is written into the player row, and a rank snapshot is appended. This
project models the core of that pipeline:

- **Due players and batch sync** (`Sync`, `DuePlayers`, `SyncProperties`). The
  join of players with their public groups is collapsed into one candidate per
  player. Each candidate keeps the smallest group interval. The due candidates
  are ordered oldest sync first and cut to a batch. The batch is synced one
  player at a time, with a bounded rate-limit retry around every provider call
  (`RiotApi`).
- **Attempt aggregation** (`SyncAttempts`). Per-player outcomes become
  counters, an error list and a final status.
- **Time rule** (`Time`). `isPast` takes the clock and the date parser as
  parameters.
- **Storage** (`Schema`, `Queries`, `Store`). The tables are users, groups,
  group members, players, group players and rank snapshots. Each query is a
  function from one database state to the next. The class `Store.Database`
  holds the tables as fields, and each of its methods performs one query in
  place. The class invariant is the schema's primary keys and unique indexes.
- **Admin server actions** (`AdminActions`):
  - sign-in;
  - the group access check;
  - the unique-slug search when creating a group;
  - the settings and removal actions;
  - find-or-create-then-link of players;
  - the manual sync behind its cooldown.
- **Cron route** (`CronRoute`). Bearer-token extraction, the secret
  comparison, the authorization decision, limit parsing and clamping, and the
  call to the due-player sync.
- **Pure helpers**:
  - region normalization and its tables (`Regions`);
  - the rank score (`Rank`);
  - slugs (`Slug`);
  - the admin allowlist (`AdminAuth`);
  - queue labels (`Queues`);
  - the form schemas (`Validations`);
  - `encodeURIComponent` for the op.gg link (`UriEncoding`);
  - string and sequence primitives (`Text`, `Seqs`).

Effects and inputs the model takes as parameters:

- **Riot provider:** a function from the request and the attempt number to
  `Ok`, `RateLimited(retryAfterSeconds, limitType)` or `Err(message)`.
- **Clock:** `Date.now()` is an integer `now`. `nowIso()` is a per-player
  timestamp (`env.clock`), or the `stamp` that stands for `CURRENT_TIMESTAMP`.
- **Date parser:** `Date.parse` is `parse: string -> Option<int>`.
- **Random values:** `crypto.randomUUID()` is `env.uuid` or an `id` argument.
  The retry jitter is an arbitrary value below 250 (`jitter`).
- **Delays:** sleeps are recorded as `Slept(ms)` events, not taken.
- **Logs:** logger calls are recorded as events.
- **Fetch errors:** the message of the `TypeError` that `fetch` raises for a
  URL without a valid host is `env.badUrl(url)`.

A store-changing method specifies its effect by a function of the old state.
For example, `Sync.SyncDuePlayers` ensures
`Run(store.State(), events, outcome) == SyncDuePlayersSpec(old(store.State()), …)`.
The properties are then proved as lemmas about those functions.

Where the code, its comments and its tests disagree, the model follows the code:

- **Region check escapes in `syncPlayer`.**
  - `normalizePlatformRegion` is called before the `try`
    (lib/riot/sync.ts:189), so an unsupported stored region is not caught.
  - It aborts the remaining batch and propagates out of `syncDuePlayers`, the
    cron route and `manualSyncGroupAction`.
  - `SyncProperties.BatchEscapes` states exactly when this happens.
  - In the manual sync, the cooldown touch is then skipped.
- **Inherited members of the platform table.** `platformMap` is an object
  literal (lib/riot/regions.ts:15-36), so the lower-case names it inherits,
  `constructor` and `__proto__`, pass the `if (!mapped)` test.
  - `accountRegionForPlatform` falls back to europe for them
    (lib/riot/regions.ts:106).
  - In `syncPlayer` the league URL then has no valid host, and the rejected
    `fetch` is caught inside the `try`. The player gets a failure log and the
    batch goes on (`SyncProperties.InheritedRegionCaught`).
  - In `addPlayerAction` the value reaches `findPlayerByIdentity` as a query
    parameter that is not a SQL value, and the action throws before any write
    (`AdminActions.AddPlayerInheritedRegion`).
- **`isAdminEmail` with no allowlist** returns true (lib/auth/admin.ts:19-21),
  as its doc comment says. tests/admin-auth.test.ts expects false; the code is
  modelled.
- **`queueType`** is read and written by lib/db/queries.ts but is not a column
  in lib/db/schema.ts. The model follows queries.ts and gives players an
  optional `queueType`.
- **Tests for a newer version.** tests/sync-player.test.ts,
  tests/sync-selection.test.ts and tests/api-sync-auth.test.ts describe:
  - a queue fallback;
  - a transaction around the two writes;
  - a 404 fallback;
  - a different result shape.

  The code has none of these, so neither does the model. It uses an exact
  queue match and two separate writes, and returns `{processed, totalDue}`.

## Model

| member | source | states |
|---|---|---|
| Text.ToLower | lib/riot/regions.ts:90 | `toLowerCase` over ASCII: same length, each character lowered, spaces kept |
| Text.ToUpper | lib/players/rank.ts:37 | `toUpperCase` over ASCII: same length, each character raised |
| Text.ToLowerIsLowerCase | lib/auth/admin.ts:3 | lowering yields a lower-case string and is idempotent |
| Text.Trim | lib/riot/regions.ts:90 | the result is trimmed, no longer than the input, and a trimmed input is returned unchanged; an all-whitespace input trims to the empty string (`TrimAllSpaces`) |
| Text.TrimAllSpaces | lib/riot/regions.ts:90 | a string of whitespace only trims to the empty string |
| Text.TrimIdempotent | lib/auth/admin.ts:3 | trimming twice is trimming once |
| Text.TrimToLowerCommute | lib/auth/admin.ts:22 | `toLowerCase().trim()` equals `trim().toLowerCase()`, so the allowlist entries and the email are normalized alike |
| Text.TrimSurrounded | app/api/sync/route.ts:25 | a trimmed non-empty string surrounded by spaces trims back to itself |
| Text.RemoveSpaces | lib/players/rank.ts:37 | `replace(/\s+/g, "")`: no space is left, nothing new appears, never longer; the other characters are kept in order (`RemoveSpacesKeepsOrder`) |
| Text.RemoveSpacesKeepsOrder | lib/players/rank.ts:37 | the result is exactly the input filtered by "not whitespace": every other character kept, in order |
| Text.RemoveSpacesToUpper | lib/players/rank.ts:37 | removing whitespace and upper-casing commute |
| Text.RemoveSpacesFixed | lib/players/rank.ts:37 | a string without spaces is unchanged |
| Text.Split | lib/auth/admin.ts:2 | `split(",")` yields at least one part and no part contains the separator |
| Text.JoinSplit | lib/auth/admin.ts:2 | joining the parts with the separator gives back the input |
| Text.SplitJoin | lib/auth/admin.ts:2 | splitting a join of separator-free parts gives back the parts |
| Text.NatToString | lib/utils/slug.ts:17 | the decimal rendering of a number is a non-empty digit string |
| Text.DecimalValueOfNatToString | lib/utils/slug.ts:17 | reading back the decimal rendering gives the number |
| Text.NatToStringInjective | lib/utils/slug.ts:17 | distinct numbers render differently |
| Seqs.Filter | lib/riot/sync.ts:101-107 | `Array.filter`: keeps exactly the elements that satisfy the predicate |
| Seqs.FilterConcat | lib/riot/sync-attempts.ts:64-71 | filtering distributes over concatenation |
| Seqs.FilterFilter | lib/utils/slug.ts:8-9 | filtering by a weaker predicate first does not change a filter by a stronger one |
| Seqs.Find | lib/riot/sync.ts:232 | `Array.find`: the first element satisfying the predicate, or none when no element does |
| Seqs.SliceTo | lib/riot/sync.ts:116 | `slice(0, end)`: a prefix whose length follows JavaScript's rule for negative and too-large ends |
| Seqs.SortBy | lib/riot/sync.ts:108-112 | the result is sorted by the key and is a permutation of the input |
| Seqs.SortByStable | lib/riot/sync.ts:108-112 | the sort is stable: the elements with any one key keep their input order |
| Seqs.SortBySortedUnchanged | lib/riot/sync.ts:108-112 | an already sorted input is returned unchanged |
| Time.MinutesToMs | lib/utils/time.ts:13-15 | `minutes * 60 * 1000`, stated as the inverse division |
| Time.IsPast | lib/utils/time.ts:24-38 | `isPast` over the clock `now` and the parser; its cases are stated by `IsPastWhenMissing`, `IsPastWhenUnparseable` and `IsPastParsed`, its monotonicity by `IsPastMonotone` |
| Time.IsPastWhenMissing | lib/utils/time.ts:28-30 | a missing or empty timestamp is always past |
| Time.IsPastWhenUnparseable | lib/utils/time.ts:32-35 | a timestamp that does not parse is past |
| Time.IsPastParsed | lib/utils/time.ts:37 | otherwise past iff `now - last >= minMinutes * 60000`, inclusive at the boundary |
| Time.IsPastMonotone | lib/utils/time.ts:37 | past at `now` stays past at any later time and for any shorter threshold |
| Time.TenMinuteWindow | lib/utils/time.ts:24-38 | a sync one second inside a ten-minute window is not past, one second outside is |
| Regions.NormalizePlatformRegion | lib/riot/regions.ts:89-96 | succeeds iff the lowered, trimmed input is a key of the platform table or one of the two lower-case members every object literal inherits, `constructor` and `__proto__`; a table key gives its platform, `constructor` the `Object` function, `__proto__` `Object.prototype`; otherwise fails with `Unsupported region: <input>` |
| Regions.AccountRegionOf | lib/riot/regions.ts:103-107 | the account region of a listed platform is its table entry; an inherited member is not a key of the table and falls back to europe |
| Regions.InheritedIff | lib/riot/regions.ts:89-96 | normalization returns a non-platform value iff the normal form is `constructor` or `__proto__` |
| Regions.NormalizeConstructor | lib/riot/regions.ts:15-36 | `constructor` passes normalization, as the inherited `Object` function |
| Regions.NormalizeProto | lib/riot/regions.ts:15-36 | ` __PROTO__ ` passes normalization, as the inherited `Object.prototype` |
| Regions.AccountRegionForPlatform | lib/riot/regions.ts:103-107 | europe exactly for euw1/eun1/tr1/ru, americas for na1/br1/la1/la2/oc1, asia for kr/jp1 |
| Regions.OptionValues | lib/riot/regions.ts:66-81 | the values of the region options, in order |
| Regions.NormalFormFixed | lib/riot/regions.ts:90 | a platform id or op.gg slug is already lowered and trimmed |
| Regions.NormalizePlatformId | lib/riot/regions.ts:15-36 | every platform id normalizes to its own platform |
| Regions.NormalizeIdempotent | lib/riot/regions.ts:89-96 | when normalization gives a listed platform, normalizing that platform's id gives the same result |
| Regions.OpggRegionRoundTrip | lib/riot/regions.ts:52-64 | the op.gg slug of a platform normalizes back to it |
| Regions.OpggRegion | lib/riot/regions.ts:52-64 | the op.gg slug table; its properties are stated by `OpggRegionRoundTrip` (each slug normalizes back to its platform) and `OptionCaption` |
| Regions.NormalizeShortName | lib/riot/regions.ts:15-36 | `euw` normalizes to euw1 |
| Regions.NormalizeUpperCase | lib/riot/regions.ts:90 | `EUW1` normalizes to euw1 |
| Regions.NormalizeSpaced | lib/riot/regions.ts:90 | ` Na ` normalizes to na1 |
| Regions.NormalizeUnknown | lib/riot/regions.ts:92-94 | `atlantis` fails with `Unsupported region: atlantis` |
| Regions.RegionOptionsDistinct | lib/riot/regions.ts:66-81 | the option values are pairwise distinct and cover every platform |
| Regions.OptionCaption | lib/riot/regions.ts:66-81 | each option's lowered label is its platform's op.gg slug |
| Regions.OptionCaptionNormalizes | lib/riot/regions.ts:66-81 | each option's label normalizes to its value |
| Rank.GetRankScore | lib/players/rank.ts:31-46 | `tierScore * 10000 + divisionScore * 100 + lp`: the score minus lp is a multiple of 100 within [-10100, 90300], and a known tier with non-negative lp scores at least -100; the ordering is stated by `TierDominates`, `DivisionDominates`, `LeaguePointsMonotone` and `ScoreDetermines` |
| Rank.NormalizeTier | lib/players/rank.ts:36-38 | the normalized tier is the input's non-whitespace characters, in order, upper-cased: no whitespace and no lower-case letter is left |
| Rank.TierScore | lib/players/rank.ts:39 | a tier whose normalized form is a table key scores that key's table value; otherwise (missing, empty or unknown) -1; always within [-1, 9] |
| Rank.DivisionScore | lib/players/rank.ts:40-43 | a division whose upper-cased form is a table key scores that key's table value; otherwise (missing, empty or unknown) -1; always within [-1, 3] |
| Rank.TableNamesAreNormal | lib/players/rank.ts:1-29 | the table keys are non-empty, with tier values in 0..9 and division values in 0..3 |
| Rank.MissingRank | lib/players/rank.ts:36-46 | without tier and division the score is `lp - 10100`, with a missing lp counting as 0 |
| Rank.TierDominates | lib/players/rank.ts:46 | with lp in [0,100), a higher known tier always outscores a lower one |
| Rank.DivisionDominates | lib/players/rank.ts:46 | within a tier, with lp in [0,100), a higher division outscores a lower one |
| Rank.LeaguePointsMonotone | lib/players/rank.ts:46 | with tier and division fixed, the score is strictly increasing in lp |
| Rank.ScoreDetermines | lib/players/rank.ts:46 | with lp in [0,100), equal scores mean equal tier score, division score and lp |
| Rank.SpanishAliases | lib/players/rank.ts:1-22 | each Spanish tier name scores as its English name |
| Rank.UpperSpanishAliases | lib/players/rank.ts:1-22 | Retador to Esmeralda score 9 to 5, as Challenger to Emerald do |
| Rank.LowerSpanishAliases | lib/players/rank.ts:1-22 | Platino to Hierro score 4 to 0, as Platinum to Iron do |
| Rank.UpperCaseTierName | lib/players/rank.ts:36-39 | a table key used as a tier scores its table value |
| Rank.PlatinoIsPlatinum | lib/players/rank.ts:36-39 | `Platino` scores as `PLATINUM` |
| Rank.DiamondOverGold | lib/players/rank.ts:31-47 | DIAMOND IV 0 LP outscores GOLD I 99 LP |
| Slug.NonSlugRun | lib/utils/slug.ts:9 | the length of the maximal run of characters outside `[a-z0-9]` |
| Slug.StripDiacritics | lib/utils/slug.ts:7-8 | deletes exactly `^` and `` ` `` (the ASCII characters with the Unicode Diacritic property), keeps every other character, and leaves a string without them unchanged; the order of the kept characters is stated by `StripDiacriticsKeepsOrder` |
| Slug.StripDiacriticsKeepsOrder | lib/utils/slug.ts:7-8 | the result is exactly the input filtered by "not a diacritic": every other character kept, in order |
| Slug.Collapse | lib/utils/slug.ts:9 | only `[a-z0-9]` and `-`, no `--`, empty iff the input is, same first character class; the letters and digits kept in order (`CollapseKeepsLetters`) and the last character class kept (`CollapseLastClass`) |
| Slug.CollapseKeepsLetters | lib/utils/slug.ts:9 | the `[a-z0-9]` characters of the result are those of the input, in order |
| Slug.CollapseLastClass | lib/utils/slug.ts:9 | the result ends in a letter or digit iff the input does, so a trailing run of other characters leaves one trailing dash |
| Slug.CollapseLength | lib/utils/slug.ts:9 | collapsing never lengthens |
| Slug.CollapseFixed | lib/utils/slug.ts:9 | a string of slug characters without `--` is unchanged |
| Slug.Slugify | lib/utils/slug.ts:4-11 | the result is a slug (only `a-z`, `0-9`, `-`; no `--`; no leading or trailing `-`) and no longer than the input; which letters and digits it keeps is stated by `SlugifyKeepsLetters`, and the deletion of the caret by `CaretDropped` |
| Slug.SlugifyKeepsLetters | lib/utils/slug.ts:4-11 | the slug's letters and digits are exactly those of the lowered input, in order, so only dashes separate them |
| Slug.SlugifyFixed | lib/utils/slug.ts:4-11 | a slug is its own slugification |
| Slug.SlugifyIdempotent | lib/utils/slug.ts:4-11 | slugifying twice is slugifying once |
| Slug.SlugifyEmpty | lib/utils/slug.ts:4-11 | the slug is empty iff the input has no ASCII letter or digit |
| Slug.WithSlugSuffix | lib/utils/slug.ts:16-18 | the base, a `-`, then a digit string whose decimal value is the suffix |
| Slug.WithSlugSuffixInjective | lib/utils/slug.ts:16-18 | distinct suffixes give distinct slugs |
| Slug.WithSlugSuffixIsSlug | lib/utils/slug.ts:16-18 | a suffixed non-empty slug is still a slug |
| Slug.RetoEuw | lib/utils/slug.ts:4-11 | `Reto EUW` slugifies to `reto-euw` |
| Slug.CaretDropped | lib/utils/slug.ts:4-11 | `a^b` slugifies to `ab` |
| AdminAuth.NonEmpty | lib/auth/admin.ts:4 | `filter(Boolean)`: exactly the non-empty entries are kept |
| AdminAuth.NormalizeAll | lib/auth/admin.ts:3 | each part trimmed and lowered, in order |
| AdminAuth.NormalizedMembers | lib/auth/admin.ts:3 | the normalized entries are exactly the normal forms of the parts |
| AdminAuth.ParseAllowlist | lib/auth/admin.ts:1-4 | an entry is listed iff it is non-empty and is the normalized form of some comma-separated part of the variable |
| AdminAuth.AllowlistEntriesNormalized | lib/auth/admin.ts:1-4 | every listed entry is non-empty, trimmed and lower case |
| AdminAuth.HasAdminAllowlist | lib/auth/admin.ts:9-11 | an allowlist exists iff some entry survives parsing; stated through `NoAllowlistAdmitsEveryone` and `ParseAllowlist` |
| AdminAuth.IsAdminEmail | lib/auth/admin.ts:18-23 | `isAdminEmail`; its behaviour is stated by `NoAllowlistAdmitsEveryone`, `EmptyEmailRejected`, `MatchIgnoresCase` and `AdminIffListed` |
| AdminAuth.NoAllowlistAdmitsEveryone | lib/auth/admin.ts:18-21 | with a missing or blank variable there is no allowlist and every email is admin |
| AdminAuth.EmptyEmailRejected | lib/auth/admin.ts:22-23 | with an allowlist, a missing or blank email is not admin |
| AdminAuth.MatchIgnoresCase | lib/auth/admin.ts:22 | an email and its lowered, trimmed form are judged alike |
| AdminAuth.AdminIffListed | lib/auth/admin.ts:9-23 | with an allowlist, an email is admin iff its normalized form is non-empty and listed |
| Queues.GetQueueLabel | lib/riot/queues.ts:17-22 | `Flex 5v5` exactly for the flex queue, `Solo/Duo` for everything else including a missing or empty value, always an option's label |
| Queues.OptionLabels | lib/riot/queues.ts:1-10 | each option's value labels as its own caption, and the two values differ |
| Validations.StringMin | lib/validations/admin.ts:5 | `z.string().min(n)`: accepted iff a string of at least n characters, returned as is |
| Validations.NumberIn | lib/validations/admin.ts:12-13 | `z.coerce.number().min(lo).max(hi)`: accepted iff the coerced number lies in [lo, hi] |
| Validations.NumberInOrDefault | lib/validations/admin.ts:6-7 | an undefined field takes the default; anything else is checked as a bounded number |
| Validations.QueueTypeField | lib/validations/admin.ts:21-23 | the two queue types are accepted, undefined defaults to solo, null and other strings fail |
| Validations.NullablePlayerText | lib/validations/admin.ts:35-42 | accepted iff a string of at most 160 characters; a blank one becomes null and any other the non-empty trimmed text |
| Validations.CreateGroupSchema | lib/validations/admin.ts:4-8 | accepted iff the name has 2+ characters and both intervals are within bounds, or undefined and defaulted; failures name at least one field |
| Validations.SettingsSchema | lib/validations/admin.ts:10-14 | accepted iff the group id is non-empty, the sync interval is in [0.5, 1440] and the cooldown in [0.5, 240] |
| Validations.PlayerSchema | lib/validations/admin.ts:16-24 | accepted iff the group id is non-empty, name, tag and region have 2+ characters and the queue type is valid or defaulted |
| Validations.RemovePlayerSchema | lib/validations/admin.ts:26-29 | accepted iff both ids are non-empty strings |
| Validations.ManualSyncSchema | lib/validations/admin.ts:31-33 | accepted iff the group id is a non-empty string; otherwise the failure names `groupId` |
| Validations.UpdatePlayerMetaSchema | lib/validations/admin.ts:44-50 | accepted iff both ids are non-empty and the three notes pass the nullable-text rule |
| Validations.SettingsAcceptedIff | lib/validations/admin.ts:10-14 | for text fields, accepted iff the group id is non-empty and both numbers are within their bounds, those numbers being kept |
| Validations.CreateGroupDefaults | lib/validations/admin.ts:6-7 | omitted intervals default to 360 and 30; a null interval is rejected |
| Validations.CreateGroupShortName | lib/validations/admin.ts:5 | a name shorter than two characters is rejected and the failure names `name` |
| Validations.PlayerQueueDefault | lib/validations/admin.ts:21-23 | an omitted queue type defaults to solo; null and `ARAM` are rejected |
| Validations.NullablePlayerTextStable | lib/validations/admin.ts:39-42 | feeding an accepted text back in gives the same result |
| Validations.NullablePlayerTextBlank | lib/validations/admin.ts:37-41 | an all-space string becomes null when within 160 characters and is rejected beyond |
| SyncAttempts.CountSucceeded | lib/riot/sync-attempts.ts:64 | the number of succeeded results, at most the number of results |
| SyncAttempts.CountFailed | lib/riot/sync-attempts.ts:65 | the number of failed results, at most the number of results |
| SyncAttempts.Errors | lib/riot/sync-attempts.ts:66-71 | one error per failed result, in order |
| SyncAttempts.StatusFor | lib/riot/sync-attempts.ts:73-80 | success iff no failures, failed iff failures and no successes, partial iff both; never running |
| SyncAttempts.CreateSyncAttempt | lib/riot/sync-attempts.ts:34-49 | running, all counters zero, no errors, unfinished, and `totalDue`, `limit` and start time as given |
| SyncAttempts.CompleteSyncAttempt | lib/riot/sync-attempts.ts:58-91 | attempted is the result count and equals succeeded plus failed; the errors are exactly the failures; the status rule; `totalDue`, `limit` and `startedAt` carried over; finished now |
| SyncAttempts.CountsAddUp | lib/riot/sync-attempts.ts:64-65 | succeeded plus failed is the number of results |
| SyncAttempts.ErrorsCountFailures | lib/riot/sync-attempts.ts:65-71 | the error list is as long as the failure count |
| SyncAttempts.ErrorsAreFailures | lib/riot/sync-attempts.ts:66-71 | an error is listed iff a result failed with that player and message |
| SyncAttempts.TallyConcat | lib/riot/sync-attempts.ts:64-71 | counts and errors of concatenated results add up |
| SyncAttempts.CompletedIsConsistent | lib/riot/sync-attempts.ts:82-90 | a completed attempt satisfies the consistency invariant |
| SyncAttempts.CompleteAgain | lib/riot/sync-attempts.ts:58-91 | completing again with the same results is completing once, at the later time |
| SyncAttempts.EmptyIsSuccess | lib/riot/sync-attempts.ts:74-75 | completing with no results is a success |
| SyncAttempts.MixedIsPartial | lib/riot/sync-attempts.ts:73-80 | one success and one failure is partial, with that failure's error |
| UriEncoding.Utf8 | lib/riot/sync.ts:242-244 | the UTF-8 bytes of a string: at least one and at most four bytes per code point, counted over the whole string; decoded back by `Utf8RoundTrip`, injective by `Utf8Injective` |
| UriEncoding.EncodeUriComponent | lib/riot/sync.ts:242-244 | `encodeURIComponent`: at least one and at most twelve characters per code point, counted over the whole string; percent-decoding gives back the UTF-8 (`EncodeUriComponentBytes`) and the code points (`EncodeUriComponentRoundTrip`) |
| UriEncoding.EncodeChar | lib/riot/sync.ts:242-244 | UTF-8 encodes a code point in 1 to 4 bytes, one byte exactly for ASCII |
| UriEncoding.EncodeCharDecodes | lib/riot/sync.ts:242-244 | the lead byte announces the sequence length and the bytes decode to the code point |
| UriEncoding.CodePoints | lib/riot/sync.ts:242-244 | the code points of a string, in order |
| UriEncoding.Utf8RoundTrip | lib/riot/sync.ts:242-244 | decoding the UTF-8 of a string gives its code points |
| UriEncoding.Utf8Injective | app/api/sync/route.ts:15-16 | distinct strings have distinct UTF-8 bytes |
| UriEncoding.PercentBytes | lib/riot/sync.ts:242-244 | each byte becomes three characters |
| UriEncoding.PercentBytesDecode | lib/riot/sync.ts:242-244 | percent-decoding undoes percent-encoding |
| UriEncoding.PercentByteDecode | lib/riot/sync.ts:242-244 | one `%XX` with upper-case hexadecimal digits decodes to its byte |
| UriEncoding.EncodeUriComponentBytes | lib/riot/sync.ts:242-244 | percent-decoding `encodeURIComponent(s)` gives the UTF-8 of s |
| UriEncoding.EncodeUriComponentRoundTrip | lib/riot/sync.ts:242-244 | decoding `encodeURIComponent(s)` gives back the code points of s |
| UriEncoding.UnreservedUnchanged | lib/riot/sync.ts:242-244 | unreserved characters are left as they are |
| UriEncoding.EncodedAlphabet | lib/riot/sync.ts:242-244 | the encoding uses only unreserved characters and `%` |
| UriEncoding.EncodeExamples | lib/riot/sync.ts:242-244 | `Faker-KR1` is unchanged and a space becomes `%20` |
| RiotApi.PauseFor | lib/riot/sync.ts:41-49 | the wait is `max(1, retryAfterSeconds)` seconds, and the sleep that many seconds plus a jitter below 250 ms |
| RiotApi.WithRateLimitRetry | lib/riot/sync.ts:31-56 | the loop returns the outcome and the pauses of the retry function `Retry` |
| RiotApi.RetryCharacterized | lib/riot/sync.ts:35-55 | the returned outcome is that of the last call made, at most at attempt 2; every pause follows a rate-limited call and is that call's `PauseFor`; an earlier stop means the outcome was not a rate limit |
| RiotApi.RetryCallsBounded | lib/riot/sync.ts:25-40 | at most two pauses, so at most three calls |
| RiotApi.RetryStopsOnFirstSettled | lib/riot/sync.ts:38-53 | a first call that succeeds or fails with another error is the only call |
| RiotApi.RetryGivesUp | lib/riot/sync.ts:40-53 | when every call is rate limited, the third outcome is returned after two pauses |
| RiotApi.RetryUsesOnlyMadeCalls | lib/riot/sync.ts:31-56 | the result depends only on the calls actually made |
| RiotApi.PausesBounded | lib/riot/sync.ts:41-49 | every sleep is at least 1000 ms and below the wait plus 250 ms |
| Schema.Valid | lib/db/schema.ts:12-139 | the schema's keys: the primary key of each table, the unique group slug, the unique player identity and the composite keys of the two join tables; preserved by every `Store.Database` method, whose class invariant it is |
| Queries.FindUser | lib/db/queries.ts:70-72 | the row with that id, or none when no row has it |
| Queries.SetUserEmail | lib/db/queries.ts:79-82 | only the email of the rows with that id changes |
| Queries.FindAfterSetEmail | lib/db/queries.ts:79-82 | after the update the user is found with the new email |
| Queries.FindUserFirst | lib/db/queries.ts:70-72 | the first user with the id is the one found |
| Queries.EnsureUser | lib/db/queries.ts:66-88 | only the users table changes; a missing user is inserted; an existing one keeps its row unless a different non-empty email is given, which replaces its email; the user read back is returned |
| Queries.EnsureUserIdempotent | lib/db/queries.ts:66-88 | ensuring the same user twice is ensuring it once |
| Queries.EnsureUserValid | lib/db/queries.ts:66-88 | the schema's keys survive |
| Queries.GroupsForUser | lib/db/queries.ts:114-152 | exactly the groups the user owns or belongs to |
| Queries.FindGroup | lib/db/queries.ts:515-524 | the group with that id, or none when no group has it |
| Queries.FindGroupBySlug | lib/db/queries.ts:159-203 | the group with that slug, or none when no group has it |
| Queries.CreateGroup | lib/db/queries.ts:230-256 | succeeds iff the id and slug are fresh and the membership is new, appending the group and the owner membership; a clash on the group changes nothing; with a fresh group the group row is appended even when the membership then clashes |
| Queries.CreateGroupValid | lib/db/queries.ts:230-256 | the schema's keys survive |
| Queries.UpdateGroups | lib/db/queries.ts:262-289 | the update applies to the rows with the id and no other |
| Queries.UpdateGroupSettings | lib/db/queries.ts:262-275 | only the two intervals of the one group change |
| Queries.TouchGroupManualSync | lib/db/queries.ts:281-289 | only the last manual sync time of the one group changes, to the current timestamp |
| Queries.UpdateGroupsValid | lib/db/queries.ts:262-289 | updates that keep ids and slugs keep the schema's keys |
| Queries.GroupSyncSettings | lib/db/queries.ts:515-524 | none iff no group has the id; otherwise the first such group's intervals and last manual sync |
| Queries.FindAfterUpdate | lib/db/queries.ts:262-289 | after an update the group is found in its updated form |
| Queries.FindGroupFirst | lib/db/queries.ts:515-524 | the first group with the id is the one found |
| Queries.TouchSetsLastManualSync | lib/db/queries.ts:281-289 | after a touch the settings report the stamp and keep both intervals |
| Queries.FindPlayerByIdentity | lib/db/queries.ts:296-308 | the player with that name, tag and region, or none when no player has them |
| Queries.IdentityUnique | lib/db/queries.ts:296-308 | under the unique identity index at most one player has an identity |
| Queries.FindPlayer | lib/db/queries.ts:315-333 | the player with that id, or none when no player has it |
| Queries.CreatePlayer | lib/db/queries.ts:315-333 | succeeds iff the id and identity are fresh, appending and returning the row; the queue defaults to solo; a rejection changes nothing |
| Queries.CreatePlayerValid | lib/db/queries.ts:315-333 | the schema's keys survive |
| Queries.CreatedPlayerFound | lib/db/queries.ts:296-333 | a created player is found by its identity |
| Queries.UpdatePlayers | lib/db/queries.ts:428-478 | the update applies to the rows with the id and no other |
| Queries.UpdatePlayerMeta | lib/db/queries.ts:428-443 | only the three notes of the one player change; rank and sync columns are untouched everywhere |
| Queries.ApplySync | lib/db/queries.ts:449-478 | id, identity and notes kept; last sync set; each of puuid, queue type, tier, division, lp, wins, losses and op.gg URL written when passed and kept when undefined |
| Queries.UpdatePlayerSync | lib/db/queries.ts:449-478 | only the one player's row changes, by the patch |
| Queries.UpdatePlayersValid | lib/db/queries.ts:428-478 | updates that keep ids and identities keep the schema's keys |
| Queries.AddPlayerToGroup | lib/db/queries.ts:339-350 | only the links change; the link is present afterwards; an existing link changes nothing, a new one is appended |
| Queries.AddPlayerToGroupIdempotent | lib/db/queries.ts:339-350 | linking twice is linking once |
| Queries.AddPlayerToGroupValid | lib/db/queries.ts:339-350 | the composite key survives |
| Queries.RemovePlayerFromGroup | lib/db/queries.ts:356-368 | only the links change, and exactly the link with both ids is removed |
| Queries.RemovePlayerFromGroupValid | lib/db/queries.ts:356-368 | the composite key survives |
| Queries.RemoveUndoesAdd | lib/db/queries.ts:339-368 | removing a link just added leaves the links that were there |
| Queries.GroupPlayers | lib/db/queries.ts:375-398 | exactly the players linked to the group |
| Queries.JoinGroups | lib/db/queries.ts:404-422 | the rows joining a player with the public groups of one id |
| Queries.JoinLinks | lib/db/queries.ts:404-422 | the rows joining a player with every public group it is linked to |
| Queries.PlayersForSync | lib/db/queries.ts:404-422 | exactly the rows of the join: a row is in the result iff it joins a player with a public group the player is linked to (how often it appears is not stated) |
| Queries.InsertRankSnapshot | lib/db/queries.ts:484-508 | appends exactly the one snapshot iff its id is fresh; otherwise nothing changes |
| Queries.InsertRankSnapshotValid | lib/db/queries.ts:484-508 | the snapshot key survives |
| Store.Database.EnsureUser | lib/db/queries.ts:66-88 | performs `Queries.EnsureUser` on the tables in place, keeping the invariant |
| Store.Database.CreateGroup | lib/db/queries.ts:230-256 | performs `Queries.CreateGroup` in place |
| Store.Database.UpdateGroupSettings | lib/db/queries.ts:262-275 | performs `Queries.UpdateGroupSettings` in place |
| Store.Database.TouchGroupManualSync | lib/db/queries.ts:281-289 | performs `Queries.TouchGroupManualSync` in place |
| Store.Database.CreatePlayer | lib/db/queries.ts:315-333 | performs `Queries.CreatePlayer` in place |
| Store.Database.AddPlayerToGroup | lib/db/queries.ts:339-350 | performs `Queries.AddPlayerToGroup` in place |
| Store.Database.RemovePlayerFromGroup | lib/db/queries.ts:356-368 | performs `Queries.RemovePlayerFromGroup` in place |
| Store.Database.UpdatePlayerMeta | lib/db/queries.ts:428-443 | performs `Queries.UpdatePlayerMeta` in place |
| Store.Database.UpdatePlayerSync | lib/db/queries.ts:449-478 | performs `Queries.UpdatePlayerSync` in place |
| Store.Database.InsertRankSnapshot | lib/db/queries.ts:484-508 | performs `Queries.InsertRankSnapshot` in place |
| DuePlayers.Grouped | lib/riot/sync.ts:80-99 | the value of the `byPlayer` map after the loop; stated by `GroupedFacts` and computed by `GroupByPlayer` |
| DuePlayers.FromRow | lib/riot/sync.ts:83-92 | a new candidate takes its first row's fields and interval, with a null queue defaulting to solo |
| DuePlayers.GroupByPlayer | lib/riot/sync.ts:80-99 | the map-filling loop computes `Grouped(rows)` |
| DuePlayers.GroupedFacts | lib/riot/sync.ts:80-99 | each player id appears exactly once; its interval is the minimum over its rows; its other fields come from its first row; candidates are in first-appearance order |
| DuePlayers.IsDue | lib/riot/sync.ts:101-107 | the filter `isPast(lastSyncAt, minInterval)`; used by `DueList` and `NeverSyncedIsDue` |
| DuePlayers.SortKey | lib/riot/sync.ts:108-111 | the comparator key: the parsed last sync, 0 when missing or empty; used by `DueList`, `NeverSyncedFirst` and `DueListStable` |
| DuePlayers.DueList | lib/riot/sync.ts:101-112 | a candidate is due iff `isPast(lastSyncAt, minInterval)`; the list is sorted by last sync with null as 0 |
| DuePlayers.NeverSyncedIsDue | lib/riot/sync.ts:101-107 | a never-synced candidate is due |
| DuePlayers.NeverSyncedFirst | lib/riot/sync.ts:108-112 | a never-synced player comes before every player with a positive last-sync time |
| DuePlayers.DueListStable | lib/riot/sync.ts:108-112 | ties keep the order of the grouped candidates |
| DuePlayers.Batch | lib/riot/sync.ts:114-116 | the batch is a prefix of the due list, of length `min(|due|, limit)` |
| DuePlayers.SummaryFor | lib/riot/sync.ts:121-124 | `totalDue` is the due count and `processed` the batch size, never more |
| Sync.Warnings | lib/riot/sync.ts:43-48 | one rate-limit warning per pause, naming the player, the action and the region |
| Sync.ResolvePuuid | lib/riot/sync.ts:194-216 | a resolved PUUID is never empty |
| Sync.PickEntry | lib/riot/sync.ts:231-232 | the first league entry of exactly the player's queue, or none when no entry has it |
| Sync.OpggUrl | lib/riot/sync.ts:242-244 | the op.gg prefix for the platform followed by the encoded `name-tag` |
| Sync.WriteRank | lib/riot/sync.ts:231-265 | the exact-queue entry, the player update, then the snapshot insert; a rejected insert leaves the update in place and logs a failure; stated by `SyncProperties.WriteRankLogsOnce`, `WriteRankFramed`, `WriteRankSnapshot` and `WriteRankRecords` |
| Sync.TrySync | lib/riot/sync.ts:193-273 | the `try` block and its `catch`: nothing escapes; stated by `SyncProperties.SyncPlayerOutcome`, `TrySyncSkipsAccount`, `TrySyncFrame` and `SyncPlayerRecordsRank` |
| Sync.TryUnroutable | lib/riot/sync.ts:189-229 | for an inherited region the account lookup goes to europe, the league URL has no valid host, and the rejected fetch is caught: the database is unchanged and nothing escapes |
| Sync.SyncPlayerSpec | lib/riot/sync.ts:179-274 | `syncPlayer`: an unsupported region throws before the `try`; stated by `SyncPlayerThrowsUnchanged`, `SyncProperties.SyncPlayerEscapes`, `SyncPlayerOutcome`, `InheritedRegionCaught` and `SyncPlayerFrame` |
| Sync.RunSteps | lib/riot/sync.ts:116-119 | the batch loop with a 350 ms sleep after each player, stopping at the first exception; stated by `BatchContinues`, `BatchStops` and `SyncProperties.BatchOutcomes`/`BatchEscapes` |
| Sync.ResolvePuuidStep | lib/riot/sync.ts:194-216 | returns what `ResolvePuuid` specifies, with its log events |
| Sync.FetchEntriesStep | lib/riot/sync.ts:218-229 | returns what `FetchEntries` specifies, with its log events |
| Sync.WriteRankStep | lib/riot/sync.ts:231-265 | performs `WriteRank`: the player update, then the snapshot insert, then the success log |
| Sync.SyncPlayer | lib/riot/sync.ts:179-274 | performs `SyncPlayerSpec` on the store |
| Sync.SyncPlayerThrowsUnchanged | lib/riot/sync.ts:189 | the step throws exactly when region normalization fails (never for the inherited `constructor` and `__proto__`), and then changes nothing |
| Sync.BatchContinues | lib/riot/sync.ts:116-119 | after a player that does not throw comes the API delay and the next player |
| Sync.BatchStops | lib/riot/sync.ts:116-119 | a player that throws ends the batch with its error |
| Sync.RunBatch | lib/riot/sync.ts:116-119 | the batch loop performs `RunBatchSpec` |
| Sync.SyncDuePlayersSpec | lib/riot/sync.ts:64-125 | grouping, due filter, sort, batch of `limit` (5 by default), and the summary; stated by `SyncProperties.SyncDuePlayersReport`, `BatchKeepsGroups` and `BatchKeepsNotes` |
| Sync.SyncDuePlayers | lib/riot/sync.ts:64-125 | performs `SyncDuePlayersSpec` on the store |
| Sync.GroupCandidate | lib/riot/sync.ts:160-169 | a group player becomes a candidate with the group's interval |
| Sync.GroupCandidates | lib/riot/sync.ts:159-169 | one candidate per due group player, in order |
| Sync.SyncGroupPlayersSpec | lib/riot/sync.ts:135-177 | nothing for a group without settings; otherwise the forced or interval-due players, unsorted, in a batch of `limit`; stated by `SyncProperties.GroupWithoutSettings`, `ForceSelectsAll`, `GroupDueByInterval` and `SyncGroupPlayersReport` |
| Sync.SyncGroupPlayers | lib/riot/sync.ts:135-177 | performs `SyncGroupPlayersSpec` on the store |
| SyncProperties.OutcomeIdsConcat | lib/riot/sync.ts:260-273 | the players named by success and failure logs of concatenated events are those of each part, in order |
| SyncProperties.SyncPlayerEscapes | lib/riot/sync.ts:189 | a player step throws iff the stored region does not normalize, and then leaves the store and log untouched |
| SyncProperties.ResolveWarnings | lib/riot/sync.ts:196-208 | the account lookup logs at most two warnings, all about this player |
| SyncProperties.FetchWarnings | lib/riot/sync.ts:218-229 | the league lookup logs at most two warnings, all about this player |
| SyncProperties.LoggedWarningsFor | lib/riot/sync.ts:194-229 | a player logs at most four rate-limit warnings, all about it |
| SyncProperties.SyncPlayerEvents | lib/riot/sync.ts:193-273 | the log of the `try` block is the logged retry warnings followed by one outcome line for the player |
| SyncProperties.WriteRankLogsOnce | lib/riot/sync.ts:231-273 | the two writes log exactly one line, success or failure, about the player |
| SyncProperties.SyncPlayerOutcome | lib/riot/sync.ts:193-273 | when the step does not throw, exactly one outcome is logged, for this player, after at most four warnings |
| SyncProperties.InheritedRegionCaught | lib/riot/sync.ts:189-273 | a region whose normal form is `constructor` or `__proto__` does not throw: the database is unchanged and the last event is the player's sync failure |
| SyncProperties.AccountLookupSkipped | lib/riot/sync.ts:194-195 | with a stored PUUID the account lookup is never consulted |
| SyncProperties.TrySyncSkipsAccount | lib/riot/sync.ts:194-195 | in the `try` block, a stored PUUID makes the account endpoint irrelevant |
| SyncProperties.OnlyAccountChanged | lib/riot/sync.ts:218-265 | the league lookup and the writes do not depend on the account endpoint |
| SyncProperties.AccountLookupFailure | lib/riot/sync.ts:196-210 | a failing account lookup is logged as the player's failure and nothing is written |
| SyncProperties.MissingPuuid | lib/riot/sync.ts:212-216 | an empty PUUID from the lookup is logged as `Missing PUUID for name#tag (region)` and nothing is written |
| SyncProperties.SyncPlayerFrame | lib/riot/sync.ts:234-258 | a player step changes only that player's row and the snapshot table |
| SyncProperties.TrySyncFrame | lib/riot/sync.ts:193-273 | the `try` block changes only that player's row and the snapshot table |
| SyncProperties.WriteRankFramed | lib/riot/sync.ts:234-265 | the row update and the snapshot insert stay within the player's row and the snapshot table |
| SyncProperties.WritesFramed | lib/riot/sync.ts:234-258 | an update that keeps the queue, followed by a snapshot insert, changes only that player's row and the snapshot table |
| SyncProperties.SyncPlayerSnapshot | lib/riot/sync.ts:234-265 | a failure writes no snapshot; a success appends one snapshot of the player's queue whose fields and `fetchedAt` match the updated row |
| SyncProperties.WriteRankSnapshot | lib/riot/sync.ts:234-265 | the writes log something; when they end in a failure line no snapshot is added; when they end in a success line exactly one snapshot is appended, for the player and queue at the clock's time, and every row of the player carries its rank and that time as `lastSyncAt` |
| SyncProperties.SyncPlayerRecordsRank | lib/riot/sync.ts:231-258 | with a stored PUUID and entries fetched, the matching entry's rank (or nulls) goes to both the row and the new snapshot, with the op.gg URL and the sync time |
| SyncProperties.FetchFirstOk | lib/riot/sync.ts:218-229 | a league call that succeeds at once is the lookup's value, with no warning |
| SyncProperties.WriteRankRecords | lib/riot/sync.ts:231-265 | with a fresh snapshot id both writes succeed and log one success line; the appended snapshot and the player's row hold the picked queue entry's rank (or nulls), and the row also gets the PUUID, the op.gg URL and the sync time |
| SyncProperties.PlayerStepOutcomes | lib/riot/sync.ts:179-274 | every player turn that does not throw logs exactly one outcome, for its own player |
| SyncProperties.PlayerStepThrows | lib/riot/sync.ts:189 | a player turn throws exactly for an unsupported region, with `Unsupported region: <region>`, and then does nothing |
| SyncProperties.PlayerStepFramed | lib/riot/sync.ts:234-258 | every player turn writes only its own row and one snapshot |
| SyncProperties.StepsOutcomes | lib/riot/sync.ts:116-119 | for any turn that logs one outcome for its player, a loop that does not throw logs one outcome per batch player, in order |
| SyncProperties.TurnOutcomes | lib/riot/sync.ts:118 | the sleep after a turn logs no outcome |
| SyncProperties.BatchOutcomes | lib/riot/sync.ts:116-119 | a batch that does not throw logs exactly one outcome per player, in batch order |
| SyncProperties.StepsEscape | lib/riot/sync.ts:116-119 | for any turn that throws exactly on rejected players, the loop throws iff some batch player is rejected, with the first one's message, after outcomes for exactly the players before it |
| SyncProperties.FirstFailing | lib/riot/sync.ts:116-119 | the first batch position whose player fails the check, with every earlier player passing; none iff every player passes |
| SyncProperties.BatchEscapes | lib/riot/sync.ts:116-119 | a batch throws iff some region does not normalize; then the error names the first such region, and only the players before it have outcomes |
| SyncProperties.BatchFrame | lib/riot/sync.ts:116-119 | the rows of players outside the batch are untouched |
| SyncProperties.StepsFrame | lib/riot/sync.ts:116-119 | for any framed turn, the loop leaves the rows of players outside the batch untouched |
| SyncProperties.StepsKeepGroups | lib/riot/sync.ts:116-119 | for any framed turn, the loop leaves users, groups, members and links untouched |
| SyncProperties.StepsKeepNotes | lib/riot/sync.ts:116-119 | for any framed turn, the loop keeps every player's id, notes, objective and month checkpoint |
| SyncProperties.BatchKeepsGroups | lib/riot/sync.ts:116-119 | a batch leaves users, groups, members and links untouched |
| SyncProperties.SyncGroupKeepsGroups | lib/riot/sync.ts:135-177 | a group sync leaves users, groups, members and links untouched |
| SyncProperties.BatchKeepsNotes | lib/riot/sync.ts:234-246 | a batch keeps every player's id and notes |
| SyncProperties.SyncDuePlayersReport | lib/riot/sync.ts:114-124 | with valid regions the result is `processed = min(totalDue, limit)` and `totalDue = |due|`, with default limit 5, and exactly the first `processed` due players are synced, in order |
| SyncProperties.CleanBatch | lib/riot/sync.ts:116-124 | a batch with only valid regions completes with its summary and logs one outcome per player, in order |
| SyncProperties.GroupWithoutSettings | lib/riot/sync.ts:140-143 | a group without settings reports `{0, 0}` and does nothing |
| SyncProperties.ForceSelectsAll | lib/riot/sync.ts:146-149 | with `force`, every group player is due |
| SyncProperties.GroupDueByInterval | lib/riot/sync.ts:146-155 | without `force`, a player is due iff linked to the group and past the group's own interval |
| SyncProperties.SyncGroupPlayersReport | lib/riot/sync.ts:140-177 | with valid regions the result counts `min(|due|, limit)` of `|due|`, syncing exactly that prefix in order |
| SyncProperties.GroupBatchReport | lib/riot/sync.ts:159-177 | a batch drawn from group players with valid regions completes and logs one outcome per player, in order |
| SyncProperties.GroupRegionsOk | lib/riot/sync.ts:159-169 | the candidates of group players with valid regions all pass the region check |
| SyncProperties.Ids | lib/riot/sync.ts:116 | the ids of a batch, in order |
| SyncProperties.PlayerIds | lib/riot/sync.ts:159 | the ids of a list of players, in order |
| AdminActions.Signed | app/admin/actions.ts:43-48 | signing in changes only the users table |
| AdminActions.RequireUser | app/admin/actions.ts:37-51 | ensures the session's user and reports `isAdminEmail` of its email |
| AdminActions.AccessCheck | app/admin/actions.ts:57-63 | access iff some group with the id is owned by the user or has the user as member; otherwise `No access to group` |
| AdminActions.AccessSurvivesSignIn | app/admin/actions.ts:37-63 | signing in does not change who may access a group |
| AdminActions.GateAllows | app/admin/actions.ts:114-116 | an action proceeds iff the user is admin or has access |
| AdminActions.Candidate | app/admin/actions.ts:82-86 | the first candidate is the base, later ones the base with a `-n` suffix |
| AdminActions.CandidateInjective | app/admin/actions.ts:82-86 | distinct positions give distinct candidates |
| AdminActions.ChooseSlug | app/admin/actions.ts:82-87 | the loop ends with the least free candidate |
| AdminActions.LeastFreeUnique | app/admin/actions.ts:82-87 | the least free candidate is unique |
| AdminActions.FreeBaseKept | app/admin/actions.ts:82-87 | the chosen slug is the base iff the base is free |
| AdminActions.TakenBaseSuffixed | app/admin/actions.ts:82-87 | when the base is taken, the slug is `base-k` for the smallest `k >= 2` that is free |
| AdminActions.LeastFreeIsSlug | app/admin/actions.ts:82-87 | the chosen slug is itself a slug |
| AdminActions.InsertGroup | app/admin/actions.ts:89-97 | group creation returns iff id and slug are fresh and the owner is not yet a member |
| AdminActions.CreateGroupAction | app/admin/actions.ts:69-100 | an empty slug throws `Slug inválido` after sign-in; otherwise the group is created under the least free slug |
| AdminActions.CreatedUnderChosenSlug | app/admin/actions.ts:89-97 | with fresh ids, the new public group and its owner membership are appended |
| AdminActions.UpdateSettingsSpec | app/admin/actions.ts:106-120 | sign-in, the access check unless admin, then the settings update; stated by `UpdateSettingsEffect` |
| AdminActions.UpdateGroupSettingsAction | app/admin/actions.ts:106-120 | performs `UpdateSettingsSpec` on the store |
| AdminActions.UpdateSettingsEffect | app/admin/actions.ts:106-120 | throws iff neither admin nor with access, then only signs in; otherwise only the one group's row changes |
| AdminActions.RemovePlayerSpec | app/admin/actions.ts:171-184 | sign-in, the access check unless admin, then the link removal; stated by `RemovePlayerEffect` |
| AdminActions.RemovePlayerAction | app/admin/actions.ts:171-184 | performs `RemovePlayerSpec` on the store |
| AdminActions.RemovePlayerEffect | app/admin/actions.ts:171-184 | throws iff neither admin nor with access; otherwise exactly the one link goes; players and groups untouched |
| AdminActions.FindOrCreateLink | app/admin/actions.ts:141-162 | reuse the player with the identity or create it, then link it; stated by `AddPlayerReuses`, `AddPlayerCreates` and `AddPlayerLinks` |
| AdminActions.AddPlayerSpec | app/admin/actions.ts:126-165 | sign-in, the access check unless admin, region normalization, then find-or-create-and-link; stated by `AddPlayerLinks`, `AddPlayerDenied` and `AddPlayerInheritedRegion` |
| AdminActions.AddPlayerAction | app/admin/actions.ts:126-165 | performs `AddPlayerSpec` on the store |
| AdminActions.AddPlayerLinks | app/admin/actions.ts:139-162 | a returning action had a region listed in the platform table and leaves a player with that identity linked to the group |
| AdminActions.AddPlayerReuses | app/admin/actions.ts:141-162 | an existing player is linked and no player is created |
| AdminActions.AddPlayerCreates | app/admin/actions.ts:147-162 | a missing player is created with the normalized region and its op.gg URL, then linked |
| AdminActions.AddPlayerDenied | app/admin/actions.ts:136-138 | without access the action only signs in and throws |
| AdminActions.AddPlayerInheritedRegion | app/admin/actions.ts:139-145 | with access and a region normalizing to an inherited member, the action throws at the identity lookup after sign-in, with nothing else written |
| AdminActions.ManualSyncSpec | app/admin/actions.ts:190-220 | sign-in, the access check, the settings and cooldown gates, the forced sync of at most 5, then the touch; stated by `ManualSyncWithoutSettings`, `ManualSyncCoolingDown` and `ManualSyncRuns` |
| AdminActions.ManualSyncGroupAction | app/admin/actions.ts:190-220 | performs `ManualSyncSpec` on the store |
| AdminActions.ManualSyncWithoutSettings | app/admin/actions.ts:199-202 | without settings nothing beyond sign-in happens |
| AdminActions.ManualSyncCoolingDown | app/admin/actions.ts:204-214 | while cooling down there is no sync and no touch |
| AdminActions.ManualSyncRuns | app/admin/actions.ts:216-217 | once the cooldown has elapsed, a forced sync of at most 5 runs; a completed sync is followed by the touch; a thrown one propagates without it |
| CronRoute.TokenOfTrimmed | app/api/sync/route.ts:25-31 | a token found in a trimmed header follows a case-insensitive `bearer`, at least one space, and is non-empty, trimmed and on one line |
| CronRoute.GetBearerToken | app/api/sync/route.ts:24-32 | the same for any header, read after trimming it |
| CronRoute.RestIsTrimmed | app/api/sync/route.ts:30 | the rest of a trimmed header after the spaces is trimmed |
| CronRoute.BearerIgnoresOuterSpace | app/api/sync/route.ts:25 | surrounding spaces do not change the token |
| CronRoute.BearerTokenRead | app/api/sync/route.ts:24-32 | `bearer` in any case, spaces and a one-line trimmed token, with any spaces around, yield that token |
| CronRoute.SafeSecretCompare | app/api/sync/route.ts:14-22 | true iff the two secrets are equal |
| CronRoute.IsAuthorized | app/api/sync/route.ts:34-53 | without a secret, authorized iff development; with one, iff the bearer token equals the trimmed secret |
| CronRoute.MissingHeaderRefused | app/api/sync/route.ts:36-52 | with a secret configured, a request without the header is refused, in development too |
| CronRoute.ParseLimit | app/api/sync/route.ts:63-70 | defined iff the text matches `^-?\d+$` and parses to a finite number, then clamped into [1, 10] |
| CronRoute.LimitOfDecimal | app/api/sync/route.ts:63-70 | a decimal number is clamped into [1, 10] |
| CronRoute.LimitOfNegative | app/api/sync/route.ts:63-70 | a negative number becomes 1 |
| CronRoute.LimitExamples | app/api/sync/route.ts:63-70 | `99` gives 10, `0` gives 1, `1abc` gives no limit |
| CronRoute.CronGetSpec | app/api/sync/route.ts:55-76 | 401 without authorization, otherwise `syncDuePlayers` with the clamped limit; stated by `UnauthorizedSyncsNothing` and `AuthorizedReport` |
| CronRoute.CronGet | app/api/sync/route.ts:55-76 | performs `CronGetSpec` on the store |
| CronRoute.UnauthorizedSyncsNothing | app/api/sync/route.ts:56-61 | an unauthorized request answers 401 and syncs nothing |
| CronRoute.AuthorizedReport | app/api/sync/route.ts:63-75 | with valid regions, an authorized request reports `min(|due|, limit)` of `|due|` with the clamped limit (at most 10), or null |

## Left out

- Riot HTTP (lib/riot/api.ts): fetch, headers and JSON are replaced by the abstract provider. lib/riot/api.ts does not define `RiotRateLimitError`, so rate limits are an abstract outcome. No 404 or 429 classification is claimed.
- `sleep`, `setTimeout` and `Math.random`: delays are recorded events, and the jitter is an arbitrary value in [0, 250).
- `Date.now`, `nowIso`, `crypto.randomUUID` and `CURRENT_TIMESTAMP` are inputs. `Date.parse` is an abstract parser. In the due-list sort an unparseable timestamp counts as 0, because JavaScript's comparator is ill-defined on NaN.
- Floating point: intervals and minutes are exact `real`s. `parseInt` is modelled exactly, with infinity past `2^1024 - 2^970`. The rounding of very long digit strings is not modelled.
- Unicode: `trim` and `\s` use the full JavaScript set of white space and line terminators. `toLowerCase` and `toUpperCase` change only ASCII letters. `slugify` deletes the two ASCII characters with the Diacritic property, `^` and `` ` ``; its NFD decomposition and the deletion of other combining marks are not modelled. Strings are sequences of code points, not UTF-16 units.
- Clerk sign-in, `redirect`, `revalidatePath`, Next request and response objects, and form parsing: the actions start from a signed-in session and the schema's output.
- Logging output: logs are events. The cooldown warning of `manualSyncGroupAction` is not recorded.
- `timingSafeEqual` is modelled as equality. Its constant time cannot be stated.
- Drizzle and the database client: the lazy client, `isDbConfigured` and the screenshot-mode demo data are not modelled. Foreign keys and `updatedAt` are not modelled, and reads return rows in table order rather than by `createdAt`/`updatedAt`.
- The players list that `getGroupBySlug` returns beside the group is not modelled. `getPublicGroups`, `getAllGroups`, `getPublicGroupById`, `findGroupsByIds`, `getPlayerGroups` and `getPlayersNeedingPuuid` are not modelled, because the sync pipeline does not use them.
- SQLite errors are a `Violation` naming the table and the columns of the broken key. The logged text `UNIQUE constraint failed: <table>.<columns>` approximates SQLite's message; the exact text the driver produces is not part of this model.
- Text.Trim: its own ensures do not cover an all-whitespace input; the lemma `Text.TrimAllSpaces` states that such an input trims to the empty string. It is a lemma so that proofs that use `Trim` stay small.
- Text.RemoveSpaces: its own ensures give the shape; that the other characters are kept in order is the lemma `Text.RemoveSpacesKeepsOrder`, for the same reason.
- Slug.StripDiacritics: the order of the kept characters is the lemma `Slug.StripDiacriticsKeepsOrder`, not an ensures of the function.
- Slug.Collapse: the kept letters and digits and the last character's class are the lemmas `Slug.CollapseKeepsLetters` and `Slug.CollapseLastClass`. That each maximal run becomes exactly one dash is not stated beyond these.
- Slug.Slugify: which letters and digits the slug keeps is the lemma `Slug.SlugifyKeepsLetters`, not an ensures of the function.
- AdminActions.AddPlayerSpec: the rejection of a query parameter that is not a SQL value is a bare `Unbound` outcome; the ORM's and the driver's error text is not modelled.
- Sync.TryUnroutable: the text of `fetch`'s `TypeError` is the abstract `env.badUrl`; which URLs `fetch` refuses is not modelled beyond these two hosts.
- Concurrency: every action runs alone. Two actions racing on the same slug or player are not modelled.
- Transactions: the code has none, so it is not modelled. In `createGroup` and in the player step the two writes are separate statements, as in the code, so a failing second write leaves the first in place.
- Behaviour only the tests describe: the queue fallback, the transaction, the 404 fallback, the `{attempted, succeeded, failed, errors}` result of `syncDuePlayers` and an `addPlayerAction` result. The code has none of these.
- The UI components, scripts, configuration and floating-point metrics (lib/players/metrics.ts) are not part of this model.
