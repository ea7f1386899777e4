/**
 * The selection half of `syncDuePlayers` (lib/riot/sync.ts:64-124): the
 * join rows are collapsed into one candidate per player keeping the
 * smallest group interval, the candidates that are due are kept, ordered
 * oldest sync first, and cut to the batch limit.
 */
module DuePlayers {
  import opened Wrappers
  import Seqs
  import Time
  import Queues
  import Queries

  /** The player record `syncPlayer` receives. */
  datatype Candidate = Candidate(
    id: string,
    gameName: string,
    tagLine: string,
    region: string,
    queueType: string,
    puuid: Option<string>,
    lastSyncAt: Option<string>,
    minInterval: real)

  /** A player's first row: a missing queue type becomes solo/duo (`??` keeps an empty string). */
  function FromRow(row: Queries.SyncRow): (c: Candidate)
    ensures c.id == row.id && c.minInterval == row.syncIntervalMinutes
    ensures c.queueType == if row.queueType.Some? then row.queueType.value else Queues.QUEUE_SOLO
  {
    Candidate(row.id, row.gameName, row.tagLine, row.region, row.queueType.GetOr(Queues.QUEUE_SOLO),
      row.puuid, row.lastSyncAt, row.syncIntervalMinutes)
  }

  /** The candidates' ids, in order. */
  function CandIds(cands: seq<Candidate>): (ids: seq<string>)
    ensures |ids| == |cands|
    ensures forall k :: 0 <= k < |cands| ==> ids[k] == cands[k].id
  {
    seq(|cands|, k requires 0 <= k < |cands| => cands[k].id)
  }

  /** The rows' player ids, in order. */
  function RowIds(rows: seq<Queries.SyncRow>): (ids: seq<string>)
    ensures |ids| == |rows|
    ensures forall j :: 0 <= j < |rows| ==> ids[j] == rows[j].id
  {
    seq(|rows|, j requires 0 <= j < |rows| => rows[j].id)
  }

  /** Where the candidate with this id sits, if any. */
  function IndexOfId(cands: seq<Candidate>, id: string): (r: Option<nat>)
    ensures r.Some? ==> r.value < |cands| && cands[r.value].id == id
    ensures r.None? <==> id !in CandIds(cands)
  {
    if cands == [] then None
    else if cands[|cands| - 1].id == id then Some(|cands| - 1)
    else
      assert CandIds(cands) == CandIds(cands[..|cands| - 1]) + [cands[|cands| - 1].id];
      IndexOfId(cands[..|cands| - 1], id)
  }

  /** One iteration of the grouping loop: a new id is appended, a known one may lower its interval. */
  function Absorb(cands: seq<Candidate>, row: Queries.SyncRow): seq<Candidate> {
    match IndexOfId(cands, row.id)
    case None => cands + [FromRow(row)]
    case Some(k) =>
      if row.syncIntervalMinutes < cands[k].minInterval then cands[k := cands[k].(minInterval := row.syncIntervalMinutes)]
      else cands
  }

  /** `Array.from(byPlayer.values())` after the loop over `rows`: the loop as a left fold. */
  function Grouped(rows: seq<Queries.SyncRow>): seq<Candidate>
    decreases |rows|
  {
    if rows == [] then [] else Absorb(Grouped(rows[..|rows| - 1]), rows[|rows| - 1])
  }

  /** The position of the first row with this id. */
  function FirstIndexOf(rows: seq<Queries.SyncRow>, id: string): (r: Option<nat>)
    ensures r.Some? ==> r.value < |rows| && rows[r.value].id == id && forall j :: 0 <= j < r.value ==> rows[j].id != id
    ensures r.None? <==> forall j :: 0 <= j < |rows| ==> rows[j].id != id
  {
    if rows == [] then None
    else if rows[0].id == id then Some(0)
    else
      match FirstIndexOf(rows[1..], id)
      case None => None
      case Some(k) => Some(k + 1)
  }

  /** Appending a row does not move the first row of an id already present. */
  lemma FirstIndexOfAppend(rows: seq<Queries.SyncRow>, row: Queries.SyncRow, id: string)
    ensures FirstIndexOf(rows, id).Some? ==> FirstIndexOf(rows + [row], id) == FirstIndexOf(rows, id)
    ensures FirstIndexOf(rows, id).None? && row.id == id ==> FirstIndexOf(rows + [row], id) == Some(|rows|)
    ensures FirstIndexOf(rows, id).None? && row.id != id ==> FirstIndexOf(rows + [row], id).None?
  {
    var all := rows + [row];
    if FirstIndexOf(rows, id).Some? {
      assert all[FirstIndexOf(rows, id).value].id == id;
    } else if row.id == id {
      assert all[|rows|].id == id;
    } else {
      forall j | 0 <= j < |all|
        ensures all[j].id != id
      {
        if j < |rows| {
          assert rows[j] == all[j];
        }
      }
    }
  }

  /** The candidates' ids are distinct, and they are exactly the ids of the rows. */
  ghost predicate IdsExact(rows: seq<Queries.SyncRow>, cands: seq<Candidate>) {
    (forall i, j :: 0 <= i < j < |cands| ==> cands[i].id != cands[j].id) &&
    (forall id :: id in CandIds(cands) <==> id in RowIds(rows))
  }

  /** Each candidate's interval is the smallest of its rows' intervals. */
  ghost predicate MinimalIntervals(rows: seq<Queries.SyncRow>, cands: seq<Candidate>) {
    IntervalsBelow(rows, cands) && IntervalsAttained(rows, cands)
  }

  /** No row of a candidate has a smaller interval than the candidate's. */
  ghost predicate IntervalsBelow(rows: seq<Queries.SyncRow>, cands: seq<Candidate>) {
    forall k, j :: 0 <= k < |cands| && 0 <= j < |rows| && rows[j].id == cands[k].id ==>
      cands[k].minInterval <= rows[j].syncIntervalMinutes
  }

  /** Each candidate's interval is that of one of its rows. */
  ghost predicate IntervalsAttained(rows: seq<Queries.SyncRow>, cands: seq<Candidate>) {
    forall k :: 0 <= k < |cands| ==>
      exists j :: 0 <= j < |rows| && rows[j].id == cands[k].id && rows[j].syncIntervalMinutes == cands[k].minInterval
  }

  /** Each candidate carries its first row's columns. */
  ghost predicate FromFirstRows(rows: seq<Queries.SyncRow>, cands: seq<Candidate>) {
    forall k :: 0 <= k < |cands| ==>
      FirstIndexOf(rows, cands[k].id).Some? &&
      cands[k] == FromRow(rows[FirstIndexOf(rows, cands[k].id).value]).(minInterval := cands[k].minInterval)
  }

  /** Candidates come in the order their ids first appear among the rows. */
  ghost predicate FirstAppearanceOrder(rows: seq<Queries.SyncRow>, cands: seq<Candidate>) {
    forall i, j :: 0 <= i < j < |cands| ==> FirstSeenBefore(rows, cands[i].id, cands[j].id)
  }

  /** The first row with id `a` precedes the first row with id `b`. */
  ghost predicate FirstSeenBefore(rows: seq<Queries.SyncRow>, a: string, b: string) {
    FirstIndexOf(rows, a).Some? && FirstIndexOf(rows, b).Some? &&
    FirstIndexOf(rows, a).value < FirstIndexOf(rows, b).value
  }

  lemma RowIdsAppend(rows: seq<Queries.SyncRow>, row: Queries.SyncRow)
    ensures RowIds(rows + [row]) == RowIds(rows) + [row.id]
  {
  }

  /** A row whose id is not among the candidates has no earlier row with that id. */
  lemma NewIdIsFirst(rows: seq<Queries.SyncRow>, cands: seq<Candidate>, id: string)
    requires IdsExact(rows, cands) && IndexOfId(cands, id).None?
    ensures FirstIndexOf(rows, id).None?
  {
  }

  /** In a sequence of distinct ids, the lookup finds the one position holding the id. */
  lemma IndexOfDistinct(cands: seq<Candidate>, id: string, k: nat)
    requires forall i, j :: 0 <= i < j < |cands| ==> cands[i].id != cands[j].id
    requires k < |cands| && cands[k].id == id
    ensures IndexOfId(cands, id) == Some(k)
  {
    assert CandIds(cands)[k] == id;
  }

  /** Every candidate's id has a first row. */
  lemma CandidateHasFirstRow(rows: seq<Queries.SyncRow>, cands: seq<Candidate>, k: nat)
    requires IdsExact(rows, cands) && k < |cands|
    ensures FirstIndexOf(rows, cands[k].id).Some?
  {
    assert CandIds(cands)[k] == cands[k].id;
    assert cands[k].id in RowIds(rows);
    var m :| 0 <= m < |rows| && RowIds(rows)[m] == cands[k].id;
    assert rows[m].id == cands[k].id;
  }

  lemma AbsorbIds(rows: seq<Queries.SyncRow>, row: Queries.SyncRow, g: seq<Candidate>)
    requires IdsExact(rows, g)
    ensures IdsExact(rows + [row], Absorb(g, row))
  {
    var h := Absorb(g, row);
    RowIdsAppend(rows, row);
    if IndexOfId(g, row.id).None? {
      assert CandIds(h) == CandIds(g) + [row.id];
    } else {
      assert CandIds(h) == CandIds(g);
    }
  }

  /** Absorbing a row keeps every earlier candidate, except perhaps its interval. */
  lemma AbsorbKeeps(g: seq<Candidate>, row: Queries.SyncRow, k: nat)
    requires k < |g|
    ensures k < |Absorb(g, row)| && Absorb(g, row)[k] == g[k].(minInterval := Absorb(g, row)[k].minInterval)
    ensures Absorb(g, row)[k].minInterval <= g[k].minInterval
    ensures Absorb(g, row)[k].minInterval == g[k].minInterval ||
      (g[k].id == row.id && Absorb(g, row)[k].minInterval == row.syncIntervalMinutes)
  {
  }

  /** A candidate past the old ones is the new row's. */
  lemma AbsorbAdds(g: seq<Candidate>, row: Queries.SyncRow, k: nat)
    requires |g| <= k < |Absorb(g, row)|
    ensures IndexOfId(g, row.id).None? && k == |g| && Absorb(g, row)[k] == FromRow(row)
  {
  }

  lemma AbsorbMinimal(rows: seq<Queries.SyncRow>, row: Queries.SyncRow, g: seq<Candidate>)
    requires IdsExact(rows, g) && MinimalIntervals(rows, g)
    ensures MinimalIntervals(rows + [row], Absorb(g, row))
  {
    AbsorbBelow(rows, row, g);
    AbsorbAttained(rows, row, g);
  }

  lemma AbsorbBelow(rows: seq<Queries.SyncRow>, row: Queries.SyncRow, g: seq<Candidate>)
    requires IdsExact(rows, g) && IntervalsBelow(rows, g)
    ensures IntervalsBelow(rows + [row], Absorb(g, row))
  {
    var all := rows + [row];
    var h := Absorb(g, row);
    forall k, j | 0 <= k < |h| && 0 <= j < |all| && all[j].id == h[k].id
      ensures h[k].minInterval <= all[j].syncIntervalMinutes
    {
      if k < |g| {
        AbsorbKeeps(g, row, k);
        if j < |rows| {
          assert all[j] == rows[j];
        } else if h[k].minInterval != row.syncIntervalMinutes {
          assert CandIds(g)[k] == row.id;
        }
      } else {
        AbsorbAdds(g, row, k);
        if j < |rows| {
          assert false;
        }
      }
    }
  }

  lemma AbsorbAttained(rows: seq<Queries.SyncRow>, row: Queries.SyncRow, g: seq<Candidate>)
    requires IntervalsAttained(rows, g)
    ensures IntervalsAttained(rows + [row], Absorb(g, row))
  {
    var all := rows + [row];
    var h := Absorb(g, row);
    forall k | 0 <= k < |h|
      ensures exists j :: 0 <= j < |all| && all[j].id == h[k].id && all[j].syncIntervalMinutes == h[k].minInterval
    {
      AttainedAt(rows, row, g, k);
    }
    assert forall k :: 0 <= k < |h| ==> exists j :: 0 <= j < |all| && all[j].id == h[k].id && all[j].syncIntervalMinutes == h[k].minInterval;
  }

  lemma AttainedAt(rows: seq<Queries.SyncRow>, row: Queries.SyncRow, g: seq<Candidate>, k: nat)
    requires IntervalsAttained(rows, g) && k < |Absorb(g, row)|
    ensures exists j :: (0 <= j < |rows + [row]| && (rows + [row])[j].id == Absorb(g, row)[k].id &&
      (rows + [row])[j].syncIntervalMinutes == Absorb(g, row)[k].minInterval)
  {
    var all := rows + [row];
    var h := Absorb(g, row);
    if k < |g| {
      AbsorbKeeps(g, row, k);
      if h[k].minInterval == g[k].minInterval {
        var j :| 0 <= j < |rows| && rows[j].id == g[k].id && rows[j].syncIntervalMinutes == g[k].minInterval;
        assert all[j] == rows[j];
        return;
      }
    } else {
      AbsorbAdds(g, row, k);
    }
    assert all[|rows|] == row;
  }

  lemma AbsorbFirstRows(rows: seq<Queries.SyncRow>, row: Queries.SyncRow, g: seq<Candidate>)
    requires IdsExact(rows, g) && FromFirstRows(rows, g)
    ensures FromFirstRows(rows + [row], Absorb(g, row))
  {
    var all := rows + [row];
    var h := Absorb(g, row);
    forall k | 0 <= k < |h|
      ensures FirstIndexOf(all, h[k].id).Some? &&
        h[k] == FromRow(all[FirstIndexOf(all, h[k].id).value]).(minInterval := h[k].minInterval)
    {
      AbsorbFirstRowAt(rows, row, g, k);
    }
  }

  lemma AbsorbFirstRowAt(rows: seq<Queries.SyncRow>, row: Queries.SyncRow, g: seq<Candidate>, k: nat)
    requires IdsExact(rows, g) && FromFirstRows(rows, g) && k < |Absorb(g, row)|
    ensures FirstIndexOf(rows + [row], Absorb(g, row)[k].id).Some?
    ensures Absorb(g, row)[k] ==
      FromRow((rows + [row])[FirstIndexOf(rows + [row], Absorb(g, row)[k].id).value]).(minInterval := Absorb(g, row)[k].minInterval)
  {
    var all := rows + [row];
    var h := Absorb(g, row);
    FirstIndexOfAppend(rows, row, h[k].id);
    if k < |g| {
      AbsorbKeeps(g, row, k);
      CandidateHasFirstRow(rows, g, k);
      var f := FirstIndexOf(rows, g[k].id).value;
      assert all[f] == rows[f];
    } else {
      AbsorbAdds(g, row, k);
      NewIdIsFirst(rows, g, row.id);
      assert all[|rows|] == row;
    }
  }

  lemma AbsorbOrder(rows: seq<Queries.SyncRow>, row: Queries.SyncRow, g: seq<Candidate>)
    requires IdsExact(rows, g) && FirstAppearanceOrder(rows, g)
    ensures FirstAppearanceOrder(rows + [row], Absorb(g, row))
  {
    var all := rows + [row];
    var h := Absorb(g, row);
    forall i, j | 0 <= i < j < |h|
      ensures FirstSeenBefore(all, h[i].id, h[j].id)
    {
      AbsorbKeeps(g, row, i);
      FirstIndexOfAppend(rows, row, h[i].id);
      FirstIndexOfAppend(rows, row, h[j].id);
      if j < |g| {
        AbsorbKeeps(g, row, j);
      } else {
        AbsorbAdds(g, row, j);
        NewIdIsFirst(rows, g, row.id);
        CandidateHasFirstRow(rows, g, i);
      }
    }
  }

  /**
   * The grouping loop's result: one candidate per player id of the rows,
   * distinct and in first-appearance order, each with its first row's
   * columns and the smallest interval among its rows.
   */
  lemma {:induction false} GroupedFacts(rows: seq<Queries.SyncRow>)
    ensures IdsExact(rows, Grouped(rows))
    ensures MinimalIntervals(rows, Grouped(rows))
    ensures FromFirstRows(rows, Grouped(rows))
    ensures FirstAppearanceOrder(rows, Grouped(rows))
    decreases |rows|
  {
    if rows != [] {
      var init := rows[..|rows| - 1];
      var row := rows[|rows| - 1];
      GroupedFacts(init);
      assert init + [row] == rows;
      var g := Grouped(init);
      assert Grouped(rows) == Absorb(g, row);
      AbsorbIds(init, row, g);
      AbsorbMinimal(init, row, g);
      AbsorbFirstRows(init, row, g);
      AbsorbOrder(init, row, g);
    }
  }

  lemma GroupedStep(rows: seq<Queries.SyncRow>, i: nat)
    requires i < |rows|
    ensures Grouped(rows[..i + 1]) == Absorb(Grouped(rows[..i]), rows[i])
  {
    assert rows[..i + 1][..i] == rows[..i];
  }

  lemma GroupedDistinct(rows: seq<Queries.SyncRow>)
    ensures forall i, j :: 0 <= i < j < |Grouped(rows)| ==> Grouped(rows)[i].id != Grouped(rows)[j].id
  {
    GroupedFacts(rows);
  }

  /** The values of the map, in key-insertion order. */
  function Values(byPlayer: map<string, Candidate>, order: seq<string>): seq<Candidate>
    requires forall k :: 0 <= k < |order| ==> order[k] in byPlayer
  {
    seq(|order|, k requires 0 <= k < |order| => byPlayer[order[k]])
  }

  /** The loop's map and key order hold exactly the candidates `cands`. */
  ghost predicate Represents(byPlayer: map<string, Candidate>, order: seq<string>, cands: seq<Candidate>) {
    order == CandIds(cands) &&
    (forall id :: id in byPlayer <==> id in order) &&
    (forall k :: 0 <= k < |order| ==> order[k] in byPlayer && byPlayer[order[k]] == cands[k])
  }

  /** A row with a new id appends its candidate. */
  lemma RepresentsNew(byPlayer: map<string, Candidate>, order: seq<string>, cands: seq<Candidate>, row: Queries.SyncRow)
    requires Represents(byPlayer, order, cands) && row.id !in byPlayer
    ensures Represents(byPlayer[row.id := FromRow(row)], order + [row.id], Absorb(cands, row))
  {
    assert CandIds(Absorb(cands, row)) == CandIds(cands) + [row.id];
  }

  /** A row with a known id updates that candidate's interval in place when it is smaller. */
  lemma RepresentsKnown(byPlayer: map<string, Candidate>, order: seq<string>, cands: seq<Candidate>, row: Queries.SyncRow, k: nat)
    requires Represents(byPlayer, order, cands)
    requires forall i, j :: 0 <= i < j < |cands| ==> cands[i].id != cands[j].id
    requires k < |order| && order[k] == row.id
    ensures row.syncIntervalMinutes < byPlayer[row.id].minInterval ==>
      Represents(byPlayer[row.id := byPlayer[row.id].(minInterval := row.syncIntervalMinutes)], order, Absorb(cands, row))
    ensures row.syncIntervalMinutes >= byPlayer[row.id].minInterval ==> Represents(byPlayer, order, Absorb(cands, row))
  {
    IndexOfDistinct(cands, row.id, k);
    assert CandIds(Absorb(cands, row)) == CandIds(cands);
  }

  /** The grouping loop of `syncDuePlayers`, over a `Map` that remembers insertion order. */
  method GroupByPlayer(rows: seq<Queries.SyncRow>) returns (candidates: seq<Candidate>)
    ensures candidates == Grouped(rows)
  {
    var byPlayer: map<string, Candidate> := map[];
    var order: seq<string> := [];
    for i := 0 to |rows|
      invariant Represents(byPlayer, order, Grouped(rows[..i]))
    {
      var row := rows[i];
      ghost var g := Grouped(rows[..i]);
      GroupedStep(rows, i);
      if row.id !in byPlayer {
        RepresentsNew(byPlayer, order, g, row);
        byPlayer := byPlayer[row.id := FromRow(row)];
        order := order + [row.id];
      } else {
        GroupedDistinct(rows[..i]);
        var k :| 0 <= k < |order| && order[k] == row.id;
        RepresentsKnown(byPlayer, order, g, row, k);
        var existing := byPlayer[row.id];
        if row.syncIntervalMinutes < existing.minInterval {
          byPlayer := byPlayer[row.id := existing.(minInterval := row.syncIntervalMinutes)];
        }
      }
    }
    assert rows[..|rows|] == rows;
    candidates := Values(byPlayer, order);
  }

  /** The filter of `syncDuePlayers`: due once `isPast(lastSyncAt, minInterval)`. */
  predicate IsDue(c: Candidate, now: int, parse: string -> Option<int>) {
    Time.IsPast(c.lastSyncAt, c.minInterval, now, parse)
  }

  /** The sort key: the parsed last sync, 0 when missing or empty. */
  function SortKey(c: Candidate, parse: string -> Option<int>): int {
    match c.lastSyncAt
    case None => 0
    case Some(t) => if t == "" then 0 else parse(t).GetOr(0)
  }

  /** The due players, oldest sync first, ties in candidate order. */
  function DueList(cands: seq<Candidate>, now: int, parse: string -> Option<int>): (due: seq<Candidate>)
    ensures forall c :: c in due <==> c in cands && IsDue(c, now, parse)
    ensures Seqs.SortedBy(due, (c: Candidate) => SortKey(c, parse))
    ensures |due| <= |cands|
  {
    var kept := Seqs.Filter(cands, (c: Candidate) => IsDue(c, now, parse));
    var due := Seqs.SortBy(kept, (c: Candidate) => SortKey(c, parse));
    assert forall c :: c in due <==> c in kept by {
      forall c
        ensures c in due <==> c in kept
      {
        assert c in due <==> c in multiset(due);
        assert c in kept <==> c in multiset(kept);
      }
    }
    due
  }

  /** A player that was never synced is always due. */
  lemma NeverSyncedIsDue(c: Candidate, now: int, parse: string -> Option<int>)
    requires c.lastSyncAt.None?
    ensures IsDue(c, now, parse)
  {
  }

  /** Never-synced players come before every player whose last sync parses to a positive time. */
  lemma NeverSyncedFirst(cands: seq<Candidate>, now: int, parse: string -> Option<int>, i: nat, j: nat)
    requires i < |DueList(cands, now, parse)| && j < |DueList(cands, now, parse)|
    requires DueList(cands, now, parse)[i].lastSyncAt.None?
    requires SortKey(DueList(cands, now, parse)[j], parse) > 0
    ensures i < j
  {
  }

  /** Among players with the same sort key, the due list keeps candidate order. */
  lemma DueListStable(cands: seq<Candidate>, now: int, parse: string -> Option<int>, key: int)
    ensures Seqs.WithKey(DueList(cands, now, parse), (c: Candidate) => SortKey(c, parse), key) ==
      Seqs.WithKey(Seqs.Filter(cands, (c: Candidate) => IsDue(c, now, parse)), (c: Candidate) => SortKey(c, parse), key)
  {
    Seqs.SortByStable(Seqs.Filter(cands, (c: Candidate) => IsDue(c, now, parse)), (c: Candidate) => SortKey(c, parse), key);
  }

  const DEFAULT_BATCH_SIZE: int := 5

  /** `{ processed, totalDue }`. */
  datatype Summary = Summary(processed: int, totalDue: nat)

  /** `duePlayers.slice(0, limit)`. */
  function Batch(due: seq<Candidate>, limit: int): (batch: seq<Candidate>)
    ensures |batch| <= |due| && batch == due[..|batch|]
    ensures limit >= 0 ==> |batch| == Seqs.Min(|due|, limit)
  {
    Seqs.SliceTo(due, limit)
  }

  /** The returned summary: `processed` is `Math.min(totalDue, limit)`, the batch size for a non-negative limit. */
  function SummaryFor(due: seq<Candidate>, limit: int): (s: Summary)
    ensures s.totalDue == |due|
    ensures limit >= 0 ==> s.processed == |Batch(due, limit)|
    ensures s.processed <= s.totalDue
  {
    Summary(Seqs.Min(|due|, limit), |due|)
  }
}
