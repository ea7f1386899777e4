/** The integer ranking score of lib/players/rank.ts, used to order players by rank. */
module Rank {
  import opened Wrappers
  import Text

  /** `tierOrder`: English and Spanish tier names with their rank, lowest 0 (Iron). */
  const TIER_ORDER: map<string, int> := map[
    "CHALLENGER" := 9, "GRANDMASTER" := 8, "MASTER" := 7, "DIAMOND" := 6, "EMERALD" := 5,
    "PLATINUM" := 4, "GOLD" := 3, "SILVER" := 2, "BRONZE" := 1, "IRON" := 0,
    "RETADOR" := 9, "GRANMAESTRO" := 8, "MAESTRO" := 7, "DIAMANTE" := 6, "ESMERALDA" := 5,
    "PLATINO" := 4, "ORO" := 3, "PLATA" := 2, "BRONCE" := 1, "HIERRO" := 0
  ]

  /** `divisionOrder`: division I is the highest within a tier. */
  const DIVISION_ORDER: map<string, int> := map["I" := 3, "II" := 2, "III" := 1, "IV" := 0]

  /** The form a tier name is looked up in: upper case with all whitespace removed. */
  function NormalizeTier(tier: string): (t: string)
    ensures forall i :: 0 <= i < |t| ==> !Text.IsSpace(t[i])
    ensures forall i :: 0 <= i < |t| ==> !Text.IsLowerAscii(t[i])
    ensures t == Text.ToUpper(Text.RemoveSpaces(tier))
  {
    Text.RemoveSpacesToUpper(tier);
    Text.RemoveSpaces(Text.ToUpper(tier))
  }

  /** The tier's rank, or -1 when it is missing, empty or not a known tier. */
  function TierScore(tier: Option<string>): (s: int)
    ensures -1 <= s <= 9
    ensures s == -1 <==> tier.None? || NormalizeTier(tier.value) !in TIER_ORDER
    ensures tier.Some? && NormalizeTier(tier.value) in TIER_ORDER ==> s == TIER_ORDER[NormalizeTier(tier.value)]
  {
    match tier
    case None => -1
    case Some(t) =>
      var normalized := if t == "" then "" else NormalizeTier(t);
      if normalized != "" && normalized in TIER_ORDER then TIER_ORDER[normalized] else -1
  }

  /** The division's rank, or -1 when it is missing, empty or not I to IV. */
  function DivisionScore(division: Option<string>): (s: int)
    ensures -1 <= s <= 3
    ensures s == -1 <==> division.None? || Text.ToUpper(division.value) !in DIVISION_ORDER
    ensures division.Some? && Text.ToUpper(division.value) in DIVISION_ORDER ==> s == DIVISION_ORDER[Text.ToUpper(division.value)]
  {
    match division
    case None => -1
    case Some(d) =>
      var normalized := Text.ToUpper(d);
      if normalized != "" && normalized in DIVISION_ORDER then DIVISION_ORDER[normalized] else -1
  }

  /** `getRankScore`: the tier weighs 10000, the division 100 and the league points 1; missing LP count as 0. */
  function GetRankScore(tier: Option<string>, division: Option<string>, lp: Option<int>): (score: int)
    ensures -10100 <= score - lp.GetOr(0) <= 90300
    ensures (score - lp.GetOr(0)) % 100 == 0
    ensures tier.Some? && NormalizeTier(tier.value) in TIER_ORDER && 0 <= lp.GetOr(0) ==> score >= -100
  {
    TierScore(tier) * 10000 + DivisionScore(division) * 100 + lp.GetOr(0)
  }

  lemma TableNamesAreNormal()
    ensures forall k :: k in TIER_ORDER ==> k != "" && 0 <= TIER_ORDER[k] <= 9
    ensures forall k :: k in DIVISION_ORDER ==> k != "" && 0 <= DIVISION_ORDER[k] <= 3
  {
  }

  /** Missing parts of a rank: no tier and no division give -10100, and no LP counts as zero. */
  lemma MissingRank(lp: int)
    ensures GetRankScore(None, None, None) == -10100
    ensures GetRankScore(None, None, Some(lp)) == lp - 10100
    ensures GetRankScore(Some(""), Some(""), Some(lp)) == lp - 10100
  {
    assert NormalizeTier("") == "";
  }

  /** With league points below 100, a higher tier always outscores a lower one, whatever the divisions. */
  lemma TierDominates(t1: Option<string>, d1: Option<string>, lp1: int, t2: Option<string>, d2: Option<string>, lp2: int)
    requires TierScore(t1) > TierScore(t2)
    requires 0 <= lp1 < 100 && 0 <= lp2 < 100
    ensures GetRankScore(t1, d1, Some(lp1)) > GetRankScore(t2, d2, Some(lp2))
  {
  }

  /** Within one tier, with league points below 100, a higher division always outscores a lower one. */
  lemma DivisionDominates(t: Option<string>, d1: Option<string>, lp1: int, d2: Option<string>, lp2: int)
    requires DivisionScore(d1) > DivisionScore(d2)
    requires 0 <= lp1 < 100 && 0 <= lp2 < 100
    ensures GetRankScore(t, d1, Some(lp1)) > GetRankScore(t, d2, Some(lp2))
  {
  }

  /** Within one tier and division, the score is strictly increasing in the league points. */
  lemma LeaguePointsMonotone(t: Option<string>, d: Option<string>, lp1: int, lp2: int)
    ensures lp1 < lp2 <==> GetRankScore(t, d, Some(lp1)) < GetRankScore(t, d, Some(lp2))
  {
  }

  /** With league points in [0, 100), the score determines the tier rank, division rank and points. */
  lemma ScoreDetermines(t1: Option<string>, d1: Option<string>, lp1: int, t2: Option<string>, d2: Option<string>, lp2: int)
    requires 0 <= lp1 < 100 && 0 <= lp2 < 100
    requires GetRankScore(t1, d1, Some(lp1)) == GetRankScore(t2, d2, Some(lp2))
    ensures TierScore(t1) == TierScore(t2) && DivisionScore(d1) == DivisionScore(d2) && lp1 == lp2
  {
    if TierScore(t1) > TierScore(t2) {
      TierDominates(t1, d1, lp1, t2, d2, lp2);
    } else if TierScore(t1) < TierScore(t2) {
      TierDominates(t2, d2, lp2, t1, d1, lp1);
    } else if DivisionScore(d1) > DivisionScore(d2) {
      DivisionDominates(t1, d1, lp1, d2, lp2);
    } else if DivisionScore(d1) < DivisionScore(d2) {
      DivisionDominates(t1, d2, lp2, d1, lp1);
    }
  }

  /** Each Spanish tier name has the rank of its English counterpart. */
  lemma SpanishAliases()
    ensures TIER_ORDER["RETADOR"] == TIER_ORDER["CHALLENGER"]
    ensures TIER_ORDER["GRANMAESTRO"] == TIER_ORDER["GRANDMASTER"]
    ensures TIER_ORDER["MAESTRO"] == TIER_ORDER["MASTER"]
    ensures TIER_ORDER["DIAMANTE"] == TIER_ORDER["DIAMOND"]
    ensures TIER_ORDER["ESMERALDA"] == TIER_ORDER["EMERALD"]
    ensures TIER_ORDER["PLATINO"] == TIER_ORDER["PLATINUM"]
    ensures TIER_ORDER["ORO"] == TIER_ORDER["GOLD"]
    ensures TIER_ORDER["PLATA"] == TIER_ORDER["SILVER"]
    ensures TIER_ORDER["BRONCE"] == TIER_ORDER["BRONZE"]
    ensures TIER_ORDER["HIERRO"] == TIER_ORDER["IRON"]
  {
    UpperSpanishAliases();
    LowerSpanishAliases();
  }

  lemma UpperSpanishAliases()
    ensures TIER_ORDER["RETADOR"] == TIER_ORDER["CHALLENGER"] == 9
    ensures TIER_ORDER["GRANMAESTRO"] == TIER_ORDER["GRANDMASTER"] == 8
    ensures TIER_ORDER["MAESTRO"] == TIER_ORDER["MASTER"] == 7
    ensures TIER_ORDER["DIAMANTE"] == TIER_ORDER["DIAMOND"] == 6
    ensures TIER_ORDER["ESMERALDA"] == TIER_ORDER["EMERALD"] == 5
  {
  }

  lemma LowerSpanishAliases()
    ensures TIER_ORDER["PLATINO"] == TIER_ORDER["PLATINUM"] == 4
    ensures TIER_ORDER["ORO"] == TIER_ORDER["GOLD"] == 3
    ensures TIER_ORDER["PLATA"] == TIER_ORDER["SILVER"] == 2
    ensures TIER_ORDER["BRONCE"] == TIER_ORDER["BRONZE"] == 1
    ensures TIER_ORDER["HIERRO"] == TIER_ORDER["IRON"] == 0
  {
  }

  /** A table name written in upper case is read as its own entry. */
  lemma UpperCaseTierName(name: string)
    requires name in TIER_ORDER
    requires forall i :: 0 <= i < |name| ==> Text.IsUpperAscii(name[i])
    ensures TierScore(Some(name)) == TIER_ORDER[name]
  {
    Text.UpperCaseFixed(name);
    Text.RemoveSpacesFixed(name);
  }

  /** tests/rank.test.ts: the mixed-case Spanish "Platino" is read as Platinum. */
  lemma PlatinoIsPlatinum()
    ensures TierScore(Some("Platino")) == TierScore(Some("PLATINUM"))
  {
    PlatinoNormal();
    PlatinumTier();
  }

  lemma PlatinoNormal()
    ensures TierScore(Some("Platino")) == 4
  {
    NormalizePlatino();
    PlatinoEntry();
  }

  lemma PlatinoEntry()
    ensures "PLATINO" in TIER_ORDER && TIER_ORDER["PLATINO"] == 4
  {
  }

  lemma NormalizePlatino()
    ensures NormalizeTier("Platino") == "PLATINO"
  {
    UpperPlatino();
    Text.RemoveSpacesFixed("PLATINO");
  }

  lemma UpperPlatino()
    ensures Text.ToUpper("Platino") == "PLATINO"
  {
  }

  lemma PlatinumTier()
    ensures TierScore(Some("PLATINUM")) == 4
  {
    UpperCaseTierName("PLATINUM");
  }

  /** tests/rank.test.ts: Diamond IV 0 LP outranks Gold I 99 LP. */
  lemma DiamondOverGold()
    ensures GetRankScore(Some("DIAMOND"), Some("IV"), Some(0)) > GetRankScore(Some("GOLD"), Some("I"), Some(99))
  {
    DiamondTier();
    GoldTier();
    TierDominates(Some("DIAMOND"), Some("IV"), 0, Some("GOLD"), Some("I"), 99);
  }

  lemma DiamondTier()
    ensures TierScore(Some("DIAMOND")) == 6
  {
    UpperCaseTierName("DIAMOND");
  }

  lemma GoldTier()
    ensures TierScore(Some("GOLD")) == 3
  {
    UpperCaseTierName("GOLD");
  }
}
