/**
 * The URL slugs of lib/utils/slug.ts, over ASCII input. NFD normalization
 * leaves ASCII unchanged; of the ASCII characters, only the circumflex `^`
 * and the grave accent `` ` `` have the Unicode Diacritic property, so
 * those two are what the diacritic removal deletes.
 */
module Slug {
  import Text
  import Seqs

  /** The characters `[a-z0-9]` a slug keeps. */
  predicate IsSlugChar(c: char) {
    Text.IsLowerAscii(c) || Text.IsDigit(c)
  }

  /** No two dashes in a row. */
  predicate NoDoubleDash(s: string) {
    forall i :: 0 <= i < |s| - 1 ==> !(s[i] == '-' && s[i + 1] == '-')
  }

  /** The shape every slug has: `[a-z0-9-]` only, no `--`, no dash at either end. */
  predicate IsSlug(s: string) {
    (forall i :: 0 <= i < |s| ==> IsSlugChar(s[i]) || s[i] == '-') &&
    NoDoubleDash(s) &&
    (s != [] ==> s[0] != '-' && s[|s| - 1] != '-')
  }

  /** The length of the run of non-slug characters `s` starts with. */
  function NonSlugRun(s: string): (k: nat)
    ensures k <= |s|
    ensures forall i :: 0 <= i < k ==> !IsSlugChar(s[i])
    ensures k < |s| ==> IsSlugChar(s[k])
  {
    if s != [] && !IsSlugChar(s[0]) then 1 + NonSlugRun(s[1..]) else 0
  }

  /** `.replace(/[^a-z0-9]+/g, "-")`: every maximal run of other characters becomes one dash. */
  function Collapse(s: string): (r: string)
    ensures forall i :: 0 <= i < |r| ==> IsSlugChar(r[i]) || r[i] == '-'
    ensures NoDoubleDash(r)
    ensures r == [] <==> s == []
    ensures s != [] ==> r[0] == (if IsSlugChar(s[0]) then s[0] else '-')
    decreases |s|
  {
    if s == [] then []
    else if IsSlugChar(s[0]) then [s[0]] + Collapse(s[1..])
    else
      var k := NonSlugRun(s);
      ['-'] + Collapse(s[k..])
  }

  /** The letters and digits survive `Collapse` in order; only dashes stand between them. */
  lemma {:induction false} CollapseKeepsLetters(s: string)
    ensures Seqs.Filter(Collapse(s), IsSlugChar) == Seqs.Filter(s, IsSlugChar)
    decreases |s|
  {
    if s != [] {
      if IsSlugChar(s[0]) {
        var rest := Collapse(s[1..]);
        CollapseKeepsLetters(s[1..]);
        assert Collapse(s) == [s[0]] + rest;
        KeptHead(s[0], rest);
        assert s == [s[0]] + s[1..];
        KeptHead(s[0], s[1..]);
      } else {
        var k := NonSlugRun(s);
        var rest := Collapse(s[k..]);
        CollapseKeepsLetters(s[k..]);
        assert Collapse(s) == ['-'] + rest;
        DashHead(rest);
        SkipRun(s, k);
      }
    }
  }

  /** The last character keeps its class: a trailing run of other characters leaves one trailing dash. */
  lemma {:induction false} CollapseLastClass(s: string)
    requires s != []
    ensures IsSlugChar(Collapse(s)[|Collapse(s)| - 1]) <==> IsSlugChar(s[|s| - 1])
    decreases |s|
  {
    if IsSlugChar(s[0]) {
      if |s| > 1 {
        CollapseLastClass(s[1..]);
      }
    } else {
      var k := NonSlugRun(s);
      if k < |s| {
        CollapseLastClass(s[k..]);
        assert s[k..][|s[k..]| - 1] == s[|s| - 1];
      }
    }
  }

  /** A leading slug character is kept by the filter, ahead of the rest. */
  lemma KeptHead(c: char, t: string)
    requires IsSlugChar(c)
    ensures Seqs.Filter([c] + t, IsSlugChar) == [c] + Seqs.Filter(t, IsSlugChar)
  {
    assert ([c] + t)[1..] == t;
  }

  /** A leading dash is dropped by the filter. */
  lemma DashHead(t: string)
    ensures Seqs.Filter(['-'] + t, IsSlugChar) == Seqs.Filter(t, IsSlugChar)
  {
    assert (['-'] + t)[1..] == t;
  }

  /** A run of non-slug characters at the front is dropped by the filter. */
  lemma {:induction false} SkipRun(s: string, k: nat)
    requires k <= |s|
    requires forall i :: 0 <= i < k ==> !IsSlugChar(s[i])
    ensures Seqs.Filter(s[k..], IsSlugChar) == Seqs.Filter(s, IsSlugChar)
  {
    if k > 0 {
      SkipRun(s[1..], k - 1);
      assert s[1..][k - 1..] == s[k..];
    }
  }

  /** `.replace(/(^-|-$)+/g, "")` on a string without `--`: one leading and one trailing dash go. */
  function StripEdgeDashes(s: string): (r: string)
  {
    var t := if s != [] && s[0] == '-' then s[1..] else s;
    if t != [] && t[|t| - 1] == '-' then t[..|t| - 1] else t
  }

  /** The ASCII characters with the Unicode Diacritic property. */
  predicate IsAsciiDiacritic(c: char) {
    c == '^' || c == '`'
  }

  predicate IsPlainChar(c: char) { !IsAsciiDiacritic(c) }

  /** `.replace(/\p{Diacritic}/gu, "")` over ASCII: the other characters, in order. */
  function StripDiacritics(s: string): (r: string)
    ensures |r| <= |s|
    ensures forall c :: c in r <==> c in s && !IsAsciiDiacritic(c)
    ensures (forall i :: 0 <= i < |s| ==> !IsAsciiDiacritic(s[i])) ==> r == s
    decreases |s|
  {
    if s == [] then []
    else (if IsAsciiDiacritic(s[0]) then [] else [s[0]]) + StripDiacritics(s[1..])
  }

  /** The diacritic removal keeps every other character, in order: it is the filter by `IsPlainChar`. */
  lemma {:induction false} StripDiacriticsKeepsOrder(s: string)
    ensures StripDiacritics(s) == Seqs.Filter(s, IsPlainChar)
    decreases |s|
  {
    if s != [] {
      StripDiacriticsKeepsOrder(s[1..]);
    }
  }

  /** A string of slug characters and dashes has no diacritic to drop. */
  lemma SlugCharsKept(s: string)
    requires forall i :: 0 <= i < |s| ==> IsSlugChar(s[i]) || s[i] == '-'
    ensures StripDiacritics(s) == s
  {
    assert forall i :: 0 <= i < |s| ==> !IsAsciiDiacritic(s[i]);
  }

  /** `slugify` over ASCII: lower case, diacritics dropped, runs of other characters to one dash, trimmed dashes. */
  function Slugify(value: string): (r: string)
    ensures IsSlug(r)
    ensures |r| <= |value|
  {
    var plain := StripDiacritics(Text.ToLower(value));
    CollapseLength(plain);
    StripEdgeDashes(Collapse(plain))
  }

  /** The slug holds exactly the lowered input's letters and digits, in order, with dashes between them. */
  lemma SlugifyKeepsLetters(value: string)
    ensures Seqs.Filter(Slugify(value), IsSlugChar) == Seqs.Filter(Text.ToLower(value), IsSlugChar)
  {
    var lowered := Text.ToLower(value);
    var plain := StripDiacritics(lowered);
    StripDiacriticsKeepsOrder(lowered);
    Seqs.FilterFilter(lowered, IsPlainChar, IsSlugChar);
    CollapseKeepsLetters(plain);
    StripEdgeDashesKeeps(Collapse(plain));
  }

  /** Dropping a dash at either end keeps the letters and digits. */
  lemma StripEdgeDashesKeeps(s: string)
    ensures Seqs.Filter(StripEdgeDashes(s), IsSlugChar) == Seqs.Filter(s, IsSlugChar)
  {
    var t := if s != [] && s[0] == '-' then s[1..] else s;
    if s != [] && s[0] == '-' {
      assert s == ['-'] + t;
      DashHead(t);
    }
    if t != [] && t[|t| - 1] == '-' {
      assert t == t[..|t| - 1] + ['-'];
      Seqs.FilterConcat(t[..|t| - 1], ['-'], IsSlugChar);
    }
  }

  lemma {:induction false} CollapseLength(s: string)
    ensures |Collapse(s)| <= |s|
    decreases |s|
  {
    if s != [] {
      if IsSlugChar(s[0]) {
        CollapseLength(s[1..]);
      } else {
        CollapseLength(s[NonSlugRun(s)..]);
      }
    }
  }

  /** A string already of the slug alphabet with no `--` goes through `Collapse` unchanged. */
  lemma {:induction false} CollapseFixed(s: string)
    requires forall i :: 0 <= i < |s| ==> IsSlugChar(s[i]) || s[i] == '-'
    requires NoDoubleDash(s)
    ensures Collapse(s) == s
    decreases |s|
  {
    if s != [] {
      if IsSlugChar(s[0]) {
        CollapseFixed(s[1..]);
      } else {
        var k := NonSlugRun(s);
        assert k == 1 by {
          if |s| > 1 {
            assert s[1] != '-';
            assert IsSlugChar(s[1]);
          }
        }
        CollapseFixed(s[1..]);
      }
    }
  }

  /** A slug comes back unchanged from `slugify`. */
  lemma SlugifyFixed(s: string)
    requires IsSlug(s)
    ensures Slugify(s) == s
  {
    assert Text.IsLowerCase(s);
    Text.LowerCaseFixed(s);
    SlugCharsKept(s);
    CollapseFixed(s);
  }

  /** `slugify` is idempotent. */
  lemma SlugifyIdempotent(s: string)
    ensures Slugify(Slugify(s)) == Slugify(s)
  {
    SlugifyFixed(Slugify(s));
  }

  /** A letter or digit, in either case: what survives into a slug. */
  predicate IsAlphanumericAscii(c: char) {
    IsSlugChar(Text.LowerChar(c))
  }

  /** The slug is empty exactly when the name has no ASCII letter or digit (the case `createGroupAction` rejects). */
  lemma SlugifyEmpty(value: string)
    ensures Slugify(value) == [] <==> forall i :: 0 <= i < |value| ==> !IsAlphanumericAscii(value[i])
  {
    var l := Text.ToLower(value);
    var d := StripDiacritics(l);
    if forall i :: 0 <= i < |l| ==> !IsSlugChar(l[i]) {
      forall i | 0 <= i < |d|
        ensures !IsSlugChar(d[i])
      {
        assert d[i] in l;
      }
      NoSlugCharCollapse(d);
    } else {
      var i :| 0 <= i < |l| && IsSlugChar(l[i]);
      assert l[i] in d;
      var j :| 0 <= j < |d| && d[j] == l[i];
      CollapseKeeps(d, j);
    }
  }

  lemma NoSlugCharCollapse(s: string)
    requires forall i :: 0 <= i < |s| ==> !IsSlugChar(s[i])
    ensures Collapse(s) == [] || Collapse(s) == "-"
  {
    if s != [] {
      assert NonSlugRun(s) == |s|;
    }
  }

  /** A slug character of the input survives into its collapse (so the collapse is not just dashes). */
  lemma {:induction false} CollapseKeeps(s: string, i: nat)
    requires i < |s| && IsSlugChar(s[i])
    ensures exists j :: 0 <= j < |Collapse(s)| && IsSlugChar(Collapse(s)[j])
    decreases |s|
  {
    if IsSlugChar(s[0]) {
      assert IsSlugChar(Collapse(s)[0]);
    } else {
      var k := NonSlugRun(s);
      assert k <= i;
      var r := Collapse(s[k..]);
      CollapseKeeps(s[k..], i - k);
      var j :| 0 <= j < |r| && IsSlugChar(r[j]);
      assert Collapse(s)[j + 1] == r[j];
    }
  }

  /** `withSlugSuffix`: the base, a dash and the decimal suffix. */
  function WithSlugSuffix(base: string, suffix: nat): (r: string)
    ensures |r| > |base| + 1 && r[..|base|] == base && r[|base|] == '-'
    ensures Text.IsDigits(r[|base| + 1..])
    ensures Text.DecimalValue(r[|base| + 1..]) == suffix
  {
    Text.DecimalValueOfNatToString(suffix);
    base + "-" + Text.NatToString(suffix)
  }

  /** Different suffixes give different slugs, so the slug search never revisits a candidate. */
  lemma WithSlugSuffixInjective(base: string, m: nat, n: nat)
    requires WithSlugSuffix(base, m) == WithSlugSuffix(base, n)
    ensures m == n
  {
    var rm := WithSlugSuffix(base, m);
    assert rm[|base| + 1..] == Text.NatToString(m);
    assert WithSlugSuffix(base, n)[|base| + 1..] == Text.NatToString(n);
    Text.NatToStringInjective(m, n);
  }

  /** A suffixed slug is a slug when its base is a non-empty slug. */
  lemma WithSlugSuffixIsSlug(base: string, n: nat)
    requires IsSlug(base) && base != []
    ensures IsSlug(WithSlugSuffix(base, n))
  {
    var r := WithSlugSuffix(base, n);
    var digits := Text.NatToString(n);
    assert r == base + "-" + digits;
    forall i | 0 <= i < |r|
      ensures IsSlugChar(r[i]) || r[i] == '-'
    {
      if i > |base| {
        assert r[i] == digits[i - |base| - 1];
      }
    }
    assert r[|r| - 1] == digits[|digits| - 1];
  }

  /** tests/slug.test.ts: "Reto EUW" becomes "reto-euw". */
  lemma RetoEuw()
    ensures Slugify("Reto EUW") == "reto-euw"
  {
    LowerRetoEuw();
    PlainRetoEuw();
    SlugifyStep("reto euw");
  }

  /** The circumflex is a diacritic, so it is dropped rather than turned into a dash. */
  lemma CaretDropped()
    ensures Slugify("a^b") == "ab"
  {
    assert Text.ToLower("a^b") == "a^b";
    assert StripDiacritics("a^b") == "ab" by {
      assert "a^b"[1..][1..] == "b";
    }
    SlugCharsKept("ab");
    assert Collapse("ab") == "ab" by {
      CollapseFixed("ab");
    }
  }

  lemma LowerRetoEuw()
    ensures Text.ToLower("Reto EUW") == "reto euw"
  {
  }

  lemma PlainRetoEuw()
    ensures StripDiacritics("reto euw") == "reto euw"
  {
    var l := "reto euw";
    assert forall i :: 0 <= i < |l| ==> !IsAsciiDiacritic(l[i]);
  }

  lemma SlugifyStep(l: string)
    requires l == "reto euw"
    ensures StripEdgeDashes(Collapse(l)) == "reto-euw"
  {
    assert "reto-euw"[4] == '-';
    CollapseRetoEuw();
  }

  lemma CollapseRetoEuw()
    ensures Collapse("reto euw") == "reto-euw"
  {
    assert "reto euw" == "reto" + " euw";
    CollapseKeepsSlugChars("reto", " euw");
    CollapseSpaceEuw();
    assert "reto" + "-euw" == "reto-euw";
  }

  lemma CollapseSpaceEuw()
    ensures Collapse(" euw") == "-euw"
  {
    var b := "euw";
    assert " euw"[1..] == b;
    assert NonSlugRun(" euw") == 1 by {
      assert IsSlugChar(b[0]);
    }
    CollapseFixed(b);
  }

  /** A leading run of slug characters passes through `Collapse` unchanged. */
  lemma {:induction false} CollapseKeepsSlugChars(a: string, b: string)
    requires forall i :: 0 <= i < |a| ==> IsSlugChar(a[i])
    ensures Collapse(a + b) == a + Collapse(b)
    decreases |a|
  {
    if a == [] {
      assert a + b == b;
    } else {
      assert (a + b)[0] == a[0] && (a + b)[1..] == a[1..] + b;
      CollapseKeepsSlugChars(a[1..], b);
      assert a == [a[0]] + a[1..];
    }
  }
}
