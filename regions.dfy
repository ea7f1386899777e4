/** The region tables of lib/riot/regions.ts. */
module Regions {
  import opened Wrappers
  import Text

  /** `RiotPlatformRegion`. */
  datatype Platform = EUW1 | EUN1 | NA1 | KR | JP1 | BR1 | LA1 | LA2 | OC1 | TR1 | RU

  /** `RiotAccountRegion`. */
  datatype AccountRegion = Americas | Europe | Asia

  /** The string each platform literal stands for (stored in `players.region`). */
  function PlatformId(p: Platform): string {
    match p
    case EUW1 => "euw1"
    case EUN1 => "eun1"
    case NA1 => "na1"
    case KR => "kr"
    case JP1 => "jp1"
    case BR1 => "br1"
    case LA1 => "la1"
    case LA2 => "la2"
    case OC1 => "oc1"
    case TR1 => "tr1"
    case RU => "ru"
  }

  function AccountRegionId(a: AccountRegion): string {
    match a
    case Americas => "americas"
    case Europe => "europe"
    case Asia => "asia"
  }

  /** `platformMap`: the accepted spellings of each platform, after lowering and trimming. */
  const PLATFORM_MAP: map<string, Platform> := map[
    "euw" := EUW1, "euw1" := EUW1,
    "eune" := EUN1, "eun1" := EUN1,
    "na" := NA1, "na1" := NA1,
    "kr" := KR,
    "jp" := JP1, "jp1" := JP1,
    "br" := BR1, "br1" := BR1,
    "lan" := LA1, "la1" := LA1,
    "las" := LA2, "la2" := LA2,
    "oce" := OC1, "oc1" := OC1,
    "tr" := TR1, "tr1" := TR1,
    "ru" := RU
  ]

  /**
   * What `platformMap[normalized]` finds. Besides its own entries, the object
   * literal inherits the members of `Object.prototype`; the two whose names
   * are entirely lower case, `constructor` (the `Object` function) and
   * `__proto__` (`Object.prototype` itself), are truthy, so `!mapped` lets
   * them through.
   */
  datatype Mapped = Listed(platform: Platform) | ObjectConstructor | ObjectPrototype

  /** The lower-case names `Object.prototype` provides. */
  const INHERITED_KEYS: set<string> := {"constructor", "__proto__"}

  /** The normal form `normalizePlatformRegion` looks up. */
  function NormalForm(input: string): string {
    Text.Trim(Text.ToLower(input))
  }

  /**
   * `normalizePlatformRegion`: lowers the case and trims the input, then looks it
   * up; a spelling that is neither an entry nor an inherited member is the
   * thrown `Unsupported region: <input>`.
   */
  function NormalizePlatformRegion(input: string): (r: Result<Mapped, string>)
    ensures r.Success? <==> NormalForm(input) in PLATFORM_MAP || NormalForm(input) in INHERITED_KEYS
    ensures NormalForm(input) in PLATFORM_MAP ==> r == Success(Listed(PLATFORM_MAP[NormalForm(input)]))
    ensures NormalForm(input) == "constructor" ==> r == Success(ObjectConstructor)
    ensures NormalForm(input) == "__proto__" ==> r == Success(ObjectPrototype)
    ensures r.Failure? ==> r.error == "Unsupported region: " + input
  {
    var normalized := NormalForm(input);
    if normalized in PLATFORM_MAP then Success(Listed(PLATFORM_MAP[normalized]))
    else if normalized == "constructor" then Success(ObjectConstructor)
    else if normalized == "__proto__" then Success(ObjectPrototype)
    else Failure("Unsupported region: " + input)
  }

  /** The text a template literal makes of a normalized region. */
  function MappedText(m: Mapped): string {
    match m
    case Listed(p) => PlatformId(p)
    case ObjectConstructor => "function Object() { [native code] }"
    case ObjectPrototype => "[object Object]"
  }

  /** `accountRegionForPlatform` on a supported platform. */
  function AccountRegionForPlatform(p: Platform): (a: AccountRegion)
    ensures a == Europe <==> p in {EUW1, EUN1, TR1, RU}
    ensures a == Americas <==> p in {NA1, BR1, LA1, LA2, OC1}
    ensures a == Asia <==> p in {KR, JP1}
  {
    match p
    case EUW1 => Europe
    case EUN1 => Europe
    case TR1 => Europe
    case RU => Europe
    case NA1 => Americas
    case BR1 => Americas
    case LA1 => Americas
    case LA2 => Americas
    case OC1 => Americas
    case KR => Asia
    case JP1 => Asia
  }

  /**
   * `accountRegionForPlatform` on whatever `normalizePlatformRegion` returned:
   * an inherited member is not a key of `accountRegionMap`, so the `?? "europe"`
   * fallback answers for it.
   */
  function AccountRegionOf(m: Mapped): (a: AccountRegion)
    ensures m.Listed? ==> a == AccountRegionForPlatform(m.platform)
    ensures !m.Listed? ==> a == Europe
  {
    match m
    case Listed(p) => AccountRegionForPlatform(p)
    case _ => Europe
  }

  /** `opggRegion`: the region slug op.gg uses in profile paths. */
  function OpggRegion(p: Platform): string {
    match p
    case EUW1 => "euw"
    case EUN1 => "eune"
    case NA1 => "na"
    case KR => "kr"
    case JP1 => "jp"
    case BR1 => "br"
    case LA1 => "lan"
    case LA2 => "las"
    case OC1 => "oce"
    case TR1 => "tr"
    case RU => "ru"
  }

  datatype RegionOption = RegionOption(value: Platform, caption: string)

  /** `PLATFORM_REGION_OPTIONS`: the choices offered in the add-player form. */
  const PLATFORM_REGION_OPTIONS: seq<RegionOption> := [
    RegionOption(EUW1, "EUW"),
    RegionOption(EUN1, "EUNE"),
    RegionOption(NA1, "NA"),
    RegionOption(KR, "KR"),
    RegionOption(JP1, "JP"),
    RegionOption(BR1, "BR"),
    RegionOption(LA1, "LAN"),
    RegionOption(LA2, "LAS"),
    RegionOption(OC1, "OCE"),
    RegionOption(TR1, "TR"),
    RegionOption(RU, "RU")
  ]

  function OptionValues(options: seq<RegionOption>): (values: seq<Platform>)
    ensures |values| == |options|
    ensures forall i :: 0 <= i < |options| ==> values[i] == options[i].value
  {
    seq(|options|, i requires 0 <= i < |options| => options[i].value)
  }

  /** A string with no upper-case letter and no whitespace is its own normal form. */
  lemma NormalFormFixed(s: string)
    requires forall i :: 0 <= i < |s| ==> !Text.IsUpperAscii(s[i]) && !Text.IsSpace(s[i])
    ensures Text.Trim(Text.ToLower(s)) == s
  {
    Text.LowerCaseFixed(s);
  }

  /** An input whose normal form is a spelling of the table normalizes to that spelling's platform. */
  lemma NormalizesVia(input: string, spelling: string, p: Platform)
    requires Text.Trim(Text.ToLower(input)) == spelling
    requires spelling in PLATFORM_MAP && PLATFORM_MAP[spelling] == p
    ensures NormalizePlatformRegion(input) == Success(Listed(p))
  {
  }

  /** Every platform's own id is accepted and names that platform. */
  lemma NormalizePlatformId(p: Platform)
    ensures NormalizePlatformRegion(PlatformId(p)) == Success(Listed(p))
  {
    PlatformIdNormal(p);
    PlatformIdListed(p);
    NormalizesVia(PlatformId(p), PlatformId(p), p);
  }

  lemma PlatformIdNormal(p: Platform)
    ensures Text.Trim(Text.ToLower(PlatformId(p))) == PlatformId(p)
  {
    NormalFormFixed(PlatformId(p));
  }

  lemma PlatformIdListed(p: Platform)
    ensures PlatformId(p) in PLATFORM_MAP && PLATFORM_MAP[PlatformId(p)] == p
  {
  }

  /**
   * Normalizing is idempotent on the platforms: the id of a normalized
   * platform normalizes to itself. (An inherited member is not a string, so
   * a second `normalizePlatformRegion` on it would throw at `toLowerCase`.)
   */
  lemma NormalizeIdempotent(input: string)
    requires NormalizePlatformRegion(input).Success?
    ensures NormalizePlatformRegion(input).value.Listed? ==>
      NormalizePlatformRegion(PlatformId(NormalizePlatformRegion(input).value.platform)) == NormalizePlatformRegion(input)
  {
    if NormalizePlatformRegion(input).value.Listed? {
      NormalizePlatformId(NormalizePlatformRegion(input).value.platform);
    }
  }

  /** Exactly the two inherited names, in any case and with any surrounding whitespace, yield a non-platform. */
  lemma InheritedIff(input: string)
    ensures NormalizePlatformRegion(input).Success? && !NormalizePlatformRegion(input).value.Listed? <==>
      NormalForm(input) in INHERITED_KEYS
  {
    InheritedNotListed();
  }

  /** Neither inherited name is a key of the platform table. */
  lemma InheritedNotListed()
    ensures forall k :: k in INHERITED_KEYS ==> k !in PLATFORM_MAP
  {
    assert "constructor" !in PLATFORM_MAP;
    assert "__proto__" !in PLATFORM_MAP;
  }

  /** `normalizePlatformRegion("constructor")` does not throw: it returns the `Object` function. */
  lemma NormalizeConstructor()
    ensures NormalizePlatformRegion("constructor") == Success(ObjectConstructor)
  {
    NormalFormFixed("constructor");
    assert "constructor" !in PLATFORM_MAP;
  }

  /** `normalizePlatformRegion(" __PROTO__ ")` returns `Object.prototype`. */
  lemma NormalizeProto()
    ensures NormalizePlatformRegion(" __PROTO__ ") == Success(ObjectPrototype)
  {
    LowerProto();
    TrimProto();
    assert "__proto__" !in PLATFORM_MAP;
  }

  lemma LowerProto()
    ensures Text.ToLower(" __PROTO__ ") == " __proto__ "
  {
  }

  lemma TrimProto()
    ensures Text.Trim(" __proto__ ") == "__proto__"
  {
    Text.TrimSurrounded(" ", "__proto__", " ");
    assert " " + "__proto__" + " " == " __proto__ ";
  }

  /** The op.gg slug of a platform normalizes back to that platform. */
  lemma OpggRegionRoundTrip(p: Platform)
    ensures NormalizePlatformRegion(OpggRegion(p)) == Success(Listed(p))
  {
    OpggRegionNormal(p);
    OpggRegionListed(p);
    NormalizesVia(OpggRegion(p), OpggRegion(p), p);
  }

  lemma OpggRegionNormal(p: Platform)
    ensures Text.Trim(Text.ToLower(OpggRegion(p))) == OpggRegion(p)
  {
    NormalFormFixed(OpggRegion(p));
  }

  lemma OpggRegionListed(p: Platform)
    ensures OpggRegion(p) in PLATFORM_MAP && PLATFORM_MAP[OpggRegion(p)] == p
  {
  }

  /** tests/regions.test.ts: the short name "euw" is accepted. */
  lemma NormalizeShortName()
    ensures NormalizePlatformRegion("euw") == Success(Listed(EUW1))
  {
    OpggRegionRoundTrip(EUW1);
  }

  /** tests/regions.test.ts: the upper-case id "EUW1" is accepted. */
  lemma NormalizeUpperCase()
    ensures NormalizePlatformRegion("EUW1") == Success(Listed(EUW1))
  {
    UpperCaseForm();
    NormalizesVia("EUW1", "euw1", EUW1);
  }

  /** Surrounding whitespace and mixed case are ignored. */
  lemma NormalizeSpaced()
    ensures NormalizePlatformRegion(" Na ") == Success(Listed(NA1))
  {
    LowerSpaced();
    TrimSpaced();
    NormalizesVia(" Na ", "na", NA1);
  }

  lemma LowerSpaced()
    ensures Text.ToLower(" Na ") == " na "
  {
  }

  lemma TrimSpaced()
    ensures Text.Trim(" na ") == "na"
  {
    Text.TrimSurrounded(" ", "na", " ");
  }

  lemma UpperCaseForm()
    ensures Text.Trim(Text.ToLower("EUW1")) == "euw1"
  {
    assert Text.ToLower("EUW1") == "euw1";
    assert Text.IsTrimmed("euw1");
  }

  /** An unknown region is rejected with a message naming it. */
  lemma NormalizeUnknown()
    ensures NormalizePlatformRegion("atlantis") == Failure("Unsupported region: atlantis")
  {
    NormalFormFixed("atlantis");
    assert "atlantis" !in PLATFORM_MAP;
    assert "Unsupported region: " + "atlantis" == "Unsupported region: atlantis";
  }

  /** The form's options have distinct values and cover every platform. */
  lemma RegionOptionsDistinct()
    ensures forall i, j :: 0 <= i < j < |PLATFORM_REGION_OPTIONS| ==>
      PLATFORM_REGION_OPTIONS[i].value != PLATFORM_REGION_OPTIONS[j].value
    ensures forall p: Platform :: p in OptionValues(PLATFORM_REGION_OPTIONS)
  {
    var values := OptionValues(PLATFORM_REGION_OPTIONS);
    assert values == [EUW1, EUN1, NA1, KR, JP1, BR1, LA1, LA2, OC1, TR1, RU];
    forall p: Platform
      ensures p in values
    {
      match p
      case EUW1 => assert values[0] == p;
      case EUN1 => assert values[1] == p;
      case NA1 => assert values[2] == p;
      case KR => assert values[3] == p;
      case JP1 => assert values[4] == p;
      case BR1 => assert values[5] == p;
      case LA1 => assert values[6] == p;
      case LA2 => assert values[7] == p;
      case OC1 => assert values[8] == p;
      case TR1 => assert values[9] == p;
      case RU => assert values[10] == p;
    }
  }

  /** The caption of each option is the upper-case op.gg slug of its value. */
  lemma OptionCaption(i: nat)
    requires i < |PLATFORM_REGION_OPTIONS|
    ensures Text.ToLower(PLATFORM_REGION_OPTIONS[i].caption) == OpggRegion(PLATFORM_REGION_OPTIONS[i].value)
  {
    var o := PLATFORM_REGION_OPTIONS[i];
    var lowered := Text.ToLower(o.caption);
    if i == 0 { assert lowered == "euw"; }
    else if i == 1 { assert lowered == "eune"; }
    else if i == 2 { assert lowered == "na"; }
    else if i == 3 { assert lowered == "kr"; }
    else if i == 4 { assert lowered == "jp"; }
    else if i == 5 { assert lowered == "br"; }
    else if i == 6 { assert lowered == "lan"; }
    else if i == 7 { assert lowered == "las"; }
    else if i == 8 { assert lowered == "oce"; }
    else if i == 9 { assert lowered == "tr"; }
    else { assert lowered == "ru"; }
  }

  /** Typing an option's caption into the region field selects that option's platform. */
  lemma OptionCaptionNormalizes(i: nat)
    requires i < |PLATFORM_REGION_OPTIONS|
    ensures NormalizePlatformRegion(PLATFORM_REGION_OPTIONS[i].caption) == Success(Listed(PLATFORM_REGION_OPTIONS[i].value))
  {
    var o := PLATFORM_REGION_OPTIONS[i];
    OptionCaption(i);
    Text.ToLowerIsLowerCase(o.caption);
    OpggRegionRoundTrip(o.value);
  }
}
