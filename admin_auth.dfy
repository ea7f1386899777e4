/**
 * The admin allowlist of lib/auth/admin.ts. The environment variable
 * `ADMIN_EMAILS` is read once when the module loads; here its value is the
 * parameter `env` (`None` when unset).
 */
module AdminAuth {
  import opened Wrappers
  import Text

  /** The normal form of one allowlist entry: trimmed, then lowered. */
  function NormalizeEntry(entry: string): string {
    Text.ToLower(Text.Trim(entry))
  }

  /** Keeps the non-empty entries, in order. */
  function NonEmpty(entries: seq<string>): (kept: seq<string>)
    ensures forall e :: e in kept <==> e in entries && e != ""
    ensures |kept| <= |entries|
  {
    if entries == [] then []
    else if entries[0] == "" then NonEmpty(entries[1..])
    else [entries[0]] + NonEmpty(entries[1..])
  }

  /** Each entry normalized, in order. */
  function NormalizeAll(parts: seq<string>): (entries: seq<string>)
    ensures |entries| == |parts|
    ensures forall i :: 0 <= i < |parts| ==> entries[i] == NormalizeEntry(parts[i])
  {
    seq(|parts|, i requires 0 <= i < |parts| => NormalizeEntry(parts[i]))
  }

  /** The normalized entries are exactly the normal forms of the parts. */
  lemma NormalizedMembers(parts: seq<string>)
    ensures forall e :: e in NormalizeAll(parts) <==> exists part :: part in parts && e == NormalizeEntry(part)
  {
    forall e | e in NormalizeAll(parts)
      ensures exists part :: part in parts && e == NormalizeEntry(part)
    {
      var i :| 0 <= i < |parts| && NormalizeAll(parts)[i] == e;
      assert parts[i] in parts;
    }
    forall part | part in parts
      ensures NormalizeEntry(part) in NormalizeAll(parts)
    {
      var i :| 0 <= i < |parts| && parts[i] == part;
      assert NormalizeAll(parts)[i] == NormalizeEntry(part);
    }
  }

  /** `adminEmails`: the comma-separated entries of `ADMIN_EMAILS`, normalized, empty ones dropped. */
  function ParseAllowlist(env: Option<string>): (list: seq<string>)
    ensures forall e :: e in list <==> e != "" && exists part :: part in Text.Split(env.GetOr(""), ',') && e == NormalizeEntry(part)
  {
    var parts := Text.Split(env.GetOr(""), ',');
    var list := NonEmpty(NormalizeAll(parts));
    NormalizedMembers(parts);
    list
  }

  /** `hasAdminAllowlist`. */
  predicate HasAdminAllowlist(env: Option<string>) {
    |ParseAllowlist(env)| > 0
  }

  /** `isAdminEmail`: everyone is an admin without an allowlist; otherwise the lowered, trimmed email must be listed. */
  predicate IsAdminEmail(env: Option<string>, email: Option<string>) {
    if !HasAdminAllowlist(env) then true
    else
      var normalized := Text.Trim(Text.ToLower(email.GetOr("")));
      normalized != "" && normalized in ParseAllowlist(env)
  }

  /** Every allowlist entry is non-empty, trimmed and lower case. */
  lemma AllowlistEntriesNormalized(env: Option<string>)
    ensures forall e :: e in ParseAllowlist(env) ==> e != "" && Text.IsTrimmed(e) && Text.IsLowerCase(e)
  {
    forall e | e in ParseAllowlist(env)
      ensures Text.IsTrimmed(e) && Text.IsLowerCase(e)
    {
      var part :| part in Text.Split(env.GetOr(""), ',') && e == NormalizeEntry(part);
      Text.TrimToLowerCommute(part);
      Text.ToLowerIsLowerCase(Text.Trim(part));
    }
  }

  /** An unset or blank `ADMIN_EMAILS` means there is no allowlist, and then every caller is an admin. */
  lemma NoAllowlistAdmitsEveryone(env: Option<string>, email: Option<string>)
    requires env.None? || env == Some("")
    ensures !HasAdminAllowlist(env)
    ensures IsAdminEmail(env, email)
  {
    assert Text.Split("", ',') == [""];
    assert NormalizeEntry("") == "";
  }

  /** With an allowlist, a missing, empty or blank email is never an admin. */
  lemma EmptyEmailRejected(env: Option<string>, email: Option<string>)
    requires HasAdminAllowlist(env)
    requires email.None? || Text.Trim(email.value) == ""
    ensures !IsAdminEmail(env, email)
  {
    if email.Some? {
      Text.TrimToLowerCommute(email.value);
    }
  }

  /** With an allowlist, matching ignores case and surrounding whitespace of the email. */
  lemma MatchIgnoresCase(env: Option<string>, email: string)
    ensures IsAdminEmail(env, Some(email)) == IsAdminEmail(env, Some(NormalizeEntry(email)))
  {
    Text.TrimToLowerCommute(email);
    Text.ToLowerIsLowerCase(Text.Trim(email));
    Text.TrimToLowerCommute(NormalizeEntry(email));
    Text.TrimIdempotent(email);
  }

  /** With an allowlist, an email is an admin exactly when its normal form is one of the normalized entries. */
  lemma AdminIffListed(env: Option<string>, email: string)
    requires HasAdminAllowlist(env)
    ensures IsAdminEmail(env, Some(email)) <==>
      NormalizeEntry(email) != "" &&
      exists part :: part in Text.Split(env.GetOr(""), ',') && NormalizeEntry(part) == NormalizeEntry(email)
  {
    Text.TrimToLowerCommute(email);
  }
}
