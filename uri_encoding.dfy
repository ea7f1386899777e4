/**
 * UTF-8 (what `Buffer.from(string)` produces) and JavaScript's
 * `encodeURIComponent`, as used for the op.gg profile URLs and the cron
 * secret comparison. A Dafny `char` is a Unicode scalar value, so lone
 * surrogates, which these functions replace or reject, cannot occur.
 */
module UriEncoding {

  type Byte = x: int | 0 <= x < 256

  /** The UTF-8 encoding of one scalar value: one to four bytes. */
  function EncodeChar(c: char): (bytes: seq<Byte>)
    ensures 1 <= |bytes| <= 4
    ensures |bytes| == 1 <==> (c as int) < 0x80
  {
    var n := c as int;
    if n < 0x80 then [n]
    else if n < 0x800 then [0xC0 + n / 64, 0x80 + n % 64]
    else if n < 0x10000 then [0xE0 + n / 4096, 0x80 + (n / 64) % 64, 0x80 + n % 64]
    else [0xF0 + n / 262144, 0x80 + (n / 4096) % 64, 0x80 + (n / 64) % 64, 0x80 + n % 64]
  }

  /** `Buffer.from(s)`: the UTF-8 bytes of a string. */
  function Utf8(s: string): (bytes: seq<Byte>)
    ensures |s| <= |bytes| <= 4 * |s|
  {
    if s == [] then [] else EncodeChar(s[0]) + Utf8(s[1..])
  }

  /** How many bytes a sequence starting with lead byte `b` occupies. */
  function SequenceLength(b: int): nat {
    if b < 0xC0 then 1 else if b < 0xE0 then 2 else if b < 0xF0 then 3 else 4
  }

  /** The scalar value of one well-formed UTF-8 sequence. */
  function DecodeSequence(bytes: seq<int>): int
    requires |bytes| > 0 && |bytes| == SequenceLength(bytes[0])
  {
    if |bytes| == 1 then bytes[0]
    else if |bytes| == 2 then (bytes[0] - 0xC0) * 64 + (bytes[1] - 0x80)
    else if |bytes| == 3 then (bytes[0] - 0xE0) * 4096 + (bytes[1] - 0x80) * 64 + (bytes[2] - 0x80)
    else (bytes[0] - 0xF0) * 262144 + (bytes[1] - 0x80) * 4096 + (bytes[2] - 0x80) * 64 + (bytes[3] - 0x80)
  }

  /** Each character's encoding is one sequence that decodes back to that character. */
  lemma EncodeCharDecodes(c: char)
    ensures SequenceLength(EncodeChar(c)[0]) == |EncodeChar(c)|
    ensures DecodeSequence(EncodeChar(c)) == c as int
  {
    var n := c as int;
    if n >= 0x10000 {
      FourByteDigits(n);
    } else if n >= 0x800 {
      ThreeByteDigits(n);
    }
  }

  /** A value below 0x110000 in base 64, with a lead digit below 5. */
  lemma FourByteDigits(n: nat)
    requires n < 0x110000
    ensures n / 262144 < 5
    ensures n == (n / 262144) * 262144 + ((n / 4096) % 64) * 4096 + ((n / 64) % 64) * 64 + n % 64
  {
    ThreeByteDigits(n);
    var m := n / 4096;
    assert m / 64 == n / 262144;
    assert m * 4096 == (m / 64) * 262144 + (m % 64) * 4096;
  }

  lemma ThreeByteDigits(n: nat)
    ensures n == (n / 4096) * 4096 + ((n / 64) % 64) * 64 + n % 64
  {
  }

  /** UTF-8 decoding of well-formed input: read lead bytes and their sequences back into characters. */
  function Utf8Decode(bytes: seq<int>): seq<int>
    decreases |bytes|
  {
    if bytes == [] then []
    else
      var k := SequenceLength(bytes[0]);
      if k > |bytes| then [] else [DecodeSequence(bytes[..k])] + Utf8Decode(bytes[k..])
  }

  function CodePoints(s: string): (r: seq<int>)
    ensures |r| == |s|
    ensures forall i :: 0 <= i < |s| ==> r[i] == s[i] as int
  {
    seq(|s|, i requires 0 <= i < |s| => s[i] as int)
  }

  /** Decoding the UTF-8 of a string gives its characters back. */
  lemma {:induction false} Utf8RoundTrip(s: string)
    ensures Utf8Decode(Utf8(s)) == CodePoints(s)
  {
    if s != [] {
      var e := EncodeChar(s[0]);
      EncodeCharDecodes(s[0]);
      var bytes := Utf8(s);
      assert bytes == e + Utf8(s[1..]);
      assert bytes[..|e|] == e;
      assert bytes[|e|..] == Utf8(s[1..]);
      Utf8RoundTrip(s[1..]);
      assert CodePoints(s) == [s[0] as int] + CodePoints(s[1..]);
    }
  }

  /** Distinct strings have distinct UTF-8 encodings. */
  lemma Utf8Injective(s: string, t: string)
    requires Utf8(s) == Utf8(t)
    ensures s == t
  {
    Utf8RoundTrip(s);
    Utf8RoundTrip(t);
    assert CodePoints(s) == CodePoints(t);
    assert |s| == |t|;
    forall i | 0 <= i < |s|
      ensures s[i] == t[i]
    {
      assert CodePoints(s)[i] == CodePoints(t)[i];
    }
  }

  /** The characters `encodeURIComponent` leaves alone: `A-Z a-z 0-9 - _ . ! ~ * ' ( )`. */
  predicate IsUnreserved(c: char) {
    ('A' <= c <= 'Z') || ('a' <= c <= 'z') || ('0' <= c <= '9') ||
    c == '-' || c == '_' || c == '.' || c == '!' || c == '~' || c == '*' || c == '\'' || c == '(' || c == ')'
  }

  function HexDigit(d: nat): (c: char)
    requires d < 16
    ensures ('0' <= c <= '9') || ('A' <= c <= 'F')
  {
    if d < 10 then ('0' as int + d) as char else ('A' as int + d - 10) as char
  }

  /** `%XX` with upper-case hexadecimal digits. */
  function PercentByte(b: Byte): string {
    ['%', HexDigit(b / 16), HexDigit(b % 16)]
  }

  function PercentBytes(bytes: seq<Byte>): (r: string)
    ensures |r| == 3 * |bytes|
  {
    if bytes == [] then [] else PercentByte(bytes[0]) + PercentBytes(bytes[1..])
  }

  /** `encodeURIComponent(s)`. */
  function EncodeUriComponent(s: string): (r: string)
    ensures |s| <= |r| <= 12 * |s|
  {
    if s == [] then []
    else (if IsUnreserved(s[0]) then [s[0]] else PercentBytes(EncodeChar(s[0]))) + EncodeUriComponent(s[1..])
  }

  predicate IsHexUpper(c: char) { ('0' <= c <= '9') || ('A' <= c <= 'F') }

  function HexValue(c: char): nat
    requires IsHexUpper(c)
  {
    if c <= '9' then c as int - '0' as int else c as int - 'A' as int + 10
  }

  /** The bytes a percent-encoded string stands for (a plain ASCII character stands for its own code). */
  function PercentDecode(s: string): seq<int>
    decreases |s|
  {
    if s == [] then []
    else if s[0] == '%' && |s| >= 3 && IsHexUpper(s[1]) && IsHexUpper(s[2]) then
      [HexValue(s[1]) * 16 + HexValue(s[2])] + PercentDecode(s[3..])
    else [s[0] as int] + PercentDecode(s[1..])
  }

  lemma {:induction false} PercentBytesDecode(bytes: seq<Byte>, rest: string)
    ensures PercentDecode(PercentBytes(bytes) + rest) == bytes + PercentDecode(rest)
  {
    if bytes != [] {
      var tail := PercentBytes(bytes[1..]) + rest;
      PercentBytesCons(bytes, rest);
      PercentByteDecode(bytes[0], tail);
      PercentBytesDecode(bytes[1..], rest);
      assert bytes == [bytes[0]] + bytes[1..];
    } else {
      assert PercentBytes(bytes) + rest == rest;
    }
  }

  lemma PercentBytesCons(bytes: seq<Byte>, rest: string)
    requires bytes != []
    ensures PercentBytes(bytes) + rest == PercentByte(bytes[0]) + (PercentBytes(bytes[1..]) + rest)
  {
  }

  /** One `%XX` decodes to its byte. */
  lemma PercentByteDecode(b: Byte, rest: string)
    ensures PercentDecode(PercentByte(b) + rest) == [b] + PercentDecode(rest)
  {
    var p := PercentByte(b) + rest;
    HexDigitValue(b / 16);
    HexDigitValue(b % 16);
    assert p[..3] == PercentByte(b) && p[3..] == rest;
  }

  lemma HexDigitValue(d: nat)
    requires d < 16
    ensures IsHexUpper(HexDigit(d)) && HexValue(HexDigit(d)) == d
  {
  }

  /** Undoing the percent-encoding gives the UTF-8 bytes of the original string. */
  lemma {:induction false} EncodeUriComponentBytes(s: string)
    ensures PercentDecode(EncodeUriComponent(s)) == Utf8(s)
  {
    if s != [] {
      var rest := EncodeUriComponent(s[1..]);
      EncodeUriComponentBytes(s[1..]);
      if IsUnreserved(s[0]) {
        assert EncodeUriComponent(s) == [s[0]] + rest;
        assert ([s[0]] + rest)[1..] == rest;
      } else {
        PercentBytesDecode(EncodeChar(s[0]), rest);
      }
    }
  }

  /** `decodeURIComponent(encodeURIComponent(s)) == s`. */
  lemma EncodeUriComponentRoundTrip(s: string)
    ensures Utf8Decode(PercentDecode(EncodeUriComponent(s))) == CodePoints(s)
  {
    EncodeUriComponentBytes(s);
    Utf8RoundTrip(s);
  }

  /** A string of unreserved characters is left as it is. */
  lemma {:induction false} UnreservedUnchanged(s: string)
    requires forall i :: 0 <= i < |s| ==> IsUnreserved(s[i])
    ensures EncodeUriComponent(s) == s
  {
    if s != [] {
      UnreservedUnchanged(s[1..]);
    }
  }

  /** The output uses only unreserved characters, `%` and upper-case hexadecimal digits. */
  lemma {:induction false} EncodedAlphabet(s: string)
    ensures forall c :: c in EncodeUriComponent(s) ==> IsUnreserved(c) || c == '%'
  {
    if s != [] {
      EncodedAlphabet(s[1..]);
      if !IsUnreserved(s[0]) {
        PercentBytesAlphabet(EncodeChar(s[0]));
      }
    }
  }

  lemma {:induction false} PercentBytesAlphabet(bytes: seq<Byte>)
    ensures forall c :: c in PercentBytes(bytes) ==> IsUnreserved(c) || c == '%'
  {
    if bytes != [] {
      PercentBytesAlphabet(bytes[1..]);
    }
  }

  /** The Riot-id of "Faker" and tag "KR1" needs no escaping; a space becomes `%20`. */
  lemma EncodeExamples()
    ensures EncodeUriComponent("Faker-KR1") == "Faker-KR1"
    ensures EncodeUriComponent(" ") == "%20"
  {
    UnreservedUnchanged("Faker-KR1");
    SpaceEncoded();
  }

  lemma SpaceEncoded()
    ensures EncodeUriComponent(" ") == "%20"
  {
    assert EncodeChar(' ') == [32];
    assert PercentBytes([32]) == "%20";
  }
}
