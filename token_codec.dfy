/**
 * The non-verifying token decoder of src/utils/token.utils.ts: it reads the payload of a
 * JWS compact serialisation (section 7.1 of RFC 7515) without checking the signature.
 *
 * Pipeline: split on '.', take segment 1, turn the base64url alphabet into the base64
 * alphabet (section 5 of RFC 4648), decode base64, percent-escape every byte (section 2.1
 * of RFC 3986), undo the escapes and decode UTF-8, parse JSON.  Base64 decoding, UTF-8
 * decoding and JSON parsing are foreign calls and are parameters here (a `Runtime`).
 */
module TokenCodec {
  import opened Wrappers

  type Byte = x: int | 0 <= x < 256

  /** The claims of the JWT payload the client reads (sections 4.1.2 and 4.1.4 of RFC 7519,
      plus `email` and `iat`); a claim absent from the JSON object is None. */
  datatype Claims = Claims(sub: Option<string>, email: Option<string>, iat: Option<int>, exp: Option<int>)

  /**
   * The foreign functions the decoder calls, each of which can fail (None):
   * `atob` (base64 text to a binary string, one code unit per byte), the UTF-8 half of
   * `decodeURIComponent`, and `JSON.parse` (None also for a JSON value that is falsy, such
   * as `null`, which the callers treat like a failed parse).
   */
  datatype Runtime = Runtime(
    atob: string -> Option<seq<Byte>>,
    utf8Decode: seq<Byte> -> Option<string>,
    jsonParse: string -> Option<Claims>)

  // ---------------------------------------------------------------------------------
  // String.prototype.split with a one-character separator, and its inverse.

  /** `s.split(sep)`: the maximal runs between separators; never empty. */
  function Split(s: string, sep: char): (parts: seq<string>)
    ensures |parts| >= 1
    decreases |s|
  {
    if s == [] then [[]]
    else
      var rest := Split(s[1..], sep);
      if s[0] == sep then [[]] + rest
      else [[s[0]] + rest[0]] + rest[1..]
  }

  /** `parts.join(sep)`. */
  function Join(parts: seq<string>, sep: char): (s: string)
    requires |parts| >= 1
    decreases |parts|
  {
    if |parts| == 1 then parts[0] else parts[0] + [sep] + Join(parts[1..], sep)
  }

  /** Number of occurrences of `c` in `s`. */
  function Count(s: string, c: char): (n: nat)
    ensures n <= |s|
  {
    if s == [] then 0 else (if s[0] == c then 1 else 0) + Count(s[1..], c)
  }

  /** Split yields one more part than there are separators, and no part holds a separator. */
  lemma {:induction false} SplitShape(s: string, sep: char)
    ensures |Split(s, sep)| == Count(s, sep) + 1
    ensures forall i :: 0 <= i < |Split(s, sep)| ==> sep !in Split(s, sep)[i]
    decreases |s|
  {
    if s != [] {
      SplitShape(s[1..], sep);
    }
  }

  /** Joining the parts of a split gives back the string. */
  lemma {:induction false} JoinSplit(s: string, sep: char)
    ensures Join(Split(s, sep), sep) == s
    decreases |s|
  {
    if s != [] {
      var rest := Split(s[1..], sep);
      JoinSplit(s[1..], sep);
      if s[0] != sep {
        if |rest| == 1 {
          assert Join(Split(s, sep), sep) == [s[0]] + rest[0];
        } else {
          assert Split(s, sep)[1..] == rest[1..];
          assert Join(Split(s, sep), sep) == [s[0]] + rest[0] + [sep] + Join(rest[1..], sep);
        }
      }
    }
  }

  /** A separator-free prefix followed by a separator splits off as the first part. */
  lemma {:induction false} SplitPrefix(h: string, sep: char, t: string)
    requires sep !in h
    ensures Split(h + [sep] + t, sep) == [h] + Split(t, sep)
    decreases |h|
  {
    if h == [] {
      assert h + [sep] + t == [sep] + t;
      assert ([sep] + t)[1..] == t;
    } else {
      assert (h + [sep] + t)[1..] == h[1..] + [sep] + t;
      SplitPrefix(h[1..], sep, t);
      assert [h[0]] + h[1..] == h;
    }
  }

  /** Splitting a join of separator-free parts gives back the parts. */
  lemma {:induction false} SplitJoin(parts: seq<string>, sep: char)
    requires |parts| >= 1
    requires forall i :: 0 <= i < |parts| ==> sep !in parts[i]
    ensures Split(Join(parts, sep), sep) == parts
    decreases |parts|
  {
    if |parts| == 1 {
      NoSeparatorSplit(parts[0], sep);
    } else {
      SplitJoin(parts[1..], sep);
      SplitPrefix(parts[0], sep, Join(parts[1..], sep));
      assert [parts[0]] + parts[1..] == parts;
    }
  }

  /** A string without separators splits into itself alone. */
  lemma {:induction false} NoSeparatorSplit(s: string, sep: char)
    requires sep !in s
    ensures Split(s, sep) == [s]
    decreases |s|
  {
    if s != [] {
      NoSeparatorSplit(s[1..], sep);
      assert [s[0]] + s[1..] == s;
    }
  }

  // ---------------------------------------------------------------------------------
  // The base64url to base64 alphabet step: two global single-character replacements.

  /** Every occurrence of `from` in `s` replaced by `to` (a global regular-expression
      replace of one character). */
  function ReplaceAll(s: string, from: char, to: char): (r: string)
    ensures |r| == |s|
    ensures forall c :: c in r <==> (c in s && c != from) || (c == to && from in s)
    decreases |s|
  {
    if s == [] then [] else [if s[0] == from then to else s[0]] + ReplaceAll(s[1..], from, to)
  }

  /** The base64url alphabet of section 5 of RFC 4648 mapped onto that of section 4. */
  function Base64UrlToBase64(s: string): (r: string)
    ensures |r| == |s|
    ensures '-' !in r && '_' !in r
    ensures forall c :: c != '+' && c != '/' && c != '-' && c != '_' ==> (c in r <==> c in s)
  {
    ReplaceAll(ReplaceAll(s, '-', '+'), '_', '/')
  }

  /** The reverse mapping, the alphabet of section 4 of RFC 4648 onto that of section 5. */
  function Base64ToBase64Url(s: string): (r: string)
  {
    ReplaceAll(ReplaceAll(s, '+', '-'), '/', '_')
  }

  /** A global one-character replacement keeps the length and acts position by position. */
  lemma {:induction false} ReplaceAllAt(s: string, from: char, to: char)
    ensures |ReplaceAll(s, from, to)| == |s|
    ensures forall i :: 0 <= i < |s| ==>
      ReplaceAll(s, from, to)[i] == if s[i] == from then to else s[i]
    decreases |s|
  {
    if s != [] {
      ReplaceAllAt(s[1..], from, to);
    }
  }

  /** The alphabet step keeps the length, turns every '-' into '+' and every '_' into '/',
      and leaves every other character where it was. */
  lemma Base64UrlToBase64At(s: string)
    ensures |Base64UrlToBase64(s)| == |s|
    ensures forall i :: 0 <= i < |s| ==>
      Base64UrlToBase64(s)[i] == (if s[i] == '-' then '+' else if s[i] == '_' then '/' else s[i])
    ensures '-' !in Base64UrlToBase64(s) && '_' !in Base64UrlToBase64(s)
  {
    ReplaceAllAt(s, '-', '+');
    ReplaceAllAt(ReplaceAll(s, '-', '+'), '_', '/');
    var r := Base64UrlToBase64(s);
    assert forall i :: 0 <= i < |r| ==> r[i] != '-' && r[i] != '_';
  }

  /** The reverse mapping keeps the length and acts position by position. */
  lemma Base64ToBase64UrlAt(s: string)
    ensures |Base64ToBase64Url(s)| == |s|
    ensures forall i :: 0 <= i < |s| ==>
      Base64ToBase64Url(s)[i] == (if s[i] == '+' then '-' else if s[i] == '/' then '_' else s[i])
  {
    ReplaceAllAt(s, '+', '-');
    ReplaceAllAt(ReplaceAll(s, '+', '-'), '/', '_');
  }

  /** On a base64url text (no '+' or '/'), the alphabet step is undone by its reverse. */
  lemma Base64UrlRoundTrip(s: string)
    requires '+' !in s && '/' !in s
    ensures Base64ToBase64Url(Base64UrlToBase64(s)) == s
  {
    Base64UrlToBase64At(s);
    Base64ToBase64UrlAt(Base64UrlToBase64(s));
  }

  // ---------------------------------------------------------------------------------
  // The byte-to-percent step: every code unit of atob's binary string becomes '%' and
  // its character code in base 16, padded on the left with zeros and cut to two digits.

  /** The lowercase hexadecimal digit for 0..15, as `Number.prototype.toString(16)` writes it. */
  function HexDigit(n: nat): (c: char)
    requires n < 16
  {
    if n < 10 then ('0' as int + n) as char else ('a' as int + n - 10) as char
  }

  /** `n.toString(16)`: the digits of `n` in base 16, most significant first, no padding. */
  function ToHex(n: nat): (h: string)
    ensures |h| >= 1
    ensures n < 256 ==> |h| <= 2
    decreases n
  {
    if n < 16 then [HexDigit(n)] else ToHex(n / 16) + [HexDigit(n % 16)]
  }

  /** The last two characters of `h` after prefixing two zeros. */
  function PadTwo(h: string): (r: string)
    ensures |r| == 2
    ensures |h| >= 2 ==> r == h[|h| - 2..]
    ensures |h| == 1 ==> r == ['0', h[0]]
    ensures |h| == 0 ==> r == "00"
  {
    var p := "00" + h;
    p[|p| - 2..]
  }

  /** The escape of one byte: '%' followed by its two-digit lowercase hex code. */
  function EscapeByte(b: Byte): (e: string)
    ensures |e| == 3 && e[0] == '%'
  {
    "%" + PadTwo(ToHex(b))
  }

  /** The percent-escaped form of a binary string. */
  function PercentEncode(bytes: seq<Byte>): (s: string)
    ensures |s| == 3 * |bytes|
    decreases |bytes|
  {
    if bytes == [] then [] else EscapeByte(bytes[0]) + PercentEncode(bytes[1..])
  }

  /** Every byte escapes to exactly '%', its high nibble and its low nibble, zero-padded. */
  lemma EscapeByteDigits(b: Byte)
    ensures EscapeByte(b) == ['%', HexDigit(b / 16), HexDigit(b % 16)]
  {
    var h := ToHex(b);
    if b < 16 {
      assert h == [HexDigit(b)];
      assert PadTwo(h) == ['0', HexDigit(b)];
      assert b / 16 == 0 && b % 16 == b;
    } else {
      assert ToHex(b / 16) == [HexDigit(b / 16)];
      assert h == [HexDigit(b / 16), HexDigit(b % 16)];
      assert PadTwo(h) == h;
    }
    assert EscapeByte(b) == ['%'] + PadTwo(h);
  }

  /** The `i`-th triple of a three-character head followed by `rest`. */
  lemma TripleOfAppend(e: string, rest: string, i: nat)
    requires |e| == 3 && 3 * i + 3 <= |e| + |rest|
    ensures i == 0 ==> (e + rest)[3 * i..3 * i + 3] == e
    ensures i > 0 ==> (e + rest)[3 * i..3 * i + 3] == rest[3 * (i - 1)..3 * (i - 1) + 3]
  {
  }

  /** The escaped text is three characters per byte, each triple '%' and two lowercase
      hex digits. */
  lemma {:induction false} PercentEncodeShape(bytes: seq<Byte>)
    ensures |PercentEncode(bytes)| == 3 * |bytes|
    ensures forall i :: 0 <= i < |bytes| ==>
      PercentEncode(bytes)[3 * i..3 * i + 3] == ['%', HexDigit(bytes[i] / 16), HexDigit(bytes[i] % 16)]
    decreases |bytes|
  {
    if bytes != [] {
      PercentEncodeShape(bytes[1..]);
      EscapeByteDigits(bytes[0]);
      var e, rest := EscapeByte(bytes[0]), PercentEncode(bytes[1..]);
      assert PercentEncode(bytes) == e + rest;
      forall i | 0 <= i < |bytes|
        ensures PercentEncode(bytes)[3 * i..3 * i + 3] == ['%', HexDigit(bytes[i] / 16), HexDigit(bytes[i] % 16)]
      {
        TripleOfAppend(e, rest, i);
        if i > 0 {
          assert bytes[1..][i - 1] == bytes[i];
        }
      }
    }
  }

  /** The value of a hex digit in either case, as `decodeURIComponent` reads it. */
  function HexValue(c: char): (v: Option<nat>)
    ensures v.Some? ==> v.value < 16
  {
    if '0' <= c <= '9' then Some(c as int - '0' as int)
    else if 'a' <= c <= 'f' then Some(c as int - 'a' as int + 10)
    else if 'A' <= c <= 'F' then Some(c as int - 'A' as int + 10)
    else None
  }

  /**
   * The escape-undoing half of `decodeURIComponent`, on text made only of `%hh` escapes:
   * the bytes they stand for, or None when some position is not a well-formed escape.
   */
  function PercentDecode(s: string): (r: Option<seq<Byte>>)
    ensures r.Some? ==> 3 * |r.value| == |s|
    decreases |s|
  {
    if s == [] then Some([])
    else if |s| < 3 || s[0] != '%' then None
    else match (HexValue(s[1]), HexValue(s[2]), PercentDecode(s[3..]))
      case (Some(hi), Some(lo), Some(rest)) => Some([hi * 16 + lo] + rest)
      case _ => None
  }

  lemma HexValueOfDigit(n: nat)
    requires n < 16
    ensures HexValue(HexDigit(n)) == Some(n)
  {
  }

  /** Unescaping a well-formed leading escape gives its byte, then the rest. */
  lemma DecodeHead(s: string, hi: nat, lo: nat)
    requires |s| >= 3 && s[0] == '%' && HexValue(s[1]) == Some(hi) && HexValue(s[2]) == Some(lo)
    ensures hi * 16 + lo < 256
    ensures PercentDecode(s) ==
      if PercentDecode(s[3..]).Some? then Some([hi * 16 + lo] + PercentDecode(s[3..]).value) else None
  {
  }

  /** Unescaping reads one escape back as its byte and goes on with the rest. */
  lemma DecodeEscape(b: Byte, rest: string)
    ensures PercentDecode(EscapeByte(b) + rest) ==
      if PercentDecode(rest).Some? then Some([b] + PercentDecode(rest).value) else None
  {
    var hi, lo := b / 16, b % 16;
    EscapeByteDigits(b);
    HexValueOfDigit(hi);
    HexValueOfDigit(lo);
    var s := EscapeByte(b) + rest;
    assert s == ['%', HexDigit(hi), HexDigit(lo)] + rest;
    assert s[0] == '%' && s[1] == HexDigit(hi) && s[2] == HexDigit(lo) && s[3..] == rest;
    DecodeHead(s, hi, lo);
  }

  /** Percent-escaping maps back to the same bytes. */
  lemma {:induction false} PercentRoundTrip(bytes: seq<Byte>)
    ensures PercentDecode(PercentEncode(bytes)) == Some(bytes)
    decreases |bytes|
  {
    if bytes != [] {
      PercentRoundTrip(bytes[1..]);
      DecodeEscape(bytes[0], PercentEncode(bytes[1..]));
      assert [bytes[0]] + bytes[1..] == bytes;
    }
  }

  /** `decodeURIComponent` on fully escaped text: undo the escapes, then decode UTF-8. */
  function DecodeUriComponent(rt: Runtime, s: string): (r: Option<string>)
    ensures PercentDecode(s).None? ==> r.None?
    ensures PercentDecode(s).Some? ==> r == rt.utf8Decode(PercentDecode(s).value)
  {
    match PercentDecode(s)
    case None => None
    case Some(bytes) => rt.utf8Decode(bytes)
  }

  /** The escape-then-decodeURIComponent detour is exactly a UTF-8 decode of atob's bytes. */
  lemma EscapedDecodeIsUtf8(rt: Runtime, bytes: seq<Byte>)
    ensures DecodeUriComponent(rt, PercentEncode(bytes)) == rt.utf8Decode(bytes)
  {
    PercentRoundTrip(bytes);
  }

  // ---------------------------------------------------------------------------------
  // parseToken

  /** Decode one base64url payload segment into its claims (the body of the `try`). */
  function DecodeSegment(rt: Runtime, segment: string): (r: Option<Claims>)
    ensures rt.atob(Base64UrlToBase64(segment)).None? ==> r.None?
    ensures r.Some? ==>
      && rt.atob(Base64UrlToBase64(segment)).Some?
      && rt.utf8Decode(rt.atob(Base64UrlToBase64(segment)).value).Some?
      && r == rt.jsonParse(rt.utf8Decode(rt.atob(Base64UrlToBase64(segment)).value).value)
  {
    match rt.atob(Base64UrlToBase64(segment))
    case None => None
    case Some(bytes) =>
      EscapedDecodeIsUtf8(rt, bytes);
      match DecodeUriComponent(rt, PercentEncode(bytes))
      case None => None
      case Some(json) => rt.jsonParse(json)
  }

  /** The payload a well-formed segment decodes to: the JSON parse of the UTF-8 text of the
      base64 bytes. */
  lemma DecodeSegmentMeaning(rt: Runtime, segment: string)
    ensures DecodeSegment(rt, segment) ==
      match rt.atob(Base64UrlToBase64(segment))
      case None => None
      case Some(bytes) =>
        match rt.utf8Decode(bytes)
        case None => None
        case Some(json) => rt.jsonParse(json)
  {
    match rt.atob(Base64UrlToBase64(segment))
    case None =>
    case Some(bytes) => EscapedDecodeIsUtf8(rt, bytes);
  }

  /**
   * `parseToken(token)`: null for an empty token, for fewer than three '.'-separated
   * segments and for an empty segment 1; otherwise the decoded segment 1 (any segments
   * after the third are ignored). Failures inside the decoder are caught and give null.
   */
  function ParseToken(rt: Runtime, token: string): (r: Option<Claims>)
    ensures token == "" ==> r == None
    ensures Count(token, '.') < 2 ==> r == None
    ensures r.Some? ==> |Split(token, '.')| >= 3 && Split(token, '.')[1] != "" &&
                        r == DecodeSegment(rt, Split(token, '.')[1])
  {
    SplitShape(token, '.');
    if token == "" then None
    else
      var parts := Split(token, '.');
      if |parts| < 3 then None
      else if parts[1] == "" then None
      else DecodeSegment(rt, parts[1])
  }

  /** For a compact serialisation `header.payload.rest`, only the payload segment is read,
      whatever `rest` holds (more dots included). */
  lemma ParseCompact(rt: Runtime, header: string, payload: string, rest: string)
    requires '.' !in header && '.' !in payload && payload != ""
    ensures ParseToken(rt, header + "." + payload + "." + rest) == DecodeSegment(rt, payload)
  {
    var token := header + "." + payload + "." + rest;
    SplitPrefix(payload, '.', rest);
    assert token == header + ['.'] + (payload + "." + rest);
    SplitPrefix(header, '.', payload + "." + rest);
    assert Split(token, '.') == [header, payload] + Split(rest, '.');
  }

  /** An empty payload segment is rejected, whatever follows. */
  lemma ParseEmptyPayload(rt: Runtime, header: string, rest: string)
    requires '.' !in header
    ensures ParseToken(rt, header + ".." + rest) == None
  {
    var token := header + ".." + rest;
    SplitPrefix([], '.', rest);
    assert token == header + ['.'] + ([] + "." + rest);
    SplitPrefix(header, '.', [] + "." + rest);
    assert Split(token, '.')[1] == [];
  }

  // ---------------------------------------------------------------------------------
  // isTokenExpired

  /**
   * `isTokenExpired(token)` at wall-clock time `nowMs` (milliseconds since the epoch): an
   * empty or unparsable token is expired; otherwise `exp < now` in seconds. A payload
   * without a numeric `exp` compares `undefined < now`, which is false: never expired.
   */
  predicate IsTokenExpired(rt: Runtime, token: string, nowMs: int)
    ensures IsTokenExpired(rt, token, nowMs) <==>
      ParseToken(rt, token).None? ||
      (ParseToken(rt, token).value.exp.Some? && ParseToken(rt, token).value.exp.value * 1000 < nowMs)
  {
    if token == "" then true
    else match ParseToken(rt, token)
      case None => true
      case Some(claims) => claims.exp.Some? && claims.exp.value * 1000 < nowMs
  }

  /** A token that cannot be read is treated as expired, at every time. */
  lemma UnreadableIsExpired(rt: Runtime, token: string, nowMs: int)
    requires token == "" || Count(token, '.') < 2 || ParseToken(rt, token).None?
    ensures IsTokenExpired(rt, token, nowMs)
  {
  }

  /** The boundary of expiry: a token whose `exp` is `e` seconds is still valid at the
      millisecond `e * 1000` and expired one millisecond later. */
  lemma ExpiryBoundary(rt: Runtime, token: string, e: int)
    requires ParseToken(rt, token).Some? && ParseToken(rt, token).value.exp == Some(e)
    ensures !IsTokenExpired(rt, token, e * 1000)
    ensures IsTokenExpired(rt, token, e * 1000 + 1)
  {
  }

  /** Once expired, a token stays expired as time goes on. */
  lemma ExpiryMonotone(rt: Runtime, token: string, nowMs: int, laterMs: int)
    requires nowMs <= laterMs
    requires IsTokenExpired(rt, token, nowMs)
    ensures IsTokenExpired(rt, token, laterMs)
  {
  }

  /** The subject claim of a parsed token, when the token parses and the claim is a
      non-empty string. */
  function SubjectOf(rt: Runtime, token: string): (r: Option<string>)
    ensures r.Some? ==> r.value != "" && ParseToken(rt, token).Some? && ParseToken(rt, token).value.sub == r
    ensures ParseToken(rt, token).Some? && Truthy(ParseToken(rt, token).value.sub) ==> r.Some?
  {
    match ParseToken(rt, token)
    case None => None
    case Some(claims) => if Truthy(claims.sub) then claims.sub else None
  }
}
