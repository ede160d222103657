/** `encodeURIComponent` (section 19.2.6.5 of ECMA-262), which the endpoint paths of
    `services/api.ts` apply to an object key, and the percent-decoding plus UTF-8
    decoding a server applies to the path it receives. `Decode(Encode(s)) == Some(s)`
    shows that the key reaches the backend intact. */
module UriComponent {
  import opened Wrappers

  /** The characters `encodeURIComponent` leaves alone: ASCII letters, digits and `-_.!~*'()`. */
  predicate Unreserved(c: char) {
    ('A' <= c <= 'Z') || ('a' <= c <= 'z') || ('0' <= c <= '9') || c in "-_.!~*'()"
  }

  /** An upper-case hexadecimal digit. */
  function HexDigit(d: int): (c: char)
    requires 0 <= d < 16
    ensures IsHexDigit(c)
  {
    if d < 10 then ('0' as int + d) as char else ('A' as int + d - 10) as char
  }

  predicate IsHexDigit(c: char) { ('0' <= c <= '9') || ('A' <= c <= 'F') }

  /** `%XY` with upper-case hexadecimal digits. */
  function Escape(b: int): (r: string)
    requires 0 <= b < 256
    ensures |r| == 3 && r[0] == '%' && IsHexDigit(r[1]) && IsHexDigit(r[2])
  {
    ['%', HexDigit(b / 16), HexDigit(b % 16)]
  }

  /** The UTF-8 encoding of one Unicode scalar value. */
  function Utf8(c: char): (bs: seq<int>)
    ensures 1 <= |bs| <= 4
    ensures forall i :: 0 <= i < |bs| ==> 0 <= bs[i] < 256
  {
    var n := c as int;
    if n < 0x80 then [n]
    else if n < 0x800 then [0xC0 + n / 64, 0x80 + n % 64]
    else if n < 0x10000 then [0xE0 + n / 64 / 64, 0x80 + n / 64 % 64, 0x80 + n % 64]
    else [0xF0 + n / 64 / 64 / 64, 0x80 + n / 64 / 64 % 64, 0x80 + n / 64 % 64, 0x80 + n % 64]
  }

  function EscapeAll(bs: seq<int>): (r: string)
    requires forall i :: 0 <= i < |bs| ==> 0 <= bs[i] < 256
    ensures |r| == 3 * |bs|
    decreases |bs|
  {
    if bs == [] then [] else Escape(bs[0]) + EscapeAll(bs[1..])
  }

  function EncodeChar(c: char): (r: string)
    ensures 1 <= |r| <= 12
  {
    if Unreserved(c) then [c] else EscapeAll(Utf8(c))
  }

  /** `encodeURIComponent(s)`. */
  function Encode(s: string): (r: string)
    ensures |s| <= |r| <= 12 * |s|
    decreases |s|
  {
    if s == [] then [] else EncodeChar(s[0]) + Encode(s[1..])
  }

  /** Every character of an encoded string is unreserved, `%` or a hexadecimal digit;
      in particular a key never contributes a `/` to a path. */
  lemma {:induction false} EncodeAlphabet(s: string)
    ensures forall c :: c in Encode(s) ==> Unreserved(c) || c == '%' || IsHexDigit(c)
    decreases |s|
  {
    if s != [] {
      EncodeAlphabet(s[1..]);
      EscapeAllAlphabet(Utf8(s[0]));
    }
  }

  lemma {:induction false} EscapeAllAlphabet(bs: seq<int>)
    requires forall i :: 0 <= i < |bs| ==> 0 <= bs[i] < 256
    ensures forall c :: c in EscapeAll(bs) ==> c == '%' || IsHexDigit(c)
    decreases |bs|
  {
    if bs != [] {
      EscapeAllAlphabet(bs[1..]);
    }
  }

  lemma EncodeHasNoSlash(s: string)
    ensures '/' !in Encode(s)
  {
    EncodeAlphabet(s);
  }

  /** A string made only of unreserved characters is its own encoding. */
  lemma {:induction false} EncodeUnreserved(s: string)
    requires forall i :: 0 <= i < |s| ==> Unreserved(s[i])
    ensures Encode(s) == s
    decreases |s|
  {
    if s != [] {
      EncodeUnreserved(s[1..]);
    }
  }

  // ---------------------------------------------------------------- decoding

  function HexValue(c: char): Option<int> {
    if '0' <= c <= '9' then Some(c as int - '0' as int)
    else if 'A' <= c <= 'F' then Some(c as int - 'A' as int + 10)
    else if 'a' <= c <= 'f' then Some(c as int - 'a' as int + 10)
    else None
  }

  /** Percent-decoding into bytes; ASCII characters stand for themselves. */
  function PercentDecode(s: string): Option<seq<int>>
    decreases |s|
  {
    if s == [] then Some([])
    else if s[0] == '%' then
      if |s| >= 3 && HexValue(s[1]).Some? && HexValue(s[2]).Some? then
        match PercentDecode(s[3..])
        case None => None
        case Some(rest) => Some([HexValue(s[1]).value * 16 + HexValue(s[2]).value] + rest)
      else None
    else if s[0] as int < 0x80 then
      match PercentDecode(s[1..])
      case None => None
      case Some(rest) => Some([s[0] as int] + rest)
    else None
  }

  predicate IsContinuation(b: int) { 0x80 <= b < 0xC0 }

  predicate IsScalar(n: int) { 0 <= n < 0xD800 || 0xE000 <= n < 0x110000 }

  /** The length of the UTF-8 sequence a lead byte opens, or 0 for an invalid lead byte. */
  function LeadLength(b: int): nat {
    if 0 <= b < 0x80 then 1
    else if 0xC0 <= b < 0xE0 then 2
    else if 0xE0 <= b < 0xF0 then 3
    else if 0xF0 <= b < 0xF8 then 4
    else 0
  }

  function CodePoint(bs: seq<int>): int
    requires 1 <= |bs| <= 4
  {
    if |bs| == 1 then bs[0]
    else if |bs| == 2 then (bs[0] - 0xC0) * 64 + (bs[1] - 0x80)
    else if |bs| == 3 then ((bs[0] - 0xE0) * 64 + (bs[1] - 0x80)) * 64 + (bs[2] - 0x80)
    else (((bs[0] - 0xF0) * 64 + (bs[1] - 0x80)) * 64 + (bs[2] - 0x80)) * 64 + (bs[3] - 0x80)
  }

  /** UTF-8 decoding of a byte sequence, failing on a malformed sequence. */
  function Utf8Decode(bs: seq<int>): Option<string>
    decreases |bs|
  {
    if bs == [] then Some([])
    else
      var n := LeadLength(bs[0]);
      if n == 0 || |bs| < n || (exists i :: 1 <= i < n && !IsContinuation(bs[i])) then None
      else
        var cp := CodePoint(bs[..n]);
        if !IsScalar(cp) then None
        else
          match Utf8Decode(bs[n..])
          case None => None
          case Some(rest) => Some([cp as char] + rest)
  }

  /** Percent-decoding followed by UTF-8 decoding. */
  function Decode(s: string): Option<string> {
    match PercentDecode(s)
    case None => None
    case Some(bs) => Utf8Decode(bs)
  }

  /** The UTF-8 encoding of a whole string. */
  function Utf8All(s: string): (bs: seq<int>)
    ensures forall i :: 0 <= i < |bs| ==> 0 <= bs[i] < 256
    decreases |s|
  {
    if s == [] then [] else Utf8(s[0]) + Utf8All(s[1..])
  }

  lemma Utf8Shape(c: char)
    ensures LeadLength(Utf8(c)[0]) == |Utf8(c)|
    ensures forall i :: 1 <= i < |Utf8(c)| ==> IsContinuation(Utf8(c)[i])
    ensures CodePoint(Utf8(c)) == c as int
  {
    var n := c as int;
    assert n == n / 64 * 64 + n % 64;
    assert n / 64 == n / 64 / 64 * 64 + n / 64 % 64;
    assert n / 64 / 64 == n / 64 / 64 / 64 * 64 + n / 64 / 64 % 64;
  }

  /** One encoded character decodes back to that character. */
  lemma Utf8DecodeChar(c: char, rest: seq<int>)
    ensures Utf8Decode(Utf8(c) + rest) ==
      match Utf8Decode(rest)
      case None => None
      case Some(t) => Some([c] + t)
  {
    var bs := Utf8(c) + rest;
    var n := |Utf8(c)|;
    Utf8Shape(c);
    assert bs[..n] == Utf8(c);
    assert bs[n..] == rest;
    assert forall i :: 1 <= i < n ==> bs[i] == Utf8(c)[i];
  }

  lemma {:induction false} Utf8RoundTrip(s: string)
    ensures Utf8Decode(Utf8All(s)) == Some(s)
    decreases |s|
  {
    if s != [] {
      Utf8RoundTrip(s[1..]);
      Utf8DecodeChar(s[0], Utf8All(s[1..]));
      assert [s[0]] + s[1..] == s;
    }
  }

  lemma HexRoundTrip(b: int)
    requires 0 <= b < 256
    ensures HexValue(HexDigit(b / 16)) == Some(b / 16) && HexValue(HexDigit(b % 16)) == Some(b % 16)
  {
  }

  lemma {:induction false} PercentDecodeEscapes(bs: seq<int>, rest: string)
    requires forall i :: 0 <= i < |bs| ==> 0 <= bs[i] < 256
    ensures PercentDecode(EscapeAll(bs) + rest) ==
      match PercentDecode(rest)
      case None => None
      case Some(t) => Some(bs + t)
    decreases |bs|
  {
    if bs != [] {
      var s := EscapeAll(bs) + rest;
      var tail := EscapeAll(bs[1..]) + rest;
      assert s == Escape(bs[0]) + tail;
      assert s[0] == '%' && s[3..] == tail;
      assert s[1] == HexDigit(bs[0] / 16) && s[2] == HexDigit(bs[0] % 16);
      assert bs[0] == bs[0] / 16 * 16 + bs[0] % 16;
      HexRoundTrip(bs[0]);
      PercentDecodeEscapes(bs[1..], rest);
      match PercentDecode(rest) {
        case None =>
        case Some(t) => assert [bs[0]] + (bs[1..] + t) == bs + t;
      }
    } else {
      assert EscapeAll(bs) + rest == rest;
      match PercentDecode(rest) {
        case None =>
        case Some(t) => assert bs + t == t;
      }
    }
  }

  lemma {:induction false} PercentDecodeEncode(s: string)
    ensures PercentDecode(Encode(s)) == Some(Utf8All(s))
    decreases |s|
  {
    if s != [] {
      PercentDecodeEncode(s[1..]);
      if Unreserved(s[0]) {
        assert Encode(s) == [s[0]] + Encode(s[1..]);
        assert Encode(s)[1..] == Encode(s[1..]);
      } else {
        PercentDecodeEscapes(Utf8(s[0]), Encode(s[1..]));
      }
    }
  }

  /** The round trip: decoding an encoded key gives the key back. */
  lemma DecodeEncode(s: string)
    ensures Decode(Encode(s)) == Some(s)
  {
    PercentDecodeEncode(s);
    Utf8RoundTrip(s);
  }

  /** Hence distinct keys never share an encoding. */
  lemma EncodeInjective(s: string, t: string)
    requires Encode(s) == Encode(t)
    ensures s == t
  {
    DecodeEncode(s);
    DecodeEncode(t);
  }
}
