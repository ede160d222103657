/** `parseIntWithFallback` of `utils/index.ts`: `Number.parseInt(input, 10) || fallback`.
    `ParseInt` follows section 19.2.5 of ECMA-262 for radix 10, and `ParseIntNoRadix` the
    same section with the radix left out, where a `0x`/`0X` prefix selects radix 16; `||`
    falls back on every falsy number (section 7.1.2 of ECMA-262), which for a parse result
    means NaN, +0 and -0. */
module ParseInt {

  /** StrWhiteSpaceChar: the WhiteSpace and LineTerminator code points (sections 12.2
      and 12.3 of ECMA-262; the Zs category written out). */
  predicate IsStrWhiteSpace(c: char) {
    c == '\t' || c == '\U{B}' || c == '\U{C}' || c == ' ' || c == '\U{A0}' || c == '\U{FEFF}'
    || c == '\U{1680}' || ('\U{2000}' <= c <= '\U{200A}') || c == '\U{202F}' || c == '\U{205F}'
    || c == '\U{3000}' || c == '\n' || c == '\r' || c == '\U{2028}' || c == '\U{2029}'
  }

  predicate IsDigit(c: char) { '0' <= c <= '9' }

  predicate AllDigits(d: string) { forall i :: 0 <= i < |d| ==> IsDigit(d[i]) }

  predicate AllWhiteSpace(s: string) { forall i :: 0 <= i < |s| ==> IsStrWhiteSpace(s[i]) }

  /** TrimString(s, start): drop the leading white space. */
  function TrimStart(s: string): string {
    if s != [] && IsStrWhiteSpace(s[0]) then TrimStart(s[1..]) else s
  }

  /** What trimming keeps: a suffix that does not start with white space, after a prefix
      that is white space only. */
  lemma {:induction false} TrimStartSpec(s: string)
    ensures |TrimStart(s)| <= |s| && TrimStart(s) == s[|s| - |TrimStart(s)|..]
    ensures TrimStart(s) == [] || !IsStrWhiteSpace(TrimStart(s)[0])
    ensures AllWhiteSpace(s[..|s| - |TrimStart(s)|])
  {
    if s != [] && IsStrWhiteSpace(s[0]) {
      TrimStartSpec(s[1..]);
      var k := |s| - |TrimStart(s)|;
      assert s[..k] == [s[0]] + s[1..][..k - 1];
    }
  }

  /** The longest prefix of decimal digits. */
  function LeadingDigits(s: string): (r: string)
    ensures AllDigits(r)
  {
    if s != [] && IsDigit(s[0]) then [s[0]] + LeadingDigits(s[1..]) else []
  }

  /** What the digit scan keeps: a prefix of digits followed by the end or a non-digit. */
  lemma {:induction false} LeadingDigitsSpec(s: string)
    ensures |LeadingDigits(s)| <= |s| && LeadingDigits(s) == s[..|LeadingDigits(s)|]
    ensures |LeadingDigits(s)| == |s| || !IsDigit(s[|LeadingDigits(s)|])
  {
    if s != [] && IsDigit(s[0]) {
      LeadingDigitsSpec(s[1..]);
    }
  }

  /** The mathematical value of a run of decimal digits. */
  function DigitsValue(d: string): nat
    requires AllDigits(d)
  {
    if d == [] then 0
    else
      assert IsDigit(d[|d| - 1]);
      DigitsValue(d[..|d| - 1]) * 10 + (d[|d| - 1] as int - '0' as int)
  }

  /** A parse result. +0 and -0 are both `Int(0)`: they are equally falsy. */
  datatype Number = NaN | Int(value: int)

  /** The sign and digits that remain once white space is trimmed and a sign removed. */
  function Unsigned(input: string): string {
    var s := TrimStart(input);
    if s != [] && (s[0] == '+' || s[0] == '-') then s[1..] else s
  }

  predicate IsNegative(input: string) {
    var s := TrimStart(input);
    s != [] && s[0] == '-'
  }

  /** `Number.parseInt(input, 10)`. */
  function ParseInt(input: string): (r: Number)
  {
    var z := LeadingDigits(Unsigned(input));
    if z == [] then NaN
    else Int(if IsNegative(input) then -(DigitsValue(z) as int) else DigitsValue(z))
  }

  /** parseInt gives NaN exactly when no digit follows the white space and the sign. */
  lemma ParseIntNaN(input: string)
    ensures ParseInt(input).NaN? <==> Unsigned(input) == [] || !IsDigit(Unsigned(input)[0])
  {
  }

  /** `Number.parseInt(input, 10) || fallback`. */
  function ParseIntWithFallback(input: string, fallback: int): (r: int)
    ensures ParseInt(input).NaN? ==> r == fallback
    ensures ParseInt(input).Int? && ParseInt(input).value == 0 ==> r == fallback
    ensures ParseInt(input).Int? && ParseInt(input).value != 0 ==> r == ParseInt(input).value
    ensures r == 0 ==> fallback == 0
  {
    match ParseInt(input)
    case NaN => fallback
    case Int(v) => if v == 0 then fallback else v
  }

  lemma {:induction false} TrimStartSkips(ws: string, s: string)
    requires AllWhiteSpace(ws)
    requires s == [] || !IsStrWhiteSpace(s[0])
    ensures TrimStart(ws + s) == s
    decreases |ws|
  {
    if ws != [] {
      assert (ws + s)[1..] == ws[1..] + s;
      TrimStartSkips(ws[1..], s);
    }
  }

  lemma {:induction false} LeadingDigitsOf(digits: string, rest: string)
    requires AllDigits(digits)
    requires rest == [] || !IsDigit(rest[0])
    ensures LeadingDigits(digits + rest) == digits
    decreases |digits|
  {
    if digits != [] {
      assert (digits + rest)[0] == digits[0];
      assert (digits + rest)[1..] == digits[1..] + rest;
      LeadingDigitsOf(digits[1..], rest);
      assert [digits[0]] + digits[1..] == digits;
    } else {
      assert digits + rest == rest;
    }
  }

  /** The optional sign in front of the digits. */
  datatype Sign = NoSign | Plus | Minus {
    function Text(): string {
      match this
      case NoSign => ""
      case Plus => "+"
      case Minus => "-"
    }
  }

  /** Trimming and sign removal leave the digits and what follows them. */
  lemma UnsignedOf(ws: string, sign: Sign, body: string)
    requires AllWhiteSpace(ws)
    requires body != [] && IsDigit(body[0])
    ensures Unsigned(ws + sign.Text() + body) == body
  {
    var signed := sign.Text() + body;
    assert ws + sign.Text() + body == ws + signed;
    TrimStartSkips(ws, signed);
    if sign != NoSign {
      assert signed[1..] == body;
    }
  }

  /** The value is negative exactly when the sign is `-`. */
  lemma IsNegativeOf(ws: string, sign: Sign, body: string)
    requires AllWhiteSpace(ws)
    requires body != [] && IsDigit(body[0])
    ensures IsNegative(ws + sign.Text() + body) <==> sign == Minus
  {
    var signed := sign.Text() + body;
    assert ws + sign.Text() + body == ws + signed;
    TrimStartSkips(ws, signed);
  }

  /** White space, an optional sign, a run of digits and anything that is not a digit:
      the value is the signed value of the digits, and the trailing text is ignored. */
  lemma ParseIntOf(ws: string, sign: Sign, digits: string, rest: string)
    requires AllWhiteSpace(ws)
    requires digits != [] && AllDigits(digits)
    requires rest == [] || !IsDigit(rest[0])
    ensures ParseInt(ws + sign.Text() + digits + rest)
         == Int(if sign == Minus then -(DigitsValue(digits) as int) else DigitsValue(digits))
  {
    assert ws + sign.Text() + digits + rest == ws + sign.Text() + (digits + rest);
    UnsignedOf(ws, sign, digits + rest);
    IsNegativeOf(ws, sign, digits + rest);
    LeadingDigitsOf(digits, rest);
  }

  /** A run made only of zeros has the value 0. */
  lemma {:induction false} ZerosValue(d: string)
    requires forall i :: 0 <= i < |d| ==> d[i] == '0'
    ensures DigitsValue(d) == 0
    decreases |d|
  {
    if d != [] {
      ZerosValue(d[..|d| - 1]);
    }
  }

  /** `"0"`, `"-0"` and `"00abc"` parse to zero, which `||` replaces by the fallback. */
  lemma ZeroFallsBack(ws: string, sign: Sign, zeros: string, rest: string, fallback: int)
    requires AllWhiteSpace(ws)
    requires zeros != [] && forall i :: 0 <= i < |zeros| ==> zeros[i] == '0'
    requires rest == [] || !IsDigit(rest[0])
    ensures ParseIntWithFallback(ws + sign.Text() + zeros + rest, fallback) == fallback
  {
    ParseIntOf(ws, sign, zeros, rest);
    ZerosValue(zeros);
  }

  /** `parseIntWithFallback("12px", f)` is 12. */
  lemma TrailingTextIgnored(fallback: int)
    ensures ParseIntWithFallback("12px", fallback) == 12
  {
    ParseIntOf("", NoSign, "12", "px");
    assert "" + NoSign.Text() + "12" + "px" == "12px";
    assert DigitsValue("12") == 12 by {
      assert "12"[..1] == "1";
      assert DigitsValue("1") == 1 by { assert "1"[..0] == ""; }
    }
  }

  // ---------------------------------------------------------------------------------
  // `parseInt(input)` with no radix: a `0x` or `0X` after the sign selects radix 16.

  predicate IsHexDigit(c: char) { IsDigit(c) || ('a' <= c <= 'f') || ('A' <= c <= 'F') }

  predicate AllHexDigits(d: string) { forall i :: 0 <= i < |d| ==> IsHexDigit(d[i]) }

  function HexDigitValue(c: char): (v: nat)
    requires IsHexDigit(c)
    ensures v < 16
  {
    if IsDigit(c) then c as int - '0' as int
    else if 'a' <= c <= 'f' then c as int - 'a' as int + 10
    else c as int - 'A' as int + 10
  }

  /** The longest prefix of hexadecimal digits. */
  function LeadingHexDigits(s: string): (r: string)
    ensures AllHexDigits(r)
  {
    if s != [] && IsHexDigit(s[0]) then [s[0]] + LeadingHexDigits(s[1..]) else []
  }

  /** The mathematical value of a run of hexadecimal digits. */
  function HexValue(d: string): nat
    requires AllHexDigits(d)
  {
    if d == [] then 0
    else
      assert IsHexDigit(d[|d| - 1]);
      HexValue(d[..|d| - 1]) * 16 + HexDigitValue(d[|d| - 1])
  }

  predicate HasHexPrefix(s: string) {
    |s| >= 2 && s[0] == '0' && (s[1] == 'x' || s[1] == 'X')
  }

  /** `parseInt(input)`: the prefix is stripped and the rest read in radix 16; without the
      prefix it reads as radix 10. A prefix with no hex digit after it is NaN. */
  function ParseIntNoRadix(input: string): (r: Number)
    ensures !HasHexPrefix(Unsigned(input)) ==> r == ParseInt(input)
    ensures r.Int? && HasHexPrefix(Unsigned(input)) ==> (r.value < 0 <==> IsNegative(input) && r.value != 0)
  {
    var body := Unsigned(input);
    if HasHexPrefix(body) then
      var z := LeadingHexDigits(body[2..]);
      if z == [] then NaN
      else Int(if IsNegative(input) then -(HexValue(z) as int) else HexValue(z))
    else ParseInt(input)
  }

  lemma {:induction false} LeadingHexDigitsOf(digits: string, rest: string)
    requires AllHexDigits(digits)
    requires rest == [] || !IsHexDigit(rest[0])
    ensures LeadingHexDigits(digits + rest) == digits
    decreases |digits|
  {
    if digits != [] {
      assert (digits + rest)[0] == digits[0];
      assert (digits + rest)[1..] == digits[1..] + rest;
      LeadingHexDigitsOf(digits[1..], rest);
      assert [digits[0]] + digits[1..] == digits;
    } else {
      assert digits + rest == rest;
    }
  }

  /** White space, an optional sign, `0x` or `0X`, hex digits and anything that is not a
      hex digit: the value is the signed value of the hex digits. */
  lemma HexParseOf(ws: string, sign: Sign, x: char, digits: string, rest: string)
    requires AllWhiteSpace(ws)
    requires x == 'x' || x == 'X'
    requires digits != [] && AllHexDigits(digits)
    requires rest == [] || !IsHexDigit(rest[0])
    ensures ParseIntNoRadix(ws + sign.Text() + ['0', x] + digits + rest)
         == Int(if sign == Minus then -(HexValue(digits) as int) else HexValue(digits))
  {
    var body := ['0', x] + digits + rest;
    assert ws + sign.Text() + ['0', x] + digits + rest == ws + sign.Text() + body;
    UnsignedOf(ws, sign, body);
    IsNegativeOf(ws, sign, body);
    assert body[2..] == digits + rest;
    LeadingHexDigitsOf(digits, rest);
  }

  /** Without the prefix, leaving the radix out reads the same as radix 10. */
  lemma NoRadixDecimal(ws: string, sign: Sign, digits: string, rest: string)
    requires AllWhiteSpace(ws)
    requires digits != [] && AllDigits(digits)
    requires rest == [] || !IsDigit(rest[0])
    requires !HasHexPrefix(digits + rest)
    ensures ParseIntNoRadix(ws + sign.Text() + digits + rest) == ParseInt(ws + sign.Text() + digits + rest)
    ensures ParseIntNoRadix(ws + sign.Text() + digits + rest)
         == Int(if sign == Minus then -(DigitsValue(digits) as int) else DigitsValue(digits))
  {
    assert ws + sign.Text() + digits + rest == ws + sign.Text() + (digits + rest);
    UnsignedOf(ws, sign, digits + rest);
    ParseIntOf(ws, sign, digits, rest);
  }

  /** `parseInt("0x64")` is 100, where `Number.parseInt("0x64", 10)` is 0. */
  lemma HexPrefixDiffers()
    ensures ParseIntNoRadix("0x64") == Int(100)
    ensures ParseInt("0x64") == Int(0)
  {
    HexParseOf("", NoSign, 'x', "64", "");
    assert "" + NoSign.Text() + ['0', 'x'] + "64" + "" == "0x64";
    assert HexValue("64") == 100 by {
      assert "64"[..1] == "6";
      assert HexValue("6") == 6 by { assert "6"[..0] == ""; }
    }
    ParseIntOf("", NoSign, "0", "x64");
    assert "" + NoSign.Text() + "0" + "x64" == "0x64";
    assert DigitsValue("0") == 0 by { assert "0"[..0] == ""; }
  }

  /** `Number.prototype.toString()` for an integer: its shortest decimal digits. */
  function Decimal(n: nat): string
    decreases n
  {
    var last := [('0' as int + n % 10) as char];
    if n < 10 then last else Decimal(n / 10) + last
  }

  /** The decimal digits of `n` are a non-empty digit run whose value is `n`. */
  lemma {:induction false} DecimalValue(n: nat)
    ensures Decimal(n) != [] && AllDigits(Decimal(n)) && DigitsValue(Decimal(n)) == n
    decreases n
  {
    var d := Decimal(n);
    var last := [('0' as int + n % 10) as char];
    if n >= 10 {
      DecimalValue(n / 10);
      assert d[..|d| - 1] == Decimal(n / 10);
    }
    assert d[|d| - 1] == last[0];
  }

  /** How a template literal renders a parse result. */
  function NumberText(x: Number): string {
    match x
    case NaN => "NaN"
    case Int(v) => if v < 0 then "-" + Decimal(-v) else Decimal(v)
  }

  /** `"NaN"` does not start with a digit. */
  lemma NaNTextIsNaN()
    ensures ParseInt("NaN") == NaN
  {
    assert TrimStart("NaN") == "NaN";
    assert LeadingDigits("NaN") == "";
  }

  lemma SignedDigitsParse(d: string, sign: Sign)
    requires d != [] && AllDigits(d)
    ensures ParseInt(sign.Text() + d) == Int(if sign == Minus then -(DigitsValue(d) as int) else DigitsValue(d))
  {
    ParseIntOf("", sign, d, "");
    assert "" + sign.Text() + d + "" == sign.Text() + d;
  }

  /** Rendering a parse result and parsing it again gives the same result. */
  lemma ParseIntOfText(x: Number)
    ensures ParseInt(NumberText(x)) == x
  {
    match x
    case NaN => NaNTextIsNaN();
    case Int(v) =>
      var n: nat := if v < 0 then -v else v;
      DecimalValue(n);
      if v < 0 {
        SignedDigitsParse(Decimal(n), Minus);
      } else {
        SignedDigitsParse(Decimal(n), NoSign);
        assert NoSign.Text() + Decimal(n) == Decimal(n);
      }
  }
}
