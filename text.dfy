/** The conversions between integers, bytes and text that the handler
    relies on: `str(n)` for an integer, `int(s)` for text or bytes, and
    `str(b)` for a byte string. */
module Text {
  import opened Wrappers

  type byte = b: int | 0 <= b < 256

  predicate IsDigit(c: char) {
    '0' <= c <= '9'
  }

  function DigitChar(d: int): (c: char)
    requires 0 <= d < 10
    ensures IsDigit(c) && (c as int) - ('0' as int) == d
  {
    ('0' as int + d) as char
  }

  predicate EndsWith(s: string, suffix: string) {
    |suffix| <= |s| && s[|s| - |suffix|..] == suffix
  }

  // ---------------------------------------------------------------
  // str(n) for an integer n
  // ---------------------------------------------------------------

  /** Decimal digits of `n`, most significant first, without leading zeros. */
  function NatToString(n: nat): (s: string)
    ensures |s| >= 1 && forall k :: 0 <= k < |s| ==> IsDigit(s[k])
    ensures s[0] == '0' ==> n == 0
  {
    if n < 10 then [DigitChar(n)] else NatToString(n / 10) + [DigitChar(n % 10)]
  }

  /** Python's `str(n)`: a minus sign for negative numbers, then the digits. */
  function IntToString(n: int): (s: string)
    ensures |s| >= 1
    ensures (s[0] == '-') == (n < 0)
  {
    if n < 0 then "-" + NatToString(-n) else NatToString(n)
  }

  // ---------------------------------------------------------------
  // int(s) for text
  // ---------------------------------------------------------------

  /** The characters Python's `int()` strips (ASCII whitespace). */
  predicate IsSpace(c: char) {
    c == ' ' || c == '\t' || c == '\n' || c == '\r' || c == 11 as char || c == 12 as char
  }

  function TrimStart(s: string): (r: string)
    ensures |r| <= |s| && r == s[|s| - |r|..]
    ensures r == [] || !IsSpace(r[0])
    ensures forall k :: 0 <= k < |s| - |r| ==> IsSpace(s[k])
  {
    if s != [] && IsSpace(s[0]) then TrimStart(s[1..]) else s
  }

  function TrimEnd(s: string): (r: string)
    ensures |r| <= |s| && r == s[..|r|]
    ensures r == [] || !IsSpace(r[|r| - 1])
    ensures forall k :: |r| <= k < |s| ==> IsSpace(s[k])
  {
    if s != [] && IsSpace(s[|s| - 1]) then TrimEnd(s[..|s| - 1]) else s
  }

  /** A literal of base-10 digits in which single underscores may separate digits. */
  predicate IsDigitLiteral(b: string) {
    && |b| > 0
    && IsDigit(b[0])
    && IsDigit(b[|b| - 1])
    && (forall k :: 0 <= k < |b| ==> IsDigit(b[k]) || b[k] == '_')
    && (forall k :: 0 <= k < |b| - 1 ==> IsDigit(b[k]) || IsDigit(b[k + 1]))
  }

  /** The number a digit literal denotes; underscores are skipped. */
  function LiteralValue(b: string): nat
    requires forall k :: 0 <= k < |b| ==> IsDigit(b[k]) || b[k] == '_'
  {
    if b == [] then 0
    else
      var last := b[|b| - 1];
      assert IsDigit(last) || last == '_';
      if last == '_' then LiteralValue(b[..|b| - 1])
      else LiteralValue(b[..|b| - 1]) * 10 + ((last as int) - ('0' as int))
  }

  /** Python's `int(s)` on ASCII text: surrounding whitespace, an optional
      sign, then a digit literal; None where Python raises ValueError. */
  function ParseInt(s: string): (r: Option<int>)
    ensures r.Some? ==> exists k :: 0 <= k < |s| && IsDigit(s[k])
  {
    var u := TrimStart(s);
    var t := TrimEnd(u);
    assert forall k :: 0 <= k < |t| ==> t[k] == s[|s| - |u| + k];
    ParseStripped(t)
  }

  /** `int()` on text with no white space around it: an optional sign,
      then a digit literal. */
  function ParseStripped(t: string): (r: Option<int>)
    ensures r.Some? ==> exists k :: 0 <= k < |t| && IsDigit(t[k])
  {
    var negative := |t| > 0 && t[0] == '-';
    var body := if |t| > 0 && (t[0] == '-' || t[0] == '+') then t[1..] else t;
    if IsDigitLiteral(body) then
      assert IsDigit(body[0]);
      assert body[0] in t;
      Some(if negative then -(LiteralValue(body) as int) else LiteralValue(body) as int)
    else None
  }

  // ---------------------------------------------------------------
  // int(s) for text beyond ASCII
  // ---------------------------------------------------------------

  /** The characters from U+007F up that `str.isspace` accepts. */
  predicate IsWideSpace(c: char) {
    || c == 0x85 as char || c == 0xA0 as char || c == 0x1680 as char
    || (0x2000 as char <= c <= 0x200A as char)
    || c == 0x2028 as char || c == 0x2029 as char || c == 0x202F as char
    || c == 0x205F as char || c == 0x3000 as char
  }

  /** The digit zero of the run of ten decimal digits (general category Nd
      of Unicode 15.0, beyond ASCII) that holds code point `x`, if any. */
  function DigitRun(x: int): (z: Option<int>)
    ensures z.Some? ==> z.value <= x < z.value + 10
  {
    if x < 0x0660 then None else if x < 0x066A then Some(0x0660)
    else if x < 0x06F0 then None else if x < 0x06FA then Some(0x06F0)
    else if x < 0x07C0 then None else if x < 0x07CA then Some(0x07C0)
    else if x < 0x0966 then None else if x < 0x0970 then Some(0x0966)
    else if x < 0x09E6 then None else if x < 0x09F0 then Some(0x09E6)
    else if x < 0x0A66 then None else if x < 0x0A70 then Some(0x0A66)
    else if x < 0x0AE6 then None else if x < 0x0AF0 then Some(0x0AE6)
    else if x < 0x0B66 then None else if x < 0x0B70 then Some(0x0B66)
    else if x < 0x0BE6 then None else if x < 0x0BF0 then Some(0x0BE6)
    else if x < 0x0C66 then None else if x < 0x0C70 then Some(0x0C66)
    else if x < 0x0CE6 then None else if x < 0x0CF0 then Some(0x0CE6)
    else if x < 0x0D66 then None else if x < 0x0D70 then Some(0x0D66)
    else if x < 0x0DE6 then None else if x < 0x0DF0 then Some(0x0DE6)
    else if x < 0x0E50 then None else if x < 0x0E5A then Some(0x0E50)
    else if x < 0x0ED0 then None else if x < 0x0EDA then Some(0x0ED0)
    else if x < 0x0F20 then None else if x < 0x0F2A then Some(0x0F20)
    else if x < 0x1040 then None else if x < 0x104A then Some(0x1040)
    else if x < 0x1090 then None else if x < 0x109A then Some(0x1090)
    else if x < 0x17E0 then None else if x < 0x17EA then Some(0x17E0)
    else if x < 0x1810 then None else if x < 0x181A then Some(0x1810)
    else if x < 0x1946 then None else if x < 0x1950 then Some(0x1946)
    else if x < 0x19D0 then None else if x < 0x19DA then Some(0x19D0)
    else if x < 0x1A80 then None else if x < 0x1A8A then Some(0x1A80)
    else if x < 0x1A90 then None else if x < 0x1A9A then Some(0x1A90)
    else if x < 0x1B50 then None else if x < 0x1B5A then Some(0x1B50)
    else if x < 0x1BB0 then None else if x < 0x1BBA then Some(0x1BB0)
    else if x < 0x1C40 then None else if x < 0x1C4A then Some(0x1C40)
    else if x < 0x1C50 then None else if x < 0x1C5A then Some(0x1C50)
    else if x < 0xA620 then None else if x < 0xA62A then Some(0xA620)
    else if x < 0xA8D0 then None else if x < 0xA8DA then Some(0xA8D0)
    else if x < 0xA900 then None else if x < 0xA90A then Some(0xA900)
    else if x < 0xA9D0 then None else if x < 0xA9DA then Some(0xA9D0)
    else if x < 0xA9F0 then None else if x < 0xA9FA then Some(0xA9F0)
    else if x < 0xAA50 then None else if x < 0xAA5A then Some(0xAA50)
    else if x < 0xABF0 then None else if x < 0xABFA then Some(0xABF0)
    else if x < 0xFF10 then None else if x < 0xFF1A then Some(0xFF10)
    else if x < 0x104A0 then None else if x < 0x104AA then Some(0x104A0)
    else if x < 0x10D30 then None else if x < 0x10D3A then Some(0x10D30)
    else if x < 0x11066 then None else if x < 0x11070 then Some(0x11066)
    else if x < 0x110F0 then None else if x < 0x110FA then Some(0x110F0)
    else if x < 0x11136 then None else if x < 0x11140 then Some(0x11136)
    else if x < 0x111D0 then None else if x < 0x111DA then Some(0x111D0)
    else if x < 0x112F0 then None else if x < 0x112FA then Some(0x112F0)
    else if x < 0x11450 then None else if x < 0x1145A then Some(0x11450)
    else if x < 0x114D0 then None else if x < 0x114DA then Some(0x114D0)
    else if x < 0x11650 then None else if x < 0x1165A then Some(0x11650)
    else if x < 0x116C0 then None else if x < 0x116CA then Some(0x116C0)
    else if x < 0x11730 then None else if x < 0x1173A then Some(0x11730)
    else if x < 0x118E0 then None else if x < 0x118EA then Some(0x118E0)
    else if x < 0x11950 then None else if x < 0x1195A then Some(0x11950)
    else if x < 0x11C50 then None else if x < 0x11C5A then Some(0x11C50)
    else if x < 0x11D50 then None else if x < 0x11D5A then Some(0x11D50)
    else if x < 0x11DA0 then None else if x < 0x11DAA then Some(0x11DA0)
    else if x < 0x11F50 then None else if x < 0x11F5A then Some(0x11F50)
    else if x < 0x16A60 then None else if x < 0x16A6A then Some(0x16A60)
    else if x < 0x16AC0 then None else if x < 0x16ACA then Some(0x16AC0)
    else if x < 0x16B50 then None else if x < 0x16B5A then Some(0x16B50)
    else if x < 0x1D7CE then None else if x < 0x1D7D8 then Some(0x1D7CE)
    else if x < 0x1D7D8 then None else if x < 0x1D7E2 then Some(0x1D7D8)
    else if x < 0x1D7E2 then None else if x < 0x1D7EC then Some(0x1D7E2)
    else if x < 0x1D7EC then None else if x < 0x1D7F6 then Some(0x1D7EC)
    else if x < 0x1D7F6 then None else if x < 0x1D800 then Some(0x1D7F6)
    else if x < 0x1E140 then None else if x < 0x1E14A then Some(0x1E140)
    else if x < 0x1E2F0 then None else if x < 0x1E2FA then Some(0x1E2F0)
    else if x < 0x1E4F0 then None else if x < 0x1E4FA then Some(0x1E4F0)
    else if x < 0x1E950 then None else if x < 0x1E95A then Some(0x1E950)
    else if x < 0x1FBF0 then None else if x < 0x1FBFA then Some(0x1FBF0)
    else None
  }

  /** The value of code point `x` as a decimal digit of some script beyond
      ASCII, if it is one. */
  function DigitValue(x: int): (r: Option<nat>)
    ensures r.Some? <==> DigitRun(x).Some?
    ensures r.Some? ==> r.value < 10 && DigitRun(x) == Some(x - r.value)
  {
    match DigitRun(x)
    case Some(z) => Some(x - z)
    case None => None
  }

  /** The character `int()` reads in place of `c`: ASCII as it is, other
      white space as a space, a decimal digit of another script as the
      ASCII digit of the same value, and anything else as '?', which no
      literal holds. */
  function AsciiOf(c: char): (r: char)
    ensures c as int < 127 ==> r == c
    ensures c as int >= 127 && IsWideSpace(c) ==> r == ' '
    ensures c as int >= 127 && !IsWideSpace(c) ==>
      (IsDigit(r) <==> DigitValue(c as int).Some?)
    ensures c as int >= 127 && IsDigit(r) ==> DigitValue(c as int) == Some((r as int) - ('0' as int))
    ensures IsDigit(r) ==> IsDigit(c) || DigitValue(c as int).Some?
  {
    if c as int < 127 then c
    else if IsWideSpace(c) then ' '
    else
      match DigitValue(c as int)
      case Some(d) => DigitChar(d)
      case None => '?'
  }

  /** The text rewritten character by character with `AsciiOf`. */
  function AsciiForm(s: string): (r: string)
    ensures |r| == |s| && forall k :: 0 <= k < |s| ==> r[k] == AsciiOf(s[k])
  {
    seq(|s|, k requires 0 <= k < |s| => AsciiOf(s[k]))
  }

  /** Python's `int(s)` on a `str`: each character is first read through
      `AsciiOf`, then the result is parsed as ASCII text. Text that is
      already ASCII parses exactly as `ParseInt` parses it, and a number
      needs at least one decimal digit of some script. */
  function TextToInt(s: string): (r: Option<int>)
    ensures (forall k :: 0 <= k < |s| ==> s[k] as int < 127) ==> r == ParseInt(s)
    ensures r.Some? ==> exists k :: 0 <= k < |s| && (IsDigit(s[k]) || DigitValue(s[k] as int).Some?)
  {
    var a := AsciiForm(s);
    assert (forall k :: 0 <= k < |s| ==> s[k] as int < 127) ==> a == s;
    assert forall k :: 0 <= k < |s| && IsDigit(a[k]) ==> IsDigit(s[k]) || DigitValue(s[k] as int).Some?;
    ParseInt(a)
  }

  /** `int('\u0661') == 1`: an Arabic-Indic digit reads as the ASCII
      digit of the same value. */
  lemma ArabicIndicDigitParses()
    ensures TextToInt("\U{0661}") == Some(1)
  {
    assert AsciiForm("\U{0661}") == "1" == IntToString(1);
    ParseIntOfIntToString(1);
  }

  /** `int('\u00a05') == 5`: a no-break space is white space to `int()`. */
  lemma NoBreakSpaceSkipped()
    ensures TextToInt("\U{00A0}5") == Some(5)
  {
    assert AsciiForm("\U{00A0}5") == " " + "5";
    assert "5" == IntToString(5);
    ParseIntOfIntToString(5);
    ParseIntSkipsSpace("5");
  }

  /** `int('\uff11\uff12') == 12`: fullwidth digits form a literal like
      ASCII ones. */
  lemma FullwidthDigitsParse()
    ensures TextToInt("\U{FF11}\U{FF12}") == Some(12)
  {
    assert AsciiForm("\U{FF11}\U{FF12}") == "12" == IntToString(12);
    ParseIntOfIntToString(12);
  }

  /** Leading white space does not change what `int()` reads. */
  lemma ParseIntSkipsSpace(s: string)
    ensures ParseInt(" " + s) == ParseInt(s)
  {
    assert TrimStart(" " + s) == TrimStart(s) by {
      assert (" " + s)[1..] == s;
    }
  }

  /** A character that is no digit, no underscore, no sign and no white
      space makes `int()` raise, wherever it stands in the text. */
  lemma ParseIntRefuses(s: string, k: nat)
    requires k < |s| && !IsDigit(s[k]) && !IsSpace(s[k]) && s[k] != '_' && s[k] != '-' && s[k] != '+'
    ensures ParseInt(s) == None
  {
    var u := TrimStart(s);
    var t := TrimEnd(u);
    var i := |s| - |u|;
    assert u[k - i] == s[k];
    assert t[k - i] == s[k];
    var body := if |t| > 0 && (t[0] == '-' || t[0] == '+') then t[1..] else t;
    var m := if body == t then k - i else k - i - 1;
    assert body[m] == s[k];
    assert !IsDigitLiteral(body);
    assert ParseStripped(t) == None;
  }

  /** A character of text that is neither ASCII, white space nor a decimal
      digit makes `int()` raise, wherever it stands. */
  lemma OtherCharacterRefused(s: string, k: nat)
    requires k < |s| && s[k] as int >= 127 && !IsWideSpace(s[k])
    requires DigitValue(s[k] as int).None?
    ensures TextToInt(s) == None
  {
    var a := AsciiForm(s);
    assert a[k] == '?';
    ParseIntRefuses(a, k);
  }

  lemma {:induction false} NatToStringIsLiteral(n: nat)
    ensures IsDigitLiteral(NatToString(n))
    ensures LiteralValue(NatToString(n)) == n
  {
    var s := NatToString(n);
    if n >= 10 {
      NatToStringIsLiteral(n / 10);
      var front := NatToString(n / 10);
      assert s[..|s| - 1] == front;
    }
  }

  lemma TrimOfDigits(s: string)
    requires |s| > 0 && !IsSpace(s[0]) && !IsSpace(s[|s| - 1])
    ensures TrimEnd(TrimStart(s)) == s
  {
  }

  /** `int(str(n)) == n`: the text the handler writes for an integer
      reads back as the same integer. */
  lemma {:induction false} ParseIntOfIntToString(n: int)
    ensures ParseInt(IntToString(n)) == Some(n)
  {
    var s := IntToString(n);
    var m: nat := if n < 0 then -n else n;
    NatToStringIsLiteral(m);
    var digits := NatToString(m);
    assert !IsSpace(digits[|digits| - 1]);
    if n < 0 {
      assert s == "-" + digits;
      assert s[|s| - 1] == digits[|digits| - 1];
      TrimOfDigits(s);
      assert s[1..] == digits;
    } else {
      TrimOfDigits(s);
    }
  }

  /** `str(n)` is ASCII text. */
  lemma IntToStringIsAscii(n: int)
    ensures forall k :: 0 <= k < |IntToString(n)| ==> IntToString(n)[k] as int < 127
  {
  }

  /** `str` is injective on integers. */
  lemma IntToStringInjective(m: int, n: int)
    requires IntToString(m) == IntToString(n)
    ensures m == n
  {
    ParseIntOfIntToString(m);
    ParseIntOfIntToString(n);
  }

  // ---------------------------------------------------------------
  // bytes viewed as text
  // ---------------------------------------------------------------

  /** Each byte as the character with the same code. */
  function Latin1(b: seq<byte>): (s: string)
    ensures |s| == |b| && forall k :: 0 <= k < |b| ==> s[k] as int == b[k]
  {
    seq(|b|, k requires 0 <= k < |b| => b[k] as char)
  }

  const HexDigits := "0123456789abcdef"

  /** One byte inside the quotes of Python's `repr` of a byte string. */
  function EscapeByte(x: byte, quote: char): string {
    if x == quote as int || x == '\\' as int then ['\\', x as char]
    else if x == '\t' as int then "\\t"
    else if x == '\n' as int then "\\n"
    else if x == '\r' as int then "\\r"
    else if x < 32 || x >= 127 then ['\\', 'x', HexDigits[x / 16], HexDigits[x % 16]]
    else [x as char]
  }

  function EscapeBytes(b: seq<byte>, quote: char): string {
    if b == [] then "" else EscapeBytes(b[..|b| - 1], quote) + EscapeByte(b[|b| - 1], quote)
  }

  /** Python's `str(b)` of a byte string: `b'...'`, switching to double
      quotes when the bytes hold a single quote and no double quote. */
  function BytesRepr(b: seq<byte>): (s: string)
    ensures |s| >= 3 && s[0] == 'b'
  {
    var quote := if '\'' as int in b && '"' as int !in b then '"' else '\'';
    "b" + [quote] + EscapeBytes(b, quote) + [quote]
  }

  // ---------------------------------------------------------------
  // repr of a text, and the message of int()'s ValueError
  // ---------------------------------------------------------------

  /** The characters up to U+00FF that Python's `repr` of a text writes as
      `\xhh`: the controls, DEL, the C1 controls, the no-break space and the
      soft hyphen. */
  predicate IsHexEscaped(c: char) {
    c < ' ' || (0x7F as char <= c <= 0xA0 as char) || c == 0xAD as char
  }

  /** One character inside the quotes of Python's `repr` of a text. */
  function EscapeChar(c: char, quote: char): (r: string)
    ensures |r| >= 1
  {
    if c == quote || c == '\\' then ['\\', c]
    else if c == '\t' then "\\t"
    else if c == '\n' then "\\n"
    else if c == '\r' then "\\r"
    else if IsHexEscaped(c) then ['\\', 'x', HexDigits[c as int / 16], HexDigits[c as int % 16]]
    else [c]
  }

  function EscapeText(s: string, quote: char): (r: string)
    ensures |r| >= |s|
  {
    if s == [] then "" else EscapeText(s[..|s| - 1], quote) + EscapeChar(s[|s| - 1], quote)
  }

  /** Python's `repr` of a text: single quotes, or double quotes when the
      text holds a single quote and no double quote, around the escaped
      characters. */
  function StrRepr(s: string): (r: string)
    ensures |r| >= |s| + 2
    ensures r[0] == r[|r| - 1]
    ensures r[0] == (if '\'' in s && '"' !in s then '"' else '\'')
  {
    var quote := if '\'' in s && '"' !in s then '"' else '\'';
    [quote] + EscapeText(s, quote) + [quote]
  }

  /** A character `repr` writes as it is inside single quotes. */
  predicate IsPlain(c: char) {
    c != '\'' && c != '\\' && !IsHexEscaped(c)
  }

  /** Text with no quote, backslash or control character is quoted as it is. */
  lemma {:induction false} PlainTextRepr(s: string)
    requires forall k :: 0 <= k < |s| ==> IsPlain(s[k])
    ensures StrRepr(s) == "'" + s + "'"
  {
    PlainTextEscape(s);
  }

  lemma {:induction false} PlainTextEscape(s: string)
    requires forall k :: 0 <= k < |s| ==> IsPlain(s[k])
    ensures EscapeText(s, '\'') == s
  {
    if s != [] {
      PlainTextEscape(s[..|s| - 1]);
      assert s == s[..|s| - 1] + [s[|s| - 1]];
    }
  }

  /** `repr("it's") == "\"it's\""`: a single quote switches to double quotes. */
  lemma ApostropheSwitchesQuotes()
    ensures StrRepr("it's") == "\"it's\""
  {
    assert '\'' in "it's" && '"' !in "it's";
    assert EscapeText("it's", '"') == "it's" by {
      assert "it's"[..3] == "it'" && "it'"[..2] == "it" && "it"[..1] == "i" && "i"[..0] == "";
    }
  }

  /** `repr("a\nb") == "'a\\nb'"`: a line break is written as `\n`. */
  lemma LineBreakEscaped()
    ensures StrRepr("a\nb") == "'a\\nb'"
  {
    assert EscapeText("a\nb", '\'') == "a\\nb" by {
      assert EscapeText("a\nb", '\'') == EscapeText("a\n", '\'') + "b";
      assert EscapeText("a\n", '\'') == EscapeText("a", '\'') + "\\n";
    }
  }

  /** `%.200R`: at most the first `n` characters. */
  function Cut(s: string, n: nat): (r: string)
    ensures |r| <= n && |r| <= |s| && r == s[..|r|]
    ensures |s| <= n ==> r == s
    ensures |s| >= n ==> |r| == n
  {
    if |s| <= n then s else s[..n]
  }

  const IntLiteralPrefix := "invalid literal for int() with base 10: "

  /** The message of the ValueError `int()` raises on a text it cannot read:
      the text's repr, cut to 200 characters. */
  function TextIntError(s: string): (m: string)
    ensures |m| <= |IntLiteralPrefix| + 200
    ensures |s| >= 198 ==> |m| == |IntLiteralPrefix| + 200
  {
    IntLiteralPrefix + Cut(StrRepr(s), 200)
  }

  /** Short text with no quote, backslash or control character appears in
      the message as it is, between single quotes. */
  lemma PlainTextError(s: string)
    requires |s| <= 198 && forall k :: 0 <= k < |s| ==> IsPlain(s[k])
    ensures TextIntError(s) == IntLiteralPrefix + "'" + s + "'"
  {
    PlainTextRepr(s);
  }

  /** The message of the ValueError `int()` raises on a byte string it
      cannot read: the repr of its first 200 bytes, cut to 200 characters. */
  function BytesIntError(b: seq<byte>): (m: string)
    ensures |m| <= |IntLiteralPrefix| + 200
    ensures |b| > 200 ==> m == BytesIntError(b[..200])
  {
    var head := if |b| <= 200 then b else b[..200];
    assert |b| > 200 ==> b[..200][..200] == head;
    IntLiteralPrefix + Cut(BytesRepr(head), 200)
  }

  // ---------------------------------------------------------------
  // fixed-width upper-case hexadecimal
  // ---------------------------------------------------------------

  function HexChar(d: nat): (c: char)
    requires d < 16
  {
    if d < 10 then ('0' as int + d) as char else ('A' as int + d - 10) as char
  }

  function HexDigitValue(c: char): int {
    if '0' <= c <= '9' then c as int - '0' as int else c as int - 'A' as int + 10
  }

  function Pow16(width: nat): (p: nat)
    ensures p >= 1
  {
    if width == 0 then 1 else 16 * Pow16(width - 1)
  }

  /** The last `width` hexadecimal digits of `n`, most significant first. */
  function Hex(n: nat, width: nat): (s: string)
    ensures |s| == width
  {
    if width == 0 then "" else Hex(n / 16, width - 1) + [HexChar(n % 16)]
  }

  /** The number a string of hexadecimal digits denotes. */
  function HexValue(s: string): int {
    if s == [] then 0 else HexValue(s[..|s| - 1]) * 16 + HexDigitValue(s[|s| - 1])
  }

  /** A number below 16^width reads back from its digits. */
  lemma {:induction false} HexRoundTrip(n: nat, width: nat)
    requires n < Pow16(width)
    ensures HexValue(Hex(n, width)) == n
  {
    if width > 0 {
      HexRoundTrip(n / 16, width - 1);
      var s := Hex(n, width);
      assert s[..|s| - 1] == Hex(n / 16, width - 1);
    }
  }
}
