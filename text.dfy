/**
 * String helpers shared by the handlers: decimal digits, JavaScript's
 * `String(n)` and `parseInt`, substring search (`includes`, `startsWith`)
 * and the UTF-8 encoding `TextEncoder` produces.
 */
module Text {
  import opened Wrappers

  predicate IsDigit(c: char) {
    '0' <= c <= '9'
  }

  predicate IsHexDigit(c: char) {
    IsDigit(c) || 'a' <= c <= 'f' || 'A' <= c <= 'F'
  }

  predicate AllDigits(s: string) {
    forall i | 0 <= i < |s| :: IsDigit(s[i])
  }

  predicate AllHexDigits(s: string) {
    forall i | 0 <= i < |s| :: IsHexDigit(s[i])
  }

  function DigitValue(c: char): (d: nat)
    requires IsDigit(c)
    ensures d < 10
  {
    c as int - '0' as int
  }

  function HexDigitValue(c: char): (d: nat)
    requires IsHexDigit(c)
    ensures d < 16
    ensures IsDigit(c) ==> d == DigitValue(c)
  {
    if IsDigit(c) then DigitValue(c)
    else if 'a' <= c <= 'f' then 10 + (c as int - 'a' as int)
    else 10 + (c as int - 'A' as int)
  }

  function DigitChar(d: nat): (c: char)
    requires d < 10
    ensures IsDigit(c) && DigitValue(c) == d
  {
    (d + '0' as int) as char
  }

  /** The number a string of decimal digits denotes, most significant digit first. */
  function DigitsValue(s: string): nat
    requires AllDigits(s)
  {
    if s == [] then 0 else 10 * DigitsValue(s[..|s| - 1]) + DigitValue(s[|s| - 1])
  }

  /** The number a string of hexadecimal digits denotes. */
  function HexDigitsValue(s: string): nat
    requires AllHexDigits(s)
  {
    if s == [] then 0 else 16 * HexDigitsValue(s[..|s| - 1]) + HexDigitValue(s[|s| - 1])
  }

  /** `String(n)` for a non-negative integer: its decimal digits, without leading zeros. */
  function NatToString(n: nat): (s: string)
    ensures |s| >= 1 && AllDigits(s)
    ensures s[0] == '0' ==> n == 0
    decreases n
  {
    if n < 10 then [DigitChar(n)] else NatToString(n / 10) + [DigitChar(n % 10)]
  }

  /** `String(n)` for any integer. */
  function IntToString(n: int): (s: string)
    ensures |s| >= 1
    ensures n >= 0 <==> IsDigit(s[0])
  {
    if n < 0 then "-" + NatToString(-n) else NatToString(n)
  }

  lemma {:induction false} NatToStringValue(n: nat)
    ensures DigitsValue(NatToString(n)) == n
    decreases n
  {
    if n >= 10 {
      NatToStringValue(n / 10);
      var s := NatToString(n);
      assert s[..|s| - 1] == NatToString(n / 10);
    }
  }

  /** The characters JavaScript's `parseInt` skips before the number: WhiteSpace and LineTerminator. */
  predicate IsJsWhitespace(c: char) {
    c == '\t' || c == '\n' || c == '\U{B}' || c == '\U{C}' || c == '\r' || c == ' '
    || c == '\U{A0}' || c == '\U{1680}' || ('\U{2000}' <= c <= '\U{200A}')
    || c == '\U{2028}' || c == '\U{2029}' || c == '\U{202F}' || c == '\U{205F}'
    || c == '\U{3000}' || c == '\U{FEFF}'
  }

  /** `s` without its leading whitespace. */
  function TrimStart(s: string): (t: string)
    ensures |t| <= |s| && t == s[|s| - |t|..]
    ensures t == [] || !IsJsWhitespace(t[0])
    ensures forall i | 0 <= i < |s| - |t| :: IsJsWhitespace(s[i])
  {
    if s != [] && IsJsWhitespace(s[0]) then TrimStart(s[1..]) else s
  }

  /** The longest prefix of `s` made of decimal digits. */
  function DigitPrefix(s: string): (p: string)
    ensures AllDigits(p) && p <= s
    ensures |p| < |s| ==> !IsDigit(s[|p|])
  {
    if s != [] && IsDigit(s[0]) then [s[0]] + DigitPrefix(s[1..]) else []
  }

  /** The longest prefix of `s` made of hexadecimal digits. */
  function HexPrefix(s: string): (p: string)
    ensures AllHexDigits(p) && p <= s
    ensures |p| < |s| ==> !IsHexDigit(s[|p|])
  {
    if s != [] && IsHexDigit(s[0]) then [s[0]] + HexPrefix(s[1..]) else []
  }

  /** The number after any sign: hexadecimal after a `0x` or `0X` prefix, decimal otherwise. */
  function ParseMagnitude(u: string): (r: Option<int>)
    ensures r.Some? ==> r.value >= 0
  {
    if |u| >= 2 && u[0] == '0' && (u[1] == 'x' || u[1] == 'X') then
      var h := HexPrefix(u[2..]);
      if h == [] then None else Some(HexDigitsValue(h))
    else
      var d := DigitPrefix(u);
      if d == [] then None else Some(DigitsValue(d))
  }

  /**
   * JavaScript's `parseInt(s)` with no radix argument; `None` stands for NaN.
   * Leading whitespace is skipped, one sign is accepted, a `0x`/`0X` prefix
   * selects base 16, and the longest run of digits that follows is read.
   */
  function ParseInt(s: string): Option<int> {
    var t := TrimStart(s);
    if t != [] && t[0] == '-' then
      match ParseMagnitude(t[1..])
      case None => None
      case Some(m) => Some(-m)
    else if t != [] && t[0] == '+' then
      ParseMagnitude(t[1..])
    else
      ParseMagnitude(t)
  }

  /** Text that starts with a letter holds no number: `parseInt` gives NaN. */
  lemma ParseIntOfLetter(s: string)
    requires s != [] && ('a' <= s[0] <= 'z' || 'A' <= s[0] <= 'Z')
    ensures ParseInt(s).None?
  {
    assert !IsJsWhitespace(s[0]);
    assert TrimStart(s) == s;
    assert !IsDigit(s[0]) && s[0] != '-' && s[0] != '+' && s[0] != '0';
    assert DigitPrefix(s) == [];
    assert ParseMagnitude(s).None?;
  }

  lemma {:induction false} DigitPrefixOfDigits(s: string)
    requires AllDigits(s)
    ensures DigitPrefix(s) == s
  {
    if s != [] {
      DigitPrefixOfDigits(s[1..]);
    }
  }

  /** A non-empty decimal string is read back by `parseInt` as the number it denotes. */
  lemma ParseIntOfDigits(s: string)
    requires s != [] && AllDigits(s)
    ensures ParseInt(s) == Some(DigitsValue(s))
  {
    TrimStartOfDigit(s);
    MagnitudeOfDigits(s);
    assert IsDigit(s[0]);
  }

  lemma MagnitudeOfDigits(s: string)
    requires s != [] && AllDigits(s)
    ensures ParseMagnitude(s) == Some(DigitsValue(s))
  {
    DigitPrefixOfDigits(s);
    assert |s| >= 2 ==> IsDigit(s[1]);
  }

  lemma TrimStartOfDigit(s: string)
    requires s != [] && IsDigit(s[0])
    ensures TrimStart(s) == s
  {
    assert !IsJsWhitespace(s[0]);
  }

  /** `parseInt(String(n)) == n`: the decimal rendering round-trips. */
  lemma ParseIntOfIntToString(n: int)
    ensures ParseInt(IntToString(n)) == Some(n)
  {
    var m: nat := if n < 0 then -n else n;
    var digits := NatToString(m);
    NatToStringValue(m);
    ParseIntOfDigits(digits);
    if n < 0 {
      var s := IntToString(n);
      assert s == "-" + digits;
      assert TrimStart(s) == s;
      assert s[1..] == digits;
      DigitPrefixOfDigits(digits);
      assert ParseMagnitude(digits) == Some(m);
    }
  }

  /** `s.startsWith(prefix)`. */
  predicate StartsWith(s: string, prefix: string) {
    |prefix| <= |s| && s[..|prefix|] == prefix
  }

  /** `needle` occurs in `s` starting at position `i`. */
  predicate OccursAt(s: string, needle: string, i: int) {
    0 <= i && i + |needle| <= |s| && s[i..i + |needle|] == needle
  }

  /** `s.includes(needle)`: `needle` occurs in `s` at some position. */
  predicate Contains(s: string, needle: string) {
    exists i | 0 <= i <= |s| - |needle| :: OccursAt(s, needle, i)
  }

  lemma StartsWithContains(s: string, prefix: string)
    requires StartsWith(s, prefix)
    ensures Contains(s, prefix)
  {
    assert OccursAt(s, prefix, 0);
  }

  /** A string made of `pre`, `needle` and `post` contains `needle`. */
  lemma ContainsPart(s: string, pre: string, needle: string, post: string)
    requires s == pre + needle + post
    ensures Contains(s, needle)
  {
    assert s[|pre|..|pre| + |needle|] == needle;
    assert OccursAt(s, needle, |pre|);
  }

  /** A string made of `needle` and `post` contains `needle`. */
  lemma PrefixPart(s: string, needle: string, post: string)
    requires s == needle + post
    ensures Contains(s, needle)
  {
    assert s[..|needle|] == needle;
    assert OccursAt(s, needle, 0);
  }

  /** A string that lacks one of the characters of `needle` cannot contain `needle`. */
  lemma MissingCharNotContained(s: string, needle: string, c: char)
    requires c in needle && c !in s
    ensures !Contains(s, needle)
  {
    var k :| 0 <= k < |needle| && needle[k] == c;
    forall i | 0 <= i <= |s| - |needle|
      ensures !OccursAt(s, needle, i)
    {
      assert s[i..i + |needle|][k] == s[i + k];
    }
  }

  function UpperChar(c: char): char {
    if 'a' <= c <= 'z' then (c as int - 32) as char else c
  }

  /** `s.toUpperCase()` on ASCII letters. */
  function ToUpperAscii(s: string): (r: string)
    ensures |r| == |s|
  {
    seq(|s|, i requires 0 <= i < |s| => UpperChar(s[i]))
  }

  /** The UTF-8 bytes of one Unicode scalar value. */
  function Utf8Char(c: char): (b: seq<bv8>)
    ensures 1 <= |b| <= 4
    ensures (c as int < 0x80) <==> |b| == 1
  {
    var cp := c as int;
    if cp < 0x80 then
      [cp as bv8]
    else if cp < 0x800 then
      [(0xC0 + cp / 0x40) as bv8, (0x80 + cp % 0x40) as bv8]
    else if cp < 0x10000 then
      [(0xE0 + cp / 0x1000) as bv8, (0x80 + (cp / 0x40) % 0x40) as bv8, (0x80 + cp % 0x40) as bv8]
    else
      [(0xF0 + cp / 0x40000) as bv8, (0x80 + (cp / 0x1000) % 0x40) as bv8,
       (0x80 + (cp / 0x40) % 0x40) as bv8, (0x80 + cp % 0x40) as bv8]
  }

  /** What `new TextEncoder().encode(s)` produces. */
  function Utf8Encode(s: string): (b: seq<bv8>)
    ensures |b| >= |s|
  {
    if s == [] then [] else Utf8Char(s[0]) + Utf8Encode(s[1..])
  }

  predicate IsAscii(s: string) {
    forall i | 0 <= i < |s| :: s[i] as int < 0x80
  }

  /** On ASCII text the encoding takes one byte per character. */
  lemma {:induction false} Utf8LengthOfAscii(s: string)
    requires IsAscii(s)
    ensures |Utf8Encode(s)| == |s|
  {
    if s != [] {
      Utf8LengthOfAscii(s[1..]);
    }
  }
}
