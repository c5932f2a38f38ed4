/**
 Characters and numerals of the selector grammar: which characters are space, control or
 identifier characters, how unsigned numbers print and parse, and how text is trimmed and
 split.
 */
module SelectorText {
  import opened Wrappers

  /** The ranges of Unicode `White_Space` above ASCII. */
  function WideSpaces(): seq<(int, int)> {
    [(0x85, 0x85), (0xA0, 0xA0), (0x1680, 0x1680), (0x2000, 0x200A), (0x2028, 0x2029), (0x202F, 0x202F),
     (0x205F, 0x205F), (0x3000, 0x3000)]
  }

  predicate InRanges(n: int, ranges: seq<(int, int)>) {
    ranges != [] && (ranges[0].0 <= n <= ranges[0].1 || InRanges(n, ranges[1..]))
  }

  /** Unicode `White_Space`. */
  predicate IsSpace(c: char) {
    0x9 <= c as int <= 0xD || c == ' ' || (c as int > 0x7F && InRanges(c as int, WideSpaces()))
  }

  /** Unicode category `Cc`. */
  predicate IsControl(c: char) {
    var n := c as int;
    n < 0x20 || 0x7F <= n <= 0x9F
  }

  predicate IsAlphanumeric(c: char) {
    'a' <= c <= 'z' || 'A' <= c <= 'Z' || '0' <= c <= '9'
  }

  predicate IsIdentChar(c: char) { IsAlphanumeric(c) || c == '_' }

  predicate IsBareChar(c: char) { IsAlphanumeric(c) || c in "_.:-" }

  predicate IsHexDigit(c: char) { '0' <= c <= '9' || 'a' <= c <= 'f' || 'A' <= c <= 'F' }

  predicate IsIdent(s: string) { forall c <- s :: IsIdentChar(c) }

  /** Prints without quotes. */
  predicate IsBare(s: string) { s != "" && forall c <- s :: IsBareChar(c) }

  // ---------------------------------------------------------------------------------
  // Numerals.

  function Digit(d: nat): (c: char)
    requires d < 16
    ensures IsHexDigit(c) && IsAlphanumeric(c) && (d < 10 ==> '0' <= c <= '9') && DigitValue(c) == d
  {
    if d < 10 then '0' + d as char else 'a' + (d - 10) as char
  }

  function DigitValue(c: char): nat
    requires IsHexDigit(c)
  {
    if c <= '9' then (c - '0') as nat else if 'a' <= c then (c - 'a') as nat + 10 else (c - 'A') as nat + 10
  }

  predicate IsNumeral(s: string, base: nat) {
    forall c <- s :: IsHexDigit(c) && DigitValue(c) < base
  }

  /** The shortest numeral for `n`. */
  function Numeral(n: nat, base: nat): string
    requires base == 10 || base == 16
  {
    if n < base then [Digit(n)] else Numeral(n / base, base) + [Digit(n % base)]
  }

  function NumeralValue(s: string, base: nat): nat
    requires IsNumeral(s, base)
  {
    if s == "" then 0 else NumeralValue(s[..|s| - 1], base) * base + DigitValue(s[|s| - 1])
  }

  lemma {:induction false} NumeralReads(n: nat, base: nat)
    requires base == 10 || base == 16
    ensures IsBare(Numeral(n, base)) && IsNumeral(Numeral(n, base), base)
    ensures NumeralValue(Numeral(n, base), base) == n
  {
    var s := Numeral(n, base);
    if n < base {
      assert s[..0] == "";
    } else {
      NumeralReads(n / base, base);
      assert s[..|s| - 1] == Numeral(n / base, base);
    }
  }

  /** `str::parse` for an unsigned integer type with the largest value `max`. */
  function ParseUnsigned(text: string, max: nat): Option<nat> {
    var digits := if text != "" && text[0] == '+' then text[1..] else text;
    if digits == "" || !IsNumeral(digits, 10) then None
    else if NumeralValue(digits, 10) > max then None
    else Some(NumeralValue(digits, 10))
  }

  lemma ParsesUnsigned(n: nat, max: nat)
    requires n <= max
    ensures ParseUnsigned(Numeral(n, 10), max) == Some(n)
  {
    NumeralReads(n, 10);
    assert IsBareChar(Numeral(n, 10)[0]) && Numeral(n, 10)[0] != '+';
  }

  /** `char::from_u32` of the value of a hexadecimal numeral. */
  function CharOf(hex: string): Option<char>
    requires IsNumeral(hex, 16)
  {
    var n := NumeralValue(hex, 16);
    if hex != "" && (n < 0xD800 || 0xE000 <= n < 0x11_0000) then Some(n as char) else None
  }

  function ParseBool(text: string): Option<bool> {
    if text == "true" then Some(true) else if text == "false" then Some(false) else None
  }

  function BoolText(b: bool): (s: string)
    ensures IsBare(s) && ParseBool(s) == Some(b)
  {
    if b then "true" else "false"
  }

  // ---------------------------------------------------------------------------------
  // Trimming and splitting.

  function TrimStart(s: string): string {
    if s != "" && IsSpace(s[0]) then TrimStart(s[1..]) else s
  }

  function TrimEnd(s: string): string {
    if s != "" && IsSpace(s[|s| - 1]) then TrimEnd(s[..|s| - 1]) else s
  }

  function Trim(s: string): string { TrimEnd(TrimStart(s)) }

  /** `str::split`: the parts between the separators, one more than there are separators. */
  function Split(s: string, sep: char): (parts: seq<string>)
    ensures parts != []
  {
    if s == "" then [""]
    else
      var rest := Split(s[1..], sep);
      if s[0] == sep then [""] + rest else [[s[0]] + rest[0]] + rest[1..]
  }

  lemma {:induction false} SplitsFirst(first: string, sep: char, rest: string)
    requires sep !in first
    ensures Split(first + [sep] + rest, sep) == [first] + Split(rest, sep)
  {
    var s := first + [sep] + rest;
    if first == "" {
      assert s[1..] == rest;
    } else {
      assert s[1..] == first[1..] + [sep] + rest;
      SplitsFirst(first[1..], sep, rest);
      assert [first[0]] + first[1..] == first;
    }
  }

  lemma {:induction false} SplitsNone(s: string, sep: char)
    requires sep !in s
    ensures Split(s, sep) == [s]
  {
    if s != "" {
      SplitsNone(s[1..], sep);
      assert [s[0]] + s[1..] == s;
    }
  }
}
