/**
 * String primitives the detectors are built from, with Python's meaning:
 * `sub in s`, `str.lower()`, `str.isspace()`, `s[:n]`, `sep.join(parts)`
 * and decimal rendering of integers in f-strings.
 * A `string` is a sequence of Unicode code points, as a Python `str` is.
 */
module Text {

  // ---------------------------------------------------------------------
  // Substring search
  // ---------------------------------------------------------------------

  /** Python's `sub in s`: `sub` occurs somewhere in `s` (the empty string occurs everywhere). */
  predicate Contains(s: string, sub: string)
    decreases |s|
  {
    sub <= s || (|s| > 0 && Contains(s[1..], sub))
  }

  /** `sub` occurs in `s` starting at index `i`. */
  ghost predicate OccursAt(s: string, sub: string, i: int) {
    0 <= i && i + |sub| <= |s| && s[i..i + |sub|] == sub
  }

  /** Dropping the first character moves every later occurrence one place left. */
  lemma OccursShift(s: string, sub: string, i: int)
    requires |s| > 0 && i >= 1
    ensures OccursAt(s, sub, i) <==> OccursAt(s[1..], sub, i - 1)
  {
    if i + |sub| <= |s| {
      assert s[1..][i - 1..i - 1 + |sub|] == s[i..i + |sub|];
    }
  }

  /** The scanning definition of `Contains` agrees with the positional one. */
  lemma {:induction false} ContainsIffOccurs(s: string, sub: string)
    ensures Contains(s, sub) <==> exists i :: OccursAt(s, sub, i)
    decreases |s|
  {
    if sub <= s {
      assert OccursAt(s, sub, 0);
    } else if |s| > 0 {
      ContainsIffOccurs(s[1..], sub);
      if Contains(s[1..], sub) {
        var j :| OccursAt(s[1..], sub, j);
        OccursShift(s, sub, j + 1);
      } else if i :| OccursAt(s, sub, i) {
        OccursShift(s, sub, i);
      }
    }
  }

  /** A non-empty string never occurs in the empty text. */
  lemma NothingInEmpty(sub: string)
    requires sub != []
    ensures !Contains([], sub)
  {
  }

  /** A string holding a character the text lacks never occurs in it. */
  lemma {:induction false} MissingCharNotContained(s: string, sub: string, c: char)
    requires c in sub && c !in s
    ensures !Contains(s, sub)
    decreases |s|
  {
    if |s| > 0 {
      assert c !in s[1..];
      MissingCharNotContained(s[1..], sub, c);
    }
  }

  // ---------------------------------------------------------------------
  // Lower-casing
  // ---------------------------------------------------------------------

  /** Upper-case letters whose lower-case form is 32 code points higher:
      Latin A-Z, Latin-1 À-Þ except ×, Cyrillic А-Я. */
  predicate IsShift32Upper(c: char) {
    ('A' <= c <= 'Z') || ('\U{C0}' <= c <= '\U{DE}' && c != '\U{D7}') || ('\U{410}' <= c <= '\U{42F}')
  }

  /** Cyrillic capitals Ѐ-Џ (including Ё), whose lower-case form is 80 code points higher. */
  predicate IsShift80Upper(c: char) {
    '\U{400}' <= c <= '\U{40F}'
  }

  /** Python's `str.lower()` on one code point, for the scripts the keyword lists use. */
  function LowerChar(c: char): char {
    if IsShift32Upper(c) then (c as int + 32) as char
    else if IsShift80Upper(c) then (c as int + 80) as char
    else c
  }

  /** Python's `str.lower()`: code point by code point. */
  function Lower(s: string): (r: string)
    ensures |r| == |s|
    ensures forall i :: 0 <= i < |s| ==> r[i] == LowerChar(s[i])
  {
    seq(|s|, i requires 0 <= i < |s| => LowerChar(s[i]))
  }

  /** A lower-cased code point is not upper-case any more. */
  lemma LowerCharIdempotent(c: char)
    ensures LowerChar(LowerChar(c)) == LowerChar(c)
  {
  }

  /** Lower-casing twice is lower-casing once. */
  lemma {:induction false} LowerIdempotent(s: string)
    ensures Lower(Lower(s)) == Lower(s)
  {
    forall i | 0 <= i < |s| ensures Lower(Lower(s))[i] == Lower(s)[i] {
      LowerCharIdempotent(s[i]);
    }
  }

  // ---------------------------------------------------------------------
  // Character classes
  // ---------------------------------------------------------------------

  /** Python's `str.isspace()`, which is also what `\s` matches in a `str` pattern. */
  predicate IsSpace(c: char) {
    ('\t' <= c <= '\r') || ('\U{1C}' <= c <= ' ') || c == '\U{85}' || c == '\U{A0}'
    || c == '\U{1680}' || ('\U{2000}' <= c <= '\U{200A}') || c == '\U{2028}' || c == '\U{2029}'
    || c == '\U{202F}' || c == '\U{205F}' || c == '\U{3000}'
  }

  /** Among ASCII characters, `isspace()` holds for the space, the five controls from tab
      to carriage return and the four separators 0x1C-0x1F. */
  lemma AsciiWhitespace(c: char)
    requires c < '\U{80}'
    ensures IsSpace(c) <==> c == ' ' || ('\t' <= c <= '\r') || ('\U{1C}' <= c <= '\U{1F}')
  {
  }

  /** A decimal digit 0-9. */
  predicate IsDigit(c: char) {
    '0' <= c <= '9'
  }

  // ---------------------------------------------------------------------
  // Slicing, joining and rendering
  // ---------------------------------------------------------------------

  /** Python's `s[:n]`. */
  function Take<T>(s: seq<T>, n: nat): (r: seq<T>)
    ensures r <= s
    ensures |r| == if |s| <= n then |s| else n
  {
    if |s| <= n then s else s[..n]
  }

  /** Python's `sep.join(parts)`. */
  function Join(parts: seq<string>, sep: string): (r: string)
    ensures parts == [] ==> r == ""
    ensures parts != [] ==> parts[0] <= r
    ensures |parts| == 1 ==> r == parts[0]
  {
    if parts == [] then ""
    else if |parts| == 1 then parts[0]
    else parts[0] + sep + Join(parts[1..], sep)
  }

  /** Joining one more part puts the separator between the earlier joint text and it. */
  lemma {:induction false} JoinAppend(parts: seq<string>, p: string, sep: string)
    requires parts != []
    ensures Join(parts + [p], sep) == Join(parts, sep) + sep + p
    decreases |parts|
  {
    if |parts| > 1 {
      assert (parts + [p])[1..] == parts[1..] + [p];
      JoinAppend(parts[1..], p, sep);
    }
  }

  function DigitChar(d: nat): char
    requires d < 10
  {
    ('0' as int + d) as char
  }

  /** Decimal digits of a natural number, most significant first, as `str(n)` renders it. */
  function NatString(n: nat): (s: string)
    ensures |s| >= 1
    ensures forall i :: 0 <= i < |s| ==> IsDigit(s[i])
    ensures s[0] == '0' ==> n == 0
    decreases n
  {
    if n < 10 then [DigitChar(n)] else NatString(n / 10) + [DigitChar(n % 10)]
  }

  /** Value of a string of decimal digits. */
  function DigitsValue(s: string): nat
    requires forall i :: 0 <= i < |s| ==> IsDigit(s[i])
  {
    if s == [] then 0
    else
      assert IsDigit(s[|s| - 1]);
      DigitsValue(s[..|s| - 1]) * 10 + (s[|s| - 1] as int - '0' as int)
  }

  /** Rendering a number and reading its digits back gives the number. */
  lemma {:induction false} NatStringRoundTrip(n: nat)
    ensures DigitsValue(NatString(n)) == n
    decreases n
  {
    if n >= 10 {
      NatStringRoundTrip(n / 10);
      var s := NatString(n);
      assert s[..|s| - 1] == NatString(n / 10);
    }
  }

  /** An optional minus sign followed by at least one decimal digit. */
  predicate IsIntText(s: string) {
    && |s| >= 1
    && (s[0] == '-' ==> |s| >= 2)
    && forall i :: (if s[0] == '-' then 1 else 0) <= i < |s| ==> IsDigit(s[i])
  }

  /** Value of a signed decimal text, as `int(s)` reads it. */
  function IntValue(s: string): int
    requires IsIntText(s)
  {
    if s[0] == '-' then
      assert forall i :: 0 <= i < |s| - 1 ==> s[1..][i] == s[i + 1];
      -(DigitsValue(s[1..]) as int)
    else DigitsValue(s)
  }

  /** `str(n)` for any integer: a minus sign exactly for negative numbers, then digits. */
  function IntString(n: int): (s: string)
    ensures IsIntText(s)
    ensures s[0] == '-' <==> n < 0
  {
    if n < 0 then "-" + NatString(-n) else NatString(n)
  }

  /** Rendering an integer and reading it back gives the integer, whatever its sign. */
  lemma IntStringRoundTrip(n: int)
    ensures IntValue(IntString(n)) == n
  {
    if n < 0 {
      NatStringRoundTrip(-n);
      assert IntString(n)[1..] == NatString(-n);
    } else {
      NatStringRoundTrip(n);
    }
  }
}
