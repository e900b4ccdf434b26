/**
 * The few string operations of Python's `str` that the planner relies on:
 * `strip()`, `lower()`, `upper()`, the substring test `t in s`, `"=" * n`,
 * and the decimal rendering of an integer (`f"{n}"`).
 */
module Text {

  /** Python's whitespace (`str.isspace`, and `\s` in a `str` regular expression). */
  predicate IsSpace(c: char) {
    || ('\t' <= c <= '\r')
    || ('\U{1C}' <= c <= '\U{1F}')
    || c == ' ' || c == '\U{85}' || c == '\U{A0}' || c == '\U{1680}'
    || ('\U{2000}' <= c <= '\U{200A}')
    || c == '\U{2028}' || c == '\U{2029}' || c == '\U{202F}' || c == '\U{205F}' || c == '\U{3000}'
  }

  /** An ASCII decimal digit (`\d` restricted to ASCII). */
  predicate IsDigit(c: char) {
    '0' <= c <= '9'
  }

  predicate AllDigits(s: string) {
    forall i :: 0 <= i < |s| ==> IsDigit(s[i])
  }

  // ---------------------------------------------------------------------------
  // strip()

  /** `r` is `s` with the whitespace before position `i` and after `i + |r|` removed. */
  predicate StrippedAt(s: string, r: string, i: nat) {
    && i + |r| <= |s|
    && r == s[i..i + |r|]
    && (forall k :: 0 <= k < i ==> IsSpace(s[k]))
    && (forall k :: i + |r| <= k < |s| ==> IsSpace(s[k]))
  }

  /** Number of whitespace characters at the start of `s`. */
  function LeadingSpaces(s: string): (n: nat)
    ensures n <= |s|
  {
    if s == [] || !IsSpace(s[0]) then 0 else 1 + LeadingSpaces(s[1..])
  }

  /** The leading run is as long as it can be. */
  lemma {:induction false} LeadingSpacesLaws(s: string)
    ensures forall k :: 0 <= k < LeadingSpaces(s) ==> IsSpace(s[k])
    ensures LeadingSpaces(s) < |s| ==> !IsSpace(s[LeadingSpaces(s)])
  {
    if s != [] && IsSpace(s[0]) {
      LeadingSpacesLaws(s[1..]);
      forall k | 0 <= k < LeadingSpaces(s) ensures IsSpace(s[k]) {
        if k > 0 {
          assert s[k] == s[1..][k - 1];
        }
      }
    }
  }

  /** Number of characters at the end of `s` that satisfy `p`. */
  function TrailingRun(s: string, p: char -> bool): (n: nat)
    ensures n <= |s|
  {
    if s == [] || !p(s[|s| - 1]) then 0 else 1 + TrailingRun(s[..|s| - 1], p)
  }

  /** The run is as long as it can be: every character in it satisfies `p`,
      and the one before it, if any, does not. */
  lemma {:induction false} TrailingRunLaws(s: string, p: char -> bool)
    ensures forall k :: |s| - TrailingRun(s, p) <= k < |s| ==> p(s[k])
    ensures TrailingRun(s, p) < |s| ==> !p(s[|s| - TrailingRun(s, p) - 1])
  {
    if s != [] && p(s[|s| - 1]) {
      var init := s[..|s| - 1];
      TrailingRunLaws(init, p);
      forall k | |s| - TrailingRun(s, p) <= k < |s| ensures p(s[k]) {
        if k < |s| - 1 {
          assert s[k] == init[k];
        }
      }
      if TrailingRun(s, p) < |s| {
        assert s[|s| - TrailingRun(s, p) - 1] == init[|init| - TrailingRun(init, p) - 1];
      }
    }
  }

  /** The trailing run is determined by where the run starts: a block of `p`
      characters after a character that is not `p` (or after nothing). */
  lemma TrailingRunOf(u: string, v: string, p: char -> bool)
    requires forall k :: 0 <= k < |v| ==> p(v[k])
    requires u == [] || !p(u[|u| - 1])
    ensures TrailingRun(u + v, p) == |v|
  {
    var s := u + v;
    TrailingRunLaws(s, p);
    assert forall k :: |s| - |v| <= k < |s| ==> p(s[k]) by {
      forall k | |s| - |v| <= k < |s| ensures p(s[k]) {
        assert s[k] == v[k - |u|];
      }
    }
    assert |v| < |s| ==> !p(s[|s| - |v| - 1]);
  }

  /** Python's `s.strip()`: drops the leading and the trailing whitespace. */
  function Strip(s: string): (r: string)
    ensures |r| <= |s|
  {
    var t := s[LeadingSpaces(s)..];
    t[..|t| - TrailingRun(t, IsSpace)]
  }

  lemma StripTrailing(s: string)
    ensures forall k :: LeadingSpaces(s) + |Strip(s)| <= k < |s| ==> IsSpace(s[k])
  {
    var i := LeadingSpaces(s);
    var t := s[i..];
    TrailingRunLaws(t, IsSpace);
    forall k | i + |Strip(s)| <= k < |s| ensures IsSpace(s[k]) {
      assert s[k] == t[k - i];
    }
  }

  lemma StripEnds(s: string)
    ensures var r := Strip(s); r == [] || (!IsSpace(r[0]) && !IsSpace(r[|r| - 1]))
  {
    var i := LeadingSpaces(s);
    var t := s[i..];
    var r := Strip(s);
    if r != [] {
      LeadingSpacesLaws(s);
      TrailingRunLaws(t, IsSpace);
      assert r[0] == s[i];
      assert r[|r| - 1] == t[|t| - TrailingRun(t, IsSpace) - 1];
    }
  }

  /** What `strip` keeps is a slice of `s` with only whitespace around it,
      and it neither starts nor ends with whitespace. */
  lemma StripLaws(s: string)
    ensures StrippedAt(s, Strip(s), LeadingSpaces(s))
    ensures var r := Strip(s); r == [] || (!IsSpace(r[0]) && !IsSpace(r[|r| - 1]))
  {
    LeadingSpacesLaws(s);
    StripTrailing(s);
    StripEnds(s);
  }

  // ---------------------------------------------------------------------------
  // lower() and upper()

  /** An ASCII or Latin-1 capital letter (`×` is not a letter). */
  predicate IsCapital(c: char) {
    'A' <= c <= 'Z' || ('\U{C0}' <= c <= '\U{DE}' && c != '\U{D7}')
  }

  /** An ASCII or Latin-1 small letter whose capital is one Latin-1 letter
      (`÷` is not a letter; `ß`, `µ` and `ÿ` have none). */
  predicate IsSmall(c: char) {
    'a' <= c <= 'z' || ('\U{E0}' <= c <= '\U{FE}' && c != '\U{F7}')
  }

  /** Python's `str.lower` on ASCII and Latin-1 letters: each capital is 32
      code points below its small letter. */
  function LowerChar(c: char): char {
    if IsCapital(c) then (c as int + 32) as char else c
  }

  /** Python's `str.upper` on ASCII and Latin-1 letters that have a one-letter
      Latin-1 capital. */
  function UpperChar(c: char): char {
    if IsSmall(c) then (c as int - 32) as char else c
  }

  function Lower(s: string): (r: string)
    ensures |r| == |s| && forall i :: 0 <= i < |s| ==> r[i] == LowerChar(s[i])
  {
    seq(|s|, i requires 0 <= i < |s| => LowerChar(s[i]))
  }

  function Upper(s: string): (r: string)
    ensures |r| == |s| && forall i :: 0 <= i < |s| ==> r[i] == UpperChar(s[i])
  {
    seq(|s|, i requires 0 <= i < |s| => UpperChar(s[i]))
  }

  /** After `lower()` no capital is left: each capital became the small
      letter whose capital it is, everything else is unchanged, and lowering
      again changes nothing. */
  lemma LowerLaws(s: string)
    ensures forall i :: 0 <= i < |s| ==> !IsCapital(Lower(s)[i])
    ensures forall i :: 0 <= i < |s| && IsCapital(s[i]) ==> IsSmall(Lower(s)[i]) && UpperChar(Lower(s)[i]) == s[i]
    ensures forall i :: 0 <= i < |s| && !IsCapital(s[i]) ==> Lower(s)[i] == s[i]
    ensures Lower(Lower(s)) == Lower(s)
  {
  }

  /** After `upper()` no small letter with a one-letter capital is left: each
      became its capital, everything else is unchanged, and raising again
      changes nothing. */
  lemma UpperLaws(s: string)
    ensures forall i :: 0 <= i < |s| ==> !IsSmall(Upper(s)[i])
    ensures forall i :: 0 <= i < |s| && IsSmall(s[i]) ==> IsCapital(Upper(s)[i]) && LowerChar(Upper(s)[i]) == s[i]
    ensures forall i :: 0 <= i < |s| && !IsSmall(s[i]) ==> Upper(s)[i] == s[i]
    ensures Upper(Upper(s)) == Upper(s)
  {
  }

  // ---------------------------------------------------------------------------
  // the substring test `t in s`

  predicate OccursAt(s: string, t: string, i: nat) {
    i + |t| <= |s| && s[i..i + |t|] == t
  }

  /** Python's `t in s` for strings, scanning `s` from the left. */
  function Contains(s: string, t: string): bool
    decreases |s|
  {
    if |t| > |s| then false
    else if s[..|t|] == t then true
    else Contains(s[1..], t)
  }

  /** `t in s` holds exactly when `t` occurs somewhere in `s` (the empty
      string occurs in every string). */
  lemma {:induction false} ContainsMeans(s: string, t: string)
    ensures Contains(s, t) <==> exists i :: OccursAt(s, t, i)
    decreases |s|
  {
    if |t| <= |s| {
      if s[..|t|] == t {
        assert OccursAt(s, t, 0);
      } else {
        ContainsMeans(s[1..], t);
        forall i: nat | OccursAt(s[1..], t, i) ensures OccursAt(s, t, i + 1) {
          assert s[i + 1..i + 1 + |t|] == s[1..][i..i + |t|];
        }
        forall i: nat | OccursAt(s, t, i) && i > 0 ensures OccursAt(s[1..], t, i - 1) {
          assert s[1..][i - 1..i - 1 + |t|] == s[i..i + |t|];
        }
      }
    }
  }

  /** A string that lacks one of the characters of `t` does not contain `t`. */
  lemma MissingCharNotContained(s: string, t: string, k: nat)
    requires k < |t| && t[k] !in s
    ensures !Contains(s, t)
  {
    ContainsMeans(s, t);
    forall i: nat ensures !OccursAt(s, t, i) {
      if i + |t| <= |s| {
        assert s[i..i + |t|][k] == s[i + k];
      }
    }
  }

  // ---------------------------------------------------------------------------
  // `c * n` and integer rendering

  /** Python's `c * n` for a one-character string `c`. */
  function Repeat(c: char, n: nat): (r: string)
    ensures |r| == n && forall i :: 0 <= i < n ==> r[i] == c
  {
    seq(n, _ => c)
  }

  function DigitChar(d: nat): (c: char)
    requires d < 10
    ensures IsDigit(c)
  {
    ('0' as int + d) as char
  }

  function DigitValue(c: char): nat
    requires IsDigit(c)
  {
    c as int - '0' as int
  }

  /** The number a string of decimal digits denotes. */
  function DigitsValue(s: string): nat
    requires AllDigits(s)
  {
    if s == [] then 0 else DigitsValue(s[..|s| - 1]) * 10 + DigitValue(s[|s| - 1])
  }

  /** Python's `str(n)` for a non-negative integer: decimal digits, no leading zero. */
  function NatToString(n: nat): (s: string)
    ensures |s| >= 1 && AllDigits(s)
    ensures s[0] == '0' ==> n == 0 && |s| == 1
  {
    if n < 10 then [DigitChar(n)] else NatToString(n / 10) + [DigitChar(n % 10)]
  }

  lemma {:induction false} NatToStringRoundTrip(n: nat)
    ensures DigitsValue(NatToString(n)) == n
  {
    if n >= 10 {
      var s := NatToString(n);
      assert s[..|s| - 1] == NatToString(n / 10);
      NatToStringRoundTrip(n / 10);
    }
  }

  /** Python's `str(n)` for any integer: a minus sign before the digits when negative. */
  function IntToString(n: int): (s: string)
    ensures |s| >= 1
  {
    if n < 0 then "-" + NatToString(-n) else NatToString(n)
  }

  /** An optional minus sign followed by at least one decimal digit. */
  predicate IsIntegerText(s: string) {
    if |s| > 0 && s[0] == '-' then |s| > 1 && AllDigits(s[1..]) else |s| > 0 && AllDigits(s)
  }

  function ParseInt(s: string): int
    requires IsIntegerText(s)
  {
    if s[0] == '-' then -(DigitsValue(s[1..]) as int) else DigitsValue(s)
  }

  /** The rendering of an integer is plain integer text (no fractional part,
      no decimal point) and reads back as the same integer. */
  lemma IntToStringRoundTrip(n: int)
    ensures IsIntegerText(IntToString(n))
    ensures '.' !in IntToString(n)
    ensures ParseInt(IntToString(n)) == n
  {
    var s := IntToString(n);
    if n < 0 {
      assert s[1..] == NatToString(-n);
      NatToStringRoundTrip(-n);
    } else {
      NatToStringRoundTrip(n);
    }
    assert !IsDigit('.');
  }
}
