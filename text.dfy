/**
 * String rules the dashboard relies on: Python's `str(n)` for a
 * non-negative integer, `str.replace` of one character, `str.endswith`,
 * the substring test `k in s`, and `str.title` (ASCII letters only).
 */
module Text {

  predicate IsDigit(c: char) { '0' <= c <= '9' }

  predicate AllDigits(s: string) { forall i :: 0 <= i < |s| ==> IsDigit(s[i]) }

  function DigitChar(d: nat): (c: char)
    requires d < 10
    ensures IsDigit(c) && (c as int) - ('0' as int) == d
  {
    ('0' as int + d) as char
  }

  /** Python's `str(n)` for n >= 0: the shortest decimal numeral of n. */
  function NatToString(n: nat): (s: string)
    ensures |s| >= 1 && AllDigits(s)
    ensures s[0] == '0' ==> n == 0 && s == "0"
    decreases n
  {
    if n < 10 then [DigitChar(n)] else NatToString(n / 10) + [DigitChar(n % 10)]
  }

  /** The value of a string of decimal digits, read left to right. */
  function ParseNat(s: string): nat
    requires AllDigits(s)
  {
    if s == [] then 0
    else ParseNat(s[..|s| - 1]) * 10 + ((s[|s| - 1] as int) - ('0' as int))
  }

  /** Reading back the numeral of n gives n. */
  lemma {:induction false} ParseNatToString(n: nat)
    ensures ParseNat(NatToString(n)) == n
    decreases n
  {
    if n >= 10 {
      var s := NatToString(n);
      assert s[..|s| - 1] == NatToString(n / 10);
      ParseNatToString(n / 10);
    }
  }

  /** Distinct counts print as distinct numerals. */
  lemma NatToStringInjective(m: nat, n: nat)
    requires NatToString(m) == NatToString(n)
    ensures m == n
  {
    ParseNatToString(m);
    ParseNatToString(n);
  }

  /** `s.endswith(suffix)` */
  predicate EndsWith(s: string, suffix: string)
  {
    |suffix| <= |s| && s[|s| - |suffix|..] == suffix
  }

  /** `k in s` for two strings: k occurs in s as a contiguous block. */
  predicate HasSubstring(s: string, k: string)
    decreases |s|
  {
    k <= s || (|s| > 0 && HasSubstring(s[1..], k))
  }

  /** A block found at position i makes the substring test true. */
  lemma {:induction false} HasSubstringAt(s: string, k: string, i: nat)
    requires i + |k| <= |s| && s[i..i + |k|] == k
    ensures HasSubstring(s, k)
    decreases i
  {
    if i == 0 {
      assert k <= s;
    } else {
      assert s[1..][i - 1..i - 1 + |k|] == s[i..i + |k|];
      HasSubstringAt(s[1..], k, i - 1);
    }
  }

  /** A suffix is in particular a substring. */
  lemma EndsWithHasSubstring(s: string, suffix: string)
    requires EndsWith(s, suffix)
    ensures HasSubstring(s, suffix)
  {
    HasSubstringAt(s, suffix, |s| - |suffix|);
  }

  /** A string without a given character has no substring containing it. */
  lemma {:induction false} NoSubstringWithout(s: string, k: string, c: char)
    requires c in k && c !in s
    ensures !HasSubstring(s, k)
    decreases |s|
  {
    var j :| 0 <= j < |k| && k[j] == c;
    assert j >= |s| || s[j] != k[j];
    if |s| > 0 {
      assert forall j :: 0 <= j < |s| - 1 ==> s[1..][j] == s[j + 1];
      NoSubstringWithout(s[1..], k, c);
    }
  }

  /** `s.replace(a, b)` for single characters a and b: every a becomes b. */
  function ReplaceChar(s: string, a: char, b: char): string
  {
    seq(|s|, i requires 0 <= i < |s| => if s[i] == a then b else s[i])
  }

  /** After the replacement no a is left, unless a is b. */
  lemma ReplaceCharRemoves(s: string, a: char, b: char)
    requires a != b
    ensures |ReplaceChar(s, a, b)| == |s|
    ensures a !in ReplaceChar(s, a, b)
    ensures forall i :: 0 <= i < |s| && s[i] != a ==> ReplaceChar(s, a, b)[i] == s[i]
  {
  }

  predicate IsUpper(c: char) { 'A' <= c <= 'Z' }
  predicate IsLower(c: char) { 'a' <= c <= 'z' }

  /** A character that has an upper- and a lower-case form. */
  predicate IsCased(c: char) { IsUpper(c) || IsLower(c) }

  function Upper(c: char): (u: char)
    ensures IsCased(u) == IsCased(c) && !IsLower(u)
    ensures !IsCased(c) ==> u == c
  {
    if IsLower(c) then (c as int - 32) as char else c
  }

  function Lower(c: char): (l: char)
    ensures IsCased(l) == IsCased(c) && !IsUpper(l)
    ensures !IsCased(c) ==> l == c
  {
    if IsUpper(c) then (c as int + 32) as char else c
  }

  /** The case rule of `str.title` at position i: a character that follows a cased character is lower-cased, any other is upper-cased. */
  function CaseAt(s: string, i: nat): char
    requires i < |s|
  {
    if i == 0 || !IsCased(s[i - 1]) then Upper(s[i]) else Lower(s[i])
  }

  /** Python's `str.title`, position by position. */
  function Title(s: string): string
  {
    seq(|s|, i requires 0 <= i < |s| => CaseAt(s, i))
  }

  /**
   * `str.title` as CPython computes it, scanning left to right with a flag
   * that records whether the previous input character is cased.
   */
  function TitleAfter(previousIsCased: bool, s: string): string
    decreases |s|
  {
    if s == [] then []
    else
      var c := if previousIsCased then Lower(s[0]) else Upper(s[0]);
      [c] + TitleAfter(IsCased(c), s[1..])
  }

  lemma {:induction false} TitleAfterAt(p: bool, s: string)
    ensures |TitleAfter(p, s)| == |s|
    ensures |s| > 0 ==> TitleAfter(p, s)[0] == if p then Lower(s[0]) else Upper(s[0])
    ensures forall i :: 0 < i < |s| ==> TitleAfter(p, s)[i] == CaseAt(s, i)
    decreases |s|
  {
    if s != [] {
      var c := if p then Lower(s[0]) else Upper(s[0]);
      TitleAfterAt(IsCased(c), s[1..]);
      var t := TitleAfter(IsCased(c), s[1..]);
      assert TitleAfter(p, s) == [c] + t;
      forall i | 0 < i < |s|
        ensures TitleAfter(p, s)[i] == CaseAt(s, i)
      {
        assert TitleAfter(p, s)[i] == t[i - 1];
        assert s[1..][i - 1] == s[i];
        if i > 1 { assert s[1..][i - 2] == s[i - 1]; }
      }
    }
  }

  /** The position-wise rule and the left-to-right scan agree on every string. */
  lemma TitleIsScan(s: string)
    ensures Title(s) == TitleAfter(false, s)
  {
    TitleAfterAt(false, s);
  }

  /** Each character of `s.title()` is its source character, upper- or lower-cased. */
  lemma TitleChar(s: string, i: nat)
    requires i < |s|
    ensures |Title(s)| == |s|
    ensures Title(s)[i] == Upper(s[i]) || Title(s)[i] == Lower(s[i])
    ensures IsCased(Title(s)[i]) == IsCased(s[i])
  {
  }

  /** Title-casing an already title-cased string changes nothing. */
  lemma TitleIdempotent(s: string)
    ensures Title(Title(s)) == Title(s)
  {
    var t := Title(s);
    forall i | 0 <= i < |t| ensures Title(t)[i] == t[i] {
      if i > 0 {
        TitleChar(s, i - 1);
      }
    }
  }

  /** In a title-cased string no upper-case letter follows a cased character. */
  lemma TitleNoUpperAfterCased(s: string, i: nat)
    requires 0 < i < |Title(s)| && IsCased(Title(s)[i - 1])
    ensures !IsUpper(Title(s)[i])
  {
    TitleChar(s, i - 1);
  }

  /** `str.title` leaves every character that has no case where it was. */
  lemma TitleKeepsUncased(s: string, i: nat)
    requires i < |s|
    requires !IsCased(s[i])
    ensures i < |Title(s)| && Title(s)[i] == s[i]
  {
  }
}
