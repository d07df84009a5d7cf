// The string helpers shared by the printers and parsers: decimal digits, trimming, case.
module Text {

  predicate IsDigit(c: char) {
    '0' <= c <= '9'
  }

  function DigitValue(c: char): nat
    requires IsDigit(c)
  {
    c as int - '0' as int
  }

  function Digit(d: nat): (c: char)
    requires d < 10
    ensures IsDigit(c) && DigitValue(c) == d
  {
    ('0' as int + d) as char
  }

  predicate AllDigits(s: string) {
    forall i :: 0 <= i < |s| ==> IsDigit(s[i])
  }

  /** The decimal numeral of n, without leading zeros. */
  function Digits(n: nat): (s: string)
    ensures |s| >= 1 && AllDigits(s)
  {
    if n < 10 then [Digit(n)] else Digits(n / 10) + [Digit(n % 10)]
  }

  /** The number a string of digits denotes; leading zeros are allowed. */
  function Value(s: string): nat
    requires AllDigits(s)
  {
    if s == "" then 0 else 10 * Value(s[..|s| - 1]) + DigitValue(s[|s| - 1])
  }

  lemma {:induction false} ValueOfDigits(n: nat)
    ensures Value(Digits(n)) == n
  {
    if n < 10 {
      assert Digits(n)[..0] == "";
    } else {
      ValueOfDigits(n / 10);
      assert Digits(n)[..|Digits(n)| - 1] == Digits(n / 10);
    }
  }

  predicate IsSpace(c: char) {
    c == ' ' || '\t' <= c <= '\r' || c == 133 as char || c == 160 as char
  }

  function TrimLeft(s: string): string {
    if s != "" && IsSpace(s[0]) then TrimLeft(s[1..]) else s
  }

  function TrimRight(s: string): string {
    if s != "" && IsSpace(s[|s| - 1]) then TrimRight(s[..|s| - 1]) else s
  }

  function TrimSpace(s: string): string {
    TrimRight(TrimLeft(s))
  }

  function Upper(c: char): char {
    if 'a' <= c <= 'z' then (c as int - 32) as char else c
  }

  function Lower(c: char): char {
    if 'A' <= c <= 'Z' then (c as int + 32) as char else c
  }

  function ToUpper(s: string): (t: string)
    ensures |t| == |s|
  {
    seq(|s|, i requires 0 <= i < |s| => Upper(s[i]))
  }

  function ToLower(s: string): (t: string)
    ensures |t| == |s|
  {
    seq(|s|, i requires 0 <= i < |s| => Lower(s[i]))
  }

  predicate Blank(s: string) {
    forall i :: 0 <= i < |s| ==> s[i] in {' ', '\t', '\n', '\r'}
  }

  /** Spaces, tabs, newlines and the like around a text, however many, are cut off. */
  lemma {:induction false} Trimmed(before: string, t: string, after: string)
    requires Blank(before) && Blank(after)
    requires t != "" && !IsSpace(t[0]) && !IsSpace(t[|t| - 1])
    ensures TrimSpace(before + t + after) == t
  {
    if before != "" {
      assert (before + t + after)[1..] == before[1..] + t + after;
      Trimmed(before[1..], t, after);
    } else if after != "" {
      TrimEnd(t, after);
      assert before + t + after == t + after;
      assert TrimLeft(t + after) == t + after;
    } else {
      assert before + t + after == t;
    }
  }

  lemma {:induction false} TrimEnd(t: string, after: string)
    requires Blank(after)
    requires t != "" && !IsSpace(t[|t| - 1])
    ensures TrimRight(t + after) == t
  {
    if after == "" {
      assert t + after == t;
    } else {
      var n := |after| - 1;
      assert (t + after)[..|t| + n] == t + after[..n];
      TrimEnd(t, after[..n]);
    }
  }

  lemma CaseKeepsSpace(c: char)
    ensures IsSpace(Upper(c)) == IsSpace(Lower(c)) == IsSpace(c)
    ensures Lower(Upper(c)) == Lower(c) && Upper(Lower(c)) == Upper(c)
  {}

  lemma {:induction false} TrimUpper(s: string)
    ensures TrimLeft(ToUpper(s)) == ToUpper(TrimLeft(s)) && TrimRight(ToUpper(s)) == ToUpper(TrimRight(s))
  {
    if s != "" {
      CaseKeepsSpace(s[0]);
      CaseKeepsSpace(s[|s| - 1]);
      TrimUpper(s[1..]);
      TrimUpper(s[..|s| - 1]);
      assert ToUpper(s)[1..] == ToUpper(s[1..]) && ToUpper(s)[..|s| - 1] == ToUpper(s[..|s| - 1]);
    }
  }

  lemma {:induction false} TrimLower(s: string)
    ensures TrimLeft(ToLower(s)) == ToLower(TrimLeft(s)) && TrimRight(ToLower(s)) == ToLower(TrimRight(s))
  {
    if s != "" {
      CaseKeepsSpace(s[0]);
      CaseKeepsSpace(s[|s| - 1]);
      TrimLower(s[1..]);
      TrimLower(s[..|s| - 1]);
      assert ToLower(s)[1..] == ToLower(s[1..]) && ToLower(s)[..|s| - 1] == ToLower(s[..|s| - 1]);
    }
  }

  lemma CaseTwice(s: string)
    ensures ToLower(ToUpper(s)) == ToLower(s) && ToUpper(ToLower(s)) == ToUpper(s)
  {
    forall i | 0 <= i < |s|
      ensures Lower(Upper(s[i])) == Lower(s[i]) && Upper(Lower(s[i])) == Upper(s[i])
    {
      CaseKeepsSpace(s[i]);
    }
  }

  predicate HasSuffix(s: string, suffix: string) {
    |suffix| <= |s| && s[|s| - |suffix|..] == suffix
  }

  /** The position of the first c in s, or the length of s. */
  function IndexOf(s: string, c: char): (i: nat)
    ensures i <= |s|
    ensures forall j :: 0 <= j < i ==> s[j] != c
    ensures i < |s| ==> s[i] == c
  {
    if s == "" || s[0] == c then 0 else 1 + IndexOf(s[1..], c)
  }

  lemma {:induction false} IndexAfter(p: string, c: char, q: string)
    requires forall j :: 0 <= j < |p| ==> p[j] != c
    ensures IndexOf(p, c) == |p|
    ensures IndexOf(p + [c] + q, c) == |p|
  {
    if p != "" {
      IndexAfter(p[1..], c, q);
      assert (p + [c] + q)[1..] == p[1..] + [c] + q;
    }
  }
}
