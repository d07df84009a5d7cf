// metrics/collector.go's size printer and cmd/init.go's size parser, in exact arithmetic.
module Sizes {
  import opened Numbers
  import opened Text

  const KB: nat := 1024
  const MB: nat := 1024 * KB
  const GB: nat := 1024 * MB
  const TB: nat := 1024 * GB
  const TWO_63: int := MAX_INT64 + 1

  // --- Printing.

  /** Digits come off the low end; a negative number prints as nothing. */
  method IntToStr(v: int) returns (s: string)
    ensures s == if v < 0 then "" else Digits(v)
  {
    s := "";
    if v == 0 {
      return "0";
    }
    var rest := v;
    while rest > 0
      invariant v > 0 ==> rest >= 0 && Leading(rest) + s == Digits(v)
      invariant v < 0 ==> rest == v && s == ""
    {
      s := [Digit(rest % 10)] + s;
      rest := rest / 10;
    }
  }

  function Leading(n: nat): string {
    if n == 0 then "" else Digits(n)
  }

  /** A whole part and two truncated decimals; sizes being non-negative, so is the remainder. */
  function DecToStr(v: real): string
    requires v >= 0.0
  {
    var whole := v.Floor;
    var frac := ((v - whole as real) * 100.0).Floor;
    var f := Digits(frac);
    Digits(whole) + "." + if |f| < 2 then "0" + f else f
  }

  function FmtFloat(v: real): string
    requires v >= 0.0
  {
    if v >= 100.0 then Digits(v.Floor) else DecToStr(v)
  }

  function FormatSize(b: nat): string {
    if b >= GB then FmtFloat(b as real / GB as real) + "GB"
    else if b >= MB then FmtFloat(b as real / MB as real) + "MB"
    else if b >= KB then FmtFloat(b as real / KB as real) + "KB"
    else FmtFloat(b as real) + "B"
  }

  // --- Parsing.

  /** strconv.ParseFloat on plain decimals: an optional sign, digits, and at most one point. */
  function ParseDecimal(s: string): Option<real> {
    if s != "" && s[0] == '-' then
      match Unsigned(s[1..])
      case None => None
      case Some(v) => Some(-v)
    else if s != "" && s[0] == '+' then Unsigned(s[1..])
    else Unsigned(s)
  }

  function Unsigned(s: string): Option<real> {
    var i := IndexOf(s, '.');
    var whole, frac := s[..i], if i < |s| then s[i + 1..] else "";
    if |whole| + |frac| > 0 && AllDigits(whole) && AllDigits(frac)
    then Some(Value(whole) as real + Scaled(Value(frac) as real, |frac|))
    else None
  }

  /** v / 10^k. */
  function Scaled(v: real, k: nat): real {
    if k == 0 then v else Scaled(v, k - 1) / 10.0
  }

  /** A conversion to int64 whose operand is out of range has no specified result. */
  datatype Parsed = Size(bytes: int) | BadNumber | Unspecified

  function ToInt64(v: real): Parsed {
    var n := if v >= 0.0 then v.Floor else -(-v).Floor;
    if -TWO_63 <= n < TWO_63 then Size(n) else Unspecified
  }

  function Unit(s: string): (u: (nat, nat))
    ensures u.1 <= |s|
  {
    if HasSuffix(s, "TB") then (TB, 2)
    else if HasSuffix(s, "GB") then (GB, 2)
    else if HasSuffix(s, "MB") then (MB, 2)
    else if HasSuffix(s, "KB") then (KB, 2)
    else if HasSuffix(s, "B") then (1, 1)
    else (1, 0)
  }

  function Bytes(v: real, multiplier: nat): Parsed {
    ToInt64(v * multiplier as real)
  }

  /** A trimmed upper-case size: a decimal, then the unit. */
  function ParseUnits(t: string): Parsed {
    var unit := Unit(t);
    match ParseDecimal(TrimSpace(t[..|t| - unit.1]))
    case None => BadNumber
    case Some(v) => Bytes(v, unit.0)
  }

  function ParseSize(s: string): Parsed {
    if s == "" then Size(0) else ParseUnits(ToUpper(TrimSpace(s)))
  }

  // --- Round trip.

  /** What FormatSize prints before the suffix, as whole units and hundredths. */
  function Numeral(whole: nat, hundredths: nat): string
    requires hundredths < 100
  {
    if whole >= 100 then Digits(whole)
    else Digits(whole) + "." + Padded(hundredths)
  }

  lemma FloorOfQuotient(a: nat, u: nat)
    requires u > 0
    ensures (a as real / u as real).Floor == a / u
  {
    var q, r, v := a / u, a % u, u as real;
    assert a == q * u + r;
    assert a as real == q as real * v + r as real;
    assert a as real / v == q as real + r as real / v;
    assert 0.0 <= r as real / v < 1.0;
  }

  lemma TwoDigits(f: nat)
    requires f < 100
    ensures |Digits(f)| == if f < 10 then 1 else 2
  {}

  lemma HundredthsBelow(rem: nat, u: nat)
    requires rem < u
    ensures rem * 100 / u < 100
  {
    var f := rem * 100 / u;
    assert f * u <= rem * 100 < 100 * u;
    if f >= 100 {
      MulMonotone(100, f, u);
      assert false;
    }
  }

  lemma QuotientReal(b: nat, u: nat)
    requires u > 0
    ensures var v := b as real / u as real;
            && v >= 0.0 && v.Floor == b / u && (v >= 100.0 <==> b / u >= 100)
            && ((v - (b / u) as real) * 100.0).Floor == b % u * 100 / u
  {
    FloorOfQuotient(b, u);
    var v, w, q, r := b as real / u as real, u as real, b / u, b % u;
    assert b == q * u + r;
    assert b as real == q as real * w + r as real;
    assert v == q as real + r as real / w;
    assert (v - q as real) * 100.0 == (r * 100) as real / w;
    FloorOfQuotient(r * 100, u);
  }

  lemma PrintedNumeral(b: nat, u: nat)
    requires u > 0
    ensures b % u * 100 / u < 100
    ensures FmtFloat(b as real / u as real) == Numeral(b / u, b % u * 100 / u)
  {
    HundredthsBelow(b % u, u);
    QuotientReal(b, u);
    TwoDigits(b % u * 100 / u);
  }

  lemma ScaledTwice(v: real)
    ensures Scaled(v, 2) == v / 100.0
  {
    assert Scaled(v, 2) == Scaled(v, 1) / 10.0;
    assert Scaled(v, 1) == Scaled(v, 0) / 10.0;
  }

  lemma ParsedWhole(w: string)
    requires w != "" && AllDigits(w)
    ensures ParseDecimal(w) == Some(Value(w) as real)
  {
    IndexAfter(w, '.', "");
    assert w[..|w|] == w;
    assert IsDigit(w[0]);
    assert Value("") == 0 && Scaled(0.0, 0) == 0.0;
  }

  lemma ParsedFraction(w: string, f: string)
    requires w != "" && AllDigits(w) && |f| == 2 && AllDigits(f)
    ensures ParseDecimal(w + "." + f) == Some(Value(w) as real + Value(f) as real / 100.0)
  {
    hide Value;
    var s := w + "." + f;
    IndexAfter(w, '.', f);
    assert s == w + ['.'] + f;
    assert s[..|w|] == w && s[|w| + 1..] == f;
    assert IsDigit(s[0]);
    ScaledTwice(Value(f) as real);
  }

  function Padded(f: nat): string {
    if f < 10 then "0" + Digits(f) else Digits(f)
  }

  /** Printed numbers parse back to what their digits say. */
  lemma ParsedNumeral(whole: nat, hundredths: nat)
    requires hundredths < 100
    ensures var h := if whole >= 100 then 0 else hundredths;
            ParseDecimal(Numeral(whole, hundredths)) == Some(whole as real + h as real / 100.0)
  {
    hide Digits, ParseDecimal, Value, Padded;
    ValueOfDigits(whole);
    if whole >= 100 {
      ParsedWhole(Digits(whole));
    } else {
      PaddedValue(hundredths);
      ParsedFraction(Digits(whole), Padded(hundredths));
    }
  }

  lemma PaddedValue(f: nat)
    requires f < 100
    ensures |Padded(f)| == 2 && AllDigits(Padded(f)) && Value(Padded(f)) == f
  {
    ValueOfDigits(f);
    TwoDigits(f);
    if f < 10 {
      assert Padded(f) == ['0', Digit(f)];
      assert ['0', Digit(f)][..1] == ['0'] && ['0'][..0] == "";
    }
  }

  predicate Clean(c: char) {
    !IsSpace(c) && Upper(c) == c
  }

  predicate AllClean(s: string) {
    forall i :: 0 <= i < |s| ==> Clean(s[i])
  }

  lemma CleanIsKept(s: string)
    requires s != "" && AllClean(s)
    ensures TrimSpace(s) == s && ToUpper(s) == s
  {
    assert Clean(s[0]) && Clean(s[|s| - 1]);
  }

  lemma NumeralIsClean(whole: nat, hundredths: nat)
    requires hundredths < 100
    ensures var n := Numeral(whole, hundredths);
            n != "" && AllClean(n) && IsDigit(n[|n| - 1])
  {}

  function Suffix(u: nat): string {
    if u == GB then "GB" else if u == MB then "MB" else if u == KB then "KB" else "B"
  }

  lemma PlainBytes(n: string)
    requires n != "" && IsDigit(n[|n| - 1])
    ensures Unit(n + "B") == (1, 1)
  {
    var s := n + "B";
    assert s[|s| - 1..] == "B";
    assert s[|s| - 2..] == [n[|n| - 1], 'B'];
  }

  lemma LongSuffix(n: string, u: nat)
    requires u in {KB, MB, GB}
    ensures Unit(n + Suffix(u)) == (u, 2)
  {
    var s := n + Suffix(u);
    assert s[|s| - 2..] == Suffix(u);
  }

  /** A printed numeral and suffix are taken apart again. */
  lemma SuffixIsFound(n: string, u: nat)
    requires n != "" && AllClean(n) && IsDigit(n[|n| - 1]) && u in {1, KB, MB, GB}
    ensures AllClean(n + Suffix(u))
    ensures Unit(n + Suffix(u)) == (u, |Suffix(u)|)
    ensures (n + Suffix(u))[..|n|] == n
  {
    hide Unit;
    if u == 1 {
      PlainBytes(n);
    } else {
      LongSuffix(n, u);
    }
  }

  lemma ParseOfText(n: string, u: nat, v: real)
    requires n != "" && AllClean(n) && IsDigit(n[|n| - 1]) && u in {1, KB, MB, GB}
    requires ParseDecimal(n) == Some(v)
    ensures ParseSize(n + Suffix(u)) == Bytes(v, u)
  {
    hide *;
    SuffixIsFound(n, u);
    CleanIsKept(n + Suffix(u));
    CleanIsKept(n);
    ParsedUnits(n, Suffix(u), u, v);
    ParsedText(n + Suffix(u));
  }

  lemma ParsedUnits(n: string, suffix: string, u: nat, v: real)
    requires Unit(n + suffix) == (u, |suffix|) && TrimSpace(n) == n && ParseDecimal(n) == Some(v)
    ensures ParseUnits(n + suffix) == Bytes(v, u)
  {
    hide Unit, TrimSpace, ParseDecimal, Bytes;
    assert (n + suffix)[..|n + suffix| - |suffix|] == n;
  }

  lemma ParsedText(s: string)
    requires s != "" && ToUpper(TrimSpace(s)) == s
    ensures ParseSize(s) == ParseUnits(s)
  {}

  /** The unit FormatSize prints b in. */
  function UnitOf(b: nat): nat {
    if b >= GB then GB else if b >= MB then MB else if b >= KB then KB else 1
  }

  lemma UnitIsOne(b: nat)
    ensures UnitOf(b) in {1, KB, MB, GB}
  {}

  function Whole(b: nat): nat {
    b / UnitOf(b)
  }

  function Hundredths(b: nat): nat {
    b % UnitOf(b) * 100 / UnitOf(b)
  }

  lemma FormatIsNumeral(b: nat)
    ensures Hundredths(b) < 100 && FormatSize(b) == Numeral(Whole(b), Hundredths(b)) + Suffix(UnitOf(b))
  {
    hide FmtFloat, Numeral;
    PrintedNumeral(b, UnitOf(b));
    assert b as real / 1 as real == b as real;
  }

  /** The hundredths that are printed: none from 100 units on. */
  function Shown(b: nat): nat {
    if Whole(b) >= 100 then 0 else Hundredths(b)
  }

  /** What parsing a printed size converts to int64. */
  function Readback(b: nat): nat {
    Whole(b) * UnitOf(b) + Shown(b) * UnitOf(b) / 100
  }

  lemma HundredthsScale(w: nat, h: nat, u: nat)
    ensures (w as real + h as real / 100.0) * u as real >= 0.0
    ensures ((w as real + h as real / 100.0) * u as real).Floor == w * u + h * u / 100
  {
    var x := 100 * (w * u) + h * u;
    assert x as real == 100.0 * (w as real * u as real) + h as real * u as real;
    assert (w as real + h as real / 100.0) * u as real == x as real / 100.0;
    FloorOfQuotient(x, 100);
  }

  /** The number FormatSize prints, in units. */
  function Printed(b: nat): real {
    Whole(b) as real + Shown(b) as real / 100.0
  }

  lemma ParseOfPrinted(b: nat)
    ensures ParseSize(FormatSize(b)) == Bytes(Printed(b), UnitOf(b))
  {
    UnitIsOne(b);
    hide FormatSize, ParseSize, Numeral, ParseDecimal, AllClean, Suffix, UnitOf, Whole, Hundredths, Bytes;
    FormatIsNumeral(b);
    NumeralIsClean(Whole(b), Hundredths(b));
    ParsedNumeral(Whole(b), Hundredths(b));
    ParseOfText(Numeral(Whole(b), Hundredths(b)), UnitOf(b), Printed(b));
  }

  lemma {:induction false} ParseOfFormat(b: nat)
    ensures ParseSize(FormatSize(b)) == if Readback(b) < TWO_63 then Size(Readback(b)) else Unspecified
  {
    hide FormatSize, ParseSize, UnitOf, Whole, Shown;
    ParseOfPrinted(b);
    HundredthsScale(Whole(b), Shown(b), UnitOf(b));
  }

  lemma ReadbackIsClose(b: nat)
    ensures Readback(b) <= b && 100 * (b - Readback(b)) < b + 100
    ensures b < KB ==> Readback(b) == b
    ensures b >= TWO_63 ==> Readback(b) >= TWO_63
  {
    var u := UnitOf(b);
    var w, r := b / u, b % u;
    assert b == w * u + r;
    if w >= 100 {
      MulMonotone(100, w, u);
    } else {
      var h := r * 100 / u;
      var q := h * u / 100;
      assert h * u <= r * 100 < h * u + u;
      assert 100 * q <= h * u < 100 * q + 100;
      assert u <= b || b == 0;
    }
  }

  /**
   * Reading a printed size back never overstates it, loses less than one part in a hundred plus a
   * byte, and is exact below 1KB. It has a result exactly when the size fits in an int64.
   */
  lemma {:induction false} PrintThenParse(b: nat)
    ensures ParseSize(FormatSize(b)).Size? <==> b < 0x8000_0000_0000_0000
    ensures b < 0x8000_0000_0000_0000 ==>
              var n := ParseSize(FormatSize(b)).bytes;
              && n <= b && (b - n) as real < b as real / 100.0 + 1.0
              && (b < 1024 ==> n == b)
  {
    ParseOfFormat(b);
    ReadbackIsClose(b);
  }

  // --- The units, in numbers.

  /** Units grow by 1024 and stop at GB; 100 units or more print whole. */
  lemma PrintedUnits(b: nat)
    ensures b < 1024 ==> FormatSize(b) == Numeral(b, 0) + "B"
    ensures 1024 <= b < 1048576 ==> FormatSize(b) == Numeral(b / 1024, b % 1024 * 100 / 1024) + "KB"
    ensures 1048576 <= b < 1073741824 ==>
              FormatSize(b) == Numeral(b / 1048576, b % 1048576 * 100 / 1048576) + "MB"
    ensures b >= 1073741824 ==> FormatSize(b) == Numeral(b / 1073741824, b % 1073741824 * 100 / 1073741824) + "GB"
  {
    hide FormatSize, Numeral;
    FormatIsNumeral(b);
  }

  /** A decimal with one of the units is that many of them, cut towards zero; no unit means bytes. */
  lemma ParsedUnit(w: string, suffix: string, size: nat)
    requires w != "" && AllDigits(w)
    requires (suffix, size) in {("", 1), ("B", 1), ("KB", 1024), ("MB", 1048576), ("GB", 1073741824),
                                ("TB", 1099511627776)}
    ensures ParseSize(w + suffix) ==
            if Value(w) * size < 0x8000_0000_0000_0000 then Size(Value(w) * size) else Unspecified
  {
    hide *;
    var t := w + suffix;
    TextIsClean(w, suffix, size);
    CleanIsKept(t);
    CleanIsKept(w);
    UnitRead(w, suffix, size);
    ParsedWhole(w);
    ParsedText(t);
    ParsedUnits(w, suffix, size, Value(w) as real);
    WholeBytes(Value(w), size);
  }

  lemma TextIsClean(w: string, suffix: string, size: nat)
    requires w != "" && AllDigits(w)
    requires (suffix, size) in {("", 1), ("B", 1), ("KB", 1024), ("MB", 1048576), ("GB", 1073741824),
                                ("TB", 1099511627776)}
    ensures AllClean(w) && AllClean(w + suffix) && w + suffix != ""
  {}

  lemma WholeBytes(n: nat, size: nat)
    ensures Bytes(n as real, size) == if n * size < 0x8000_0000_0000_0000 then Size(n * size) else Unspecified
  {
    assert n as real * size as real == (n * size) as real;
  }

  lemma UnitRead(w: string, suffix: string, size: nat)
    requires w != "" && AllDigits(w)
    requires (suffix, size) in {("", 1), ("B", 1), ("KB", 1024), ("MB", 1048576), ("GB", 1073741824),
                                ("TB", 1099511627776)}
    ensures Unit(w + suffix) == (size, |suffix|)
  {
    var t := w + suffix;
    var d := w[|w| - 1];
    assert IsDigit(d);
    hide AllDigits;
    if suffix == "" {
      assert t[|t| - 1] == d;
    } else if suffix == "B" {
      assert t[|t| - 1..] == "B" && t[|t| - 2..] == [d, 'B'];
    } else {
      assert t[|t| - 2..] == suffix;
    }
  }

  /** Fractions of a byte are dropped, below zero as above it. */
  lemma CutTowardsZero(v: real)
    ensures ToInt64(v).Size? ==>
              var n := ToInt64(v).bytes;
              if v >= 0.0 then n as real <= v < n as real + 1.0 else n as real - 1.0 < v <= n as real
    ensures ToInt64(v) != BadNumber && (ToInt64(v) == ToInt64(0.0) ==> -1.0 < v < 1.0)
    ensures ToInt64(v).Size? <==> -9223372036854775809.0 < v < 9223372036854775808.0
  {}

  /** One sign is allowed before the digits; no text at all is no bytes. */
  lemma ParsedSign(w: string)
    requires w != "" && AllDigits(w)
    ensures ParseDecimal("-" + w) == Some(-(Value(w) as real)) && ParseDecimal("+" + w) == Some(Value(w) as real)
    ensures ParseDecimal("--" + w) == ParseDecimal("") == None && ParseSize("") == Size(0)
  {
    ParsedWhole(w);
    assert IsDigit(w[0]) && ParseDecimal(w) == Unsigned(w);
    assert ("-" + w)[1..] == w && ("+" + w)[1..] == w;
    var t := "-" + w;
    assert ("--" + w)[1..] == t;
    NoMinus(w);
  }

  lemma NoMinus(w: string)
    ensures Unsigned("-" + w) == None
  {
    var t := "-" + w;
    assert IndexOf(t, '.') > 0 && t[..IndexOf(t, '.')][0] == '-';
  }

  /** White space around a size and the case of its unit make no difference. */
  lemma SpaceAndCase(before: string, s: string, after: string)
    requires Blank(before) && Blank(after)
    requires s != "" && !IsSpace(s[0]) && !IsSpace(s[|s| - 1])
    ensures ParseSize(before + s + after) == ParseSize(s)
    ensures ParseSize(ToLower(s)) == ParseSize(s)
  {
    Trimmed(before, s, after);
    Trimmed("", s, "");
    assert "" + s + "" == s;
    hide TrimLeft, TrimRight, ToLower, ToUpper, ParseUnits;
    TrimLower(s);
    TrimLower(TrimLeft(s));
    CaseTwice(TrimSpace(s));
  }
}
