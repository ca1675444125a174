/** Text helpers shared by the collectors and the renderers: Python's
    `f"{n:,}"` (thousands separators), `f"{x:,.1f}"`, `f"{s:<w}"` and
    `"\n".join(parts)`, each with an independent reading-back function. */
module Text {
  import opened Wrappers

  predicate IsDigit(c: char) { '0' <= c <= '9' }

  predicate AllDigits(s: string) { forall i :: 0 <= i < |s| ==> IsDigit(s[i]) }

  function DigitChar(d: nat): (c: char)
    requires d < 10
    ensures IsDigit(c) && DigitValue(c) == d
  {
    (('0' as int) + d) as char
  }

  function DigitValue(c: char): nat
    requires IsDigit(c)
  {
    c as int - '0' as int
  }

  // ---------------------------------------------------------------------
  // Decimal digits and their value
  // ---------------------------------------------------------------------

  /** The canonical decimal spelling of `n`: digits only, no leading zero. */
  function Decimal(n: nat): (r: string)
    ensures |r| > 0 && AllDigits(r)
    ensures r[0] == '0' ==> n == 0
    decreases n
  {
    if n < 10 then [DigitChar(n)] else Decimal(n / 10) + [DigitChar(n % 10)]
  }

  /** The number a string of decimal digits denotes (most significant first). */
  function DigitsValue(s: string): nat
    requires AllDigits(s)
    decreases |s|
  {
    if s == [] then 0 else DigitsValue(s[..|s| - 1]) * 10 + DigitValue(s[|s| - 1])
  }

  lemma {:induction false} DecimalRoundTrip(n: nat)
    ensures DigitsValue(Decimal(n)) == n
    decreases n
  {
    if n >= 10 {
      var s := Decimal(n / 10);
      DecimalRoundTrip(n / 10);
      assert (s + [DigitChar(n % 10)])[..|s|] == s;
    }
  }

  /** Exactly three digits, zero-padded on the left. */
  function Pad3(n: nat): (r: string)
    requires n < 1000
    ensures |r| == 3 && AllDigits(r)
  {
    [DigitChar(n / 100), DigitChar(n / 10 % 10), DigitChar(n % 10)]
  }

  /** The decimal spelling of `n` with a comma between groups of three digits,
      as Python's `format(n, ",")` gives for a non-negative int. */
  function Grouped(n: nat): string
    decreases n
  {
    if n < 1000 then Decimal(n) else Grouped(n / 1000) + "," + Pad3(n % 1000)
  }

  /** Python's `f"{i:,}"` for an int. */
  function FormatInt(i: int): string {
    if i < 0 then "-" + Grouped(-i) else Grouped(i)
  }

  /** The string with every comma removed. */
  function StripCommas(s: string): (r: string)
    ensures |r| <= |s|
    ensures forall i :: 0 <= i < |r| ==> r[i] != ','
  {
    if s == [] then [] else (if s[0] == ',' then [] else [s[0]]) + StripCommas(s[1..])
  }

  lemma {:induction false} StripCommasAppend(a: string, b: string)
    ensures StripCommas(a + b) == StripCommas(a) + StripCommas(b)
    decreases |a|
  {
    if a == [] {
      assert a + b == b;
    } else {
      assert (a + b)[0] == a[0];
      assert (a + b)[1..] == a[1..] + b;
      StripCommasAppend(a[1..], b);
    }
  }

  lemma StripCommasNoComma(s: string)
    requires forall i :: 0 <= i < |s| ==> s[i] != ','
    ensures StripCommas(s) == s
    decreases |s|
  {
    if s != [] {
      StripCommasNoComma(s[1..]);
    }
  }

  /** The last three decimal digits of `n` are those of `n % 1000`. */
  lemma ThousandsDigits(n: nat)
    ensures n / 10 / 10 / 10 == n / 1000
    ensures n / 10 / 10 % 10 == n % 1000 / 100
    ensures n / 10 % 10 == n % 1000 / 10 % 10
    ensures n % 10 == n % 1000 % 10
  {
    var q, r := n / 1000, n % 1000;
    var a, b, c := r / 100, r / 10 % 10, r % 10;
    assert r == 100 * a + 10 * b + c;
    assert n == 1000 * q + 100 * a + 10 * b + c;
    assert n / 10 == 100 * q + 10 * a + b;
    assert n / 10 / 10 == 10 * q + a;
  }

  /** For n >= 1000 the last three digits of Decimal(n) are Pad3(n % 1000). */
  lemma DecimalSplitThousands(n: nat)
    requires n >= 1000
    ensures Decimal(n) == Decimal(n / 1000) + Pad3(n % 1000)
  {
    ThousandsDigits(n);
    var n1, n2 := n / 10, n / 10 / 10;
    assert Decimal(n) == Decimal(n1) + [DigitChar(n % 10)];
    assert Decimal(n1) == Decimal(n2) + [DigitChar(n1 % 10)];
    assert Decimal(n2) == Decimal(n2 / 10) + [DigitChar(n2 % 10)];
  }

  /** Removing the separators from Grouped(n) gives back the plain decimal spelling. */
  lemma {:induction false} GroupedStripsToDecimal(n: nat)
    ensures StripCommas(Grouped(n)) == Decimal(n)
    decreases n
  {
    if n < 1000 {
      StripCommasNoComma(Decimal(n));
    } else {
      GroupedStripsToDecimal(n / 1000);
      StripCommasAppend(Grouped(n / 1000) + ",", Pad3(n % 1000));
      StripCommasAppend(Grouped(n / 1000), ",");
      StripCommasNoComma(Pad3(n % 1000));
      DecimalSplitThousands(n);
    }
  }

  /** Commas stand exactly where the distance to the end is a multiple of four
      (so every group but the first has three digits); everything else is a digit. */
  predicate GroupShaped(r: string) {
    && |r| > 0 && IsDigit(r[0])
    && forall i :: 0 <= i < |r| ==> (r[i] == ',' <==> (|r| - i) % 4 == 0) && (r[i] != ',' ==> IsDigit(r[i]))
  }

  lemma GroupShapedBase(s: string)
    requires 1 <= |s| <= 3 && AllDigits(s)
    ensures GroupShaped(s)
  {
  }

  lemma GroupShapedStep(g: string, p: string)
    requires GroupShaped(g) && |p| == 3 && AllDigits(p)
    ensures GroupShaped(g + "," + p)
  {
    var r := g + "," + p;
    forall i | 0 <= i < |r|
      ensures (r[i] == ',' <==> (|r| - i) % 4 == 0) && (r[i] != ',' ==> IsDigit(r[i]))
    {
      if i < |g| {
        assert r[i] == g[i];
        assert |r| - i == (|g| - i) + 4;
      } else if i > |g| {
        assert r[i] == p[i - |g| - 1];
      }
    }
  }

  lemma {:induction false} GroupedShape(n: nat)
    ensures GroupShaped(Grouped(n))
    decreases n
  {
    if n < 1000 {
      DecimalShort(n);
      GroupShapedBase(Decimal(n));
    } else {
      GroupedShape(n / 1000);
      GroupShapedStep(Grouped(n / 1000), Pad3(n % 1000));
    }
  }

  lemma {:induction false} DecimalShort(n: nat)
    ensures n < 10 ==> |Decimal(n)| == 1
    ensures n < 100 ==> |Decimal(n)| <= 2
    ensures n < 1000 ==> |Decimal(n)| <= 3
    decreases n
  {
    if n >= 10 {
      DecimalShort(n / 10);
    }
  }

  /** Reads back an unsigned, comma-grouped integer: the digits left once the
      commas are removed. */
  function ParseGrouped(t: string): Option<nat> {
    var digits := StripCommas(t);
    if digits == [] || !AllDigits(digits) then None else Some(DigitsValue(digits))
  }

  /** Reads back an optionally signed, comma-grouped integer. */
  function ParseInt(s: string): Option<int> {
    var neg := |s| > 0 && s[0] == '-';
    match ParseGrouped(if neg then s[1..] else s)
    case None => None
    case Some(n) =>
      var v: int := n;
      Some(if neg then -v else v)
  }

  /** `f"{i:,}"` reads back as `i`, and its commas group the digits by three. */
  lemma FormatIntRoundTrip(i: int)
    ensures ParseInt(FormatInt(i)) == Some(i)
    ensures var r := FormatInt(i);
      (i < 0 ==> r[0] == '-' && r[1..] == Grouped(-i)) && (i >= 0 ==> r == Grouped(i))
  {
    var n: nat := if i < 0 then -i else i;
    GroupedReadsBack(n);
    if i < 0 {
      assert FormatInt(i)[1..] == Grouped(n);
    }
  }

  // ---------------------------------------------------------------------
  // f"{x:,.1f}"
  // ---------------------------------------------------------------------

  function Abs(x: real): real { if x < 0.0 then -x else x }

  /** The integer nearest to `y`, ties to the even one (Python's correctly
      rounded float formatting). */
  function RoundHalfEven(y: real): (m: nat)
    requires y >= 0.0
    ensures -0.5 <= m as real - y <= 0.5
    ensures (m as real - y == 0.5 || y - m as real == 0.5) ==> m % 2 == 0
  {
    var f := y.Floor;
    var d := y - f as real;
    if d > 0.5 then f + 1
    else if d < 0.5 then f
    else if f % 2 == 0 then f
    else f + 1
  }

  function Pow10(places: nat): (n: nat)
    ensures n >= 1
  {
    if places == 0 then 1 else 10 * Pow10(places - 1)
  }

  /** Python's `round(x, places)` on the exact value of a non-negative `x`,
      counted in units of 10^-places: the nearest count, ties to the even one. */
  function RoundedUnits(x: real, places: nat): (m: nat)
    requires x >= 0.0
    ensures -0.5 <= m as real - x * Pow10(places) as real <= 0.5
  {
    RoundHalfEven(x * Pow10(places) as real)
  }

  /** Python's `round(x, places)` for a non-negative `x`. */
  function Round(x: real, places: nat): (r: real)
    requires x >= 0.0
    ensures r >= 0.0
    ensures r * Pow10(places) as real == RoundedUnits(x, places) as real
  {
    var m := RoundedUnits(x, places) as real;
    DivideThenMultiply(m, Pow10(places) as real);
    m / Pow10(places) as real
  }

  lemma DivideThenMultiply(a: real, d: real)
    requires d != 0.0
    ensures a / d * d == a
  {
  }

  /** Rounding keeps a value within [0, hi] when hi is a whole number. */
  lemma RoundAtMost(x: real, places: nat, hi: nat)
    requires 0.0 <= x <= hi as real
    ensures Round(x, places) <= hi as real
  {
    var n := Pow10(places);
    var m := RoundedUnits(x, places);
    MultiplyMonotone(x, hi as real, n as real);
    RealOfProduct(hi, n);
    assert m <= hi * n;
    DivideAtMost(m as real, n as real, hi as real);
  }

  lemma DivideAtMost(a: real, d: real, hi: real)
    requires d >= 1.0 && a <= hi * d
    ensures a / d <= hi
  {
    assert a / d * d == a;
  }

  lemma RealOfProduct(a: nat, b: nat)
    ensures (a * b) as real == a as real * b as real
  {
  }

  lemma MultiplyMonotone(a: real, b: real, c: real)
    requires a <= b && c >= 0.0
    ensures a * c <= b * c
  {
    assert b * c - a * c == (b - a) * c;
  }

  /** Python's `f"{x:,.1f}"` applied to the exact value `x` of a float:
      sign, grouped integer part, a point and one rounded decimal. */
  function FormatFixed1(x: real): (r: string)
    ensures |r| >= 3 && r[|r| - 2] == '.' && IsDigit(r[|r| - 1])
  {
    var m := RoundHalfEven(Abs(x) * 10.0);
    (if x < 0.0 then "-" else "") + Grouped(m / 10) + "." + [DigitChar(m % 10)]
  }

  /** Reads back a string of the shape FormatFixed1 produces. */
  function ParseFixed1(s: string): Option<real> {
    if |s| < 3 || s[|s| - 2] != '.' || !IsDigit(s[|s| - 1]) then None
    else
      var head := s[..|s| - 2];
      var neg := |head| > 0 && head[0] == '-';
      match ParseGrouped(if neg then head[1..] else head)
      case None => None
      case Some(n) =>
        var mag := n as real + DigitValue(s[|s| - 1]) as real / 10.0;
        Some(if neg then -mag else mag)
  }

  /** A grouped integer starts with a digit and reads back to itself. */
  lemma GroupedReadsBack(q: nat)
    ensures |Grouped(q)| > 0 && Grouped(q)[0] != '-'
    ensures ParseGrouped(Grouped(q)) == Some(q)
  {
    GroupedShape(q);
    GroupedStripsToDecimal(q);
    DecimalRoundTrip(q);
  }

  /** ParseFixed1 reads a signed, grouped integer part and one decimal back. */
  lemma ParseFixed1Parts(sign: string, q: nat, d: nat)
    requires sign == "" || sign == "-"
    requires d < 10
    ensures var mag := q as real + d as real / 10.0;
      ParseFixed1(sign + Grouped(q) + "." + [DigitChar(d)]) == Some(if sign == "-" then -mag else mag)
  {
    var g := Grouped(q);
    var head := sign + g;
    var s := head + "." + [DigitChar(d)];
    assert s[..|s| - 2] == head;
    assert s[|s| - 2] == '.' && s[|s| - 1] == DigitChar(d);
    GroupedReadsBack(q);
    var neg := |head| > 0 && head[0] == '-';
    assert neg <==> sign == "-";
    assert (if neg then head[1..] else head) == g;
  }

  /** The magnitude FormatFixed1 writes is |x| rounded to a tenth. */
  lemma RoundedTenth(x: real, m: nat)
    requires m == RoundHalfEven(Abs(x) * 10.0)
    ensures var mag := (m / 10) as real + (m % 10) as real / 10.0;
      mag * 10.0 == m as real && -0.05 <= mag - Abs(x) <= 0.05
  {
    assert m == 10 * (m / 10) + m % 10;
  }

  /** The formatted text denotes a multiple of 0.1 within 0.05 of `x`. */
  lemma FormatFixed1Denotes(x: real)
    ensures ParseFixed1(FormatFixed1(x)).Some?
    ensures var v := ParseFixed1(FormatFixed1(x)).value;
      -0.05 <= v - x <= 0.05 && (v * 10.0).Floor as real == v * 10.0
  {
    var m := RoundHalfEven(Abs(x) * 10.0);
    var sign := if x < 0.0 then "-" else "";
    assert FormatFixed1(x) == sign + Grouped(m / 10) + "." + [DigitChar(m % 10)];
    ParseFixed1Parts(sign, m / 10, m % 10);
    RoundedTenth(x, m);
    var mag := (m / 10) as real + (m % 10) as real / 10.0;
    var v := if x < 0.0 then -mag else mag;
    var mi: int := m;
    var k: int := if x < 0.0 then -mi else mi;
    assert v * 10.0 == k as real;
    assert (k as real).Floor == k;
  }

  // ---------------------------------------------------------------------
  // f"{s:<w}" and "\n".join
  // ---------------------------------------------------------------------

  function Spaces(n: nat): (r: string)
    ensures |r| == n && forall i :: 0 <= i < n ==> r[i] == ' '
  {
    if n == 0 then "" else " " + Spaces(n - 1)
  }

  /** `f"{s:<w}"`: `s` left-aligned in a field of at least `w` characters. */
  function PadRight(s: string, w: nat): (r: string)
    ensures |r| == if |s| < w then w else |s|
    ensures r[..|s|] == s
    ensures forall i :: |s| <= i < |r| ==> r[i] == ' '
  {
    if |s| < w then s + Spaces(w - |s|) else s
  }

  /** `"\n".join(parts)`. */
  function JoinLines(parts: seq<string>): string
    decreases |parts|
  {
    if |parts| == 0 then ""
    else if |parts| == 1 then parts[0]
    else parts[0] + "\n" + JoinLines(parts[1..])
  }

  predicate NoNewline(s: string) { forall i :: 0 <= i < |s| ==> s[i] != '\n' }

  /** Index of the first newline, or |s| when there is none. */
  function FirstNewline(s: string): (k: nat)
    ensures k <= |s| && NoNewline(s[..k]) && (k < |s| ==> s[k] == '\n')
    decreases |s|
  {
    if s == [] then 0
    else if s[0] == '\n' then 0
    else
      var k := 1 + FirstNewline(s[1..]);
      assert s[..k] == [s[0]] + s[1..][..k - 1];
      k
  }

  /** `s.split("\n")`. */
  function SplitLines(s: string): (r: seq<string>)
    ensures |r| >= 1
    decreases |s|
  {
    var k := FirstNewline(s);
    if k == |s| then [s] else [s[..k]] + SplitLines(s[k + 1..])
  }

  lemma FirstNewlineOfJoin(p: string, rest: string)
    requires NoNewline(p)
    ensures FirstNewline(p + "\n" + rest) == |p|
    decreases |p|
  {
    if p != [] {
      assert (p + "\n" + rest)[1..] == p[1..] + "\n" + rest;
      FirstNewlineOfJoin(p[1..], rest);
    }
  }

  lemma FirstNewlineNone(p: string)
    requires NoNewline(p)
    ensures FirstNewline(p) == |p|
    decreases |p|
  {
    if p != [] {
      FirstNewlineNone(p[1..]);
    }
  }

  /** Joining lines that contain no newline and splitting again gives them back,
      so the joined text has exactly |parts| lines. */
  lemma {:induction false} SplitJoinLines(parts: seq<string>)
    requires |parts| >= 1
    requires forall i :: 0 <= i < |parts| ==> NoNewline(parts[i])
    ensures SplitLines(JoinLines(parts)) == parts
    decreases |parts|
  {
    if |parts| == 1 {
      FirstNewlineNone(parts[0]);
    } else {
      var s := JoinLines(parts);
      var p := parts[0];
      FirstNewlineOfJoin(p, JoinLines(parts[1..]));
      assert s[..|p|] == p;
      assert s[|p| + 1..] == JoinLines(parts[1..]);
      SplitJoinLines(parts[1..]);
    }
  }
}
