/** Durations with a day unit (pkg/config/duration.go): the parser and the printer
    undo each other, and the running sum's sign catches every overflow. */
module Durations {
  import opened Records
  import opened Decimals

  const MICRO: string := ['\U{00B5}', 's']
  const SECOND: nat := 1000_000_000
  const DAY: nat := 24 * 3600 * SECOND

  predicate IsUnit(unit: string) {
    unit in {"ns", "us", MICRO, "ms", "s", "m", "h", "d"}
  }

  /** Nanoseconds in one unit; a day is read as hours and scaled afterwards. */
  function UnitSize(unit: string): nat {
    if unit == "ns" then 1
    else if unit == "us" || unit == MICRO then 1000
    else if unit == "ms" then 1000_000
    else if unit == "s" then SECOND
    else if unit == "m" then 60 * SECOND
    else 3600 * SECOND
  }

  datatype Segment = Segment(num: string, unit: string)

  // ---------------------------------------------------------------- the grammar

  function DigitsEnd(s: string): (n: nat)
    ensures n <= |s| && AllDigits(s[..n]) && (n < |s| ==> !IsDigit(s[n]))
  {
    if s == "" || !IsDigit(s[0]) then 0 else 1 + DigitsEnd(s[1..])
  }

  /** The longest number a text starts with. */
  function NumberEnd(s: string): (n: nat)
    ensures n <= |s|
  {
    var i := DigitsEnd(s);
    if i == 0 || i == |s| || s[i] != '.' then i
    else
      var f := DigitsEnd(s[i + 1..]);
      if f == 0 then i else i + 1 + f
  }

  /** The unit a text starts with, the alternatives tried in order. */
  function UnitAt(s: string): (unit: string)
    ensures unit <= s
  {
    if "ns" <= s then "ns"
    else if "us" <= s then "us"
    else if MICRO <= s then MICRO
    else if "ms" <= s then "ms"
    else if "s" <= s then "s"
    else if "m" <= s then "m"
    else if "h" <= s then "h"
    else if "d" <= s then "d"
    else ""
  }

  /** A run of segments, or nothing when the text is not one. */
  function Segments(s: string): Option<seq<Segment>>
    decreases |s|
  {
    if s == "" then Some([])
    else
      var n := NumberEnd(s);
      var unit := UnitAt(s[n..]);
      if n == 0 || unit == "" then None
      else
        var rest := Segments(s[n + |unit|..]);
        if rest.None? then None else Some([Segment(s[..n], unit)] + rest.value)
  }

  // ------------------------------------------------------------------ the value

  function Product(a: nat, b: nat): nat {
    a * b
  }

  /** One segment's nanoseconds, a fraction of one dropped, if they fit. */
  function SegmentValue(g: Segment): (v: Option<nat>)
    ensures v.Some? ==> v.value <= MAX_INT64
  {
    if !IsNumeral(g.num) then None
    else
      var v := Over(Product(Numerator(g.num), UnitSize(g.unit)), Scale(g.num));
      if v > MAX_INT64 then None
      else if g.unit != "d" then Some(v)
      else if v > MAX_INT64 / 24 then None
      else Some(v * 24)
  }

  /** Sixty-four bit addition. */
  function Wrap(n: int): (w: int)
    ensures -MAX_INT64 - 1 <= w <= MAX_INT64
  {
    var m := n % 0x1_0000_0000_0000_0000;
    if m > MAX_INT64 then m - 0x1_0000_0000_0000_0000 else m
  }

  /** The sum of two values that fit turns negative exactly when it does not. */
  lemma SignCatchesOverflow(a: nat, b: nat)
    requires a <= MAX_INT64 && b <= MAX_INT64
    ensures Wrap(a + b) < 0 <==> a + b > MAX_INT64
    ensures a + b <= MAX_INT64 ==> Wrap(a + b) == a + b
  {
  }

  /** The segments' total, if every segment and the total fit. */
  function Total(gs: seq<Segment>): Option<nat> {
    if gs == [] then Some(0)
    else
      var t, v := Total(gs[..|gs| - 1]), SegmentValue(gs[|gs| - 1]);
      if t.None? || v.None? || t.value + v.value > MAX_INT64 then None else Some(t.value + v.value)
  }

  function Parsed(s: string): Option<nat> {
    if s == "0" then Some(0)
    else
      var gs := Segments(s);
      if gs.None? || gs.value == [] then None else Total(gs.value)
  }

  /** Sums the segments, giving up when one does not parse or the sum turns
      negative. */
  method ParseDuration(s: string) returns (d: Option<nat>)
    ensures d == Parsed(s)
  {
    hide Segments, SegmentValue, Wrap;
    if s == "0" {
      return Some(0);
    }
    var gs := Segments(s);
    if gs.None? || gs.value == [] {
      return None;
    }
    var total: int := 0;
    for i := 0 to |gs.value|
      invariant 0 <= total <= MAX_INT64 && Total(gs.value[..i]) == Some(total)
    {
      assert gs.value[..i + 1][..i] == gs.value[..i];
      var v := SegmentValue(gs.value[i]);
      if v.None? {
        NoTotal(gs.value, i + 1);
        return None;
      }
      SignCatchesOverflow(total, v.value);
      total := Wrap(total + v.value);
      if total < 0 {
        NoTotal(gs.value, i + 1);
        return None;
      }
    }
    assert gs.value[..|gs.value|] == gs.value;
    d := Some(total);
  }

  /** Once a prefix has no total, nothing behind it helps. */
  lemma {:induction false} NoTotal(gs: seq<Segment>, i: nat)
    requires i <= |gs| && Total(gs[..i]).None?
    ensures Total(gs).None?
    decreases |gs|
  {
    if i == |gs| {
      assert gs[..i] == gs;
    } else {
      assert gs[..|gs| - 1][..i] == gs[..i];
      NoTotal(gs[..|gs| - 1], i);
    }
  }

  /** The total is the sum, exactly when every part and every sum fits: none of
      the parts is negative, so that is when the whole sum does. */
  function Sum(vs: seq<nat>): nat {
    if vs == [] then 0 else Sum(vs[..|vs| - 1]) + vs[|vs| - 1]
  }

  lemma {:induction false} TotalIsSum(gs: seq<Segment>, vs: seq<nat>)
    requires |gs| == |vs| && forall i | 0 <= i < |gs| :: SegmentValue(gs[i]) == Some(vs[i])
    ensures Total(gs) == if Sum(vs) <= MAX_INT64 then Some(Sum(vs)) else None
  {
    if gs != [] { TotalIsSum(gs[..|gs| - 1], vs[..|vs| - 1]); }
  }

  // ---------------------------------------------------------------- the printer

  /** The last `width` digits of a number, leading zeros kept. */
  function Padded(n: nat, width: nat): (s: string)
    ensures |s| == width && AllDigits(s)
  {
    if width == 0 then "" else Padded(n / 10, width - 1) + [ToChar(n % 10)]
  }

  function TrimZeros(s: string): (t: string)
    ensures t <= s && (AllDigits(s) ==> AllDigits(t))
  {
    if s != "" && s[|s| - 1] == '0' then TrimZeros(s[..|s| - 1]) else s
  }

  /** A count of 10^-prec units as a decimal, trailing zeros dropped. */
  function Fraction(n: nat, prec: nat): string {
    var f := TrimZeros(Padded(n, prec));
    Print(Over(n, Pow10(prec))) + if f == "" then "" else "." + f
  }

  /** Whole days as days, everything else in hours, minutes and seconds, or in the
      one small unit that leaves a digit before the point. */
  function PrintDuration(d: nat): string {
    if d != 0 && d % DAY == 0 then Print(d / DAY) + "d"
    else if d == 0 then "0s"
    else if d < 1000 then Print(d) + "ns"
    else if d < 1000_000 then Fraction(d, 3) + MICRO
    else if d < SECOND then Fraction(d, 6) + "ms"
    else
      var seconds, minutes := Fraction(d % (60 * SECOND), 9) + "s", d / (60 * SECOND);
      if minutes == 0 then seconds
      else if minutes < 60 then Print(minutes) + "m" + seconds
      else Print(minutes / 60) + "h" + (Print(minutes % 60) + "m" + seconds)
  }

  lemma {:induction false} PaddedValue(n: nat, width: nat)
    ensures NumberOf(Padded(n, width)) == n % Pow10(width)
  {
    if width > 0 {
      PaddedValue(n / 10, width - 1);
      assert Padded(n, width)[..width - 1] == Padded(n / 10, width - 1);
      SplitMod(n, Pow10(width - 1));
    }
  }

  lemma SplitMod(n: nat, p: nat)
    requires p > 0
    ensures (n / 10 % p) * 10 + n % 10 == n % (10 * p)
  {
    var q := n / 10;
    var a, b := q / p, q % p;
    assert n == 10 * q + n % 10 && q == a * p + b;
    assert n == a * (10 * p) + (b * 10 + n % 10);
    ModIs(n, 10 * p, a, b * 10 + n % 10);
  }

  lemma ModIs(n: nat, m: nat, q: nat, r: nat)
    requires m > 0 && n == q * m + r && r < m
    ensures n % m == r && n / m == q
  {
    var q', r' := n / m, n % m;
    assert (q - q') * m == r' - r;
    if q > q' { assert (q - q') * m >= m by { Mono(q - q', m); } }
    if q < q' { assert (q' - q) * m >= m by { Mono(q' - q, m); } }
  }

  lemma Mono(x: nat, m: nat)
    requires x >= 1
    ensures x * m >= m
  {
    assert x * m == m + (x - 1) * m;
  }

  lemma {:induction false} TrimZerosValue(s: string)
    requires AllDigits(s)
    ensures NumberOf(s) == Product(NumberOf(TrimZeros(s)), Pow10(|s| - |TrimZeros(s)|))
  {
    if s != "" && s[|s| - 1] == '0' {
      var t := s[..|s| - 1];
      TrimZerosValue(t);
      TenTimes(NumberOf(TrimZeros(t)), |t| - |TrimZeros(t)|);
    }
  }

  lemma TenTimes(a: nat, k: nat)
    ensures Product(a, Pow10(k)) * 10 == Product(a, Pow10(k + 1))
  {
    var p := Pow10(k);
    assert a * p * 10 == a * (10 * p);
  }

  /** A printed fraction is a numeral for exactly the count it prints. */
  lemma FractionExact(n: nat, prec: nat)
    ensures
      var s := Fraction(n, prec);
      IsNumeral(s) && Numerator(s) * Pow10(prec) == n * Scale(s)
  {
    hide IsNumeral, Numerator, Scale, NumberOf, Pow10, Print, Padded, TrimZeros;
    var p, pad := Pow10(prec), Padded(n, prec);
    var f, w := TrimZeros(pad), Over(n, p);
    ValueOfPrint(w);
    PaddedValue(n, prec);
    TrimZerosValue(pad);
    Remainder(n, p);
    if f == "" {
      EmptyIsZero();
      WholeNumeral(Print(w));
      assert Print(w) + "" == Print(w);
    } else {
      PointNumeral(Print(w), f);
      assert Print(w) + ("." + f) == Print(w) + "." + f;
      PowSum(|f|, prec - |f|);
      FractionSum(w, NumberOf(f), Pow10(|f|), Pow10(prec - |f|), p, n);
    }
  }

  lemma EmptyIsZero()
    ensures NumberOf("") == 0
  {
  }

  lemma Remainder(n: nat, p: nat)
    requires p > 0
    ensures n == Over(n, p) * p + n % p
  {
  }

  lemma FractionSum(w: nat, f: nat, a: nat, b: nat, p: nat, n: nat)
    requires a * b == p && n == w * p + f * b
    ensures (w * a + f) * p == n * a
  {
    assert (w * a + f) * p == w * a * p + f * p;
    assert n * a == w * p * a + f * b * a;
    assert f * p == f * b * a;
    assert w * a * p == w * p * a;
  }

  lemma {:induction false} PowSum(a: nat, b: nat)
    ensures Pow10(a) * Pow10(b) == Pow10(a + b)
  {
    if a > 0 {
      PowSum(a - 1, b);
      assert Pow10(a) * Pow10(b) == 10 * (Pow10(a - 1) * Pow10(b));
    }
  }

  // ------------------------------------------------------------ the round trip

  lemma {:induction false} DigitsEndIs(a: string, rest: string)
    requires AllDigits(a) && (rest == "" || !IsDigit(rest[0]))
    ensures DigitsEnd(a + rest) == |a|
  {
    if a == "" {
      assert a + rest == rest;
    } else {
      assert (a + rest)[1..] == a[1..] + rest;
      DigitsEndIs(a[1..], rest);
    }
  }

  lemma NumberEndIs(num: string, rest: string)
    requires IsNumeral(num) && rest != "" && !IsDigit(rest[0]) && rest[0] != '.'
    ensures NumberEnd(num + rest) == |num|
  {
    var i, s := PointAt(num), num + rest;
    if i == |num| {
      assert num[..i] == num;
      DigitsEndIs(num, rest);
    } else {
      var a, b := num[..i], num[i + 1..];
      assert s == a + ("." + b + rest);
      DigitsEndIs(a, "." + b + rest);
      assert s[i + 1..] == b + rest;
      DigitsEndIs(b, rest);
    }
  }

  lemma UnitAtIs(unit: string, rest: string)
    requires IsUnit(unit) && (rest == "" || IsDigit(rest[0]))
    ensures UnitAt(unit + rest) == unit && unit != "" && !IsDigit((unit + rest)[0]) && (unit + rest)[0] != '.'
  {
    var s := unit + rest;
    assert forall k | 0 <= k < |unit| :: s[k] == unit[k];
    if unit == "m" && rest != "" { assert s[1] == rest[0]; }
  }

  /** A number, its unit, and a text that starts another segment. */
  lemma FirstSegment(num: string, unit: string, rest: string)
    requires IsNumeral(num) && IsUnit(unit) && (rest == "" || IsDigit(rest[0])) && Segments(rest).Some?
    ensures Segments(num + unit + rest) == Some([Segment(num, unit)] + Segments(rest).value)
  {
    hide IsNumeral, IsUnit, UnitAt, NumberEnd;
    var s := num + unit + rest;
    UnitAtIs(unit, rest);
    NumberEndIs(num, unit + rest);
    assert num + (unit + rest) == s;
    NumeralNonEmpty(num);
    assert s[|num|..] == unit + rest && s[..|num|] == num && s[|num| + |unit|..] == rest;
  }

  lemma NumeralNonEmpty(num: string)
    requires IsNumeral(num)
    ensures num != ""
  {
  }

  lemma LastSegment(num: string, unit: string)
    requires IsNumeral(num) && IsUnit(unit)
    ensures Segments(num + unit) == Some([Segment(num, unit)])
  {
    assert Segments("") == Some([]);
    hide Segments, IsNumeral, IsUnit;
    FirstSegment(num, unit, "");
    assert num + unit + "" == num + unit;
    assert [Segment(num, unit)] + [] == [Segment(num, unit)];
  }

  /** A fraction printed in a unit of 10^prec nanoseconds stands for its count. */
  lemma FractionSegment(n: nat, prec: nat, unit: string)
    requires UnitSize(unit) == Pow10(prec) && unit != "d" && n <= MAX_INT64
    ensures SegmentValue(Segment(Fraction(n, prec), unit)) == Some(n)
  {
    hide Fraction, IsNumeral, Numerator, Scale, Pow10, UnitSize;
    FractionExact(n, prec);
    OverIs(Product(Numerator(Fraction(n, prec)), UnitSize(unit)), Scale(Fraction(n, prec)), n);
  }

  lemma WholeSegment(n: nat, unit: string)
    requires Product(n, UnitSize(unit)) <= MAX_INT64 && unit != "d"
    ensures IsNumeral(Print(n)) && SegmentValue(Segment(Print(n), unit)) == Some(Product(n, UnitSize(unit)))
  {
    ValueOfPrint(n);
    WholeNumeral(Print(n));
    OverIs(Product(n, UnitSize(unit)), 1, Product(n, UnitSize(unit)));
  }

  lemma DaySegment(n: nat)
    requires n * DAY <= MAX_INT64
    ensures IsNumeral(Print(n)) && SegmentValue(Segment(Print(n), "d")) == Some(n * DAY)
  {
    ValueOfPrint(n);
    WholeNumeral(Print(n));
    var hours := n * (3600 * SECOND);
    assert UnitSize("d") == 3600 * SECOND && Product(n, UnitSize("d")) == hours;
    hide UnitSize, Product, NumberOf, Print, IsNumeral;
    OverIs(hours, 1, hours);
    assert hours * 24 == n * DAY;
  }

  lemma PowersOfTen()
    ensures Pow10(3) == 1000 && Pow10(6) == 1000_000 && Pow10(9) == SECOND
  {
    assert Pow10(1) == 10 && Pow10(2) == 100;
    assert Pow10(4) == 10_000 && Pow10(5) == 100_000;
    assert Pow10(7) == 10_000_000 && Pow10(8) == 100_000_000;
  }

  lemma ParsedOne(num: string, unit: string, d: nat)
    requires IsNumeral(num) && IsUnit(unit) && SegmentValue(Segment(num, unit)) == Some(d)
    ensures Parsed(num + unit) == Some(d)
  {
    hide SegmentValue, IsNumeral, Segments;
    LastSegment(num, unit);
    NotZero(num, unit);
    TotalOf([], Segment(num, unit));
  }

  lemma TotalOf(gs: seq<Segment>, g: Segment)
    ensures Total([]) == Some(0) && [] + [g] == [g]
    ensures
      var t, v := Total(gs), SegmentValue(g);
      Total(gs + [g]) == if t.None? || v.None? || t.value + v.value > MAX_INT64 then None else Some(t.value + v.value)
  {
    hide SegmentValue;
    assert (gs + [g])[..|gs|] == gs;
  }

  lemma NotZero(num: string, unit: string)
    requires IsUnit(unit)
    ensures num + unit != "0"
  {
    var s := num + unit;
    assert s[|s| - 1] == unit[|unit| - 1];
  }

  /** Hours, minutes and seconds. */
  lemma ClockParses(d: nat)
    requires SECOND <= d <= MAX_INT64
    ensures
      var seconds, minutes := Fraction(d % (60 * SECOND), 9) + "s", d / (60 * SECOND);
      && Segments(seconds) == Some([Segment(Fraction(d % (60 * SECOND), 9), "s")])
      && SegmentValue(Segment(Fraction(d % (60 * SECOND), 9), "s")) == Some(d % (60 * SECOND))
      && IsDigit(seconds[0])
  {
    hide Fraction, SegmentValue, IsNumeral, Segments;
    PowersOfTen();
    FractionExact(d % (60 * SECOND), 9);
    FractionSegment(d % (60 * SECOND), 9, "s");
    LastSegment(Fraction(d % (60 * SECOND), 9), "s");
    StartsWithDigit(Fraction(d % (60 * SECOND), 9), "s");
  }

  lemma StartsWithDigit(num: string, rest: string)
    requires IsNumeral(num)
    ensures num + rest != "" && IsDigit((num + rest)[0])
  {
    assert num[..PointAt(num)][0] == num[0];
  }

  lemma Sums(a: nat, b: nat, c: nat)
    ensures Sum([a, b]) == a + b && Sum([a, b, c]) == a + b + c
  {
    var one: seq<nat>, two: seq<nat>, three: seq<nat> := [a], [a, b], [a, b, c];
    assert one[..0] == [] && two[..1] == one && three[..2] == two;
    assert Sum(one) == a;
    assert Sum(two) == a + b;
  }

  /** A whole number of a unit before a text that starts another segment. */
  lemma Prepend(n: nat, unit: string, rest: string)
    requires unit in {"m", "h"} && Segments(rest).Some? && rest != "" && IsDigit(rest[0])
    ensures Segments(Print(n) + unit + rest) == Some([Segment(Print(n), unit)] + Segments(rest).value)
    ensures Print(n) + unit + rest != "" && IsDigit((Print(n) + unit + rest)[0])
  {
    ValueOfPrint(n);
    WholeNumeral(Print(n));
    hide Segments, IsNumeral, Print, NumberOf, AllDigits;
    PrependNumeral(Print(n), unit, rest);
  }

  lemma PrependNumeral(num: string, unit: string, rest: string)
    requires IsNumeral(num) && unit in {"m", "h"} && Segments(rest).Some? && rest != "" && IsDigit(rest[0])
    ensures Segments(num + unit + rest) == Some([Segment(num, unit)] + Segments(rest).value)
    ensures num + unit + rest != "" && IsDigit((num + unit + rest)[0])
  {
    hide Segments, IsNumeral;
    FirstSegment(num, unit, rest);
    assert num + unit + rest == num + (unit + rest);
    StartsWithDigit(num, unit + rest);
  }

  lemma ParsedSum(s: string, gs: seq<Segment>, vs: seq<nat>)
    requires s != "0" && Segments(s) == Some(gs) && gs != [] && |gs| == |vs|
    requires forall i | 0 <= i < |gs| :: SegmentValue(gs[i]) == Some(vs[i])
    requires Sum(vs) <= MAX_INT64
    ensures Parsed(s) == Some(Sum(vs))
  {
    TotalIsSum(gs, vs);
  }

  /** Hours, minutes and seconds parse back to the duration they were printed for. */
  lemma ClockRoundTrip(d: nat)
    requires SECOND <= d <= MAX_INT64 && d % DAY != 0
    ensures Parsed(PrintDuration(d)) == Some(d)
  {
    hide Fraction, SegmentValue, IsNumeral, Segments, Print, Parsed;
    ClockParses(d);
    var rest, minutes := d % (60 * SECOND), d / (60 * SECOND);
    var seconds, g := Fraction(rest, 9) + "s", Segment(Fraction(rest, 9), "s");
    if minutes == 0 {
      assert Sum([rest]) == rest by { assert [rest][..0] == []; }
      NotZero(Fraction(rest, 9), "s");
      ParsedSum(seconds, [g], [rest]);
    } else if minutes < 60 {
      TwoParts(minutes, rest, seconds, g);
    } else {
      ThreeParts(minutes / 60, minutes % 60, rest, seconds, g);
      assert minutes / 60 * (3600 * SECOND) + minutes % 60 * (60 * SECOND) + rest == d;
    }
  }

  lemma TwoParts(m: nat, rest: nat, seconds: string, g: Segment)
    requires Segments(seconds) == Some([g]) && SegmentValue(g) == Some(rest) && seconds != "" && IsDigit(seconds[0])
    requires m * (60 * SECOND) + rest <= MAX_INT64
    ensures Parsed(Print(m) + "m" + seconds) == Some(m * (60 * SECOND) + rest)
  {
    hide SegmentValue, IsNumeral, Segments, Print, Parsed, Sum;
    Prepend(m, "m", seconds);
    MinuteSegment(m);
    Sums(m * (60 * SECOND), rest, 0);
    LongText(Print(m), "m", seconds);
    assert [Segment(Print(m), "m")] + [g] == [Segment(Print(m), "m"), g];
    ParsedSum(Print(m) + "m" + seconds, [Segment(Print(m), "m"), g], [m * (60 * SECOND), rest]);
  }

  lemma ThreeParts(h: nat, m: nat, rest: nat, seconds: string, g: Segment)
    requires Segments(seconds) == Some([g]) && SegmentValue(g) == Some(rest) && seconds != "" && IsDigit(seconds[0])
    requires h * (3600 * SECOND) + m * (60 * SECOND) + rest <= MAX_INT64
    ensures Parsed(Print(h) + "h" + (Print(m) + "m" + seconds)) == Some(h * (3600 * SECOND) + m * (60 * SECOND) + rest)
  {
    hide SegmentValue, IsNumeral, Segments, Print, Parsed, Sum;
    Prepend(m, "m", seconds);
    Prepend(h, "h", Print(m) + "m" + seconds);
    MinuteSegment(m);
    HourSegment(h);
    Sums(h * (3600 * SECOND), m * (60 * SECOND), rest);
    LongText(Print(h), "h", Print(m) + "m" + seconds);
    var hg, mg := Segment(Print(h), "h"), Segment(Print(m), "m");
    assert [hg] + ([mg] + [g]) == [hg, mg, g];
    ParsedSum(Print(h) + "h" + (Print(m) + "m" + seconds), [hg, mg, g], [h * (3600 * SECOND), m * (60 * SECOND), rest]);
  }

  lemma LongText(num: string, unit: string, rest: string)
    requires num != "" && unit != "" && rest != ""
    ensures num + unit + rest != "0"
  {
    assert |num + unit + rest| >= 3;
  }

  lemma MinuteSegment(m: nat)
    requires m * (60 * SECOND) <= MAX_INT64
    ensures SegmentValue(Segment(Print(m), "m")) == Some(m * (60 * SECOND))
  {
    WholeSegment(m, "m");
  }

  lemma HourSegment(h: nat)
    requires h * (3600 * SECOND) <= MAX_INT64
    ensures SegmentValue(Segment(Print(h), "h")) == Some(h * (3600 * SECOND))
  {
    WholeSegment(h, "h");
  }

  /** Every printed duration parses back to itself. */
  lemma RoundTrip(d: nat)
    requires d <= MAX_INT64
    ensures Parsed(PrintDuration(d)) == Some(d)
  {
    hide Fraction, SegmentValue, IsNumeral, Segments, Print, Parsed;
    PowersOfTen();
    if d != 0 && d % DAY == 0 {
      assert d / DAY * DAY == d;
      DaySegment(d / DAY);
      ParsedOne(Print(d / DAY), "d", d);
    } else if d == 0 {
      ZeroParses();
    } else if d < 1000 {
      WholeSegment(d, "ns");
      assert Product(d, UnitSize("ns")) == d;
      ParsedOne(Print(d), "ns", d);
    } else if d < 1000_000 {
      FractionExact(d, 3);
      assert UnitSize(MICRO) == 1000;
      FractionSegment(d, 3, MICRO);
      ParsedOne(Fraction(d, 3), MICRO, d);
    } else if d < SECOND {
      FractionExact(d, 6);
      FractionSegment(d, 6, "ms");
      ParsedOne(Fraction(d, 6), "ms", d);
    } else {
      ClockRoundTrip(d);
    }
  }

  lemma ZeroParses()
    ensures Parsed("0s") == Some(0)
  {
    assert Print(0) == "0";
    WholeSegment(0, "s");
    assert Product(0, UnitSize("s")) == 0;
    hide SegmentValue, IsNumeral, Segments, Print, Parsed;
    ParsedOne(Print(0), "s", 0);
    assert "0" + "s" == "0s";
  }

  // ------------------------------------------------------------ what is parsed

  /** The units there are: their nanoseconds, and how often a value so read counts;
      a day is read as hours, each of which counts twenty-four times. */
  predicate Counts(unit: string, size: nat, times: nat) {
    || (unit == "ns" && size == 1 && times == 1)
    || (unit in {"us", MICRO} && size == 1000 && times == 1)
    || (unit == "ms" && size == 1000_000 && times == 1)
    || (unit == "s" && size == 1000_000_000 && times == 1)
    || (unit == "m" && size == 60_000_000_000 && times == 1)
    || (unit == "h" && size == 3600_000_000_000 && times == 1)
    || (unit == "d" && size == 3600_000_000_000 && times == 24)
  }

  /** A number and a unit stand for `v` nanoseconds, a fraction of one dropped. */
  ghost predicate Reads(g: Segment, v: nat) {
    exists whole, fraction, size, times, q: nat ::
      ReadsAs(g, whole, fraction, size, times, q) && v == q * times
  }

  ghost predicate ReadsAs(g: Segment, whole: string, fraction: string, size: nat, times: nat, q: nat) {
    && Written(g.num, whole, fraction) && Counts(g.unit, size, times) && AllDigits(whole + fraction)
    && q * Pow10(|fraction|) <= NumberOf(whole + fraction) * size < q * Pow10(|fraction|) + Pow10(|fraction|)
  }

  lemma SegmentIff(g: Segment, v: nat)
    requires IsUnit(g.unit)
    ensures SegmentValue(g) == Some(v) <==> v <= MAX_INT64 && Reads(g, v)
  {
    hide NumberOf, Pow10, Written, IsNumeral, Numerator, Scale, IsUnit, UnitSize, Counts;
    UnitCounts(g.unit);
    if SegmentValue(g) == Some(v) {
      var whole, fraction := NumeralWritten(g.num);
      NumeralIs(g.num, whole, fraction);
      var size, times := UnitSize(g.unit), if g.unit == "d" then 24 else 1;
      assert ReadsAs(g, whole, fraction, size, times, Over(Product(Numerator(g.num), size), Scale(g.num)));
    }
    if whole, fraction, size, times, q: nat :| ReadsAs(g, whole, fraction, size, times, q) && v == q * times {
      NumeralIs(g.num, whole, fraction);
      CountsOnce(g.unit, size, times);
      OverOnce(Product(Numerator(g.num), size), Scale(g.num), q);
    }
  }

  lemma UnitCounts(unit: string)
    requires IsUnit(unit)
    ensures Counts(unit, UnitSize(unit), if unit == "d" then 24 else 1)
  {
  }

  lemma CountsOnce(unit: string, size: nat, times: nat)
    requires Counts(unit, size, times)
    ensures size == UnitSize(unit) && times == if unit == "d" then 24 else 1
  {
  }

  lemma OverOnce(n: nat, d: nat, q: nat)
    requires d > 0 && q * d <= n < q * d + d
    ensures Over(n, d) == q
  {
    AtLeast(Over(n, d) - q, d);
    AtLeast(q - Over(n, d), d);
  }

  /** Numbers and units, one after the other. */
  function Text(gs: seq<Segment>): string {
    if gs == [] then "" else gs[0].num + gs[0].unit + Text(gs[1..])
  }

  /** Splitting a text into numbers and units loses nothing. */
  lemma {:induction false} SegmentsSpell(s: string)
    requires Segments(s).Some?
    ensures Text(Segments(s).value) == s
    ensures forall g | g in Segments(s).value :: IsUnit(g.unit)
    decreases |s|
  {
    if s != "" {
      var g, rest := FirstOf(s);
      hide Segments, IsUnit, Text;
      SegmentsSpell(rest);
      TextOf(g, Segments(rest).value);
    } else {
      assert Segments(s) == Some([]);
    }
  }

  lemma FirstOf(s: string) returns (g: Segment, rest: string)
    requires s != "" && Segments(s).Some?
    ensures s == g.num + g.unit + rest && |rest| < |s| && IsUnit(g.unit)
    ensures Segments(rest).Some? && Segments(s) == Some([g] + Segments(rest).value)
  {
    hide NumberEnd, UnitAt, IsUnit;
    var n := NumberEnd(s);
    var unit := UnitAt(s[n..]);
    g, rest := Segment(s[..n], unit), s[n + |unit|..];
    UnitFound(s[n..]);
    assert s == s[..n] + unit + rest;
  }

  lemma UnitFound(s: string)
    ensures UnitAt(s) != "" ==> IsUnit(UnitAt(s))
  {
  }

  lemma TextOf(g: Segment, gs: seq<Segment>)
    ensures Text([g] + gs) == g.num + g.unit + Text(gs)
  {
    assert ([g] + gs)[1..] == gs;
  }

  /** And it is split one way only. */
  lemma {:induction false} SpelledOnce(gs: seq<Segment>)
    requires forall g | g in gs :: IsNumeral(g.num) && IsUnit(g.unit)
    ensures Segments(Text(gs)) == Some(gs) && (gs == [] <==> Text(gs) == "") && (gs != [] ==> IsDigit(Text(gs)[0]))
  {
    hide IsNumeral, IsUnit;
    if gs != [] {
      var g, rest := gs[0], gs[1..];
      SpelledOnce(rest);
      FirstSegment(g.num, g.unit, Text(rest));
      StartsWithDigit(g.num, g.unit + Text(rest));
      assert g.num + (g.unit + Text(rest)) == Text(gs) && [g] + rest == gs;
    }
  }

  lemma {:induction false} TotalParts(gs: seq<Segment>) returns (vs: seq<nat>)
    requires Total(gs).Some?
    ensures |vs| == |gs| && forall i | 0 <= i < |gs| :: SegmentValue(gs[i]) == Some(vs[i])
    ensures Total(gs) == Some(Sum(vs)) && Sum(vs) <= MAX_INT64
  {
    hide SegmentValue;
    if gs == [] {
      vs := [];
    } else {
      var init := TotalParts(gs[..|gs| - 1]);
      vs := init + [SegmentValue(gs[|gs| - 1]).value];
      assert vs[..|gs| - 1] == init;
    }
  }

  /** A text is numbers and units, one after the other, that stand for these values. */
  ghost predicate Spells(s: string, gs: seq<Segment>, vs: seq<nat>) {
    gs != [] && |vs| == |gs| && s == Text(gs) && forall i | 0 <= i < |gs| :: vs[i] <= MAX_INT64 && Reads(gs[i], vs[i])
  }

  /** What parses, and to what: a bare zero, or numbers each with a unit, of which
      each and the sum of all fit. */
  lemma ParsesIff(s: string, d: nat)
    ensures Parsed(s) == Some(d)
            <==> (s == "0" && d == 0) || (exists gs, vs :: Spells(s, gs, vs) && d == Sum(vs) <= MAX_INT64)
  {
    hide SegmentValue, Reads, Segments, IsUnit, IsNumeral, Sum, Total;
    if s != "0" && Parsed(s) == Some(d) {
      var gs := Segments(s).value;
      SegmentsSpell(s);
      var vs := TotalParts(gs);
      forall i | 0 <= i < |gs| ensures vs[i] <= MAX_INT64 && Reads(gs[i], vs[i]) {
        assert gs[i] in gs;
        SegmentIff(gs[i], vs[i]);
      }
      assert Spells(s, gs, vs);
    }
    if gs: seq<Segment>, vs: seq<nat> :| Spells(s, gs, vs) && d == Sum(vs) <= MAX_INT64 {
      forall i | 0 <= i < |gs| ensures IsNumeral(gs[i].num) && IsUnit(gs[i].unit) && SegmentValue(gs[i]) == Some(vs[i]) {
        ReadsUnit(gs[i], vs[i]);
        SegmentIff(gs[i], vs[i]);
      }
      SpelledOnce(gs);
      ZeroAlone();
      ParsedSum(s, gs, vs);
    }
  }

  lemma ReadsUnit(g: Segment, v: nat)
    requires Reads(g, v)
    ensures IsUnit(g.unit) && IsNumeral(g.num)
  {
    var whole, fraction, size, times, q: nat :| ReadsAs(g, whole, fraction, size, times, q) && v == q * times;
    NumeralIs(g.num, whole, fraction);
  }

  /** A bare zero has no unit. */
  lemma ZeroAlone()
    ensures Segments("0").None?
  {
    assert DigitsEnd("0"[1..]) == 0 && DigitsEnd("0") == 1;
    assert "0"[1..] == "";
  }

  /** Whole days print as days. */
  lemma DaysPrint(n: nat)
    requires n > 0
    ensures PrintDuration(n * DAY) == Print(n) + "d"
  {
    var d := n * DAY;
    assert d % DAY == 0 && d / DAY == n && d != 0;
  }
}
