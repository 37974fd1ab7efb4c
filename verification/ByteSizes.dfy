/** Byte counts with a unit suffix (pkg/config/bytesize.go): the parser and the
    printer undo each other. */
module ByteSizes {
  import opened Records
  import opened Decimals

  const KIB: nat := 1024
  const MIB: nat := 1024 * KIB
  const GIB: nat := 1024 * MIB
  const TIB: nat := 1024 * GIB

  predicate IsMultiplier(unit: string) {
    unit in {"KB", "MB", "GB", "TB", "KiB", "MiB", "GiB", "TiB"}
  }

  function UnitSize(unit: string): nat {
    if unit == "KB" then 1000
    else if unit == "MB" then 1000_000
    else if unit == "GB" then 1000_000_000
    else if unit == "TB" then 1000_000_000_000
    else if unit == "KiB" then KIB
    else if unit == "MiB" then MIB
    else if unit == "GiB" then GIB
    else if unit == "TiB" then TIB
    else 1
  }

  /** A whole number with any unit or none, or a fractional one with a multiplier. */
  predicate Conforms(num: string, unit: string) {
    && IsNumeral(num)
    && (IsMultiplier(unit) || (PointAt(num) == |num| && unit in {"", "B"}))
  }

  predicate UnitChar(c: char) {
    c in {'B', 'K', 'M', 'G', 'T', 'i'}
  }

  /** The text before any trailing unit letters. */
  function TrimUnit(s: string): (num: string)
    ensures num <= s
  {
    if s == "" || !UnitChar(s[|s| - 1]) then s else TrimUnit(s[..|s| - 1])
  }

  lemma NumeralEnds(num: string)
    requires IsNumeral(num)
    ensures num != "" && IsDigit(num[|num| - 1])
  {
    var i := PointAt(num);
    if i < |num| {
      assert num[|num| - 1] == num[i + 1..][|num| - i - 2];
    } else {
      assert num[..i] == num;
    }
  }

  lemma UnitLetters(unit: string)
    requires IsMultiplier(unit) || unit in {"", "B"}
    ensures forall j | 0 <= j < |unit| :: UnitChar(unit[j])
  {
  }

  /** Cutting off the trailing unit letters finds the one way a text can be split
      into a number and a unit. */
  lemma SplitIsUnique(s: string, k: nat)
    requires k <= |s| && Conforms(s[..k], s[k..])
    ensures TrimUnit(s) == s[..k]
  {
    hide Conforms, TrimUnit;
    TrimsTheUnit(s[..k], s[k..]);
    assert s[..k] + s[k..] == s;
  }

  lemma TrimsTheUnit(num: string, unit: string)
    requires Conforms(num, unit)
    ensures TrimUnit(num + unit) == num
  {
    NumeralEnds(num);
    UnitLetters(unit);
    hide IsNumeral, IsMultiplier, TrimUnit;
    TrimsTo(num, unit);
  }

  lemma {:induction false} TrimsTo(num: string, unit: string)
    requires num != "" && !UnitChar(num[|num| - 1]) && forall j | 0 <= j < |unit| :: UnitChar(unit[j])
    ensures TrimUnit(num + unit) == num
  {
    if unit == "" {
      assert num + unit == num;
    } else {
      assert (num + unit)[..|num + unit| - 1] == num + unit[..|unit| - 1];
      TrimsTo(num, unit[..|unit| - 1]);
    }
  }

  function ParseByteSize(s: string): Option<nat> {
    var num := TrimUnit(s);
    var unit := s[|num|..];
    if !Conforms(num, unit) then None
    else
      var n := Numerator(num) * UnitSize(unit);
      if n % Scale(num) != 0 then None
      else if n / Scale(num) > MAX_INT64 then None
      else Some(n / Scale(num))
  }

  /** `b` bytes are exactly `num` units. */
  predicate Names(num: string, unit: string, b: nat)
    requires IsNumeral(num)
  {
    b * Scale(num) == Numerator(num) * UnitSize(unit)
  }

  /** Parsing answers with the exact product, whenever the text is a number and a
      unit whose product is a whole number of bytes that fits. */
  lemma ParseIsExact(s: string, b: nat)
    ensures ParseByteSize(s) == Some(b)
            <==> b <= MAX_INT64 && exists k :: 0 <= k <= |s| && Conforms(s[..k], s[k..]) && Names(s[..k], s[k..], b)
  {
    var num := TrimUnit(s);
    var unit := s[|num|..];
    assert s[..|num|] == num;
    if Conforms(num, unit) { ExactQuotient(Numerator(num) * UnitSize(unit), Scale(num), b); }
    if k :| 0 <= k <= |s| && Conforms(s[..k], s[k..]) && Names(s[..k], s[k..], b) {
      SplitIsUnique(s, k);
    }
  }

  lemma ExactQuotient(n: nat, d: nat, b: nat)
    requires d > 0
    ensures (n % d == 0 && n / d == b) <==> b * d == n
  {
    if b * d == n {
      assert n / d == b && n % d == 0 by { QuotientOf(b, d); }
    }
  }

  lemma QuotientOf(b: nat, d: nat)
    requires d > 0
    ensures (b * d) / d == b && (b * d) % d == 0
  {
    var q, r := (b * d) / d, (b * d) % d;
    AtLeastOne(b - q, d);
    AtLeastOne(q - b, d);
    assert (b - q) * d == r;
    assert (q - b) * d == -r;
  }

  lemma AtLeastOne(x: int, d: nat)
    ensures x >= 1 ==> x * d >= d
  {
    if x >= 1 { assert x * d == d + (x - 1) * d; }
  }

  /** The units there are, and the bytes in each. */
  predicate Counts(unit: string, size: nat) {
    || (unit in {"", "B"} && size == 1)
    || (unit == "KB" && size == 1000) || (unit == "KiB" && size == 1024)
    || (unit == "MB" && size == 1000_000) || (unit == "MiB" && size == 1_048_576)
    || (unit == "GB" && size == 1000_000_000) || (unit == "GiB" && size == 1_073_741_824)
    || (unit == "TB" && size == 1000_000_000_000) || (unit == "TiB" && size == 1_099_511_627_776)
  }

  /** The text is a number with a unit or none, a fraction only with a multiplier,
      and names exactly `b` bytes. */
  ghost predicate Reads(s: string, b: nat) {
    exists whole, fraction, unit, size ::
      ReadsAs(s, whole, fraction, unit, size) && b * Pow10(|fraction|) == NumberOf(whole + fraction) * size
  }

  ghost predicate ReadsAs(s: string, whole: string, fraction: string, unit: string, size: nat) {
    && whole != "" && AllDigits(whole) && AllDigits(fraction) && AllDigits(whole + fraction) && Counts(unit, size)
    && s == whole + (if fraction == "" then "" else "." + fraction) + unit
    && (fraction != "" ==> unit !in {"", "B"})
  }

  /** What parses, and to what. */
  lemma ParsesIff(s: string, b: nat)
    ensures ParseByteSize(s) == Some(b) <==> b <= MAX_INT64 && Reads(s, b)
  {
    ParseIsExact(s, b);
    hide ParseByteSize, NumberOf, IsNumeral, IsMultiplier, Counts, Written, UnitSize, Numerator, Scale, Pow10;
    if k :| 0 <= k <= |s| && Conforms(s[..k], s[k..]) && Names(s[..k], s[k..], b) {
      var num, unit := s[..k], s[k..];
      assert s == num + unit;
      ConformsMeans(num, unit);
      var whole, fraction := NumeralWritten(num);
      NumeralIs(num, whole, fraction);
      assert ReadsAs(s, whole, fraction, unit, UnitSize(unit)) by { WrittenMeans(num, whole, fraction); }
    }
    if whole, fraction, unit, size :| ReadsAs(s, whole, fraction, unit, size)
                                      && b * Pow10(|fraction|) == NumberOf(whole + fraction) * size {
      var num := whole + if fraction == "" then "" else "." + fraction;
      WrittenMeans(num, whole, fraction);
      NumeralIs(num, whole, fraction);
      CountsMeans(num, unit, size);
      assert s[..|num|] == num && s[|num|..] == unit;
    }
  }

  lemma WrittenMeans(num: string, whole: string, fraction: string)
    ensures Written(num, whole, fraction) <==>
              && whole != "" && AllDigits(whole) && AllDigits(fraction)
              && num == whole + if fraction == "" then "" else "." + fraction
  {
  }

  lemma ConformsMeans(num: string, unit: string)
    requires Conforms(num, unit)
    ensures IsNumeral(num) && Counts(unit, UnitSize(unit)) && (PointAt(num) < |num| ==> unit !in {"", "B"})
  {
  }

  lemma CountsMeans(num: string, unit: string, size: nat)
    requires IsNumeral(num) && Counts(unit, size) && (PointAt(num) < |num| ==> unit !in {"", "B"})
    ensures Conforms(num, unit) && UnitSize(unit) == size
  {
  }

  /** The largest binary unit that divides the value exactly. */
  function PrintByteSize(b: nat): string {
    if b == 0 then Print(b)
    else if b % TIB == 0 then Print(b / TIB) + "TiB"
    else if b % GIB == 0 then Print(b / GIB) + "GiB"
    else if b % MIB == 0 then Print(b / MIB) + "MiB"
    else if b % KIB == 0 then Print(b / KIB) + "KiB"
    else Print(b)
  }

  /** A size prints in the largest binary unit that divides it. */
  lemma PrintsLargest(b: nat) returns (n: nat, unit: string, size: nat)
    requires b > 0
    ensures PrintByteSize(b) == Print(n) + unit && unit in {"", "KiB", "MiB", "GiB", "TiB"} && Counts(unit, size) && n * size == b
    ensures forall u, z: nat | u in {"KiB", "MiB", "GiB", "TiB"} && Counts(u, z) && z > 0 && b % z == 0 :: z <= size
  {
    if b % TIB == 0 { n, unit, size := b / TIB, "TiB", TIB; }
    else if b % GIB == 0 { n, unit, size := b / GIB, "GiB", GIB; }
    else if b % MIB == 0 { n, unit, size := b / MIB, "MiB", MIB; }
    else if b % KIB == 0 { n, unit, size := b / KIB, "KiB", KIB; }
    else { n, unit, size := b, "", 1; assert Print(b) + "" == Print(b); }
  }

  lemma PrintedNames(n: nat, unit: string, b: nat)
    requires (IsMultiplier(unit) || unit == "") && n * UnitSize(unit) == b <= MAX_INT64
    ensures ParseByteSize(Print(n) + unit) == Some(b)
  {
    var num, s := Print(n), Print(n) + unit;
    ValueOfPrint(n);
    WholeNumeral(num);
    assert s[..|num|] == num && s[|num|..] == unit;
    ParseIsExact(s, b);
  }

  /** Every printed byte size parses back to itself. */
  lemma RoundTrip(b: nat)
    requires b <= MAX_INT64
    ensures ParseByteSize(PrintByteSize(b)) == Some(b)
  {
    if b == 0 { PrintedNames(b, "", b); assert Print(b) + "" == Print(b); }
    else if b % TIB == 0 { PrintedNames(b / TIB, "TiB", b); }
    else if b % GIB == 0 { PrintedNames(b / GIB, "GiB", b); }
    else if b % MIB == 0 { PrintedNames(b / MIB, "MiB", b); }
    else if b % KIB == 0 { PrintedNames(b / KIB, "KiB", b); }
    else { PrintedNames(b, "", b); assert Print(b) + "" == Print(b); }
  }
}
