/** Unsigned decimal numerals. */
module Decimals {
  const MAX_INT64 := 0x7fff_ffff_ffff_ffff

  predicate IsDigit(c: char) {
    '0' <= c <= '9'
  }

  predicate AllDigits(s: string) {
    forall i | 0 <= i < |s| :: IsDigit(s[i])
  }

  function Digit(c: char): (n: nat)
    requires IsDigit(c)
    ensures n < 10
  {
    (c - '0') as nat
  }

  function ToChar(n: nat): (c: char)
    requires n < 10
    ensures IsDigit(c) && Digit(c) == n
  {
    '0' + n as char
  }

  function Pow10(k: nat): (n: nat)
    ensures n > 0
  {
    if k == 0 then 1 else 10 * Pow10(k - 1)
  }

  /** Whole units of `d` in `n`. */
  function Over(n: nat, d: nat): (q: nat)
    requires d > 0
    ensures q * d <= n < q * d + d
  {
    n / d
  }

  lemma OverIs(n: nat, d: nat, q: nat)
    requires d > 0 && n == q * d
    ensures Over(n, d) == q
  {
    AtLeast(Over(n, d) - q, d);
    AtLeast(q - Over(n, d), d);
  }

  lemma AtLeast(x: int, d: nat)
    ensures x >= 1 ==> x * d >= d
  {
    if x >= 1 { assert x * d == d + (x - 1) * d; }
  }

  function NumberOf(s: string): nat
    requires AllDigits(s)
  {
    if s == "" then 0 else NumberOf(s[..|s| - 1]) * 10 + Digit(s[|s| - 1])
  }

  /** A number's shortest numeral. */
  function Print(n: nat): (s: string)
    ensures |s| > 0 && AllDigits(s)
  {
    if n < 10 then [ToChar(n)] else Print(n / 10) + [ToChar(n % 10)]
  }

  lemma {:induction false} ValueOfPrint(n: nat)
    ensures NumberOf(Print(n)) == n
  {
    if n < 10 {
      assert Print(n)[..0] == "";
    } else {
      ValueOfPrint(n / 10);
      assert Print(n)[..|Print(n)| - 1] == Print(n / 10);
    }
  }

  // ------------------------------------------------------------- with a point

  /** Where a numeral's point is, or its length. */
  function PointAt(s: string): (i: nat)
    ensures i <= |s| && (i < |s| ==> s[i] == '.') && forall j | 0 <= j < i :: s[j] != '.'
  {
    if s == "" || s[0] == '.' then 0 else 1 + PointAt(s[1..])
  }

  /** Digits, or digits around a point. */
  predicate IsNumeral(s: string) {
    var i := PointAt(s);
    0 < i && AllDigits(s[..i]) && (i < |s| ==> i + 1 < |s| && AllDigits(s[i + 1..]))
  }

  /** The numeral's digits read as one number. */
  function Numerator(s: string): nat
    requires IsNumeral(s)
  {
    var i := PointAt(s);
    if i == |s| then NumberOf(s[..i]) else NumberOf(s[..i]) * Pow10(|s| - i - 1) + NumberOf(s[i + 1..])
  }

  /** What that number counts: units, tenths, hundredths, and so on. */
  function Scale(s: string): (n: nat)
    requires IsNumeral(s)
    ensures n > 0
  {
    var i := PointAt(s);
    if i == |s| then 1 else Pow10(|s| - i - 1)
  }

  lemma WholeNumeral(s: string)
    requires s != "" && AllDigits(s)
    ensures PointAt(s) == |s| && IsNumeral(s) && Numerator(s) == NumberOf(s) && Scale(s) == 1
  {
    assert s[..|s|] == s;
  }

  lemma PointNumeral(a: string, b: string)
    requires a != "" && b != "" && AllDigits(a) && AllDigits(b)
    ensures
      var s := a + "." + b;
      && PointAt(s) == |a| && s[..|a|] == a && s[|a| + 1..] == b
      && IsNumeral(s) && Numerator(s) == NumberOf(a) * Pow10(|b|) + NumberOf(b) && Scale(s) == Pow10(|b|)
  {
    var s := a + "." + b;
    assert s[|a|] == '.' && forall i | 0 <= i < |a| :: s[i] == a[i];
    assert s[..|a|] == a && s[|a| + 1..] == b;
  }

  lemma TimesTen(n: nat, p: nat)
    ensures n * (10 * p) == (n * p) * 10
  {
  }

  /** A numeral is its digits before and behind the point. */
  lemma {:induction false} Digits(a: string, b: string)
    requires AllDigits(a) && AllDigits(b)
    ensures AllDigits(a + b) && NumberOf(a + b) == NumberOf(a) * Pow10(|b|) + NumberOf(b)
  {
    if b == "" {
      assert a + b == a;
    } else {
      var init := b[..|b| - 1];
      Digits(a, init);
      assert (a + b)[..|a + b| - 1] == a + init && (a + b)[|a + b| - 1] == b[|b| - 1];
      TimesTen(NumberOf(a), Pow10(|init|));
    }
  }

  /** A number as it is written: digits, and a point and more digits if there is a
      fraction. */
  predicate Written(num: string, whole: string, fraction: string) {
    && whole != "" && AllDigits(whole) && AllDigits(fraction)
    && num == whole + if fraction == "" then "" else "." + fraction
  }

  lemma NumeralIs(num: string, whole: string, fraction: string)
    requires Written(num, whole, fraction)
    ensures IsNumeral(num) && (PointAt(num) == |num| <==> fraction == "")
    ensures AllDigits(whole + fraction) && Numerator(num) == NumberOf(whole + fraction) && Scale(num) == Pow10(|fraction|)
  {
    hide NumberOf;
    Digits(whole, fraction);
    if fraction == "" {
      assert num == whole && whole + fraction == whole;
      WholeNumeral(whole);
    } else {
      assert num == whole + "." + fraction;
      PointNumeral(whole, fraction);
    }
  }

  lemma NumeralWritten(num: string) returns (whole: string, fraction: string)
    requires IsNumeral(num)
    ensures Written(num, whole, fraction)
  {
    var i := PointAt(num);
    whole, fraction := num[..i], if i == |num| then "" else num[i + 1..];
    if i == |num| { assert num[..i] == num && num + "" == num; } else { assert num == num[..i] + "." + num[i + 1..]; }
  }
}
