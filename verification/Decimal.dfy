/** Two ways of comparing decimal numerals: the Rust verifier walks digit strings, the Python one cross-multiplies
    integers. They always agree. */
module Decimal {
  import opened TextOrder

  // ---------- Numerals ----------

  predicate Digits(s: string) {
    forall i :: 0 <= i < |s| ==> '0' <= s[i] <= '9'
  }

  function Strip(s: string): string {
    if s != "" && s[0] == '-' then s[1..] else s
  }

  /** The position of the first point, or the length. */
  function PointAt(s: string): (n: nat)
    ensures n <= |s| && (n < |s| ==> s[n] == '.') && forall i :: 0 <= i < n ==> s[i] != '.'
  {
    if s == "" || s[0] == '.' then 0 else 1 + PointAt(s[1..])
  }

  function Whole(s: string): string {
    s[..PointAt(s)]
  }

  function Fraction(s: string): string {
    if PointAt(s) == |s| then "" else s[PointAt(s) + 1..]
  }

  /** A sign, whole digits, and possibly a point with more digits; leading and trailing zeros are allowed. */
  predicate Numeral(s: string) {
    Whole(Strip(s)) != "" && Digits(Whole(Strip(s))) && Digits(Fraction(Strip(s)))
  }

  // ---------- The Rust comparison ----------

  function TrimStart(s: string): string {
    if s != "" && s[0] == '0' then TrimStart(s[1..]) else s
  }

  function TrimEnd(s: string): string {
    if s != "" && s[|s| - 1] == '0' then TrimEnd(s[..|s| - 1]) else s
  }

  function OrZero(s: string): string {
    if s == "" then "0" else s
  }

  function CompareUnsigned(a: string, b: string): Ordering {
    var left, right := OrZero(TrimStart(a)), OrZero(TrimStart(b));
    Then(CompareInts(|left|, |right|), CompareText(left, right))
  }

  function Padded(s: string, length: nat): string
    decreases length - |s|
  {
    if |s| >= length then s else Padded(s + "0", length)
  }

  datatype Parts = Parts(negative: bool, whole: string, fraction: string)

  function RationalParts(s: string): Parts {
    var value := Strip(s);
    var whole := OrZero(TrimStart(Whole(value)));
    var fraction := TrimEnd(Fraction(value));
    Parts(s != "" && s[0] == '-' && !(whole == "0" && fraction == ""), whole, fraction)
  }

  function CompareMagnitude(a: Parts, b: Parts): Ordering {
    var length := if |a.fraction| < |b.fraction| then |b.fraction| else |a.fraction|;
    Then(CompareUnsigned(a.whole, b.whole),
         CompareText(Padded(a.fraction, length), Padded(b.fraction, length)))
  }

  function CompareNumeric(a: string, b: string): Ordering {
    var left, right := RationalParts(a), RationalParts(b);
    CompareSigned(left.negative, right.negative, CompareMagnitude(left, right))
  }

  /** The order of two signed numbers whose magnitudes compare as given. */
  function CompareSigned(leftNegative: bool, rightNegative: bool, magnitudes: Ordering): Ordering {
    if leftNegative == rightNegative then if leftNegative then Reversed(magnitudes) else magnitudes
    else if leftNegative then Less
    else Greater
  }

  // ---------- The Python comparison ----------

  function Pow10(n: nat): (p: nat)
    ensures p > 0
  {
    if n == 0 then 1 else 10 * Pow10(n - 1)
  }

  function DigitsValue(s: string): nat
    requires Digits(s)
  {
    if s == "" then 0 else 10 * DigitsValue(s[..|s| - 1]) + (s[|s| - 1] as int - '0' as int)
  }

  function Denominator(s: string): (d: nat)
    ensures d > 0
  {
    Pow10(|Fraction(Strip(s))|)
  }

  function Magnitude(s: string): nat
    requires Numeral(s)
  {
    DigitsValue(Whole(Strip(s))) * Denominator(s) + DigitsValue(Fraction(Strip(s)))
  }

  function Signed(negative: bool, magnitude: nat): int {
    if negative then 0 - magnitude else magnitude
  }

  function Numerator(s: string): int
    requires Numeral(s)
  {
    Signed(s[0] == '-', Magnitude(s))
  }

  /** The sign of m/d - n/e, found by cross-multiplying. */
  function CompareFractions(m: int, d: nat, n: int, e: nat): Ordering {
    CompareInts(m * e - n * d, 0)
  }

  function CompareRational(a: string, b: string): Ordering
    requires Numeral(a) && Numeral(b)
  {
    CompareFractions(Numerator(a), Denominator(a), Numerator(b), Denominator(b))
  }

  // ---------- Values of digit strings ----------

  lemma {:induction false} Pow10Adds(m: nat, n: nat)
    ensures Pow10(m + n) == Pow10(m) * Pow10(n)
  {
    if m > 0 {
      Pow10Adds(m - 1, n);
      assert Pow10(m + n) == 10 * Pow10(m - 1 + n);
    }
  }

  lemma {:induction false} ValueBounded(s: string)
    requires Digits(s)
    ensures DigitsValue(s) < Pow10(|s|)
  {
    if s != "" {
      ValueBounded(s[..|s| - 1]);
    }
  }

  /** A digit string read from the left. */
  lemma {:induction false} ValueFromLeft(s: string)
    requires Digits(s) && s != ""
    ensures DigitsValue(s) == (s[0] as int - '0' as int) * Pow10(|s| - 1) + DigitsValue(s[1..])
  {
    if |s| == 1 {
      assert s[..0] == "" && s[1..] == "";
    } else {
      var front := s[..|s| - 1];
      ValueFromLeft(front);
      assert front[1..] == s[1..][..|s[1..]| - 1];
      Regroup(s[0] as int - '0' as int, Pow10(|s| - 2));
    }
  }

  lemma Regroup(v: nat, p: nat)
    ensures (10 * v) * p == v * (10 * p) == 10 * (v * p)
  {
  }

  lemma AtLeastOnce(d: int, p: nat)
    requires d >= 1
    ensures p <= d * p
  {
    assert d * p == (d - 1) * p + p;
  }

  lemma {:induction false} TrimStartValue(s: string)
    requires Digits(s)
    ensures Digits(TrimStart(s)) && DigitsValue(TrimStart(s)) == DigitsValue(s)
    ensures TrimStart(s) == "" || TrimStart(s)[0] != '0'
  {
    if s != "" && s[0] == '0' {
      ValueFromLeft(s);
      TrimStartValue(s[1..]);
    }
  }

  lemma {:induction false} TrimEndValue(s: string)
    requires Digits(s)
    ensures Digits(TrimEnd(s)) && |TrimEnd(s)| <= |s|
    ensures DigitsValue(s) == DigitsValue(TrimEnd(s)) * Pow10(|s| - |TrimEnd(s)|)
    ensures TrimEnd(s) == "" <==> DigitsValue(s) == 0
  {
    if s != "" && s[|s| - 1] == '0' {
      var front := s[..|s| - 1];
      TrimEndValue(front);
      Regroup(DigitsValue(TrimEnd(front)), Pow10(|front| - |TrimEnd(front)|));
    }
  }

  lemma {:induction false} PaddedValue(s: string, length: nat)
    requires Digits(s) && |s| <= length
    ensures Digits(Padded(s, length)) && |Padded(s, length)| == length
    ensures DigitsValue(Padded(s, length)) == DigitsValue(s) * Pow10(length - |s|)
    decreases length - |s|
  {
    if |s| < length {
      assert (s + "0")[..|s|] == s;
      assert DigitsValue(s + "0") == 10 * DigitsValue(s);
      PaddedValue(s + "0", length);
      Regroup(DigitsValue(s), Pow10(length - |s| - 1));
      hide DigitsValue;
    }
  }

  // ---------- Comparing digit strings ----------

  lemma {:induction false} SameLengthCompares(a: string, b: string)
    requires Digits(a) && Digits(b) && |a| == |b|
    ensures CompareText(a, b) == CompareInts(DigitsValue(a), DigitsValue(b))
  {
    if a != "" {
      ValueFromLeft(a);
      ValueFromLeft(b);
      ValueBounded(a[1..]);
      ValueBounded(b[1..]);
      hide DigitsValue, Pow10, CompareInts;
      var d: int, e: int := a[0] as int - '0' as int, b[0] as int - '0' as int;
      var p := Pow10(|a| - 1);
      if d == e {
        SameLengthCompares(a[1..], b[1..]);
      } else if d < e {
        LeadingDigitWins(d, e, p, DigitsValue(a[1..]), DigitsValue(b[1..]));
      } else {
        LeadingDigitWins(e, d, p, DigitsValue(b[1..]), DigitsValue(a[1..]));
      }
    }
  }

  lemma LeadingDigitWins(d: int, e: int, p: nat, x: nat, y: nat)
    requires d < e && x < p
    ensures d * p + x < e * p + y
  {
    assert (d + 1) * p <= e * p;
  }

  lemma ShorterIsSmaller(a: string, b: string)
    requires Digits(a) && Digits(b) && |a| < |b| && b[0] != '0'
    ensures DigitsValue(a) < DigitsValue(b)
  {
    ValueBounded(a);
    ValueFromLeft(b);
    Pow10Grows(|a|, |b| - 1);
    AtLeastOnce(b[0] as int - '0' as int, Pow10(|b| - 1));
    hide DigitsValue, Pow10;
  }

  lemma {:induction false} Pow10Grows(m: nat, n: nat)
    requires m <= n
    ensures Pow10(m) <= Pow10(n)
  {
    if m < n {
      Pow10Grows(m, n - 1);
    }
  }

  /** Comparing by trimmed length and then by text compares the values. */
  lemma UnsignedCompares(a: string, b: string)
    requires Digits(a) && Digits(b)
    ensures CompareUnsigned(a, b) == CompareInts(DigitsValue(a), DigitsValue(b))
  {
    TrimStartValue(a);
    TrimStartValue(b);
    var left, right := OrZero(TrimStart(a)), OrZero(TrimStart(b));
    ZeroValue(TrimStart(a));
    ZeroValue(TrimStart(b));
    if |left| < |right| {
      ShorterIsSmaller(TrimStart(a), right);
    } else if |right| < |left| {
      ShorterIsSmaller(TrimStart(b), left);
    } else {
      SameLengthCompares(left, right);
    }
  }

  lemma ZeroValue(s: string)
    requires Digits(s)
    ensures Digits(OrZero(s)) && DigitsValue(OrZero(s)) == DigitsValue(s)
  {
    assert "0"[..0] == "";
  }

  // ---------- Comparing magnitudes ----------

  /** A numeral's magnitude over a common denominator of 10^length. */
  function Scaled(p: Parts, length: nat): nat
    requires Digits(p.whole) && Digits(p.fraction) && |p.fraction| <= length
  {
    DigitsValue(p.whole) * Pow10(length) + DigitsValue(p.fraction) * Pow10(length - |p.fraction|)
  }

  lemma PartsAreDigits(s: string)
    requires Numeral(s)
    ensures var p := RationalParts(s);
            && Digits(p.whole) && Digits(p.fraction) && |p.fraction| <= |Fraction(Strip(s))|
            && DigitsValue(p.whole) == DigitsValue(Whole(Strip(s)))
            && DigitsValue(Fraction(Strip(s)))
               == DigitsValue(p.fraction) * Pow10(|Fraction(Strip(s))| - |p.fraction|)
            && (p.negative <==> s[0] == '-' && Magnitude(s) > 0)
  {
    var value := Strip(s);
    TrimStartValue(Whole(value));
    ZeroValue(TrimStart(Whole(value)));
    TrimEndValue(Fraction(value));
    WholeIsZero(Whole(value));
    hide Pow10, DigitsValue, TrimEnd, TrimStart, Whole, Fraction;
    ProductPositive(DigitsValue(Whole(value)), Denominator(s));
  }

  lemma ProductPositive(w: nat, d: nat)
    requires d > 0
    ensures w * d > 0 <==> w > 0
  {
    if w > 0 {
      AtLeastOnce(w, d);
    }
  }

  lemma WholeIsZero(s: string)
    requires Digits(s)
    ensures OrZero(TrimStart(s)) == "0" <==> DigitsValue(s) == 0
  {
    TrimStartValue(s);
    var t := TrimStart(s);
    if t != "" {
      ValueFromLeft(t);
      AtLeastOnce(t[0] as int - '0' as int, Pow10(|t| - 1));
    }
    hide Pow10;
  }

  lemma MagnitudeCompares(a: Parts, b: Parts, length: nat)
    requires Digits(a.whole) && Digits(a.fraction) && Digits(b.whole) && Digits(b.fraction)
    requires length == if |a.fraction| < |b.fraction| then |b.fraction| else |a.fraction|
    ensures CompareMagnitude(a, b) == CompareInts(Scaled(a, length), Scaled(b, length))
  {
    var x, y := Padded(a.fraction, length), Padded(b.fraction, length);
    UnsignedCompares(a.whole, b.whole);
    PaddedValue(a.fraction, length);
    PaddedValue(b.fraction, length);
    SameLengthCompares(x, y);
    ValueBounded(x);
    ValueBounded(y);
    var v, w := DigitsValue(a.whole), DigitsValue(b.whole);
    if v < w {
      LeadingDigitWins(v, w, Pow10(length), DigitsValue(x), DigitsValue(y));
    } else if w < v {
      LeadingDigitWins(w, v, Pow10(length), DigitsValue(y), DigitsValue(x));
    }
  }

  /** The trimmed parts, scaled, stand for the same rational as the numeral. */
  lemma ScaledMeans(s: string, length: nat)
    requires Numeral(s)
    requires var p := RationalParts(s); Digits(p.whole) && Digits(p.fraction) && |p.fraction| <= length
    ensures Magnitude(s) * Pow10(length) == Scaled(RationalParts(s), length) * Denominator(s)
  {
    hide RationalParts, Whole, Fraction, DigitsValue, Pow10, Numeral, Strip;
    PartsAreDigits(s);
    var p, n := RationalParts(s), |Fraction(Strip(s))|;
    var k := |p.fraction|;
    Pow10Swap(n, k, length);
    ScalingAlgebra(DigitsValue(p.whole), DigitsValue(p.fraction), Pow10(n - k), Pow10(length), Pow10(length - k), Pow10(n));
  }

  lemma Pow10Swap(n: nat, k: nat, length: nat)
    requires k <= n && k <= length
    ensures Pow10(n - k) * Pow10(length) == Pow10(length - k) * Pow10(n)
  {
    Pow10Adds(n - k, length);
    Pow10Adds(length - k, n);
    assert (n - k) + length == (length - k) + n;
  }

  lemma ScalingAlgebra(v: nat, f: nat, a: nat, b: nat, c: nat, d: nat)
    requires a * b == c * d
    ensures (v * d + f * a) * b == (v * b + f * c) * d
  {
    assert (v * d + f * a) * b == v * d * b + f * (a * b);
    assert (v * b + f * c) * d == v * b * d + f * (c * d);
    assert v * d * b == v * b * d;
  }

  /** Cross-multiplied magnitudes compare as the scaled ones. */
  lemma CrossMultiplied(a: string, b: string)
    requires Numeral(a) && Numeral(b)
    ensures CompareMagnitude(RationalParts(a), RationalParts(b))
            == CompareFractions(Magnitude(a), Denominator(a), Magnitude(b), Denominator(b))
  {
    var p, q := RationalParts(a), RationalParts(b);
    var length := if |p.fraction| < |q.fraction| then |q.fraction| else |p.fraction|;
    PartsAreDigits(a);
    PartsAreDigits(b);
    MagnitudeCompares(p, q, length);
    ScaledMeans(a, length);
    ScaledMeans(b, length);
    CrossAlgebra(Magnitude(a), Magnitude(b), Denominator(a), Denominator(b), Scaled(p, length), Scaled(q, length),
                 Pow10(length));
  }

  lemma CrossAlgebra(m: nat, n: nat, d: nat, e: nat, x: nat, y: nat, t: nat)
    requires m * t == x * d && n * t == y * e && d > 0 && e > 0 && t > 0
    ensures CompareFractions(m, d, n, e) == CompareInts(x, y)
  {
    assert (m * e) * t == (x * d) * e by { assert (m * e) * t == (m * t) * e; }
    assert (n * d) * t == (y * e) * d by { assert (n * d) * t == (n * t) * d; }
    assert (x * d) * e == x * (d * e) && (y * e) * d == y * (d * e);
    ScaleCompares(m * e, n * d, t);
    ScaleCompares(x, y, d * e);
  }

  lemma ScaleCompares(a: int, b: int, k: nat)
    requires k > 0
    ensures CompareInts(a * k, b * k) == CompareInts(a, b)
  {
    if a < b {
      assert (a + 1) * k <= b * k;
    } else if b < a {
      assert (b + 1) * k <= a * k;
    }
  }

  // ---------- The comparisons agree ----------

  /** Minus zero does not count as negative. */
  lemma NegativeMeans(s: string)
    requires Numeral(s)
    ensures RationalParts(s).negative <==> s[0] == '-' && Magnitude(s) > 0
  {
    hide RationalParts, Magnitude, Pow10, DigitsValue;
    PartsAreDigits(s);
  }

  lemma NumeralNonempty(s: string)
    requires Numeral(s)
    ensures s != ""
  {
  }

  /** On every pair of numerals the digit walk gives the sign of the exact rational difference. */
  lemma ComparisonsAgree(a: string, b: string)
    requires Numeral(a) && Numeral(b)
    ensures CompareNumeric(a, b) == CompareRational(a, b)
  {
    NumeralNonempty(a);
    NumeralNonempty(b);
    hide Strip, Whole, Fraction, PointAt, Pow10, TrimStart, TrimEnd, Padded, CompareText, CompareUnsigned;
    hide CompareMagnitude, RationalParts, Magnitude, Denominator, Numeral, DigitsValue, Digits, CompareFractions;
    hide Signed, CompareSigned, CompareInts;
    CrossMultiplied(a, b);
    NegativeMeans(a);
    NegativeMeans(b);
    SignAlgebra(Magnitude(a), Magnitude(b), Denominator(a), Denominator(b), a[0] == '-', b[0] == '-');
  }

  lemma SignAlgebra(m: nat, n: nat, d: nat, e: nat, minusM: bool, minusN: bool)
    requires d > 0 && e > 0
    ensures CompareFractions(Signed(minusM, m), d, Signed(minusN, n), e)
            == CompareSigned(minusM && m > 0, minusN && n > 0, CompareFractions(m, d, n, e))
  {
    assert (0 - m) * e == 0 - m * e && (0 - n) * d == 0 - n * d;
    assert m > 0 ==> m * e > 0;
    assert n > 0 ==> n * d > 0;
    assert m == 0 ==> m * e == 0;
    assert n == 0 ==> n * d == 0;
  }

  /** The order on numerals is total and transitive, so sorting and bounds checks on it are sound. */
  lemma NumericOrder(a: string, b: string, c: string)
    requires Numeral(a) && Numeral(b) && Numeral(c)
    ensures CompareNumeric(a, a) == Equal
    ensures CompareNumeric(b, a) == Reversed(CompareNumeric(a, b))
    ensures CompareNumeric(a, b) != Greater && CompareNumeric(b, c) != Greater ==> CompareNumeric(a, c) != Greater
    ensures CompareNumeric(a, b) == Equal ==> CompareNumeric(a, c) == CompareNumeric(b, c)
  {
    ComparisonsAgree(a, a);
    ComparisonsAgree(a, b);
    ComparisonsAgree(b, a);
    ComparisonsAgree(b, c);
    ComparisonsAgree(a, c);
    RationalOrder(Numerator(a), Denominator(a), Numerator(b), Denominator(b), Numerator(c), Denominator(c));
    RationalOrder(Numerator(c), Denominator(c), Numerator(b), Denominator(b), Numerator(a), Denominator(a));
    RationalOrder(Numerator(b), Denominator(b), Numerator(a), Denominator(a), Numerator(c), Denominator(c));
    RationalOrder(Numerator(c), Denominator(c), Numerator(a), Denominator(a), Numerator(b), Denominator(b));
  }

  lemma RationalOrder(m: int, d: nat, n: int, e: nat, p: int, f: nat)
    requires d > 0 && e > 0 && f > 0
    ensures m * e <= n * d && n * f <= p * e ==> m * f <= p * d
  {
    if m * e <= n * d && n * f <= p * e {
      assert (m * e) * f <= (n * d) * f;
      assert (n * f) * d <= (p * e) * d;
      assert (m * e) * f == (m * f) * e && (n * d) * f == (n * f) * d && (p * e) * d == (p * d) * e;
      CancelLe(m * f, p * d, e);
    }
  }

  lemma CancelLe(x: int, y: int, k: nat)
    requires k > 0 && x * k <= y * k
    ensures x <= y
  {
    ScaleCompares(x, y, k);
  }

  // ---------- What a numeral says ----------

  /** A sign, whole digits, and for a decimal a point and more digits. */
  function Spelling(negative: bool, whole: string, point: bool, fraction: string): string {
    (if negative then "-" else "") + whole + if point then "." + fraction else ""
  }

  lemma {:induction false} PointAfter(whole: string, rest: string)
    requires Digits(whole) && (rest == "" || rest[0] == '.')
    ensures PointAt(whole + rest) == |whole|
  {
    if whole != "" {
      assert (whole + rest)[1..] == whole[1..] + rest;
      PointAfter(whole[1..], rest);
    } else {
      assert whole + rest == rest;
    }
  }

  /** A numeral written out of its parts is read as just that number over a power of ten. */
  lemma NumeralMeans(negative: bool, whole: string, point: bool, fraction: string)
    requires whole != "" && Digits(whole) && Digits(fraction) && (point || fraction == "")
    ensures var s := Spelling(negative, whole, point, fraction);
            && Numeral(s) && Whole(Strip(s)) == whole && Fraction(Strip(s)) == fraction
            && Denominator(s) == Pow10(|fraction|)
            && (PointAt(Strip(s)) < |Strip(s)| <==> point)
            && var magnitude := DigitsValue(whole) * Pow10(|fraction|) + DigitsValue(fraction);
               Numerator(s) == if negative then 0 - magnitude else magnitude
  {
    var s := Spelling(negative, whole, point, fraction);
    var rest := if point then "." + fraction else "";
    assert Strip(s) == whole + rest;
    PointAfter(whole, rest);
    assert (whole + rest)[..|whole|] == whole;
    assert point ==> (whole + rest)[|whole| + 1..] == fraction;
  }

  /** Every numeral is written like that. */
  lemma NumeralIsSpelled(s: string)
    requires Numeral(s)
    ensures var t := Strip(s);
            s == Spelling(s[0] == '-', Whole(t), PointAt(t) < |t|, Fraction(t))
  {
    var t := Strip(s);
    assert t == t[..PointAt(t)] + t[PointAt(t)..];
  }
}
