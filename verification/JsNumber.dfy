/** Sums of JavaScript numbers, counted in units of some power 2^-k so that fractions are whole numbers of units: exact
    up to 2^53 units, rounded to the nearest representable number (ties to even) beyond. Every finite number is a whole
    number of units for k = 1074, and a multiple of 2^-k has only multiples of 2^-k as sums. */
module JsNumber {
  const MAX_EXACT: nat := 0x20_0000_0000_0000

  /** The distance between representable numbers around n units. */
  function Spacing(n: nat): (u: nat)
    ensures u >= 1 && n <= MAX_EXACT * u
  {
    if n <= MAX_EXACT then 1 else 2 * Spacing((n + 1) / 2)
  }

  function Rounded(n: nat): nat {
    var u := Spacing(n);
    var q, rest := n / u, n % u;
    if 2 * rest < u || (2 * rest == u && q % 2 == 0) then q * u else (q + 1) * u
  }

  function Plus(a: nat, b: nat): nat {
    Rounded(a + b)
  }

  function Minus(a: nat, b: nat): nat
    requires b <= a
  {
    Rounded(a - b)
  }

  /** A number of units that is a JavaScript number. */
  predicate Representable(n: nat) {
    Rounded(n) == n
  }

  function Pow2(k: nat): (p: nat)
    ensures p >= 1
  {
    if k == 0 then 1 else 2 * Pow2(k - 1)
  }

  /** Halving the unit changes nothing: the same number is rounded to the same number. */
  lemma RoundingIgnoresUnit(n: nat)
    ensures Rounded(2 * n) == 2 * Rounded(n)
  {
    var u := Spacing(n);
    if n <= MAX_EXACT / 2 {
      assert Spacing(2 * n) == 1 && u == 1;
    } else {
      assert Spacing(2 * n) == 2 * u by { assert (2 * n + 1) / 2 == n; }
      HalvesAlike(n, u);
    }
  }

  lemma HalvesAlike(n: nat, u: nat)
    requires u >= 1
    ensures (2 * n) / (2 * u) == n / u && (2 * n) % (2 * u) == 2 * (n % u)
  {
    var q, rest := n / u, n % u;
    assert 2 * n == q * (2 * u) + 2 * rest;
    QuotientIs(2 * n, 2 * u, q, 2 * rest);
  }

  lemma QuotientIs(n: nat, d: nat, q: nat, rest: nat)
    requires n == q * d + rest && rest < d
    ensures n / d == q && n % d == rest
  {
    assert n / d * d + n % d == q * d + rest;
    ProductGrows(n / d, q, d);
    ProductGrows(q, n / d, d);
  }

  lemma ProductGrows(a: nat, b: nat, d: nat)
    ensures a < b ==> a * d + d <= b * d
  {
    if a < b {
      var k: nat := b - a - 1;
      assert b * d == (a + 1 + k) * d == a * d + d + k * d;
    }
  }

  /** Up to 2^53 units nothing is lost; the next number of units already is. */
  lemma ExactRange(n: nat)
    ensures n <= MAX_EXACT ==> Rounded(n) == n
    ensures Rounded(MAX_EXACT + 1) == MAX_EXACT
  {
    assert Spacing(MAX_EXACT + 1) == 2 * Spacing((MAX_EXACT + 2) / 2);
  }
}
