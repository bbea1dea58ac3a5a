/** Money arithmetic of the balance code. Amounts are exact reals: binary
    floating-point error is not modelled, only the explicit roundings. */
module Money {

  /** `Math.round(x)` on a double: the nearest integer, halves rounded up. */
  function RoundHalfUp(x: real): (n: int)
    ensures x - 0.5 < n as real <= x + 0.5
  {
    (x + 0.5).Floor
  }

  /** `Math.round(x * 100.0) / 100.0`: rounding to two decimals. */
  function Round2(x: real): (r: real)
    ensures IsCents(r)
    ensures x - 0.005 < r <= x + 0.005
  {
    RoundHalfUp(100.0 * x) as real / 100.0
  }

  /** A whole number of paise (hundredths of a rupee). */
  predicate IsCents(x: real)
  {
    (100.0 * x).Floor as real == 100.0 * x
  }

  function Min(a: real, b: real): (m: real)
    ensures m <= a && m <= b && (m == a || m == b)
  {
    if a <= b then a else b
  }

  function Abs(x: real): (a: real)
    ensures a >= 0.0 && (a == x || a == -x)
  {
    if x < 0.0 then -x else x
  }

  /** Rounding to two decimals leaves an amount of whole paise unchanged. */
  lemma Round2OfCents(x: real)
    requires IsCents(x)
    ensures Round2(x) == x
  {
    var n := (100.0 * x).Floor;
    assert 100.0 * x + 0.5 == n as real + 0.5;
    assert (100.0 * x + 0.5).Floor == n;
  }

  lemma CentsSum(a: real, b: real)
    requires IsCents(a) && IsCents(b)
    ensures IsCents(a + b)
  {
    var p, q := (100.0 * a).Floor, (100.0 * b).Floor;
    assert 100.0 * (a + b) == (p + q) as real;
  }

  lemma CentsNeg(a: real)
    requires IsCents(a)
    ensures IsCents(-a)
  {
    var p := (100.0 * a).Floor;
    assert 100.0 * -a == (-p) as real;
  }

  /** Whole paise are closed under the operations the settlement uses. */
  lemma CentsClosed(a: real, b: real)
    requires IsCents(a) && IsCents(b)
    ensures IsCents(a - b) && IsCents(a + b) && IsCents(-a) && IsCents(Min(a, b)) && IsCents(Abs(a))
  {
    CentsNeg(a);
    CentsNeg(b);
    CentsSum(a, b);
    CentsSum(a, -b);
  }

  /** Two amounts of whole paise that differ are at least one paisa apart. */
  lemma CentsGap(a: real, b: real)
    requires IsCents(a) && IsCents(b) && a < b
    ensures a + 0.01 <= b
  {
    var p, q := (100.0 * a).Floor, (100.0 * b).Floor;
    assert p < q;
  }
}
