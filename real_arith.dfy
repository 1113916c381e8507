/** Real-number helpers: division as a named function, and the ordered-field facts the
    proofs use.  Keeping division behind `Div` lets equal quotients be recognised as
    equal without non-linear reasoning. */
module RealArith {

  /** The quotient x / y; the source's floating-point division, taken as exact. */
  function Div(x: real, y: real): real
    requires y != 0.0
  {
    x / y
  }

  /** The absolute value. */
  function Abs(x: real): real
  {
    if x < 0.0 then -x else x
  }

  lemma NonZeroProduct(x: real, y: real)
    requires x != 0.0 && y != 0.0
    ensures x * y != 0.0
  {
  }

  lemma DivMul(x: real, y: real)
    requires y != 0.0
    ensures Div(x, y) * y == x
  {
  }

  lemma DivSign(x: real, y: real)
    requires y > 0.0
    ensures x > 0.0 ==> Div(x, y) > 0.0
    ensures x >= 0.0 ==> Div(x, y) >= 0.0
    ensures x <= 0.0 ==> Div(x, y) <= 0.0
  {
  }

  lemma DivStrictlyIncreasing(x: real, x': real, y: real)
    requires y > 0.0 && x < x'
    ensures Div(x, y) < Div(x', y)
  {
    DivSign(x' - x, y);
    assert Div(x', y) - Div(x, y) == Div(x' - x, y);
  }

  lemma DivZero(y: real)
    requires y != 0.0
    ensures Div(0.0, y) == 0.0
  {
  }

  lemma DivSelf(x: real)
    requires x != 0.0
    ensures Div(x, x) == 1.0
  {
  }

  lemma MulIncreasing(k: real, x: real, y: real)
    requires k >= 0.0 && x <= y
    ensures k * x <= k * y
  {
    assert k * y - k * x == k * (y - x);
  }

  lemma MulStrictlyIncreasing(k: real, x: real, y: real)
    requires k > 0.0 && x < y
    ensures k * x < k * y
  {
    assert k * y - k * x == k * (y - x);
  }

  lemma NonNegativeFactor(x: real, k: real)
    requires k > 0.0 && x * k >= 0.0
    ensures x >= 0.0
  {
    if x < 0.0 {
      MulStrictlyIncreasing(k, x, 0.0);
    }
  }

  /** Equal factors give equal products; stated so that the two products need not be
      recognised as equal by non-linear reasoning. */
  lemma SameProduct(k1: real, k2: real, a1: real, a2: real)
    requires k1 == k2 && a1 == a2
    ensures k1 * a1 == k2 * a2
  {
  }

  lemma MulNonNegative(x: real, y: real)
    requires x >= 0.0 && y >= 0.0
    ensures x * y >= 0.0
  {
    MulIncreasing(x, 0.0, y);
  }

  lemma SquareScaled(k: real, x: real)
    requires k >= 0.0
    ensures k * x * x >= 0.0
  {
    assert x * x >= 0.0;
    MulIncreasing(k, 0.0, x * x);
  }

  /** Two numbers with equal products against the same positive factor are equal. */
  lemma CancelPositive(x: real, y: real, w: real)
    requires w > 0.0 && x * w == y * w
    ensures x == y
  {
    if x < y { MulStrictlyIncreasing(w, x, y); }
    if y < x { MulStrictlyIncreasing(w, y, x); }
  }

  /** A quotient by a positive denominator compares with 1 as its numerator compares
      with the denominator. */
  lemma DivVersusOne(num: real, den: real)
    requires den > 0.0
    ensures Div(num, den) > 1.0 <==> num > den
    ensures Div(num, den) < 1.0 <==> num < den
    ensures Div(num, den) == 1.0 <==> num == den
  {
    var q := Div(num, den);
    DivMul(num, den);
    if q > 1.0 { MulStrictlyIncreasing(den, 1.0, q); }
    if q < 1.0 { MulStrictlyIncreasing(den, q, 1.0); }
  }

  /** A quotient by a positive denominator whose numerator lies in [y*lo, y*hi] lies in [lo, hi]. */
  lemma DivBetween(x: real, y: real, lo: real, hi: real)
    requires y > 0.0 && y * lo <= x <= y * hi
    ensures lo <= Div(x, y) <= hi
  {
    var q := Div(x, y);
    DivMul(x, y);
    DivMul(x - y * lo, y);
    DivMul(y * hi - x, y);
    assert (q - lo) * y == Div(x - y * lo, y) * y;
    assert (hi - q) * y == Div(y * hi - x, y) * y;
    CancelPositive(q - lo, Div(x - y * lo, y), y);
    CancelPositive(hi - q, Div(y * hi - x, y), y);
    DivSign(x - y * lo, y);
    DivSign(y * hi - x, y);
  }
}
