/** Facts about real multiplication and division that the solver does not find on its own. */
module Arith {

  lemma MulMonotone(a: real, b: real, c: real)
    requires a <= b && c >= 0.0
    ensures a * c <= b * c
  {
    assert b * c - a * c == (b - a) * c;
  }

  lemma MulStrict(a: real, b: real, c: real)
    requires a < b && c > 0.0
    ensures a * c < b * c
  {
    assert b * c - a * c == (b - a) * c;
  }

  /** Dividing by a positive number keeps the sign of the dividend. */
  lemma QuotientSign(a: real, b: real)
    requires b > 0.0
    ensures a > 0.0 ==> a / b > 0.0
    ensures a < 0.0 ==> a / b < 0.0
  {
    var q := a / b;
    assert q * b == a;
    if a > 0.0 && q <= 0.0 {
      MulMonotone(q, 0.0, b);
    } else if a < 0.0 && q >= 0.0 {
      MulMonotone(0.0, q, b);
    }
  }

  /** Where `v` sits in `[a, b]`, as a fraction of its length. */
  lemma FractionInUnit(v: real, a: real, b: real)
    requires a <= v <= b && a < b
    ensures 0.0 <= (v - a) / (b - a) <= 1.0
  {
    var d := b - a;
    var f := (v - a) / d;
    assert f * d == v - a;
    if f < 0.0 {
      MulStrict(f, 0.0, d);
    } else if f > 1.0 {
      MulStrict(1.0, f, d);
    }
  }

  /** The interpolation point `lo + t * (hi - lo)` with `0 <= t <= 1` lies between `lo` and `hi`. */
  lemma InterpolationBetween(lo: real, hi: real, t: real)
    requires 0.0 <= t <= 1.0
    ensures lo <= hi ==> lo <= lo + t * (hi - lo) <= hi
    ensures hi <= lo ==> hi <= lo + t * (hi - lo) <= lo
  {
    var d := hi - lo;
    if lo <= hi {
      MulMonotone(0.0, t, d);
      MulMonotone(t, 1.0, d);
    } else {
      MulMonotone(t, 1.0, -d);
      MulMonotone(0.0, t, -d);
      assert t * d == -(t * -d);
    }
  }

  /** A total within `[n lo, n hi]` has its average within `[lo, hi]`. */
  lemma AverageBetween(sum: real, n: real, lo: real, hi: real)
    requires n > 0.0 && n * lo <= sum <= n * hi
    ensures lo <= sum / n <= hi
  {
    var m := sum / n;
    assert m * n == sum;
    if m < lo {
      MulStrict(m, lo, n);
    } else if m > hi {
      MulStrict(hi, m, n);
    }
  }
}
