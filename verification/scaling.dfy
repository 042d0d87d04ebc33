/** Inequalities between products of reals, kept apart so that each proof sees only
    the arithmetic it needs. */
module Scaling {
  /** Multiplying both sides by a non-negative factor keeps `<=`. */
  lemma MulLe(a: real, b: real, c: real)
    requires a <= b && c >= 0.0
    ensures a * c <= b * c
  {
    assert (b - a) * c >= 0.0;
  }

  /** Multiplying both sides by a positive factor keeps `<`. */
  lemma MulLt(a: real, b: real, c: real)
    requires a < b && c > 0.0
    ensures a * c < b * c
  {
    assert (b - a) * c > 0.0;
  }

  /** A positive factor can be divided out of `<`. */
  lemma ScaleBack(a: real, b: real, c: real)
    requires c > 0.0
    requires a * c < b * c
    ensures a < b
  {
    if b <= a {
      MulLe(b, a, c);
    }
  }

  /** A positive factor can be divided out of `<=`. */
  lemma ScaleBackLe(a: real, b: real, c: real)
    requires c > 0.0
    requires a * c <= b * c
    ensures a <= b
  {
    if b < a {
      MulLt(b, a, c);
    }
  }

  /** Whole numbers `lo` and `hi` around the quotient `q = d / len` bracket `d` between
      `lo` and `hi` lengths. */
  lemma Bracket(d: real, len: real, q: real, lo: real, hi: real)
    requires len > 0.0 && q * len == d
    requires lo <= q < hi
    ensures lo * len <= d < hi * len
  {
    MulLe(lo, q, len);
    MulLt(q, hi, len);
  }
}
