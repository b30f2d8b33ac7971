/**
 * Facts about squares of reals used by the distance proofs. Each one names the
 * product by a separate variable, so that callers learn a fact about that value
 * and not about a product the solver would rewrite.
 */
module RealArith {

  lemma PositiveProduct(a: real, b: real, p: real)
    requires a > 0.0 && b > 0.0 && p == a * b
    ensures p > 0.0
  {
  }

  lemma SquareOf(y: real, s: real)
    requires s == y * y
    ensures s >= 0.0
    ensures y != 0.0 ==> s > 0.0
  {
    if y > 0.0 {
      PositiveProduct(y, y, s);
    } else if y < 0.0 {
      var z := -y;
      assert s == z * z;
      PositiveProduct(z, z, s);
    }
  }

  /** Squaring is strictly increasing on the non-negative reals. */
  lemma SquareStrict(a: real, b: real, sa: real, sb: real)
    requires 0.0 <= a < b && sa == a * a && sb == b * b
    ensures sa < sb
  {
    var d := b - a;
    assert sb == (a + d) * (a + d) == a * a + 2.0 * a * d + d * d;
    assert a * d >= 0.0;
    assert d * d > 0.0;
  }

  /** Squaring is monotone on the non-negative reals. */
  lemma SquareMonotone(a: real, b: real, sa: real, sb: real)
    requires 0.0 <= a <= b && sa == a * a && sb == b * b
    ensures sa <= sb
  {
    var d := b - a;
    assert sb == (a + d) * (a + d) == a * a + 2.0 * a * d + d * d;
    assert a * d >= 0.0;
    assert d * d >= 0.0;
  }

  /** One more copy of `x`: (n + 1) * x == n * x + x. */
  lemma ScaleStep(m: real, n: real, x: real, pm: real, pn: real)
    requires m == n + 1.0 && pm == m * x && pn == n * x
    ensures pm == pn + x
  {
  }

  /** Dividing by a positive n keeps a value that lies between n * lo and n * hi between lo and hi. */
  lemma DivideBounds(s: real, n: real, lo: real, hi: real, nlo: real, nhi: real)
    requires n > 0.0 && nlo == n * lo && nhi == n * hi && nlo <= s <= nhi
    ensures lo <= s / n <= hi
  {
    var q := s / n;
    assert q * n == s;
    if q < lo {
      PositiveProduct(n, lo - q, n * (lo - q));
    }
    if q > hi {
      PositiveProduct(n, q - hi, n * (q - hi));
    }
  }

  /** Multiplying a quotient back by its divisor gives the dividend. */
  lemma DivideBack(s: real, n: real, q: real, p: real)
    requires n > 0.0 && q == s / n && p == n * q
    ensures p == s
  {
  }

  /** Multiplication distributes over a sum. */
  lemma Distribute(e: real, s: real, t: real, u: real)
    requires u == s + t
    ensures e * u == e * s + e * t
  {
  }
}
