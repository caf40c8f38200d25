/** Facts about integer division that the aspect-ratio arithmetic rests on.
    All divisions in the model have a non-negative dividend and a positive
    divisor, where Java's truncating `/` and Dafny's Euclidean `/` agree. */
module Arith {

  /** Division is determined by any quotient/remainder decomposition. */
  lemma DivUnique(n: int, d: int, q: int, r: int)
    requires d > 0 && n == q * d + r && 0 <= r < d
    ensures n / d == q
  {
    var q', r' := n / d, n % d;
    assert n == q' * d + r';
    if q' < q {
      assert (q - q') * d == r' - r;
      MulAtLeast(q - q', d);
    } else if q < q' {
      assert (q' - q) * d == r - r';
      MulAtLeast(q' - q, d);
    }
  }

  lemma MulAtLeast(a: int, d: int)
    requires a >= 1 && d > 0
    ensures a * d >= d
  {
    assert a * d == (a - 1) * d + d;
    assert (a - 1) * d >= 0;
  }

  /** Scaling dividend and divisor by the same positive factor keeps the quotient. */
  lemma DivCancel(a: int, b: int, k: int)
    requires a >= 0 && b > 0 && k > 0
    ensures (a * k) / (b * k) == a / b
  {
    var q, r := a / b, a % b;
    assert a == q * b + r;
    assert a * k == q * (b * k) + r * k by {
      assert a * k == (q * b + r) * k;
    }
    assert 0 <= r * k < b * k by {
      assert (b - r) * k > 0 by { MulAtLeast(b - r, k); }
    }
    DivUnique(a * k, b * k, q, r * k);
  }

  /** Division by a positive divisor is monotone in the dividend. */
  lemma DivMonotone(a: int, b: int, d: int)
    requires 0 <= a <= b && d > 0
    ensures a / d <= b / d
  {
    var qa, qb := a / d, b / d;
    assert qa * d <= a && b < qb * d + d;
    assert qa * d - qb * d == (qa - qb) * d;
    if qb < qa {
      MulAtLeast(qa - qb, d);
    }
  }

  /** `(x * d) / d == x` for a positive divisor. */
  lemma MulDivCancel(x: int, d: int)
    requires d > 0
    ensures (x * d) / d == x
  {
    DivUnique(x * d, d, x, 0);
  }

  /** A multiple of a positive divisor leaves no remainder. */
  lemma MulModZero(x: int, d: int)
    requires d > 0
    ensures (x * d) % d == 0
  {
    MulDivCancel(x, d);
    assert x * d == ((x * d) / d) * d + (x * d) % d;
  }

  /** The quotient brackets the dividend. */
  lemma DivFloor(a: int, d: int)
    requires a >= 0 && d > 0
    ensures 0 <= a / d
    ensures (a / d) * d <= a < (a / d) * d + d
  {
    var q, r := a / d, a % d;
    assert a == q * d + r && 0 <= r < d;
  }

  /** Multiplying by a non-negative factor keeps an inequality. */
  lemma MulMonotone(a: int, b: int, c: int)
    requires a <= b && c >= 0
    ensures a * c <= b * c
  {
    assert b * c - a * c == (b - a) * c;
  }
}
