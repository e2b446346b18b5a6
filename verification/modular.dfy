/** Facts about Euclidean remainder used by the circular turn order. */
module Modular {

  lemma MulNonNegative(a: int, b: int)
    requires a >= 0 && b >= 0
    ensures a * b >= 0
  {
  }

  lemma NonZeroMultiple(d: int, m: int)
    requires m > 0 && d != 0
    ensures d * m >= m || d * m <= -m
  {
    if d > 0 {
      assert d * m == (d - 1) * m + m;
      MulNonNegative(d - 1, m);
    } else {
      assert d * m == -((-d - 1) * m) - m;
      MulNonNegative(-d - 1, m);
    }
  }

  /** The remainder is determined by any quotient/remainder decomposition. */
  lemma ModUnique(a: int, m: int, q: int, r: int)
    requires m > 0 && 0 <= r < m && a == q * m + r
    ensures a % m == r
  {
    var d := q - a / m;
    assert a == (a / m) * m + a % m;
    assert d * m == a % m - r;
    if d != 0 {
      NonZeroMultiple(d, m);
    }
  }

  /** Reducing a number in `0..m` wraps only `m` itself, to 0. */
  lemma ModSmall(x: int, m: int)
    requires 0 <= x <= m && m > 0
    ensures x % m == (if x < m then x else 0)
  {
    if x == m {
      ModUnique(x, m, 1, 0);
    } else {
      ModUnique(x, m, 0, x);
    }
  }

  /** The remainder of a successor is the successor of the remainder, wrapped. */
  lemma ModSucc(a: int, m: int)
    requires m > 0
    ensures (a + 1) % m == (if a % m + 1 < m then a % m + 1 else 0)
  {
    var q := a / m;
    var r := a % m;
    assert a == q * m + r;
    if r + 1 < m {
      ModUnique(a + 1, m, q, r + 1);
    } else {
      ModUnique(a + 1, m, q + 1, 0);
    }
  }
}
