/** Facts about Euclidean division used by the index and clock arithmetic. */
module Arithmetic {
  /** Division by `n` has one quotient and one remainder in `[0, n)`. */
  lemma {:induction false} ModUnique(y: int, n: int, a: int, b: int)
    requires n > 0 && 0 <= b < n && y == a * n + b
    ensures y % n == b && y / n == a
  {
    var q, r := y / n, y % n;
    assert y == q * n + r;
    var d := a - q;
    assert d * n == a * n - q * n;
    assert d * n == r - b;
    if d > 0 {
      assert d * n == (d - 1) * n + n;
      MulNonneg(d - 1, n);
    } else if d < 0 {
      assert -d * n == (-d - 1) * n + n;
      MulNonneg(-d - 1, n);
    }
  }

  lemma MulNonneg(x: int, y: int)
    requires x >= 0 && y >= 0
    ensures x * y >= 0
  {
  }
}
