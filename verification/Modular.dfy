/** Facts about Euclidean division that the solver does not find by itself. */
module Modular {

  lemma {:induction false} MulAtLeast(d: int, n: int)
    requires d >= 1 && n > 0
    ensures d * n >= n
  {
    assert d * n == (d - 1) * n + n;
    assert (d - 1) * n >= 0;
  }

  lemma DivModIs(x: int, n: int, q: int, r: int)
    requires n > 0 && x == q * n + r && 0 <= r < n
    ensures x / n == q && x % n == r
  {
    var q', r' := x / n, x % n;
    assert x == q' * n + r';
    assert (q' - q) * n == q' * n - q * n;
    if q' > q {
      MulAtLeast(q' - q, n);
    } else if q' < q {
      assert (q - q') * n == q * n - q' * n;
      MulAtLeast(q - q', n);
    }
  }

  /** Adding less than n to x wraps around at most once. */
  lemma ModAdd(x: int, n: int, i: int)
    requires n > 0 && 0 <= i < n
    ensures (x + i) % n == if x % n + i < n then x % n + i else x % n + i - n
  {
    var q, r := x / n, x % n;
    if r + i < n {
      DivModIs(x + i, n, q, r + i);
    } else {
      assert (q + 1) * n == q * n + n;
      DivModIs(x + i, n, q + 1, r + i - n);
    }
  }
}
