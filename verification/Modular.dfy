/** The little arithmetic of wrapping counters that the verifier does not do unaided. */
module Modular {

  lemma AtLeast(k: int, n: int)
    requires k >= 1 && n >= 0
    ensures k * n >= n
  {
  }

  /** A quotient and a remainder in range determine each other. */
  lemma Remainder(x: int, q: int, r: int, n: int)
    requires n > 0 && 0 <= r < n && x == q * n + r
    ensures x % n == r && x / n == q
  {
    var q', r' := x / n, x % n;
    assert x == q' * n + r';
    assert (q - q') * n == r' - r;
    if q > q' {
      AtLeast(q - q', n);
    } else if q < q' {
      AtLeast(q' - q, n);
    }
  }

  /** Stepping a counter and wrapping it commute. */
  lemma Successor(x: nat, n: nat)
    requires n > 0
    ensures (x + 1) % n == if x % n + 1 == n then 0 else x % n + 1
    ensures (x % n + 1) % n == (x + 1) % n
  {
    var q, r := x / n, x % n;
    assert x == q * n + r;
    if r + 1 == n {
      assert x + 1 == (q + 1) * n + 0;
      Remainder(x + 1, q + 1, 0, n);
      Remainder(n, 1, 0, n);
    } else {
      Remainder(x + 1, q, r + 1, n);
      Remainder(r + 1, 0, r + 1, n);
    }
  }

  /** Two numbers leave the same remainder exactly when their distance is a multiple. */
  lemma SameRemainder(x: nat, y: nat, n: nat)
    requires n > 0 && x <= y
    ensures x % n == y % n <==> (y - x) % n == 0
  {
    var d := y - x;
    assert x == (x / n) * n + x % n && y == (y / n) * n + y % n && d == (d / n) * n + d % n;
    if d % n == 0 {
      assert y == (x / n + d / n) * n + x % n;
      Remainder(y, x / n + d / n, x % n, n);
    } else if x % n == y % n {
      assert d == (y / n - x / n) * n + 0;
      Remainder(d, y / n - x / n, 0, n);
    }
  }

  /** Distinct numbers less than n apart leave different remainders. */
  lemma Distinct(x: nat, y: nat, n: nat)
    requires n > 0 && x < y < x + n
    ensures x % n != y % n
  {
    SameRemainder(x, y, n);
    Remainder(y - x, 0, y - x, n);
  }

  /** Wrapping at a multiple of n first does not disturb the remainder by n. */
  lemma WrapThenMod(x: nat, n: nat, k: nat)
    requires n > 0 && k > 0
    ensures (x % (k * n)) % n == x % n
  {
    AtLeast(k, n);
    var w := k * n;
    var q, r := x / w, x % w;
    assert x == q * w + r && r == (r / n) * n + r % n;
    assert q * w == (q * k) * n;
    assert x == (q * k + r / n) * n + r % n;
    Remainder(x, q * k + r / n, r % n, n);
  }
}
