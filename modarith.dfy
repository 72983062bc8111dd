/** Facts about Euclidean `%` with a symbolic divisor, used where the source
    computes indices and time units with remainders. */
module ModArith {
  lemma SmallMod(x: nat, n: nat)
    requires x < n
    ensures x % n == x
  {
  }

  lemma ModSucc(x: nat, n: nat)
    requires n > 0
    ensures (x % n + 1) % n == (x + 1) % n
  {
    var q, r := x / n, x % n;
    assert x == q * n + r;
    if r + 1 < n {
      assert x + 1 == q * n + (r + 1);
      ModOfMultiplePlus(q, n, r + 1);
    } else {
      assert x + 1 == (q + 1) * n;
      ModOfMultiplePlus(q + 1, n, 0);
    }
  }

  lemma ModPred(x: int, n: nat)
    requires n > 0
    ensures (x % n - 1 + n) % n == (x - 1) % n
  {
    var q, r := x / n, x % n;
    assert x == q * n + r;
    if r >= 1 {
      assert x - 1 == q * n + (r - 1);
      ModOfMultiplePlus(q, n, r - 1);
      assert (r - 1 + n) % n == r - 1;
    } else {
      assert x - 1 == (q - 1) * n + (n - 1);
      ModOfMultiplePlus(q - 1, n, n - 1);
    }
  }

  lemma ModOfMultiplePlus(q: int, n: nat, r: int)
    requires n > 0 && 0 <= r < n
    ensures (q * n + r) % n == r
  {
    var a := q * n + r;
    var d, m := a / n, a % n;
    assert (q - d) * n == m - r;
    if q - d >= 1 {
      MulAtLeast(q - d, n);
    } else if d - q >= 1 {
      MulAtLeast(d - q, n);
    }
  }

  lemma {:induction false} MulAtLeast(k: int, n: int)
    requires k >= 1 && n >= 1
    ensures k * n >= n
    decreases k
  {
    if k > 1 {
      MulAtLeast(k - 1, n);
      assert k * n == (k - 1) * n + n;
    }
  }

  /** Adding a multiple of the divisor does not change the remainder. */
  lemma ModAddMultiple(q: int, n: nat, r: int)
    requires n > 0
    ensures (q * n + r) % n == r % n
  {
    var a, b := r / n, r % n;
    assert r == a * n + b;
    assert q * n + r == (q + a) * n + b;
    ModOfMultiplePlus(q + a, n, b);
  }

  /** A remainder by a multiple of `n`, taken again by `n`, is the remainder by `n`. */
  lemma ModOfMod(x: int, k: nat, n: nat)
    requires k > 0 && n > 0
    ensures (x % (k * n)) % n == x % n
  {
    var q := x / (k * n);
    assert x == q * (k * n) + x % (k * n);
    assert q * (k * n) == (q * k) * n;
    ModAddMultiple(q * k, n, x % (k * n));
  }
}
