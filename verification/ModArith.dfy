/** The facts about remainders that the shard hash needs. */
module ModArith {

  lemma DivModUnique(x: int, m: int, q: int, r: int)
    requires m > 0 && 0 <= r < m && x == q * m + r
    ensures x % m == r
  {
    var d := x / m - q;
    assert d * m == (x / m) * m - q * m == r - x % m;
    assert -m < d * m < m;
    NoSmallMultiple(d, m);
  }

  lemma NoSmallMultiple(d: int, m: int)
    requires m > 0 && -m < d * m < m
    ensures d == 0
  {
  }

  /** A multiple of the modulus does not change the remainder. */
  lemma AddMultiple(x: int, q: int, m: int)
    requires m > 0
    ensures (x + q * m) % m == x % m
  {
    assert x == (x / m) * m + x % m;
    assert x + q * m == (x / m + q) * m + x % m;
    DivModUnique(x + q * m, m, x / m + q, x % m);
  }

  /** A factor may be reduced before the product is. */
  lemma MulReduces(a: int, b: int, m: int)
    requires m > 0
    ensures (a * b) % m == ((a % m) * b) % m
  {
    var q := a / m;
    assert a == q * m + a % m;
    assert a * b == (a % m) * b + (q * b) * m;
    AddMultiple((a % m) * b, q * b, m);
  }

  /** Reduction modulo a multiple of `m` does not affect reduction modulo `m`. */
  lemma ReduceTwice(x: int, m: int, n: int)
    requires m > 0 && n > 0
    ensures m * n > 0
    ensures (x % (m * n)) % m == x % m
  {
    assert m * n > 0;
    var q := x / (m * n);
    var r := x % (m * n);
    assert x == q * (m * n) + r;
    assert q * (m * n) == (q * n) * m;
    AddMultiple(r, q * n, m);
  }

  /** If `a * b` is one modulo `m`, multiplying by `a` and then by `b` is the identity modulo `m`. */
  lemma MulThenInverse(x: int, a: int, b: int, m: int, q: int)
    requires m > 0 && a * b == q * m + 1
    ensures (((x * a) % m) * b) % m == x % m
  {
    assert (x * a) * b == x + (x * q) * m by {
      assert (x * a) * b == x * (a * b) == x * (q * m + 1) == x * (q * m) + x;
      assert x * (q * m) == (x * q) * m;
    }
    MulReduces(x * a, b, m);
    AddMultiple(x, x * q, m);
  }
}
