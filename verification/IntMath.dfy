// Facts about products, quotients and remainders.

module IntMath {
  lemma MulAtLeast(d: int, k: int)
    requires d > 0 && k >= 1
    ensures d * k >= d
  {
  }

  lemma MulMono(a: int, b: int, n: int)
    requires a <= b && n >= 0
    ensures a * n <= b * n
  {
  }

  // Quotient and remainder are unique.
  lemma DivUnique(d: int, q: int, k: int, r: int)
    requires 0 <= r < d && d * q == d * k + r
    ensures r == 0 && q == k
  {
    assert d * (q - k) == r;
    if q > k {
      MulAtLeast(d, q - k);
    } else if q < k {
      MulAtLeast(d, k - q);
    }
  }

  lemma MulDiv(d: int, q: int)
    requires d > 0
    ensures (d * q) % d == 0 && (d * q) / d == q
  {
    var x := d * q;
    assert x == d * (x / d) + x % d;
    DivUnique(d, q, x / d, x % d);
  }

  lemma SmallMod(x: int, n: int)
    requires 0 <= x < n
    ensures x % n == x
  {
  }

  lemma AddMod(x: int, y: int, p: int)
    requires p > 0
    ensures (x % p + y) % p == (x + y) % p
  {
    var q := x / p;
    assert x == p * q + x % p;
    var a, b := x % p + y, x + y;
    assert b == a + p * q;
    assert a == p * (a / p) + a % p && b == p * (b / p) + b % p;
    var d := b / p - a / p - q;
    assert p * d == a % p - b % p by { assert p * d == p * (b / p) - p * (a / p) - p * q; }
    if d >= 1 { MulAtLeast(p, d); }
    if d <= -1 { MulAtLeast(p, -d); }
  }

  lemma ModOfSum(p: int, k: int, y: int)
    requires p > 0
    ensures (p * k + y) % p == y % p
  {
    MulDiv(p, k);
    AddMod(p * k, y, p);
  }

  lemma MulMod(x: int, y: int, m: int)
    requires m > 0
    ensures (x * (y % m)) % m == (x * y) % m
  {
    var q, r := y / m, y % m;
    assert y == m * q + r;
    assert x * y == m * (x * q) + x * r;
    ModOfSum(m, x * q, x * r);
  }
}
