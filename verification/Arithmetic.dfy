// Square roots, 128-bit products and modular powers on machine words (mathutil/mathutil.go).

module Sqrt {
  import opened IntMath

  ghost predicate IsRoot(s: nat, n: nat) {
    s * s <= n < (s + 1) * (s + 1)
  }

  function Newton(n: nat, x: nat): nat
    requires x > 0
  {
    (x + n / x) / 2
  }

  // A product is at most the square of half the sum.
  lemma MeanBound(a: int, b: int, s: int)
    requires 0 <= a + b <= 2 * s
    ensures a * b <= s * s
  {
    assert (a + b) * (a + b) - 4 * (a * b) == (a - b) * (a - b) >= 0;
    SquareMono(a + b, 2 * s);
  }

  lemma SquareMono(a: int, b: int)
    requires 0 <= a <= b
    ensures a * a <= b * b
  {
    assert b * b - a * a == (b - a) * (b + a);
    assert (b - a) * (b + a) >= 0;
  }

  lemma Quotient(n: nat, x: nat)
    requires x > 0
    ensures (n / x) * x <= n < (n / x + 1) * x
  {
    assert n == x * (n / x) + n % x;
    assert (n / x + 1) * x == (n / x) * x + x;
  }

  // q is at least k once k * x <= n.
  lemma QuotientAtLeast(n: nat, x: nat, k: int)
    requires x > 0 && k * x <= n
    ensures n / x >= k
  {
    Quotient(n, x);
    if n / x + 1 <= k { MulMono(n / x + 1, k, x); }
  }

  lemma QuotientBelow(n: nat, x: nat, k: int)
    requires x > 0 && n < k * x
    ensures n / x < k
  {
    Quotient(n, x);
    if n / x >= k { MulMono(k, n / x, x); }
  }

  /** The iteration never falls below the root. */
  lemma NotBelow(n: nat, s: nat, x: nat)
    requires IsRoot(s, n) && x > 0
    ensures Newton(n, x) >= s
  {
    if x < 2 * s {
      MeanBound(2 * s - x, x, s);
      QuotientAtLeast(n, x, 2 * s - x);
    }
  }

  /** Above the root it falls. */
  lemma Falls(n: nat, s: nat, x: nat)
    requires IsRoot(s, n) && x > s
    ensures Newton(n, x) < x
  {
    SquareMono(s + 1, x);
    QuotientBelow(n, x, x);
  }

  /** At the root it stays, except one below a square, where it goes up one. */
  lemma AtRoot(n: nat, s: nat)
    requires IsRoot(s, n) && s > 0
    ensures Newton(n, s) == if n == s * s + 2 * s then s + 1 else s
  {
    assert (s + 1) * (s + 1) == s * s + 2 * s + 1;
    QuotientAtLeast(n, s, s);
    if n == s * s + 2 * s {
      assert (s + 2) * s == n && (s + 3) * s == n + s;
      QuotientAtLeast(n, s, s + 2);
      QuotientBelow(n, s, s + 3);
    } else {
      assert (s + 2) * s == s * s + 2 * s;
      QuotientBelow(n, s, s + 2);
    }
  }

  lemma DiffOfSquares(a: int, d: int)
    ensures (a - d) * (a + d) == a * a - d * d
  {
  }

  /** One below a square it comes to the root through the value above it. */
  lemma ThroughNext(n: nat, s: nat, x: nat)
    requires n == s * s + 2 * s && x >= s + 2
    ensures Newton(n, x) >= s + 1
  {
    var a, d := s + 1, x - s - 1;
    assert n + 1 == a * a by { Expand(s, s); }
    if d < a { QuotientNear(n, a, d); }
    HalfSum(x, n / x, a);
  }

  // Where n + 1 is the square of a, the quotient by a + d is at least a - d.
  lemma QuotientNear(n: nat, a: nat, d: nat)
    requires n + 1 == a * a && 1 <= d < a
    ensures n / (a + d) >= a - d
  {
    DiffOfSquares(a, d);
    SquareMono(1, d);
    QuotientAtLeast(n, a + d, a - d);
  }

  lemma HalfSum(x: nat, q: nat, a: nat)
    requires x + q >= 2 * a
    ensures (x + q) / 2 >= a
  {
  }

  // The sum in the iteration stays within the word.
  lemma SumFits(n: nat, x: nat)
    requires 0 < x <= n
    ensures x + n / x <= n + 1
  {
    Expand(n + 1 - x, x - 1);
    QuotientBelow(n, x, n + 1 - x + 1);
  }

  lemma Expand(a: nat, b: nat)
    ensures (a + 1) * (b + 1) == a * b + a + b + 1 >= a + b + 1
  {
    MulMono(0, a, b);
  }

  lemma {:induction false} RootExists(n: nat) returns (s: nat)
    ensures IsRoot(s, n)
  {
    s := 0;
    while (s + 1) * (s + 1) <= n
      invariant s * s <= n
      decreases n - s
    {
      assert (s + 1) * (s + 1) >= s + 1;
      s := s + 1;
    }
  }

  lemma RootUnique(n: nat, s: nat, t: nat)
    requires IsRoot(s, n) && IsRoot(t, n)
    ensures s == t
  {
    if s < t { SquareMono(s + 1, t); }
    if t < s { SquareMono(t + 1, s); }
  }

  // The loop of ISqrt and SqrtUint64, on words below limit.
  method Iterate(n: nat, limit: nat) returns (x: nat)
    requires 0 < n && n + 1 < limit
    ensures IsRoot(x, n)
  {
    hide IsRoot, Newton;
    ghost var s := RootExists(n);
    RootPositive(n, s);
    var px, nx := 0, 0;
    x := n;
    while true
      invariant s <= x <= n && 0 < s
      invariant px == 0 || x < px
      invariant x == s && n == s * s + 2 * s ==> px == s + 1
      decreases x
    {
      SumFits(n, x);
      assert x + n / x < limit;
      nx := Newton(n, x);
      NotBelow(n, s, x);
      if x == s {
        AtRoot(n, s);
      } else {
        Falls(n, s, x);
        if n == s * s + 2 * s && x > s + 1 { ThroughNext(n, s, x); }
      }
      if nx == x || nx == px { return; }
      px, x := x, nx;
    }
  }

  lemma RootPositive(n: nat, s: nat)
    requires n > 0 && IsRoot(s, n)
    ensures 0 < s <= n && (s == n ==> n == 1)
  {
    if s > 1 { assert s * s >= 2 * s; }
  }

  const MAX_UINT16: nat := 0xFFFF
  const MAX_UINT32: nat := 0xFFFF_FFFF

  // ISqrt (lines 109-126).
  method ISqrt(n: nat) returns (x: nat)
    requires n <= MAX_UINT32
    ensures IsRoot(x, n)
  {
    if n == 0 { return 0; }
    if n >= MAX_UINT16 * MAX_UINT16 { return MAX_UINT16; }
    x := Iterate(n, MAX_UINT32 + 1);
  }

  // SqrtUint64 (lines 129-146).
  method SqrtUint64(n: nat) returns (x: nat)
    requires n < 0x1_0000_0000_0000_0000
    ensures IsRoot(x, n)
  {
    if n == 0 { return 0; }
    if n >= MAX_UINT32 * MAX_UINT32 { return MAX_UINT32; }
    x := Iterate(n, 0x1_0000_0000_0000_0000);
  }
}

module Wide {
  import opened IntMath

  const W: nat := 0x1_0000_0000
  const WW: nat := 0x1_0000_0000_0000_0000

  type uint64 = x: int | 0 <= x < WW

  // AddUint128_64 (lines 358-364): the sum wraps, and hi is the carry.
  function Add(a: uint64, b: uint64): (r: (uint64, uint64))
    ensures r.0 * WW + r.1 == a + b && r.0 <= 1
  {
    var lo := (a + b) % WW;
    (if lo < a then 1 else 0, lo)
  }

  // x << 32 in 64 bits.
  function Shl(x: uint64): (r: uint64)
    ensures r == (x % W) * W
  {
    assert x * W == (x / W) * WW + (x % W) * W;
    (x * W) % WW
  }

  lemma HalfProduct(x: nat, y: nat)
    requires x < W && y < W
    ensures x * y <= (W - 1) * (W - 1)
  {
    MulMono(x, W - 1, y);
    MulMono(y, W - 1, W - 1);
  }

  lemma Expand(ah: nat, al: nat, bh: nat, bl: nat)
    ensures (ah * W + al) * (bh * W + bl) == ah * bh * WW + (al * bh) * W + (ah * bl) * W + al * bl
  {
    assert (ah * W) * (bh * W) == ah * bh * WW by { assert (ah * W) * (bh * W) == (ah * bh) * (W * W); }
    assert (ah * W) * bl == (ah * bl) * W;
    assert al * (bh * W) == (al * bh) * W;
    assert (ah * W + al) * (bh * W + bl) == (ah * W) * (bh * W) + (ah * W) * bl + al * (bh * W) + al * bl;
  }

  lemma Parts(x: uint64)
    ensures x * W == (x / W) * WW + Shl(x)
  {
  }

  // The four half products, added up with their carries.
  method Combine(low: uint64, mid1: uint64, mid2: uint64, high: uint64) returns (hi: uint64, lo: uint64)
    requires high * WW + mid1 * W + mid2 * W + low < WW * WW
    ensures hi * WW + lo == high * WW + mid1 * W + mid2 * W + low
  {
    hide Shl;
    Parts(mid1);
    Parts(mid2);
    var s1 := Add(low, Shl(mid1));
    var s2 := Add(s1.1, Shl(mid2));
    lo := s2.1;
    hi := Add(high, mid1 / W + mid2 / W + (s1.0 + s2.0)).1;
  }

  lemma Products(a: uint64, b: uint64)
    ensures var ah, bh, al, bl := a / W, b / W, a % W, b % W;
            a * b == (ah * bh) * WW + (al * bh) * W + (ah * bl) * W + al * bl < WW * WW
  {
    Expand(a / W, a % W, b / W, b % W);
    MulMono(a, WW - 1, b);
  }

  // MulUint128_64 (lines 367-387).
  method Mul(a: uint64, b: uint64) returns (hi: uint64, lo: uint64)
    ensures hi * WW + lo == a * b
  {
    var ah, bh, al, bl := a / W, b / W, a % W, b % W;
    HalfProduct(al, bl);
    HalfProduct(al, bh);
    HalfProduct(ah, bl);
    HalfProduct(ah, bh);
    Products(a, b);
    hi, lo := Combine(al * bl, al * bh, ah * bl, ah * bh);
  }
}

module ModPow {
  import opened IntMath

  datatype Result = Panic | Value(v: nat)

  ghost function Pow(b: nat, e: nat): nat {
    if e == 0 then 1 else b * Pow(b, e - 1)
  }

  lemma {:induction false} PowSquare(b: nat, e: nat)
    ensures Pow(b * b, e) == Pow(b, 2 * e)
  {
    if e > 0 {
      PowSquare(b, e - 1);
      assert Pow(b, 2 * e) == b * (b * Pow(b, 2 * e - 2));
      assert b * (b * Pow(b, 2 * e - 2)) == (b * b) * Pow(b, 2 * e - 2);
    }
  }

  // Factors may be reduced modulo m on either side.
  lemma {:induction false} MulModBoth(x: nat, y: nat, p: nat, q: nat, m: nat)
    requires m > 0 && x % m == y % m && p % m == q % m
    ensures (x * p) % m == (y * q) % m
  {
    MulMod(x, p, m);
    MulMod(x, q, m);
    Commute(x, q);
    Commute(y, q);
    MulMod(q, x, m);
    MulMod(q, y, m);
  }

  lemma Commute(x: nat, y: nat)
    ensures x * y == y * x
  {
  }

  lemma PowStep(b: nat, e: nat)
    requires e > 0
    ensures Pow(b, e) == b * Pow(b, e - 1)
  {
  }

  lemma {:induction false} PowMod(b: nat, e: nat, m: nat)
    requires m > 0
    ensures Pow(b % m, e) % m == Pow(b, e) % m
  {
    if e > 0 {
      hide Pow;
      PowMod(b, e - 1, m);
      PowStep(b, e);
      PowStep(b % m, e);
      ModTwice(b, m);
      MulModBoth(b % m, b, Pow(b % m, e - 1), Pow(b, e - 1), m);
    }
  }

  lemma ModTwice(b: nat, m: nat)
    requires m > 0
    ensures (b % m) % m == b % m
  {
    SmallMod(b % m, m);
  }

  lemma {:induction false} PowHalf(b: nat, e: nat)
    requires e > 0
    ensures Pow(b, e) == if e % 2 == 1 then b * Pow(b, 2 * (e / 2)) else Pow(b, 2 * (e / 2))
  {
    if e % 2 == 1 { PowStep(b, e); }
  }

  lemma Regroup(x: nat, y: nat, z: nat)
    ensures (x * y) * z == x * (y * z)
  {
  }

  // One turn of the loop: r * b^e is kept modulo m.
  lemma {:induction false} Turn(r: nat, b: nat, e: nat, m: nat)
    requires m > 0 && e > 0
    ensures var r' := if e % 2 == 1 then (r * b) % m else r; (r' * Pow((b * b) % m, e / 2)) % m == (r * Pow(b, e)) % m
  {
    hide Pow;
    var h := e / 2;
    PowMod(b * b, h, m);
    PowSquare(b, h);
    PowHalf(b, e);
    var p, q := Pow((b * b) % m, h), Pow(b, 2 * h);
    if e % 2 == 1 {
      ModTwice(r * b, m);
      MulModBoth((r * b) % m, r * b, p, q, m);
      Regroup(r, b, q);
    } else {
      MulModBoth(r, r, p, q, m);
    }
  }

  ghost predicate Kept(x: nat, c: nat, f: nat, b: nat, e: nat, m: nat)
    requires m > 0
  {
    (x * Pow(c, f)) % m == Pow(b, e) % m
  }

  lemma KeptStart(b: nat, e: nat, m: nat)
    requires m > 0
    ensures Kept(1, b, e, b, e, m)
  {
  }

  lemma KeptEnd(x: nat, c: nat, b: nat, e: nat, m: nat)
    requires x < m && Kept(x, c, 0, b, e, m)
    ensures x == Pow(b, e) % m
  {
    SmallMod(x, m);
  }

  /** The invariant of the loop; no product overflows a word below w * w. */
  lemma {:induction false} KeptTurn(x: nat, c: nat, f: nat, b: nat, e: nat, m: nat, w: nat)
    requires x < m < w && c < w && f > 0 && Kept(x, c, f, b, e, m)
    ensures x * c < w * w && c * c < w * w
    ensures Kept(if f % 2 == 1 then (x * c) % m else x, (c * c) % m, f / 2, b, e, m)
  {
    hide Pow;
    Product(x, c, w);
    Product(c, c, w);
    Turn(x, c, f, m);
  }

  lemma Product(x: nat, y: nat, w: nat)
    requires x < w && y < w
    ensures x * y < w * w
  {
    MulMono(x, w - 1, y);
    MulMono(y, w - 1, w - 1);
    MulMono(w - 1, w, w - 1);
    MulMono(w - 1, w, w);
  }

  // ModPowByte, ModPowUint16 and ModPowUint32 (lines 242-296) for words below w, computed in words below
  // w * w. They panic on 0 to the 0, and divide by zero for m == 0 unless e == 0 as well.
  method ModPow(b: nat, e: nat, m: nat, w: nat) returns (r: Result)
    requires 1 < w && b < w && e < w && m < w
    ensures r.Panic? <==> (b == 0 && e == 0) || (m == 0 && e > 0)
    ensures r.Value? && m > 0 ==> r.v == Pow(b, e) % m
    ensures r.Value? && m == 0 ==> r.v == 1
  {
    if b == 0 && e == 0 { return Panic; }
    if m == 1 { return Value(0); }
    if m == 0 {
      if e > 0 { return Panic; }
      return Value(1);
    }
    hide Pow, Kept;
    var x: nat, c: nat, f: nat := 1, b, e;
    KeptStart(b, e, m);
    while f > 0
      invariant x < m && c < w && f <= e && Kept(x, c, f, b, e, m)
      decreases f
    {
      KeptTurn(x, c, f, b, e, m, w);
      if f % 2 == 1 { x := (x * c) % m; }
      c, f := (c * c) % m, f / 2;
    }
    KeptEnd(x, c, b, e, m);
    return Value(x);
  }
}
