// Why the full cycle generator visits every value: residues modulo distinct primes determine the
// position (the Chinese remainder theorem), and the mixed-radix digits they select determine the value.

module Primes {
  import opened IntMath

  ghost predicate Divides(d: int, x: int)
    requires d > 0
  {
    x % d == 0
  }

  ghost predicate Prime(p: int) {
    p >= 2 && forall d :: 1 < d < p ==> !Divides(d, p)
  }

  lemma DivBy(d: int, x: int) returns (q: int)
    requires d > 0 && Divides(d, x)
    ensures x == d * q
  {
    q := x / d;
  }

  lemma DividesMul(d: int, x: int, k: int)
    requires d > 0 && Divides(d, x)
    ensures Divides(d, x * k)
  {
    var q := DivBy(d, x);
    assert x * k == d * (q * k);
    MulDiv(d, q * k);
  }

  lemma DividesSub(d: int, x: int, y: int)
    requires d > 0 && Divides(d, x) && Divides(d, y)
    ensures Divides(d, x - y)
  {
    var q := DivBy(d, x);
    var r := DivBy(d, y);
    assert x - y == d * (q - r);
    MulDiv(d, q - r);
  }

  /** Euclid's lemma, by descent on a. */
  lemma {:induction false} EuclidBelow(p: int, a: int, b: int)
    requires Prime(p) && 0 < a < p && Divides(p, a * b)
    ensures Divides(p, b)
    decreases a
  {
    if a > 1 {
      var q, r := p / a, p % a;
      assert p == a * q + r;
      assert !Divides(a, p);
      assert 0 < r < a;
      MulDiv(p, b);
      DividesMul(p, a * b, q);
      DividesSub(p, p * b, (a * b) * q);
      assert p * b - (a * b) * q == r * b;
      EuclidBelow(p, r, b);
    }
  }

  lemma {:induction false} Euclid(p: int, a: int, b: int)
    requires Prime(p) && Divides(p, a * b)
    ensures Divides(p, a) || Divides(p, b)
  {
    if !Divides(p, a) {
      var q, r := a / p, a % p;
      assert a == p * q + r && 0 < r < p;
      MulDiv(p, q * b);
      DividesSub(p, a * b, p * (q * b));
      assert a * b - p * (q * b) == r * b;
      EuclidBelow(p, r, b);
    }
  }

  ghost function Prod(s: seq<int>): int {
    if s == [] then 1 else Prod(s[..|s| - 1]) * s[|s| - 1]
  }

  ghost predicate AllPrime(s: seq<int>) {
    forall i :: 0 <= i < |s| ==> Prime(s[i])
  }

  ghost predicate Distinct<T>(s: seq<T>) {
    forall i, j :: 0 <= i < j < |s| ==> s[i] != s[j]
  }

  lemma {:induction false} ProdPositive(s: seq<int>)
    requires AllPrime(s)
    ensures Prod(s) > 0
  {
    if s != [] {
      ProdPositive(s[..|s| - 1]);
      assert Prime(s[|s| - 1]);
    }
  }

  lemma PrimeOfPrime(p: int, q: int)
    requires Prime(p) && Prime(q) && Divides(p, q)
    ensures p == q
  {
  }

  // A prime dividing a product of primes is one of them.
  lemma {:induction false} PrimeOfProd(p: int, s: seq<int>)
    requires Prime(p) && AllPrime(s) && Divides(p, Prod(s))
    ensures p in s
  {
    if s == [] {
      NotOfOne(p);
    } else {
      PrimeOfProdStep(p, s[..|s| - 1], s[|s| - 1]);
      if Divides(p, Prod(s[..|s| - 1])) {
        PrimeOfProd(p, s[..|s| - 1]);
      }
    }
  }

  lemma NotOfOne(p: int)
    requires p >= 2
    ensures !Divides(p, 1)
  {
  }

  lemma {:induction false} PrimeOfProdStep(p: int, i: seq<int>, q: int)
    requires Prime(p) && Prime(q) && Divides(p, Prod(i) * q)
    ensures Divides(p, Prod(i)) || p == q
  {
    Euclid(p, Prod(i), q);
    if Divides(p, q) { PrimeOfPrime(p, q); }
  }

  lemma {:induction false} CoprimeFactor(s: seq<int>, p: int, m: int)
    requires AllPrime(s) && Prime(p) && p !in s && Divides(p, Prod(s) * m)
    ensures Divides(p, m)
  {
    Euclid(p, Prod(s), m);
    if Divides(p, Prod(s)) {
      PrimeOfProd(p, s);
    }
  }

  lemma {:induction false} JointFactor(i: seq<int>, p: int, x: int)
    requires AllPrime(i) && Prime(p) && p !in i && Prod(i) > 0 && Divides(Prod(i), x) && Divides(p, x)
    ensures Prod(i) * p > 0 && Divides(Prod(i) * p, x)
  {
    var n := Prod(i);
    var m := DivBy(n, x);
    CoprimeFactor(i, p, m);
    var k := DivBy(p, m);
    MulAtLeast(n, p);
    assert x == n * (p * k) == (n * p) * k;
    MulDiv(n * p, k);
  }

  /** Distinct primes that all divide x divide it jointly. */
  lemma {:induction false} ProdDivides(s: seq<int>, x: int)
    requires AllPrime(s) && Distinct(s) && forall i :: 0 <= i < |s| ==> s[i] > 0 && Divides(s[i], x)
    ensures Prod(s) > 0 && Divides(Prod(s), x)
  {
    ProdPositive(s);
    if s != [] {
      ProdDivides(s[..|s| - 1], x);
      JointFactor(s[..|s| - 1], s[|s| - 1], x);
    } else {
      assert x % 1 == 0;
    }
  }

  lemma {:induction false} FactorOfProd(s: seq<int>, i: nat)
    requires AllPrime(s) && i < |s|
    ensures s[i] > 0 && Divides(s[i], Prod(s))
  {
    assert Prime(s[i]);
    var t, p := s[..|s| - 1], s[|s| - 1];
    if i == |s| - 1 {
      assert Prod(s) == p * Prod(t);
      MulDiv(p, Prod(t));
    } else {
      FactorOfProd(t, i);
      DividesMul(s[i], Prod(t), p);
    }
  }

  // Products do not depend on the order.
  lemma {:induction false} ProdDelete(s: seq<int>, i: nat)
    requires i < |s|
    ensures Prod(s) == Prod(s[..i] + s[i + 1..]) * s[i]
  {
    var t, p := s[..|s| - 1], s[|s| - 1];
    if i == |s| - 1 {
      assert s[..i] + s[i + 1..] == t;
    } else {
      ProdDelete(t, i);
      var u, v := t[..i] + t[i + 1..], s[..i] + s[i + 1..];
      assert v[..|v| - 1] == u && v[|v| - 1] == p;
      assert Prod(u) * s[i] * p == Prod(u) * p * s[i];
    }
  }

  lemma {:induction false} ProdPermuted(s: seq<int>, t: seq<int>)
    requires multiset(s) == multiset(t)
    ensures Prod(s) == Prod(t)
    decreases |s|
  {
    if s == [] {
      assert |multiset(t)| == 0;
    } else {
      var p := s[|s| - 1];
      assert p in multiset(t);
      var i :| 0 <= i < |t| && t[i] == p;
      var u := t[..i] + t[i + 1..];
      assert t == t[..i] + [p] + t[i + 1..];
      assert multiset(t) == multiset(u) + multiset{p};
      assert s == s[..|s| - 1] + [p];
      assert multiset(s) == multiset(s[..|s| - 1]) + multiset{p};
      assert multiset(u) == multiset(t) - multiset{p} && multiset(s[..|s| - 1]) == multiset(s) - multiset{p};
      ProdPermuted(s[..|s| - 1], u);
      ProdDelete(t, i);
    }
  }
}

module FullCycle {
  import opened IntMath
  import opened Primes

  // Permutations.

  lemma {:induction false} PermutedMembers<T>(s: seq<T>, t: seq<T>)
    requires multiset(s) == multiset(t)
    ensures |s| == |t| && forall x :: x in s <==> x in t
  {
    assert |multiset(s)| == |s| && |multiset(t)| == |t|;
    forall x ensures x in s <==> x in t {
      assert x in s <==> x in multiset(s);
      assert x in t <==> x in multiset(t);
    }
  }

  lemma {:induction false} CountTwice<T>(s: seq<T>, i: nat, j: nat)
    requires i < j < |s| && s[i] == s[j]
    ensures multiset(s)[s[i]] >= 2
  {
    assert s == s[..i] + [s[i]] + s[i + 1..j] + [s[j]] + s[j + 1..];
  }

  lemma {:induction false} CountOnce<T>(s: seq<T>, x: T)
    requires Distinct(s)
    ensures multiset(s)[x] <= 1
  {
    if s != [] {
      var i := s[..|s| - 1];
      assert s == i + [s[|s| - 1]];
      CountOnce(i, x);
      if x == s[|s| - 1] {
        assert x !in i;
        assert multiset(i)[x] == 0;
      }
    }
  }

  lemma {:induction false} PermutedDistinct<T>(s: seq<T>, t: seq<T>)
    requires multiset(s) == multiset(t) && Distinct(s)
    ensures Distinct(t)
  {
    forall i, j | 0 <= i < j < |t| ensures t[i] != t[j] {
      if t[i] == t[j] {
        CountTwice(t, i, j);
        CountOnce(s, t[i]);
      }
    }
  }

  lemma {:induction false} PermutedPrimes(s: seq<int>, t: seq<int>)
    requires multiset(s) == multiset(t) && AllPrime(s)
    ensures AllPrime(t)
  {
    PermutedMembers(s, t);
    forall i | 0 <= i < |t| ensures Prime(t[i]) {
      assert t[i] in t;
    }
  }

  // Mixed-radix values.

  /** The multiples of n below n * p, in order. */
  ghost function Multiples(n: int, p: nat): (r: seq<int>)
    ensures |r| == p && forall j :: 0 <= j < p ==> r[j] == j * n
  {
    seq(p, j => j * n)
  }

  /** f is a shuffling of the multiples of the i-th magnitude. */
  ghost predicate ShuffledAt(set': seq<int>, f: seq<int>, i: nat)
    requires i < |set'|
  {
    set'[i] >= 0 && multiset(f) == multiset(Multiples(Prod(set'[..i]), set'[i]))
  }

  ghost predicate Shuffled(set': seq<int>, factors: seq<seq<int>>) {
    |factors| == |set'| && forall i :: 0 <= i < |set'| ==> ShuffledAt(set', factors[i], i)
  }

  ghost predicate InRange(set': seq<int>, mods: seq<int>) {
    |mods| == |set'| && forall i :: 0 <= i < |mods| ==> 0 <= mods[i] < set'[i]
  }

  /** The sum of the first k selected factors. */
  ghost function Sum(factors: seq<seq<int>>, mods: seq<int>, k: nat): int
    requires k <= |factors| && k <= |mods| && forall i :: 0 <= i < k ==> 0 <= mods[i] < |factors[i]|
  {
    if k == 0 then 0 else Sum(factors, mods, k - 1) + factors[k - 1][mods[k - 1]]
  }

  lemma {:induction false} FactorLen(set': seq<int>, factors: seq<seq<int>>, i: nat)
    requires Shuffled(set', factors) && i < |set'|
    ensures |factors[i]| == set'[i]
  {
    assert ShuffledAt(set', factors[i], i);
    PermutedMembers(factors[i], Multiples(Prod(set'[..i]), set'[i]));
  }

  lemma {:induction false} FactorLens(set': seq<int>, factors: seq<seq<int>>)
    requires Shuffled(set', factors)
    ensures |factors| == |set'| && forall i :: 0 <= i < |set'| ==> |factors[i]| == set'[i]
  {
    forall i | 0 <= i < |set'| ensures |factors[i]| == set'[i] {
      FactorLen(set', factors, i);
    }
  }

  ghost function Times(a: int, b: int): int {
    a * b
  }

  // A selected factor is a digit times its magnitude.
  lemma {:induction false} DigitAt(set': seq<int>, factors: seq<seq<int>>, i: nat, m: int) returns (d: int)
    requires Shuffled(set', factors) && i < |set'| && 0 <= m < set'[i]
    ensures |factors[i]| == set'[i] && 0 <= d < set'[i] && factors[i][m] == Times(d, Prod(set'[..i]))
  {
    assert ShuffledAt(set', factors[i], i);
    var ms := Multiples(Prod(set'[..i]), set'[i]);
    PermutedMembers(factors[i], ms);
    assert factors[i][m] in ms;
    d :| 0 <= d < |ms| && ms[d] == factors[i][m];
  }

  lemma TopBound(a: int, d: int, n: int, p: int)
    requires 0 <= a < n && 0 <= d < p
    ensures 0 <= a + Times(d, n) < n * p
  {
    MulMono(0, d, n);
    MulMono(d, p - 1, n);
    assert (p - 1) * n == n * p - n;
  }

  lemma {:induction false} SumBound(set': seq<int>, factors: seq<seq<int>>, mods: seq<int>, k: nat)
    requires Shuffled(set', factors) && AllPrime(set') && InRange(set', mods) && k <= |set'| == |factors|
    requires forall i :: 0 <= i < |set'| ==> |factors[i]| == set'[i]
    ensures 0 <= Sum(factors, mods, k) < Prod(set'[..k])
  {
    hide Shuffled, AllPrime, Times;
    if k > 0 {
      SumBound(set', factors, mods, k - 1);
      var d := DigitAt(set', factors, k - 1, mods[k - 1]);
      assert set'[..k][..k - 1] == set'[..k - 1];
      TopBound(Sum(factors, mods, k - 1), d, Prod(set'[..k - 1]), set'[k - 1]);
    }
  }

  lemma {:induction false} MultiplesDistinct(n: int, p: nat)
    requires n > 0
    ensures Distinct(Multiples(n, p))
  {
    forall i, j | 0 <= i < j < p ensures Multiples(n, p)[i] != Multiples(n, p)[j] {
      MulAtLeast(n, j - i);
      assert n * (j - i) == j * n - i * n;
    }
  }

  lemma {:induction false} DigitsDiffer(set': seq<int>, factors: seq<seq<int>>, i: nat, m: int, m': int)
    requires Shuffled(set', factors) && AllPrime(set') && i < |set'| && 0 <= m < set'[i] && 0 <= m' < set'[i]
    requires |factors[i]| == set'[i] && factors[i][m] == factors[i][m']
    ensures m == m'
  {
    assert ShuffledAt(set', factors[i], i);
    ProdPositive(set'[..i]);
    MultiplesDistinct(Prod(set'[..i]), set'[i]);
    PermutedDistinct(Multiples(Prod(set'[..i]), set'[i]), factors[i]);
  }

  // The top digit of a sum can be read off.
  lemma TopDigit(a: int, d: int, b: int, e: int, n: int)
    requires 0 <= a < n && 0 <= b < n && a + Times(d, n) == b + Times(e, n)
    ensures d == e && a == b
  {
    if d > e {
      MulAtLeast(n, d - e);
    } else if d < e {
      MulAtLeast(n, e - d);
    }
  }

  lemma {:induction false} SumTop(set': seq<int>, factors: seq<seq<int>>, a: seq<int>, b: seq<int>, k: nat)
    requires Shuffled(set', factors) && AllPrime(set') && InRange(set', a) && InRange(set', b) &&
             0 < k <= |set'| == |factors|
    requires forall i :: 0 <= i < |set'| ==> |factors[i]| == set'[i]
    requires Sum(factors, a, k) == Sum(factors, b, k)
    ensures a[k - 1] == b[k - 1] && Sum(factors, a, k - 1) == Sum(factors, b, k - 1)
  {
    hide Shuffled, AllPrime, Prod, Times;
    SumBound(set', factors, a, k - 1);
    SumBound(set', factors, b, k - 1);
    var d := DigitAt(set', factors, k - 1, a[k - 1]);
    var e := DigitAt(set', factors, k - 1, b[k - 1]);
    TopDigit(Sum(factors, a, k - 1), d, Sum(factors, b, k - 1), e, Prod(set'[..k - 1]));
    DigitsDiffer(set', factors, k - 1, a[k - 1], b[k - 1]);
  }

  /** Different digits select different sums. */
  lemma {:induction false} SumInjective(set': seq<int>, factors: seq<seq<int>>, a: seq<int>, b: seq<int>, k: nat)
    requires Shuffled(set', factors) && AllPrime(set') && InRange(set', a) && InRange(set', b) &&
             k <= |set'| == |factors|
    requires forall i :: 0 <= i < |set'| ==> |factors[i]| == set'[i]
    requires Sum(factors, a, k) == Sum(factors, b, k)
    ensures forall i :: 0 <= i < k ==> a[i] == b[i]
  {
    if k > 0 {
      SumTop(set', factors, a, b, k);
      SumInjective(set', factors, a, b, k - 1);
    }
  }

  // Positions.

  ghost function Residue(m: int, dir: int, t: nat, p: int): (r: int)
    requires p > 0
    ensures 0 <= r < p
  {
    (m + dir * t) % p
  }

  /** The residues t steps after mods. */
  ghost function At(set': seq<int>, mods: seq<int>, dir: int, t: nat): (r: seq<int>)
    requires |mods| == |set'| && forall i :: 0 <= i < |set'| ==> set'[i] > 0
    ensures InRange(set', r) && forall i :: 0 <= i < |mods| ==> r[i] == Residue(mods[i], dir, t, set'[i])
  {
    seq(|mods|, i requires 0 <= i < |mods| => Residue(mods[i], dir, t, set'[i]))
  }

  lemma {:induction false} SameResidue(x: int, y: int, p: int)
    requires p > 0 && x % p == y % p
    ensures Divides(p, x - y)
  {
    assert x - y == p * (x / p - y / p);
    MulDiv(p, x / p - y / p);
  }

  /** Equal residues less than a cycle apart are at the same position. */
  lemma {:induction false} PositionsDiffer(set': seq<int>, mods: seq<int>, dir: int, s: nat, t: nat)
    requires AllPrime(set') && Distinct(set') && |mods| == |set'| && (dir == 1 || dir == -1) && s <= t < s + Prod(set')
    requires forall i :: 0 <= i < |set'| ==> set'[i] > 0
    requires At(set', mods, dir, s) == At(set', mods, dir, t)
    ensures s == t
  {
    forall i | 0 <= i < |set'| ensures Divides(set'[i], t - s) {
      assert At(set', mods, dir, s)[i] == At(set', mods, dir, t)[i];
      SameResidue(mods[i] + dir * t, mods[i] + dir * s, set'[i]);
      if dir == -1 { SameResidue(mods[i] - s, mods[i] - t, set'[i]); }
    }
    ProdDivides(set', t - s);
    if s != t {
      SmallMod(t - s, Prod(set'));
    }
  }

  // Pigeonholes.

  ghost function Below(n: nat): (r: set<int>)
    ensures forall x :: x in r <==> 0 <= x < n
    ensures |r| == n
  {
    if n == 0 then {} else Below(n - 1) + {n - 1}
  }

  ghost function Elems(s: seq<int>): (r: set<int>)
    ensures forall x :: x in r <==> x in s
  {
    set x | x in s
  }

  lemma {:induction false} DistinctCount(s: seq<int>)
    requires Distinct(s)
    ensures |Elems(s)| == |s|
  {
    if s != [] {
      var i := s[..|s| - 1];
      DistinctCount(i);
      assert Elems(s) == Elems(i) + {s[|s| - 1]};
      assert s[|s| - 1] !in i;
    }
  }

  lemma SubsetSize(a: set<int>, b: set<int>)
    requires a <= b && |a| == |b|
    ensures a == b
  {
    assert a - b == {} && a * b == a && a + b == b;
    assert |b - a| == 0;
    assert b == (b - a) + a;
  }

  /** n distinct numbers below n are all of them. */
  lemma {:induction false} Pigeonhole(s: seq<int>, x: int)
    requires Distinct(s) && (forall i :: 0 <= i < |s| ==> 0 <= s[i] < |s|) && 0 <= x < |s|
    ensures x in s
  {
    DistinctCount(s);
    assert Elems(s) <= Below(|s|);
    SubsetSize(Elems(s), Below(|s|));
  }
}
