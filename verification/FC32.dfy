// The full cycle generator FC32 (mathutil/rnd.go).

module CycleRun {
  import opened IntMath
  import opened Primes
  import opened FullCycle

  /** Bases and factors of a generator with inner cycle n. */
  ghost predicate Core(bases: seq<int>, factors: seq<seq<int>>, n: int) {
    && AllPrime(bases) && Distinct(bases) && Prod(bases) == n
    && Shuffled(bases, factors) && |factors| == |bases|
    && (forall i :: 0 <= i < |bases| ==> bases[i] > 1 && |factors[i]| == bases[i])
  }

  /** The inner value t steps after mods. */
  ghost function Val(bases: seq<int>, factors: seq<seq<int>>, n: int, mods: seq<int>, dir: int, t: nat): int
    requires Core(bases, factors, n) && |mods| == |bases|
  {
    Sum(factors, At(bases, mods, dir, t), |bases|)
  }

  lemma ValIs(bases: seq<int>, factors: seq<seq<int>>, n: int, mods: seq<int>, dir: int, t: nat)
    requires Core(bases, factors, n) && |mods| == |bases| && forall i :: 0 <= i < |bases| ==> bases[i] > 1
    requires |factors| == |bases| && forall i :: 0 <= i < |bases| ==> |factors[i]| == bases[i]
    ensures Val(bases, factors, n, mods, dir, t) == Sum(factors, At(bases, mods, dir, t), |bases|)
  {
  }

  lemma {:induction false} ValRange(bases: seq<int>, factors: seq<seq<int>>, n: int, mods: seq<int>, dir: int, t: nat)
    requires Core(bases, factors, n) && |mods| == |bases|
    ensures 0 <= Val(bases, factors, n, mods, dir, t) < n
  {
    SumBound(bases, factors, At(bases, mods, dir, t), |bases|);
    assert bases[..|bases|] == bases;
  }

  lemma {:induction false} ValInjective(bases: seq<int>, factors: seq<seq<int>>, n: int, mods: seq<int>, dir: int,
                                        s: nat, t: nat)
    requires Core(bases, factors, n) && |mods| == |bases| && (dir == 1 || dir == -1) && s < t < s + n
    ensures Val(bases, factors, n, mods, dir, s) != Val(bases, factors, n, mods, dir, t)
  {
    if Val(bases, factors, n, mods, dir, s) == Val(bases, factors, n, mods, dir, t) {
      SumInjective(bases, factors, At(bases, mods, dir, s), At(bases, mods, dir, t), |bases|);
      assert At(bases, mods, dir, s) == At(bases, mods, dir, t);
      PositionsDiffer(bases, mods, dir, s, t);
    }
  }

  /** Every inner value occurs within n steps. */
  lemma {:induction false} ValSurjective(bases: seq<int>, factors: seq<seq<int>>, n: int, mods: seq<int>, dir: int,
                                         v: int)
    returns (t: nat)
    requires Core(bases, factors, n) && |mods| == |bases| && (dir == 1 || dir == -1) && 0 <= v < n
    ensures 0 < t <= n && Val(bases, factors, n, mods, dir, t) == v
  {
    hide Core, Val;
    var s := seq(n, j requires 0 <= j < n => Val(bases, factors, n, mods, dir, j + 1));
    forall i | 0 <= i < |s| ensures 0 <= s[i] < |s| {
      ValRange(bases, factors, n, mods, dir, i + 1);
    }
    forall i, j | 0 <= i < j < |s| ensures s[i] != s[j] {
      ValInjective(bases, factors, n, mods, dir, i + 1, j + 1);
    }
    Pigeonhole(s, v);
    var j :| 0 <= j < |s| && s[j] == v;
    t := j + 1;
  }

  /** The values up to delta met in the first t steps. */
  ghost function Outs(bases: seq<int>, factors: seq<seq<int>>, n: int, mods: seq<int>, dir: int, delta: int,
                      t: nat): seq<int>
    requires Core(bases, factors, n) && |mods| == |bases|
  {
    if t == 0 then []
    else
      var v, o := Val(bases, factors, n, mods, dir, t), Outs(bases, factors, n, mods, dir, delta, t - 1);
      if v <= delta then o + [v] else o
  }

  lemma {:induction false} OutsAre(bases: seq<int>, factors: seq<seq<int>>, n: int, mods: seq<int>, dir: int,
                                   delta: int, t: nat, i: nat)
    returns (j: nat)
    requires Core(bases, factors, n) && |mods| == |bases| && i < |Outs(bases, factors, n, mods, dir, delta, t)|
    ensures 0 < j <= t && Val(bases, factors, n, mods, dir, j) == Outs(bases, factors, n, mods, dir, delta, t)[i]
    ensures 0 <= Outs(bases, factors, n, mods, dir, delta, t)[i] <= delta
  {
    hide Core, Val;
    var o := Outs(bases, factors, n, mods, dir, delta, t - 1);
    if i < |o| {
      j := OutsAre(bases, factors, n, mods, dir, delta, t - 1, i);
    } else {
      j := t;
      ValRange(bases, factors, n, mods, dir, t);
    }
  }

  lemma {:induction false} OutsDistinct(bases: seq<int>, factors: seq<seq<int>>, n: int, mods: seq<int>, dir: int,
                                        delta: int, t: nat)
    requires Core(bases, factors, n) && |mods| == |bases| && (dir == 1 || dir == -1) && t <= n
    ensures Distinct(Outs(bases, factors, n, mods, dir, delta, t))
  {
    hide Core, Val;
    if t > 0 {
      var v, o := Val(bases, factors, n, mods, dir, t), Outs(bases, factors, n, mods, dir, delta, t - 1);
      OutsDistinct(bases, factors, n, mods, dir, delta, t - 1);
      forall i | 0 <= i < |o| ensures o[i] != v {
        var j := OutsAre(bases, factors, n, mods, dir, delta, t - 1, i);
        ValInjective(bases, factors, n, mods, dir, j, t);
      }
    }
  }

  lemma {:induction false} OutsHas(bases: seq<int>, factors: seq<seq<int>>, n: int, mods: seq<int>, dir: int,
                                   delta: int, t: nat, j: nat)
    requires Core(bases, factors, n) && |mods| == |bases| && 0 < j <= t && Val(bases, factors, n, mods, dir, j) <= delta
    ensures Val(bases, factors, n, mods, dir, j) in Outs(bases, factors, n, mods, dir, delta, t)
  {
    hide Core, Val;
    if j < t {
      OutsHas(bases, factors, n, mods, dir, delta, t - 1, j);
    }
  }

  lemma {:induction false} MissingBelow(s: seq<int>, m: nat) returns (v: int)
    requires |s| < m
    ensures 0 <= v < m && v !in s
  {
    if m == 1 {
      v := 0;
    } else if m - 1 !in s {
      v := m - 1;
    } else {
      var i :| 0 <= i < |s| && s[i] == m - 1;
      v := MissingBelow(s[..i] + s[i + 1..], m - 1);
      assert s == s[..i] + [m - 1] + s[i + 1..];
    }
  }

  /** As long as fewer than delta + 1 values were met, another one comes within the first cycle. */
  lemma {:induction false} MoreToCome(bases: seq<int>, factors: seq<seq<int>>, n: int, mods: seq<int>, dir: int,
                                      delta: int, t: nat)
    returns (j: nat)
    requires Core(bases, factors, n) && |mods| == |bases| && (dir == 1 || dir == -1) && 0 <= delta < n
    requires |Outs(bases, factors, n, mods, dir, delta, t)| <= delta
    ensures t < j <= n && Val(bases, factors, n, mods, dir, j) <= delta
  {
    hide Core, Val;
    var v := MissingBelow(Outs(bases, factors, n, mods, dir, delta, t), delta + 1);
    j := ValSurjective(bases, factors, n, mods, dir, v);
    if j <= t {
      OutsHas(bases, factors, n, mods, dir, delta, t, j);
    }
  }

  lemma {:induction false} OutsSkip(bases: seq<int>, factors: seq<seq<int>>, n: int, mods: seq<int>, dir: int,
                                    delta: int, s: nat, t: nat)
    requires Core(bases, factors, n) && |mods| == |bases| && s <= t
    requires forall j :: s < j <= t ==> Val(bases, factors, n, mods, dir, j) > delta
    ensures Outs(bases, factors, n, mods, dir, delta, t) == Outs(bases, factors, n, mods, dir, delta, s)
  {
    hide Core, Val;
    if s < t {
      OutsSkip(bases, factors, n, mods, dir, delta, s, t - 1);
    }
  }

  lemma OutsZero(bases: seq<int>, factors: seq<seq<int>>, n: int, mods: seq<int>, dir: int, delta: int)
    requires Core(bases, factors, n) && |mods| == |bases|
    ensures Outs(bases, factors, n, mods, dir, delta, 0) == []
  {
  }

  lemma {:induction false} NextOut(bases: seq<int>, factors: seq<seq<int>>, n: int, mods: seq<int>, dir: int,
                                   delta: int, t: nat, k: nat)
    requires Core(bases, factors, n) && |mods| == |bases| && k > 0
    requires forall j :: t < j < t + k ==> Val(bases, factors, n, mods, dir, j) > delta
    requires Val(bases, factors, n, mods, dir, t + k) <= delta
    ensures Outs(bases, factors, n, mods, dir, delta, t + k) == Outs(bases, factors, n, mods, dir, delta, t) +
            [Val(bases, factors, n, mods, dir, t + k)]
  {
    hide Core, Val;
    OutsSkip(bases, factors, n, mods, dir, delta, t, t + k - 1);
  }

  /** delta + 1 values met within one cycle are all of 0..delta. */
  lemma {:induction false} AllOuts(bases: seq<int>, factors: seq<seq<int>>, n: int, mods: seq<int>, dir: int,
                                   delta: int, t: nat)
    requires Core(bases, factors, n) && |mods| == |bases| && (dir == 1 || dir == -1) && t <= n
    requires |Outs(bases, factors, n, mods, dir, delta, t)| == delta + 1
    ensures var o := Outs(bases, factors, n, mods, dir, delta, t);
            Distinct(o) && forall v :: v in o <==> 0 <= v <= delta
  {
    hide Core, Val, Outs;
    var o := Outs(bases, factors, n, mods, dir, delta, t);
    OutsDistinct(bases, factors, n, mods, dir, delta, t);
    forall i | 0 <= i < |o| ensures 0 <= o[i] < |o| {
      var _ := OutsAre(bases, factors, n, mods, dir, delta, t, i);
    }
    forall v | 0 <= v <= delta ensures v in o {
      Pigeonhole(o, v);
    }
  }

  lemma {:induction false} Shifted(out: seq<int>, vs: seq<int>, lo: int, delta: int)
    requires |out| == |vs| && (forall i :: 0 <= i < |out| ==> out[i] == vs[i] + lo)
    requires Distinct(vs) && forall v :: v in vs <==> 0 <= v <= delta
    ensures Distinct(out) && forall v :: v in out <==> lo <= v <= lo + delta
  {
    forall v ensures v in out <==> lo <= v <= lo + delta {
      if v in out {
        var i :| 0 <= i < |out| && out[i] == v;
        assert vs[i] in vs;
      }
      if lo <= v <= lo + delta {
        assert v - lo in vs;
        var i :| 0 <= i < |vs| && vs[i] == v - lo;
        assert out[i] == v;
      }
    }
  }

  // Single steps.

  /** One residue moved by dir, as the source's switch does for any stored residue. */
  function Wrap(m: int, dir: int, p: int): int {
    var m' := m + dir;
    if m' < 0 then p - 1 else if m' >= p then 0 else m'
  }

  /** The residue in range that a stored residue moves like. */
  ghost function Norm(m: int, dir: int, p: int): int
    requires p > 0
  {
    (Wrap(m, dir, p) - dir) % p
  }

  lemma WrapIsMod(m: int, dir: int, p: int)
    requires p > 1 && (dir == 1 || dir == -1)
    ensures 0 <= Norm(m, dir, p) < p && Wrap(m, dir, p) == (Norm(m, dir, p) + dir) % p
  {
    var w := Wrap(m, dir, p);
    AddMod(w - dir, dir, p);
    SmallMod(w, p);
  }

  lemma NormInRange(m: int, dir: int, p: int)
    requires p > 1 && (dir == 1 || dir == -1) && 0 <= m < p
    ensures Norm(m, dir, p) == m
  {
    if 0 <= m + dir < p {
      SmallMod(m, p);
    } else if dir == 1 {
      assert m == p - 1;
      assert (-1) % p == p - 1;
    } else {
      assert m == 0;
      assert p % p == 0;
    }
  }

  ghost function Norms(bases: seq<int>, mods: seq<int>, dir: int): (r: seq<int>)
    requires |mods| == |bases| && forall i :: 0 <= i < |bases| ==> bases[i] > 1
    ensures |r| == |mods|
  {
    seq(|mods|, i requires 0 <= i < |mods| => Norm(mods[i], dir, bases[i]))
  }

  ghost function Moved(bases: seq<int>, mods: seq<int>, dir: int): (r: seq<int>)
    requires |mods| == |bases|
    ensures |r| == |mods| && forall i :: 0 <= i < |mods| ==> r[i] == Wrap(mods[i], dir, bases[i])
  {
    seq(|mods|, i requires 0 <= i < |mods| => Wrap(mods[i], dir, bases[i]))
  }

  /** Moving any stored residues is one step from their normal form. */
  lemma {:induction false} MovedIsAt(bases: seq<int>, mods: seq<int>, dir: int)
    requires |mods| == |bases| && (dir == 1 || dir == -1) && forall i :: 0 <= i < |bases| ==> bases[i] > 1
    ensures Moved(bases, mods, dir) == At(bases, Norms(bases, mods, dir), dir, 1) &&
            InRange(bases, Moved(bases, mods, dir))
  {
    forall i | 0 <= i < |mods| ensures Moved(bases, mods, dir)[i] == At(bases, Norms(bases, mods, dir), dir, 1)[i] {
      WrapIsMod(mods[i], dir, bases[i]);
    }
  }

  lemma {:induction false} NormsInRange(bases: seq<int>, mods: seq<int>, dir: int)
    requires InRange(bases, mods) && (dir == 1 || dir == -1) && forall i :: 0 <= i < |bases| ==> bases[i] > 1
    ensures Norms(bases, mods, dir) == mods && At(bases, mods, dir, 0) == mods
  {
    forall i | 0 <= i < |mods| ensures Norms(bases, mods, dir)[i] == mods[i] && At(bases, mods, dir, 0)[i] == mods[i] {
      NormInRange(mods[i], dir, bases[i]);
      SmallMod(mods[i], bases[i]);
    }
  }

  lemma TwoMoves(m: int, dir: int, s: nat, t: nat, p: int)
    requires p > 0
    ensures Residue(Residue(m, dir, s, p), dir, t, p) == Residue(m, dir, s + t, p)
  {
    AddMod(m + dir * s, dir * t, p);
    assert m + dir * s + dir * t == m + dir * (s + t);
  }

  lemma {:induction false} AtAt(bases: seq<int>, mods: seq<int>, dir: int, s: nat, t: nat)
    requires |mods| == |bases| && forall i :: 0 <= i < |bases| ==> bases[i] > 1
    ensures At(bases, At(bases, mods, dir, s), dir, t) == At(bases, mods, dir, s + t)
  {
    hide Residue;
    forall i | 0 <= i < |mods| ensures At(bases, At(bases, mods, dir, s), dir, t)[i] == At(bases, mods, dir, s + t)[i] {
      TwoMoves(mods[i], dir, s, t, bases[i]);
    }
  }

  lemma {:induction false} NormsAtZero(bases: seq<int>, mods: seq<int>, dir: int)
    requires |mods| == |bases| && (dir == 1 || dir == -1) && forall i :: 0 <= i < |bases| ==> bases[i] > 1
    ensures At(bases, Norms(bases, mods, dir), dir, 0) == Norms(bases, mods, dir)
  {
    hide Norm;
    var from := Norms(bases, mods, dir);
    forall i | 0 <= i < |mods| ensures At(bases, from, dir, 0)[i] == from[i] {
      WrapIsMod(mods[i], dir, bases[i]);
      SmallMod(from[i], bases[i]);
    }
  }

  lemma {:induction false} LaterVal(bases: seq<int>, factors: seq<seq<int>>, n: int, mods: seq<int>, dir: int, t: nat,
                                    k: nat)
    requires Core(bases, factors, n) && |mods| == |bases| && (forall i :: 0 <= i < |bases| ==> bases[i] > 1)
    ensures Val(bases, factors, n, At(bases, mods, dir, t), dir, k) == Val(bases, factors, n, mods, dir, t + k)
  {
    hide Residue, Sum;
    AtAt(bases, mods, dir, t, k);
  }

  /** The values skipped after t steps are later values. */
  lemma {:induction false} LaterSkip(bases: seq<int>, factors: seq<seq<int>>, n: int, mods: seq<int>, dir: int, t: nat,
                                     k: nat, delta: int)
    requires Core(bases, factors, n) && |mods| == |bases| && (forall i :: 0 <= i < |bases| ==> bases[i] > 1)
    requires forall j :: 0 < j < k ==> Val(bases, factors, n, At(bases, mods, dir, t), dir, j) > delta
    ensures forall j :: t < j < t + k ==> Val(bases, factors, n, mods, dir, j) > delta
  {
    hide Core, Val;
    forall j | t < j < t + k ensures Val(bases, factors, n, mods, dir, j) > delta {
      LaterVal(bases, factors, n, mods, dir, t, j - t);
    }
  }

  /** Going back k of t steps. */
  lemma {:induction false} BackAt(bases: seq<int>, mods: seq<int>, t: nat, k: nat)
    requires InRange(bases, mods) && k <= t && forall i :: 0 <= i < |bases| ==> bases[i] > 1
    ensures At(bases, At(bases, mods, 1, t), -1, k) == At(bases, mods, 1, t - k)
    ensures k == t ==> At(bases, mods, 1, t - k) == mods
  {
    hide Residue;
    NormsInRange(bases, mods, 1);
    forall i | 0 <= i < |mods| ensures At(bases, At(bases, mods, 1, t), -1, k)[i] == At(bases, mods, 1, t - k)[i] {
      BackResidue(mods[i], t, k, bases[i]);
    }
  }

  lemma BackResidue(m: int, t: nat, k: nat, p: int)
    requires p > 0 && k <= t
    ensures Residue(Residue(m, 1, t, p), -1, k, p) == Residue(m, 1, t - k, p)
  {
    hide Residue;
    ResidueIs(m, 1, t, p);
    ResidueIs((m + t) % p, -1, k, p);
    ResidueIs(m, 1, t - k, p);
    BackMod(m + t, k, p);
  }

  lemma BackMod(x: int, k: int, p: int)
    requires p > 0
    ensures (x % p - k) % p == (x - k) % p
  {
    AddMod(x, -k, p);
  }

  lemma ResidueIs(m: int, dir: int, t: nat, p: int)
    requires p > 0 && (dir == 1 || dir == -1)
    ensures Residue(m, dir, t, p) == (if dir == 1 then m + t else m - t) % p
  {
  }

  lemma {:induction false} BackVal(bases: seq<int>, factors: seq<seq<int>>, n: int, mods: seq<int>, t: nat, k: nat)
    requires Core(bases, factors, n) && InRange(bases, mods) && k <= t
    requires forall i :: 0 <= i < |bases| ==> bases[i] > 1
    ensures Val(bases, factors, n, At(bases, mods, 1, t), -1, k) == Val(bases, factors, n, mods, 1, t - k)
  {
    hide Residue, Sum;
    BackAt(bases, mods, t, k);
  }
}

module FC32 {
  import opened IntMath
  import opened Primes
  import opened FullCycle
  import opened CycleRun
  import opened Options

  const MAX_UINT32: int := 0xFFFF_FFFF
  const TWO_63: int := 0x8000_0000_0000_0000
  const TWO_64: int := 0x1_0000_0000_0000_0000

  const LAST_PRIME: int := 0xFFFF_FFFB  // the largest below 2^32

  // NextPrime, by what it promises: the least prime above p, if there is one below 2^32.
  ghost predicate NextPrime(next: nat -> nat) {
    forall p :: 2 <= p < LAST_PRIME ==> IsNext(p, next(p))
  }

  ghost predicate IsNext(p: nat, q: nat) {
    Prime(q) && p < q && forall x :: p < x < q ==> !Prime(x)
  }

  function Without(s: seq<int>, i: nat): seq<int>
    requires i < |s|
  {
    s[..i] + s[i + 1..]
  }

  // delete (lines 173-180).
  method Delete(s: seq<int>, i: nat) returns (y: seq<int>)
    requires i < |s|
    ensures y == Without(s, i)
  {
    y := [];
    for j := 0 to |s|
      invariant y == if j <= i then s[..j] else s[..i] + s[i + 1..j]
    {
      if j != i { y := y + [s[j]]; }
    }
  }

  const ONES: int := 0xFFFF_FFFF_FFFF_FFFF

  // rol (lines 192-198): rotation of a 64-bit word, which doubles it modulo 2^64 - 1.
  function Rol(u: nat): (r: nat)
    requires u < TWO_64
    ensures r < TWO_64 && (r - 2 * u) % ONES == 0 && (r == 0 <==> u == 0) && (r == ONES <==> u == ONES)
  {
    (u * 2) % TWO_64 + (if u >= TWO_63 then 1 else 0)
  }

  ghost function Pow2(k: nat): nat {
    if k == 0 then 1 else 2 * Pow2(k - 1)
  }

  /** The word w is u rotated k places. */
  ghost predicate IsRotated(u: nat, k: nat, w: nat) {
    u < TWO_64 && w < TWO_64 && (w - u * Pow2(k)) % ONES == 0 && (w == 0 <==> u == 0) && (w == ONES <==> u == ONES)
  }

  /** There is only one. */
  lemma {:induction false} OneRotation(u: nat, k: nat, w: nat, x: nat)
    requires IsRotated(u, k, w) && IsRotated(u, k, x)
    ensures w == x
  {
    hide Pow2;
    var a, b := w - u * Pow2(k), x - u * Pow2(k);
    var p := DivBy(ONES, a);
    var q := DivBy(ONES, b);
    assert w - x == ONES * (p - q);
  }

  lemma {:induction false} Rotate(u: nat, k: nat, v: nat, l: nat, w: nat)
    requires IsRotated(u, k, v) && IsRotated(v, l, w)
    ensures IsRotated(u, k + l, w)
  {
    PowAdd(k, l);
    var p := DivBy(ONES, v - u * Pow2(k));
    var q := DivBy(ONES, w - v * Pow2(l));
    Multiple(w, v, u, Pow2(k), Pow2(l), p, q);
    MulDiv(ONES, q + p * Pow2(l));
  }

  lemma Multiple(w: int, v: int, u: int, a: int, b: int, p: int, q: int)
    requires v - u * a == ONES * p && w - v * b == ONES * q
    ensures w - u * (a * b) == ONES * (q + p * b)
  {
    assert (v - u * a) * b == (ONES * p) * b;
    assert (v - u * a) * b == v * b - u * (a * b);
    assert (ONES * p) * b == ONES * (p * b);
  }

  lemma {:induction false} PowAdd(k: nat, l: nat)
    ensures Pow2(k + l) == Pow2(k) * Pow2(l)
  {
    if l == 0 {
      assert Pow2(0) == 1;
    } else {
      PowAdd(k, l - 1);
      Double(Pow2(k), Pow2(l - 1));
      assert Pow2(k + l) == 2 * Pow2(k + l - 1) && k + l - 1 == k + (l - 1);
    }
  }

  lemma Double(a: nat, b: nat)
    ensures a * (2 * b) == 2 * (a * b)
  {
  }

  lemma RolRotates(u: nat)
    requires u < TWO_64
    ensures IsRotated(u, 1, Rol(u)) && IsRotated(u, 0, u)
  {
    assert Pow2(1) == 2 * Pow2(0);
  }

  // What mix does, told by indices.

  /** The indices below n that are not in t, in order. */
  ghost function Left(n: nat, t: seq<nat>): seq<nat> {
    if n == 0 then [] else Left(n - 1, t) + if n - 1 in t then [] else [n - 1]
  }

  /** Output j is the element that word w selects among the inputs not yet taken, in input order. */
  ghost predicate Picked(n: nat, idx: seq<nat>, j: nat, w: nat)
    requires j < |idx|
  {
    var r := Left(n, idx[..j]);
    |r| == n - j > 0 && idx[j] == r[w % (n - j)]
  }

  /** y is s mixed with u rotated k + 1, k + 2, ... places; idx says where its elements are in s. */
  ghost predicate IsMix(s: seq<int>, y: seq<int>, u: nat, k: nat, idx: seq<nat>, ws: seq<nat>) {
    && |y| == |idx| == |ws| == |s|
    && forall j :: 0 <= j < |s| ==>
         IsRotated(u, k + j + 1, ws[j]) && Picked(|s|, idx, j, ws[j]) && idx[j] < |s| && y[j] == s[idx[j]]
  }

  ghost predicate MixedBy(s: seq<int>, y: seq<int>, u: nat, k: nat) {
    exists idx, ws :: IsMix(s, y, u, k, idx, ws)
  }

  /** That determines y. */
  lemma {:induction false} OneMix(s: seq<int>, y: seq<int>, z: seq<int>, u: nat, k: nat)
    requires MixedBy(s, y, u, k) && MixedBy(s, z, u, k)
    ensures y == z
  {
    hide IsRotated, Left;
    var idx, ws :| IsMix(s, y, u, k, idx, ws);
    var jdx, vs :| IsMix(s, z, u, k, jdx, vs);
    var n := 0;
    while n < |s|
      invariant 0 <= n <= |s| && idx[..n] == jdx[..n]
    {
      OneRotation(u, k + n + 1, ws[n], vs[n]);
      assert Picked(|s|, idx, n, ws[n]) && Picked(|s|, jdx, n, vs[n]);
      assert idx[..n + 1] == idx[..n] + [idx[n]] && jdx[..n + 1] == jdx[..n] + [jdx[n]];
      n := n + 1;
    }
    assert idx == jdx by { assert idx[..n] == idx && jdx[..n] == jdx; }
  }

  lemma {:induction false} LeftBelow(n: nat, t: seq<nat>, i: nat)
    requires i < |Left(n, t)|
    ensures Left(n, t)[i] < n && Left(n, t)[i] !in t
  {
    if i < |Left(n - 1, t)| { LeftBelow(n - 1, t, i); }
  }

  lemma {:induction false} LeftIgnores(n: nat, t: seq<nat>, x: nat)
    requires x >= n
    ensures Left(n, t + [x]) == Left(n, t)
  {
    if n > 0 { LeftIgnores(n - 1, t, x); }
  }

  lemma {:induction false} LeftMinus(n: nat, t: seq<nat>, i: nat)
    requires i < |Left(n, t)|
    ensures var r := Left(n, t); Left(n, t + [r[i]]) == r[..i] + r[i + 1..]
  {
    var r, q := Left(n, t), Left(n - 1, t);
    if i < |q| {
      LeftBelow(n - 1, t, i);
      LeftMinus(n - 1, t, i);
      assert r[i] == q[i];
      assert r[..i] + r[i + 1..] == q[..i] + q[i + 1..] + if n - 1 in t then [] else [n - 1];
    } else {
      LeftIgnores(n - 1, t, n - 1);
      assert r == q + [n - 1] && r[i] == n - 1;
      assert r[..i] == q && r[i + 1..] == [];
    }
  }

  lemma {:induction false} LeftAll(n: nat)
    ensures |Left(n, [])| == n && forall j :: 0 <= j < n ==> Left(n, [])[j] == j
  {
    if n > 0 { LeftAll(n - 1); }
  }

  ghost predicate Selects(s: seq<int>, r: seq<nat>, cur: seq<int>) {
    |cur| == |r| && forall i :: 0 <= i < |r| ==> r[i] < |s| && cur[i] == s[r[i]]
  }

  lemma SelectsWithout(s: seq<int>, r: seq<nat>, cur: seq<int>, i: nat)
    requires Selects(s, r, cur) && i < |r|
    ensures Selects(s, r[..i] + r[i + 1..], Without(cur, i))
  {
  }

  /** Output j is s[idx[j]], which word w selects; w is u rotated j + 1 places. */
  ghost predicate PickAt(s: seq<int>, idx: seq<nat>, j: nat, w: nat, x: int, u: nat) {
    |idx| == |s| && j < |s| && IsRotated(u, j + 1, w) && Picked(|s|, idx, j, w) && idx[j] < |s| && x == s[idx[j]]
  }

  /** From output m on, the picks go by idx and ws, and yield y. */
  ghost predicate PicksFrom(s: seq<int>, m: nat, idx: seq<nat>, ws: seq<nat>, y: seq<int>, u: nat) {
    && |idx| == |s| && |ws| == |y| && m + |y| == |s|
    && forall j :: 0 <= j < |y| ==> PickAt(s, idx, m + j, ws[j], y[j], u)
  }

  lemma {:induction false} PickMore(s: seq<int>, m: nat, idx: seq<nat>, w: nat, ws: seq<nat>, x: int, y: seq<int>,
                                    u: nat)
    requires PicksFrom(s, m + 1, idx, ws, y, u) && PickAt(s, idx, m, w, x, u)
    ensures PicksFrom(s, m, idx, [w] + ws, [x] + y, u)
  {
    hide PickAt;
    var vs, z := [w] + ws, [x] + y;
    forall j | 0 <= j < |z| ensures PickAt(s, idx, m + j, vs[j], z[j], u) {
      if j == 0 {
        assert m + j == m && vs[j] == w && z[j] == x;
      } else {
        var i := j - 1;
        assert PickAt(s, idx, m + 1 + i, ws[i], y[i], u);
        assert m + 1 + i == m + j && vs[j] == ws[i] && z[j] == y[i];
      }
    }
  }

  lemma {:induction false} PickOne(s: seq<int>, t: seq<nat>, cur: seq<int>, idx: seq<nat>, w: nat, u: nat)
    requires cur != [] && |t| + |cur| == |s| == |idx| && Selects(s, Left(|s|, t), cur)
    requires idx[..|t| + 1] == t + [Left(|s|, t)[w % |cur|]]
    ensures IsRotated(u, |t| + 1, w) ==> PickAt(s, idx, |t|, w, cur[w % |cur|], u)
    ensures idx[..|t|] == t
  {
    hide Left;
    var h := idx[..|t| + 1];
    assert idx[..|t|] == h[..|t|] == t;
    assert idx[|t|] == h[|t|];
  }

  // The rest of a mix, when the inputs at t are taken, cur are the others and v is the word by now.
  lemma {:induction false} MixRest(s: seq<int>, t: seq<nat>, cur: seq<int>, u: nat, v: nat)
    returns (idx: seq<nat>, ws: seq<nat>)
    requires |t| + |cur| == |s| && Selects(s, Left(|s|, t), cur) && IsRotated(u, |t|, v) && v < TWO_64
    ensures |idx| == |s| && idx[..|t|] == t && PicksFrom(s, |t|, idx, ws, Mixed(cur, v).0, u)
    ensures IsRotated(u, |s|, Mixed(cur, v).1)
    decreases |cur|
  {
    hide IsRotated, Left, Mixed, Rol, Without, PicksFrom, PickAt, Selects;
    if cur == [] {
      MixedNil(v);
      NoPicks(s, t, u);
      return t, [];
    }
    MixedStep(cur, v);
    var w := Rol(v);
    var i := w % |cur|;
    RolRotates(v);
    Rotate(u, |t|, v, 1, w);
    SelectsLeft(s, t, cur);
    LeftMinus(|s|, t, i);
    SelectsWithout(s, Left(|s|, t), cur, i);
    var rest;
    idx, rest := MixRest(s, t + [Left(|s|, t)[i]], Without(cur, i), u, w);
    PickOne(s, t, cur, idx, w, u);
    PickMore(s, |t|, idx, w, rest, cur[i], Mixed(Without(cur, i), w).0, u);
    ws := [w] + rest;
  }

  lemma NoPicks(s: seq<int>, t: seq<nat>, u: nat)
    requires |t| == |s|
    ensures PicksFrom(s, |t|, t, [], [], u) && t[..|t|] == t
  {
  }

  lemma SelectsLeft(s: seq<int>, t: seq<nat>, cur: seq<int>)
    requires Selects(s, Left(|s|, t), cur)
    ensures |Left(|s|, t)| == |cur|
  {
  }

  lemma {:induction false} SelectsAll(s: seq<int>)
    ensures Selects(s, Left(|s|, []), s)
  {
    hide Left;
    LeftAll(|s|);
  }

  lemma {:induction false} PicksAll(s: seq<int>, idx: seq<nat>, ws: seq<nat>, y: seq<int>, u: nat)
    requires PicksFrom(s, 0, idx, ws, y, u)
    ensures MixedBy(s, y, u, 0)
  {
    hide IsRotated, Picked;
    forall j | 0 <= j < |s|
      ensures IsRotated(u, 0 + j + 1, ws[j]) && Picked(|s|, idx, j, ws[j]) && idx[j] < |s| && y[j] == s[idx[j]]
    {
      assert PickAt(s, idx, 0 + j, ws[j], y[j], u);
    }
    assert IsMix(s, y, u, 0, idx, ws);
  }

  /** Mixed picks by the words that rotating the seed one place at a time yields. */
  lemma {:induction false} MixedPicks(s: seq<int>, u: nat)
    requires u < TWO_64
    ensures MixedBy(s, Mixed(s, u).0, u, 0) && IsRotated(u, |s|, Mixed(s, u).1)
  {
    hide IsRotated, Left, Mixed, PicksFrom, MixedBy, Selects;
    RolRotates(u);
    SelectsAll(s);
    var idx, ws := MixRest(s, [], s, u, u);
    PicksAll(s, idx, ws, Mixed(s, u).0, u);
  }

  lemma {:induction false} MixedLater(s: seq<int>, y: seq<int>, u: nat, a: nat, v: nat, k: nat)
    requires MixedBy(s, y, v, k) && IsRotated(u, a, v)
    ensures MixedBy(s, y, u, a + k)
  {
    hide IsRotated, Picked;
    var idx, ws :| IsMix(s, y, v, k, idx, ws);
    forall j | 0 <= j < |s| ensures IsRotated(u, a + k + j + 1, ws[j]) {
      Rotate(u, a, v, k + j + 1, ws[j]);
      assert a + (k + j + 1) == a + k + j + 1;
    }
    assert IsMix(s, y, u, a + k, idx, ws);
  }

  ghost function Total(bases: seq<int>): int {
    if bases == [] then 0 else Total(bases[..|bases| - 1]) + bases[|bases| - 1]
  }

  /** Factor i is the multiples of the i-th magnitude, mixed after all that was mixed before. */
  ghost predicate FactorMixed(bases: seq<int>, f: seq<int>, i: nat, u: nat, k: nat)
    requires i < |bases|
  {
    bases[i] >= 0 && Total(bases[..i]) >= 0 &&
    MixedBy(Multiples(Prod(bases[..i]), bases[i]), f, u, k + Total(bases[..i]))
  }

  ghost predicate FactorsMixed(bases: seq<int>, fs: seq<seq<int>>, u: nat, k: nat) {
    |fs| == |bases| && forall i :: 0 <= i < |bases| ==> FactorMixed(bases, fs[i], i, u, k)
  }

  /** Seeding with u: the primes are mixed first, then the factors one after the other. */
  ghost predicate SeededBy(primes: seq<int>, bases: seq<int>, fs: seq<seq<int>>, u: nat) {
    MixedBy(primes, bases, u, 0) && FactorsMixed(bases, fs, u, |primes|)
  }

  lemma {:induction false} FactorsLater(bases: seq<int>, fs: seq<seq<int>>, u: nat, a: nat, v: nat)
    requires FactorsMixed(bases, fs, v, 0) && IsRotated(u, a, v)
    ensures FactorsMixed(bases, fs, u, a)
  {
    hide IsRotated, MixedBy, Total, Prod;
    forall i | 0 <= i < |bases| ensures FactorMixed(bases, fs[i], i, u, a) {
      assert FactorMixed(bases, fs[i], i, v, 0);
      MixedLater(Multiples(Prod(bases[..i]), bases[i]), fs[i], u, a, v, 0 + Total(bases[..i]));
    }
  }

  lemma {:induction false} FactorNow(bases: seq<int>, f: seq<int>, i: nat, u: nat, v: nat, n: int)
    requires i < |bases| && bases[i] >= 0 && n == Prod(bases[..i]) && v < TWO_64
    requires f == Mixed(Multiples(n, bases[i]), v).0
    requires Total(bases[..i]) >= 0 && IsRotated(u, Total(bases[..i]), v)
    ensures FactorMixed(bases, f, i, u, 0)
    ensures Total(bases[..i + 1]) >= 0 && IsRotated(u, Total(bases[..i + 1]), Mixed(Multiples(n, bases[i]), v).1)
  {
    hide IsRotated, MixedBy, Mixed, Prod;
    var ms := Multiples(n, bases[i]);
    MixedPicks(ms, v);
    MixedLater(ms, f, u, Total(bases[..i]), v, 0);
    Rotate(u, Total(bases[..i]), v, |ms|, Mixed(ms, v).1);
    assert bases[..i + 1][..i] == bases[..i];
  }

  ghost function Mixed(s: seq<int>, u: nat): (seq<int>, nat)
    requires u < TWO_64
    decreases |s|
  {
    if s == [] then ([], u)
    else
      var i := Rol(u) % |s|;
      var (y, v) := Mixed(Without(s, i), Rol(u));
      ([s[i]] + y, v)
  }

  lemma {:induction false} MixedPermutes(s: seq<int>, u: nat)
    requires u < TWO_64
    ensures multiset(Mixed(s, u).0) == multiset(s) && Mixed(s, u).1 < TWO_64
    decreases |s|
  {
    if s != [] {
      hide Rol, Without;
      MixedStep(s, u);
      var i := Rol(u) % |s|;
      MixedPermutes(Without(s, i), Rol(u));
      WithoutOne(s, i);
    }
  }

  lemma WithoutOne(s: seq<int>, i: nat)
    requires i < |s|
    ensures multiset(s) == multiset{s[i]} + multiset(Without(s, i))
  {
    assert s == s[..i] + [s[i]] + s[i + 1..];
  }

  lemma MixedStep(s: seq<int>, u: nat)
    requires u < TWO_64 && s != []
    ensures var i := Rol(u) % |s|;
            && |Without(s, i)| == |s| - 1
            && Mixed(s, u) == ([s[i]] + Mixed(Without(s, i), Rol(u)).0, Mixed(Without(s, i), Rol(u)).1)
  {
  }

  lemma MixedNil(u: nat)
    requires u < TWO_64
    ensures Mixed([], u) == ([], u)
  {
  }

  // mix (lines 182-190).
  method Mix(set': seq<int>, seed: nat) returns (y: seq<int>, u: nat)
    requires seed < TWO_64
    ensures (y, u) == Mixed(set', seed) && multiset(y) == multiset(set') && u < TWO_64
    ensures MixedBy(set', y, seed, 0) && IsRotated(seed, |set'|, u)
  {
    hide Mixed, Without, Rol, MixedBy, IsRotated;
    var s := set';
    y, u := [], seed;
    assert [] + Mixed(s, u).0 == Mixed(s, u).0;
    while s != []
      invariant u < TWO_64
      invariant Mixed(set', seed).0 == y + Mixed(s, u).0 && Mixed(set', seed).1 == Mixed(s, u).1
      decreases |s|
    {
      MixedStep(s, u);
      u := Rol(u);
      var i := u % |s|;
      assert y + ([s[i]] + Mixed(Without(s, i), u).0) == (y + [s[i]]) + Mixed(Without(s, i), u).0;
      y := y + [s[i]];
      s := Delete(s, i);
    }
    MixedNil(u);
    assert y + [] == y;
    MixedPermutes(set', seed);
    MixedPicks(set', seed);
  }

  /** The factors for bases whose first has magnitude n. */
  ghost function SeededFactors(bases: seq<int>, n: int, u: nat): seq<seq<int>>
    requires u < TWO_64 && forall i :: 0 <= i < |bases| ==> bases[i] >= 0
  {
    if bases == [] then []
    else
      MixedPermutes(Multiples(n, bases[0]), u);
      var (f, v) := Mixed(Multiples(n, bases[0]), u);
      [f] + SeededFactors(bases[1..], n * bases[0], v)
  }

  // The multiples of n, by repeated addition (lines 120-125).
  method Count(n: int, p: nat) returns (k: seq<int>)
    ensures k == Multiples(n, p)
  {
    k := [];
    var v := 0;
    for j := 0 to p
      invariant |k| == j && v == j * n && forall i :: 0 <= i < j ==> k[i] == i * n
    {
      k := k + [v];
      v := v + n;
    }
  }

  lemma ShuffledIntro(bases: seq<int>, f: seq<int>, i: nat, n: int)
    requires i < |bases| && bases[i] >= 0 && n == Prod(bases[..i]) && multiset(f) == multiset(Multiples(n, bases[i]))
    ensures ShuffledAt(bases, f, i)
  {
  }

  // The shuffled factors of all bases (lines 118-128).
  method MakeFactors(bases: seq<int>, seed: nat) returns (fs: seq<seq<int>>)
    requires seed < TWO_64 && forall i :: 0 <= i < |bases| ==> bases[i] >= 0
    ensures fs == SeededFactors(bases, 1, seed) && Shuffled(bases, fs) && FactorsMixed(bases, fs, seed, 0)
  {
    hide Mixed, ShuffledAt, FactorMixed, IsRotated, MixedBy;
    RolRotates(seed);
    fs := [];
    var n: int, u: nat := 1, seed;
    assert [] + SeededFactors(bases, 1, seed) == SeededFactors(bases, 1, seed) && bases[0..] == bases;
    for i := 0 to |bases|
      invariant |fs| == i && u < TWO_64 && n == Prod(bases[..i])
      invariant forall j :: 0 <= j < i ==> ShuffledAt(bases, fs[j], j) && FactorMixed(bases, fs[j], j, seed, 0)
      invariant Total(bases[..i]) >= 0 && IsRotated(seed, Total(bases[..i]), u)
      invariant fs + SeededFactors(bases[i..], n, u) == SeededFactors(bases, 1, seed)
    {
      var k := Count(n, bases[i]);
      var f;
      ghost var u0 := u;
      f, u := Mix(k, u);
      ShuffledIntro(bases, f, i, n);
      FactorNow(bases, f, i, seed, u0, n);
      assert bases[i..][1..] == bases[i + 1..] && bases[..i + 1][..i] == bases[..i];
      assert SeededFactors(bases[i..], n, u0) == [f] + SeededFactors(bases[i + 1..], n * bases[i], u);
      assert fs + ([f] + SeededFactors(bases[i + 1..], n * bases[i], u)) == (fs + [f]) +
        SeededFactors(bases[i + 1..], n * bases[i], u);
      fs := fs + [f];
      n := n * bases[i];
    }
    assert fs + [] == fs;
  }

  /** The bases and factors that a seed selects. */
  ghost function Seeded(primes: seq<int>, seed: int): (seq<int>, seq<seq<int>>)
    requires AllPrime(primes)
  {
    var u: nat := seed % TWO_64;
    var (bases, v) := Mixed(primes, u);
    MixedPermutes(primes, u);
    PermutedPrimes(primes, bases);
    AtLeastTwo(bases);
    (bases, SeededFactors(bases, 1, v))
  }

  // Go's % truncates toward zero.
  function GoMod(a: int, b: int): int
    requires b > 0
  {
    if a >= 0 then a % b else -((-a) % b)
  }

  class Generator {
    const cycle: int
    const delta: int
    const lo: int
    const primes: seq<int>
    var bases: seq<int>
    var factors: seq<seq<int>>
    var mods: seq<int>
    var pos: int

    ghost predicate Fixed()
      reads this
    {
      AllPrime(primes) && Distinct(primes) && Prod(primes) == cycle && 0 <= delta < cycle
    }

    ghost predicate Valid()
      reads this
    {
      Fixed() && Core(bases, factors, cycle) && |mods| == |bases|
    }

    lemma FixedAt()
      requires Fixed()
      ensures 0 <= delta < cycle
    {
    }

    /** The stored residues are those of the position. */
    ghost predicate Aligned()
      reads this
    {
      && 0 <= pos < cycle && |mods| == |bases|
      && forall i :: 0 <= i < |mods| ==> bases[i] > 0 && mods[i] == pos % bases[i]
    }

    // The generator on chosen primes (lines 79-88).
    constructor (n: int, d: int, low: int, ps: seq<int>)
      requires AllPrime(ps) && Distinct(ps) && Prod(ps) == n && 0 <= d < n
      ensures Valid() && Aligned() && cycle == n && delta == d && lo == low && primes == ps && pos == 0
      ensures (bases, factors) == Seeded(primes, 1) && SeededBy(primes, bases, factors, 1)
    {
      hide Seeded, SeededBy, Shuffled, Prime, Prod, Distinct;
      cycle, delta, lo, primes := n, d, low, ps;
      mods, pos := seq(|ps|, _ => 0), 0;
      bases, factors := [], [];
      new;
      Seed(1);
      assert Aligned();
    }

    // Seed (lines 115-129). The position is kept.
    method Seed(seed: int)
      requires Fixed() && |mods| == |primes|
      modifies this`bases, this`factors
      ensures Valid()
      ensures (bases, factors) == Seeded(primes, seed) && SeededBy(primes, bases, factors, seed % TWO_64)
    {
      hide Mixed, Prime, Shuffled, SeededFactors, FactorsMixed, MixedBy, IsRotated;
      var u: nat := seed % TWO_64;
      bases, u := Mix(primes, u);
      PermutedMembers(primes, bases);
      PermutedPrimes(primes, bases);
      PermutedDistinct(primes, bases);
      ProdPermuted(primes, bases);
      AtLeastTwo(bases);
      factors := MakeFactors(bases, u);
      FactorLens(bases, factors);
      FactorsLater(bases, factors, seed % TWO_64, |primes|, u);
    }

    // Seek (lines 132-141), with 64-bit negation. It sets Pos to |p| % Cycle unless negation overflows.
    method Seek(p: int)
      requires Valid() && -TWO_63 <= p < TWO_63
      modifies this`pos, this`mods
      ensures Valid()
      ensures pos == (if p >= 0 then p else -p) % cycle <==> p != -TWO_63 || TWO_63 % cycle == 0
      ensures p == -TWO_63 ==> pos == -(TWO_63 % cycle)
      ensures p != -TWO_63 ==> Aligned()
    {
      hide Shuffled, Prime, Prod;
      var q := if p < 0 && p != -TWO_63 then -p else p;
      q := GoMod(q, cycle);
      pos := q;
      for i := 0 to |mods|
        invariant pos == q && |mods| == |bases| && forall j :: 0 <= j < i ==> mods[j] == GoMod(q, bases[j])
      {
        mods := mods[i := GoMod(q, bases[i])];
      }
    }

    // One inner step (lines 145-166): position and residues move, and their factors are added up.
    method Advance(dir: int) returns (y: int)
      requires Valid() && (dir == 1 || dir == -1)
      modifies this`pos, this`mods
      ensures Valid() && InRange(bases, mods)
      ensures mods == Moved(bases, old(mods), dir) && pos == Wrap(old(pos), dir, cycle)
      ensures y == Sum(factors, mods, |bases|)
      ensures old(Aligned()) ==> Aligned()
    {
      hide Shuffled, Prime, Prod, Norm, Wrap;
      ghost var was := mods;
      MovedIsAt(bases, mods, dir);
      ghost var all := Moved(bases, mods, dir);
      pos := Wrap(pos, dir, cycle);
      y := 0;
      for i := 0 to |mods|
        invariant pos == Wrap(old(pos), dir, cycle) && |mods| == |bases| && y == Sum(factors, all, i)
        invariant forall j :: 0 <= j < i ==> mods[j] == all[j]
        invariant forall j :: i <= j < |mods| ==> mods[j] == was[j]
      {
        mods := mods[i := Wrap(mods[i], dir, bases[i])];
        y := y + factors[i][mods[i]];
      }
      assert mods == all;
      if old(Aligned()) {
        AlignedAfter(bases, cycle, was, old(pos), dir);
      }
    }

    /** n inner steps from the residues was lead here, and v is the first value up to delta on the way. */
    ghost predicate IsStep(was: seq<int>, dir: int, v: int, n: nat)
      requires Valid() && |was| == |bases|
      reads this
    {
      var from := Norms(bases, was, dir);
      && n > 0 && mods == At(bases, from, dir, n)
      && v == Val(bases, factors, cycle, from, dir, n) + lo && lo <= v <= lo + delta
      && forall j :: 0 < j < n ==> Val(bases, factors, cycle, from, dir, j) > delta
    }

    // step (lines 143-171): it ends, with the next inner value up to delta.
    method Step(dir: int) returns (v: int, ghost n: nat)
      requires Valid() && (dir == 1 || dir == -1)
      modifies this`pos, this`mods
      ensures Valid() && InRange(bases, mods) && (old(Aligned()) ==> Aligned())
      ensures IsStep(old(mods), dir, v, n)
    {
      hide Core, Fixed, Norm, Wrap, Residue, Aligned, Val, Sum;
      FixedAt();
      CoreAt(bases, factors, cycle);
      ghost var from := Norms(bases, mods, dir);
      ghost var last := ValSurjective(bases, factors, cycle, from, dir, 0);
      NormsAtZero(bases, mods, dir);
      n := 0;
      while true
        invariant Valid() && (old(Aligned()) ==> Aligned()) && n < last
        invariant Norms(bases, mods, dir) == At(bases, from, dir, n)
        invariant forall j :: 0 < j <= n ==> Val(bases, factors, cycle, from, dir, j) > delta
        decreases last - n
      {
        MovedIsAt(bases, mods, dir);
        AtAt(bases, from, dir, n, 1);
        n := n + 1;
        var y := Advance(dir);
        ValIs(bases, factors, cycle, from, dir, n);
        ValRange(bases, factors, cycle, from, dir, n);
        if y <= delta {
          return y + lo, n;
        }
        NormsInRange(bases, mods, dir);
      }
    }

    // Next (lines 98-100).
    method Next() returns (v: int, ghost n: nat)
      requires Valid()
      modifies this`pos, this`mods
      ensures Valid() && InRange(bases, mods) && (old(Aligned()) ==> Aligned())
      ensures IsStep(old(mods), 1, v, n)
    {
      v, n := Step(1);
    }

    // Prev (lines 108-110).
    method Prev() returns (v: int, ghost n: nat)
      requires Valid()
      modifies this`pos, this`mods
      ensures Valid() && InRange(bases, mods) && (old(Aligned()) ==> Aligned())
      ensures IsStep(old(mods), -1, v, n)
    {
      v, n := Step(-1);
    }

    method Go(dir: int) returns (v: int, ghost n: nat)
      requires Valid() && (dir == 1 || dir == -1)
      modifies this`pos, this`mods
      ensures Valid() && InRange(bases, mods) && IsStep(old(mods), dir, v, n)
    {
      if dir == 1 {
        v, n := Next();
      } else {
        v, n := Prev();
      }
    }

    /** Prev takes back Next: it returns to the residues, and to the value, that Next started from. */
    method NextThenPrev() returns (v: int)
      requires Valid() && InRange(bases, mods) && Sum(factors, mods, |bases|) <= delta
      modifies this`pos, this`mods
      ensures Valid() && mods == old(mods) && v == Sum(factors, mods, |bases|) + lo
    {
      hide Core, Fixed, Norm, Wrap, Residue, Aligned, Val, Sum;
      CoreAt(bases, factors, cycle);
      ghost var from, n, m := mods, 0, 0;
      NormsInRange(bases, mods, 1);
      v, n := Next();
      ghost var to := mods;
      NormsInRange(bases, mods, -1);
      v, m := Prev();
      BackAt(bases, from, n, n);
      ValIs(bases, factors, cycle, to, -1, n);
      if m > n {
        assert false;
      } else if m < n {
        BackVal(bases, factors, cycle, from, n, m);
        assert false;
      }
    }

    /** From any state, hi - lo + 1 calls of Next (or of Prev) return every integer of [lo, hi] exactly once. */
    method Sweep(dir: int) returns (out: seq<int>)
      requires Valid() && (dir == 1 || dir == -1)
      modifies this`pos, this`mods
      ensures Valid() && |out| == delta + 1 && Distinct(out)
      ensures forall v :: v in out <==> lo <= v <= lo + delta
    {
      hide Core, Fixed, Norm, Wrap, Residue, Aligned, Outs, Val;
      CoreAt(bases, factors, cycle);
      FixedAt();
      ghost var from := Norms(bases, mods, dir);
      ghost var t: nat, vs := 0, [];
      out := [];
      NormsAtZero(bases, mods, dir);
      OutsZero(bases, factors, cycle, from, dir, delta);
      while |out| <= delta
        invariant Valid() && |out| == |vs| <= delta + 1 && t <= cycle
        invariant Norms(bases, mods, dir) == At(bases, from, dir, t)
        invariant vs == Outs(bases, factors, cycle, from, dir, delta, t)
        invariant forall i :: 0 <= i < |out| ==> out[i] == vs[i] + lo
        decreases delta - |out|
      {
        ghost var j := MoreToCome(bases, factors, cycle, from, dir, delta, t);
        var v;
        ghost var n;
        v, n := Go(dir);
        NormsInRange(bases, mods, dir);
        AtAt(bases, from, dir, t, n);
        LaterVal(bases, factors, cycle, from, dir, t, n);
        LaterSkip(bases, factors, cycle, from, dir, t, n, delta);
        NextOut(bases, factors, cycle, from, dir, delta, t, n);
        t, vs := t + n, vs + [v - lo];
        out := out + [v];
      }
      AllOuts(bases, factors, cycle, from, dir, delta, t);
      Shifted(out, vs, lo, delta);
    }
  }

  lemma {:induction false} AtLeastTwo(s: seq<int>)
    requires AllPrime(s)
    ensures forall i :: 0 <= i < |s| ==> s[i] > 1
  {
    forall i | 0 <= i < |s| ensures s[i] > 1 { assert Prime(s[i]); }
  }

  lemma {:induction false} AlignedAfter(bases: seq<int>, n: int, mods: seq<int>, pos: int, dir: int)
    requires AllPrime(bases) && Prod(bases) == n && 0 <= pos < n && (dir == 1 || dir == -1) && |mods| == |bases|
    requires forall i :: 0 <= i < |bases| ==> bases[i] > 1 && mods[i] == pos % bases[i]
    ensures 0 <= Wrap(pos, dir, n) < n
    ensures forall i :: 0 <= i < |bases| ==> bases[i] > 0 && Moved(bases, mods, dir)[i] == Wrap(pos, dir, n) % bases[i]
  {
    hide Prime, Prod;
    forall i | 0 <= i < |bases| ensures Moved(bases, mods, dir)[i] == Wrap(pos, dir, n) % bases[i] {
      FactorOfProd(bases, i);
      AlignedMove(pos, dir, n, bases[i]);
    }
  }

  // A factor's residue follows the position around the cycle.
  lemma AlignedMove(pos: int, dir: int, n: int, p: int)
    requires p > 1 && Divides(p, n) && 0 <= pos < n && (dir == 1 || dir == -1)
    ensures Wrap(pos % p, dir, p) == Wrap(pos, dir, n) % p
  {
    assert n > 1;
    hide Wrap, Norm, Divides;
    WrapIsMod(pos, dir, n);
    NormInRange(pos, dir, n);
    WrapIsMod(pos % p, dir, p);
    NormInRange(pos % p, dir, p);
    AddMod(pos, dir, p);
    ModMod(pos + dir, n, p);
  }

  lemma ModMod(x: int, n: int, p: int)
    requires n > 0 && p > 0 && Divides(p, n)
    ensures (x % n) % p == x % p
  {
    var k := DivBy(p, n);
    var q, y := x / n, x % n;
    assert x == n * q + y == p * (k * q) + y;
    ModOfSum(p, k * q, y);
  }

  lemma CoreAt(bases: seq<int>, factors: seq<seq<int>>, n: int)
    requires Core(bases, factors, n)
    ensures |factors| == |bases| && forall i :: 0 <= i < |bases| ==> bases[i] > 1 && |factors[i]| == bases[i]
  {
  }

  // Choosing the primes.

  ghost predicate Chain(s: seq<int>) {
    forall i :: 0 < i < |s| ==> s[i - 1] < s[i] < 2 * s[i - 1]
  }

  lemma {:induction false} ChainAscends(s: seq<int>, i: nat, j: nat)
    requires Chain(s) && AllPrime(s) && i < j < |s|
    ensures s[i] < s[j]
  {
    assert s[j - 1] < s[j];
    if i < j - 1 { ChainAscends(s, i, j - 1); }
  }

  lemma {:induction false} ChainDistinct(s: seq<int>)
    requires Chain(s) && AllPrime(s)
    ensures Distinct(s)
  {
    forall i, j | 0 <= i < j < |s| ensures s[i] != s[j] { ChainAscends(s, i, j); }
  }

  lemma {:induction false} FourAtLeast(s: seq<int>)
    requires AllPrime(s) && |s| >= 2
    ensures Prod(s) >= 4
    decreases |s|
  {
    var t, p := s[..|s| - 1], s[|s| - 1];
    assert Prime(p) && Prime(s[0]);
    if |s| > 2 { FourAtLeast(t); } else { assert Prod(t) == Prod(t[..0]) * s[0]; }
    MulMono(2, Prod(t), p);
    assert Prod(s) == Prod(t) * p;
  }

  lemma SmallFits(t: int, p: int)
    requires 0 <= t <= MAX_UINT32 && 0 <= p < 12
    ensures t * p < TWO_63
  {
    MulMono(t, MAX_UINT32, p);
  }

  lemma LargeFits(t: int, u: int, q: int, p: int)
    requires t == u * q && u >= 4 && 0 < q && 0 <= p < 2 * q && 0 <= t <= MAX_UINT32
    ensures t * p < TWO_63
  {
    MulMono(4, u, q);
    assert 2 * p <= t;
    MulMono(2 * p, t, t);
    MulMono(t, MAX_UINT32, t);
    assert 2 * (t * p) == (2 * p) * t;
  }

  lemma LastFactor(s: seq<int>, m: nat)
    requires m < |s| && AllPrime(s)
    ensures Prod(s[..m + 1]) == Prod(s[..m]) * s[m] && s[m] > 1 && AllPrime(s[..m])
  {
    assert s[..m + 1][..m] == s[..m] && Prime(s[m]);
  }

  /** The product of the primes does not overflow before the loop sees that it is large enough. */
  lemma {:induction false} FitsInt64(s: seq<int>)
    requires |s| > 0 && AllPrime(s) && Chain(s) && s[0] <= 3 && Prod(s[..|s| - 1]) <= MAX_UINT32
    ensures Prod(s) < TWO_63
  {
    hide Prod, AllPrime, Prime;
    var m := |s| - 1;
    assert s[..m + 1] == s;
    LastFactor(s, m);
    ProdPositive(s[..m]);
    if m < 3 {
      assert (m > 0 ==> s[1] < 2 * s[0]) && (m > 1 ==> s[2] < 2 * s[1]);
      SmallFits(Prod(s[..m]), s[m]);
    } else {
      LastFactor(s, m - 1);
      FourAtLeast(s[..m - 1]);
      LargeFits(Prod(s[..m]), Prod(s[..m - 1]), s[m - 1], s[m]);
    }
  }

  // The primes that the product can reach.

  lemma {:induction false} SmallDivisor(x: nat, e: nat)
    requires 1 < e < 7 && Divides(e, x)
    ensures x % 2 == 0 || x % 3 == 0 || x % 5 == 0
  {
    if e == 4 {
      FactorOf(x, 2, 2);
    } else if e == 6 {
      FactorOf(x, 2, 3);
    } else {
      assert e == 2 || e == 3 || e == 5;
    }
  }

  lemma {:induction false} FactorOf(x: nat, d: nat, k: nat)
    requires d > 0 && k > 0 && x % (d * k) == 0
    ensures x % d == 0
  {
    var q := x / (d * k);
    assert x == (d * k) * q == d * (k * q);
    MulDiv(d, k * q);
  }

  // Of the two factors of a number below 49 one is below 7.
  lemma {:induction false} Indivisible(x: nat, e: nat)
    requires 7 <= x < 49 && x % 2 != 0 && x % 3 != 0 && x % 5 != 0 && 1 < e < x
    ensures !Divides(e, x)
  {
    if Divides(e, x) {
      var f := DivBy(e, x);
      if e < 7 {
        SmallDivisor(x, e);
      } else {
        OtherFactor(x, e, f);
        SmallDivisor(x, f);
      }
    }
  }

  lemma {:induction false} OtherFactor(x: nat, e: nat, f: int)
    requires x < 49 && 7 <= e < x && x == e * f
    ensures 1 < f < 7 && Divides(f, x)
  {
    if f >= 7 { MulMono(7, f, e); }
    if f <= 1 { MulMono(f, 1, e); }
    assert e * f == f * e;
    MulDiv(f, e);
  }

  lemma {:induction false} IsPrime(x: nat)
    requires 7 <= x < 49 && x % 2 != 0 && x % 3 != 0 && x % 5 != 0
    ensures Prime(x)
  {
    forall d | 1 < d < x ensures !Divides(d, x) { Indivisible(x, d); }
  }

  lemma Composite(x: nat, d: nat)
    requires 1 < d < x && x % d == 0
    ensures !Prime(x)
  {
    assert Divides(d, x);
  }

  // The next prime is the next number that 2, 3 and 5 do not divide.
  lemma {:induction false} Gap(p: nat, q: nat)
    requires 5 <= p < q < 49 && q % 2 != 0 && q % 3 != 0 && q % 5 != 0
    requires forall x :: p < x < q ==> x % 2 == 0 || x % 3 == 0 || x % 5 == 0
    ensures IsNext(p, q)
  {
    IsPrime(q);
    forall x | p < x < q ensures !Prime(x) {
      Composite(x, if x % 2 == 0 then 2 else if x % 3 == 0 then 3 else 5);
    }
  }

  lemma FirstGaps()
    ensures IsNext(2, 3) && IsNext(3, 5)
  {
    SmallPrimes();
    Composite(4, 2);
  }

  lemma OneNext(p: nat, q: nat, r: nat)
    requires IsNext(p, q) && IsNext(p, r)
    ensures q == r
  {
  }

  function SmallPrime(i: nat): nat {
    if i == 0 then 2 else if i == 1 then 3 else if i == 2 then 5 else if i == 3 then 7 else if i == 4 then 11
    else if i == 5 then 13 else if i == 6 then 17 else if i == 7 then 19 else if i == 8 then 23
    else if i == 9 then 29 else 31
  }

  lemma {:induction false} SmallNext(i: nat)
    requires i < 10
    ensures IsNext(SmallPrime(i), SmallPrime(i + 1)) && SmallPrime(i + 1) < 2 * SmallPrime(i)
  {
    hide IsNext, Prime;
    if i < 2 {
      FirstGaps();
    } else {
      Gap(SmallPrime(i), SmallPrime(i + 1));
    }
  }

  /** The product of the primes from 2 on, or from 3 on with hq, up to the one before number i. */
  function SmallProduct(hq: bool, i: nat): nat {
    if i == 0 || (hq && i == 1) then 1 else SmallProduct(hq, i - 1) * SmallPrime(i - 1)
  }

  lemma {:induction false} TenPrimes()
    ensures SmallProduct(false, 10) == 6469693230 && SmallProduct(true, 10) == 3234846615
  {
    assert SmallProduct(false, 3) == 30 && SmallProduct(true, 3) == 15;
    assert SmallProduct(false, 5) == 2310 && SmallProduct(true, 5) == 1155;
    assert SmallProduct(false, 7) == 510510 && SmallProduct(true, 7) == 255255;
    assert SmallProduct(false, 9) == 223092870 && SmallProduct(true, 9) == 111546435;
  }

  lemma {:induction false} ProductsReach(hq: bool, i: nat)
    requires i < 11 && SmallProduct(hq, i) * SmallPrime(i) <= MAX_UINT32
    ensures i < 10
  {
    hide SmallProduct;
    TenPrimes();
    assert SmallPrime(10) == 31;
  }

  /** p is prime number i of the list, and n the product of those before it. */
  ghost predicate Stage(hq: bool, i: nat, p: nat, n: int) {
    i < 11 && (hq ==> i > 0) && p == SmallPrime(i) && n == SmallProduct(hq, i)
  }

  /** Up to the widest range, the primes asked for are so few that none is twice the one before. */
  lemma {:induction false} NextStage(hq: bool, i: nat, p: nat, n: int, next: nat -> nat)
    requires NextPrime(next) && Stage(hq, i, p, n) && n * p <= MAX_UINT32
    ensures Stage(hq, i + 1, next(p), n * p) && Prime(next(p)) && p < next(p) < 2 * p
  {
    hide Prime;
    ProductsReach(hq, i);
    SmallNext(i);
    assert IsNext(p, next(p));
    OneNext(p, SmallPrime(i + 1), next(p));
  }

  // What the loop keeps: primes in s with product n, and p the next one.
  ghost predicate Grown(s: seq<int>, n: int, p: nat, hq: bool) {
    && AllPrime(s) && Chain(s) && Prod(s) == n >= 1 && Prime(p)
    && (if s == [] then p == if hq then 3 else 2 else s[0] == (if hq then 3 else 2) && s[|s| - 1] < p < 2 * s[|s| - 1])
  }

  lemma {:induction false} GrowStart(hq: bool)
    ensures Grown([], 1, if hq then 3 else 2, hq) && Stage(hq, if hq then 1 else 0, if hq then 3 else 2, 1)
  {
    NoPrimes();
    SmallPrimes();
  }

  lemma {:induction false} GrowEnd(s: seq<int>, n: int, p: nat, hq: bool)
    requires Grown(s, n, p, hq) && n <= MAX_UINT32
    ensures var t := s + [p];
            && t[..|t| - 1] == s && t[0] == (if hq then 3 else 2) && AllPrime(t) && Chain(t) && Prod(t) == n * p
            && n < n * p < TWO_63 && Prod(s) == n
  {
    hide Prime, Prod, AllPrime, Chain;
    AddPrime(s, p);
    var t := s + [p];
    assert t[..|t| - 1] == s;
    FitsInt64(t);
  }

  lemma {:induction false} GrowNext(s: seq<int>, n: int, p: nat, hq: bool, i: nat, next: nat -> nat)
    requires NextPrime(next) && Grown(s, n, p, hq) && Stage(hq, i, p, n) && n * p <= MAX_UINT32
    ensures Grown(s + [p], n * p, next(p), hq) && Stage(hq, i + 1, next(p), n * p)
  {
    hide Prime, Prod, AllPrime, Chain, Stage;
    NextStage(hq, i, p, n, next);
    AddPrime(s, p);
  }

  // The primes from 2 on, or from 3 on with hq, until their product exceeds delta (lines 48-59).
  method Primorial(delta: int, hq: bool, next: nat -> nat) returns (s: seq<int>, n: int)
    requires 0 <= delta <= MAX_UINT32 && NextPrime(next)
    ensures |s| > 0 && s[0] == (if hq then 3 else 2) && AllPrime(s) && Chain(s) && Prod(s) == n > delta
    ensures Prod(s[..|s| - 1]) <= (if delta > 0 then delta else 1)
    ensures n < TWO_63
  {
    hide Prime, Prod, AllPrime, Chain, Grown, Stage, NextPrime;
    var p: nat := 2;
    if hq { p := p + 1; }
    s, n := [], 1;
    ghost var i := if hq then 1 else 0;
    GrowStart(hq);
    while true
      invariant Grown(s, n, p, hq) && Stage(hq, i, p, n) && n <= (if delta > 0 then delta else 1)
      decreases delta - n
    {
      ghost var t, m, q := s, n, p;
      GrowEnd(t, m, q, hq);
      s := s + [p];
      n := n * p;
      if n > delta { return; }
      GrowNext(t, m, q, hq, i, next);
      p := next(p);
      i := i + 1;
    }
  }

  lemma NoPrimes()
    ensures AllPrime([]) && Chain([]) && Prod([]) == 1
  {
  }

  lemma {:induction false} AddPrime(s: seq<int>, p: int)
    requires AllPrime(s) && Chain(s) && Prime(p) && (s != [] ==> s[|s| - 1] < p < 2 * s[|s| - 1])
    ensures AllPrime(s + [p]) && Chain(s + [p]) && Prod(s + [p]) == Prod(s) * p > Prod(s) >= 1
  {
    hide Prime;
    var t := s + [p];
    assert t[..|t| - 1] == s && t[|t| - 1] == p;
    ProdPositive(s);
    Grows(Prod(s), p);
  }

  lemma Grows(n: int, p: int)
    requires n >= 1 && Prime(p)
    ensures n * p > n
  {
    MulAtLeast(n, p - 1);
    assert n * (p - 1) == n * p - n;
  }

  lemma {:induction false} Quotient(s: seq<int>, j: nat)
    requires AllPrime(s) && j < |s|
    ensures s[j] > 1 && Prod(s) / s[j] == Prod(Without(s, j)) && Prod(s) == Prod(Without(s, j)) * s[j]
    ensures AllPrime(Without(s, j)) && Prod(Without(s, j)) >= 1
  {
    assert Prime(s[j]);
    ProdDelete(s, j);
    MulDiv(s[j], Prod(Without(s, j)));
    assert s[j] * Prod(Without(s, j)) == Prod(Without(s, j)) * s[j];
    ProdPositive(Without(s, j));
  }

  lemma Cancel(m: int, a: int, q: int, b: int, d: int)
    requires m * a == q * b && q <= d && 0 <= d && 0 < a && 0 < b <= 2 * a
    ensures m <= 2 * d
  {
    MulMono(q, d, b);
    MulMono(b, 2 * a, d);
    if m > 2 * d {
      MulMono(2 * d + 1, m, a);
    }
  }

  lemma {:induction false} ChainWithout(s: seq<int>, i: nat)
    requires Distinct(s) && i < |s|
    ensures Distinct(Without(s, i))
  {
    var t := Without(s, i);
    forall a, b | 0 <= a < b < |t| ensures t[a] != t[b] {
      assert t[a] == s[if a < i then a else a + 1] && t[b] == s[if b < i then b else b + 1];
    }
  }

  // At most one prime is dropped, so that the cycle stays near the period (lines 64-78).
  method Shrink(s: seq<int>, n: int, delta: int) returns (t: seq<int>, m: int)
    requires delta >= 0 && |s| > 0 && AllPrime(s) && Chain(s) && Prod(s) == n > delta
    requires Prod(s[..|s| - 1]) <= (if delta > 0 then delta else 1)
    ensures AllPrime(t) && Distinct(t) && Prod(t) == m > delta
    ensures m <= s[0] * (delta + 1)
  {
    hide Prime, Prod;
    ChainDistinct(s);
    FirstOf(s);
    t, m := s, n;
    var i, j := -1, 0;
    if n > 2 * (delta + 1) {
      while j < |s|
        invariant 0 <= j <= |s| && i == j - 1
        invariant i >= 0 ==> Prod(Without(s, i)) >= delta + 1
        invariant t == s && m == n
      {
        Quotient(s, j);
        var q := n / s[j];
        if q < delta + 1 { break; }
        i, j := j, j + 1;
      }
      if i >= 0 {
        Quotient(s, i);
        t := Delete(s, i);
        m := n / s[i];
        ChainWithout(s, i);
        if j < |s| {
          Quotient(s, j);
          Cancel(m, s[i], Prod(Without(s, j)), s[j], delta);
        } else {
          assert Without(s, i) == s[..|s| - 1];
        }
        MulMono(2, s[0], delta + 1);
      } else {
        Quotient(s, 0);
        MulMono(Prod(Without(s, 0)), delta, s[0]);
        assert delta * s[0] <= s[0] * (delta + 1);
      }
    } else {
      MulMono(2, s[0], delta + 1);
    }
  }

  lemma FirstOf(s: seq<int>)
    requires AllPrime(s) && |s| > 0
    ensures s[0] >= 2
  {
    assert Prime(s[0]);
  }

  lemma SmallPrimes()
    ensures Prime(2) && Prime(3) && Prime(5)
  {
  }

  // NewFC32 (lines 37-89). The cycle is at most twice the period, three times with hq.
  method New(lo: int, hi: int, hq: bool, next: nat -> nat) returns (r: Option<Generator>)
    requires NextPrime(next)
    ensures r.Some? <==> lo <= hi && hi - lo <= MAX_UINT32
    ensures r.Some? ==> fresh(r.value) && r.value.Valid() && r.value.Aligned()
    ensures r.Some? ==> r.value.lo == lo && r.value.delta == hi - lo && r.value.pos == 0
    ensures r.Some? ==> r.value.cycle <= (if hq then 3 else 2) * (hi - lo + 1)
  {
    if lo > hi { return None; }
    if hi - lo > MAX_UINT32 { return None; }
    hide Prime, Prod;
    var s, n := Primorial(hi - lo, hq, next);
    s, n := Shrink(s, n, hi - lo);
    var g := new Generator(n, hi - lo, lo, s);
    r := Some(g);
  }
}
