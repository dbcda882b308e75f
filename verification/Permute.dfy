// The next permutation in lexicographic order (mathutil/permute.go). The elements of the source's
// sort.Interface are represented by integers in the order of Less.

module Permute {
  /** a comes before b in lexicographic order. */
  ghost predicate LexLess(a: seq<int>, b: seq<int>) {
    a != [] && b != [] && (a[0] < b[0] || (a[0] == b[0] && LexLess(a[1..], b[1..])))
  }

  ghost predicate Falling(s: seq<int>) {
    forall i, j :: 0 <= i < j < |s| ==> s[i] >= s[j]
  }

  ghost predicate Rising(s: seq<int>) {
    forall i, j :: 0 <= i < j < |s| ==> s[i] <= s[j]
  }

  lemma {:induction false} SameSize(s: seq<int>, p: seq<int>)
    requires multiset(s) == multiset(p)
    ensures |s| == |p| && (forall i :: 0 <= i < |p| ==> p[i] in s) && (forall i :: 0 <= i < |s| ==> s[i] in p)
  {
    assert |multiset(s)| == |s| && |multiset(p)| == |p|;
    forall i | 0 <= i < |p| ensures p[i] in s { assert p[i] in multiset(p); }
    forall i | 0 <= i < |s| ensures s[i] in p { assert s[i] in multiset(s); }
  }

  lemma TailMultiset(s: seq<int>)
    requires s != []
    ensures multiset(s[1..]) == multiset(s) - multiset{s[0]} && multiset(s) == multiset{s[0]} + multiset(s[1..])
  {
    assert s == [s[0]] + s[1..];
  }

  /** A falling sequence is the last arrangement of its elements. */
  lemma {:induction false} FallingIsLast(s: seq<int>, p: seq<int>)
    requires Falling(s) && multiset(p) == multiset(s)
    ensures !LexLess(s, p)
  {
    SameSize(s, p);
    if s != [] {
      assert p[0] in s && s[0] in p;
      if p[0] == s[0] {
        TailMultiset(s);
        TailMultiset(p);
        FallingIsLast(s[1..], p[1..]);
      }
    }
  }

  /** A rising sequence is the first arrangement of its elements. */
  lemma {:induction false} RisingIsFirst(s: seq<int>, p: seq<int>)
    requires Rising(s) && multiset(p) == multiset(s)
    ensures !LexLess(p, s)
  {
    SameSize(s, p);
    if s != [] {
      assert p[0] in s && s[0] in p;
      if p[0] == s[0] {
        TailMultiset(s);
        TailMultiset(p);
        RisingIsFirst(s[1..], p[1..]);
      }
    }
  }

  lemma {:induction false} LexAppend(c: seq<int>, a: seq<int>, b: seq<int>)
    ensures LexLess(c + a, c + b) <==> LexLess(a, b)
  {
    if c == [] {
      assert c + a == a && c + b == b;
    } else {
      assert (c + a)[0] == (c + b)[0] && (c + a)[1..] == c[1..] + a && (c + b)[1..] == c[1..] + b;
      LexAppend(c[1..], a, b);
    }
  }

  /** k is the last ascent of s, and l the last element above s[k]. */
  ghost predicate Pivot(s: seq<int>, k: nat, l: nat) {
    && k < l < |s|
    && Falling(s[k + 1..])
    && s[k] < s[l]
    && forall i :: l < i < |s| ==> s[i] <= s[k]
  }

  ghost function Reversed(s: seq<int>): (r: seq<int>)
    ensures |r| == |s| && forall i :: 0 <= i < |s| ==> r[i] == s[|s| - 1 - i]
  {
    seq(|s|, i requires 0 <= i < |s| => s[|s| - 1 - i])
  }

  ghost function Swapped(s: seq<int>, k: nat, l: nat): seq<int>
    requires k < |s| && l < |s|
  {
    s[k := s[l]][l := s[k]]
  }

  ghost function Next(s: seq<int>, k: nat, l: nat): (r: seq<int>)
    requires k < l < |s|
    ensures |r| == |s|
  {
    var w := Swapped(s, k, l);
    w[..k + 1] + Reversed(w[k + 1..])
  }

  lemma {:induction false} ReversedPermutes(s: seq<int>)
    ensures multiset(Reversed(s)) == multiset(s)
  {
    if s != [] {
      var t, x := s[1..], s[0];
      assert s == [x] + t;
      assert Reversed(s) == Reversed(t) + [x];
      ReversedPermutes(t);
    }
  }

  lemma SwapPermutes(s: seq<int>, k: nat, l: nat)
    requires k < |s| && l < |s|
    ensures multiset(Swapped(s, k, l)) == multiset(s)
  {
  }

  lemma {:induction false} NextPermutes(s: seq<int>, k: nat, l: nat)
    requires k < l < |s|
    ensures multiset(Next(s, k, l)) == multiset(s)
  {
    var w := Swapped(s, k, l);
    SwapPermutes(s, k, l);
    ReversedPermutes(w[k + 1..]);
    assert w == w[..k + 1] + w[k + 1..];
  }

  /** Exchanging the pivot keeps the tail falling. */
  lemma SwappedFalls(s: seq<int>, k: nat, l: nat)
    requires Pivot(s, k, l)
    ensures Falling(Swapped(s, k, l)[k + 1..])
  {
    var w, f := Swapped(s, k, l), s[k + 1..];
    forall i, j | k < i < j < |w| ensures w[i] >= w[j] {
      assert s[i] == f[i - k - 1] && s[j] == f[j - k - 1] && s[l] == f[l - k - 1];
    }
    var v := w[k + 1..];
    forall i, j | 0 <= i < j < |v| ensures v[i] >= v[j] {
      assert v[i] == w[i + k + 1] && v[j] == w[j + k + 1];
    }
  }

  lemma ReversedRises(s: seq<int>)
    requires Falling(s)
    ensures Rising(Reversed(s))
  {
  }

  // The arrangements of s[k..] after s[k..] are no earlier than the tail of the next permutation.
  lemma {:induction false} TailIsLeast(s: seq<int>, k: nat, l: nat, q: seq<int>)
    requires Pivot(s, k, l) && multiset(q) == multiset(s[k..]) && LexLess(s[k..], q)
    ensures !LexLess(q, Next(s, k, l)[k..])
  {
    var t, r := s[k..], Next(s, k, l)[k..];
    var w := Swapped(s, k, l);
    assert t[0] == s[k] && t[1..] == s[k + 1..];
    assert r[0] == s[l] && r[1..] == Reversed(w[k + 1..]);
    SameSize(t, q);
    if q[0] == t[0] {
      TailMultiset(t);
      TailMultiset(q);
      FallingIsLast(t[1..], q[1..]);
    } else {
      AboveLeast(s, k, l, q[0]);
      if q[0] == r[0] {
        NextTail(s, k, l);
        TailMultiset(q);
        TailMultiset(r);
        SwappedFalls(s, k, l);
        ReversedRises(w[k + 1..]);
        RisingIsFirst(r[1..], q[1..]);
      }
    }
  }

  lemma AboveLeast(s: seq<int>, k: nat, l: nat, x: int)
    requires Pivot(s, k, l) && x in s[k..] && x > s[k]
    ensures x >= s[l]
  {
    var i :| 0 <= i < |s[k..]| && s[k..][i] == x;
    var f := s[k + 1..];
    assert s[k + i] == x && s[l] == f[l - k - 1];
    if i > 0 { assert x == f[i - 1]; }
  }

  lemma {:induction false} NextTail(s: seq<int>, k: nat, l: nat)
    requires k < l < |s|
    ensures multiset(Next(s, k, l)[k..]) == multiset(s[k..])
  {
    var n := Next(s, k, l);
    NextPermutes(s, k, l);
    RestMultiset(n, s[..k], n[k..]);
    RestMultiset(s, s[..k], s[k..]);
  }

  lemma PivotRange(s: seq<int>, k: nat, l: nat)
    requires Pivot(s, k, l)
    ensures k < l < |s|
  {
  }

  lemma NextPrefix(s: seq<int>, k: nat, l: nat)
    requires k < l < |s|
    ensures Next(s, k, l)[..k] == s[..k]
  {
  }

  lemma RestMultiset(s: seq<int>, a: seq<int>, x: seq<int>)
    requires s == a + x
    ensures multiset(x) == multiset(s) - multiset(a)
  {
  }

  /** Of the arrangements after s, the next permutation is the first. */
  lemma {:induction false} NextIsLeast(s: seq<int>, k: nat, l: nat, p: seq<int>)
    requires Pivot(s, k, l) && multiset(p) == multiset(s) && LexLess(s, p)
    ensures !LexLess(p, Next(s, k, l))
  {
    hide LexLess, Next, Pivot;
    SameSize(s, p);
    PivotRange(s, k, l);
    var n := Next(s, k, l);
    NextPrefix(s, k, l);
    assert s == s[..k] + s[k..] && n == s[..k] + n[k..] && p == p[..k] + p[k..];
    if p[..k] == s[..k] {
      LexAppend(s[..k], s[k..], p[k..]);
      LexAppend(s[..k], p[k..], n[k..]);
      RestMultiset(p, p[..k], p[k..]);
      RestMultiset(s, s[..k], s[k..]);
      TailIsLeast(s, k, l, p[k..]);
    } else {
      EarlyDifference(s[..k], s[k..], p[..k], p[k..], n[k..]);
    }
  }

  lemma {:induction false} EarlyDifference(a: seq<int>, x: seq<int>, b: seq<int>, y: seq<int>, z: seq<int>)
    requires |a| == |b| && a != b && LexLess(a + x, b + y)
    ensures !LexLess(b + y, a + z)
  {
    if a[0] == b[0] {
      assert a == [a[0]] + a[1..] && b == [b[0]] + b[1..];
      assert (a + x)[1..] == a[1..] + x && (b + y)[1..] == b[1..] + y && (a + z)[1..] == a[1..] + z;
      EarlyDifference(a[1..], x, b[1..], y, z);
    } else {
      assert (a + x)[0] == a[0] && (b + y)[0] == b[0] && (a + z)[0] == a[0];
    }
  }

  lemma {:induction false} NextIsLater(s: seq<int>, k: nat, l: nat)
    requires Pivot(s, k, l)
    ensures LexLess(s, Next(s, k, l))
  {
    var n := Next(s, k, l);
    assert s == s[..k] + s[k..] && n == s[..k] + n[k..];
    LexAppend(s[..k], s[k..], n[k..]);
    assert s[k..][0] == s[k] && n[k..][0] == s[l];
  }

  lemma FallingFrom(s: seq<int>, k: nat)
    requires k + 1 < |s| && s[k] >= s[k + 1] && Falling(s[k + 1..])
    ensures Falling(s[k..])
  {
    var f, g := s[k..], s[k + 1..];
    forall i, j | 0 <= i < j < |f| ensures f[i] >= f[j] {
      assert f[j] == g[j - 1];
      if i > 0 { assert f[i] == g[i - 1]; } else { assert g[0] >= g[j - 1] || j == 1; }
    }
  }

  method Swap(data: array<int>, i: nat, j: nat)
    requires i < data.Length && j < data.Length
    modifies data
    ensures data[..] == Swapped(old(data[..]), i, j)
  {
    data[i], data[j] := data[j], data[i];
  }

  // The loop of step 4: the tail is turned around.
  method ReverseTail(data: array<int>, lo: nat)
    requires lo <= data.Length
    modifies data
    ensures data[..] == old(data[..])[..lo] + Reversed(old(data[..])[lo..])
  {
    ghost var s := data[..];
    var i, j := lo, data.Length - 1;
    while i < j
      invariant lo <= i && j == data.Length - 1 - (i - lo) && i <= j + 2
      invariant forall x :: 0 <= x < lo || i <= x <= j ==> data[x] == s[x]
      invariant forall x :: lo <= x < i || j < x < data.Length ==> data[x] == s[data.Length - 1 - (x - lo)]
    {
      data[i], data[j] := data[j], data[i];
      i := i + 1;
      j := j - 1;
    }
  }

  lemma ShortFalls(s: seq<int>)
    ensures |s| <= 1 ==> Falling(s)
    ensures |s| > 1 ==> Falling(s[|s| - 1..])
  {
  }

  lemma {:induction false} NoneLeft(s: seq<int>)
    requires Falling(s)
    ensures forall p :: multiset(p) == multiset(s) ==> !LexLess(s, p)
  {
    forall p | multiset(p) == multiset(s) ensures !LexLess(s, p) {
      FallingIsLast(s, p);
    }
  }

  lemma {:induction false} NextIsNext(s: seq<int>, k: nat, l: nat)
    requires Pivot(s, k, l)
    ensures multiset(Next(s, k, l)) == multiset(s) && LexLess(s, Next(s, k, l))
    ensures forall p :: multiset(p) == multiset(s) && LexLess(s, p) ==> !LexLess(p, Next(s, k, l))
  {
    NextPermutes(s, k, l);
    NextIsLater(s, k, l);
    forall p | multiset(p) == multiset(s) && LexLess(s, p) ensures !LexLess(p, Next(s, k, l)) {
      NextIsLeast(s, k, l, p);
    }
  }

  // PermutationNext (lines 20-39).
  method PermutationNext(data: array<int>) returns (more: bool)
    modifies data
    ensures multiset(data[..]) == multiset(old(data[..]))
    ensures more ==> LexLess(old(data[..]), data[..])
    ensures more ==> forall p :: multiset(p) == multiset(old(data[..])) && LexLess(old(data[..]), p) ==>
              !LexLess(p, data[..])
    ensures !more ==> data[..] == old(data[..])
    ensures !more ==> forall p :: multiset(p) == multiset(old(data[..])) ==> !LexLess(old(data[..]), p)
  {
    hide LexLess, Falling, Reversed;
    ghost var s := data[..];
    ShortFalls(s);
    var k := data.Length - 2;
    while true
      invariant -1 <= k + 1 <= data.Length && -2 <= k < data.Length && data[..] == s
      invariant if k + 1 < 0 then s == [] else Falling(s[k + 1..])
      decreases k + 2
    {
      if k < 0 {
        assert k == -1 ==> s[0..] == s;
        NoneLeft(s);
        return false;
      }
      if data[k] < data[k + 1] { break; }
      FallingFrom(s, k);
      k := k - 1;
    }
    var l := data.Length - 1;
    while !(data[k] < data[l])
      invariant k < l < data.Length && data[..] == s
      invariant forall i :: l < i < data.Length ==> s[i] <= s[k]
      decreases l
    {
      l := l - 1;
    }
    Swap(data, k, l);
    ReverseTail(data, k + 1);
    assert data[..] == Next(s, k, l);
    NextIsNext(s, k, l);
    return true;
  }
}
