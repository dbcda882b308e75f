// Why following the separators leads to the page where a key is or belongs.

module BTreeFind {
  import opened BTreePages
  import opened BTreeShape
  import opened BTreeOrder
  import opened BTreeInv

  ghost predicate NonEmpty(ds: DMap) {
    forall d :: d in ds ==> ds[d].es != []
  }

  /** k belongs inside the subtree around which c lies. */
  ghost predicate Bounded(cmp: Cmp, ds: DMap, c: Ctx, k: K) {
    Below(cmp, Items(ds, Pre(c)), k) && Above(cmp, Items(ds, Post(c)), k)
  }

  /** The separator key in front of subtree s. */
  ghost predicate SepAtMost(cmp: Cmp, ds: DMap, s: Shape, k: K) {
    First(s) != null && First(s) in ds && ds[First(s)].es != [] && cmp(k, ds[First(s)].es[0].k) >= 0
  }

  ghost predicate SepAbove(cmp: Cmp, ds: DMap, s: Shape, k: K) {
    First(s) != null && First(s) in ds && ds[First(s)].es != [] && cmp(k, ds[First(s)].es[0].k) < 0
  }

  lemma {:induction false} CutBelow(cmp: Cmp, x: seq<DE>, y: seq<DE>, k: K)
    requires TotalOrder(cmp) && Sorted(cmp, x + y) && y != [] && cmp(k, y[0].k) >= 0
    ensures Below(cmp, x, k)
  {
    forall i | 0 <= i < |x| ensures cmp(k, x[i].k) > 0 {
      assert (x + y)[i] == x[i] && (x + y)[|x|] == y[0];
      assert cmp(y[0].k, k) <= 0;
      Trans(cmp, x[i].k, y[0].k, k);
    }
  }

  lemma {:induction false} CutAbove(cmp: Cmp, x: seq<DE>, y: seq<DE>, k: K)
    requires TotalOrder(cmp) && Sorted(cmp, x + y) && y != [] && cmp(k, y[0].k) < 0
    ensures Above(cmp, y, k)
  {
    forall i | 0 < i < |y| ensures cmp(k, y[i].k) < 0 {
      assert (x + y)[|x|] == y[0] && (x + y)[|x| + i] == y[i];
      Trans(cmp, k, y[0].k, y[i].k);
    }
  }

  lemma {:induction false} FirstItem(xs: XMap, ds: DMap, s: Shape, h: nat, rest: seq<DPage>)
    requires WF(xs, s, h) && NonEmpty(ds) && First(s) != null && First(s) in ds
    ensures var it := Items(ds, Leaves(s) + rest); it != [] && it[0] == ds[First(s)].es[0]
  {
    FirstIsLeaf(xs, s, h);
    var l := Leaves(s) + rest;
    assert l[0] == First(s);
  }

  lemma {:induction false} Regroup3<T>(a: seq<T>, b: seq<T>, c: seq<T>)
    ensures (a + b) + c == a + (b + c)
  {
  }

  lemma {:induction false} Regroup4<T>(a: seq<T>, b: seq<T>, c: seq<T>, d: seq<T>)
    ensures a + (b + c) + d == (a + b) + (c + d)
  {
  }

  lemma {:induction false} KidLeaves(c: Ctx, z: XPage, zk: seq<Shape>, i: nat)
    requires i < |zk|
    ensures Leaves(Plug(c, Nd(z, zk))) == (Pre(c) + LeavesL(zk[..i])) + (LeavesL(zk[i..]) + Post(c))
    ensures LeavesL(zk[i..]) + Post(c) == Leaves(zk[i]) + (LeavesL(zk[i + 1..]) + Post(c))
  {
    PlugLeaves(c, Nd(z, zk));
    assert zk == zk[..i] + zk[i..];
    LeavesLConcat(zk[..i], zk[i..]);
    Regroup4(Pre(c), LeavesL(zk[..i]), LeavesL(zk[i..]), Post(c));
    assert zk[i..][0] == zk[i] && zk[i..][1..] == zk[i + 1..];
    Regroup3(Leaves(zk[i]), LeavesL(zk[i + 1..]), Post(c));
  }

  // The entries from child i on: they come last, and start with the separator's entry.
  lemma {:induction false} KidItems(xs: XMap, ds: DMap, c: Ctx, z: XPage, zk: seq<Shape>, i: nat, h: nat)
    requires i < |zk| && WF(xs, zk[i], h) && NonEmpty(ds) && First(zk[i]) != null && First(zk[i]) in ds
    ensures var x, y := Pre(c) + LeavesL(zk[..i]), LeavesL(zk[i..]) + Post(c);
            && Items(ds, Leaves(Plug(c, Nd(z, zk)))) == Items(ds, x) + Items(ds, y)
            && Items(ds, y) != [] && Items(ds, y)[0] == ds[First(zk[i])].es[0]
  {
    KidLeaves(c, z, zk, i);
    ItemsConcat(ds, Pre(c) + LeavesL(zk[..i]), LeavesL(zk[i..]) + Post(c));
    FirstItem(xs, ds, zk[i], h, LeavesL(zk[i + 1..]) + Post(c));
  }

  lemma {:induction false} ChildrenWF(st: St, c: Ctx, z: XPage, zk: seq<Shape>)
    requires Struct(st) && st.shape == Plug(c, Nd(z, zk))
    ensures Depth(c) < st.h && AllWF(st.xs, zk, st.h - Depth(c) - 1)
    ensures |zk| > 0 && z in st.xs && st.xs[z] == PageOf(zk)
  {
    PlugWF(st.xs, c, Nd(z, zk), st.h);
  }

  lemma {:induction false} LowerBound(cmp: Cmp, xs: XMap, ds: DMap, c: Ctx, z: XPage, zk: seq<Shape>, i: nat, k: K,
                                      h: nat)
    requires i < |zk| && TotalOrder(cmp) && WF(xs, zk[i], h)
    requires Sorted(cmp, Items(ds, Leaves(Plug(c, Nd(z, zk))))) && NonEmpty(ds)
    requires Below(cmp, Items(ds, Pre(c)), k)
    requires i > 0 ==> SepAtMost(cmp, ds, zk[i], k)
    ensures Below(cmp, Items(ds, Pre(c) + LeavesL(zk[..i])), k)
  {
    if i == 0 {
      assert Pre(c) + LeavesL(zk[..i]) == Pre(c);
    } else {
      KidItems(xs, ds, c, z, zk, i, h);
      CutBelow(cmp, Items(ds, Pre(c) + LeavesL(zk[..i])), Items(ds, LeavesL(zk[i..]) + Post(c)), k);
    }
  }

  lemma {:induction false} UpperBound(cmp: Cmp, xs: XMap, ds: DMap, c: Ctx, z: XPage, zk: seq<Shape>, j: nat, k: K,
                                      h: nat)
    requires j <= |zk| && TotalOrder(cmp) && (j < |zk| ==> WF(xs, zk[j], h))
    requires Sorted(cmp, Items(ds, Leaves(Plug(c, Nd(z, zk))))) && NonEmpty(ds)
    requires Above(cmp, Items(ds, Post(c)), k)
    requires j < |zk| ==> SepAbove(cmp, ds, zk[j], k)
    ensures Above(cmp, Items(ds, LeavesL(zk[j..]) + Post(c)), k)
  {
    if j == |zk| {
      assert LeavesL(zk[j..]) + Post(c) == Post(c);
    } else {
      KidItems(xs, ds, c, z, zk, j, h);
      CutAbove(cmp, Items(ds, Pre(c) + LeavesL(zk[..j])), Items(ds, LeavesL(zk[j..]) + Post(c)), k);
    }
  }

  lemma {:induction false} KidBounded(cmp: Cmp, xs: XMap, ds: DMap, c: Ctx, z: XPage, zk: seq<Shape>, i: nat, k: K,
                                      h: nat)
    requires i < |zk| && TotalOrder(cmp) && AllWF(xs, zk, h)
    requires Sorted(cmp, Items(ds, Leaves(Plug(c, Nd(z, zk))))) && NonEmpty(ds) && Bounded(cmp, ds, c, k)
    requires i > 0 ==> SepAtMost(cmp, ds, zk[i], k)
    requires i + 1 < |zk| ==> SepAbove(cmp, ds, zk[i + 1], k)
    ensures Bounded(cmp, ds, In(c, z, zk[..i], zk[i + 1..]), k)
  {
    LowerBound(cmp, xs, ds, c, z, zk, i, k, h);
    UpperBound(cmp, xs, ds, c, z, zk, i + 1, k, h);
  }

  /** Taking the child between the separators around k keeps k inside. */
  lemma {:induction false} Descend(cmp: Cmp, st: St, c: Ctx, z: XPage, zk: seq<Shape>, i: nat, k: K)
    requires Struct(st) && st.shape == Plug(c, Nd(z, zk)) && i < |zk| && TotalOrder(cmp)
    requires Sorted(cmp, Items(st.ds, LvsOf(st))) && NonEmpty(st.ds) && Bounded(cmp, st.ds, c, k)
    requires i > 0 ==> SepAtMost(cmp, st.ds, zk[i], k)
    requires i + 1 < |zk| ==> SepAbove(cmp, st.ds, zk[i + 1], k)
    ensures Bounded(cmp, st.ds, In(c, z, zk[..i], zk[i + 1..]), k)
  {
    ChildrenWF(st, c, z, zk);
    KidBounded(cmp, st.xs, st.ds, c, z, zk, i, k, st.h - Depth(c) - 1);
  }

  lemma {:induction false} FoundBelow(cmp: Cmp, a: seq<DE>, e: DE, b: seq<DE>, k: K)
    requires TotalOrder(cmp) && Sorted(cmp, a + [e] + b) && cmp(k, e.k) == 0
    ensures Below(cmp, a, k)
  {
    assert a + [e] + b == a + ([e] + b);
    CutBelow(cmp, a, [e] + b, k);
  }
}
