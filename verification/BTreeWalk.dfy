// Walking down the tree: what the pages on the way say about the contents.

module BTreeWalk {
  import opened SeqOps
  import opened BTreePages
  import opened BTreeShape
  import opened BTreeOrder
  import opened BTreeInv
  import opened BTreeFind
  import opened BTreeSteps
  import opened BTreeFill
  import opened Options

  /** Every separator points to a data page with a first key. */
  ghost predicate SepsOk(ds: DMap, seps: seq<DPage?>) {
    forall j :: 0 <= j < |seps| ==> seps[j] != null && seps[j] in ds && ds[seps[j]].es != []
  }

  /** i is where k belongs among the separators, none of which is k. */
  ghost predicate SepSpot(cmp: Cmp, ds: DMap, seps: seq<DPage?>, i: nat, k: K)
    requires SepsOk(ds, seps)
  {
    && i <= |seps|
    && (i > 0 ==> cmp(k, ds[seps[i - 1]].es[0].k) > 0)
    && (i < |seps| ==> cmp(k, ds[seps[i]].es[0].k) < 0)
  }

  /** i is where k belongs among the entries, none of which is k's. */
  ghost predicate KeySpot(cmp: Cmp, es: seq<DE>, i: nat, k: K) {
    && i <= |es|
    && (i > 0 ==> cmp(k, es[i - 1].k) > 0)
    && (i < |es| ==> cmp(k, es[i].k) < 0)
  }

  /** k comes after the first entry of s. */
  ghost predicate PastFirst(cmp: Cmp, ds: DMap, s: Shape, k: K) {
    First(s) != null && First(s) in ds && ds[First(s)].es != [] && cmp(k, ds[First(s)].es[0].k) > 0
  }

  lemma {:induction false} OccNonEmpty(ds: DMap, root: Ref)
    requires DOcc(ds, root)
    ensures NonEmpty(ds)
  {
  }

  lemma {:induction false} KidFirst(st: St, cx: Ctx, z: XPage, zk: seq<Shape>, j: nat)
    requires Struct(st) && st.shape == Plug(cx, Nd(z, zk)) && j < |zk|
    ensures First(zk[j]) != null && First(zk[j]) in st.ds && Leaves(zk[j]) != [] && !zk[j].Void?
    ensures z in st.xs && |st.xs[z].chs| == |zk| && |st.xs[z].seps| == |zk| - 1 && st.xs[z].chs[j] == RefOf(zk[j])
    ensures j > 0 ==> st.xs[z].seps[j - 1] == First(zk[j])
  {
    ChildrenWF(st, cx, z, zk);
    FirstIsLeaf(st.xs, zk[j], st.h - Depth(cx) - 1);
    KidLeaves(cx, z, zk, j);
    var l, n := LvsOf(st), |Pre(cx) + LeavesL(zk[..j])|;
    assert l[n] == Leaves(zk[j])[0];
    assert l[n] in l;
  }

  lemma {:induction false} SepsAreOk(st: St, cx: Ctx, z: XPage, zk: seq<Shape>)
    requires Struct(st) && st.shape == Plug(cx, Nd(z, zk)) && NonEmpty(st.ds)
    ensures z in st.xs && SepsOk(st.ds, st.xs[z].seps)
  {
    hide Struct;
    NodeAt(st, cx, z, zk);
    forall j | 0 <= j < |st.xs[z].seps|
      ensures st.xs[z].seps[j] != null && st.xs[z].seps[j] in st.ds && st.ds[st.xs[z].seps[j]].es != []
    {
      KidFirst(st, cx, z, zk, j + 1);
    }
  }

  lemma {:induction false} PlugKid(cx: Ctx, z: XPage, zk: seq<Shape>, i: nat)
    requires i < |zk|
    ensures Plug(In(cx, z, zk[..i], zk[i + 1..]), zk[i]) == Plug(cx, Nd(z, zk))
  {
    assert zk[..i] + [zk[i]] + zk[i + 1..] == zk;
  }

  /** Going down between two separators. */
  lemma {:induction false} StepDown(cmp: Cmp, st: St, cx: Ctx, z: XPage, zk: seq<Shape>, i: nat, k: K)
    requires Struct(st) && st.shape == Plug(cx, Nd(z, zk)) && TotalOrder(cmp) && NonEmpty(st.ds)
    requires Sorted(cmp, Items(st.ds, LvsOf(st))) && Bounded(cmp, st.ds, cx, k)
    requires z in st.xs && SepsOk(st.ds, st.xs[z].seps) && SepSpot(cmp, st.ds, st.xs[z].seps, i, k)
    ensures i < |zk| && Bounded(cmp, st.ds, In(cx, z, zk[..i], zk[i + 1..]), k)
    ensures i > 0 ==> PastFirst(cmp, st.ds, zk[i], k)
  {
    hide Struct, Bounded, Sorted, Items;
    NodeAt(st, cx, z, zk);
    KidFirst(st, cx, z, zk, i);
    if i + 1 < |zk| { KidFirst(st, cx, z, zk, i + 1); }
    Descend(cmp, st, cx, z, zk, i, k);
  }

  // The leftmost data page of a subtree.

  ghost function FirstCtx(cx: Ctx, s: Shape): Ctx
    decreases s
  {
    match s
    case Nd(x, kids) => if kids == [] then cx else FirstCtx(In(cx, x, [], kids[1..]), kids[0])
    case _ => cx
  }

  lemma {:induction false} FirstCtxPlug(xs: XMap, cx: Ctx, s: Shape, h: nat)
    requires WF(xs, s, h)
    ensures First(s) != null && Plug(FirstCtx(cx, s), Lf(First(s))) == Plug(cx, s) && Pre(FirstCtx(cx, s)) == Pre(cx)
    decreases h
  {
    if s.Nd? {
      var cx' := In(cx, s.x, [], s.kids[1..]);
      FirstCtxPlug(xs, cx', s.kids[0], h - 1);
      assert [] + [s.kids[0]] + s.kids[1..] == s.kids;
      assert Pre(cx') == Pre(cx) + [];
    }
  }

  /** The data page that separator i of z points to. */
  lemma {:induction false} SepLeaf(st: St, cx: Ctx, z: XPage, zk: seq<Shape>, i: nat)
    requires Struct(st) && st.shape == Plug(cx, Nd(z, zk)) && i + 1 < |zk|
    ensures z in st.xs && |st.xs[z].seps| == |zk| - 1 && st.xs[z].seps[i] != null
    ensures st.shape == Plug(FirstCtx(In(cx, z, zk[..i + 1], zk[i + 2..]), zk[i + 1]), Lf(st.xs[z].seps[i]))
  {
    ChildrenWF(st, cx, z, zk);
    KidFirst(st, cx, z, zk, i + 1);
    PlugKid(cx, z, zk, i + 1);
    FirstCtxPlug(st.xs, In(cx, z, zk[..i + 1], zk[i + 2..]), zk[i + 1], st.h - Depth(cx) - 1);
  }

  /** Restructuring that keeps the leaves keeps what surrounds a subtree. */
  lemma {:induction false} SameSpot(st: St, c1: Ctx, c2: Ctx, s: Shape)
    requires Struct(st) && st.shape == Plug(c1, s) && Leaves(Plug(c2, s)) == LvsOf(st) && Leaves(s) != []
    ensures Pre(c1) == Pre(c2) && Post(c1) == Post(c2)
  {
    PlugLeaves(c1, s);
    PlugLeaves(c2, s);
    SamePlace(Pre(c1), Leaves(s), Post(c1), Pre(c2), Post(c2));
  }

  // Found or missing in a data page.

  lemma {:induction false} LeafSplit(st: St, cx: Ctx, q: DPage)
    requires Struct(st) && st.shape == Plug(cx, Lf(q))
    ensures q in st.ds && Items(st.ds, LvsOf(st)) == Items(st.ds, Pre(cx)) + st.ds[q].es + Items(st.ds, Post(cx))
  {
    hide Struct;
    LeafAt(st, cx, q);
    LeafItems(st, cx, q, st.ds);
  }

  lemma {:induction false} FoundSeq(cmp: Cmp, a: seq<DE>, es: seq<DE>, b: seq<DE>, i: nat, k: K, v: V)
    requires TotalOrder(cmp) && Sorted(cmp, a + es + b) && i < |es| && cmp(k, es[i].k) == 0
    ensures Lookup(cmp, a + es + b, k) == Some(es[i].v)
    ensures Put(cmp, a + es + b, k, v) == a + es[i := DE(es[i].k, v)] + b
    ensures Rem(cmp, a + es + b, k) == a + DelAt(es, i) + b
  {
    var x, y := a + es[..i], es[i + 1..] + b;
    assert a + es + b == x + [es[i]] + y;
    FoundBelow(cmp, x, es[i], y, k);
    AtFound(cmp, x, es[i], y, k, v);
    assert x + [DE(es[i].k, v)] + y == a + es[i := DE(es[i].k, v)] + b;
    assert x + y == a + DelAt(es, i) + b;
  }

  lemma {:induction false} MissingSeq(cmp: Cmp, a: seq<DE>, es: seq<DE>, b: seq<DE>, i: nat, k: K, v: V)
    requires TotalOrder(cmp) && Sorted(cmp, a + es + b) && KeySpot(cmp, es, i, k) && Below(cmp, a, k) &&
             Above(cmp, b, k)
    ensures Lookup(cmp, a + es + b, k) == None
    ensures Put(cmp, a + es + b, k, v) == a + InsAt(es, i, DE(k, v)) + b
    ensures Rem(cmp, a + es + b, k) == a + es + b
  {
    var x, y := a + es[..i], es[i..] + b;
    assert a + es + b == x + y;
    BelowSpot(cmp, a, es, b, i, k);
    AboveSpot(cmp, a, es, b, i, k);
    AtMissing(cmp, x, y, k, v);
    assert x + [DE(k, v)] + y == a + InsAt(es, i, DE(k, v)) + b;
  }

  lemma {:induction false} BelowSpot(cmp: Cmp, a: seq<DE>, es: seq<DE>, b: seq<DE>, i: nat, k: K)
    requires TotalOrder(cmp) && Sorted(cmp, a + es + b) && KeySpot(cmp, es, i, k) && Below(cmp, a, k)
    ensures Below(cmp, a + es[..i], k)
  {
    if i == 0 {
      assert a + es[..i] == a;
    } else {
      var x, y := a + es[..i - 1], [es[i - 1]] + (es[i..] + b);
      assert a + es + b == x + y;
      CutBelow(cmp, x, y, k);
      assert a + es[..i] == x + [es[i - 1]];
    }
  }

  lemma {:induction false} AboveSpot(cmp: Cmp, a: seq<DE>, es: seq<DE>, b: seq<DE>, i: nat, k: K)
    requires TotalOrder(cmp) && Sorted(cmp, a + es + b) && KeySpot(cmp, es, i, k) && Above(cmp, b, k)
    ensures Above(cmp, es[i..] + b, k)
  {
    if i == |es| {
      assert es[i..] + b == b;
    } else {
      assert a + es + b == (a + es[..i]) + (es[i..] + b);
      CutAbove(cmp, a + es[..i], es[i..] + b, k);
    }
  }

  lemma {:induction false} SepsAscend(cmp: Cmp, st: St, cx: Ctx, z: XPage, zk: seq<Shape>, j: nat)
    requires Struct(st) && st.shape == Plug(cx, Nd(z, zk)) && TotalOrder(cmp) && NonEmpty(st.ds)
    requires Sorted(cmp, Items(st.ds, LvsOf(st))) && j + 1 < |zk|
    ensures First(zk[j]) != null && First(zk[j]) in st.ds && First(zk[j + 1]) != null && First(zk[j + 1]) in st.ds
    ensures cmp(st.ds[First(zk[j])].es[0].k, st.ds[First(zk[j + 1])].es[0].k) < 0
  {
    hide Struct, WF, Items, TotalOrder, Sorted, Plug;
    KidFirst(st, cx, z, zk, j);
    KidFirst(st, cx, z, zk, j + 1);
    ChildrenWF(st, cx, z, zk);
    var h := st.h - Depth(cx) - 1;
    KidItems(st.xs, st.ds, cx, z, zk, j, h);
    KidItems(st.xs, st.ds, cx, z, zk, j + 1, h);
    KidLeaves(cx, z, zk, j);
    FirstItem(st.xs, st.ds, zk[j], h, []);
    assert Leaves(zk[j]) + [] == Leaves(zk[j]);
    ItemsConcat(st.ds, Leaves(zk[j]), LeavesL(zk[j + 1..]) + Post(cx));
    TwoFirst(cmp, Items(st.ds, Pre(cx) + LeavesL(zk[..j])), Items(st.ds, Leaves(zk[j])),
      Items(st.ds, LeavesL(zk[j + 1..]) + Post(cx)));
  }

  lemma {:induction false} TwoFirst(cmp: Cmp, x: seq<DE>, y: seq<DE>, w: seq<DE>)
    requires Sorted(cmp, x + (y + w)) && y != [] && w != []
    ensures cmp(y[0].k, w[0].k) < 0
  {
    var t := x + (y + w);
    assert t[|x|] == y[0] && t[|x| + |y|] == w[0];
  }

  /** Going down to the subtree that starts with k. */
  lemma {:induction false} StepOnto(cmp: Cmp, st: St, cx: Ctx, z: XPage, zk: seq<Shape>, i: nat, k: K)
    requires Struct(st) && st.shape == Plug(cx, Nd(z, zk)) && TotalOrder(cmp) && NonEmpty(st.ds)
    requires Sorted(cmp, Items(st.ds, LvsOf(st))) && Bounded(cmp, st.ds, cx, k)
    requires z in st.xs && SepsOk(st.ds, st.xs[z].seps) && i < |st.xs[z].seps| &&
             cmp(k, st.ds[st.xs[z].seps[i]].es[0].k) == 0
    ensures i + 1 < |zk| && Bounded(cmp, st.ds, In(cx, z, zk[..i + 1], zk[i + 2..]), k)
  {
    hide Struct, Bounded, Sorted, Items, TotalOrder, Plug, NonEmpty;
    NodeAt(st, cx, z, zk);
    KidFirst(st, cx, z, zk, i + 1);
    if i + 2 < |zk| {
      KidFirst(st, cx, z, zk, i + 2);
      SepsAscend(cmp, st, cx, z, zk, i + 1);
      Trans(cmp, k, st.ds[First(zk[i + 1])].es[0].k, st.ds[First(zk[i + 2])].es[0].k);
    }
    Descend(cmp, st, cx, z, zk, i + 1, k);
  }

  lemma {:induction false} TopBounded(cmp: Cmp, ds: DMap, k: K)
    ensures Bounded(cmp, ds, Top, k)
  {
  }

  lemma {:induction false} BoundedParts(cmp: Cmp, ds: DMap, cx: Ctx, k: K)
    requires Bounded(cmp, ds, cx, k)
    ensures Below(cmp, Items(ds, Pre(cx)), k) && Above(cmp, Items(ds, Post(cx)), k)
  {
  }

  lemma {:induction false} NoItems(ds: DMap)
    ensures Items(ds, Leaves(Void)) == []
  {
  }

  lemma {:induction false} InsCount(a: seq<DE>, es: seq<DE>, b: seq<DE>, i: nat, e: DE)
    requires i <= |es|
    ensures |a + InsAt(es, i, e) + b| == |a + es + b| + 1
  {
  }

  lemma {:induction false} DelCount(a: seq<DE>, es: seq<DE>, b: seq<DE>, i: nat)
    requires i < |es|
    ensures |a + DelAt(es, i) + b| == |a + es + b| - 1 && |DelAt(es, i)| == |es| - 1
  {
  }

  lemma {:induction false} PastSpot(cmp: Cmp, es: seq<DE>, i: nat, k: K)
    requires KeySpot(cmp, es, i, k) && es != [] && cmp(k, es[0].k) > 0
    ensures i > 0
  {
  }

  lemma {:induction false} SetOcc(ds: DMap, es: DMap, root: Ref, q: DPage, qe: seq<DE>)
    requires DOcc(ds, root) && q in ds && es == ds[q := ds[q].(es := qe)]
    requires |qe| <= 2 * kd && (|ds[q].es| <= |qe| || kd <= |qe|)
    ensures DOcc(es, root)
  {
  }

  lemma {:induction false} SetOccBut(ds: DMap, es: DMap, root: Ref, q: DPage, qe: seq<DE>)
    requires DOcc(ds, root) && q in ds && es == ds[q := ds[q].(es := qe)]
    ensures DOccBut(es, root, q)
  {
  }

  lemma {:induction false} RootLeafOcc(ds: DMap, es: DMap, q: DPage, qe: seq<DE>)
    requires DOcc(ds, DR(q)) && q in ds && es == ds[q := ds[q].(es := qe)] && 0 < |qe| <= 2 * kd
    ensures DOcc(es, DR(q))
  {
  }

  lemma {:induction false} SpotBounded(cmp: Cmp, ds: DMap, c1: Ctx, c2: Ctx, k: K)
    requires Bounded(cmp, ds, c1, k) && Pre(c1) == Pre(c2) && Post(c1) == Post(c2)
    ensures Bounded(cmp, ds, c2, k)
  {
  }

  lemma {:induction false} SpotRange(cmp: Cmp, es: seq<DE>, i: nat, k: K)
    requires KeySpot(cmp, es, i, k)
    ensures i <= |es|
  {
  }

  lemma {:induction false} SameRootKind(ds: DMap, root: Ref, root': Ref)
    requires DOcc(ds, root) && root.XR? && root'.XR?
    ensures DOcc(ds, root')
  {
  }

  /** Moving to child i' of z', which is where child i of z was. */
  lemma {:induction false} MoveDown(cmp: Cmp, st: St, cx: Ctx, z: XPage, zk: seq<Shape>, i: nat,
                                    st': St, cx': Ctx, z': XPage, zk': seq<Shape>, i': nat, k: K)
    requires Struct(st) && st.shape == Plug(cx, Nd(z, zk)) && i < |zk| &&
             Bounded(cmp, st.ds, In(cx, z, zk[..i], zk[i + 1..]), k)
    requires Struct(st') && st'.shape == Plug(cx', Nd(z', zk')) && i' < |zk'| && zk'[i'] == zk[i]
    requires st'.ds == st.ds && LvsOf(st') == LvsOf(st)
    ensures var c2 := In(cx', z', zk'[..i'], zk'[i' + 1..]);
            st'.shape == Plug(c2, zk'[i']) && Bounded(cmp, st'.ds, c2, k)
    ensures z' in st'.xs && |st'.xs[z'].chs| == |zk'| && st'.xs[z'].chs[i'] == RefOf(zk'[i']) && !zk'[i'].Void?
    ensures st'.root.XR? && st.root.XR?
  {
    hide Struct, Bounded;
    KidFirst(st, cx, z, zk, i);
    KidFirst(st', cx', z', zk', i');
    PlugKid(cx, z, zk, i);
    PlugKid(cx', z', zk', i');
    SameSpot(st, In(cx, z, zk[..i], zk[i + 1..]), In(cx', z', zk'[..i'], zk'[i' + 1..]), zk[i]);
    SpotBounded(cmp, st.ds, In(cx, z, zk[..i], zk[i + 1..]), In(cx', z', zk'[..i'], zk'[i' + 1..]), k);
    RootIsIndex(st, cx, z, zk);
    RootIsIndex(st', cx', z', zk');
  }

  lemma {:induction false} RootNotNil(st: St)
    requires Struct(st)
    ensures st.root != Nil
  {
  }

  lemma {:induction false} SepAtIs(ds: DMap, seps: seq<DPage?>, i: nat)
    requires SepsOk(ds, seps) && i < |seps|
    ensures seps[i] != null && seps[i] in ds && ds[seps[i]].es != []
  {
  }

  /** A tree of one data page with one entry. */
  lemma {:induction false} SingleDone(st: St, z: DPage, e: DE, cmp: Cmp)
    requires st == St(map[z := DVal([e], null, null)], map[], DR(z), z, z, Lf(z), 0)
    ensures Struct(st) && XOcc(st.xs, st.root) && DOcc(st.ds, st.root) && Items(st.ds, LvsOf(st)) == [e] &&
            Sorted(cmp, [e])
  {
    ItemsSingle(st.ds, z);
    assert Xs(st.shape) == multiset(st.xs.Keys);
  }

  lemma {:induction false} AloneItems(ds: DMap, cx: Ctx, q: DPage)
    requires cx.Top? && q in ds
    ensures Plug(cx, Lf(q)) == Lf(q) && Items(ds, Leaves(Lf(q))) == ds[q].es
  {
    ItemsSingle(ds, q);
  }

  lemma {:induction false} EndItems(st: St)
    requires Struct(st) && NonEmpty(st.ds)
    ensures st.first != null && st.first in st.ds && st.last != null && st.last in st.ds
    ensures var it := Items(st.ds, LvsOf(st));
            it != [] && it[0] == st.ds[st.first].es[0] && it[|it| - 1] == st.ds[st.last].es[|st.ds[st.last].es| - 1]
  {
    var l := LvsOf(st);
    assert l[0] in l && l[|l| - 1] in l;
    assert l == l[..|l| - 1] + [st.last];
    ItemsConcat(st.ds, l[..|l| - 1], [st.last]);
    ItemsSingle(st.ds, st.last);
  }

  lemma NothingIn(cmp: Cmp, k: K)
    ensures Lookup(cmp, [], k) == None && Rem(cmp, [], k) == []
  {
  }

  lemma PutFirst(cmp: Cmp, k: K, v: V)
    ensures Put(cmp, [], k, v) == [DE(k, v)]
  {
  }
}
