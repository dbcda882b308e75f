// What moving entries between data pages does to the contents of the tree.

module BTreeFill {
  import opened SeqOps
  import opened BTreePages
  import opened BTreeShape
  import opened BTreeInv
  import opened BTreeLeaf
  import opened BTreeFind
  import opened BTreeSteps

  /** Only the entries of q and x may differ. */
  ghost predicate Refilled(ds: DMap, es: DMap, q: DPage, x: DPage) {
    && SameLinks(ds, es)
    && forall d :: d in ds && d != q && d != x ==> d in es && es[d].es == ds[d].es
  }

  lemma {:induction false} LeafAt(st: St, cx: Ctx, q: DPage)
    requires Struct(st) && st.shape == Plug(cx, Lf(q))
    ensures q in st.ds && LvsOf(st) == Pre(cx) + [q] + Post(cx) && q !in Pre(cx) && q !in Post(cx)
    ensures forall d :: d in Pre(cx) ==> d in st.ds && d != q
    ensures forall d :: d in Post(cx) ==> d in st.ds && d != q
  {
    PlugLeaves(cx, Lf(q));
    AloneAt(LvsOf(st), Pre(cx), q, Post(cx));
  }

  lemma {:induction false} AloneAt(l: seq<DPage>, a: seq<DPage>, q: DPage, b: seq<DPage>)
    requires NoDup(l) && l == a + [q] + b
    ensures q in l && q !in a && q !in b && (forall d :: d in a ==> d in l) && (forall d :: d in b ==> d in l)
  {
    assert l[|a|] == q;
    forall i | 0 <= i < |a| ensures a[i] != q && a[i] in l { assert l[i] == a[i]; }
    forall i | 0 <= i < |b| ensures b[i] != q && b[i] in l { assert l[|a| + 1 + i] == b[i]; }
  }

  lemma {:induction false} SameOff(ds: DMap, es: DMap, q: DPage, x: DPage, l: seq<DPage>)
    requires Refilled(ds, es, q, x) && forall d :: d in l ==> d in ds && d != q && d != x
    ensures Items(es, l) == Items(ds, l)
  {
    ItemsFrame(ds, es, l);
  }

  /** The contents around one data page. */
  lemma {:induction false} LeafItems(st: St, cx: Ctx, q: DPage, es: DMap)
    requires Struct(st) && st.shape == Plug(cx, Lf(q)) && q in st.ds && q in es && Refilled(st.ds, es, q, q)
    ensures Items(es, LvsOf(st)) == Items(st.ds, Pre(cx)) + es[q].es + Items(st.ds, Post(cx))
    ensures Struct(st.(ds := es))
  {
    hide Struct;
    LeafAt(st, cx, q);
    RefillKeeps(st, es);
    SameOff(st.ds, es, q, q, Pre(cx));
    SameOff(st.ds, es, q, q, Post(cx));
    ItemsMid(es, Pre(cx), [q], Post(cx));
    ItemsSingle(es, q);
  }

  lemma {:induction false} PairAt(st: St, up: Ctx, p: XPage, a: seq<Shape>, b: seq<Shape>, q: DPage, x: DPage)
    requires Struct(st) && st.shape == Plug(up, Nd(p, a + [Lf(q), Lf(x)] + b))
    ensures q in st.ds && x in st.ds && q != x && LvsOf(st) == Before(up, a) + [q, x] + After(up, b)
    ensures forall d :: d in Before(up, a) ==> d in st.ds && d != q && d != x
    ensures forall d :: d in After(up, b) ==> d in st.ds && d != q && d != x
  {
    LeafLeaves(q, x);
    SpliceLeaves(up, p, a, [Lf(q), Lf(x)], b);
    assert Before(up, a) + [q, x] + After(up, b) == Before(up, a) + [q] + ([x] + After(up, b));
    assert Before(up, a) + [q, x] + After(up, b) == (Before(up, a) + [q]) + [x] + After(up, b);
    AloneAt(LvsOf(st), Before(up, a), q, [x] + After(up, b));
    AloneAt(LvsOf(st), Before(up, a) + [q], x, After(up, b));
  }

  /** The contents around two neighbouring data pages. */
  lemma {:induction false} PairItems(st: St, up: Ctx, p: XPage, a: seq<Shape>, b: seq<Shape>, q: DPage, x: DPage,
                                     es: DMap)
    requires Struct(st) && st.shape == Plug(up, Nd(p, a + [Lf(q), Lf(x)] + b)) && q in es && x in es &&
             Refilled(st.ds, es, q, x)
    ensures Items(es, LvsOf(st)) == Items(st.ds, Before(up, a)) + (es[q].es + es[x].es) + Items(st.ds, After(up, b))
    ensures Struct(st.(ds := es))
  {
    hide Struct;
    PairAt(st, up, p, a, b, q, x);
    RefillKeeps(st, es);
    SameOff(st.ds, es, q, x, Before(up, a));
    SameOff(st.ds, es, q, x, After(up, b));
    ItemsPair(es, Before(up, a), q, x, After(up, b));
  }

  // The surroundings of one of two neighbouring data pages.

  lemma {:induction false} LeftCtx(ds: DMap, up: Ctx, p: XPage, a: seq<Shape>, q: DPage, x: DPage, b: seq<Shape>)
    requires q in ds && x in ds
    ensures Items(ds, Pre(In(up, p, a + [Lf(q)], b))) == Items(ds, Before(up, a)) + ds[q].es
    ensures Post(In(up, p, a + [Lf(q)], b)) == After(up, b)
    ensures Items(ds, Post(In(up, p, a, [Lf(x)] + b))) == ds[x].es + Items(ds, After(up, b))
    ensures Pre(In(up, p, a, [Lf(x)] + b)) == Before(up, a)
  {
    LeafLeaves(q, x);
    LeafLeaves(x, q);
    LeavesLConcat(a, [Lf(q)]);
    LeavesLConcat([Lf(x)], b);
    Regroup3(Pre(up), LeavesL(a), [q]);
    ItemsConcat(ds, Before(up, a), [q]);
    ItemsSingle(ds, q);
    Regroup3([x], LeavesL(b), Post(up));
    ItemsConcat(ds, [x], After(up, b));
    ItemsSingle(ds, x);
  }

  lemma {:induction false} SpillLeftSeq(l: seq<DE>, q: seq<DE>, i: nat, e: DE)
    requires 0 < i <= |q|
    ensures (l + q[..1]) + InsAt(q[1..], i - 1, e) == l + InsAt(q, i, e)
  {
    assert InsAt(q, i, e) == q[..1] + InsAt(q[1..], i - 1, e);
  }

  lemma {:induction false} SpillRightSeq(q: seq<DE>, x: seq<DE>, i: nat, e: DE)
    requires i <= |q|
    ensures i < |q| ==> InsAt(q[..|q| - 1], i, e) + (q[|q| - 1..] + x) == InsAt(q, i, e) + x
    ensures i == |q| ==> q + InsAt(x, 0, e) == InsAt(q, i, e) + x
  {
    if i < |q| {
      assert InsAt(q, i, e) == InsAt(q[..|q| - 1], i, e) + q[|q| - 1..];
    }
  }

  lemma {:induction false} SplitSeq(q: seq<DE>, n: nat, i: nat, e: DE)
    requires n <= |q| && i <= |q|
    ensures i <= n ==> InsAt(q[..n], i, e) + q[n..] == InsAt(q, i, e)
    ensures i >= n ==> q[..n] + InsAt(q[n..], i - n, e) == InsAt(q, i, e)
  {
  }

  /** Two neighbouring data pages take new entries qe and xe. */
  lemma {:induction false} PairDone(st: St, up: Ctx, p: XPage, a: seq<Shape>, b: seq<Shape>, q: DPage, x: DPage,
                                    qe: seq<DE>, xe: seq<DE>, es: DMap)
    requires Struct(st) && st.shape == Plug(up, Nd(p, a + [Lf(q), Lf(x)] + b)) && q in st.ds && x in st.ds
    requires es == st.ds[q := st.ds[q].(es := qe)][x := st.ds[x].(es := xe)]
    ensures Struct(st.(ds := es))
    ensures Items(es, LvsOf(st)) == Items(st.ds, Before(up, a)) + (qe + xe) + Items(st.ds, After(up, b))
  {
    hide Struct;
    PairAt(st, up, p, a, b, q, x);
    PairItems(st, up, p, a, b, q, x, es);
  }

  lemma {:induction false} PairOcc(ds: DMap, es: DMap, root: Ref, q: DPage, x: DPage, qe: seq<DE>, xe: seq<DE>)
    requires DOcc(ds, root) && q in ds && x in ds && root.XR? && es == ds[q := ds[q].(es := qe)][x := ds[x].(es := xe)]
    requires kd <= |qe| <= 2 * kd && kd <= |xe| <= 2 * kd
    ensures DOcc(es, root)
  {
  }

  lemma {:induction false} RootIsIndex(st: St, up: Ctx, p: XPage, ks: seq<Shape>)
    requires Struct(st) && st.shape == Plug(up, Nd(p, ks))
    ensures st.root.XR?
  {
    if up.In? { RootInCtx(up, Nd(p, ks)); }
  }

  lemma {:induction false} DOccAt(ds: DMap, root: Ref, q: DPage)
    requires DOcc(ds, root) && q in ds
    ensures |ds[q].es| <= 2 * kd && (if DR(q) == root then 1 else kd) <= |ds[q].es|
  {
  }

  // split

  lemma {:induction false} LinkInIs(ds: DMap, q: DPage, x: DPage, es: DMap)
    requires q in ds && x !in ds && (ds[q].n != null ==> ds[q].n in ds && ds[q].n != q)
    requires var nx := ds[q].n; var d0 := ds[x := DVal([], null, null)];
             var d1 := if nx == null then d0 else d0[x := DVal([], nx, null)][nx := ds[nx].(p := x)];
             es == d1[q := ds[q].(n := x)][x := DVal([], nx, q)]
    ensures es == LinkIn(ds, q, x)
  {
  }

  /** The data pages after q is split into q and x. */
  ghost function HalvedDs(ds: DMap, q: DPage, x: DPage): DMap
    requires q in ds && |ds[q].es| == 2 * kd
  {
    var d1 := LinkIn(ds, q, x);
    d1[q := d1[q].(es := ds[q].es[..kd])][x := d1[x].(es := ds[q].es[kd..])]
  }

  lemma {:induction false} HalvedEs(ds: DMap, q: DPage, x: DPage)
    requires q in ds && |ds[q].es| == 2 * kd && x !in ds
    ensures var es := HalvedDs(ds, q, x);
            && q in es && x in es && es[q].es == ds[q].es[..kd] && es[x].es == ds[q].es[kd..]
            && (forall d :: d in es ==> d in ds || d == x)
            && (forall d :: d in ds && d != q ==> d in es && es[d].es == ds[d].es)
  {
  }

  lemma {:induction false} LeafReady(st: St, up: Ctx, p: XPage, a: seq<Shape>, b: seq<Shape>, q: DPage)
    requires Struct(st) && st.shape == Plug(up, Nd(p, a + [Lf(q)] + b))
    ensures AtKids(st, up, p, a, [Lf(q)], b)
    ensures p in st.xs && |st.xs[p].seps| == |a| + |b| && |st.xs[p].chs| == |a| + |b| + 1
    ensures q in st.ds && LvsOf(st) == Before(up, a) + [q] + After(up, b)
    ensures st.ds[q].n != null ==> st.ds[q].n in st.ds && st.ds[q].n != q
    ensures forall d :: d in Before(up, a) ==> d in st.ds && d != q
    ensures forall d :: d in After(up, b) ==> d in st.ds && d != q
  {
    AtKidsIntro(st, up, p, a, [Lf(q)], b);
    NodeAt(st, up, p, a + [Lf(q)] + b);
    LeafAt(st, In(up, p, a, b), q);
    var l, j := LvsOf(st), |Before(up, a)|;
    LinkAt(st.ds, l, st.first, st.last, j);
    assert l[j] == q;
    if j + 1 < |l| { assert l[j + 1] in l; }
  }

  lemma {:induction false} SplitLeafPage(a: seq<Shape>, q: DPage, x: DPage, b: seq<Shape>)
    ensures var v := PageOf(a + [Lf(q)] + b);
            |v.chs| == |a| + |b| + 1 && |v.seps| == |a| + |b|
            && PageOf(a + [Lf(q), Lf(x)] + b) == XVal(InsAt(v.chs, |a| + 1, DR(x)), InsAt(v.seps, |a|, x))
  {
    var ks := a + [Lf(q)] + b;
    assert ks[..|a|] == a && ks[|a| + 1..] == b && ks[|a|] == Lf(q);
    PageInsert(ks, |a|, Lf(q), Lf(x));
  }

  lemma {:induction false} SplitLeafDone(st: St, up: Ctx, p: XPage, a: seq<Shape>, b: seq<Shape>, q: DPage, x: DPage,
                                         ys: XMap)
    requires Struct(st) && st.shape == Plug(up, Nd(p, a + [Lf(q)] + b)) && x !in st.ds && q in st.ds &&
             |st.ds[q].es| == 2 * kd
    requires p in st.xs && |st.xs[p].seps| == |a| + |b| && |st.xs[p].chs| == |a| + |b| + 1
    requires ys == st.xs[p := XVal(InsAt(st.xs[p].chs, |a| + 1, DR(x)), InsAt(st.xs[p].seps, |a|, x))]
    ensures ys == st.xs[p := PageOf(a + [Lf(q), Lf(x)] + b)]
    ensures Struct(Rewritten(st, ys, up, p, a, [Lf(q), Lf(x)], b)
                     .(ds := HalvedDs(st.ds, q, x), last := if st.ds[q].n == null then x else st.last))
    ensures Items(HalvedDs(st.ds, q, x), Before(up, a)) == Items(st.ds, Before(up, a))
    ensures Items(HalvedDs(st.ds, q, x), After(up, b)) == Items(st.ds, After(up, b))
  {
    hide Struct, PageOf, Plug;
    LeafReady(st, up, p, a, b, q);
    SplitLeafPage(a, q, x, b);
    assert st.xs[p] == PageOf(a + [Lf(q)] + b);
    LeafSplitKeeps(st, ys, up, p, a, b, q, x);
    var st1 := Rewritten(st, ys, up, p, a, [Lf(q), Lf(x)], b)
                 .(ds := LinkIn(st.ds, q, x), last := if st.ds[q].n == null then x else st.last);
    RefillKeeps(st1, HalvedDs(st.ds, q, x));
    HalvedEs(st.ds, q, x);
    ItemsFrame(st.ds, HalvedDs(st.ds, q, x), Before(up, a));
    ItemsFrame(st.ds, HalvedDs(st.ds, q, x), After(up, b));
  }

  lemma {:induction false} InsertOcc(xs: XMap, ys: XMap, root: Ref, p: XPage, pv: XVal)
    requires XOcc(xs, root) && p in xs && ys == xs[p := pv] && |pv.seps| == |xs[p].seps| + 1 <= 2 * kx + 1
    ensures XOcc(ys, root)
  {
  }

  lemma {:induction false} NewRootOcc(xs: XMap, pv0: XVal, ys: XMap, root: Ref, p: XPage, pv: XVal)
    requires XOcc(xs, root) && root.DR? && p !in xs && ys == xs[p := pv0][p := pv] && |pv.seps| == 1
    ensures XOcc(ys, XR(p))
  {
  }

  lemma {:induction false} HalvedOcc(ds: DMap, root: Ref, root': Ref, q: DPage, x: DPage, es: DMap)
    requires DOcc(ds, root) && q in ds && |ds[q].es| == 2 * kd && x !in ds && root'.XR? && (root.XR? || root == DR(q))
    requires var h := HalvedDs(ds, q, x);
             es.Keys == h.Keys && (forall d :: d in h && d != q && d != x ==> es[d] == h[d])
    requires q in es && x in es && kd <= |es[q].es| <= 2 * kd && kd <= |es[x].es| <= 2 * kd
    ensures DOcc(es, root')
  {
    HalvedEs(ds, q, x);
  }

  lemma {:induction false} LinkInEs(ds: DMap, q: DPage, x: DPage)
    requires q in ds && x !in ds
    ensures q in LinkIn(ds, q, x) && x in LinkIn(ds, q, x) && LinkIn(ds, q, x)[q].es == ds[q].es &&
            LinkIn(ds, q, x)[x].es == []
  {
  }

  lemma {:induction false} Assoc<T>(a: seq<T>, b: seq<T>, c: seq<T>, d: seq<T>)
    ensures (a + b) + c + d == a + (b + c) + d
    ensures a + b + (c + d) == a + (b + c) + d
  {
  }

  lemma {:induction false} InsLen<T>(s: seq<T>, i: int, e: T)
    ensures 0 <= i <= |s| ==> |InsAt(s, i, e)| == |s| + 1
  {
  }

  lemma {:induction false} KidIn(st: St, up: Ctx, p: XPage, ks: seq<Shape>, i: nat)
    requires Struct(st) && st.shape == Plug(up, Nd(p, ks)) && i < |ks| && ks[i].Lf?
    ensures ks[i].d in st.ds
  {
    assert ks == ks[..i] + [ks[i]] + ks[i + 1..];
    LeafAt(st, In(up, p, ks[..i], ks[i + 1..]), ks[i].d);
  }

  // underflow and cat

  /** Occupancy of every data page but q. */
  ghost predicate DOccBut(ds: DMap, root: Ref, q: DPage) {
    forall d :: d in ds && d != q ==> |ds[d].es| <= 2 * kd && (if DR(d) == root then 1 else kd) <= |ds[d].es|
  }

  lemma {:induction false} ButOcc(ds: DMap, es: DMap, root: Ref, q: DPage, x: DPage, qe: seq<DE>, xe: seq<DE>,
                                  but: DPage)
    requires DOccBut(ds, root, but) && (but == q || but == x) && q in ds && x in ds && root.XR?
    requires es == ds[q := ds[q].(es := qe)][x := ds[x].(es := xe)]
    requires kd <= |qe| <= 2 * kd && kd <= |xe| <= 2 * kd
    ensures DOcc(es, root)
  {
  }

  lemma {:induction false} LinkOutIs(ds: DMap, q: DPage, x: DPage, es: DMap)
    requires q in ds && x in ds && q != x && (ds[x].n != null ==> ds[x].n in ds && ds[x].n != q && ds[x].n != x)
    requires var nx := ds[x].n; var d1 := if nx == null then ds else ds[nx := ds[nx].(p := q)];
             es == d1[q := ds[q].(n := nx)] - {x}
    ensures es == LinkOut(ds, q, x)
  {
  }

  /** The data pages after the entries of x moved to q. */
  ghost function Emptied(ds: DMap, q: DPage, x: DPage): DMap
    requires q in ds && x in ds
  {
    ds[q := ds[q].(es := ds[q].es + ds[x].es)][x := ds[x].(es := [])]
  }

  lemma {:induction false} JoinedEs(ds: DMap, q: DPage, x: DPage)
    requires q in ds && x in ds && q != x && ds[x].n != q && ds[x].n != x
    ensures q in Emptied(ds, q, x) && x in Emptied(ds, q, x)
    ensures var es := LinkOut(Emptied(ds, q, x), q, x);
            && q in es && x !in es && es[q].es == ds[q].es + ds[x].es
            && (forall d :: d in es ==> d in ds)
            && (forall d :: d in ds && d != q && d != x ==> d in es && es[d].es == ds[d].es)
  {
  }

  lemma {:induction false} JoinReady(st: St, up: Ctx, p: XPage, a: seq<Shape>, b: seq<Shape>, q: DPage, x: DPage)
    requires Struct(st) && st.shape == Plug(up, Nd(p, a + [Lf(q), Lf(x)] + b))
    ensures p in st.xs && |st.xs[p].seps| == |a| + |b| + 1 && |st.xs[p].chs| == |a| + |b| + 2
    ensures q in st.ds && x in st.ds && q != x
    ensures st.ds[x].n != null ==> st.ds[x].n in st.ds && st.ds[x].n != q && st.ds[x].n != x
    ensures Depth(up) < st.h
  {
    NodeAt(st, up, p, a + [Lf(q), Lf(x)] + b);
    PairAt(st, up, p, a, b, q, x);
    var l, j := LvsOf(st), |Before(up, a)| + 1;
    LinkAt(st.ds, l, st.first, st.last, j);
    assert l[j] == x && l[j - 1] == q;
    if j + 1 < |l| { assert l[j + 1] in l; }
  }

  lemma {:induction false} ExtractSeq<T>(s: seq<T>, i: nat)
    requires i + 1 < |s|
    ensures DelAt(s, if i + 2 < |s| then i else i + 1)[i := s[i]] == DelAt(s, i + 1)
  {
  }

  lemma {:induction false} JoinLeafPage(a: seq<Shape>, q: DPage, x: DPage, b: seq<Shape>)
    ensures var v := PageOf(a + [Lf(q), Lf(x)] + b);
            |v.chs| == |a| + |b| + 2 && |v.seps| == |a| + |b| + 1 && v.chs[|a|] == DR(q)
            && PageOf(a + [Lf(q)] + b) == XVal(DelAt(v.chs, |a| + 1), DelAt(v.seps, |a|))
  {
    var ks := a + [Lf(q), Lf(x)] + b;
    assert ks[..|a|] == a && ks[|a| + 2..] == b && ks[|a|] == Lf(q);
    PageDrop(ks, |a|, Lf(q));
  }

  // cat on the structure: entries, chain and parent.
  lemma {:induction false} JoinLeafKeeps(st: St, up: Ctx, p: XPage, a: seq<Shape>, b: seq<Shape>, q: DPage, x: DPage,
                                         ys: XMap)
    requires Struct(st) && st.shape == Plug(up, Nd(p, a + [Lf(q), Lf(x)] + b)) &&
             ys == st.xs[p := PageOf(a + [Lf(q)] + b)]
    requires q in st.ds && x in st.ds && q != x && st.ds[x].n != q && st.ds[x].n != x
    ensures var st' := Rewritten(st, ys, up, p, a, [Lf(q)], b)
                         .(ds := LinkOut(Emptied(st.ds, q, x), q, x),
                           last := if st.ds[x].n == null then q else st.last);
            && Struct(st') && Items(st'.ds, LvsOf(st')) == Items(st.ds, LvsOf(st))
  {
    hide Struct, PageOf, Plug, LinkOut;
    PairAt(st, up, p, a, b, q, x);
    var ds1 := Emptied(st.ds, q, x);
    RefillKeeps(st, ds1);
    var st1 := st.(ds := ds1);
    AtKidsIntro(st1, up, p, a, [Lf(q), Lf(x)], b);
    LeafJoinKeeps(st1, ys, up, p, a, b, q, x);
    JoinedEs(st.ds, q, x);
    var es := LinkOut(ds1, q, x);
    ItemsFrame(st.ds, es, Before(up, a));
    ItemsFrame(st.ds, es, After(up, b));
    ItemsMid(es, Before(up, a), [q], After(up, b));
    ItemsSingle(es, q);
    ItemsPair(st.ds, Before(up, a), q, x, After(up, b));
  }

  lemma {:induction false} JoinLeafDone(st: St, up: Ctx, p: XPage, a: seq<Shape>, b: seq<Shape>, q: DPage, x: DPage,
                                        chs: seq<Ref>, ys: XMap)
    requires Struct(st) && st.shape == Plug(up, Nd(p, a + [Lf(q), Lf(x)] + b))
    requires p in st.xs && |st.xs[p].seps| == |a| + |b| + 1 && |st.xs[p].chs| == |a| + |b| + 2
    requires chs == DelAt(st.xs[p].chs, if |a| + 1 < |st.xs[p].seps| then |a| else |a| + 1)[|a| := DR(q)]
    requires ys == st.xs[p := XVal(chs, DelAt(st.xs[p].seps, |a|))]
    ensures ys == st.xs[p := PageOf(a + [Lf(q)] + b)]
  {
    NodeAt(st, up, p, a + [Lf(q), Lf(x)] + b);
    JoinLeafPage(a, q, x, b);
    ExtractSeq(st.xs[p].chs, |a|);
  }

  lemma {:induction false} JoinRootLeafDone(st: St, p: XPage, q: DPage, x: DPage, ys: XMap)
    requires Struct(st) && st.shape == Nd(p, [Lf(q), Lf(x)]) && ys == st.xs - {p}
    requires q in st.ds && x in st.ds && q != x && st.ds[x].n != q && st.ds[x].n != x
    ensures st.h > 0
    ensures var st' := st.(xs := ys, root := DR(q), shape := Lf(q), h := st.h - 1,
                           ds := LinkOut(Emptied(st.ds, q, x), q, x),
                           last := if st.ds[x].n == null then q else st.last);
            && Struct(st') && Items(st'.ds, LvsOf(st')) == Items(st.ds, LvsOf(st))
  {
    hide Struct, PageOf, LinkOut;
    assert [] + [Lf(q), Lf(x)] + [] == [Lf(q), Lf(x)];
    assert [] + [Lf(q)] + [] == [Lf(q)];
    var zs := st.xs[p := PageOf([Lf(q)])];
    JoinLeafKeeps(st, Top, p, [], [], q, x, zs);
    var st1 := Rewritten(st, zs, Top, p, [], [Lf(q)], [])
                 .(ds := LinkOut(Emptied(st.ds, q, x), q, x), last := if st.ds[x].n == null then q else st.last);
    ShrinkKeeps(st1, p, Lf(q));
    assert zs - {p} == ys;
  }

  lemma {:induction false} JoinOcc(ds: DMap, root: Ref, root': Ref, q: DPage, x: DPage, but: DPage)
    requires DOccBut(ds, root, but) && (but == q || but == x) && root.XR? && (root' == root || root' == DR(q))
    requires q in ds && x in ds && q != x && ds[x].n != q && ds[x].n != x
    requires |ds[q].es| + |ds[x].es| == 2 * kd - 1
    ensures DOcc(LinkOut(Emptied(ds, q, x), q, x), root')
  {
    JoinedEs(ds, q, x);
  }

  lemma {:induction false} DropOcc(xs: XMap, ys: XMap, root: Ref, p: XPage, pv: XVal)
    requires XOcc(xs, root) && p in xs && ys == xs[p := pv] && |pv.seps| == |xs[p].seps| - 1 > 0 &&
             (XR(p) == root || |xs[p].seps| >= kx)
    ensures XOcc(ys, root)
  {
  }

  lemma {:induction false} NoRootOcc(xs: XMap, p: XPage, q: DPage)
    requires XOcc(xs, XR(p))
    ensures XOcc(xs - {p}, DR(q))
  {
  }

  lemma {:induction false} ButAt(ds: DMap, root: Ref, but: DPage, q: DPage)
    requires DOccBut(ds, root, but) && q in ds && q != but && root.XR?
    ensures kd <= |ds[q].es| <= 2 * kd
  {
  }
}
