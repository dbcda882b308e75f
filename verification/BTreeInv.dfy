// The invariant of a B+tree of linked pages, and what each restructuring step keeps of it.

module BTreeInv {
  import opened BTreePages
  import opened BTreeShape

  /** All entries in order. */
  ghost function Items(ds: DMap, l: seq<DPage>): seq<DE> {
    if l == [] then [] else (if l[0] in ds then ds[l[0]].es else []) + Items(ds, l[1..])
  }

  lemma {:induction false} ItemsConcat(ds: DMap, a: seq<DPage>, b: seq<DPage>)
    ensures Items(ds, a + b) == Items(ds, a) + Items(ds, b)
  {
    if a == [] {
      assert a + b == b;
    } else {
      assert (a + b)[0] == a[0] && (a + b)[1..] == a[1..] + b;
      ItemsConcat(ds, a[1..], b);
    }
  }

  lemma {:induction false} ItemsSingle(ds: DMap, d: DPage)
    requires d in ds
    ensures Items(ds, [d]) == ds[d].es
  {
    assert [d][1..] == [];
  }

  lemma {:induction false} ItemsMid(ds: DMap, a: seq<DPage>, m: seq<DPage>, b: seq<DPage>)
    ensures Items(ds, a + m + b) == Items(ds, a) + Items(ds, m) + Items(ds, b)
  {
    ItemsConcat(ds, a + m, b);
    ItemsConcat(ds, a, m);
  }

  lemma {:induction false} ItemsPair(ds: DMap, a: seq<DPage>, q: DPage, r: DPage, b: seq<DPage>)
    requires q in ds && r in ds
    ensures Items(ds, a + [q, r] + b) == Items(ds, a) + (ds[q].es + ds[r].es) + Items(ds, b)
  {
    ItemsMid(ds, a, [q, r], b);
    assert [q, r] == [q] + [r];
    ItemsConcat(ds, [q], [r]);
    ItemsSingle(ds, q);
    ItemsSingle(ds, r);
  }

  ghost predicate SameEs(ds: DMap, es: DMap, l: seq<DPage>) {
    forall d :: d in l ==> d in ds && d in es && ds[d].es == es[d].es
  }

  lemma {:induction false} ItemsFrame(ds: DMap, es: DMap, l: seq<DPage>)
    requires SameEs(ds, es, l)
    ensures Items(ds, l) == Items(es, l)
  {
    if l != [] {
      assert l[0] in l;
      ItemsFrame(ds, es, l[1..]);
    }
  }

  ghost predicate NoDup<T>(s: seq<T>) {
    forall i, j :: 0 <= i < j < |s| ==> s[i] != s[j]
  }

  /** A block of a sequence without duplicates can stand at one place only. */
  lemma {:induction false} SamePlace<T>(a: seq<T>, m: seq<T>, b: seq<T>, c: seq<T>, d: seq<T>)
    requires a + m + b == c + m + d && m != [] && NoDup(a + m + b)
    ensures a == c && b == d
  {
    var s, t := a + m + b, c + m + d;
    assert s[|a|] == m[0] && t[|c|] == m[0];
    assert |a| == |c|;
    assert a == s[..|a|] && c == t[..|c|];
    assert b == s[|a| + |m|..] && d == t[|c| + |m|..];
  }

  ghost function Nxt(l: seq<DPage>, i: nat): DPage? {
    if i + 1 < |l| then l[i + 1] else null
  }

  ghost function Prv(l: seq<DPage>, i: nat): DPage? {
    if 0 < i <= |l| then l[i - 1] else null
  }

  /** first, last and the n and p pointers chain the data pages l. */
  ghost predicate Links(ds: DMap, l: seq<DPage>, first: DPage?, last: DPage?) {
    && |l| > 0
    && first == l[0]
    && last == l[|l| - 1]
    && (forall d :: d in l ==> d in ds)
    && forall i {:trigger ds[l[i]]} :: 0 <= i < |l| ==> ds[l[i]].n == Nxt(l, i) && ds[l[i]].p == Prv(l, i)
  }

  datatype St = St(ds: DMap, xs: XMap, root: Ref, first: DPage?, last: DPage?, shape: Shape, h: nat)

  ghost function LvsOf(st: St): seq<DPage> {
    Leaves(st.shape)
  }

  /** The pages form one tree of even height, each page occurs once, and the leaves are chained. */
  ghost predicate Struct(st: St) {
    && WF(st.xs, st.shape, st.h)
    && st.root == RefOf(st.shape)
    && Xs(st.shape) == multiset(st.xs.Keys)
    && NoDup(LvsOf(st))
    && (forall d :: d in LvsOf(st) ==> d in st.ds)
    && (forall d :: d in st.ds ==> d in LvsOf(st))
    && Links(st.ds, LvsOf(st), st.first, st.last)
  }

  /** Occupancy of index pages. A page may hold one separator fewer than kx until it is next visited. */
  ghost predicate XOcc(xs: XMap, root: Ref) {
    forall x :: x in xs ==>
      |xs[x].seps| <= 2 * kx + 1 && (if XR(x) == root then 1 else kx - 1) <= |xs[x].seps|
  }

  ghost predicate DOcc(ds: DMap, root: Ref) {
    forall d :: d in ds ==> |ds[d].es| <= 2 * kd && (if DR(d) == root then 1 else kd) <= |ds[d].es|
  }

  // Replacing neighbouring children somewhere in the tree.

  lemma {:induction false} SpliceLeaves(up: Ctx, p: XPage, a: seq<Shape>, m: seq<Shape>, b: seq<Shape>)
    ensures Leaves(Plug(up, Nd(p, a + m + b))) == (Pre(up) + LeavesL(a)) + LeavesL(m) + (LeavesL(b) + Post(up))
  {
    PlugLeaves(up, Nd(p, a + m + b));
    LeavesLMid(a, m, b);
    Regroup(Pre(up), LeavesL(a), LeavesL(m), LeavesL(b), Post(up));
  }

  lemma {:induction false} SpliceXs(up: Ctx, p: XPage, a: seq<Shape>, m: seq<Shape>, b: seq<Shape>)
    ensures Xs(Plug(up, Nd(p, a + m + b))) == multiset{p} + XsL(m) + Outside(up, a, b)
  {
    PlugXs(up, Nd(p, a + m + b));
    LeavesLMid(a, m, b);
  }

  /** Node p, reached by up, has the children a + m + b. */
  ghost predicate AtKids(st: St, up: Ctx, p: XPage, a: seq<Shape>, m: seq<Shape>, b: seq<Shape>) {
    && st.shape == Plug(up, Nd(p, a + m + b))
    && Depth(up) < st.h
    && |m| > 0
    && p in st.xs
    && st.xs[p] == PageOf(a + m + b)
  }

  ghost function Outside(up: Ctx, a: seq<Shape>, b: seq<Shape>): multiset<XPage> {
    CtxXs(up) + XsL(a) + XsL(b)
  }

  lemma {:induction false} AtKidsIntro(st: St, up: Ctx, p: XPage, a: seq<Shape>, m: seq<Shape>, b: seq<Shape>)
    requires Struct(st) && st.shape == Plug(up, Nd(p, a + m + b)) && |m| > 0
    ensures AtKids(st, up, p, a, m, b)
  {
    PlugWF(st.xs, up, Nd(p, a + m + b), st.h);
  }

  lemma {:induction false} KidWF(st: St, up: Ctx, p: XPage, a: seq<Shape>, m: seq<Shape>, b: seq<Shape>, i: nat)
    requires Struct(st) && AtKids(st, up, p, a, m, b) && i < |m|
    ensures WF(st.xs, m[i], st.h - Depth(up) - 1)
  {
    PlugWF(st.xs, up, Nd(p, a + m + b), st.h);
    assert m[i] == (a + m + b)[|a| + i];
  }

  lemma {:induction false} Apart(st: St, up: Ctx, p: XPage, a: seq<Shape>, m: seq<Shape>, b: seq<Shape>)
    requires Struct(st) && st.shape == Plug(up, Nd(p, a + m + b))
    ensures multiset(st.xs.Keys) == multiset{p} + XsL(m) + Outside(up, a, b)
    ensures p !in XsL(m) && p !in Outside(up, a, b)
    ensures forall x :: x in XsL(m) ==> x in st.xs && x !in Outside(up, a, b) && XsL(m)[x] == 1
  {
    SpliceXs(up, p, a, m, b);
    var ks, x := multiset(st.xs.Keys), XsL(m);
    assert ks[p] == 1;
    forall y | y in x ensures y in st.xs && y !in Outside(up, a, b) && x[y] == 1 {
      assert ks[y] == 1;
    }
  }

  lemma {:induction false} OutsideAgree(xs: XMap, ys: XMap, up: Ctx, a: seq<Shape>, b: seq<Shape>)
    requires Agree(xs, ys, Outside(up, a, b))
    ensures Agree(xs, ys, CtxXs(up)) && Agree(xs, ys, XsL(a) + XsL(b))
  {
  }

  lemma {:induction false} SpliceSub(xs: XMap, ys: XMap, up: Ctx, p: XPage, a: seq<Shape>, m: seq<Shape>,
                                     m': seq<Shape>, b: seq<Shape>, h: nat)
    requires WF(xs, Plug(up, Nd(p, a + m + b)), h) && Depth(up) < h && |m| > 0 && |m'| > 0 &&
             First(m'[0]) == First(m[0])
    requires p in ys && ys[p] == PageOf(a + m' + b)
    requires AllWF(ys, m', h - Depth(up) - 1)
    requires Agree(xs, ys, XsL(a) + XsL(b))
    ensures WF(ys, Nd(p, a + m' + b), h - Depth(up)) && First(Nd(p, a + m' + b)) == First(Nd(p, a + m + b))
  {
    PlugWF(xs, up, Nd(p, a + m + b), h);
    SegReplace(xs, ys, p, a, m, m', b, h - Depth(up));
  }

  lemma {:induction false} SpliceWF(xs: XMap, ys: XMap, up: Ctx, p: XPage, a: seq<Shape>, m: seq<Shape>,
                                    m': seq<Shape>, b: seq<Shape>, h: nat)
    requires WF(xs, Plug(up, Nd(p, a + m + b)), h) && Depth(up) < h && |m| > 0 && |m'| > 0 &&
             First(m'[0]) == First(m[0])
    requires p in ys && ys[p] == PageOf(a + m' + b)
    requires AllWF(ys, m', h - Depth(up) - 1)
    requires Agree(xs, ys, Outside(up, a, b))
    ensures WF(ys, Plug(up, Nd(p, a + m' + b)), h)
  {
    OutsideAgree(xs, ys, up, a, b);
    SpliceSub(xs, ys, up, p, a, m, m', b, h);
    PlugReplace(xs, ys, up, Nd(p, a + m + b), Nd(p, a + m' + b), h);
  }

  lemma {:induction false} RewriteXs(xs: XMap, ys: XMap, up: Ctx, p: XPage, a: seq<Shape>, m: seq<Shape>,
                                     m': seq<Shape>, b: seq<Shape>)
    requires Xs(Plug(up, Nd(p, a + m + b))) == multiset(xs.Keys)
    requires multiset(ys.Keys) + XsL(m) == multiset(xs.Keys) + XsL(m')
    ensures Xs(Plug(up, Nd(p, a + m' + b))) == multiset(ys.Keys)
  {
    SpliceXs(up, p, a, m, b);
    SpliceXs(up, p, a, m', b);
    Cancel(multiset(ys.Keys), multiset{p} + XsL(m') + Outside(up, a, b), XsL(m));
  }

  lemma Cancel<T>(a: multiset<T>, b: multiset<T>, c: multiset<T>)
    requires a + c == b + c
    ensures a == b
  {
    assert a == a + c - c && b == b + c - c;
  }

  lemma {:induction false} PlugRef(up: Ctx, s: Shape, t: Shape)
    requires RefOf(s) == RefOf(t)
    ensures RefOf(Plug(up, s)) == RefOf(Plug(up, t))
  {
    if up.In? { PlugRef(up.up, Nd(up.x, up.ls + [s] + up.rs), Nd(up.x, up.ls + [t] + up.rs)); }
  }

  /** st after the children m of p are replaced by m' and the index pages become ys. */
  ghost function Rewritten(st: St, ys: XMap, up: Ctx, p: XPage, a: seq<Shape>, m': seq<Shape>, b: seq<Shape>): St {
    st.(xs := ys, shape := Plug(up, Nd(p, a + m' + b)))
  }

  /** The pages ys agree with the new children m' and with everything outside. */
  ghost predicate Fits(st: St, ys: XMap, up: Ctx, p: XPage, a: seq<Shape>, m: seq<Shape>, m': seq<Shape>, b: seq<Shape>)
    requires Depth(up) < st.h && |m| > 0
  {
    && |m'| > 0
    && p in ys
    && ys[p] == PageOf(a + m' + b)
    && First(m'[0]) == First(m[0])
    && AllWF(ys, m', st.h - Depth(up) - 1)
    && Agree(st.xs, ys, Outside(up, a, b))
    && multiset(ys.Keys) + XsL(m) == multiset(st.xs.Keys) + XsL(m')
  }

  lemma {:induction false} RewriteKeeps(st: St, ys: XMap, up: Ctx, p: XPage, a: seq<Shape>, m: seq<Shape>,
                                        m': seq<Shape>, b: seq<Shape>)
    requires Struct(st) && AtKids(st, up, p, a, m, b) && Fits(st, ys, up, p, a, m, m', b)
    ensures var st' := Rewritten(st, ys, up, p, a, m', b);
            WF(ys, st'.shape, st'.h) && Xs(st'.shape) == multiset(ys.Keys) && st'.root == RefOf(st'.shape)
  {
    SpliceWF(st.xs, ys, up, p, a, m, m', b, st.h);
    RewriteXs(st.xs, ys, up, p, a, m, m', b);
    PlugRef(up, Nd(p, a + m + b), Nd(p, a + m' + b));
  }

  /** A rewriting of index pages alone keeps the structure. */
  lemma {:induction false} IndexRewrite(st: St, ys: XMap, up: Ctx, p: XPage, a: seq<Shape>, m: seq<Shape>,
                                        m': seq<Shape>, b: seq<Shape>)
    requires Struct(st) && AtKids(st, up, p, a, m, b) && Fits(st, ys, up, p, a, m, m', b)
    requires LeavesL(m') == LeavesL(m)
    ensures Struct(Rewritten(st, ys, up, p, a, m', b))
    ensures LvsOf(Rewritten(st, ys, up, p, a, m', b)) == LvsOf(st)
  {
    RewriteKeeps(st, ys, up, p, a, m, m', b);
    SpliceLeaves(up, p, a, m, b);
    SpliceLeaves(up, p, a, m', b);
  }

  lemma {:induction false} LeavesLPair(s: Shape, t: Shape)
    ensures LeavesL([s, t]) == Leaves(s) + Leaves(t) && XsL([s, t]) == Xs(s) + Xs(t)
  {
    assert [s, t] == [s] + [t];
    LeavesLConcat([s], [t]);
    LeavesLSingle(s);
    LeavesLSingle(t);
  }

  lemma {:induction false} KidsOfPair(xs: XMap, l: XPage, lk: seq<Shape>, q: XPage, qk: seq<Shape>, h: nat)
    requires WF(xs, Nd(l, lk), h) && WF(xs, Nd(q, qk), h)
    ensures h > 0 && |lk| > 0 && |qk| > 0 && xs[l] == PageOf(lk) && xs[q] == PageOf(qk)
    ensures AllWF(xs, lk + qk, h - 1)
  {
    AllConcat(xs, lk, qk, h - 1);
  }

  lemma {:induction false} PairWF(ys: XMap, l: XPage, lk: seq<Shape>, q: XPage, qk: seq<Shape>, h: nat)
    requires h > 0 && |lk| > 0 && |qk| > 0 && l in ys && ys[l] == PageOf(lk) && q in ys && ys[q] == PageOf(qk)
    requires AllWF(ys, lk + qk, h - 1)
    ensures WF(ys, Nd(l, lk), h) && WF(ys, Nd(q, qk), h)
  {
    AllConcat(ys, lk, qk, h - 1);
  }

  lemma {:induction false} DealLeaves(l: XPage, lk: seq<Shape>, q: XPage, qk: seq<Shape>)
    ensures LeavesL([Nd(l, lk), Nd(q, qk)]) == LeavesL(lk + qk)
  {
    LeavesLPair(Nd(l, lk), Nd(q, qk));
    LeavesLConcat(lk, qk);
    assert Leaves(Nd(l, lk)) == LeavesL(lk) && Leaves(Nd(q, qk)) == LeavesL(qk);
  }

  lemma {:induction false} DealXs(l: XPage, lk: seq<Shape>, q: XPage, qk: seq<Shape>)
    ensures XsL([Nd(l, lk), Nd(q, qk)]) == multiset{l} + multiset{q} + XsL(lk + qk)
  {
    LeavesLPair(Nd(l, lk), Nd(q, qk));
    LeavesLConcat(lk, qk);
    assert Xs(Nd(l, lk)) == multiset{l} + XsL(lk) && Xs(Nd(q, qk)) == multiset{q} + XsL(qk);
  }

  lemma {:induction false} Agree3(xs: XMap, l: XPage, lv: XVal, q: XPage, qv: XVal, p: XPage, pv: XVal,
                                  on: multiset<XPage>)
    requires l !in on && q !in on && p !in on
    ensures Agree(xs, xs[l := lv][q := qv][p := pv], on)
  {
  }

  lemma {:induction false} DealWF(xs: XMap, l: XPage, lk: seq<Shape>, q: XPage, qk: seq<Shape>, p: XPage, pv: XVal,
                                  lk': seq<Shape>, qk': seq<Shape>, h: nat)
    requires WF(xs, Nd(l, lk), h) && WF(xs, Nd(q, qk), h)
    requires lk + qk == lk' + qk' && |lk'| > 0 && |qk'| > 0
    requires l != q && p != l && p != q
    requires l !in XsL(lk + qk) && q !in XsL(lk + qk) && p !in XsL(lk + qk)
    ensures AllWF(xs[l := PageOf(lk')][q := PageOf(qk')][p := pv], [Nd(l, lk'), Nd(q, qk')], h)
    ensures First(Nd(l, lk')) == First(Nd(l, lk))
  {
    var ys := xs[l := PageOf(lk')][q := PageOf(qk')][p := pv];
    KidsOfPair(xs, l, lk, q, qk, h);
    Agree3(xs, l, PageOf(lk'), q, PageOf(qk'), p, pv, XsL(lk + qk));
    FrameKids(xs, ys, lk + qk, h - 1);
    PairWF(ys, l, lk', q, qk', h);
    assert lk'[0] == (lk + qk)[0] == lk[0];
  }

  // Two neighbouring index pages, their children and their parent are all different pages.
  lemma {:induction false} PairApart(st: St, up: Ctx, p: XPage, a: seq<Shape>, b: seq<Shape>, l: XPage, lk: seq<Shape>,
                                     q: XPage, qk: seq<Shape>)
    requires Struct(st) && AtKids(st, up, p, a, [Nd(l, lk), Nd(q, qk)], b)
    ensures WF(st.xs, Nd(l, lk), st.h - Depth(up) - 1) && WF(st.xs, Nd(q, qk), st.h - Depth(up) - 1)
    ensures l in st.xs && q in st.xs && l != q && p != l && p != q
    ensures l !in XsL(lk + qk) && q !in XsL(lk + qk) && p !in XsL(lk + qk)
    ensures l !in Outside(up, a, b) && q !in Outside(up, a, b) && p !in Outside(up, a, b)
    ensures multiset(st.xs.Keys) == multiset{p} + XsL([Nd(l, lk), Nd(q, qk)]) + Outside(up, a, b)
  {
    var m := [Nd(l, lk), Nd(q, qk)];
    KidWF(st, up, p, a, m, b, 0);
    KidWF(st, up, p, a, m, b, 1);
    Apart(st, up, p, a, m, b);
    DealXs(l, lk, q, qk);
    assert XsL(m)[l] == 1 && XsL(m)[q] == 1;
  }

  lemma {:induction false} ShiftFits(st: St, up: Ctx, p: XPage, a: seq<Shape>, b: seq<Shape>,
                                     l: XPage, lk: seq<Shape>, q: XPage, qk: seq<Shape>, lk': seq<Shape>,
                                     qk': seq<Shape>)
    requires Depth(up) < st.h && p in st.xs && l in st.xs && q in st.xs
    requires WF(st.xs, Nd(l, lk), st.h - Depth(up) - 1) && WF(st.xs, Nd(q, qk), st.h - Depth(up) - 1)
    requires lk + qk == lk' + qk' && |lk'| > 0 && |qk'| > 0
    requires l != q && p != l && p != q
    requires l !in XsL(lk + qk) && q !in XsL(lk + qk) && p !in XsL(lk + qk)
    requires l !in Outside(up, a, b) && q !in Outside(up, a, b) && p !in Outside(up, a, b)
    ensures var pv := PageOf(a + [Nd(l, lk'), Nd(q, qk')] + b);
            Fits(st, st.xs[l := PageOf(lk')][q := PageOf(qk')][p := pv], up, p, a, [Nd(l, lk), Nd(q, qk)],
              [Nd(l, lk'), Nd(q, qk')], b)
  {
    var pv := PageOf(a + [Nd(l, lk'), Nd(q, qk')] + b);
    var ys := st.xs[l := PageOf(lk')][q := PageOf(qk')][p := pv];
    DealWF(st.xs, l, lk, q, qk, p, pv, lk', qk', st.h - Depth(up) - 1);
    Agree3(st.xs, l, PageOf(lk'), q, PageOf(qk'), p, pv, Outside(up, a, b));
    DealXs(l, lk, q, qk);
    DealXs(l, lk', q, qk');
    assert ys.Keys == st.xs.Keys;
  }

  /** The children of two neighbouring index pages are dealt out anew (underflowX, lines 580-604). */
  lemma {:induction false} ShiftKeeps(st: St, ys: XMap, up: Ctx, p: XPage, a: seq<Shape>, b: seq<Shape>,
                                      l: XPage, lk: seq<Shape>, q: XPage, qk: seq<Shape>, lk': seq<Shape>,
                                      qk': seq<Shape>)
    requires Struct(st) && AtKids(st, up, p, a, [Nd(l, lk), Nd(q, qk)], b)
    requires lk + qk == lk' + qk' && |lk'| > 0 && |qk'| > 0
    requires ys == st.xs[l := PageOf(lk')][q := PageOf(qk')][p := PageOf(a + [Nd(l, lk'), Nd(q, qk')] + b)]
    ensures var st' := Rewritten(st, ys, up, p, a, [Nd(l, lk'), Nd(q, qk')], b);
            Struct(st') && LvsOf(st') == LvsOf(st)
  {
    PairApart(st, up, p, a, b, l, lk, q, qk);
    ShiftFits(st, up, p, a, b, l, lk, q, qk, lk', qk');
    DealLeaves(l, lk, q, qk);
    DealLeaves(l, lk', q, qk');
    IndexRewrite(st, ys, up, p, a, [Nd(l, lk), Nd(q, qk)], [Nd(l, lk'), Nd(q, qk')], b);
  }

  lemma {:induction false} ShiftPage(a: seq<Shape>, m: seq<Shape>, m': seq<Shape>, b: seq<Shape>)
    requires |m| == |m'| == 2 && RefOf(m'[0]) == RefOf(m[0]) && RefOf(m'[1]) == RefOf(m[1]) &&
             First(m'[0]) == First(m[0])
    ensures PageOf(a + m' + b) == PageOf(a + m + b).(seps := PageOf(a + m + b).seps[|a| := First(m'[1])])
  {
    var ks := a + m + b;
    PageShift(ks, |a|, m'[0], m'[1]);
    assert ks[..|a|] + [m'[0], m'[1]] + ks[|a| + 2..] == a + m' + b;
  }

  // Merging two neighbouring index pages (catX).

  lemma {:induction false} MergeWF(xs: XMap, l: XPage, lk: seq<Shape>, q: XPage, qk: seq<Shape>, p: XPage, pv: XVal,
                                   h: nat)
    requires WF(xs, Nd(l, lk), h) && WF(xs, Nd(q, qk), h) && l != q && p != l && p != q
    requires l !in XsL(lk + qk) && q !in XsL(lk + qk) && p !in XsL(lk + qk)
    ensures |lk + qk| > 0 && First(Nd(l, lk + qk)) == First(Nd(l, lk))
    ensures AllWF((xs - {q})[l := PageOf(lk + qk)][p := pv], [Nd(l, lk + qk)], h)
  {
    KidsOfPair(xs, l, lk, q, qk, h);
    var ys := (xs - {q})[l := PageOf(lk + qk)][p := pv];
    AgreeDrop(xs, q, l, PageOf(lk + qk), p, pv, XsL(lk + qk));
    FrameKids(xs, ys, lk + qk, h - 1);
    assert WF(ys, Nd(l, lk + qk), h);
    assert (lk + qk)[0] == lk[0];
  }

  lemma {:induction false} MergeXs(xs: XMap, ys: XMap, l: XPage, lk: seq<Shape>, q: XPage, qk: seq<Shape>)
    requires q in xs && ys.Keys == xs.Keys - {q}
    ensures multiset(ys.Keys) + XsL([Nd(l, lk), Nd(q, qk)]) == multiset(xs.Keys) + XsL([Nd(l, lk + qk)])
  {
    DealXs(l, lk, q, qk);
    LeavesLSingle(Nd(l, lk + qk));
    assert Xs(Nd(l, lk + qk)) == multiset{l} + XsL(lk + qk);
    assert multiset(ys.Keys) + multiset{q} == multiset(xs.Keys);
  }

  lemma {:induction false} MergeFits(st: St, up: Ctx, p: XPage, a: seq<Shape>, b: seq<Shape>, l: XPage, lk: seq<Shape>,
                                     q: XPage, qk: seq<Shape>)
    requires Depth(up) < st.h && p in st.xs && l in st.xs && q in st.xs
    requires WF(st.xs, Nd(l, lk), st.h - Depth(up) - 1) && WF(st.xs, Nd(q, qk), st.h - Depth(up) - 1)
    requires l != q && p != l && p != q
    requires l !in XsL(lk + qk) && q !in XsL(lk + qk) && p !in XsL(lk + qk)
    requires l !in Outside(up, a, b) && q !in Outside(up, a, b) && p !in Outside(up, a, b)
    ensures |lk + qk| > 0
    ensures var pv := PageOf(a + [Nd(l, lk + qk)] + b);
            Fits(st, (st.xs - {q})[l := PageOf(lk + qk)][p := pv], up, p, a, [Nd(l, lk), Nd(q, qk)], [Nd(l, lk + qk)],
              b)
  {
    var pv := PageOf(a + [Nd(l, lk + qk)] + b);
    MergeWF(st.xs, l, lk, q, qk, p, pv, st.h - Depth(up) - 1);
    AgreeDrop(st.xs, q, l, PageOf(lk + qk), p, pv, Outside(up, a, b));
    MergeXs(st.xs, (st.xs - {q})[l := PageOf(lk + qk)][p := pv], l, lk, q, qk);
  }

  lemma {:induction false} AgreeDrop(xs: XMap, q: XPage, l: XPage, lv: XVal, p: XPage, pv: XVal, on: multiset<XPage>)
    requires l !in on && q !in on && p !in on
    ensures Agree(xs, (xs - {q})[l := lv][p := pv], on)
  {
  }

  lemma {:induction false} MergeKeeps(st: St, ys: XMap, up: Ctx, p: XPage, a: seq<Shape>, b: seq<Shape>, l: XPage,
                                      lk: seq<Shape>, q: XPage, qk: seq<Shape>)
    requires Struct(st) && AtKids(st, up, p, a, [Nd(l, lk), Nd(q, qk)], b) && |lk + qk| > 0
    requires ys == (st.xs - {q})[l := PageOf(lk + qk)][p := PageOf(a + [Nd(l, lk + qk)] + b)]
    ensures var st' := Rewritten(st, ys, up, p, a, [Nd(l, lk + qk)], b);
            Struct(st') && LvsOf(st') == LvsOf(st)
  {
    PairApart(st, up, p, a, b, l, lk, q, qk);
    MergeFits(st, up, p, a, b, l, lk, q, qk);
    DealLeaves(l, lk, q, qk);
    LeavesLSingle(Nd(l, lk + qk));
    IndexRewrite(st, ys, up, p, a, [Nd(l, lk), Nd(q, qk)], [Nd(l, lk + qk)], b);
  }

  // Splitting an index page (splitX).

  lemma {:induction false} SplitApart(st: St, up: Ctx, p: XPage, a: seq<Shape>, b: seq<Shape>, z: XPage, zk: seq<Shape>)
    requires Struct(st) && AtKids(st, up, p, a, [Nd(z, zk)], b)
    ensures WF(st.xs, Nd(z, zk), st.h - Depth(up) - 1) && z in st.xs && p != z
    ensures z !in XsL(zk) && p !in XsL(zk)
    ensures z !in Outside(up, a, b) && p !in Outside(up, a, b)
    ensures forall x :: x in XsL(zk) || x in Outside(up, a, b) ==> x in st.xs
  {
    var m := [Nd(z, zk)];
    KidWF(st, up, p, a, m, b, 0);
    Apart(st, up, p, a, m, b);
    LeavesLSingle(m[0]);
    assert XsL(m)[z] == 1;
    forall x | x in XsL(zk) || x in Outside(up, a, b) ensures x in st.xs {
      assert x in multiset(st.xs.Keys);
    }
  }

  lemma {:induction false} SplitWF(xs: XMap, z: XPage, lk: seq<Shape>, r: XPage, rk: seq<Shape>, p: XPage, pv: XVal,
                                   h: nat)
    requires WF(xs, Nd(z, lk + rk), h) && |lk| > 0 && |rk| > 0 && z != r && p != z && p != r
    requires z !in XsL(lk + rk) && r !in XsL(lk + rk) && p !in XsL(lk + rk)
    ensures First(Nd(z, lk)) == First(Nd(z, lk + rk))
    ensures AllWF(xs[z := PageOf(lk)][r := PageOf(rk)][p := pv], [Nd(z, lk), Nd(r, rk)], h)
  {
    var ys := xs[z := PageOf(lk)][r := PageOf(rk)][p := pv];
    Agree3(xs, z, PageOf(lk), r, PageOf(rk), p, pv, XsL(lk + rk));
    assert AllWF(xs, lk + rk, h - 1);
    FrameKids(xs, ys, lk + rk, h - 1);
    PairWF(ys, z, lk, r, rk, h);
    assert (lk + rk)[0] == lk[0];
  }

  lemma {:induction false} SplitXs(xs: XMap, ys: XMap, z: XPage, lk: seq<Shape>, r: XPage, rk: seq<Shape>)
    requires r !in xs && ys.Keys == xs.Keys + {r}
    ensures multiset(ys.Keys) + XsL([Nd(z, lk + rk)]) == multiset(xs.Keys) + XsL([Nd(z, lk), Nd(r, rk)])
  {
    DealXs(z, lk, r, rk);
    LeavesLSingle(Nd(z, lk + rk));
    assert Xs(Nd(z, lk + rk)) == multiset{z} + XsL(lk + rk);
    assert multiset(ys.Keys) == multiset(xs.Keys) + multiset{r};
  }

  lemma {:induction false} SplitFits(st: St, up: Ctx, p: XPage, a: seq<Shape>, b: seq<Shape>, z: XPage, lk: seq<Shape>,
                                     r: XPage, rk: seq<Shape>)
    requires Depth(up) < st.h && p in st.xs && z in st.xs && r !in st.xs && |lk| > 0 && |rk| > 0
    requires WF(st.xs, Nd(z, lk + rk), st.h - Depth(up) - 1) && p != z
    requires z !in XsL(lk + rk) && r !in XsL(lk + rk) && p !in XsL(lk + rk)
    requires z !in Outside(up, a, b) && r !in Outside(up, a, b) && p !in Outside(up, a, b)
    ensures var pv := PageOf(a + [Nd(z, lk), Nd(r, rk)] + b);
            Fits(st, st.xs[z := PageOf(lk)][r := PageOf(rk)][p := pv], up, p, a, [Nd(z, lk + rk)],
              [Nd(z, lk), Nd(r, rk)], b)
  {
    var pv := PageOf(a + [Nd(z, lk), Nd(r, rk)] + b);
    SplitWF(st.xs, z, lk, r, rk, p, pv, st.h - Depth(up) - 1);
    Agree3(st.xs, z, PageOf(lk), r, PageOf(rk), p, pv, Outside(up, a, b));
    SplitXs(st.xs, st.xs[z := PageOf(lk)][r := PageOf(rk)][p := pv], z, lk, r, rk);
  }

  lemma {:induction false} SplitKeeps(st: St, ys: XMap, up: Ctx, p: XPage, a: seq<Shape>, b: seq<Shape>, z: XPage,
                                      lk: seq<Shape>, r: XPage, rk: seq<Shape>)
    requires Struct(st) && AtKids(st, up, p, a, [Nd(z, lk + rk)], b) && r !in st.xs && |lk| > 0 && |rk| > 0
    requires ys == st.xs[z := PageOf(lk)][r := PageOf(rk)][p := PageOf(a + [Nd(z, lk), Nd(r, rk)] + b)]
    ensures var st' := Rewritten(st, ys, up, p, a, [Nd(z, lk), Nd(r, rk)], b);
            Struct(st') && LvsOf(st') == LvsOf(st)
  {
    SplitApart(st, up, p, a, b, z, lk + rk);
    SplitFits(st, up, p, a, b, z, lk, r, rk);
    DealLeaves(z, lk, r, rk);
    LeavesLSingle(Nd(z, lk + rk));
    IndexRewrite(st, ys, up, p, a, [Nd(z, lk + rk)], [Nd(z, lk), Nd(r, rk)], b);
  }

  // Growing and shrinking at the root.

  lemma {:induction false} GrowWF(xs: XMap, s: Shape, h: nat, x: XPage)
    requires WF(xs, s, h) && Xs(s) == multiset(xs.Keys) && x !in xs
    ensures var ys := xs[x := PageOf([s])];
            WF(ys, Nd(x, [s]), h + 1) && Xs(Nd(x, [s])) == multiset(ys.Keys)
  {
    var ys := xs[x := PageOf([s])];
    LeavesLSingle(s);
    assert x !in multiset(xs.Keys);
    WFFrame(xs, ys, s, h);
    assert multiset(ys.Keys) == multiset(xs.Keys) + multiset{x};
  }

  lemma {:induction false} GrowKeeps(st: St, x: XPage, ys: XMap)
    requires Struct(st) && x !in st.xs && ys == st.xs[x := PageOf([st.shape])]
    ensures var st' := st.(xs := ys, shape := Nd(x, [st.shape]), root := XR(x), h := st.h + 1);
            Struct(st') && LvsOf(st') == LvsOf(st)
  {
    GrowWF(st.xs, st.shape, st.h, x);
    LeavesLSingle(st.shape);
  }

  lemma {:induction false} ShrinkWF(xs: XMap, p: XPage, s: Shape, h: nat)
    requires WF(xs, Nd(p, [s]), h) && Xs(Nd(p, [s])) == multiset(xs.Keys)
    ensures h > 0 && WF(xs - {p}, s, h - 1) && Xs(s) == multiset((xs - {p}).Keys)
  {
    LeavesLSingle(s);
    assert WF(xs, [s][0], h - 1);
    assert multiset(xs.Keys)[p] == 1;
    assert p !in Xs(s);
    WFFrame(xs, xs - {p}, s, h - 1);
    assert multiset((xs - {p}).Keys) + multiset{p} == multiset(xs.Keys);
    Cancel(multiset((xs - {p}).Keys), Xs(s), multiset{p});
  }

  lemma {:induction false} ShrinkKeeps(st: St, p: XPage, s: Shape)
    requires Struct(st) && st.shape == Nd(p, [s])
    ensures st.h > 0
    ensures var st' := st.(xs := st.xs - {p}, shape := s, root := RefOf(s), h := st.h - 1);
            Struct(st') && LvsOf(st') == LvsOf(st)
  {
    ShrinkWF(st.xs, p, s, st.h);
    LeavesLSingle(s);
  }
}
