// What the page writes of each restructuring step amount to.

module BTreeSteps {
  import opened SeqOps
  import opened BTreePages
  import opened BTreeShape
  import opened BTreeInv

  // splitX

  lemma {:induction false} HalfPages(zk: seq<Shape>, n: nat)
    requires 0 < n < |zk|
    ensures PageOf(zk[..n]) == XVal(PageOf(zk).chs[..n], PageOf(zk).seps[..n - 1])
    ensures PageOf(zk[n..]) == XVal(PageOf(zk).chs[n..], PageOf(zk).seps[n..])
    ensures PageOf(zk).seps[n - 1] == First(zk[n])
  {
    assert zk == zk[..n] + zk[n..];
    PageConcat(zk[..n], zk[n..]);
  }

  lemma {:induction false} SplitPage(a: seq<Shape>, z: XPage, zk: seq<Shape>, b: seq<Shape>, n: nat, r: XPage)
    requires 0 < n < |zk|
    ensures var v := PageOf(a + [Nd(z, zk)] + b);
            PageOf(a + [Nd(z, zk[..n]), Nd(r, zk[n..])] + b) ==
              XVal(InsAt(v.chs, |a| + 1, XR(r)), InsAt(v.seps, |a|, First(zk[n])))
  {
    var ks := a + [Nd(z, zk)] + b;
    assert ks[..|a|] == a && ks[|a| + 1..] == b && ks[|a|] == Nd(z, zk);
    PageInsert(ks, |a|, Nd(z, zk[..n]), Nd(r, zk[n..]));
  }

  lemma {:induction false} SplitReady(st: St, up: Ctx, p: XPage, a: seq<Shape>, b: seq<Shape>, z: XPage, zk: seq<Shape>)
    requires Struct(st) && st.shape == Plug(up, Nd(p, a + [Nd(z, zk)] + b))
    ensures p in st.xs && |st.xs[p].seps| == |a| + |b| && |st.xs[p].chs| == |a| + |b| + 1
    ensures z in st.xs && p != z && |zk| > 0 && st.xs[z] == PageOf(zk) && |st.xs[z].chs| == |zk| &&
            |st.xs[z].seps| == |zk| - 1
  {
    hide Struct, PageOf;
    AtKidsIntro(st, up, p, a, [Nd(z, zk)], b);
    NodeAt(st, up, p, a + [Nd(z, zk)] + b);
    SplitApart(st, up, p, a, b, z, zk);
    NodePage(st.xs, z, zk, st.h - Depth(up) - 1);
  }

  /** Moving the upper children of z into r and entering r in p splits z. */
  lemma {:induction false} SplitDone(st: St, up: Ctx, p: XPage, a: seq<Shape>, b: seq<Shape>, z: XPage, zk: seq<Shape>,
                                     r: XPage, ys: XMap)
    requires Struct(st) && st.shape == Plug(up, Nd(p, a + [Nd(z, zk)] + b)) && r !in st.xs && |zk| == 2 * kx + 2
    requires z in st.xs && |st.xs[z].chs| == 2 * kx + 2 && |st.xs[z].seps| == 2 * kx + 1
    requires p in st.xs && |a| <= |st.xs[p].seps| == |st.xs[p].chs| - 1
    requires ys == st.xs[r := XVal([Nil], [])]
                       [z := XVal(st.xs[z].chs[..kx + 1], st.xs[z].seps[..kx])]
                       [r := XVal(st.xs[z].chs[kx + 1..], st.xs[z].seps[kx + 1..])]
                       [p := XVal(InsAt(st.xs[p].chs, |a| + 1, XR(r)), InsAt(st.xs[p].seps, |a|, st.xs[z].seps[kx]))]
    ensures ys == st.xs[z := PageOf(zk[..kx + 1])][r := PageOf(zk[kx + 1..])]
                       [p := PageOf(a + [Nd(z, zk[..kx + 1]), Nd(r, zk[kx + 1..])] + b)]
    ensures var st' := Rewritten(st, ys, up, p, a, [Nd(z, zk[..kx + 1]), Nd(r, zk[kx + 1..])], b);
            Struct(st') && LvsOf(st') == LvsOf(st)
  {
    hide Struct, PageOf;
    AtKidsIntro(st, up, p, a, [Nd(z, zk)], b);
    SplitApart(st, up, p, a, b, z, zk);
    NodePage(st.xs, z, zk, st.h - Depth(up) - 1);
    HalfPages(zk, kx + 1);
    SplitPage(a, z, zk, b, kx + 1, r);
    assert zk == zk[..kx + 1] + zk[kx + 1..];
    SplitKeeps(st, ys, up, p, a, b, z, zk[..kx + 1], r, zk[kx + 1..]);
  }

  lemma {:induction false} NodePage(xs: XMap, z: XPage, zk: seq<Shape>, h: nat)
    requires WF(xs, Nd(z, zk), h)
    ensures z in xs && |zk| > 0 && xs[z] == PageOf(zk) && |xs[z].chs| == |zk| && |xs[z].seps| == |zk| - 1
  {
  }

  lemma {:induction false} SplitOcc(xs: XMap, ys: XMap, root: Ref, z: XPage, lv: XVal, r: XPage, rv: XVal, p: XPage,
                                    pv: XVal)
    requires XOcc(xs, root) && p in xs && ys == xs[z := lv][r := rv][p := pv]
    requires |lv.seps| == kx && |rv.seps| == kx && |pv.seps| == |xs[p].seps| + 1 <= 2 * kx + 1
    ensures XOcc(ys, root)
  {
  }

  lemma {:induction false} RootRef(st: St)
    requires Struct(st)
    ensures st.root == RefOf(st.shape)
  {
  }

  lemma {:induction false} NodeAt(st: St, up: Ctx, p: XPage, ks: seq<Shape>)
    requires Struct(st) && st.shape == Plug(up, Nd(p, ks))
    ensures Depth(up) < st.h && p in st.xs && |ks| > 0 && st.xs[p] == PageOf(ks)
    ensures |st.xs[p].chs| == |ks| && |st.xs[p].seps| == |ks| - 1
  {
    PlugWF(st.xs, up, Nd(p, ks), st.h);
  }

  lemma {:induction false} SplitOccRoot(xs: XMap, pv0: XVal, ys: XMap, z: XPage, lv: XVal, r: XPage, rv: XVal,
                                        p: XPage, pv: XVal)
    requires XOcc(xs, XR(z)) && p !in xs && r !in xs && ys == xs[p := pv0][z := lv][r := rv][p := pv]
    requires |lv.seps| == kx && |rv.seps| == kx && |pv.seps| == 1 && p != z && p != r && z != r
    ensures XOcc(ys, XR(p))
  {
  }

  /** Two neighbouring subtrees, each with the other in its surroundings. */
  lemma {:induction false} PlugPair(up: Ctx, p: XPage, a: seq<Shape>, s: Shape, t: Shape, b: seq<Shape>)
    ensures Plug(In(up, p, a, [t] + b), s) == Plug(up, Nd(p, a + [s, t] + b))
    ensures Plug(In(up, p, a + [s], b), t) == Plug(up, Nd(p, a + [s, t] + b))
  {
    assert a + [s] + ([t] + b) == a + [s, t] + b;
    assert (a + [s]) + [t] + b == a + [s, t] + b;
  }

  // underflowX and catX

  lemma {:induction false} SepAt(a: seq<Shape>, m: seq<Shape>, b: seq<Shape>)
    requires |m| == 2
    ensures PageOf(a + m + b).seps[|a|] == First(m[1]) && |PageOf(a + m + b).seps| == |a| + |b| + 1 &&
            |PageOf(a + m + b).chs| == |a| + |b| + 2
  {
    assert (a + m + b)[|a| + 1] == m[1];
  }

  lemma {:induction false} PairReady(st: St, up: Ctx, p: XPage, a: seq<Shape>, b: seq<Shape>, l: XPage, lk: seq<Shape>,
                                     q: XPage, qk: seq<Shape>)
    requires Struct(st) && st.shape == Plug(up, Nd(p, a + [Nd(l, lk), Nd(q, qk)] + b))
    ensures p in st.xs && |st.xs[p].seps| == |a| + |b| + 1 && |st.xs[p].chs| == |a| + |b| + 2
    ensures |lk| > 0 && l in st.xs && st.xs[l] == PageOf(lk) && |st.xs[l].chs| == |lk| && |st.xs[l].seps| == |lk| - 1
    ensures |qk| > 0 && q in st.xs && st.xs[q] == PageOf(qk) && |st.xs[q].chs| == |qk| && |st.xs[q].seps| == |qk| - 1
    ensures l != q && p != l && p != q
    ensures st.xs[p] == PageOf(a + [Nd(l, lk), Nd(q, qk)] + b) && st.xs[p].seps[|a|] == First(qk[0])
    ensures AtKids(st, up, p, a, [Nd(l, lk), Nd(q, qk)], b) && Depth(up) < st.h
  {
    hide Struct, PageOf;
    var m := [Nd(l, lk), Nd(q, qk)];
    AtKidsIntro(st, up, p, a, m, b);
    NodeAt(st, up, p, a + m + b);
    PairApart(st, up, p, a, b, l, lk, q, qk);
    NodePage(st.xs, l, lk, st.h - Depth(up) - 1);
    NodePage(st.xs, q, qk, st.h - Depth(up) - 1);
    SepAt(a, m, b);
    assert First(m[1]) == First(qk[0]);
  }

  lemma {:induction false} PushFrontPage(s: Shape, qk: seq<Shape>)
    requires |qk| > 0
    ensures PageOf([s] + qk) == XVal([RefOf(s)] + PageOf(qk).chs, [First(qk[0])] + PageOf(qk).seps)
  {
    hide PageOf;
    PageConcat([s], qk);
    PageSingle(s);
    assert [] + [First(qk[0])] + PageOf(qk).seps == [First(qk[0])] + PageOf(qk).seps;
  }

  lemma {:induction false} PushBackPage(qk: seq<Shape>, s: Shape)
    requires |qk| > 0
    ensures PageOf(qk + [s]) == XVal(PageOf(qk).chs + [RefOf(s)], PageOf(qk).seps + [First(s)])
  {
    hide PageOf;
    PageConcat(qk, [s]);
    PageSingle(s);
    assert PageOf(qk).seps + [First(s)] + [] == PageOf(qk).seps + [First(s)];
  }

  lemma {:induction false} LastOf(zk: seq<Shape>)
    requires |zk| > 0
    ensures PageOf(zk).chs[|zk| - 1] == RefOf(zk[|zk| - 1]) && PageOf(zk).chs[0] == RefOf(zk[0]) &&
            |PageOf(zk).chs| == |zk|
  {
  }

  /** The last child of l moves to the front of q. */
  lemma {:induction false} LeftDone(st: St, up: Ctx, p: XPage, a: seq<Shape>, b: seq<Shape>, l: XPage, lk: seq<Shape>,
                                    q: XPage, qk: seq<Shape>, ys: XMap)
    requires Struct(st) && st.shape == Plug(up, Nd(p, a + [Nd(l, lk), Nd(q, qk)] + b)) && |lk| > 1
    requires p in st.xs && l in st.xs && q in st.xs && p != l && p != q && l != q
    requires |st.xs[l].chs| == |lk| && |st.xs[l].seps| == |lk| - 1 && |st.xs[p].seps| == |a| + |b| + 1
    requires ys == st.xs[q := XVal([st.xs[l].chs[|lk| - 1]] + st.xs[q].chs, [st.xs[p].seps[|a|]] + st.xs[q].seps)]
                       [l := XVal(st.xs[l].chs[..|lk| - 1], st.xs[l].seps[..|lk| - 2])]
                       [p := st.xs[p].(seps := st.xs[p].seps[|a| := st.xs[l].seps[|lk| - 2]])]
    ensures |qk| > 0
    ensures var lk', qk' := lk[..|lk| - 1], [lk[|lk| - 1]] + qk;
            && ys == st.xs[l := PageOf(lk')][q := PageOf(qk')][p := PageOf(a + [Nd(l, lk'), Nd(q, qk')] + b)]
            && Struct(Rewritten(st, ys, up, p, a, [Nd(l, lk'), Nd(q, qk')], b))
            && LvsOf(Rewritten(st, ys, up, p, a, [Nd(l, lk'), Nd(q, qk')], b)) == LvsOf(st)
  {
    hide Struct, PageOf, AtKids;
    PairReady(st, up, p, a, b, l, lk, q, qk);
    var n := |lk| - 1;
    var lk', qk' := lk[..n], [lk[n]] + qk;
    HalfPages(lk, n);
    LastOf(lk);
    PushFrontPage(lk[n], qk);
    ShiftPage(a, [Nd(l, lk), Nd(q, qk)], [Nd(l, lk'), Nd(q, qk')], b);
    assert First(Nd(q, qk')) == First(lk[n]);
    assert lk + qk == lk' + qk';
    ShiftKeeps(st, ys, up, p, a, b, l, lk, q, qk, lk', qk');
  }

  /** The first child of q moves to the end of l. */
  lemma {:induction false} RightDone(st: St, up: Ctx, p: XPage, a: seq<Shape>, b: seq<Shape>, l: XPage, lk: seq<Shape>,
                                     q: XPage, qk: seq<Shape>, ys: XMap)
    requires Struct(st) && st.shape == Plug(up, Nd(p, a + [Nd(l, lk), Nd(q, qk)] + b)) && |qk| > 1
    requires p in st.xs && l in st.xs && q in st.xs && p != l && p != q && l != q
    requires |st.xs[q].chs| == |qk| && |st.xs[q].seps| == |qk| - 1 && |st.xs[p].seps| == |a| + |b| + 1
    requires ys == st.xs[l := XVal(st.xs[l].chs + [st.xs[q].chs[0]], st.xs[l].seps + [st.xs[p].seps[|a|]])]
                       [p := st.xs[p].(seps := st.xs[p].seps[|a| := st.xs[q].seps[0]])]
                       [q := XVal(st.xs[q].chs[1..], st.xs[q].seps[1..])]
    ensures |lk| > 0
    ensures var lk', qk' := lk + [qk[0]], qk[1..];
            && ys == st.xs[l := PageOf(lk')][q := PageOf(qk')][p := PageOf(a + [Nd(l, lk'), Nd(q, qk')] + b)]
            && Struct(Rewritten(st, ys, up, p, a, [Nd(l, lk'), Nd(q, qk')], b))
            && LvsOf(Rewritten(st, ys, up, p, a, [Nd(l, lk'), Nd(q, qk')], b)) == LvsOf(st)
  {
    hide Struct, PageOf, AtKids;
    PairReady(st, up, p, a, b, l, lk, q, qk);
    var lk', qk' := lk + [qk[0]], qk[1..];
    HalfPages(qk, 1);
    LastOf(qk);
    PushBackPage(lk, qk[0]);
    ShiftPage(a, [Nd(l, lk), Nd(q, qk)], [Nd(l, lk'), Nd(q, qk')], b);
    assert First(Nd(q, qk')) == First(qk[1]);
    assert lk + qk == lk' + qk';
    ShiftKeeps(st, ys, up, p, a, b, l, lk, q, qk, lk', qk');
  }

  lemma {:induction false} MergePage(a: seq<Shape>, l: XPage, lk: seq<Shape>, q: XPage, qk: seq<Shape>, b: seq<Shape>)
    requires |lk| > 0
    ensures var v := PageOf(a + [Nd(l, lk), Nd(q, qk)] + b);
            |v.chs| == |a| + |b| + 2 && |v.seps| == |a| + |b| + 1
            && PageOf(a + [Nd(l, lk + qk)] + b) == XVal(DelAt(v.chs, |a| + 1), DelAt(v.seps, |a|))
  {
    var ks := a + [Nd(l, lk), Nd(q, qk)] + b;
    assert ks[..|a|] == a && ks[|a| + 2..] == b && ks[|a|] == Nd(l, lk);
    PageDrop(ks, |a|, Nd(l, lk + qk));
  }

  /** The children of q move to l, and p forgets q. */
  lemma {:induction false} MergeDone(st: St, up: Ctx, p: XPage, a: seq<Shape>, b: seq<Shape>, l: XPage, lk: seq<Shape>,
                                     q: XPage, qk: seq<Shape>, ys: XMap)
    requires Struct(st) && st.shape == Plug(up, Nd(p, a + [Nd(l, lk), Nd(q, qk)] + b))
    requires p in st.xs && l in st.xs && q in st.xs && p != l && p != q && l != q
    requires |st.xs[p].seps| == |a| + |b| + 1 && |st.xs[p].chs| == |a| + |b| + 2
    requires ys == (st.xs[l := XVal(st.xs[l].chs + st.xs[q].chs,
                                    st.xs[l].seps + [st.xs[p].seps[|a|]] + st.xs[q].seps)] - {q})
                       [p := XVal(DelAt(st.xs[p].chs, |a| + 1), DelAt(st.xs[p].seps, |a|))]
    ensures |lk| > 0
    ensures ys == (st.xs - {q})[l := PageOf(lk + qk)][p := PageOf(a + [Nd(l, lk + qk)] + b)]
    ensures var st' := Rewritten(st, ys, up, p, a, [Nd(l, lk + qk)], b);
            Struct(st') && LvsOf(st') == LvsOf(st)
  {
    hide Struct, PageOf, AtKids, DelAt;
    PairReady(st, up, p, a, b, l, lk, q, qk);
    PageConcat(lk, qk);
    MergePage(a, l, lk, q, qk, b);
    MergeKeeps(st, ys, up, p, a, b, l, lk, q, qk);
  }

  /** The last two index pages below the root merge and become the root. */
  lemma {:induction false} MergeRootDone(st: St, p: XPage, l: XPage, lk: seq<Shape>, q: XPage, qk: seq<Shape>, ys: XMap)
    requires Struct(st) && st.shape == Nd(p, [Nd(l, lk), Nd(q, qk)])
    requires p in st.xs && l in st.xs && q in st.xs && p != l && p != q && l != q && |st.xs[p].seps| == 1
    requires ys == st.xs[l := XVal(st.xs[l].chs + st.xs[q].chs,
                                   st.xs[l].seps + [st.xs[p].seps[0]] + st.xs[q].seps)] - {q} - {p}
    ensures |lk| > 0 && st.h > 0
    ensures ys == (st.xs - {q} - {p})[l := PageOf(lk + qk)]
    ensures var st' := st.(xs := ys, root := XR(l), shape := Nd(l, lk + qk), h := st.h - 1);
            Struct(st') && LvsOf(st') == LvsOf(st)
  {
    hide Struct, PageOf, AtKids;
    assert [] + [Nd(l, lk), Nd(q, qk)] + [] == [Nd(l, lk), Nd(q, qk)];
    assert [] + [Nd(l, lk + qk)] + [] == [Nd(l, lk + qk)];
    PairReady(st, Top, p, [], [], l, lk, q, qk);
    PageConcat(lk, qk);
    var zs := (st.xs - {q})[l := PageOf(lk + qk)][p := PageOf([] + [Nd(l, lk + qk)] + [])];
    MergeKeeps(st, zs, Top, p, [], [], l, lk, q, qk);
    ShrinkKeeps(Rewritten(st, zs, Top, p, [], [Nd(l, lk + qk)], []), p, Nd(l, lk + qk));
    assert ys == zs - {p};
  }

  lemma {:induction false} SizeOf(ks: seq<Shape>)
    requires |ks| > 0
    ensures |PageOf(ks).chs| == |ks| && |PageOf(ks).seps| == |ks| - 1
  {
  }

  lemma {:induction false} PlugTop(s: Shape)
    ensures Plug(Top, s) == s
  {
  }

  /** The root is the page in no other page. */
  lemma {:induction false} RootIs(st: St, cx: Ctx, s: Shape)
    requires Struct(st) && st.shape == Plug(cx, s) && !s.Void?
    ensures RefOf(s) == st.root <==> cx.Top?
  {
    if cx.In? && s.Nd? {
      PlugXs(cx, s);
      RootInCtx(cx, s);
      assert multiset(st.xs.Keys)[s.x] <= 1 && Xs(s)[s.x] >= 1;
    } else if cx.In? {
      RootInCtx(cx, s);
    }
  }

  lemma {:induction false} RootInCtx(cx: Ctx, s: Shape)
    requires cx.In?
    ensures Plug(cx, s).Nd? && Plug(cx, s).x in CtxXs(cx)
  {
    if cx.up.In? { RootInCtx(cx.up, Nd(cx.x, cx.ls + [s] + cx.rs)); }
  }

  lemma {:induction false} SiblingX(st: St, up: Ctx, p: XPage, ks: seq<Shape>, i: nat, j: nat)
    requires Struct(st) && st.shape == Plug(up, Nd(p, ks)) && i < |ks| && j < |ks| && ks[i].Nd?
    ensures ks[j].Nd? && p in st.xs && |st.xs[p].chs| == |ks| && st.xs[p].chs[j] == XR(ks[j].x)
  {
    PlugWF(st.xs, up, Nd(p, ks), st.h);
    assert WF(st.xs, ks[i], st.h - Depth(up) - 1) && WF(st.xs, ks[j], st.h - Depth(up) - 1);
  }

  lemma {:induction false} SiblingD(st: St, up: Ctx, p: XPage, ks: seq<Shape>, i: nat, j: nat)
    requires Struct(st) && st.shape == Plug(up, Nd(p, ks)) && i < |ks| && j < |ks| && ks[i].Lf?
    ensures ks[j].Lf? && p in st.xs && |st.xs[p].chs| == |ks| && st.xs[p].chs[j] == DR(ks[j].d)
  {
    PlugWF(st.xs, up, Nd(p, ks), st.h);
    assert WF(st.xs, ks[i], st.h - Depth(up) - 1) && WF(st.xs, ks[j], st.h - Depth(up) - 1);
  }

  lemma {:induction false} ShiftOcc(xs: XMap, ys: XMap, root: Ref, l: XPage, lv: XVal, q: XPage, qv: XVal, p: XPage,
                                    pv: XVal)
    requires XOcc(xs, root) && p in xs && ys == xs[l := lv][q := qv][p := pv] && l != p && q != p
    requires kx <= |lv.seps| <= 2 * kx + 1 && kx <= |qv.seps| <= 2 * kx + 1 && |pv.seps| == |xs[p].seps|
    ensures XOcc(ys, root)
  {
  }

  lemma {:induction false} MergeOcc(xs: XMap, ys: XMap, root: Ref, l: XPage, lv: XVal, q: XPage, p: XPage, pv: XVal)
    requires XOcc(xs, root) && p in xs && ys == (xs - {q})[l := lv][p := pv] && kx <= |lv.seps| <= 2 * kx + 1
    requires |pv.seps| == |xs[p].seps| - 1 > 0 && (XR(p) == root || |xs[p].seps| >= kx)
    ensures XOcc(ys, root)
  {
  }

  lemma {:induction false} MergeOccRoot(xs: XMap, ys: XMap, l: XPage, lv: XVal, q: XPage, p: XPage)
    requires XOcc(xs, XR(p)) && ys == (xs - {q} - {p})[l := lv] && kx <= |lv.seps| <= 2 * kx + 1
    ensures XOcc(ys, XR(l))
  {
  }

  lemma {:induction false} SepsMin(st: St, cx: Ctx, z: XPage, zk: seq<Shape>)
    requires Struct(st) && st.shape == Plug(cx, Nd(z, zk)) && XOcc(st.xs, st.root)
    ensures |zk| <= 2 * kx + 2 && (if cx.Top? then 2 else kx) <= |zk|
  {
    NodeAt(st, cx, z, zk);
    RootIs(st, cx, Nd(z, zk));
  }
}
