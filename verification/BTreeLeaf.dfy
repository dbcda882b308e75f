// Data pages: splitting, joining and refilling them in the chain of leaves.

module BTreeLeaf {
  import opened BTreePages
  import opened BTreeShape
  import opened BTreeInv

  // The chain after r is linked in behind q (split, lines 499-507).
  ghost function LinkIn(ds: DMap, q: DPage, r: DPage): DMap
    requires q in ds
  {
    var nx := ds[q].n;
    var d1 := if nx != null && nx in ds then ds[nx := ds[nx].(p := r)] else ds;
    d1[q := d1[q].(n := r)][r := DVal([], nx, q)]
  }

  // The chain after r, the page behind q, is taken out (cat, lines 169-174).
  ghost function LinkOut(ds: DMap, q: DPage, r: DPage): DMap
    requires q in ds && r in ds
  {
    var nx := ds[r].n;
    var d1 := if nx != null && nx in ds then ds[nx := ds[nx].(p := q)] else ds;
    d1[q := d1[q].(n := nx)] - {r}
  }

  lemma {:induction false} LinkAt(ds: DMap, l: seq<DPage>, first: DPage?, last: DPage?, i: nat)
    requires Links(ds, l, first, last) && i < |l|
    ensures l[i] in ds && ds[l[i]].n == Nxt(l, i) && ds[l[i]].p == Prv(l, i)
  {
    assert l[i] in l;
  }

  lemma {:induction false} LinkInKeeps(ds: DMap, a: seq<DPage>, q: DPage, r: DPage, b: seq<DPage>, first: DPage?,
                                       last: DPage?)
    requires Links(ds, a + [q] + b, first, last) && NoDup(a + [q] + b) && r !in ds
    ensures q in ds
    ensures Links(LinkIn(ds, q, r), a + [q, r] + b, first, if ds[q].n == null then r else last)
    ensures ds[q].n == null <==> b == []
  {
    var l, m := a + [q] + b, a + [q, r] + b;
    var j := |a|;
    LinkAt(ds, l, first, last, j);
    assert l[j] == q;
    var ds', last' := LinkIn(ds, q, r), if ds[q].n == null then r else last;
    assert b != [] ==> l[j + 1] == b[0] && l[j + 1] in l;
    forall d | d in m ensures d in ds' {
      if d != r { assert d in l; }
    }
    forall i | 0 <= i < |m| ensures ds'[m[i]].n == Nxt(m, i) && ds'[m[i]].p == Prv(m, i) {
      if i != j + 1 {
        var k := if i <= j then i else i - 1;
        assert m[i] == l[k] && l[k] in l;
        LinkAt(ds, l, first, last, k);
      }
    }
    assert b != [] ==> m[|m| - 1] == l[|l| - 1];
  }

  lemma {:induction false} LinkOutKeeps(ds: DMap, a: seq<DPage>, q: DPage, r: DPage, b: seq<DPage>, first: DPage?,
                                        last: DPage?)
    requires Links(ds, a + [q, r] + b, first, last) && NoDup(a + [q, r] + b)
    ensures q in ds && r in ds && ds[r].n != r && ds[r].n != q
    ensures Links(LinkOut(ds, q, r), a + [q] + b, first, if ds[r].n == null then q else last)
  {
    var l, m := a + [q, r] + b, a + [q] + b;
    var j := |a|;
    LinkAt(ds, l, first, last, j);
    LinkAt(ds, l, first, last, j + 1);
    assert l[j] == q && l[j + 1] == r;
    var ds', last' := LinkOut(ds, q, r), if ds[r].n == null then q else last;
    assert b != [] ==> l[j + 2] == b[0] && l[j + 2] in l;
    forall i | 0 <= i < |m| ensures m[i] in ds' && ds'[m[i]].n == Nxt(m, i) && ds'[m[i]].p == Prv(m, i) {
      OutEntry(ds, a, q, r, b, first, last, i);
    }
    assert b != [] ==> m[|m| - 1] == l[|l| - 1];
  }

  lemma {:induction false} OutEntry(ds: DMap, a: seq<DPage>, q: DPage, r: DPage, b: seq<DPage>, first: DPage?,
                                    last: DPage?, i: nat)
    requires Links(ds, a + [q, r] + b, first, last) && NoDup(a + [q, r] + b) && i < |a + [q] + b|
    requires q in ds && r in ds
    ensures var m, ds' := a + [q] + b, LinkOut(ds, q, r);
            m[i] in ds' && ds'[m[i]].n == Nxt(m, i) && ds'[m[i]].p == Prv(m, i)
  {
    var l, m, j := a + [q, r] + b, a + [q] + b, |a|;
    LinkAt(ds, l, first, last, j + 1);
    assert l[j] == q && l[j + 1] == r;
    var k := if i <= j then i else i + 1;
    assert m[i] == l[k] && l[k] in l && l[k] != l[j + 1];
    LinkAt(ds, l, first, last, k);
    if j + 2 < |l| { assert l[j + 2] in l; }
  }

  ghost function Before(up: Ctx, a: seq<Shape>): seq<DPage> {
    Pre(up) + LeavesL(a)
  }

  ghost function After(up: Ctx, b: seq<Shape>): seq<DPage> {
    LeavesL(b) + Post(up)
  }

  lemma {:induction false} LeafLeaves(q: DPage, r: DPage)
    ensures LeavesL([Lf(q)]) == [q] && XsL([Lf(q)]) == multiset{}
    ensures LeavesL([Lf(q), Lf(r)]) == [q, r] && XsL([Lf(q), Lf(r)]) == multiset{}
  {
    LeavesLSingle(Lf(q));
    LeavesLPair(Lf(q), Lf(r));
  }

  lemma {:induction false} LeafFits(st: St, ys: XMap, up: Ctx, p: XPage, a: seq<Shape>, m: seq<Shape>, m': seq<Shape>,
                                    b: seq<Shape>)
    requires Struct(st) && AtKids(st, up, p, a, m, b) && m[0].Lf? && |m'| > 0 && m'[0] == m[0]
    requires forall i :: 0 <= i < |m'| ==> m'[i].Lf?
    requires XsL(m) == XsL(m') == multiset{}
    requires ys == st.xs[p := PageOf(a + m' + b)]
    ensures Fits(st, ys, up, p, a, m, m', b)
  {
    hide Struct, PageOf;
    KidWF(st, up, p, a, m, b, 0);
    Apart(st, up, p, a, m, b);
    assert ys.Keys == st.xs.Keys;
  }

  lemma NoDupInsert<T>(a: seq<T>, q: T, r: T, b: seq<T>)
    requires NoDup(a + [q] + b) && r !in a + [q] + b
    ensures NoDup(a + [q, r] + b)
  {
    var l, m := a + [q] + b, a + [q, r] + b;
    forall i, j | 0 <= i < j < |m| ensures m[i] != m[j] {
      var i', j' := if i <= |a| then i else i - 1, if j <= |a| then j else j - 1;
      if i != |a| + 1 { assert m[i] == l[i'] && l[i'] in l; }
      if j != |a| + 1 { assert m[j] == l[j'] && l[j'] in l; }
    }
  }

  lemma NoDupRemove<T>(a: seq<T>, q: T, r: T, b: seq<T>)
    requires NoDup(a + [q, r] + b)
    ensures NoDup(a + [q] + b) && r !in a + [q] + b
  {
    var l, m := a + [q, r] + b, a + [q] + b;
    forall i, j | 0 <= i < j < |m| ensures m[i] != m[j] {
      var i', j' := if i <= |a| then i else i + 1, if j <= |a| then j else j + 1;
      assert m[i] == l[i'] && m[j] == l[j'];
    }
    forall i | 0 <= i < |m| ensures m[i] != r {
      var i' := if i <= |a| then i else i + 1;
      assert m[i] == l[i'] && l[|a| + 1] == r;
    }
  }

  /** A leaf q is split into q and r (split, lines 497-519). */
  lemma {:induction false} LeafSplitKeeps(st: St, ys: XMap, up: Ctx, p: XPage, a: seq<Shape>, b: seq<Shape>, q: DPage,
                                          r: DPage)
    requires Struct(st) && AtKids(st, up, p, a, [Lf(q)], b) && r !in st.ds
    requires ys == st.xs[p := PageOf(a + [Lf(q), Lf(r)] + b)]
    ensures q in st.ds
    ensures LvsOf(st) == Before(up, a) + [q] + After(up, b)
    ensures var st' := Rewritten(st, ys, up, p, a, [Lf(q), Lf(r)], b)
                         .(ds := LinkIn(st.ds, q, r), last := if st.ds[q].n == null then r else st.last);
            Struct(st') && LvsOf(st') == Before(up, a) + [q, r] + After(up, b)
  {
    LeafLeaves(q, r);
    LeafFits(st, ys, up, p, a, [Lf(q)], [Lf(q), Lf(r)], b);
    RewriteKeeps(st, ys, up, p, a, [Lf(q)], [Lf(q), Lf(r)], b);
    SpliceLeaves(up, p, a, [Lf(q)], b);
    SpliceLeaves(up, p, a, [Lf(q), Lf(r)], b);
    LinkInKeeps(st.ds, Before(up, a), q, r, After(up, b), st.first, st.last);
    NoDupInsert(Before(up, a), q, r, After(up, b));
    InKeys(st.ds, Before(up, a), q, r, After(up, b));
  }

  lemma {:induction false} InKeys(ds: DMap, a: seq<DPage>, q: DPage, r: DPage, b: seq<DPage>)
    requires q in ds && (forall d :: d in ds ==> d in a + [q] + b)
    ensures forall d :: d in LinkIn(ds, q, r) ==> d in a + [q, r] + b
  {
    forall d | d in LinkIn(ds, q, r) ensures d in a + [q, r] + b {
      if d in ds {
        assert d in a + [q] + b;
      }
    }
  }

  /** A leaf r is joined to the leaf q before it (cat, lines 166-181). */
  lemma {:induction false} LeafJoinKeeps(st: St, ys: XMap, up: Ctx, p: XPage, a: seq<Shape>, b: seq<Shape>, q: DPage,
                                         r: DPage)
    requires Struct(st) && AtKids(st, up, p, a, [Lf(q), Lf(r)], b)
    requires ys == st.xs[p := PageOf(a + [Lf(q)] + b)]
    ensures q in st.ds && r in st.ds && q != r
    ensures LvsOf(st) == Before(up, a) + [q, r] + After(up, b)
    ensures var st' := Rewritten(st, ys, up, p, a, [Lf(q)], b)
                         .(ds := LinkOut(st.ds, q, r), last := if st.ds[r].n == null then q else st.last);
            Struct(st') && LvsOf(st') == Before(up, a) + [q] + After(up, b)
  {
    LeafLeaves(q, r);
    LeafFits(st, ys, up, p, a, [Lf(q), Lf(r)], [Lf(q)], b);
    RewriteKeeps(st, ys, up, p, a, [Lf(q), Lf(r)], [Lf(q)], b);
    SpliceLeaves(up, p, a, [Lf(q)], b);
    SpliceLeaves(up, p, a, [Lf(q), Lf(r)], b);
    var l := Before(up, a) + [q, r] + After(up, b);
    assert l[|Before(up, a)|] == q && l[|Before(up, a)| + 1] == r;
    LinkOutKeeps(st.ds, Before(up, a), q, r, After(up, b), st.first, st.last);
    NoDupRemove(Before(up, a), q, r, After(up, b));
    OutKeys(st.ds, Before(up, a), q, r, After(up, b));
  }

  lemma {:induction false} OutKeys(ds: DMap, a: seq<DPage>, q: DPage, r: DPage, b: seq<DPage>)
    requires q in ds && r in ds && (forall d :: d in ds ==> d in a + [q, r] + b)
    ensures forall d :: d in LinkOut(ds, q, r) ==> d in a + [q] + b
  {
    forall d | d in LinkOut(ds, q, r) ensures d in a + [q] + b {
      assert d in a + [q, r] + b && d != r;
    }
  }

  /** Refilling data pages without touching their links. */
  ghost predicate SameLinks(ds: DMap, es: DMap) {
    ds.Keys == es.Keys && forall d :: d in ds ==> es[d].n == ds[d].n && es[d].p == ds[d].p
  }

  lemma {:induction false} RefillKeeps(st: St, es: DMap)
    requires Struct(st) && SameLinks(st.ds, es)
    ensures Struct(st.(ds := es))
  {
    var l := LvsOf(st);
    forall i | 0 <= i < |l| ensures es[l[i]].n == Nxt(l, i) && es[l[i]].p == Prv(l, i) {
      LinkAt(st.ds, l, st.first, st.last, i);
    }
  }
}
