// The B+tree of ql/btree.go.

module BTree {
  import opened SeqOps
  import opened BTreePages
  import opened BTreeShape
  import opened BTreeOrder
  import opened BTreeInv
  import opened BTreeLeaf
  import opened BTreeFind
  import opened BTreeHeap
  import opened BTreeSteps
  import opened BTreeFill
  import opened BTreeWalk
  import opened Options

  class Tree {
    const cmp: Cmp
    const pg: Pages
    var c: int
    var first: DPage?
    var last: DPage?
    var r: Ref
    ghost var shape: Shape
    ghost var h: nat

    ghost function State(): St
      reads this, pg
    {
      St(pg.ds, pg.xs, r, first, last, shape, h)
    }

    /** The entries in collating order. */
    ghost function Contents(): seq<DE>
      reads this, pg
    {
      Items(pg.ds, Leaves(shape))
    }

    ghost predicate Built()
      reads this, pg, pg.repr
    {
      this !in pg.repr && pg.Foot() && Struct(State())
    }

    /** A tree with at least one page. */
    ghost predicate Ready()
      reads this, pg, pg.repr
    {
      && Built() && XOcc(pg.xs, r) && DOcc(pg.ds, r)
      && TotalOrder(cmp) && Sorted(cmp, Contents()) && c == |Contents()|
    }

    ghost predicate Empty()
      reads this, pg, pg.repr
    {
      && this !in pg.repr && pg.Foot() && pg.ds == map[] && pg.xs == map[] && TotalOrder(cmp)
      && r == Nil && shape == Void && first == null && last == null && c == 0
    }

    ghost predicate Valid()
      reads this, pg, pg.repr
    {
      if r == Nil then Empty() else Ready()
    }

    /** The subtree cur, reached as child pi of p, with key k inside. */
    ghost predicate At(p: XPage?, pi: int, q: Ref, cx: Ctx, cur: Shape, k: K)
      reads this, pg
    {
      && shape == Plug(cx, cur) && q == RefOf(cur) && Bounded(cmp, pg.ds, cx, k)
      && if cx.Top? then pi < 0 else p == cx.x && pi == |cx.ls|
    }

    // treeNew (lines 151-153).
    constructor (cmp: Cmp)
      requires TotalOrder(cmp)
      ensures Valid() && Contents() == [] && this.cmp == cmp && fresh(pg) && fresh(pg.repr)
    {
      this.cmp := cmp;
      pg := new Pages();
      c, first, last, r := 0, null, null, Nil;
      shape, h := Void, 0;
    }

    // newX at the root (lines 518 and 538).
    method Grow() returns (x: XPage)
      requires Built()
      modifies this`r, this`shape, this`h, pg`xs, pg`repr
      ensures Built() && fresh(pg.repr - old(pg.repr)) && x !in old(pg.xs)
      ensures State() == old(State()).(xs := old(pg.xs)[x := PageOf([old(shape)])], root := XR(x),
              shape := Nd(x, [old(shape)]), h := old(h) + 1)
      ensures Leaves(shape) == old(Leaves(shape))
    {
      hide Struct, Pages.Foot, PageOf;
      ghost var st := State();
      x := pg.NewX(r);
      r := XR(x);
      shape, h := Nd(x, [shape]), h + 1;
      PageSingle(st.shape);
      RootRef(st);
      GrowKeeps(st, x, pg.xs);
    }

    // splitX below an index page p with room for one more child (lines 528-548).
    method SplitAt(p: XPage, z: XPage, pi: nat, ghost up: Ctx, ghost a: seq<Shape>, ghost b: seq<Shape>,
                   ghost zk: seq<Shape>)
      returns (x: XPage)
      requires Built() && shape == Plug(up, Nd(p, a + [Nd(z, zk)] + b)) && pi == |a|
      requires |zk| == 2 * kx + 2 && |a| + |b| < 2 * kx + 1
      modifies this`shape, pg`xs, pg`repr, pg.repr
      ensures Built() && fresh(pg.repr - old(pg.repr)) && x !in old(pg.xs)
      ensures State() == Rewritten(old(State()), pg.xs, up, p, a, [Nd(z, zk[..kx + 1]), Nd(x, zk[kx + 1..])], b)
      ensures pg.xs == old(pg.xs)[z := PageOf(zk[..kx + 1])][x := PageOf(zk[kx + 1..])]
                                 [p := PageOf(a + [Nd(z, zk[..kx + 1]), Nd(x, zk[kx + 1..])] + b)]
      ensures Leaves(shape) == old(Leaves(shape))
    {
      hide Struct, Pages.Foot, PageOf, Plug, InsAt;
      ghost var st := State();
      SplitReady(st, up, p, a, b, z, zk);
      pg.XView(z);
      var sep := z.x[kx].sep;
      x := pg.NewX(Nil);
      pg.XMoveUpper(z, x);
      pg.XInsert(p, pi, sep, XR(x));
      shape := Plug(up, Nd(p, a + [Nd(z, zk[..kx + 1]), Nd(x, zk[kx + 1..])] + b));
      SplitDone(st, up, p, a, b, z, zk, x, pg.xs);
    }

    // splitX (lines 528-548). The child i of z is afterwards the child i' of z'.
    method SplitX(p: XPage?, z: XPage, pi: int, i: nat, ghost cx: Ctx, ghost zk: seq<Shape>)
      returns (z': XPage, i': nat, ghost cx': Ctx, ghost zk': seq<Shape>)
      requires Built() && shape == Plug(cx, Nd(z, zk)) && |zk| == 2 * kx + 2 && i < |zk| && XOcc(pg.xs, r)
      requires if cx.Top? then pi < 0 else p == cx.x && pi == |cx.ls| && |cx.ls| + |cx.rs| < 2 * kx + 1
      modifies this`r, this`shape, this`h, pg`xs, pg`repr, pg.repr
      ensures Built() && fresh(pg.repr - old(pg.repr)) && XOcc(pg.xs, r) && pg.ds == old(pg.ds)
      ensures Leaves(shape) == old(Leaves(shape))
      ensures shape == Plug(cx', Nd(z', zk')) && i' < |zk'| == kx + 1 && zk'[i'] == zk[i] && (i' > 0 ==> i > 0)
      ensures h - Depth(cx') == old(h) - Depth(cx)
    {
      hide Struct, Pages.Foot, PageOf, XOcc;
      RootIs(State(), cx, Nd(z, zk));
      NodeAt(State(), cx, z, zk);
      ghost var up, a, b, xs := Top, [], [], pg.xs;
      ghost var lk, rk := zk[..kx + 1], zk[kx + 1..];
      SizeOf(lk);
      SizeOf(rk);
      var pp, x;
      if pi < 0 {
        pp := Grow();
        assert [Nd(z, zk)] == [] + [Nd(z, zk)] + [];
        x := SplitAt(pp, z, 0, Top, [], [], zk);
        SizeOf([] + [Nd(z, lk), Nd(x, rk)] + []);
        SplitOccRoot(xs, PageOf([Nd(z, zk)]), pg.xs, z, PageOf(lk), x, PageOf(rk), pp,
          PageOf([] + [Nd(z, lk), Nd(x, rk)] + []));
      } else {
        pp := p;
        up, a, b := cx.up, cx.ls, cx.rs;
        NodeAt(State(), up, p, a + [Nd(z, zk)] + b);
        x := SplitAt(p, z, pi, up, a, b, zk);
        SizeOf(a + [Nd(z, lk), Nd(x, rk)] + b);
        SplitOcc(xs, pg.xs, r, z, PageOf(lk), x, PageOf(rk), p, PageOf(a + [Nd(z, lk), Nd(x, rk)] + b));
      }
      PlugPair(up, pp, a, Nd(z, lk), Nd(x, rk), b);
      if i > kx {
        z', i' := x, i - kx - 1;
        cx', zk' := In(up, pp, a + [Nd(z, lk)], b), rk;
      } else {
        z', i' := z, i;
        cx', zk' := In(up, pp, a, [Nd(x, rk)] + b), lk;
      }
    }

    // catX (lines 183-203), when p keeps other children.
    method JoinX(p: XPage, l: XPage, q: XPage, pi: nat, ghost up: Ctx, ghost a: seq<Shape>, ghost b: seq<Shape>,
                 ghost lk: seq<Shape>, ghost qk: seq<Shape>)
      requires Built() && shape == Plug(up, Nd(p, a + [Nd(l, lk), Nd(q, qk)] + b)) && pi == |a| &&
               |lk| + |qk| <= 2 * kx + 2
      modifies this`shape, pg`xs, pg.repr
      ensures Built() && pg.repr == old(pg.repr) && pg.ds == old(pg.ds) && Leaves(shape) == old(Leaves(shape)) &&
              |lk| > 0
      ensures State() == Rewritten(old(State()), pg.xs, up, p, a, [Nd(l, lk + qk)], b)
      ensures pg.xs == (old(pg.xs) - {q})[l := PageOf(lk + qk)][p := PageOf(a + [Nd(l, lk + qk)] + b)]
    {
      hide Struct, Pages.Foot, PageOf, Plug, DelAt, AtKids;
      ghost var st := State();
      PairReady(st, up, p, a, b, l, lk, q, qk);
      pg.XView(p);
      pg.XAbsorb(l, p.x[pi].sep, q);
      pg.DropX(q);
      pg.XDrop(p, pi);
      shape := Plug(up, Nd(p, a + [Nd(l, lk + qk)] + b));
      MergeDone(st, up, p, a, b, l, lk, q, qk, pg.xs);
    }

    // catX, when l and q are the only children of the root p.
    method JoinRootX(p: XPage, l: XPage, q: XPage, ghost lk: seq<Shape>, ghost qk: seq<Shape>)
      requires Built() && shape == Nd(p, [Nd(l, lk), Nd(q, qk)]) && |lk| + |qk| <= 2 * kx + 2
      modifies this`r, this`shape, this`h, pg`xs, pg.repr
      ensures Built() && pg.repr == old(pg.repr) && pg.ds == old(pg.ds) && Leaves(shape) == old(Leaves(shape)) &&
              |lk| > 0
      ensures shape == Nd(l, lk + qk) && h == old(h) - 1 && r == XR(l)
      ensures pg.xs == (old(pg.xs) - {q} - {p})[l := PageOf(lk + qk)]
    {
      hide Struct, Pages.Foot, PageOf, AtKids;
      ghost var st := State();
      assert [] + [Nd(l, lk), Nd(q, qk)] + [] == [Nd(l, lk), Nd(q, qk)];
      PairReady(st, Top, p, [], [], l, lk, q, qk);
      pg.XView(p);
      pg.XAbsorb(l, p.x[0].sep, q);
      pg.DropX(q);
      pg.DropX(p);
      r := XR(l);
      shape, h := Nd(l, lk + qk), h - 1;
      MergeRootDone(st, p, l, lk, q, qk, pg.xs);
    }

    // catX (lines 183-203): the children of q move to l.
    method CatX(p: XPage, l: XPage, q: XPage, pi: nat, ghost up: Ctx, ghost a: seq<Shape>, ghost b: seq<Shape>,
                ghost lk: seq<Shape>, ghost qk: seq<Shape>)
      returns (ghost cx': Ctx)
      requires Built() && shape == Plug(up, Nd(p, a + [Nd(l, lk), Nd(q, qk)] + b)) && pi == |a| && XOcc(pg.xs, r)
      requires kx + 1 <= |lk| + |qk| <= 2 * kx + 2 && (up.Top? || |a| + |b| + 1 >= kx)
      modifies this`r, this`shape, this`h, pg`xs, pg.repr
      ensures Built() && pg.repr == old(pg.repr) && pg.ds == old(pg.ds) && Leaves(shape) == old(Leaves(shape)) &&
              XOcc(pg.xs, r)
      ensures shape == Plug(cx', Nd(l, lk + qk)) && h - Depth(cx') == old(h) - Depth(up) - 1
    {
      hide Struct, Pages.Foot, PageOf, XOcc, AtKids;
      ghost var xs, kids := pg.xs, a + [Nd(l, lk), Nd(q, qk)] + b;
      PairReady(State(), up, p, a, b, l, lk, q, qk);
      RootIs(State(), up, Nd(p, kids));
      pg.XView(p);
      SizeOf(lk + qk);
      if p.c > 1 {
        JoinX(p, l, q, pi, up, a, b, lk, qk);
        cx' := In(up, p, a, b);
        SizeOf(a + [Nd(l, lk + qk)] + b);
        MergeOcc(xs, pg.xs, r, l, PageOf(lk + qk), q, p, PageOf(a + [Nd(l, lk + qk)] + b));
      } else {
        PlugTop(Nd(p, kids));
        assert kids == [Nd(l, lk), Nd(q, qk)];
        JoinRootX(p, l, q, lk, qk);
        cx' := Top;
        MergeOccRoot(xs, pg.xs, l, PageOf(lk + qk), q, p);
      }
    }

    // The last child of l moves to q (lines 580-590).
    method BorrowLeft(p: XPage, l: XPage, q: XPage, pi: nat, ghost up: Ctx, ghost a: seq<Shape>, ghost b: seq<Shape>,
                      ghost lk: seq<Shape>, ghost qk: seq<Shape>)
      requires Built() && shape == Plug(up, Nd(p, a + [Nd(l, lk), Nd(q, qk)] + b)) && pi == |a|
      requires |lk| > 1 && |qk| <= 2 * kx + 1
      modifies this`shape, pg`xs, pg.repr
      ensures Built() && pg.repr == old(pg.repr) && pg.ds == old(pg.ds) && Leaves(shape) == old(Leaves(shape)) &&
              |qk| > 0
      ensures var lk', qk' := lk[..|lk| - 1], [lk[|lk| - 1]] + qk;
              && State() == Rewritten(old(State()), pg.xs, up, p, a, [Nd(l, lk'), Nd(q, qk')], b)
              && pg.xs == old(pg.xs)[l := PageOf(lk')][q := PageOf(qk')][p := PageOf(a + [Nd(l, lk'), Nd(q, qk')] + b)]
    {
      hide Struct, Pages.Foot, PageOf, Plug, AtKids;
      ghost var st := State();
      PairReady(st, up, p, a, b, l, lk, q, qk);
      pg.XView(p);
      pg.XView(l);
      var sep := l.x[l.c - 1].sep;
      pg.XPushFront(q, l.x[l.c].ch, p.x[pi].sep);
      pg.XPopBack(l);
      pg.XSetSep(p, pi, sep);
      shape := Plug(up, Nd(p, a + [Nd(l, lk[..|lk| - 1]), Nd(q, [lk[|lk| - 1]] + qk)] + b));
      LeftDone(st, up, p, a, b, l, lk, q, qk, pg.xs);
    }

    // The first child of q moves to l (lines 592-604).
    method BorrowRight(p: XPage, l: XPage, q: XPage, pi: nat, ghost up: Ctx, ghost a: seq<Shape>, ghost b: seq<Shape>,
                       ghost lk: seq<Shape>, ghost qk: seq<Shape>)
      requires Built() && shape == Plug(up, Nd(p, a + [Nd(l, lk), Nd(q, qk)] + b)) && pi == |a|
      requires |qk| > 1 && |lk| <= 2 * kx + 1
      modifies this`shape, pg`xs, pg.repr
      ensures Built() && pg.repr == old(pg.repr) && pg.ds == old(pg.ds) && Leaves(shape) == old(Leaves(shape)) &&
              |lk| > 0
      ensures var lk', qk' := lk + [qk[0]], qk[1..];
              && State() == Rewritten(old(State()), pg.xs, up, p, a, [Nd(l, lk'), Nd(q, qk')], b)
              && pg.xs == old(pg.xs)[l := PageOf(lk')][q := PageOf(qk')][p := PageOf(a + [Nd(l, lk'), Nd(q, qk')] + b)]
    {
      hide Struct, Pages.Foot, PageOf, Plug, AtKids;
      ghost var st := State();
      PairReady(st, up, p, a, b, l, lk, q, qk);
      pg.XView(p);
      pg.XView(q);
      var sep := q.x[0].sep;
      pg.XPushBack(l, p.x[pi].sep, q.x[0].ch);
      pg.XSetSep(p, pi, sep);
      pg.XPopFront(q);
      shape := Plug(up, Nd(p, a + [Nd(l, lk + [qk[0]]), Nd(q, qk[1..])] + b));
      RightDone(st, up, p, a, b, l, lk, q, qk, pg.xs);
    }

    // z and its left neighbour l (lines 580-590 and 606-611).
    method FixLeft(p: XPage, l: XPage, z: XPage, pi: nat, i: nat, ghost cx: Ctx, ghost zk: seq<Shape>,
                   ghost lk: seq<Shape>)
      returns (z': XPage, i': nat, ghost cx': Ctx, ghost zk': seq<Shape>)
      requires Built() && shape == Plug(cx, Nd(z, zk)) && i < |zk| == kx && XOcc(pg.xs, r)
      requires cx.In? && p == cx.x && pi == |cx.ls| > 0 && cx.ls[pi - 1] == Nd(l, lk) &&
               (cx.up.Top? || |cx.ls| + |cx.rs| >= kx)
      modifies this`r, this`shape, this`h, pg`xs, pg.repr
      ensures Built() && pg.repr == old(pg.repr) && pg.ds == old(pg.ds) && Leaves(shape) == old(Leaves(shape)) &&
              XOcc(pg.xs, r)
      ensures shape == Plug(cx', Nd(z', zk')) && i' < |zk'| && kx < |zk'| && zk'[i'] == zk[i]
      ensures h - Depth(cx') == old(h) - Depth(cx)
    {
      hide Struct, Pages.Foot, PageOf, XOcc, AtKids;
      ghost var up, a, b, xs := cx.up, cx.ls[..pi - 1], cx.rs, pg.xs;
      assert cx.ls == a + [Nd(l, lk)];
      PlugPair(up, p, a, Nd(l, lk), Nd(z, zk), b);
      PairReady(State(), up, p, a, b, l, lk, z, zk);
      RootIs(State(), up, Nd(p, a + [Nd(l, lk), Nd(z, zk)] + b));
      PlugPair(up, p, a, Nd(l, lk), Nd(z, zk), b);
      SepsMin(State(), In(up, p, a, [Nd(z, zk)] + b), l, lk);
      pg.XView(l);
      if l.c > kx {
        BorrowLeft(p, l, z, pi - 1, up, a, b, lk, zk);
        ghost var lk';
        lk', zk' := lk[..|lk| - 1], [lk[|lk| - 1]] + zk;
        z', i' := z, i + 1;
        cx' := In(up, p, a + [Nd(l, lk')], b);
        PlugPair(up, p, a, Nd(l, lk'), Nd(z, zk'), b);
        SizeOf(lk');
        SizeOf(zk');
        SizeOf(a + [Nd(l, lk'), Nd(z, zk')] + b);
        ShiftOcc(xs, pg.xs, r, l, PageOf(lk'), z, PageOf(zk'), p, PageOf(a + [Nd(l, lk'), Nd(z, zk')] + b));
      } else {
        z', i', zk' := l, i + l.c + 1, lk + zk;
        cx' := CatX(p, l, z, pi - 1, up, a, b, lk, zk);
      }
    }

    // z and its right neighbour q (lines 592-604 and 613).
    method FixRight(p: XPage, z: XPage, q: XPage, pi: nat, i: nat, ghost cx: Ctx, ghost zk: seq<Shape>,
                    ghost qk: seq<Shape>)
      returns (ghost cx': Ctx, ghost zk': seq<Shape>)
      requires Built() && shape == Plug(cx, Nd(z, zk)) && i < |zk| == kx && XOcc(pg.xs, r)
      requires cx.In? && p == cx.x && pi == |cx.ls| && |cx.rs| > 0 && cx.rs[0] == Nd(q, qk) &&
               (cx.up.Top? || |cx.ls| + |cx.rs| >= kx)
      modifies this`r, this`shape, this`h, pg`xs, pg.repr
      ensures Built() && pg.repr == old(pg.repr) && pg.ds == old(pg.ds) && Leaves(shape) == old(Leaves(shape)) &&
              XOcc(pg.xs, r)
      ensures shape == Plug(cx', Nd(z, zk')) && i < |zk'| && kx < |zk'| && zk'[i] == zk[i]
      ensures h - Depth(cx') == old(h) - Depth(cx)
    {
      hide Struct, Pages.Foot, PageOf, XOcc, AtKids;
      ghost var up, a, b, xs := cx.up, cx.ls, cx.rs[1..], pg.xs;
      assert cx.rs == [Nd(q, qk)] + b;
      PlugPair(up, p, a, Nd(z, zk), Nd(q, qk), b);
      PairReady(State(), up, p, a, b, z, zk, q, qk);
      RootIs(State(), up, Nd(p, a + [Nd(z, zk), Nd(q, qk)] + b));
      SepsMin(State(), In(up, p, a + [Nd(z, zk)], b), q, qk);
      pg.XView(q);
      if q.c > kx {
        BorrowRight(p, z, q, pi, up, a, b, zk, qk);
        ghost var qk';
        zk', qk' := zk + [qk[0]], qk[1..];
        cx' := In(up, p, a, [Nd(q, qk')] + b);
        PlugPair(up, p, a, Nd(z, zk'), Nd(q, qk'), b);
        SizeOf(zk');
        SizeOf(qk');
        SizeOf(a + [Nd(z, zk'), Nd(q, qk')] + b);
        ShiftOcc(xs, pg.xs, r, z, PageOf(zk'), q, PageOf(qk'), p, PageOf(a + [Nd(z, zk'), Nd(q, qk')] + b));
      } else {
        cx' := CatX(p, z, q, pi, up, a, b, zk, qk);
        zk' := zk + qk;
      }
    }

    // underflowX (lines 566-614). The child i of z is afterwards the child i' of z'.
    method UnderflowX(p: XPage, z: XPage, pi: nat, i: nat, ghost cx: Ctx, ghost zk: seq<Shape>)
      returns (z': XPage, i': nat, ghost cx': Ctx, ghost zk': seq<Shape>)
      requires Built() && shape == Plug(cx, Nd(z, zk)) && i < |zk| <= kx && XOcc(pg.xs, r)
      requires cx.In? && p == cx.x && pi == |cx.ls| && (cx.up.Top? || |cx.ls| + |cx.rs| >= kx)
      modifies this`r, this`shape, this`h, pg`xs, pg.repr
      ensures Built() && pg.repr == old(pg.repr) && pg.ds == old(pg.ds) && Leaves(shape) == old(Leaves(shape)) &&
              XOcc(pg.xs, r)
      ensures shape == Plug(cx', Nd(z', zk')) && i' < |zk'| && kx < |zk'| && zk'[i'] == zk[i]
      ensures h - Depth(cx') == old(h) - Depth(cx)
    {
      hide Struct, Pages.Foot, PageOf, XOcc, AtKids;
      ghost var kids := cx.ls + [Nd(z, zk)] + cx.rs;
      SepsMin(State(), cx, z, zk);
      SepsMin(State(), cx.up, p, kids);
      NodeAt(State(), cx.up, p, kids);
      pg.XView(p);
      var l: XPage?, q: XPage? := null, null;
      if pi > 0 {
        SiblingX(State(), cx.up, p, kids, pi, pi - 1);
        l := p.x[pi - 1].ch.x;
      }
      if pi < p.c {
        SiblingX(State(), cx.up, p, kids, pi, pi + 1);
        q := p.x[pi + 1].ch.x;
      }
      if l != null && l.c > kx {
        z', i', cx', zk' := FixLeft(p, l, z, pi, i, cx, zk, kids[pi - 1].kids);
      } else if q != null && q.c > kx {
        z', i' := z, i;
        cx', zk' := FixRight(p, z, q, pi, i, cx, zk, kids[pi + 1].kids);
      } else if l != null {
        z', i', cx', zk' := FixLeft(p, l, z, pi, i, cx, zk, kids[pi - 1].kids);
      } else {
        z', i' := z, i;
        cx', zk' := FixRight(p, z, q, pi, i, cx, zk, kids[pi + 1].kids);
      }
    }

    // Data pages.

    // insert (lines 349-360).
    method InsertD(q: DPage, i: nat, k: K, v: V, ghost cx: Ctx)
      requires Built() && shape == Plug(cx, Lf(q)) && q in pg.ds && i <= |pg.ds[q].es| <= 2 * kd
      modifies this`c, pg`ds, pg.repr
      ensures Built() && pg.repr == old(pg.repr) && pg.xs == old(pg.xs) && c == old(c) + 1
      ensures pg.ds == old(pg.ds)[q := old(pg.ds[q]).(es := InsAt(old(pg.ds[q].es), i, DE(k, v)))]
      ensures Contents() == Items(old(pg.ds), Pre(cx)) + InsAt(old(pg.ds[q].es), i, DE(k, v)) +
              Items(old(pg.ds), Post(cx))
    {
      hide Struct, Pages.Foot, Plug, Pre, Post, InsAt;
      ghost var st := State();
      pg.Insert(q, i, k, v);
      c := c + 1;
      LeafItems(st, cx, q, pg.ds);
    }

    // extract (lines 264-274).
    method ExtractD(q: DPage, i: nat, ghost cx: Ctx)
      requires Built() && shape == Plug(cx, Lf(q)) && q in pg.ds && i < |pg.ds[q].es|
      modifies this`c, pg`ds, pg.repr
      ensures Built() && pg.repr == old(pg.repr) && pg.xs == old(pg.xs) && c == old(c) - 1
      ensures pg.ds == old(pg.ds)[q := old(pg.ds[q]).(es := DelAt(old(pg.ds[q].es), i))]
      ensures Contents() == Items(old(pg.ds), Pre(cx)) + DelAt(old(pg.ds[q].es), i) + Items(old(pg.ds), Post(cx))
    {
      hide Struct, Pages.Foot, Plug, Pre, Post, DelAt;
      ghost var st := State();
      pg.Extract(q, i);
      c := c - 1;
      LeafItems(st, cx, q, pg.ds);
    }

    // The left sibling l takes the first entry of a full page q (lines 381-385).
    method SpillLeft(l: DPage, q: DPage, i: nat, k: K, v: V, ghost up: Ctx, ghost p: XPage, ghost a: seq<Shape>,
                     ghost b: seq<Shape>)
      requires Built() && shape == Plug(up, Nd(p, a + [Lf(l), Lf(q)] + b)) && DOcc(pg.ds, r)
      requires l in pg.ds && q in pg.ds && |pg.ds[l].es| < 2 * kd == |pg.ds[q].es| && 0 < i <= 2 * kd
      modifies this`c, pg`ds, pg.repr
      ensures Built() && pg.repr == old(pg.repr) && pg.xs == old(pg.xs) && c == old(c) + 1 && DOcc(pg.ds, r)
      ensures Contents() == Items(old(pg.ds), Before(up, a)) +
              (old(pg.ds[l].es) + InsAt(old(pg.ds[q].es), i, DE(k, v))) + Items(old(pg.ds), After(up, b))
    {
      hide Struct, Pages.Foot, Plug, Before, After, DOcc, Items;
      ghost var st := State();
      ghost var le, qe := pg.ds[l].es, pg.ds[q].es;
      PairAt(st, up, p, a, b, l, q);
      RootIsIndex(st, up, p, a + [Lf(l), Lf(q)] + b);
      DOccAt(pg.ds, r, l);
      pg.MvL(l, q, 1);
      pg.Insert(q, i - 1, k, v);
      c := c + 1;
      SpillLeftSeq(le, qe, i, DE(k, v));
      PairDone(st, up, p, a, b, l, q, le + qe[..1], InsAt(qe[1..], i - 1, DE(k, v)), pg.ds);
      PairOcc(st.ds, pg.ds, r, l, q, le + qe[..1], InsAt(qe[1..], i - 1, DE(k, v)));
    }

    // The right sibling x takes the last entry (lines 387-395).
    method SpillRight(q: DPage, x: DPage, i: nat, k: K, v: V, ghost up: Ctx, ghost p: XPage, ghost a: seq<Shape>,
                      ghost b: seq<Shape>)
      requires Built() && shape == Plug(up, Nd(p, a + [Lf(q), Lf(x)] + b)) && DOcc(pg.ds, r)
      requires q in pg.ds && x in pg.ds && |pg.ds[x].es| < 2 * kd == |pg.ds[q].es| && i <= 2 * kd
      modifies this`c, pg`ds, pg.repr
      ensures Built() && pg.repr == old(pg.repr) && pg.xs == old(pg.xs) && c == old(c) + 1 && DOcc(pg.ds, r)
      ensures Contents() == Items(old(pg.ds), Before(up, a)) +
              (InsAt(old(pg.ds[q].es), i, DE(k, v)) + old(pg.ds[x].es)) + Items(old(pg.ds), After(up, b))
    {
      hide Struct, Pages.Foot, Plug, Before, After, DOcc, Items;
      ghost var st := State();
      ghost var qe, xe := pg.ds[q].es, pg.ds[x].es;
      PairAt(st, up, p, a, b, q, x);
      RootIsIndex(st, up, p, a + [Lf(q), Lf(x)] + b);
      DOccAt(pg.ds, r, x);
      SpillRightSeq(qe, xe, i, DE(k, v));
      ghost var qe', xe';
      if i < 2 * kd {
        pg.MvR(q, x, 1);
        pg.Insert(q, i, k, v);
        qe', xe' := InsAt(qe[..|qe| - 1], i, DE(k, v)), qe[|qe| - 1..] + xe;
      } else {
        pg.Insert(x, 0, k, v);
        qe', xe' := qe, InsAt(xe, 0, DE(k, v));
      }
      c := c + 1;
      PairDone(st, up, p, a, b, q, x, qe', xe', pg.ds);
      PairOcc(st.ds, pg.ds, r, q, x, qe', xe');
    }

    // A new data page is linked in behind q (lines 499-507).
    method LinkNew(q: DPage) returns (x: DPage)
      requires this !in pg.repr && pg.Foot() && q in pg.ds &&
               (pg.ds[q].n != null ==> pg.ds[q].n in pg.ds && pg.ds[q].n != q)
      modifies this`last, pg`ds, pg`repr, pg.repr
      ensures this !in pg.repr && pg.Foot() && fresh(pg.repr - old(pg.repr)) && pg.xs == old(pg.xs) && x !in old(pg.ds)
      ensures pg.ds == LinkIn(old(pg.ds), q, x) && last == if old(pg.ds[q].n) == null then x else old(last)
    {
      hide Pages.Foot;
      ghost var ds := pg.ds;
      x := pg.NewD();
      pg.DView(q);
      var nx := q.n;
      if nx != null {
        pg.SetN(x, nx);
        pg.SetP(nx, x);
      } else {
        last := x;
      }
      pg.SetN(q, x);
      pg.SetP(x, q);
      LinkInIs(ds, q, x, pg.ds);
    }

    // A full data page q gives its upper half to a new page x, entered in p (lines 499-519).
    method SplitD(p: XPage, q: DPage, pi: nat, ghost up: Ctx, ghost a: seq<Shape>, ghost b: seq<Shape>)
      returns (x: DPage)
      requires Built() && shape == Plug(up, Nd(p, a + [Lf(q)] + b)) && pi == |a| && |a| + |b| <= 2 * kx
      requires q in pg.ds && |pg.ds[q].es| == 2 * kd
      modifies this`last, this`shape, pg, pg.repr
      ensures Built() && fresh(pg.repr - old(pg.repr)) && x !in old(pg.ds)
      ensures shape == Plug(up, Nd(p, a + [Lf(q), Lf(x)] + b))
      ensures pg.ds == HalvedDs(old(pg.ds), q, x) && pg.xs == old(pg.xs)[p := PageOf(a + [Lf(q), Lf(x)] + b)]
      ensures Items(pg.ds, Before(up, a)) == Items(old(pg.ds), Before(up, a)) &&
              Items(pg.ds, After(up, b)) == Items(old(pg.ds), After(up, b))
    {
      hide Struct, Pages.Foot, PageOf, Plug, Before, After, Items, InsAt, LinkIn, AtKids;
      ghost var st := State();
      LeafReady(st, up, p, a, b, q);
      x := LinkNew(q);
      LinkInEs(st.ds, q, x);
      pg.MoveUpper(q, x);
      pg.XInsert(p, pi, x, DR(x));
      shape := Plug(up, Nd(p, a + [Lf(q), Lf(x)] + b));
      SplitLeafDone(st, up, p, a, b, q, x, pg.xs);
    }

    // split below an index page p with room (lines 497-526).
    method SplitInsert(p: XPage, q: DPage, pi: nat, i: nat, k: K, v: V, ghost up: Ctx, ghost a: seq<Shape>,
                       ghost b: seq<Shape>, ghost root: Ref)
      returns (ghost x: DPage)
      requires Built() && shape == Plug(up, Nd(p, a + [Lf(q)] + b)) && pi == |a| && |a| + |b| <= 2 * kx
      requires q in pg.ds && |pg.ds[q].es| == 2 * kd && i <= 2 * kd && DOcc(pg.ds, root) && (root.XR? || root == DR(q))
      modifies this`last, this`shape, this`c, pg, pg.repr
      ensures Built() && fresh(pg.repr - old(pg.repr)) && DOcc(pg.ds, r) && c == old(c) + 1
      ensures pg.xs == old(pg.xs)[p := PageOf(a + [Lf(q), Lf(x)] + b)]
      ensures Contents() == Items(old(pg.ds), Before(up, a)) + InsAt(old(pg.ds[q].es), i, DE(k, v)) +
              Items(old(pg.ds), After(up, b))
    {
      hide Struct, Pages.Foot, PageOf, Plug, Before, After, Items, InsAt, LinkIn, AtKids, DOcc, HalvedDs, Pre, Post;
      ghost var ds := pg.ds;
      ghost var es := pg.ds[q].es;
      RootIsIndex(State(), up, p, a + [Lf(q)] + b);
      var y := SplitD(p, q, pi, up, a, b);
      x := y;
      HalvedEs(ds, q, y);
      PlugPair(up, p, a, Lf(q), Lf(y), b);
      LeftCtx(pg.ds, up, p, a, q, y, b);
      SplitSeq(es, kd, i, DE(k, v));
      InsLen(es[..kd], i, DE(k, v));
      InsLen(es[kd..], i - kd, DE(k, v));
      if i > kd {
        InsertD(y, i - kd, k, v, In(up, p, a + [Lf(q)], b));
        Assoc(Items(ds, Before(up, a)), es[..kd], InsAt(es[kd..], i - kd, DE(k, v)), Items(ds, After(up, b)));
      } else {
        InsertD(q, i, k, v, In(up, p, a, [Lf(y)] + b));
        Assoc(Items(ds, Before(up, a)), InsAt(es[..kd], i, DE(k, v)), es[kd..], Items(ds, After(up, b)));
      }
      HalvedOcc(ds, root, r, q, y, pg.ds);
    }

    // split (lines 497-526).
    method Split(p: XPage?, q: DPage, pi: int, i: nat, k: K, v: V, ghost cx: Ctx)
      requires Built() && shape == Plug(cx, Lf(q)) && q in pg.ds && |pg.ds[q].es| == 2 * kd && i <= 2 * kd &&
               DOcc(pg.ds, r) && XOcc(pg.xs, r)
      requires if cx.Top? then pi < 0 else p == cx.x && pi == |cx.ls| && |cx.ls| + |cx.rs| <= 2 * kx
      modifies this, pg, pg.repr
      ensures Built() && fresh(pg.repr - old(pg.repr)) && DOcc(pg.ds, r) && XOcc(pg.xs, r) && c == old(c) + 1
      ensures Contents() == Items(old(pg.ds), Pre(cx)) + InsAt(old(pg.ds[q].es), i, DE(k, v)) +
              Items(old(pg.ds), Post(cx))
    {
      hide Struct, Pages.Foot, PageOf, Items, InsAt, AtKids, DOcc, XOcc;
      ghost var xs, root := pg.xs, r;
      RootIs(State(), cx, Lf(q));
      RootRef(State());
      if pi < 0 {
        var pp := Grow();
        assert [Lf(q)] == [] + [Lf(q)] + [];
        ghost var x := SplitInsert(pp, q, 0, i, k, v, Top, [], [], root);
        assert Before(Top, []) == [] && After(Top, []) == [];
        SizeOf([] + [Lf(q), Lf(x)] + []);
        NewRootOcc(xs, PageOf([Lf(q)]), pg.xs, root, pp, PageOf([] + [Lf(q), Lf(x)] + []));
      } else {
        RootIsIndex(State(), cx.up, p, cx.ls + [Lf(q)] + cx.rs);
        NodeAt(State(), cx.up, p, cx.ls + [Lf(q)] + cx.rs);
        ghost var x := SplitInsert(p, q, pi, i, k, v, cx.up, cx.ls, cx.rs, root);
        SizeOf(cx.ls + [Lf(q), Lf(x)] + cx.rs);
        InsertOcc(xs, pg.xs, r, p, PageOf(cx.ls + [Lf(q), Lf(x)] + cx.rs));
      }
    }

    // overflow (lines 377-398).
    method Overflow(p: XPage?, q: DPage, pi: int, i: nat, k: K, v: V, ghost cx: Ctx)
      requires Built() && shape == Plug(cx, Lf(q)) && q in pg.ds && |pg.ds[q].es| == 2 * kd && i <= 2 * kd &&
               DOcc(pg.ds, r) && XOcc(pg.xs, r)
      requires if cx.Top? then pi < 0 else p == cx.x && pi == |cx.ls| && |cx.ls| + |cx.rs| <= 2 * kx
      requires pi > 0 ==> i > 0
      modifies this, pg, pg.repr
      ensures Built() && fresh(pg.repr - old(pg.repr)) && DOcc(pg.ds, r) && XOcc(pg.xs, r) && c == old(c) + 1
      ensures Contents() == Items(old(pg.ds), Pre(cx)) + InsAt(old(pg.ds[q].es), i, DE(k, v)) +
              Items(old(pg.ds), Post(cx))
    {
      hide Struct, Pages.Foot, PageOf, Items, InsAt, DOcc, XOcc, Before, After, Pre, Post;
      ghost var ds, es, ins := pg.ds, pg.ds[q].es, InsAt(pg.ds[q].es, i, DE(k, v));
      var l, x := Siblings(p, q, pi, cx);
      if l != null {
        pg.DView(l);
        if l.c < 2 * kd {
          ghost var a := cx.ls[..pi - 1];
          assert cx.ls == a + [Lf(l)];
          PlugPair(cx.up, p, a, Lf(l), Lf(q), cx.rs);
          LeftCtx(ds, cx.up, p, a, l, q, cx.rs);
          SpillLeft(l, q, i, k, v, cx.up, p, a, cx.rs);
          Assoc(Items(ds, Before(cx.up, a)), ds[l].es, ins, Items(ds, After(cx.up, cx.rs)));
          return;
        }
      }
      if x != null {
        pg.DView(x);
        if x.c < 2 * kd {
          ghost var b := cx.rs[1..];
          assert cx.rs == [Lf(x)] + b;
          PlugPair(cx.up, p, cx.ls, Lf(q), Lf(x), b);
          LeftCtx(ds, cx.up, p, cx.ls, q, x, b);
          SpillRight(q, x, i, k, v, cx.up, p, cx.ls, b);
          Assoc(Items(ds, Before(cx.up, cx.ls)), ins, ds[x].es, Items(ds, After(cx.up, b)));
          return;
        }
      }
      Split(p, q, pi, i, k, v, cx);
    }

    // siblings (lines 119-129).
    method Siblings(p: XPage?, q: DPage, pi: int, ghost cx: Ctx) returns (l: DPage?, x: DPage?)
      requires Built() && shape == Plug(cx, Lf(q))
      requires if cx.Top? then pi < 0 else p == cx.x && pi == |cx.ls|
      ensures l != null <==> cx.In? && cx.ls != []
      ensures l != null ==> l in pg.ds && cx.ls[|cx.ls| - 1] == Lf(l)
      ensures x != null <==> cx.In? && cx.rs != []
      ensures x != null ==> x in pg.ds && cx.rs[0] == Lf(x)
    {
      hide Struct, Pages.Foot, PageOf;
      l, x := null, null;
      if pi >= 0 {
        ghost var kids := cx.ls + [Lf(q)] + cx.rs;
        NodeAt(State(), cx.up, p, kids);
        pg.XView(p);
        if pi > 0 {
          SiblingD(State(), cx.up, p, kids, pi, pi - 1);
          l := p.x[pi - 1].ch.d;
          KidIn(State(), cx.up, p, kids, pi - 1);
        }
        if pi < p.c {
          SiblingD(State(), cx.up, p, kids, pi, pi + 1);
          x := p.x[pi + 1].ch.d;
          KidIn(State(), cx.up, p, kids, pi + 1);
        }
      }
    }

    // An entry moves to a page q that is one short from its left sibling l (lines 554-555).
    method ShiftRight(l: DPage, q: DPage, ghost up: Ctx, ghost p: XPage, ghost a: seq<Shape>, ghost b: seq<Shape>)
      requires Built() && shape == Plug(up, Nd(p, a + [Lf(l), Lf(q)] + b)) && l in pg.ds && q in pg.ds
      requires DOccBut(pg.ds, r, q) && |pg.ds[q].es| == kd - 1 && |pg.ds[l].es| + |pg.ds[q].es| >= 2 * kd
      modifies pg`ds, pg.repr
      ensures Built() && pg.repr == old(pg.repr) && pg.xs == old(pg.xs) && DOcc(pg.ds, r) &&
              Contents() == old(Contents())
    {
      hide Struct, Pages.Foot, Plug, Before, After, DOcc, Items;
      ghost var st := State();
      ghost var le, qe := pg.ds[l].es, pg.ds[q].es;
      PairAt(st, up, p, a, b, l, q);
      RootIsIndex(st, up, p, a + [Lf(l), Lf(q)] + b);
      PairItems(st, up, p, a, b, l, q, pg.ds);
      pg.MvR(l, q, 1);
      assert le[..|le| - 1] + (le[|le| - 1..] + qe) == le + qe;
      PairDone(st, up, p, a, b, l, q, le[..|le| - 1], le[|le| - 1..] + qe, pg.ds);
      ButOcc(st.ds, pg.ds, r, l, q, le[..|le| - 1], le[|le| - 1..] + qe, q);
    }

    // An entry moves from the right sibling x (lines 556-558).
    method ShiftLeft(q: DPage, x: DPage, ghost up: Ctx, ghost p: XPage, ghost a: seq<Shape>, ghost b: seq<Shape>)
      requires Built() && shape == Plug(up, Nd(p, a + [Lf(q), Lf(x)] + b)) && q in pg.ds && x in pg.ds
      requires DOccBut(pg.ds, r, q) && |pg.ds[q].es| == kd - 1 && |pg.ds[q].es| + |pg.ds[x].es| >= 2 * kd
      modifies pg`ds, pg.repr
      ensures Built() && pg.repr == old(pg.repr) && pg.xs == old(pg.xs) && DOcc(pg.ds, r) &&
              Contents() == old(Contents())
    {
      hide Struct, Pages.Foot, Plug, Before, After, DOcc, Items;
      ghost var st := State();
      ghost var qe, xe := pg.ds[q].es, pg.ds[x].es;
      PairAt(st, up, p, a, b, q, x);
      RootIsIndex(st, up, p, a + [Lf(q), Lf(x)] + b);
      PairItems(st, up, p, a, b, q, x, pg.ds);
      pg.MvL(q, x, 1);
      assert (qe + xe[..1]) + xe[1..] == qe + xe;
      PairDone(st, up, p, a, b, q, x, qe + xe[..1], xe[1..], pg.ds);
      ButOcc(st.ds, pg.ds, r, q, x, qe + xe[..1], xe[1..], q);
    }

    // The entries of x move to q, and x leaves the chain (lines 168-175).
    method Unlink(q: DPage, x: DPage)
      requires this !in pg.repr && pg.Foot() && q in pg.ds && x in pg.ds && q != x &&
               |pg.ds[q].es| + |pg.ds[x].es| <= 2 * kd + 1
      requires pg.ds[x].n != null ==> pg.ds[x].n in pg.ds && pg.ds[x].n != q && pg.ds[x].n != x
      modifies this`last, pg`ds, pg.repr
      ensures this !in pg.repr && pg.Foot() && pg.repr == old(pg.repr) && pg.xs == old(pg.xs)
      ensures q in Emptied(old(pg.ds), q, x) && x in Emptied(old(pg.ds), q, x)
      ensures pg.ds == LinkOut(Emptied(old(pg.ds), q, x), q, x)
      ensures last == if old(pg.ds[x].n) == null then q else old(last)
    {
      hide Pages.Foot;
      ghost var qe, xe := pg.ds[q].es, pg.ds[x].es;
      pg.DView(x);
      pg.MvL(q, x, x.c);
      assert xe[..|xe|] == xe && xe[|xe|..] == [];
      ghost var ds := pg.ds;
      pg.DView(x);
      var nx := x.n;
      if nx != null {
        pg.SetP(nx, q);
      } else {
        last := q;
      }
      pg.SetN(q, nx);
      pg.DropD(x);
      LinkOutIs(ds, q, x, pg.ds);
    }

    // cat (lines 166-181), when p keeps other children.
    method JoinD(p: XPage, q: DPage, x: DPage, pi: nat, ghost up: Ctx, ghost a: seq<Shape>, ghost b: seq<Shape>)
      requires Built() && shape == Plug(up, Nd(p, a + [Lf(q), Lf(x)] + b)) && pi == |a| && q in pg.ds && x in pg.ds
      requires |pg.ds[q].es| + |pg.ds[x].es| <= 2 * kd + 1
      modifies this`last, this`shape, pg`ds, pg`xs, pg.repr
      ensures Built() && pg.repr == old(pg.repr) && Contents() == old(Contents())
      ensures q in Emptied(old(pg.ds), q, x) && x in Emptied(old(pg.ds), q, x)
      ensures pg.ds == LinkOut(Emptied(old(pg.ds), q, x), q, x) && pg.xs == old(pg.xs)[p := PageOf(a + [Lf(q)] + b)]
    {
      hide Struct, Pages.Foot, Plug, PageOf, Items, LinkOut, Emptied;
      ghost var st := State();
      JoinReady(st, up, p, a, b, q, x);
      Unlink(q, x);
      pg.XExtract(p, pi);
      pg.XSetCh(p, pi, DR(q));
      shape := Plug(up, Nd(p, a + [Lf(q)] + b));
      JoinLeafDone(st, up, p, a, b, q, x, pg.xs[p].chs, pg.xs);
      JoinLeafKeeps(st, up, p, a, b, q, x, pg.xs);
    }

    // cat, when q and x are the only children of the root p.
    method JoinRootD(p: XPage, q: DPage, x: DPage)
      requires Built() && shape == Nd(p, [Lf(q), Lf(x)]) && q in pg.ds && x in pg.ds &&
               |pg.ds[q].es| + |pg.ds[x].es| <= 2 * kd + 1
      modifies this`last, this`r, this`shape, this`h, pg`ds, pg`xs, pg.repr
      ensures Built() && pg.repr == old(pg.repr) && Contents() == old(Contents())
      ensures q in Emptied(old(pg.ds), q, x) && x in Emptied(old(pg.ds), q, x)
      ensures pg.ds == LinkOut(Emptied(old(pg.ds), q, x), q, x) && pg.xs == old(pg.xs) - {p} && r == DR(q)
    {
      hide Struct, Pages.Foot, PageOf, Items, LinkOut, Emptied;
      ghost var st := State();
      assert [] + [Lf(q), Lf(x)] + [] == [Lf(q), Lf(x)];
      JoinReady(st, Top, p, [], [], q, x);
      Unlink(q, x);
      r := DR(q);
      pg.DropX(p);
      shape, h := Lf(q), h - 1;
      JoinRootLeafDone(st, p, q, x, pg.xs);
    }

    // cat (lines 166-181): the entries of x move to q.
    method Cat(p: XPage, q: DPage, x: DPage, pi: nat, ghost up: Ctx, ghost a: seq<Shape>, ghost b: seq<Shape>,
               ghost but: DPage)
      requires Built() && shape == Plug(up, Nd(p, a + [Lf(q), Lf(x)] + b)) && pi == |a| && q in pg.ds && x in pg.ds
      requires DOccBut(pg.ds, r, but) && (but == q || but == x) && |pg.ds[q].es| + |pg.ds[x].es| == 2 * kd - 1
      requires XOcc(pg.xs, r) && (up.Top? || |a| + |b| + 1 >= kx)
      modifies this`last, this`r, this`shape, this`h, pg`ds, pg`xs, pg.repr
      ensures Built() && pg.repr == old(pg.repr) && Contents() == old(Contents()) && DOcc(pg.ds, r) && XOcc(pg.xs, r)
    {
      hide Struct, Pages.Foot, PageOf, Items, LinkOut, Emptied, XOcc, DOcc, DOccBut;
      ghost var xs, ds, root, kids := pg.xs, pg.ds, r, a + [Lf(q), Lf(x)] + b;
      JoinReady(State(), up, p, a, b, q, x);
      RootIs(State(), up, Nd(p, kids));
      RootIsIndex(State(), up, p, kids);
      pg.XView(p);
      if p.c > 1 {
        JoinD(p, q, x, pi, up, a, b);
        SizeOf(a + [Lf(q)] + b);
        DropOcc(xs, pg.xs, r, p, PageOf(a + [Lf(q)] + b));
      } else {
        PlugTop(Nd(p, kids));
        assert kids == [Lf(q), Lf(x)];
        JoinRootD(p, q, x);
        NoRootOcc(xs, p, q);
      }
      JoinOcc(ds, root, r, q, x, but);
    }

    // underflow (lines 550-564).
    method Underflow(p: XPage, q: DPage, pi: nat, ghost cx: Ctx)
      requires Built() && shape == Plug(cx, Lf(q)) && cx.In? && p == cx.x && pi == |cx.ls| && q in pg.ds
      requires DOccBut(pg.ds, r, q) && |pg.ds[q].es| == kd - 1
      requires XOcc(pg.xs, r) && (cx.up.Top? || |cx.ls| + |cx.rs| >= kx)
      modifies this`last, this`r, this`shape, this`h, pg`ds, pg`xs, pg.repr
      ensures Built() && pg.repr == old(pg.repr) && Contents() == old(Contents()) && DOcc(pg.ds, r) && XOcc(pg.xs, r)
    {
      hide Struct, Pages.Foot, PageOf, Items, XOcc, DOcc, DOccBut;
      ghost var up, a, b := cx.up, cx.ls, cx.rs;
      RootIsIndex(State(), up, p, a + [Lf(q)] + b);
      SepsMin(State(), up, p, a + [Lf(q)] + b);
      var l, x := Siblings(p, q, pi, cx);
      pg.DView(q);
      if l != null {
        pg.DView(l);
        a := a[..pi - 1];
        assert cx.ls == a + [Lf(l)];
        PlugPair(up, p, a, Lf(l), Lf(q), b);
        PairAt(State(), up, p, a, b, l, q);
        ButAt(pg.ds, r, q, l);
      }
      if x != null {
        pg.DView(x);
        b := b[1..];
        assert cx.rs == [Lf(x)] + b;
        PlugPair(up, p, cx.ls, Lf(q), Lf(x), b);
        PairAt(State(), up, p, cx.ls, b, q, x);
        ButAt(pg.ds, r, q, x);
      }
      if l != null && l.c + q.c >= 2 * kd {
        ShiftRight(l, q, up, p, a, cx.rs);
      } else if x != null && q.c + x.c >= 2 * kd {
        ShiftLeft(q, x, up, p, cx.ls, b);
      } else if l != null {
        Cat(p, l, q, pi - 1, up, a, cx.rs, q);
      } else {
        Cat(p, q, x, pi, up, cx.ls, b, q);
      }
    }

    // find (lines 276-310): binary search among the separators' keys.
    method FindX(z: XPage, k: K) returns (i: nat, ok: bool)
      requires pg.Foot() && z in pg.xs && SepsOk(pg.ds, pg.xs[z].seps)
      ensures ok ==> i < |pg.xs[z].seps| && cmp(k, pg.ds[pg.xs[z].seps[i]].es[0].k) == 0
      ensures !ok ==> SepSpot(cmp, pg.ds, pg.xs[z].seps, i, k)
    {
      hide Pages.Foot;
      pg.XView(z);
      ghost var seps := pg.xs[z].seps;
      var l, h := 0, z.c - 1;
      while l <= h
        invariant 0 <= l <= h + 1 <= |seps|
        invariant l > 0 ==> cmp(k, pg.ds[seps[l - 1]].es[0].k) > 0
        invariant h + 1 < |seps| ==> cmp(k, pg.ds[seps[h + 1]].es[0].k) < 0
      {
        var m := (l + h) / 2;
        pg.DView(z.x[m].sep);
        var d := cmp(k, z.x[m].sep.d[0].k);
        if d > 0 {
          l := m + 1;
        } else if d == 0 {
          return m, true;
        } else {
          h := m - 1;
        }
      }
      return l, false;
    }

    // find (lines 276-310): binary search among the keys of a data page.
    method FindD(q: DPage, k: K) returns (i: nat, ok: bool)
      requires pg.Foot() && q in pg.ds
      ensures ok ==> i < |pg.ds[q].es| && cmp(k, pg.ds[q].es[i].k) == 0
      ensures !ok ==> KeySpot(cmp, pg.ds[q].es, i, k)
    {
      hide Pages.Foot;
      pg.DView(q);
      ghost var es := pg.ds[q].es;
      var l, h := 0, q.c - 1;
      while l <= h
        invariant 0 <= l <= h + 1 <= |es|
        invariant l > 0 ==> cmp(k, es[l - 1].k) > 0
        invariant h + 1 < |es| ==> cmp(k, es[h + 1].k) < 0
      {
        var m := (l + h) / 2;
        var d := cmp(k, q.d[m].k);
        if d > 0 {
          l := m + 1;
        } else if d == 0 {
          return m, true;
        } else {
          h := m - 1;
        }
      }
      return l, false;
    }

    // Get (lines 324-347).
    method Get(k: K) returns (v: Option<V>)
      requires Valid()
      ensures v == Lookup(cmp, Contents(), k)
    {
      hide Struct, Pages.Foot, XOcc, DOcc, Items, TotalOrder, Sorted, Bounded, SepSpot, KeySpot, Leaves, Lookup;
      var q := r;
      NoItems(pg.ds);
      NothingIn(cmp, k);
      if q == Nil { return None; }
      ghost var cx, cur := Top, shape;
      RootRef(State());
      TopBounded(cmp, pg.ds, k);
      OccNonEmpty(pg.ds, r);
      while true
        invariant shape == Plug(cx, cur) && q == RefOf(cur) && !cur.Void? && Depth(cx) <= h &&
                  Bounded(cmp, pg.ds, cx, k)
        decreases h - Depth(cx)
      {
        if q.XR? {
          var z := q.x;
          SepsAreOk(State(), cx, z, cur.kids);
          NodeAt(State(), cx, z, cur.kids);
          var i, ok := FindX(z, k);
          pg.XView(z);
          if ok {
            SepLeaf(State(), cx, z, cur.kids, i);
            var d := z.x[i].sep;
            pg.DView(d);
            v := FoundIn(d, 0, k, FirstCtx(In(cx, z, cur.kids[..i + 1], cur.kids[i + 2..]), cur.kids[i + 1]));
            return;
          }
          StepDown(cmp, State(), cx, z, cur.kids, i, k);
          KidFirst(State(), cx, z, cur.kids, i);
          PlugKid(cx, z, cur.kids, i);
          q := z.x[i].ch;
          cx, cur := In(cx, z, cur.kids[..i], cur.kids[i + 1..]), cur.kids[i];
        } else {
          var z := q.d;
          LeafSplit(State(), cx, z);
          var i, ok := FindD(z, k);
          if ok {
            v := FoundIn(z, i, k, cx);
            return;
          }
          var any: V := *;
          BoundedParts(cmp, pg.ds, cx, k);
          MissingSeq(cmp, Items(pg.ds, Pre(cx)), pg.ds[z].es, Items(pg.ds, Post(cx)), i, k, any);
          return None;
        }
      }
    }

    method FoundIn(q: DPage, i: nat, k: K, ghost cx: Ctx) returns (v: Option<V>)
      requires Ready() && shape == Plug(cx, Lf(q)) && q in pg.ds && i < |pg.ds[q].es| && cmp(k, pg.ds[q].es[i].k) == 0
      ensures v == Lookup(cmp, Contents(), k)
    {
      hide Struct, Pages.Foot, XOcc, DOcc, Items, TotalOrder, Sorted;
      pg.DView(q);
      v := Some(q.d[i].v);
      LeafSplit(State(), cx, q);
      FoundSeq(cmp, Items(pg.ds, Pre(cx)), pg.ds[q].es, Items(pg.ds, Post(cx)), i, k, q.d[i].v);
    }

    // A found entry takes a new value (lines 462-470).
    method Replace(q: DPage, i: nat, k: K, v: V, ghost cx: Ctx)
      requires Ready() && shape == Plug(cx, Lf(q)) && q in pg.ds && i < |pg.ds[q].es| && cmp(k, pg.ds[q].es[i].k) == 0
      modifies pg`ds, pg.repr
      ensures Ready() && pg.repr == old(pg.repr) && Contents() == BTreeOrder.Put(cmp, old(Contents()), k, v)
    {
      hide Struct, Pages.Foot, XOcc, DOcc, Items, TotalOrder, Sorted, Plug, Pre, Post;
      ghost var st, es := State(), pg.ds[q].es;
      LeafSplit(st, cx, q);
      FoundSeq(cmp, Items(pg.ds, Pre(cx)), es, Items(pg.ds, Post(cx)), i, k, v);
      KeepsSorted(cmp, Contents(), k, v);
      DOccAt(pg.ds, r, q);
      pg.SetV(q, i, v);
      LeafItems(st, cx, q, pg.ds);
      SetOcc(st.ds, pg.ds, r, q, es[i := DE(es[i].k, v)]);
    }

    // A missing entry is added at its place in a data page (lines 480-487).
    method AddAt(p: XPage?, q: DPage, pi: int, i: nat, k: K, v: V, ghost cx: Ctx)
      requires Ready() && At(p, pi, DR(q), cx, Lf(q), k) && q in pg.ds && KeySpot(cmp, pg.ds[q].es, i, k)
      requires cx.In? ==> |cx.ls| + |cx.rs| <= 2 * kx
      requires pi > 0 ==> PastFirst(cmp, pg.ds, Lf(q), k)
      modifies this, pg, pg.repr
      ensures Ready() && fresh(pg.repr - old(pg.repr)) && Contents() == BTreeOrder.Put(cmp, old(Contents()), k, v)
    {
      hide Struct, Pages.Foot, XOcc, DOcc, Items, TotalOrder, Sorted, Plug, Pre, Post, Bounded, InsAt, KeySpot;
      ghost var st, es := State(), pg.ds[q].es;
      LeafSplit(st, cx, q);
      BoundedParts(cmp, pg.ds, cx, k);
      SpotRange(cmp, es, i, k);
      MissingSeq(cmp, Items(pg.ds, Pre(cx)), es, Items(pg.ds, Post(cx)), i, k, v);
      KeepsSorted(cmp, Contents(), k, v);
      InsCount(Items(pg.ds, Pre(cx)), es, Items(pg.ds, Post(cx)), i, DE(k, v));
      DOccAt(pg.ds, r, q);
      pg.DView(q);
      if q.c < 2 * kd {
        InsertD(q, i, k, v, cx);
        InsLen(es, i, DE(k, v));
        SetOcc(st.ds, pg.ds, r, q, InsAt(es, i, DE(k, v)));
      } else {
        if pi > 0 { PastSpot(cmp, es, i, k); }
        Overflow(p, q, pi, i, k, v, cx);
      }
    }

    // One step down in Set (lines 473-479).
    method DescendSet(p: XPage?, z: XPage, pi: int, i: nat, k: K, ghost cx: Ctx, ghost zk: seq<Shape>)
      returns (p': XPage, pi': nat, q': Ref, ghost cx': Ctx, ghost cur': Shape)
      requires Ready() && At(p, pi, XR(z), cx, Nd(z, zk), k) && (cx.In? ==> |cx.ls| + |cx.rs| <= 2 * kx)
      requires z in pg.xs && SepsOk(pg.ds, pg.xs[z].seps) && SepSpot(cmp, pg.ds, pg.xs[z].seps, i, k)
      modifies this`r, this`shape, this`h, pg`xs, pg`repr, pg.repr
      ensures Ready() && fresh(pg.repr - old(pg.repr)) && Contents() == old(Contents())
      ensures At(p', pi', q', cx', cur', k) && cx'.In? && |cx'.ls| + |cx'.rs| <= 2 * kx && !cur'.Void?
      ensures h - Depth(cx') == old(h) - Depth(cx) - 1 && pg.ds == old(pg.ds)
      ensures pi' > 0 ==> PastFirst(cmp, pg.ds, cur', k)
    {
      hide Struct, Pages.Foot, PageOf, XOcc, DOcc, Items, TotalOrder, Sorted, Bounded, SepSpot, SepsOk, PastFirst,
        Leaves, Plug;
      ghost var st := State();
      OccNonEmpty(pg.ds, r);
      StepDown(cmp, st, cx, z, zk, i, k);
      NodeAt(st, cx, z, zk);
      SepsMin(st, cx, z, zk);
      pg.XView(z);
      ghost var up, zk' := cx, zk;
      p', pi' := z, i;
      if z.c > 2 * kx {
        p', pi', up, zk' := SplitX(p, z, pi, i, cx, zk);
      }
      MoveDown(cmp, st, cx, z, zk, i, State(), up, p', zk', pi', k);
      SameRootKind(pg.ds, st.root, r);
      pg.XView(p');
      q' := p'.x[pi'].ch;
      cx', cur' := In(up, p', zk'[..pi'], zk'[pi' + 1..]), zk'[pi'];
    }

    // The first entry of an empty tree (lines 492-493).
    method AddFirst(k: K, v: V)
      requires Empty()
      modifies this, pg, pg.repr
      ensures Ready() && fresh(pg.repr - old(pg.repr)) && Contents() == [DE(k, v)] && r != Nil
    {
      hide Pages.Foot, TotalOrder;
      var z := pg.NewD();
      pg.Insert(z, 0, k, v);
      c := c + 1;
      r, first, last := DR(z), z, z;
      shape, h := Lf(z), 0;
      assert InsAt([], 0, DE(k, v)) == [DE(k, v)];
      SingleDone(State(), z, DE(k, v), cmp);
    }

    // Set (lines 455-495).
    method Set(k: K, v: V)
      requires Valid()
      modifies this, pg, pg.repr
      ensures Valid() && fresh(pg.repr - old(pg.repr))
      ensures Contents() == BTreeOrder.Put(cmp, old(Contents()), k, v)
    {
      hide Struct, Pages.Foot, XOcc, DOcc, Items, TotalOrder, Sorted, Bounded, SepSpot, KeySpot, SepsOk, PastFirst,
        Plug, Leaves, Pre, Post, BTreeOrder.Put;
      NoItems(pg.ds);
      PutFirst(cmp, k, v);
      ghost var all := Contents();
      var pi: int, p: XPage?, q := -1, null, r;
      if q == Nil {
        AddFirst(k, v);
        return;
      }
      ghost var cx, cur := Top, shape;
      RootRef(State());
      PlugTop(shape);
      TopBounded(cmp, pg.ds, k);
      while true
        invariant Ready() && fresh(pg.repr - old(pg.repr)) && Contents() == all
        invariant At(p, pi, q, cx, cur, k) && !cur.Void? && (cx.In? ==> |cx.ls| + |cx.rs| <= 2 * kx)
        invariant pi > 0 ==> PastFirst(cmp, pg.ds, cur, k)
        decreases h - Depth(cx)
      {
        RootNotNil(State());
        if q.XR? {
          var z := q.x;
          OccNonEmpty(pg.ds, r);
          SepsAreOk(State(), cx, z, cur.kids);
          NodeAt(State(), cx, z, cur.kids);
          var i, ok := FindX(z, k);
          if ok {
            SepLeaf(State(), cx, z, cur.kids, i);
            SepAtIs(pg.ds, pg.xs[z].seps, i);
            pg.XView(z);
            Replace(z.x[i].sep, 0, k, v, FirstCtx(In(cx, z, cur.kids[..i + 1], cur.kids[i + 2..]), cur.kids[i + 1]));
            return;
          }
          p, pi, q, cx, cur := DescendSet(p, z, pi, i, k, cx, cur.kids);
        } else {
          SetD(p, q.d, pi, k, v, cx);
          return;
        }
      }
    }

    // The search for the key ends at a data page (lines 466-470, 480-487).
    method SetD(p: XPage?, q: DPage, pi: int, k: K, v: V, ghost cx: Ctx)
      requires Ready() && At(p, pi, DR(q), cx, Lf(q), k) && (cx.In? ==> |cx.ls| + |cx.rs| <= 2 * kx)
      requires pi > 0 ==> PastFirst(cmp, pg.ds, Lf(q), k)
      modifies this, pg, pg.repr
      ensures Valid() && fresh(pg.repr - old(pg.repr))
      ensures Contents() == BTreeOrder.Put(cmp, old(Contents()), k, v)
    {
      hide Struct, Pages.Foot, XOcc, DOcc, Items, TotalOrder, Sorted, Bounded, KeySpot, PastFirst, Plug, Leaves, Pre,
        Post, BTreeOrder.Put;
      LeafSplit(State(), cx, q);
      var i, ok := FindD(q, k);
      if ok {
        Replace(q, i, k, v, cx);
      } else {
        AddAt(p, q, pi, i, k, v, cx);
      }
      RootNotNil(State());
    }

    // Clear (lines 156-164), without the zeroing of the dropped pages.
    method Clear()
      requires this !in pg.repr && pg.Foot() && TotalOrder(cmp) && (r == Nil ==> Empty())
      modifies this, pg`ds, pg`xs
      ensures Valid() && Contents() == [] && r == Nil && pg.repr == old(pg.repr)
    {
      hide Pages.Foot, TotalOrder;
      NoItems(pg.ds);
      if r == Nil { return; }
      pg.DropAll();
      c, first, last, r := 0, null, null, Nil;
      shape, h := Void, 0;
    }

    // A found entry is removed from a data page (lines 235-245).
    method RemoveAt(p: XPage?, q: DPage, pi: int, i: nat, k: K, ghost cx: Ctx)
      requires Ready() && shape == Plug(cx, Lf(q)) && (if cx.Top? then pi < 0 else p == cx.x && pi == |cx.ls|)
      requires q in pg.ds && i < |pg.ds[q].es| && cmp(k, pg.ds[q].es[i].k) == 0
      requires cx.In? ==> cx.up.Top? || |cx.ls| + |cx.rs| >= kx || |pg.ds[q].es| > kd
      modifies this, pg, pg.repr
      ensures Valid() && pg.repr == old(pg.repr) && Contents() == Rem(cmp, old(Contents()), k)
    {
      hide Struct, Pages.Foot, XOcc, DOcc, DOccBut, Items, TotalOrder, Sorted, Plug, Pre, Post, DelAt;
      ghost var st, es := State(), pg.ds[q].es;
      ghost var v: V := *;
      LeafSplit(st, cx, q);
      FoundSeq(cmp, Items(pg.ds, Pre(cx)), es, Items(pg.ds, Post(cx)), i, k, v);
      KeepsSorted(cmp, Contents(), k, v);
      DelCount(Items(pg.ds, Pre(cx)), es, Items(pg.ds, Post(cx)), i);
      DOccAt(pg.ds, r, q);
      RootIs(st, cx, Lf(q));
      RootNotNil(st);
      ExtractD(q, i, cx);
      pg.DView(q);
      if q.c >= kd {
        SetOcc(st.ds, pg.ds, r, q, DelAt(es, i));
        return;
      }
      if DR(q) != r {
        SetOccBut(st.ds, pg.ds, r, q, DelAt(es, i));
        Underflow(p, q, pi, cx);
        RootNotNil(State());
      } else {
        AloneItems(pg.ds, cx, q);
        if c == 0 {
          Clear();
        } else {
          RootLeafOcc(st.ds, pg.ds, q, DelAt(es, i));
        }
      }
    }

    // One step down in Delete (lines 225-233 and 251-257).
    method DescendDelete(p: XPage?, z: XPage, pi: int, i: nat, k: K, ghost cx: Ctx, ghost zk: seq<Shape>)
      returns (p': XPage, pi': nat, q': Ref, ghost cx': Ctx, ghost cur': Shape)
      requires Ready() && At(p, pi, XR(z), cx, Nd(z, zk), k) && (cx.In? ==> cx.up.Top? || |cx.ls| + |cx.rs| >= kx)
      requires i < |zk| && Bounded(cmp, pg.ds, In(cx, z, zk[..i], zk[i + 1..]), k)
      modifies this`r, this`shape, this`h, pg`xs, pg.repr
      ensures Ready() && pg.repr == old(pg.repr) && Contents() == old(Contents())
      ensures At(p', pi', q', cx', cur', k) && cx'.In? && (cx'.up.Top? || |cx'.ls| + |cx'.rs| >= kx) && !cur'.Void?
      ensures h - Depth(cx') == old(h) - Depth(cx) - 1
    {
      hide Struct, Pages.Foot, PageOf, XOcc, DOcc, Items, TotalOrder, Sorted, Bounded, Leaves, Plug;
      ghost var st := State();
      NodeAt(st, cx, z, zk);
      SepsMin(st, cx, z, zk);
      RootIs(st, cx, Nd(z, zk));
      pg.XView(z);
      ghost var up, zk' := cx, zk;
      p', pi' := z, i;
      if z.c < kx && XR(z) != r {
        p', pi', up, zk' := UnderflowX(p, z, pi, i, cx, zk);
      }
      MoveDown(cmp, st, cx, z, zk, i, State(), up, p', zk', pi', k);
      SameRootKind(pg.ds, st.root, r);
      pg.XView(p');
      q' := p'.x[pi'].ch;
      cx', cur' := In(up, p', zk'[..pi'], zk'[pi' + 1..]), zk'[pi'];
    }

    // Delete (lines 207-262).
    method Delete(k: K) returns (ok: bool)
      requires Valid()
      modifies this, pg, pg.repr
      ensures Valid() && pg.repr == old(pg.repr)
      ensures Contents() == Rem(cmp, old(Contents()), k)
      ensures ok <==> Lookup(cmp, old(Contents()), k) != None
    {
      hide Struct, Pages.Foot, XOcc, DOcc, Items, TotalOrder, Sorted, Bounded, SepSpot, KeySpot, SepsOk, Plug, Leaves,
        Pre, Post, Rem, Lookup;
      NoItems(pg.ds);
      ghost var all := Contents();
      var pi: int, p: XPage?, q := -1, null, r;
      NothingIn(cmp, k);
      if q == Nil { return false; }
      ghost var cx, cur := Top, shape;
      RootRef(State());
      PlugTop(shape);
      TopBounded(cmp, pg.ds, k);
      while true
        invariant Ready() && pg.repr == old(pg.repr) && Contents() == all
        invariant At(p, pi, q, cx, cur, k) && !cur.Void? && (cx.In? ==> cx.up.Top? || |cx.ls| + |cx.rs| >= kx)
        decreases h - Depth(cx)
      {
        RootNotNil(State());
        OccNonEmpty(pg.ds, r);
        if q.XR? {
          var z := q.x;
          SepsAreOk(State(), cx, z, cur.kids);
          NodeAt(State(), cx, z, cur.kids);
          var i;
          i, ok := FindX(z, k);
          if ok {
            SepLeaf(State(), cx, z, cur.kids, i);
            SepAtIs(pg.ds, pg.xs[z].seps, i);
            pg.XView(z);
            var dp := z.x[i].sep;
            pg.DView(dp);
            if dp.c > kd {
              RemoveFirst(dp, k, FirstCtx(In(cx, z, cur.kids[..i + 1], cur.kids[i + 2..]), cur.kids[i + 1]));
              return;
            }
            StepOnto(cmp, State(), cx, z, cur.kids, i, k);
            p, pi, q, cx, cur := DescendDelete(p, z, pi, i + 1, k, cx, cur.kids);
          } else {
            StepDown(cmp, State(), cx, z, cur.kids, i, k);
            p, pi, q, cx, cur := DescendDelete(p, z, pi, i, k, cx, cur.kids);
          }
        } else {
          ok := DeleteD(p, q.d, pi, k, cx);
          return;
        }
      }
    }

    // The search for the key ends at a data page (lines 235-247, 258-259).
    method DeleteD(p: XPage?, q: DPage, pi: int, k: K, ghost cx: Ctx) returns (ok: bool)
      requires Ready() && At(p, pi, DR(q), cx, Lf(q), k) && (cx.In? ==> cx.up.Top? || |cx.ls| + |cx.rs| >= kx)
      modifies this, pg, pg.repr
      ensures Valid() && pg.repr == old(pg.repr)
      ensures Contents() == Rem(cmp, old(Contents()), k)
      ensures ok <==> Lookup(cmp, old(Contents()), k) != None
    {
      hide Struct, Pages.Foot, XOcc, DOcc, Items, TotalOrder, Sorted, Bounded, KeySpot, Plug, Leaves, Pre, Post, Rem,
        Lookup;
      RootNotNil(State());
      LeafSplit(State(), cx, q);
      var i;
      i, ok := FindD(q, k);
      ghost var v: V := *;
      if ok {
        FoundSeq(cmp, Items(pg.ds, Pre(cx)), pg.ds[q].es, Items(pg.ds, Post(cx)), i, k, v);
        RemoveAt(p, q, pi, i, k, cx);
      } else {
        BoundedParts(cmp, pg.ds, cx, k);
        MissingSeq(cmp, Items(pg.ds, Pre(cx)), pg.ds[q].es, Items(pg.ds, Post(cx)), i, k, v);
      }
    }

    // The entry of a separator is removed from a page that can spare it (lines 221-224).
    method RemoveFirst(q: DPage, k: K, ghost cx: Ctx)
      requires Ready() && shape == Plug(cx, Lf(q)) && q in pg.ds && |pg.ds[q].es| > kd && cmp(k, pg.ds[q].es[0].k) == 0
      modifies this`c, pg`ds, pg.repr
      ensures Ready() && pg.repr == old(pg.repr) && Contents() == Rem(cmp, old(Contents()), k) && r != Nil
      ensures Lookup(cmp, old(Contents()), k) != None
    {
      hide Struct, Pages.Foot, XOcc, DOcc, Items, TotalOrder, Sorted, Plug, Pre, Post, DelAt;
      ghost var st, es := State(), pg.ds[q].es;
      ghost var v: V := *;
      LeafSplit(st, cx, q);
      FoundSeq(cmp, Items(pg.ds, Pre(cx)), es, Items(pg.ds, Post(cx)), 0, k, v);
      KeepsSorted(cmp, Contents(), k, v);
      DelCount(Items(pg.ds, Pre(cx)), es, Items(pg.ds, Post(cx)), 0);
      DOccAt(pg.ds, r, q);
      RootNotNil(st);
      ExtractD(q, 0, cx);
      SetOcc(st.ds, pg.ds, r, q, DelAt(es, 0));
    }

    // First (lines 314-320).
    method First() returns (e: Option<DE>)
      requires Valid()
      ensures e == if Contents() == [] then None else Some(Contents()[0])
    {
      hide Struct, Pages.Foot, XOcc, DOcc, TotalOrder, Sorted;
      e := None;
      if first != null {
        OccNonEmpty(pg.ds, r);
        EndItems(State());
        pg.DView(first);
        e := Some(first.d[0]);
      } else if r != Nil {
        OccNonEmpty(pg.ds, r);
        EndItems(State());
      }
    }

    // Last (lines 364-370).
    method Last() returns (e: Option<DE>)
      requires Valid()
      ensures e == if Contents() == [] then None else Some(Contents()[|Contents()| - 1])
    {
      hide Struct, Pages.Foot, XOcc, DOcc, TotalOrder, Sorted;
      e := None;
      if last != null {
        OccNonEmpty(pg.ds, r);
        EndItems(State());
        pg.DView(last);
        e := Some(last.d[last.c - 1]);
      } else if r != Nil {
        OccNonEmpty(pg.ds, r);
        EndItems(State());
      }
    }

    method Apply(op: Op)
      requires Valid()
      modifies this, pg, pg.repr
      ensures Valid() && fresh(pg.repr - old(pg.repr)) && Contents() == Step(cmp, old(Contents()), op)
    {
      hide Valid, Contents;
      match op {
        case Set(k, v) => Set(k, v);
        case Delete(k) => var _ := Delete(k);
      }
    }
  }

  /** Any run of Set and Delete on a new tree leaves exactly the last write of every key. */
  method Replay(cmp: Cmp, ops: seq<Op>, k: K) returns (t: Tree, v: Option<V>)
    requires TotalOrder(cmp)
    ensures fresh(t) && t.Valid() && t.cmp == cmp && t.Contents() == Run(cmp, ops)
    ensures v == LastWrite(cmp, ops, k)
  {
    hide Tree.Valid, Tree.Contents, TotalOrder, Step;
    t := new Tree(cmp);
    for n := 0 to |ops|
      invariant fresh(t) && fresh(t.pg) && fresh(t.pg.repr) && t.Valid() && t.cmp == cmp &&
                t.Contents() == Run(cmp, ops[..n])
    {
      assert ops[..n + 1][..n] == ops[..n];
      t.Apply(ops[n]);
    }
    assert ops[..|ops|] == ops;
    v := t.Get(k);
    RunIsFiniteMap(cmp, ops, k);
  }
}
