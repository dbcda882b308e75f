// The tree that the linked pages represent, and what replacing a part of it keeps.

module BTreeShape {
  import opened SeqOps
  import opened BTreePages

  // Void stands for the tree without pages; it is no part of any other shape.
  datatype Shape = Void | Lf(d: DPage) | Nd(x: XPage, kids: seq<Shape>)

  type XMap = map<XPage, XVal>
  type DMap = map<DPage, DVal>

  ghost function RefOf(s: Shape): Ref {
    match s
    case Void => Nil
    case Lf(d) => DR(d)
    case Nd(x, _) => XR(x)
  }

  /** The leftmost data page. */
  ghost function First(s: Shape): DPage? {
    match s
    case Void => null
    case Lf(d) => d
    case Nd(_, kids) => if kids == [] then null else First(kids[0])
  }

  ghost function Leaves(s: Shape): seq<DPage> {
    match s
    case Void => []
    case Lf(d) => [d]
    case Nd(_, kids) => LeavesL(kids)
  }

  ghost function LeavesL(ks: seq<Shape>): seq<DPage> {
    if ks == [] then [] else Leaves(ks[0]) + LeavesL(ks[1..])
  }

  /** The index pages, with multiplicity. */
  ghost function Xs(s: Shape): multiset<XPage> {
    match s
    case Void => multiset{}
    case Lf(_) => multiset{}
    case Nd(x, kids) => multiset{x} + XsL(kids)
  }

  ghost function XsL(ks: seq<Shape>): multiset<XPage> {
    if ks == [] then multiset{} else Xs(ks[0]) + XsL(ks[1..])
  }

  ghost function Refs(ks: seq<Shape>): (r: seq<Ref>)
    ensures |r| == |ks| && forall i :: 0 <= i < |ks| ==> r[i] == RefOf(ks[i])
  {
    seq(|ks|, i requires 0 <= i < |ks| => RefOf(ks[i]))
  }

  ghost function Firsts(ks: seq<Shape>): (r: seq<DPage?>)
    ensures |r| == |ks| && forall i :: 0 <= i < |ks| ==> r[i] == First(ks[i])
  {
    seq(|ks|, i requires 0 <= i < |ks| => First(ks[i]))
  }

  /** The index page with these children. */
  ghost function PageOf(ks: seq<Shape>): XVal
    requires |ks| > 0
  {
    XVal(Refs(ks), Firsts(ks[1..]))
  }

  /** The index pages xs represent shape s of height h: children in order, and each separator
      is the leftmost data page of the subtree to its right. */
  ghost predicate WF(xs: XMap, s: Shape, h: nat)
    decreases h
  {
    match s
    case Void => false
    case Lf(_) => h == 0
    case Nd(x, kids) =>
      && h > 0
      && |kids| > 0
      && x in xs
      && xs[x] == PageOf(kids)
      && forall i :: 0 <= i < |kids| ==> WF(xs, kids[i], h - 1)
  }

  ghost predicate AllWF(xs: XMap, ks: seq<Shape>, h: nat) {
    forall i :: 0 <= i < |ks| ==> WF(xs, ks[i], h)
  }

  ghost predicate Agree(xs: XMap, ys: XMap, on: multiset<XPage>) {
    forall x :: x in on && x in xs ==> x in ys && ys[x] == xs[x]
  }

  lemma {:induction false} LeavesLConcat(a: seq<Shape>, b: seq<Shape>)
    ensures LeavesL(a + b) == LeavesL(a) + LeavesL(b)
    ensures XsL(a + b) == XsL(a) + XsL(b)
  {
    hide Leaves, Xs;
    if a == [] {
      assert a + b == b;
    } else {
      assert (a + b)[0] == a[0] && (a + b)[1..] == a[1..] + b;
      LeavesLConcat(a[1..], b);
    }
  }

  lemma {:induction false} LeavesLSingle(s: Shape)
    ensures LeavesL([s]) == Leaves(s) && XsL([s]) == Xs(s)
  {
    assert [s][1..] == [];
  }

  lemma {:induction false} LeavesLMid(a: seq<Shape>, m: seq<Shape>, b: seq<Shape>)
    ensures LeavesL(a + m + b) == LeavesL(a) + LeavesL(m) + LeavesL(b)
    ensures XsL(a + m + b) == XsL(a) + XsL(m) + XsL(b)
  {
    LeavesLConcat(a + m, b);
    LeavesLConcat(a, m);
  }

  lemma {:induction false} FirstIsLeaf(xs: XMap, s: Shape, h: nat)
    requires WF(xs, s, h)
    ensures |Leaves(s)| > 0 && Leaves(s)[0] == First(s)
    decreases h
  {
    if s.Nd? {
      FirstIsLeaf(xs, s.kids[0], h - 1);
    }
  }

  lemma {:induction false} KidXs(ks: seq<Shape>, i: nat)
    requires i < |ks|
    ensures Xs(ks[i]) <= XsL(ks)
  {
    if i > 0 { KidXs(ks[1..], i - 1); }
  }

  lemma {:induction false} WFFrame(xs: XMap, ys: XMap, s: Shape, h: nat)
    requires WF(xs, s, h) && Agree(xs, ys, Xs(s))
    ensures WF(ys, s, h)
    decreases h
  {
    if s.Nd? {
      forall i | 0 <= i < |s.kids| ensures WF(ys, s.kids[i], h - 1) {
        KidXs(s.kids, i);
        WFFrame(xs, ys, s.kids[i], h - 1);
      }
    }
  }

  lemma {:induction false} PageConcat(a: seq<Shape>, b: seq<Shape>)
    requires |a| > 0 && |b| > 0
    ensures PageOf(a + b) == XVal(PageOf(a).chs + PageOf(b).chs, PageOf(a).seps + [First(b[0])] + PageOf(b).seps)
  {
    var ss, ts := Firsts((a + b)[1..]), Firsts(a[1..]) + [First(b[0])] + Firsts(b[1..]);
    forall i | 0 <= i < |ss| ensures ss[i] == ts[i] {
      assert ss[i] == First((a + b)[i + 1]);
      if i < |a| - 1 {
        assert ts[i] == First(a[i + 1]);
      } else if i > |a| - 1 {
        assert ts[i] == Firsts(b[1..])[i - |a|] == First(b[i - |a| + 1]);
      }
    }
    assert ss == ts;
    assert Refs(a + b) == Refs(a) + Refs(b);
  }

  lemma {:induction false} PageSingle(s: Shape)
    ensures PageOf([s]) == XVal([RefOf(s)], [])
  {
    assert Refs([s]) == [RefOf(s)] && [s][1..] == [];
  }

  // A kid replaced by two, two kids by one, two kids by two.

  lemma {:induction false} KidInsert(ks: seq<Shape>, j: nat, s: Shape, r: Shape, i: nat)
    requires j < |ks| && i <= |ks|
    ensures (ks[..j] + [s, r] + ks[j + 1..])[i] == if i < j then ks[i] else if i == j then s
            else if i == j + 1 then r else ks[i - 1]
  {
  }

  lemma {:induction false} RefsInsert(ks: seq<Shape>, j: nat, s: Shape, r: Shape)
    requires j < |ks| && RefOf(s) == RefOf(ks[j])
    ensures Refs(ks[..j] + [s, r] + ks[j + 1..]) == InsAt(Refs(ks), j + 1, RefOf(r))
  {
    var ls := ks[..j] + [s, r] + ks[j + 1..];
    forall i | 0 <= i < |ls| ensures Refs(ls)[i] == InsAt(Refs(ks), j + 1, RefOf(r))[i] {
      KidInsert(ks, j, s, r, i);
    }
  }

  lemma {:induction false} FirstsInsert(ks: seq<Shape>, j: nat, s: Shape, r: Shape)
    requires j < |ks| && First(s) == First(ks[j])
    ensures Firsts((ks[..j] + [s, r] + ks[j + 1..])[1..]) == InsAt(Firsts(ks[1..]), j, First(r))
  {
    var ls := ks[..j] + [s, r] + ks[j + 1..];
    forall i | 0 <= i < |ls| - 1 ensures Firsts(ls[1..])[i] == InsAt(Firsts(ks[1..]), j, First(r))[i] {
      KidInsert(ks, j, s, r, i + 1);
    }
  }

  lemma {:induction false} PageInsert(ks: seq<Shape>, j: nat, s: Shape, r: Shape)
    requires j < |ks| && RefOf(s) == RefOf(ks[j]) && First(s) == First(ks[j])
    ensures PageOf(ks[..j] + [s, r] + ks[j + 1..])
         == XVal(InsAt(PageOf(ks).chs, j + 1, RefOf(r)), InsAt(PageOf(ks).seps, j, First(r)))
  {
    RefsInsert(ks, j, s, r);
    FirstsInsert(ks, j, s, r);
  }

  lemma {:induction false} PageDrop(ks: seq<Shape>, j: nat, s: Shape)
    requires j + 1 < |ks| && RefOf(s) == RefOf(ks[j]) && First(s) == First(ks[j])
    ensures PageOf(ks[..j] + [s] + ks[j + 2..])
         == XVal(DelAt(PageOf(ks).chs, j + 1), DelAt(PageOf(ks).seps, j))
  {
    var ls := ks[..j] + [s] + ks[j + 2..];
    assert ls[j] == s;
    assert forall i :: 0 <= i < j ==> ls[i] == ks[i];
    assert forall i :: j < i < |ls| ==> ls[i] == ks[i + 1];
    assert PageOf(ls).chs == DelAt(PageOf(ks).chs, j + 1);
    assert PageOf(ls).seps == DelAt(PageOf(ks).seps, j);
  }

  lemma {:induction false} PageShift(ks: seq<Shape>, j: nat, s: Shape, r: Shape)
    requires j + 1 < |ks| && RefOf(s) == RefOf(ks[j]) && First(s) == First(ks[j]) && RefOf(r) == RefOf(ks[j + 1])
    ensures PageOf(ks[..j] + [s, r] + ks[j + 2..]) == PageOf(ks).(seps := PageOf(ks).seps[j := First(r)])
  {
    var ls, v := ks[..j] + [s, r] + ks[j + 2..], PageOf(ks);
    forall i | 0 <= i < |ls| ensures RefOf(ls[i]) == v.chs[i] {
      if i != j && i != j + 1 { assert ls[i] == ks[i]; }
    }
    assert PageOf(ls).chs == v.chs;
    forall i | 0 <= i < |ls| - 1 ensures PageOf(ls).seps[i] == v.seps[j := First(r)][i] {
      if i != j { assert v.seps[i] == First(ks[i + 1]); }
      if i + 1 != j && i != j { assert ls[i + 1] == ks[i + 1]; }
    }
    assert PageOf(ls).seps == v.seps[j := First(r)];
  }

  lemma {:induction false} PageSame(ks: seq<Shape>, j: nat, s: Shape)
    requires j < |ks| && RefOf(s) == RefOf(ks[j]) && First(s) == First(ks[j])
    ensures PageOf(ks[..j] + [s] + ks[j + 1..]) == PageOf(ks)
  {
    var ls := ks[..j] + [s] + ks[j + 1..];
    assert PageOf(ls).chs == PageOf(ks).chs && PageOf(ls).seps == PageOf(ks).seps;
  }

  lemma {:induction false} FrameKid(xs: XMap, ys: XMap, kids: seq<Shape>, i: nat, h: nat)
    requires i < |kids| && WF(xs, kids[i], h) && Agree(xs, ys, XsL(kids))
    ensures WF(ys, kids[i], h)
  {
    KidXs(kids, i);
    WFFrame(xs, ys, kids[i], h);
  }

  lemma {:induction false} FrameKids(xs: XMap, ys: XMap, ks: seq<Shape>, h: nat)
    requires AllWF(xs, ks, h) && Agree(xs, ys, XsL(ks))
    ensures AllWF(ys, ks, h)
  {
    forall i | 0 <= i < |ks| ensures WF(ys, ks[i], h) {
      FrameKid(xs, ys, ks, i, h);
    }
  }

  lemma {:induction false} AllConcat(xs: XMap, a: seq<Shape>, b: seq<Shape>, h: nat)
    ensures AllWF(xs, a + b, h) <==> AllWF(xs, a, h) && AllWF(xs, b, h)
  {
    if AllWF(xs, a + b, h) {
      assert forall i :: 0 <= i < |a| ==> a[i] == (a + b)[i];
      assert forall i :: 0 <= i < |b| ==> b[i] == (a + b)[|a| + i];
    }
  }

  /** Replacing neighbouring children, with the page updated to match, keeps a subtree well formed. */
  lemma {:induction false} SegReplace(xs: XMap, ys: XMap, p: XPage, a: seq<Shape>, m: seq<Shape>, m': seq<Shape>,
                                      b: seq<Shape>, h: nat)
    requires h > 0 && WF(xs, Nd(p, a + m + b), h)
    requires |m| > 0 && |m'| > 0 && First(m'[0]) == First(m[0])
    requires p in ys && ys[p] == PageOf(a + m' + b)
    requires AllWF(ys, m', h - 1)
    requires Agree(xs, ys, XsL(a) + XsL(b))
    ensures WF(ys, Nd(p, a + m' + b), h)
    ensures First(Nd(p, a + m' + b)) == First(Nd(p, a + m + b))
  {
    assert AllWF(xs, a + m + b, h - 1);
    AllConcat(xs, a + m, b, h - 1);
    AllConcat(xs, a, m, h - 1);
    FrameKids(xs, ys, a, h - 1);
    FrameKids(xs, ys, b, h - 1);
    AllConcat(ys, a, m', h - 1);
    AllConcat(ys, a + m', b, h - 1);
    assert (a + m + b)[0] == if a == [] then m[0] else a[0];
    assert (a + m' + b)[0] == if a == [] then m'[0] else a[0];
  }

  /** Everything of a tree around one subtree. */
  datatype Ctx = Top | In(up: Ctx, x: XPage, ls: seq<Shape>, rs: seq<Shape>)

  ghost function Plug(c: Ctx, s: Shape): Shape {
    match c
    case Top => s
    case In(up, x, ls, rs) => Plug(up, Nd(x, ls + [s] + rs))
  }

  ghost function Depth(c: Ctx): nat {
    if c.Top? then 0 else 1 + Depth(c.up)
  }

  ghost function CtxXs(c: Ctx): multiset<XPage> {
    match c
    case Top => multiset{}
    case In(up, x, ls, rs) => CtxXs(up) + multiset{x} + XsL(ls) + XsL(rs)
  }

  ghost function Pre(c: Ctx): seq<DPage> {
    match c
    case Top => []
    case In(up, _, ls, _) => Pre(up) + LeavesL(ls)
  }

  ghost function Post(c: Ctx): seq<DPage> {
    match c
    case Top => []
    case In(up, _, _, rs) => LeavesL(rs) + Post(up)
  }

  lemma {:induction false} Regroup<T>(a: seq<T>, b: seq<T>, c: seq<T>, d: seq<T>, e: seq<T>)
    ensures a + (b + c + d) + e == (a + b) + c + (d + e)
  {
  }

  lemma {:induction false} PlugLeaves(c: Ctx, s: Shape)
    ensures Leaves(Plug(c, s)) == Pre(c) + Leaves(s) + Post(c)
  {
    if c.In? {
      var kids := c.ls + [s] + c.rs;
      PlugLeaves(c.up, Nd(c.x, kids));
      LeavesLMid(c.ls, [s], c.rs);
      LeavesLSingle(s);
      Regroup(Pre(c.up), LeavesL(c.ls), Leaves(s), LeavesL(c.rs), Post(c.up));
    }
  }

  lemma {:induction false} PlugXs(c: Ctx, s: Shape)
    ensures Xs(Plug(c, s)) == CtxXs(c) + Xs(s)
  {
    if c.In? {
      PlugXs(c.up, Nd(c.x, c.ls + [s] + c.rs));
      LeavesLMid(c.ls, [s], c.rs);
      LeavesLSingle(s);
    }
  }

  lemma {:induction false} PlugWF(xs: XMap, c: Ctx, s: Shape, h: nat)
    requires WF(xs, Plug(c, s), h)
    ensures Depth(c) <= h && WF(xs, s, h - Depth(c))
    decreases c
  {
    if c.In? {
      var kids := c.ls + [s] + c.rs;
      PlugWF(xs, c.up, Nd(c.x, kids), h);
      assert kids[|c.ls|] == s;
    }
  }

  lemma {:induction false} KidReplace(xs: XMap, ys: XMap, x: XPage, ls: seq<Shape>, s: Shape, t: Shape, rs: seq<Shape>,
                                      h: nat)
    requires h > 0 && WF(xs, Nd(x, ls + [s] + rs), h) && WF(ys, t, h - 1)
    requires RefOf(t) == RefOf(s) && First(t) == First(s)
    requires Agree(xs, ys, multiset{x} + XsL(ls) + XsL(rs))
    ensures WF(ys, Nd(x, ls + [t] + rs), h)
    ensures First(Nd(x, ls + [t] + rs)) == First(Nd(x, ls + [s] + rs))
  {
    var kids, a := ls + [s] + rs, |ls|;
    assert kids[..a] == ls && kids[a + 1..] == rs && kids[a] == s;
    PageSame(kids, a, t);
    SegReplace(xs, ys, x, ls, [s], [t], rs, h);
  }

  lemma {:induction false} PlugReplace(xs: XMap, ys: XMap, c: Ctx, s: Shape, t: Shape, h: nat)
    requires WF(xs, Plug(c, s), h) && Depth(c) <= h && WF(ys, t, h - Depth(c))
    requires RefOf(t) == RefOf(s) && First(t) == First(s)
    requires Agree(xs, ys, CtxXs(c))
    ensures WF(ys, Plug(c, t), h)
    decreases c
  {
    if c.In? {
      PlugWF(xs, c.up, Nd(c.x, c.ls + [s] + c.rs), h);
      KidReplace(xs, ys, c.x, c.ls, s, t, c.rs, h - Depth(c.up));
      PlugReplace(xs, ys, c.up, Nd(c.x, c.ls + [s] + c.rs), Nd(c.x, c.ls + [t] + c.rs), h);
    }
  }
}
