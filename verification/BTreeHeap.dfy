// The pages of one tree in the heap, and each page operation as an update of their contents.

module BTreeHeap {
  import opened SeqOps
  import opened BTreePages
  import opened BTreeShape

  /** The pages reachable from one tree. */
  class Pages {
    ghost var ds: DMap  // what each page holds
    ghost var xs: XMap
    ghost var repr: set<object>

    ghost predicate DFoot()
      reads this, repr
    {
      && (forall d :: d in ds ==> d in repr && d.d in repr && d.Ok() && d.val == ds[d])
      && (forall d, e :: d in ds && e in ds && d != e ==> d.d != e.d)
    }

    ghost predicate XFoot()
      reads this, repr
    {
      && (forall x :: x in xs ==> x in repr && x.x in repr && x.Ok() && x.val == xs[x])
      && (forall x, y :: x in xs && y in xs && x != y ==> x.x != y.x)
    }

    /** Every page is sound and holds what ds and xs say, and no two share an array. */
    ghost predicate Foot()
      reads this, repr
    {
      this !in repr && DFoot() && XFoot()
    }

    constructor ()
      ensures Foot() && ds == map[] && xs == map[] && repr == {}
    {
      ds, xs, repr := map[], map[], {};
    }

    // Reading a page.

    lemma DView(d: DPage)
      requires Foot() && d in ds
      ensures d.c == |ds[d].es| <= d.d.Length == 2 * kd + 1
      ensures forall i :: 0 <= i < d.c ==> d.d[i] == ds[d].es[i]
      ensures d.n == ds[d].n && d.p == ds[d].p
    {
    }

    lemma XView(x: XPage)
      requires Foot() && x in xs
      ensures x.c == |xs[x].seps| == |xs[x].chs| - 1 && x.c < x.x.Length == 2 * kx + 2
      ensures forall i :: 0 <= i <= x.c ==> x.x[i].ch == xs[x].chs[i]
      ensures forall i :: 0 <= i < x.c ==> x.x[i].sep == xs[x].seps[i]
    {
    }

    // Data pages.

    method Insert(q: DPage, i: nat, k: K, v: V)
      requires Foot() && q in ds && i <= |ds[q].es| <= 2 * kd
      modifies this`ds, repr
      ensures Foot() && repr == old(repr) && xs == old(xs)
      ensures ds == old(ds)[q := old(ds[q]).(es := InsAt(old(ds[q].es), i, DE(k, v)))]
    {
      hide DPage.Ok, XPage.Ok;
      DView(q);
      q.Insert(i, k, v);
      ds := ds[q := q.val];
    }

    method Extract(q: DPage, i: nat)
      requires Foot() && q in ds && i < |ds[q].es|
      modifies this`ds, repr
      ensures Foot() && repr == old(repr) && xs == old(xs)
      ensures ds == old(ds)[q := old(ds[q]).(es := DelAt(old(ds[q].es), i))]
    {
      hide DPage.Ok, XPage.Ok;
      DView(q);
      q.Extract(i);
      ds := ds[q := q.val];
    }

    method SetV(q: DPage, i: nat, v: V)
      requires Foot() && q in ds && i < |ds[q].es|
      modifies this`ds, repr
      ensures Foot() && repr == old(repr) && xs == old(xs)
      ensures ds == old(ds)[q := old(ds[q]).(es := old(ds[q].es)[i := DE(old(ds[q].es[i].k), v)])]
    {
      hide DPage.Ok, XPage.Ok;
      DView(q);
      q.SetV(i, v);
      ds := ds[q := q.val];
    }

    method MvL(l: DPage, r: DPage, cnt: nat)
      requires Foot() && l in ds && r in ds && l != r && cnt <= |ds[r].es| && |ds[l].es| + cnt <= 2 * kd + 1
      modifies this`ds, repr
      ensures Foot() && repr == old(repr) && xs == old(xs)
      ensures ds == old(ds)[l := old(ds[l]).(es := old(ds[l].es) + old(ds[r].es)[..cnt])]
                          [r := old(ds[r]).(es := old(ds[r].es)[cnt..])]
    {
      hide DPage.Ok, XPage.Ok;
      DView(l);
      DView(r);
      l.MvL(r, cnt);
      ds := ds[l := l.val][r := r.val];
    }

    method MvR(l: DPage, r: DPage, cnt: nat)
      requires Foot() && l in ds && r in ds && l != r && cnt <= |ds[l].es| && |ds[r].es| + cnt <= 2 * kd + 1
      modifies this`ds, repr
      ensures Foot() && repr == old(repr) && xs == old(xs)
      ensures ds == old(ds)[l := old(ds[l]).(es := old(ds[l].es)[..|old(ds[l].es)| - cnt])]
                          [r := old(ds[r]).(es := old(ds[l].es)[|old(ds[l].es)| - cnt..] + old(ds[r].es))]
    {
      hide DPage.Ok, XPage.Ok;
      DView(l);
      DView(r);
      l.MvR(r, cnt);
      ds := ds[l := l.val][r := r.val];
    }

    method MoveUpper(l: DPage, r: DPage)
      requires Foot() && l in ds && r in ds && l != r && |ds[l].es| == 2 * kd && ds[r].es == []
      modifies this`ds, repr
      ensures Foot() && repr == old(repr) && xs == old(xs)
      ensures ds == old(ds)[l := old(ds[l]).(es := old(ds[l].es)[..kd])]
                          [r := old(ds[r]).(es := old(ds[l].es)[kd..])]
    {
      hide DPage.Ok, XPage.Ok;
      DView(l);
      DView(r);
      l.MoveUpper(r);
      ds := ds[l := l.val][r := r.val];
    }

    method SetN(q: DPage, r: DPage?)
      requires Foot() && q in ds
      modifies this`ds, repr
      ensures Foot() && repr == old(repr) && xs == old(xs)
      ensures ds == old(ds)[q := old(ds[q]).(n := r)]
    {
      hide DPage.Ok, XPage.Ok;
      q.SetN(r);
      ds := ds[q := q.val];
    }

    method SetP(q: DPage, r: DPage?)
      requires Foot() && q in ds
      modifies this`ds, repr
      ensures Foot() && repr == old(repr) && xs == old(xs)
      ensures ds == old(ds)[q := old(ds[q]).(p := r)]
    {
      hide DPage.Ok, XPage.Ok;
      q.SetP(r);
      ds := ds[q := q.val];
    }

    method NewD() returns (r: DPage)
      requires Foot()
      modifies this`ds, this`repr
      ensures Foot() && fresh(repr - old(repr)) && r !in old(ds)
      ensures ds == old(ds)[r := DVal([], null, null)]
    {
      hide DPage.Ok, XPage.Ok;
      r := new DPage();
      ds, repr := ds[r := r.val], repr + {r, r.d};
    }

    // Forgets a page no longer linked from the tree.
    ghost method DropD(r: DPage)
      requires Foot()
      modifies this`ds
      ensures Foot() && ds == old(ds) - {r}
    {
      hide DPage.Ok, XPage.Ok;
      ds := ds - {r};
    }

    ghost method DropAll()
      requires Foot()
      modifies this`ds, this`xs
      ensures Foot() && ds == map[] && xs == map[]
    {
      ds, xs := map[], map[];
    }

    // Index pages.

    method NewX(ch: Ref) returns (x: XPage)
      requires Foot()
      modifies this`xs, this`repr
      ensures Foot() && fresh(repr - old(repr)) && x !in old(xs)
      ensures xs == old(xs)[x := XVal([ch], [])]
    {
      hide DPage.Ok, XPage.Ok;
      x := new XPage(ch);
      xs, repr := xs[x := x.val], repr + {x, x.x};
    }

    ghost method DropX(r: XPage)
      requires Foot()
      modifies this`xs
      ensures Foot() && xs == old(xs) - {r}
    {
      hide DPage.Ok, XPage.Ok;
      xs := xs - {r};
    }

    method XInsert(p: XPage, i: nat, d: DPage?, ch: Ref)
      requires Foot() && p in xs && i <= |xs[p].seps| <= 2 * kx && |xs[p].chs| == |xs[p].seps| + 1
      modifies this`xs, repr
      ensures Foot() && repr == old(repr) && ds == old(ds)
      ensures xs == old(xs)[p := XVal(InsAt(old(xs[p].chs), i + 1, ch), InsAt(old(xs[p].seps), i, d))]
    {
      hide DPage.Ok, XPage.Ok;
      XView(p);
      p.Insert(i, d, ch);
      xs := xs[p := p.val];
    }

    method XExtract(p: XPage, i: nat)
      requires Foot() && p in xs && i < |xs[p].seps| == |xs[p].chs| - 1
      modifies this`xs, repr
      ensures Foot() && repr == old(repr) && ds == old(ds)
      ensures xs == old(xs)[p := XVal(DelAt(old(xs[p].chs), if i + 1 < |old(xs[p].seps)| then i else i + 1),
                                      DelAt(old(xs[p].seps), i))]
    {
      hide DPage.Ok, XPage.Ok;
      XView(p);
      p.Extract(i);
      xs := xs[p := p.val];
    }

    method XSetCh(p: XPage, i: nat, ch: Ref)
      requires Foot() && p in xs && i < |xs[p].chs|
      modifies this`xs, repr
      ensures Foot() && repr == old(repr) && ds == old(ds)
      ensures xs == old(xs)[p := old(xs[p]).(chs := old(xs[p].chs)[i := ch])]
    {
      hide DPage.Ok, XPage.Ok;
      XView(p);
      p.SetCh(i, ch);
      xs := xs[p := p.val];
    }

    method XSetSep(p: XPage, i: nat, sep: DPage?)
      requires Foot() && p in xs && i < |xs[p].seps|
      modifies this`xs, repr
      ensures Foot() && repr == old(repr) && ds == old(ds)
      ensures xs == old(xs)[p := old(xs[p]).(seps := old(xs[p].seps)[i := sep])]
    {
      hide DPage.Ok, XPage.Ok;
      XView(p);
      p.SetSep(i, sep);
      xs := xs[p := p.val];
    }

    method XDrop(p: XPage, i: nat)
      requires Foot() && p in xs && i < |xs[p].seps| == |xs[p].chs| - 1
      modifies this`xs, repr
      ensures Foot() && repr == old(repr) && ds == old(ds)
      ensures xs == old(xs)[p := XVal(DelAt(old(xs[p].chs), i + 1), DelAt(old(xs[p].seps), i))]
    {
      hide DPage.Ok, XPage.Ok;
      XView(p);
      p.Drop(i);
      xs := xs[p := p.val];
    }

    method XAbsorb(p: XPage, sep: DPage?, r: XPage)
      requires Foot() && p in xs && r in xs && p != r && |xs[p].seps| + |xs[r].seps| <= 2 * kx
      modifies this`xs, repr
      ensures Foot() && repr == old(repr) && ds == old(ds)
      ensures xs == old(xs)[p := XVal(old(xs[p].chs) + old(xs[r].chs), old(xs[p].seps) + [sep] + old(xs[r].seps))]
    {
      hide DPage.Ok, XPage.Ok;
      XView(p);
      XView(r);
      p.Absorb(sep, r);
      xs := xs[p := p.val];
    }

    method XMoveUpper(p: XPage, r: XPage)
      requires Foot() && p in xs && r in xs && p != r && |xs[p].seps| == 2 * kx + 1 && |xs[p].chs| == 2 * kx + 2
      modifies this`xs, repr
      ensures Foot() && repr == old(repr) && ds == old(ds)
      ensures xs == old(xs)[p := XVal(old(xs[p].chs)[..kx + 1], old(xs[p].seps)[..kx])]
                          [r := XVal(old(xs[p].chs)[kx + 1..], old(xs[p].seps)[kx + 1..])]
    {
      hide DPage.Ok, XPage.Ok;
      XView(p);
      XView(r);
      p.MoveUpper(r);
      xs := xs[p := p.val][r := r.val];
    }

    method XPushFront(p: XPage, ch: Ref, sep: DPage?)
      requires Foot() && p in xs && |xs[p].seps| <= 2 * kx
      modifies this`xs, repr
      ensures Foot() && repr == old(repr) && ds == old(ds)
      ensures xs == old(xs)[p := XVal([ch] + old(xs[p].chs), [sep] + old(xs[p].seps))]
    {
      hide DPage.Ok, XPage.Ok;
      XView(p);
      p.PushFront(ch, sep);
      xs := xs[p := p.val];
    }

    method XPopFront(p: XPage)
      requires Foot() && p in xs && 0 < |xs[p].seps| < |xs[p].chs|
      modifies this`xs, repr
      ensures Foot() && repr == old(repr) && ds == old(ds)
      ensures xs == old(xs)[p := XVal(old(xs[p].chs)[1..], old(xs[p].seps)[1..])]
    {
      hide DPage.Ok, XPage.Ok;
      XView(p);
      p.PopFront();
      xs := xs[p := p.val];
    }

    method XPushBack(p: XPage, sep: DPage?, ch: Ref)
      requires Foot() && p in xs && |xs[p].seps| <= 2 * kx
      modifies this`xs, repr
      ensures Foot() && repr == old(repr) && ds == old(ds)
      ensures xs == old(xs)[p := XVal(old(xs[p].chs) + [ch], old(xs[p].seps) + [sep])]
    {
      hide DPage.Ok, XPage.Ok;
      XView(p);
      p.PushBack(sep, ch);
      xs := xs[p := p.val];
    }

    method XPopBack(p: XPage)
      requires Foot() && p in xs && 0 < |xs[p].seps| == |xs[p].chs| - 1
      modifies this`xs, repr
      ensures Foot() && repr == old(repr) && ds == old(ds)
      ensures xs == old(xs)[p := XVal(old(xs[p].chs)[..|old(xs[p].seps)|], old(xs[p].seps)[..|old(xs[p].seps)| - 1])]
    {
      hide DPage.Ok, XPage.Ok;
      XView(p);
      p.PopBack();
      xs := xs[p := p.val];
    }
  }
}
