// Pages of the B+tree in ql/btree.go: fixed arrays shifted in place, linked by pointers.

module SeqOps {
  function InsAt<T>(s: seq<T>, i: nat, e: T): (r: seq<T>)
    requires i <= |s|
    ensures |r| == |s| + 1
    ensures r[i] == e
    ensures forall j :: 0 <= j < i ==> r[j] == s[j]
    ensures forall j :: i < j < |r| ==> r[j] == s[j - 1]
  {
    s[..i] + [e] + s[i..]
  }

  function DelAt<T>(s: seq<T>, i: nat): (r: seq<T>)
    requires i < |s|
    ensures |r| + 1 == |s|
    ensures forall j :: 0 <= j < i ==> r[j] == s[j]
    ensures forall j :: i <= j < |r| ==> r[j] == s[j + 1]
  {
    s[..i] + s[i + 1..]
  }

  /** Go's copy(s[at:], t[lo:lo+n]), which is safe on overlapping slices of one array. */
  ghost function Blit<T>(s: seq<T>, at: nat, t: seq<T>, lo: nat, n: nat): (r: seq<T>)
    requires at + n <= |s| && lo + n <= |t|
    ensures |r| == |s|
    ensures forall j :: 0 <= j < at || at + n <= j < |s| ==> r[j] == s[j]
    ensures forall j :: at <= j < at + n ==> r[j] == t[lo + j - at]
  {
    seq(|s|, j requires 0 <= j < |s| => if at <= j < at + n then t[lo + j - at] else s[j])
  }

  /** The first c elements of an array. */
  ghost function Used<T>(s: seq<T>, c: nat): (r: seq<T>)
    requires c <= |s|
    ensures |r| == c && forall i :: 0 <= i < c ==> r[i] == s[i]
  {
    seq(c, i requires 0 <= i < c => s[i])
  }

  // What mvL leaves in the two pages.
  lemma BlitBack<T>(l: seq<T>, c: nat, r: seq<T>, rc: nat, cnt: nat)
    requires c + cnt <= |l| && cnt <= rc <= |r|
    ensures Used(Blit(l, c, r, 0, cnt), c + cnt) == Used(l, c) + Used(r, rc)[..cnt]
    ensures Used(Blit(r, 0, r, cnt, rc - cnt), rc - cnt) == Used(r, rc)[cnt..]
  {
  }

  // What mvR leaves in the two pages.
  lemma BlitFront<T>(l: seq<T>, c: nat, r: seq<T>, rc: nat, cnt: nat)
    requires cnt <= c <= |l| && rc + cnt <= |r|
    ensures Used(Blit(Blit(r, cnt, r, 0, rc), 0, l, c - cnt, cnt), rc + cnt) == Used(l, c)[c - cnt..] + Used(r, rc)
    ensures Used(l, c - cnt) == Used(l, c)[..c - cnt]
  {
    var g := Blit(r, cnt, r, 0, rc);
    var h, t := Used(Blit(g, 0, l, c - cnt, cnt), rc + cnt), Used(l, c)[c - cnt..] + Used(r, rc);
    forall i | 0 <= i < rc + cnt ensures h[i] == t[i] {
      if cnt <= i { assert g[i] == r[i - cnt]; }
    }
  }

  lemma BlitInsert<T>(s: seq<T>, c: nat, i: nat, e: T)
    requires i <= c < |s|
    ensures Used((if i < c then Blit(s, i + 1, s, i, c - i) else s)[i := e], c + 1) == InsAt(Used(s, c), i, e)
  {
  }

  lemma BlitDelete<T>(s: seq<T>, c: nat, i: nat)
    requires i < c <= |s|
    ensures Used(if i < c - 1 then Blit(s, i, s, i + 1, c - 1 - i) else s, c - 1) == DelAt(Used(s, c), i)
  {
  }

  // s[i] = e, as an update of the whole array.
  method Store<T>(s: array<T>, i: nat, e: T)
    requires i < s.Length
    modifies s
    ensures s[..] == old(s[..])[i := e]
  {
    s[i] := e;
  }

  method Copy<T>(s: array<T>, at: nat, t: array<T>, lo: nat, n: nat)
    requires at + n <= s.Length && lo + n <= t.Length
    modifies s
    ensures s[..] == Blit(old(s[..]), at, old(t[..]), lo, n)
  {
    forall j | 0 <= j < n { s[at + j] := t[lo + j]; }
  }
}

module BTreePages {
  import opened SeqOps

  // Keys and values of the source are opaque interface values.
  type K(!new, 0)
  type V(!new, 0)

  // Half capacities of index and data pages. The proofs hold for all such values;
  // the source uses the witnesses.
  type IndexOrder = k: nat | 2 <= k witness 128
  type DataOrder = k: nat | 1 <= k witness 64
  const kx: IndexOrder
  const kd: DataOrder

  datatype DE = DE(k: K, v: V)
  datatype Ref = Nil | DR(d: DPage) | XR(x: XPage)
  datatype XE = XE(ch: Ref, sep: DPage?)

  /** The used part of a data page: its entries and its neighbour links. */
  datatype DVal = DVal(es: seq<DE>, n: DPage?, p: DPage?)

  /** The used part of an index page: children and the separators between them. */
  datatype XVal = XVal(chs: seq<Ref>, seps: seq<DPage?>)

  ghost function ChOf(es: seq<XE>, n: nat): (r: seq<Ref>)
    requires n <= |es|
    ensures |r| == n && forall i :: 0 <= i < n ==> r[i] == es[i].ch
  {
    seq(n, i requires 0 <= i < n => es[i].ch)
  }

  ghost function SepOf(es: seq<XE>, n: nat): (r: seq<DPage?>)
    requires n <= |es|
    ensures |r| == n && forall i :: 0 <= i < n ==> r[i] == es[i].sep
  {
    seq(n, i requires 0 <= i < n => es[i].sep)
  }

  /** What an index page with array es and count c holds. */
  ghost function View(es: seq<XE>, c: nat): XVal
    requires c < |es|
  {
    XVal(ChOf(es, c + 1), SepOf(es, c))
  }

  // The array after the writes of x.insert, lines 107-115.
  ghost function InsertEs(es: seq<XE>, c: nat, i: nat, d: DPage?, ch: Ref): (fs: seq<XE>)
    requires i <= c && c + 1 < |es|
    ensures |fs| == |es|
  {
    var e1 := if i < c then
                var a := es[c + 1 := es[c + 1].(ch := es[c].ch)];
                var b := Blit(a, i + 2, a, i + 1, c - i - 1);
                b[i + 1 := b[i + 1].(sep := b[i].sep)]
              else es;
    var e2 := e1[i := e1[i].(sep := d)];
    e2[i + 1 := e2[i + 1].(ch := ch)]
  }

  lemma ViewInsert(es: seq<XE>, c: nat, i: nat, d: DPage?, ch: Ref)
    requires i <= c && c + 1 < |es|
    ensures View(InsertEs(es, c, i, d, ch), c + 1)
         == XVal(InsAt(View(es, c).chs, i + 1, ch), InsAt(View(es, c).seps, i, d))
  {
    var fs, w := InsertEs(es, c, i, d, ch), View(es, c);
    var seps, chs := InsAt(w.seps, i, d), InsAt(w.chs, i + 1, ch);
    forall j | 0 <= j < c + 1 ensures fs[j].sep == seps[j] { }
    forall j | 0 <= j < c + 2 ensures fs[j].ch == chs[j] { }
    assert SepOf(fs, c + 1) == seps && ChOf(fs, c + 2) == chs;
  }

  // The array after the writes of x.extract, lines 96-101, for a page whose count was c + 1.
  ghost function ExtractEs(es: seq<XE>, c: nat, i: nat): (fs: seq<XE>)
    requires i <= c && c + 1 < |es|
    ensures |fs| == |es|
  {
    if i < c then
      var a := Blit(es, i, es, i + 1, c - i);
      var b := a[c := XE(a[c + 1].ch, null)];
      b[c + 1 := XE(Nil, null)]
    else es
  }

  lemma ViewExtract(es: seq<XE>, c: nat, i: nat)
    requires i <= c && c + 1 < |es|
    ensures View(ExtractEs(es, c, i), c).seps == DelAt(View(es, c + 1).seps, i)
    ensures View(ExtractEs(es, c, i), c).chs == DelAt(View(es, c + 1).chs, if i < c then i else c + 1)
  {
    var fs, w := ExtractEs(es, c, i), View(es, c + 1);
    var seps, chs := DelAt(w.seps, i), DelAt(w.chs, if i < c then i else c + 1);
    forall j | 0 <= j < c ensures fs[j].sep == seps[j] { }
    forall j | 0 <= j < c + 1 ensures fs[j].ch == chs[j] { }
    assert SepOf(fs, c) == seps && ChOf(fs, c + 1) == chs;
  }

  // The array after the removal of separator i and child i + 1 in catX, lines 190-198.
  ghost function DropEs(es: seq<XE>, c: nat, i: nat): (fs: seq<XE>)
    requires i <= c && c + 1 < |es|
    ensures |fs| == |es|
  {
    if i < c then
      var a := es[i := es[i].(sep := es[i + 1].sep)];
      var b := Blit(a, i + 1, a, i + 2, c - i - 1);
      var d := b[c := XE(b[c + 1].ch, null)];
      d[c + 1 := d[c + 1].(ch := Nil)]
    else es
  }

  lemma ViewDropChs(es: seq<XE>, c: nat, i: nat)
    requires i <= c && c + 1 < |es|
    ensures View(DropEs(es, c, i), c).chs == DelAt(View(es, c + 1).chs, i + 1)
  {
  }

  lemma ViewDropSeps(es: seq<XE>, c: nat, i: nat)
    requires i <= c && c + 1 < |es|
    ensures View(DropEs(es, c, i), c).seps == DelAt(View(es, c + 1).seps, i)
  {
  }

  // The left page after absorbing rs in catX, lines 185-188.
  ghost function AbsorbEs(es: seq<XE>, c: nat, sep: DPage?, rs: seq<XE>, rc: nat): (fs: seq<XE>)
    requires rc < |rs| && c + rc + 1 < |es|
    ensures |fs| == |es|
  {
    var a := es[c := es[c].(sep := sep)];
    var b := Blit(a, c + 1, rs, 0, rc);
    b[c + rc + 1 := b[c + rc + 1].(ch := rs[rc].ch)]
  }

  lemma ViewAbsorb(es: seq<XE>, c: nat, sep: DPage?, rs: seq<XE>, rc: nat)
    requires rc < |rs| && c + rc + 1 < |es|
    ensures View(AbsorbEs(es, c, sep, rs, rc), c + rc + 1)
         == XVal(View(es, c).chs + View(rs, rc).chs, View(es, c).seps + [sep] + View(rs, rc).seps)
  {
    var w := View(AbsorbEs(es, c, sep, rs, rc), c + rc + 1);
    assert w.chs == View(es, c).chs + View(rs, rc).chs;
    assert w.seps == View(es, c).seps + [sep] + View(rs, rc).seps;
  }

  // The page after a child moved in from its left sibling in underflowX, lines 581-585.
  ghost function PushFrontEs(es: seq<XE>, c: nat, ch: Ref, sep: DPage?): (fs: seq<XE>)
    requires c + 1 < |es|
    ensures |fs| == |es|
  {
    var a := es[c + 1 := es[c + 1].(ch := es[c].ch)];
    var b := Blit(a, 1, a, 0, c);
    b[0 := XE(ch, sep)]
  }

  lemma ViewPushFront(es: seq<XE>, c: nat, ch: Ref, sep: DPage?)
    requires c + 1 < |es|
    ensures View(PushFrontEs(es, c, ch, sep), c + 1) == XVal([ch] + View(es, c).chs, [sep] + View(es, c).seps)
  {
    assert View(PushFrontEs(es, c, ch, sep), c + 1).chs == [ch] + View(es, c).chs;
    assert View(PushFrontEs(es, c, ch, sep), c + 1).seps == [sep] + View(es, c).seps;
  }

  // The right sibling after giving up its first child in underflowX, lines 597-602.
  ghost function PopFrontEs(es: seq<XE>, c: nat): (fs: seq<XE>)
    requires c + 1 < |es|
    ensures |fs| == |es|
  {
    var a := Blit(es, 0, es, 1, c);
    var b := a[c := XE(a[c + 1].ch, null)];
    b[c + 1 := b[c + 1].(ch := Nil)]
  }

  lemma ViewPopFront(es: seq<XE>, c: nat)
    requires c + 1 < |es|
    ensures View(PopFrontEs(es, c), c) == XVal(View(es, c + 1).chs[1..], View(es, c + 1).seps[1..])
  {
    assert View(PopFrontEs(es, c), c).chs == View(es, c + 1).chs[1..];
    assert View(PopFrontEs(es, c), c).seps == View(es, c + 1).seps[1..];
  }

  lemma ViewHalves(es: seq<XE>, rs: seq<XE>)
    requires |es| == |rs| == 2 * kx + 2
    ensures View(es, kx) == XVal(View(es, 2 * kx + 1).chs[..kx + 1], View(es, 2 * kx + 1).seps[..kx])
    ensures View(Blit(rs, 0, es, kx + 1, kx + 1), kx)
         == XVal(View(es, 2 * kx + 1).chs[kx + 1..], View(es, 2 * kx + 1).seps[kx + 1..])
  {
    var v, w := View(es, 2 * kx + 1), View(Blit(rs, 0, es, kx + 1, kx + 1), kx);
    assert View(es, kx).chs == v.chs[..kx + 1] && View(es, kx).seps == v.seps[..kx];
    assert w.chs == v.chs[kx + 1..] && w.seps == v.seps[kx + 1..];
  }

  // The array writes themselves.

  method InsertArr(x: array<XE>, c: nat, i: nat, d: DPage?, ch: Ref)
    requires i <= c && c + 1 < x.Length
    modifies x
    ensures x[..] == InsertEs(old(x[..]), c, i, d, ch)
  {
    if i < c {
      Store(x, c + 1, x[c + 1].(ch := x[c].ch));
      ghost var a := x[..];
      Copy(x, i + 2, x, i + 1, c - i - 1);
      ghost var b := x[..];
      assert b == Blit(a, i + 2, a, i + 1, c - i - 1);
      Store(x, i + 1, x[i + 1].(sep := x[i].sep));
      assert x[..] == b[i + 1 := b[i + 1].(sep := b[i].sep)];
    }
    ghost var e := x[..];
    Store(x, i, x[i].(sep := d));
    assert x[..] == e[i := e[i].(sep := d)];
    Store(x, i + 1, x[i + 1].(ch := ch));
  }

  method ExtractArr(x: array<XE>, c: nat, i: nat)
    requires i <= c && c + 1 < x.Length
    modifies x
    ensures x[..] == ExtractEs(old(x[..]), c, i)
  {
    if i < c {
      Copy(x, i, x, i + 1, c - i);
      Store(x, c, XE(x[c + 1].ch, null));
      Store(x, c + 1, XE(Nil, null));
    }
  }

  method DropArr(x: array<XE>, c: nat, i: nat)
    requires i <= c && c + 1 < x.Length
    modifies x
    ensures x[..] == DropEs(old(x[..]), c, i)
  {
    if i < c {
      Store(x, i, x[i].(sep := x[i + 1].sep));
      ghost var a := x[..];
      Copy(x, i + 1, x, i + 2, c - i - 1);
      ghost var b := x[..];
      assert b == Blit(a, i + 1, a, i + 2, c - i - 1);
      Store(x, c, XE(x[c + 1].ch, null));
      assert x[..] == b[c := XE(b[c + 1].ch, null)];
      Store(x, c + 1, x[c + 1].(ch := Nil));
    }
  }

  method AbsorbArr(x: array<XE>, c: nat, sep: DPage?, r: array<XE>, rc: nat)
    requires rc < r.Length && c + rc + 1 < x.Length && x != r
    modifies x
    ensures x[..] == AbsorbEs(old(x[..]), c, sep, r[..], rc)
  {
    Store(x, c, x[c].(sep := sep));
    Copy(x, c + 1, r, 0, rc);
    Store(x, c + rc + 1, x[c + rc + 1].(ch := r[rc].ch));
  }

  method PushFrontArr(x: array<XE>, c: nat, ch: Ref, sep: DPage?)
    requires c + 1 < x.Length
    modifies x
    ensures x[..] == PushFrontEs(old(x[..]), c, ch, sep)
  {
    Store(x, c + 1, x[c + 1].(ch := x[c].ch));
    Copy(x, 1, x, 0, c);
    Store(x, 0, XE(ch, sep));
  }

  method PopFrontArr(x: array<XE>, c: nat)
    requires c + 1 < x.Length
    modifies x
    ensures x[..] == PopFrontEs(old(x[..]), c)
  {
    Copy(x, 0, x, 1, c);
    Store(x, c, XE(x[c + 1].ch, null));
    Store(x, c + 1, x[c + 1].(ch := Nil));
  }

  method MvRArr(l: array<DE>, c: nat, r: array<DE>, rc: nat, cnt: nat)
    requires cnt <= c <= l.Length && rc + cnt <= r.Length && l != r
    modifies r
    ensures r[..] == Blit(Blit(old(r[..]), cnt, old(r[..]), 0, rc), 0, old(l[..]), c - cnt, cnt) && l[..] == old(l[..])
  {
    Copy(r, cnt, r, 0, rc);
    Copy(r, 0, l, c - cnt, cnt);
  }

  method InsertDArr(d: array<DE>, c: nat, i: nat, e: DE)
    requires i <= c < d.Length
    modifies d
    ensures d[..] == (if i < c then Blit(old(d[..]), i + 1, old(d[..]), i, c - i) else old(d[..]))[i := e]
  {
    if i < c {
      Copy(d, i + 1, d, i, c - i);
    }
    Store(d, i, e);
  }

  class DPage {
    var c: nat
    const d: array<DE>
    var n: DPage?
    var p: DPage?

    ghost var val: DVal  // what the page holds

    ghost predicate Ok()
      reads this, d
    {
      && c <= d.Length == 2 * kd + 1
      && val == DVal(Used(d[..], c), n, p)
    }

    constructor ()
      ensures Ok() && fresh(d) && val == DVal([], null, null)
    {
      c, n, p := 0, null, null;
      d := new DE[2 * kd + 1];
      val := DVal([], null, null);
    }

    method SetN(q: DPage?)
      requires Ok()
      modifies this`n, this`val
      ensures Ok() && val == old(val).(n := q)
    {
      n, val := q, val.(n := q);
    }

    method SetP(q: DPage?)
      requires Ok()
      modifies this`p, this`val
      ensures Ok() && val == old(val).(p := q)
    {
      p, val := q, val.(p := q);
    }

    method SetV(i: nat, v: V)
      requires Ok() && i < c
      modifies d, this`val
      ensures Ok() && val == old(val).(es := old(val).es[i := DE(old(val).es[i].k, v)])
    {
      d[i] := d[i].(v := v);
      val := DVal(Used(d[..], c), n, p);
    }

    // Moves the first cnt entries of r to the end of this page.
    method MvL(r: DPage, cnt: nat)
      requires Ok() && r.Ok() && this != r && d != r.d
      requires cnt <= r.c && c + cnt <= d.Length
      modifies this`c, this`val, d, r`c, r`val, r.d
      ensures Ok() && r.Ok()
      ensures val == old(val).(es := old(val).es + old(r.val).es[..cnt])
      ensures r.val == old(r.val).(es := old(r.val).es[cnt..])
    {
      BlitBack(d[..], c, r.d[..], r.c, cnt);
      val, r.val := val.(es := val.es + r.val.es[..cnt]), r.val.(es := r.val.es[cnt..]);
      Copy(d, c, r.d, 0, cnt);
      Copy(r.d, 0, r.d, cnt, r.c - cnt);
      c := c + cnt;
      r.c := r.c - cnt;
    }

    // Moves the last cnt entries of this page to the front of r.
    method MvR(r: DPage, cnt: nat)
      requires Ok() && r.Ok() && this != r && d != r.d
      requires cnt <= c && r.c + cnt <= r.d.Length
      modifies this`c, this`val, d, r`c, r`val, r.d
      ensures Ok() && r.Ok()
      ensures val == old(val).(es := old(val).es[..old(c) - cnt])
      ensures r.val == old(r.val).(es := old(val).es[old(c) - cnt..] + old(r.val).es)
    {
      hide Blit;
      BlitFront(d[..], c, r.d[..], r.c, cnt);
      ghost var les, res := val.es[..c - cnt], val.es[c - cnt..] + r.val.es;
      val, r.val := val.(es := les), r.val.(es := res);
      MvRArr(d, c, r.d, r.c, cnt);
      r.c := r.c + cnt;
      c := c - cnt;
    }

    method Insert(i: nat, k: K, v: V)
      requires Ok() && i <= c < d.Length
      modifies this`c, this`val, d
      ensures Ok() && val == old(val).(es := InsAt(old(val).es, i, DE(k, v)))
    {
      BlitInsert(d[..], c, i, DE(k, v));
      val := val.(es := InsAt(val.es, i, DE(k, v)));
      InsertDArr(d, c, i, DE(k, v));
      c := c + 1;
    }

    method Extract(i: nat)
      requires Ok() && i < c
      modifies this`c, this`val, d
      ensures Ok() && val == old(val).(es := DelAt(old(val).es, i))
    {
      BlitDelete(d[..], c, i);
      val := val.(es := DelAt(val.es, i));
      c := c - 1;
      if i < c {
        Copy(d, i, d, i + 1, c - i);
      }
    }

    // Moves the upper half of a full page to the empty page r.
    method MoveUpper(r: DPage)
      requires Ok() && r.Ok() && this != r && d != r.d && c == 2 * kd && r.c == 0
      modifies this`c, this`val, d, r`c, r`val, r.d
      ensures Ok() && r.Ok()
      ensures val == old(val).(es := old(val).es[..kd])
      ensures r.val == old(r.val).(es := old(val).es[kd..])
    {
      val, r.val := val.(es := val.es[..kd]), r.val.(es := val.es[kd..]);
      Copy(r.d, 0, d, kd, kd);
      c := kd;
      r.c := kd;
    }
  }

  class XPage {
    var c: nat
    const x: array<XE>

    ghost var val: XVal  // what the page holds

    ghost predicate Ok()
      reads this, x
    {
      && c < x.Length == 2 * kx + 2
      && val == View(x[..], c)
    }

    // newX: an index page with one child and no separator.
    constructor (ch0: Ref)
      ensures Ok() && fresh(x) && val == XVal([ch0], [])
    {
      c := 0;
      x := new XE[2 * kx + 2](_ => XE(Nil, null));
      new;
      x[0] := x[0].(ch := ch0);
      val := View(x[..], c);
      assert val.chs == [ch0];
    }

    method Insert(i: nat, d: DPage?, ch: Ref)
      requires Ok() && i <= c < 2 * kx + 1
      modifies this`c, this`val, x
      ensures Ok()
      ensures val == XVal(InsAt(old(val.chs), i + 1, ch), InsAt(old(val.seps), i, d))
    {
      ViewInsert(x[..], c, i, d, ch);
      val := XVal(InsAt(val.chs, i + 1, ch), InsAt(val.seps, i, d));
      InsertArr(x, c, i, d, ch);
      c := c + 1;
    }

    method Extract(i: nat)
      requires Ok() && i < c
      modifies this`c, this`val, x
      ensures Ok()
      ensures val.seps == DelAt(old(val.seps), i)
      ensures val.chs == DelAt(old(val.chs), if i + 1 < old(c) then i else old(c))
    {
      ViewExtract(x[..], c - 1, i);
      val := XVal(DelAt(val.chs, if i + 1 < c then i else c), DelAt(val.seps, i));
      c := c - 1;
      ExtractArr(x, c, i);
    }

    method Drop(i: nat)
      requires Ok() && i < c
      modifies this`c, this`val, x
      ensures Ok() && val == XVal(DelAt(old(val.chs), i + 1), DelAt(old(val.seps), i))
    {
      ViewDropChs(x[..], c - 1, i);
      ViewDropSeps(x[..], c - 1, i);
      val := XVal(DelAt(val.chs, i + 1), DelAt(val.seps, i));
      c := c - 1;
      DropArr(x, c, i);
    }

    method Absorb(sep: DPage?, r: XPage)
      requires Ok() && r.Ok() && r != this && r.x != x && c + r.c + 1 < 2 * kx + 2
      modifies this`c, this`val, x
      ensures Ok() && val == XVal(old(val.chs) + r.val.chs, old(val.seps) + [sep] + r.val.seps)
    {
      ViewAbsorb(x[..], c, sep, r.x[..], r.c);
      val := XVal(val.chs + r.val.chs, val.seps + [sep] + r.val.seps);
      AbsorbArr(x, c, sep, r.x, r.c);
      c := c + r.c + 1;
    }

    // Splits a page with 2*kx + 1 separators: this keeps kx of them, r receives the last kx.
    method MoveUpper(r: XPage)
      requires Ok() && r.Ok() && r != this && r.x != x && c == 2 * kx + 1
      modifies this`c, this`val, r`c, r`val, r.x
      ensures Ok() && r.Ok()
      ensures val == XVal(old(val.chs)[..kx + 1], old(val.seps)[..kx])
      ensures r.val == XVal(old(val.chs)[kx + 1..], old(val.seps)[kx + 1..])
    {
      ViewHalves(x[..], r.x[..]);
      val, r.val := XVal(val.chs[..kx + 1], val.seps[..kx]), XVal(val.chs[kx + 1..], val.seps[kx + 1..]);
      Copy(r.x, 0, x, kx + 1, kx + 1);
      c := kx;
      r.c := kx;
    }

    method PushFront(ch: Ref, sep: DPage?)
      requires Ok() && c < 2 * kx + 1
      modifies this`c, this`val, x
      ensures Ok() && val == XVal([ch] + old(val.chs), [sep] + old(val.seps))
    {
      ViewPushFront(x[..], c, ch, sep);
      val := XVal([ch] + val.chs, [sep] + val.seps);
      PushFrontArr(x, c, ch, sep);
      c := c + 1;
    }

    method PopFront()
      requires Ok() && 0 < c
      modifies this`c, this`val, x
      ensures Ok() && val == XVal(old(val.chs)[1..], old(val.seps)[1..])
    {
      ViewPopFront(x[..], c - 1);
      val := XVal(val.chs[1..], val.seps[1..]);
      c := c - 1;
      PopFrontArr(x, c);
    }

    method PushBack(sep: DPage?, ch: Ref)
      requires Ok() && c < 2 * kx + 1
      modifies this`c, this`val, x
      ensures Ok() && val == XVal(old(val.chs) + [ch], old(val.seps) + [sep])
    {
      ghost var v := val;
      x[c] := x[c].(sep := sep);
      c := c + 1;
      x[c] := x[c].(ch := ch);
      val := View(x[..], c);
      assert val.chs == v.chs + [ch] && val.seps == v.seps + [sep];
    }

    method PopBack()
      requires Ok() && 0 < c
      modifies this`c, this`val
      ensures Ok() && c == old(c) - 1
      ensures val == XVal(old(val.chs)[..old(c)], old(val.seps)[..c])
    {
      ghost var v := val;
      c := c - 1;
      val := View(x[..], c);
      assert val.chs == v.chs[..c + 1] && val.seps == v.seps[..c];
    }

    method SetSep(i: nat, sep: DPage?)
      requires Ok() && i < c
      modifies x, this`val
      ensures Ok() && val == old(val).(seps := old(val.seps)[i := sep])
    {
      ghost var v := val;
      x[i] := x[i].(sep := sep);
      val := View(x[..], c);
      assert val.chs == v.chs && val.seps == v.seps[i := sep];
    }

    method SetCh(i: nat, ch: Ref)
      requires Ok() && i <= c
      modifies x, this`val
      ensures Ok() && val == old(val).(chs := old(val.chs)[i := ch])
    {
      ghost var v := val;
      x[i] := x[i].(ch := ch);
      val := View(x[..], c);
      assert val.chs == v.chs[i := ch] && val.seps == v.seps;
    }
  }
}
