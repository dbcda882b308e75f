// The finite map a B+tree stands for: entries in collating order, looked up, set and removed.

module BTreeOrder {
  import opened BTreePages
  import opened Options

  type Cmp = (K, K) -> int

  // Always true: names the triples for which proofs use transitivity.
  ghost predicate Chain(a: K, b: K, c: K) {
    true
  }

  /** The collating function is a total preorder; keys comparing equal are the same key of the map. */
  ghost predicate TotalOrder(cmp: Cmp) {
    && (forall a, b :: cmp(a, b) < 0 <==> cmp(b, a) > 0)
    && (forall a, b, c {:trigger Chain(a, b, c)} ::
          Chain(a, b, c) && cmp(a, b) <= 0 && cmp(b, c) <= 0 ==> cmp(a, c) <= 0)
  }

  lemma Trans(cmp: Cmp, a: K, b: K, c: K)
    requires TotalOrder(cmp) && cmp(a, b) <= 0 && cmp(b, c) <= 0
    ensures cmp(a, c) <= 0
    ensures cmp(a, b) < 0 || cmp(b, c) < 0 ==> cmp(a, c) < 0
  {
    assert Chain(a, b, c) && Chain(b, c, a) && Chain(c, a, b);
  }

  ghost predicate Sorted(cmp: Cmp, s: seq<DE>) {
    forall i, j :: 0 <= i < j < |s| ==> cmp(s[i].k, s[j].k) < 0
  }

  /** Every entry of s collates before k. */
  ghost predicate Below(cmp: Cmp, s: seq<DE>, k: K) {
    forall i :: 0 <= i < |s| ==> cmp(k, s[i].k) > 0
  }

  /** Every entry of s collates after k. */
  ghost predicate Above(cmp: Cmp, s: seq<DE>, k: K) {
    forall i :: 0 <= i < |s| ==> cmp(k, s[i].k) < 0
  }

  // The reference map, as functions on the entries in order.

  ghost function Lookup(cmp: Cmp, s: seq<DE>, k: K): Option<V> {
    if s == [] then None else if cmp(k, s[0].k) == 0 then Some(s[0].v) else Lookup(cmp, s[1..], k)
  }

  ghost function Put(cmp: Cmp, s: seq<DE>, k: K, v: V): seq<DE> {
    if s == [] || cmp(k, s[0].k) < 0 then [DE(k, v)] + s
    else if cmp(k, s[0].k) == 0 then [DE(s[0].k, v)] + s[1..]
    else [s[0]] + Put(cmp, s[1..], k, v)
  }

  ghost function Rem(cmp: Cmp, s: seq<DE>, k: K): seq<DE> {
    if s == [] then [] else if cmp(k, s[0].k) == 0 then s[1..] else [s[0]] + Rem(cmp, s[1..], k)
  }

  // Where the entry of a key is decides what the reference map does.

  lemma {:induction false} LookupFound(cmp: Cmp, a: seq<DE>, e: DE, b: seq<DE>, k: K)
    requires Below(cmp, a, k) && cmp(k, e.k) == 0
    ensures Lookup(cmp, a + [e] + b, k) == Some(e.v)
  {
    var s := a + [e] + b;
    if a != [] {
      assert s[1..] == a[1..] + [e] + b;
      LookupFound(cmp, a[1..], e, b, k);
    }
  }

  lemma {:induction false} PutFound(cmp: Cmp, a: seq<DE>, e: DE, b: seq<DE>, k: K, v: V)
    requires Below(cmp, a, k) && cmp(k, e.k) == 0
    ensures Put(cmp, a + [e] + b, k, v) == a + [DE(e.k, v)] + b
  {
    var s := a + [e] + b;
    if a == [] {
      assert s[0] == e && s[1..] == b;
    } else {
      assert s[0] == a[0] && s[1..] == a[1..] + [e] + b;
      PutFound(cmp, a[1..], e, b, k, v);
      assert a + [DE(e.k, v)] + b == [a[0]] + (a[1..] + [DE(e.k, v)] + b);
    }
  }

  lemma {:induction false} RemFound(cmp: Cmp, a: seq<DE>, e: DE, b: seq<DE>, k: K)
    requires Below(cmp, a, k) && cmp(k, e.k) == 0
    ensures Rem(cmp, a + [e] + b, k) == a + b
  {
    var s := a + [e] + b;
    if a == [] {
      assert s[0] == e && s[1..] == b;
    } else {
      assert s[0] == a[0] && s[1..] == a[1..] + [e] + b;
      RemFound(cmp, a[1..], e, b, k);
      assert a + b == [a[0]] + (a[1..] + b);
    }
  }

  lemma {:induction false} AtFound(cmp: Cmp, a: seq<DE>, e: DE, b: seq<DE>, k: K, v: V)
    requires Below(cmp, a, k) && cmp(k, e.k) == 0
    ensures Lookup(cmp, a + [e] + b, k) == Some(e.v)
    ensures Put(cmp, a + [e] + b, k, v) == a + [DE(e.k, v)] + b
    ensures Rem(cmp, a + [e] + b, k) == a + b
  {
    LookupFound(cmp, a, e, b, k);
    PutFound(cmp, a, e, b, k, v);
    RemFound(cmp, a, e, b, k);
  }

  lemma {:induction false} PutMissing(cmp: Cmp, a: seq<DE>, b: seq<DE>, k: K, v: V)
    requires Below(cmp, a, k) && Above(cmp, b, k)
    ensures Put(cmp, a + b, k, v) == a + [DE(k, v)] + b
  {
    if a == [] {
      assert a + b == b;
    } else {
      assert (a + b)[1..] == a[1..] + b;
      PutMissing(cmp, a[1..], b, k, v);
      assert a + [DE(k, v)] + b == [a[0]] + (a[1..] + [DE(k, v)] + b);
    }
  }

  lemma {:induction false} RemMissing(cmp: Cmp, s: seq<DE>, k: K)
    requires forall i :: 0 <= i < |s| ==> cmp(k, s[i].k) != 0
    ensures Lookup(cmp, s, k) == None && Rem(cmp, s, k) == s
  {
    if s != [] {
      RemMissing(cmp, s[1..], k);
      assert s == [s[0]] + s[1..];
    }
  }

  lemma {:induction false} AtMissing(cmp: Cmp, a: seq<DE>, b: seq<DE>, k: K, v: V)
    requires Below(cmp, a, k) && Above(cmp, b, k)
    ensures Lookup(cmp, a + b, k) == None
    ensures Put(cmp, a + b, k, v) == a + [DE(k, v)] + b
    ensures Rem(cmp, a + b, k) == a + b
  {
    PutMissing(cmp, a, b, k, v);
    RemMissing(cmp, a + b, k);
  }

  /** In order, every key splits the entries into smaller ones, at most one equal one and larger ones. */
  lemma {:induction false} Split(cmp: Cmp, s: seq<DE>, k: K) returns (a: seq<DE>, m: seq<DE>, b: seq<DE>)
    requires TotalOrder(cmp) && Sorted(cmp, s)
    ensures s == a + m + b && |m| <= 1 && Below(cmp, a, k) && Above(cmp, b, k)
    ensures m != [] ==> cmp(k, m[0].k) == 0
  {
    hide TotalOrder, Above;
    NothingAbove(cmp, k);
    if s == [] {
      a, m, b := [], [], [];
    } else if cmp(k, s[0].k) < 0 {
      a, m, b := [], [], s;
      AllAbove(cmp, s, k);
    } else if cmp(k, s[0].k) == 0 {
      a, m, b := [], s[..1], s[1..];
      AllAbove(cmp, s, k);
    } else {
      var a0;
      a0, m, b := Split(cmp, s[1..], k);
      a := [s[0]] + a0;
      Prepend(s[0], s[1..], a0, m, b);
      assert s == [s[0]] + s[1..];
    }
  }

  lemma NothingAbove(cmp: Cmp, k: K)
    ensures Above(cmp, [], k)
  {
  }

  lemma Prepend(e: DE, s: seq<DE>, a: seq<DE>, m: seq<DE>, b: seq<DE>)
    requires s == a + m + b
    ensures [e] + s == [e] + a + m + b
  {
  }

  lemma {:induction false} AllAbove(cmp: Cmp, s: seq<DE>, k: K)
    requires TotalOrder(cmp) && Sorted(cmp, s) && s != [] && cmp(k, s[0].k) <= 0
    ensures Above(cmp, s[1..], k) && (cmp(k, s[0].k) < 0 ==> Above(cmp, s, k))
  {
    forall i | 0 < i < |s| ensures cmp(k, s[i].k) < 0 { Trans(cmp, k, s[0].k, s[i].k); }
  }

  /** Set and Delete keep the entries in order. */
  lemma {:induction false} KeepsSorted(cmp: Cmp, s: seq<DE>, k: K, v: V)
    requires TotalOrder(cmp) && Sorted(cmp, s)
    ensures Sorted(cmp, Put(cmp, s, k, v)) && Sorted(cmp, Rem(cmp, s, k))
  {
    var a, m, b := Split(cmp, s, k);
    if m == [] {
      assert s == a + b;
      AtMissing(cmp, a, b, k, v);
      SortedJoin(cmp, a, k, v, b);
    } else {
      assert m == [m[0]];
      AtFound(cmp, a, m[0], b, k, v);
      SortedPart(cmp, a, m[0], b, DE(m[0].k, v));
    }
  }

  lemma SortedPart(cmp: Cmp, a: seq<DE>, e: DE, b: seq<DE>, f: DE)
    requires Sorted(cmp, a + [e] + b) && f.k == e.k
    ensures Sorted(cmp, a + [f] + b) && Sorted(cmp, a + b)
  {
    var s, t, u := a + [e] + b, a + [f] + b, a + b;
    forall i, j | 0 <= i < j < |t| ensures cmp(t[i].k, t[j].k) < 0 {
      assert t[i].k == s[i].k && t[j].k == s[j].k;
    }
    forall i, j | 0 <= i < j < |u| ensures cmp(u[i].k, u[j].k) < 0 {
      var i', j' := if i < |a| then i else i + 1, if j < |a| then j else j + 1;
      assert u[i] == s[i'] && u[j] == s[j'];
    }
  }

  lemma SortedJoin(cmp: Cmp, a: seq<DE>, k: K, v: V, b: seq<DE>)
    requires TotalOrder(cmp) && Sorted(cmp, a + b) && Below(cmp, a, k) && Above(cmp, b, k)
    ensures Sorted(cmp, a + [DE(k, v)] + b)
  {
    var s, t := a + b, a + [DE(k, v)] + b;
    forall i, j | 0 <= i < j < |t| ensures cmp(t[i].k, t[j].k) < 0 {
      if i != |a| && j != |a| {
        var i', j' := if i < |a| then i else i - 1, if j < |a| then j else j - 1;
        assert t[i] == s[i'] && t[j] == s[j'];
      }
    }
  }

  lemma LookupEq(cmp: Cmp, s: seq<DE>, k: K, q: K)
    requires TotalOrder(cmp) && cmp(k, q) == 0
    ensures Lookup(cmp, s, k) == Lookup(cmp, s, q)
  {
    if s != [] {
      assert cmp(q, k) == 0;
      if cmp(k, s[0].k) == 0 { Trans(cmp, q, k, s[0].k); }
      if cmp(q, s[0].k) == 0 { Trans(cmp, k, q, s[0].k); }
      if cmp(q, s[0].k) == 0 { assert cmp(s[0].k, q) == 0; Trans(cmp, s[0].k, q, k); }
      if cmp(k, s[0].k) == 0 { assert cmp(s[0].k, k) == 0; Trans(cmp, s[0].k, k, q); }
      LookupEq(cmp, s[1..], k, q);
    }
  }

  /** The two laws of a finite map: what was set is found under that key and no other, what was
      removed is not. */
  lemma {:induction false} MapLaws(cmp: Cmp, s: seq<DE>, k: K, v: V, q: K)
    requires TotalOrder(cmp) && Sorted(cmp, s)
    ensures Lookup(cmp, Put(cmp, s, k, v), q) == if cmp(q, k) == 0 then Some(v) else Lookup(cmp, s, q)
    ensures Lookup(cmp, Rem(cmp, s, k), q) == if cmp(q, k) == 0 then None else Lookup(cmp, s, q)
  {
    var a, m, b := Split(cmp, s, k);
    if cmp(q, k) == 0 {
      LookupEq(cmp, Put(cmp, s, k, v), q, k);
      LookupEq(cmp, Rem(cmp, s, k), q, k);
      LookupPutSame(cmp, a, m, b, k, v);
      assert s == a + m + b;
    } else {
      LookupOther(cmp, s, k, v, q);
    }
  }

  lemma {:induction false} LookupPutSame(cmp: Cmp, a: seq<DE>, m: seq<DE>, b: seq<DE>, k: K, v: V)
    requires TotalOrder(cmp) && Below(cmp, a, k) && Above(cmp, b, k) && |m| <= 1
    requires m != [] ==> cmp(k, m[0].k) == 0
    ensures Lookup(cmp, Put(cmp, a + m + b, k, v), k) == Some(v)
    ensures Lookup(cmp, Rem(cmp, a + m + b, k), k) == None
  {
    if m == [] {
      assert a + m + b == a + b;
      AtMissing(cmp, a, b, k, v);
      AtFound(cmp, a, DE(k, v), b, k, v);
    } else {
      assert m == [m[0]];
      AtFound(cmp, a, m[0], b, k, v);
      AtFound(cmp, a, DE(m[0].k, v), b, k, v);
      AtMissing(cmp, a, b, k, v);
    }
  }

  lemma {:induction false} LookupOther(cmp: Cmp, s: seq<DE>, k: K, v: V, q: K)
    requires TotalOrder(cmp) && cmp(q, k) != 0
    ensures Lookup(cmp, Put(cmp, s, k, v), q) == Lookup(cmp, s, q)
    ensures Lookup(cmp, Rem(cmp, s, k), q) == Lookup(cmp, s, q)
  {
    if s != [] {
      var p, r := Put(cmp, s, k, v), Rem(cmp, s, k);
      if cmp(k, s[0].k) < 0 {
        assert p[0] == DE(k, v) && p[1..] == s;
      } else if cmp(k, s[0].k) == 0 {
        assert p[0].k == s[0].k && p[1..] == s[1..];
      } else {
        assert p[0] == s[0] && p[1..] == Put(cmp, s[1..], k, v);
      }
      if cmp(k, s[0].k) == 0 {
        if cmp(q, s[0].k) == 0 {
          assert Chain(q, s[0].k, k) && Chain(k, s[0].k, q);
          assert false;
        }
      } else {
        assert r[0] == s[0] && r[1..] == Rem(cmp, s[1..], k);
      }
      LookupOther(cmp, s[1..], k, v, q);
    } else {
      assert Put(cmp, s, k, v) == [DE(k, v)];
    }
  }

  // Whole runs.

  datatype Op = Set(k: K, v: V) | Delete(k: K)

  ghost function Step(cmp: Cmp, s: seq<DE>, op: Op): seq<DE> {
    match op
    case Set(k, v) => Put(cmp, s, k, v)
    case Delete(k) => Rem(cmp, s, k)
  }

  ghost function Run(cmp: Cmp, ops: seq<Op>): seq<DE> {
    if ops == [] then [] else Step(cmp, Run(cmp, ops[..|ops| - 1]), ops[|ops| - 1])
  }

  /** What a finite map holds for q after ops: the outcome of the last operation on q's key. */
  ghost function LastWrite(cmp: Cmp, ops: seq<Op>, q: K): Option<V> {
    if ops == [] then None
    else
      var op := ops[|ops| - 1];
      if cmp(q, op.k) != 0 then LastWrite(cmp, ops[..|ops| - 1], q)
      else if op.Set? then Some(op.v) else None
  }

  lemma {:induction false} RunIsFiniteMap(cmp: Cmp, ops: seq<Op>, q: K)
    requires TotalOrder(cmp)
    ensures Sorted(cmp, Run(cmp, ops))
    ensures Lookup(cmp, Run(cmp, ops), q) == LastWrite(cmp, ops, q)
  {
    if ops != [] {
      var init, op := ops[..|ops| - 1], ops[|ops| - 1];
      RunIsFiniteMap(cmp, init, q);
      var v: V := *;
      if op.Set? { v := op.v; }
      KeepsSorted(cmp, Run(cmp, init), op.k, v);
      MapLaws(cmp, Run(cmp, init), op.k, v, q);
    }
  }
}
