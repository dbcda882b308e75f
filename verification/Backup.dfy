// Rotation of database backups (store/backup.go).

module Backup {
  type Snap(==, !new)

  // An entry of the backups directory: a number as strconv.Itoa writes it, another spelling that
  // strconv.Atoi also takes for a number (such as "+7" or "007"), or a name that is no number.
  datatype Name = Num(n: nat) | Alias(value: int, id: nat) | Word(id: nat)

  const TMP: Name := Word(0)

  type Entries = map<Name, Snap>

  predicate Old(m: Name, limit: int) {
    match m
    case Num(n) => n >= limit
    case Alias(v, _) => v >= limit
    case Word(_) => false
  }

  /** The entries once the numbers up to oldest moved up one place, onto places that were free. */
  ghost predicate IsShifted(d: Entries, e: Entries, oldest: int) {
    && (forall i: nat :: i <= oldest ==>
        (Num(i + 1) in e <==> Num(i) in d) && (Num(i) in d && Num(i + 1) in e ==> e[Num(i + 1)] == d[Num(i)]))
    && (oldest >= 0 ==> Num(0) !in e)
    && (forall m: Name :: (m.Num? ==> m.n > oldest + 1 || oldest < 0) ==>
        (m in e <==> m in d) && (m in d && m in e ==> e[m] == d[m]))
  }

  class Backups {
    var dir: Entries

    constructor ()
      ensures dir == map[]
    {
      dir := map[];
    }

    // pruneOldBackups (lines 59-80).
    method Prune(limit: int)
      modifies this
      ensures dir == map m | m in old(dir) && !Old(m, limit) :: old(dir)[m]
      ensures forall n, id :: Alias(n, id) in dir <==> Alias(n, id) in old(dir) && n < limit
      ensures forall n: nat :: Num(n) in dir <==> Num(n) in old(dir) && n < limit
      ensures forall id :: Word(id) in dir <==> Word(id) in old(dir)
    {
      var todo := dir.Keys;
      while todo != {}
        invariant todo <= dir.Keys <= old(dir).Keys
        invariant forall m :: m in dir ==> dir[m] == old(dir)[m]
        invariant forall m :: m in old(dir) && m !in todo ==> (m in dir <==> !Old(m, limit))
        decreases |todo|
      {
        var m :| m in todo;
        todo := todo - {m};
        if Old(m, limit) { dir := dir - {m}; }
      }
    }

    // shiftBackups (lines 84-96). Renaming a missing entry is no error; renaming onto an entry would be.
    method Shift(oldest: int)
      requires oldest >= 0 ==> Num(oldest + 1) !in dir
      modifies this
      ensures IsShifted(old(dir), dir, oldest)
    {
      if oldest < 0 { return; }
      var i := oldest;
      while i >= 0
        invariant -1 <= i <= oldest && Num(i + 1) !in dir
        invariant forall j: nat :: i < j <= oldest ==>
                    (Num(j + 1) in dir <==> Num(j) in old(dir)) &&
                      (Num(j) in old(dir) ==> dir[Num(j + 1)] == old(dir)[Num(j)])
        invariant forall m: Name :: (m.Num? ==> m.n <= i || m.n > oldest + 1) ==>
                    (m in dir <==> m in old(dir)) && (m in dir ==> dir[m] == old(dir)[m])
      {
        if Num(i) in dir {
          dir := dir[Num(i + 1) := dir[Num(i)]] - {Num(i)};
        }
        i := i - 1;
      }
    }

    // createBackup (lines 35-55).
    method Create(snap: Snap, limit: int)
      requires TMP !in dir
      modifies this
      ensures TMP !in dir && Num(0) in dir && dir[Num(0)] == snap
      ensures forall i: nat :: i <= limit - 2 ==>
                (Num(i + 1) in dir <==> Num(i) in old(dir)) &&
                  (Num(i) in old(dir) ==> dir[Num(i + 1)] == old(dir)[Num(i)])
      ensures limit >= 1 ==> forall m :: m in dir ==> !Old(m, limit)
      ensures forall m: Name :: !m.Num? ==>
                (m in dir <==> m in old(dir) && !Old(m, limit - 1)) && (m in dir ==> dir[m] == old(dir)[m])
    {
      dir := dir[TMP := snap];
      Prune(limit - 1);
      Shift(limit - 2);
      dir := dir[Num(0) := dir[TMP]] - {TMP};
    }
  }

  /** The directory holds the newest min(n, limit) of the n snapshots taken, newest first. */
  ghost predicate Newest(d: Entries, snaps: seq<Snap>, limit: nat) {
    && (forall i: nat :: Num(i) in d <==> i < |snaps| && i < limit)
    && (forall i: nat :: Num(i) in d && i < |snaps| ==> d[Num(i)] == snaps[|snaps| - 1 - i])
  }

  /** Backing up again and again keeps the newest snapshots in order. */
  method Rotate(snaps: seq<Snap>, limit: nat) returns (b: Backups)
    requires limit >= 1
    ensures Newest(b.dir, snaps, limit) && forall m :: m in b.dir ==> m.Num?
  {
    b := new Backups();
    for n := 0 to |snaps|
      invariant fresh(b) && TMP !in b.dir && Newest(b.dir, snaps[..n], limit) && forall m :: m in b.dir ==> m.Num?
    {
      ghost var was := b.dir;
      b.Create(snaps[n], limit);
      OneMore(was, b.dir, snaps[..n], snaps[n], limit);
      assert snaps[..n + 1] == snaps[..n] + [snaps[n]];
    }
    assert snaps[..|snaps|] == snaps;
  }

  lemma OneMore(d: Entries, e: Entries, snaps: seq<Snap>, s: Snap, limit: nat)
    requires limit >= 1 && Newest(d, snaps, limit) && Num(0) in e && e[Num(0)] == s
    requires forall i: nat :: i <= limit - 2 ==>
               (Num(i + 1) in e <==> Num(i) in d) && (Num(i) in d && Num(i + 1) in e ==> e[Num(i + 1)] == d[Num(i)])
    requires forall m :: m in e ==> !Old(m, limit)
    ensures Newest(e, snaps + [s], limit)
  {
    var t := snaps + [s];
    forall i: nat ensures Num(i) in e <==> i < |t| && i < limit {
      if 0 < i < limit { assert Num((i - 1) + 1) in e <==> Num(i - 1) in d; }
      if i >= limit { assert Num(i) in e ==> !Old(Num(i), limit); }
    }
    forall i: nat | Num(i) in e && i < |t| ensures e[Num(i)] == t[|t| - 1 - i] {
      if i > 0 {
        assert !Old(Num(i), limit);
        var j := i - 1;
        assert Num(j + 1) == Num(i);
        assert Num(j) in d && e[Num(j + 1)] == d[Num(j)];
      }
    }
  }
}
