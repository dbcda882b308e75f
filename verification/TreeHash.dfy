// What the tree hash covers (store/tree.go and the tar header helpers it uses).

module TreeHash {
  newtype byte = b: int | 0 <= b < 256

  datatype Kind = Reg | Dir | Symlink | Char | Block | Fifo | Socket

  // A file in the tree, with its path relative to the tree's directory. xattrs are those it has on disk.
  datatype Node = Node(path: string, kind: Kind, mode: int, uid: int, gid: int, ino: nat, major: int, minor: int,
                       target: string, data: seq<byte>, xattrs: map<string, string>)

  // The fields of a tar header that the hash looks at.
  datatype Header = Header(name: string, mode: int, uid: int, gid: int, size: nat, typeflag: char,
                           linkname: string, devmajor: int, devminor: int, xattrs: map<string, string>)

  datatype Xattr = Xattr(name: string, value: string)

  datatype FileInfo = FileInfo(name: string, mode: int, uid: int, gid: int, size: nat, typeflag: char,
                               linkname: string, devmajor: int, devminor: int, xattrs: seq<Xattr>)

  /** What AddFile writes for one file. */
  datatype Item = Item(info: FileInfo, body: seq<byte>)

  // Strings in the order of sort.Strings.

  ghost predicate Leq(a: string, b: string) {
    a == [] || (b != [] && (a[0] < b[0] || (a[0] == b[0] && Leq(a[1..], b[1..]))))
  }

  lemma {:induction false} LeqTrans(a: string, b: string, c: string)
    requires Leq(a, b) && Leq(b, c)
    ensures Leq(a, c)
  {
    if a != [] && a[0] == b[0] && b[0] == c[0] { LeqTrans(a[1..], b[1..], c[1..]); }
  }

  lemma {:induction false} LeqAntisym(a: string, b: string)
    requires Leq(a, b) && Leq(b, a)
    ensures a == b
  {
    if a != [] { LeqAntisym(a[1..], b[1..]); assert a == [a[0]] + a[1..] && b == [b[0]] + b[1..]; }
  }

  lemma {:induction false} LeqTotal(a: string, b: string)
    ensures Leq(a, b) || Leq(b, a)
  {
    if a != [] && b != [] { LeqTotal(a[1..], b[1..]); }
  }

  ghost predicate SortedStrings(s: seq<string>) {
    forall i, j :: 0 <= i < j < |s| ==> Leq(s[i], s[j])
  }

  lemma FirstIsLeast(s: seq<string>, t: seq<string>)
    requires SortedStrings(s) && s != [] && t != [] && t[0] in s && s[0] in t && SortedStrings(t)
    ensures s[0] == t[0]
  {
    var j :| 0 <= j < |s| && s[j] == t[0];
    var i :| 0 <= i < |t| && t[i] == s[0];
    if i > 0 && j > 0 { LeqAntisym(s[0], t[0]); }
  }

  lemma TailOf(s: seq<string>)
    requires s != [] && SortedStrings(s)
    ensures s == [s[0]] + s[1..] && multiset(s[1..]) == multiset(s) - multiset{s[0]} && SortedStrings(s[1..])
  {
    assert s == [s[0]] + s[1..];
  }

  /** A collection of strings has one sorted arrangement. */
  lemma {:induction false} OneSorting(s: seq<string>, t: seq<string>)
    requires multiset(s) == multiset(t) && SortedStrings(s) && SortedStrings(t)
    ensures s == t
  {
    hide SortedStrings;
    assert |s| == |multiset(s)| == |multiset(t)| == |t|;
    if s != [] {
      assert s[0] in multiset(t) && t[0] in multiset(s);
      FirstIsLeast(s, t);
      TailOf(s);
      TailOf(t);
      OneSorting(s[1..], t[1..]);
    }
  }

  function Less(a: string, b: string): (r: bool)
    ensures r <==> Leq(a, b) && a != b
  {
    SameTail(a, b);
    if b == [] then false else if a == [] then true else if a[0] == b[0] then Less(a[1..], b[1..]) else a[0] < b[0]
  }

  lemma SameTail(a: string, b: string)
    ensures a != [] && b != [] && a[0] == b[0] ==> (a == b <==> a[1..] == b[1..])
  {
    if a != [] && b != [] {
      assert a == [a[0]] + a[1..] && b == [b[0]] + b[1..];
    }
  }

  function InsertSorted(t: seq<string>, x: string): (u: seq<string>)
    ensures multiset(u) == multiset(t) + multiset{x}
  {
    if t == [] || !Less(t[0], x) then [x] + t
    else assert t == [t[0]] + t[1..]; [t[0]] + InsertSorted(t[1..], x)
  }

  lemma {:induction false} InsertKeeps(t: seq<string>, x: string)
    requires SortedStrings(t)
    ensures SortedStrings(InsertSorted(t, x))
  {
    if t == [] || !Less(t[0], x) {
      forall j | 0 <= j < |t| ensures Leq(x, t[j]) {
        LeqTotal(t[0], x);
        LeqTotal(x, x);
        if j > 0 { LeqTrans(x, t[0], t[j]); }
      }
    } else {
      InsertKeeps(t[1..], x);
      var u := InsertSorted(t[1..], x);
      forall j | 0 <= j < |u| ensures Leq(t[0], u[j]) {
        assert u[j] in multiset(u);
        if u[j] != x {
          assert u[j] in multiset(t[1..]);
          var i :| 0 <= i < |t| - 1 && t[1..][i] == u[j];
          assert Leq(t[0], t[i + 1]);
        }
      }
    }
  }

  // sort.Strings
  function SortStrings(s: seq<string>): (t: seq<string>)
    ensures multiset(t) == multiset(s)
  {
    if s == [] then [] else assert s == [s[0]] + s[1..]; InsertSorted(SortStrings(s[1..]), s[0])
  }

  lemma {:induction false} SortSorts(s: seq<string>)
    ensures SortedStrings(SortStrings(s))
  {
    if s != [] {
      SortSorts(s[1..]);
      InsertKeeps(SortStrings(s[1..]), s[0]);
    }
  }

  // Extended attributes.

  /** order lists the keys of a map once each: what a range over the map yields. */
  ghost predicate IsRange(order: seq<string>, m: map<string, string>) {
    multiset(order) == multiset(m.Keys)
  }

  function Lookup(m: map<string, string>, k: string): string {
    if k in m then m[k] else ""
  }

  /** The keys that FileInfoFromHeader sorts: it starts with one empty string per attribute. */
  function XattrKeys(m: map<string, string>, order: seq<string>): seq<string> {
    SortStrings(seq(|m|, _ => "") + order)
  }

  function XattrsOf(m: map<string, string>, keys: seq<string>): seq<Xattr> {
    seq(|keys|, i requires 0 <= i < |keys| => Xattr(keys[i], Lookup(m, keys[i])))
  }

  /** The listed attributes do not depend on the order in which the map is ranged over. */
  lemma {:induction false} XattrOrder(m: map<string, string>, o: seq<string>, p: seq<string>)
    requires IsRange(o, m) && IsRange(p, m)
    ensures XattrKeys(m, o) == XattrKeys(m, p)
  {
    var e := seq(|m|, _ => "");
    SortSorts(e + o);
    SortSorts(e + p);
    OneSorting(XattrKeys(m, o), XattrKeys(m, p));
  }

  ghost function Blanks(n: nat): seq<string> {
    seq(n, _ => "")
  }

  lemma BlanksFirst(n: nat, s: seq<string>)
    requires SortedStrings(s)
    ensures SortedStrings(Blanks(n) + s)
  {
  }

  /** As sort.Strings leaves them, the empty strings come first and then the attributes in order. */
  lemma {:induction false} KeysAre(m: map<string, string>, order: seq<string>)
    ensures XattrKeys(m, order) == Blanks(|m|) + SortStrings(order)
  {
    var e := seq(|m|, _ => "");
    assert e == Blanks(|m|);
    SortSorts(e + order);
    SortSorts(order);
    BlanksFirst(|m|, SortStrings(order));
    OneSorting(XattrKeys(m, order), Blanks(|m|) + SortStrings(order));
  }

  lemma RangeSize(m: map<string, string>, order: seq<string>)
    requires IsRange(order, m)
    ensures |order| == |m| && |SortStrings(order)| == |m|
  {
    assert |order| == |multiset(order)| == |multiset(m.Keys)| == |m.Keys| == |m|;
    assert |SortStrings(order)| == |multiset(SortStrings(order))|;
  }

  /** An empty name comes first for every attribute, so the list is that of the attributes only if there
      are none. */
  lemma {:induction false} ListingIs(m: map<string, string>, order: seq<string>)
    requires IsRange(order, m)
    ensures var xs := XattrsOf(m, XattrKeys(m, order));
            && |xs| == 2 * |m| && (forall i :: 0 <= i < |m| ==> xs[i] == Xattr("", Lookup(m, "")))
            && xs[|m|..] == XattrsOf(m, SortStrings(order))
            && (xs == XattrsOf(m, SortStrings(order)) <==> m == map[])
  {
    hide SortStrings, XattrKeys;
    KeysAre(m, order);
    RangeSize(m, order);
    var keys, xs := Blanks(|m|) + SortStrings(order), XattrsOf(m, XattrKeys(m, order));
    assert xs[|m|..] == XattrsOf(m, SortStrings(order));
    assert |m| == 0 <==> m == map[];
  }

  // The attributes of FileInfoFromHeader (lines 239-250), ranging over the map in the given order.
  method ListXattrs(m: map<string, string>, order: seq<string>) returns (xs: seq<Xattr>)
    requires IsRange(order, m)
    ensures |xs| == 2 * |m| && (forall i :: 0 <= i < |m| ==> xs[i] == Xattr("", Lookup(m, "")))
    ensures xs[|m|..] == XattrsOf(m, SortStrings(order))
    ensures xs == XattrsOf(m, SortStrings(order)) <==> m == map[]
    ensures xs == XattrsOf(m, XattrKeys(m, order))
  {
    hide SortStrings, IsRange;
    var keys := seq(|m|, _ => "");
    for i := 0 to |order|
      invariant keys == seq(|m|, _ => "") + order[..i]
    {
      keys := keys + [order[i]];
    }
    assert order[..|order|] == order;
    keys := SortStrings(keys);
    xs := [];
    for i := 0 to |keys|
      invariant xs == XattrsOf(m, keys[..i])
    {
      xs := xs + [Xattr(keys[i], Lookup(m, keys[i]))];
    }
    assert keys[..|keys|] == keys == XattrKeys(m, order);
    ListingIs(m, order);
  }

  // Headers.

  function Typeflag(k: Kind): char {
    match k
    case Reg => '0'
    case Symlink => '2'
    case Char => '3'
    case Block => '4'
    case Dir => '5'
    case Fifo => '6'
    case Socket => '?'
  }

  /** The header of a file when the inode numbers in seen came up before (tar.FileInfoHeader and
      populateHeaderUnix). Neither reads the extended attributes of the file. */
  function HeaderOf(n: Node, seen: map<nat, string>): Header {
    var link := n.ino in seen;
    Header(n.path, n.mode, n.uid, n.gid,
           if n.kind == Reg && !link then |n.data| else 0,
           if link then '1' else Typeflag(n.kind),
           if link then seen[n.ino] else if n.kind == Symlink then n.target else "",
           DevOf(n).0, DevOf(n).1, map[])
  }

  function DevOf(n: Node): (int, int) {
    if n.kind == Char || n.kind == Block then (n.major, n.minor) else (0, 0)
  }

  // FileInfoFromHeader (lines 227-251), ranging over the attributes in the given order.
  function FromHeader(h: Header, order: seq<string>): FileInfo {
    FileInfo(h.name, h.mode, h.uid, h.gid, h.size, h.typeflag, h.linkname, h.devmajor, h.devminor,
             XattrsOf(h.xattrs, XattrKeys(h.xattrs, order)))
  }

  /** What is made of a header does not depend on the order of ranging over its attributes. */
  lemma {:induction false} OrderDoesNotCount(h: Header, o: seq<string>, p: seq<string>)
    requires IsRange(o, h.xattrs) && IsRange(p, h.xattrs)
    ensures FromHeader(h, o) == FromHeader(h, p)
  {
    XattrOrder(h.xattrs, o, p);
  }

  function InfoOf(n: Node, seen: map<nat, string>): FileInfo {
    FromHeader(HeaderOf(n, seen), [])
  }

  function ItemOf(n: Node, seen: map<nat, string>): Item {
    Item(InfoOf(n, seen), if n.kind == Reg && n.ino !in seen then n.data else [])
  }

  /** Files the walk leaves out: the manifest, the hash and the flag at the top, and sockets. */
  function Skipped(n: Node): bool {
    n.path == "manifest" || n.path == "hash" || n.path == "rendered" || n.kind == Socket
  }

  function Note(n: Node, seen: map<nat, string>): map<nat, string> {
    if n.ino in seen then seen else seen[n.ino := n.path]
  }

  /** What a walk over ns adds to the hash. */
  ghost function Items(ns: seq<Node>, seen: map<nat, string>): seq<Item> {
    if ns == [] then []
    else if Skipped(ns[0]) then Items(ns[1..], seen)
    else [ItemOf(ns[0], seen)] + Items(ns[1..], Note(ns[0], seen))
  }

  /** The inodes seen after a walk over ns. */
  ghost function SeenAfter(ns: seq<Node>, seen: map<nat, string>): map<nat, string> {
    if ns == [] then seen else SeenAfter(ns[1..], if Skipped(ns[0]) then seen else Note(ns[0], seen))
  }

  ghost function Stream(enc: FileInfo -> seq<byte>, items: seq<Item>): seq<byte> {
    if items == [] then [] else enc(items[0].info) + items[0].body + Stream(enc, items[1..])
  }

  lemma {:induction false} ItemsConcat(a: seq<Node>, b: seq<Node>, seen: map<nat, string>)
    ensures Items(a + b, seen) == Items(a, seen) + Items(b, SeenAfter(a, seen))
  {
    if a == [] {
      assert a + b == b;
    } else {
      assert (a + b)[0] == a[0] && (a + b)[1..] == a[1..] + b;
      ItemsConcat(a[1..], b, if Skipped(a[0]) then seen else Note(a[0], seen));
    }
  }

  /** Files that are left out may come and go anywhere in the walk: the hash and the flag that Write adds
      after hashing do not change what is hashed. */
  lemma {:induction false} SkippedDoNotCount(a: seq<Node>, n: Node, b: seq<Node>, seen: map<nat, string>)
    requires Skipped(n)
    ensures Items(a + [n] + b, seen) == Items(a + b, seen)
  {
    assert a + [n] + b == a + ([n] + b);
    assert ([n] + b)[0] == n && ([n] + b)[1..] == b;
    ItemsConcat(a, [n] + b, seen);
    ItemsConcat(a, b, seen);
  }

  /** Trees alike in everything but the extended attributes of their files hash alike. */
  lemma {:induction false} XattrsDoNotCount(ns: seq<Node>, ms: seq<Node>, seen: map<nat, string>)
    requires |ns| == |ms| && forall i :: 0 <= i < |ns| ==> ns[i].(xattrs := ms[i].xattrs) == ms[i]
    ensures Items(ns, seen) == Items(ms, seen)
  {
    if ns != [] {
      XattrsDoNotCount(ns[1..], ms[1..], if Skipped(ns[0]) then seen else Note(ns[0], seen));
    }
  }

  // What equal items say about the files.

  /** The files that the walk does not leave out. */
  ghost function Walked(ns: seq<Node>): seq<Node> {
    if ns == [] then [] else (if Skipped(ns[0]) then [] else [ns[0]]) + Walked(ns[1..])
  }

  ghost predicate NoneSkipped(k: seq<Node>) {
    forall i :: 0 <= i < |k| ==> !Skipped(k[i])
  }

  lemma {:induction false} WalkedKeeps(ns: seq<Node>, seen: map<nat, string>)
    ensures NoneSkipped(Walked(ns)) && Items(Walked(ns), seen) == Items(ns, seen)
  {
    if ns != [] {
      var t := Walked(ns[1..]);
      if Skipped(ns[0]) {
        assert Walked(ns) == t;
        WalkedKeeps(ns[1..], seen);
      } else {
        assert Walked(ns) == [ns[0]] + t && Walked(ns)[1..] == t;
        WalkedKeeps(ns[1..], Note(ns[0], seen));
      }
    }
  }

  /** The position of the first file with inode number ino. */
  ghost function First(k: seq<Node>, ino: nat): (j: nat)
    requires exists i :: 0 <= i < |k| && k[i].ino == ino
    ensures j < |k| && k[j].ino == ino && forall i :: 0 <= i < j ==> k[i].ino != ino
  {
    if k[0].ino == ino then 0
    else
      assert exists i :: 0 <= i < |k[1..]| && k[1..][i].ino == ino by { FurtherOn(k, ino); }
      1 + First(k[1..], ino)
  }

  lemma FurtherOn(k: seq<Node>, ino: nat)
    requires k != [] && k[0].ino != ino && exists i :: 0 <= i < |k| && k[i].ino == ino
    ensures exists i :: 0 <= i < |k[1..]| && k[1..][i].ino == ino
  {
    var i :| 0 <= i < |k| && k[i].ino == ino;
    assert k[1..][i - 1].ino == ino;
  }

  /** Where the inode of file i came up first: i itself, or the file it is a hard link to. */
  ghost function Origin(k: seq<Node>, i: nat): (j: nat)
    requires i < |k|
    ensures j <= i && k[j].ino == k[i].ino && forall l :: 0 <= l < j ==> k[l].ino != k[i].ino
  {
    First(k, k[i].ino)
  }

  /** seen is what the walk noted before file i. */
  ghost predicate Noted(k: seq<Node>, i: nat, seen: map<nat, string>)
    requires i <= |k|
  {
    && (forall j :: 0 <= j < i ==> k[j].ino in seen && seen[k[j].ino] == k[Origin(k, j)].path)
    && (forall n :: n in seen ==> exists j :: 0 <= j < i && k[j].ino == n)
  }

  lemma {:induction false} NotedNext(k: seq<Node>, i: nat, seen: map<nat, string>)
    requires i < |k| && Noted(k, i, seen)
    ensures Noted(k, i + 1, Note(k[i], seen))
  {
    var after := Note(k[i], seen);
    forall j | 0 <= j < i + 1 ensures k[j].ino in after && after[k[j].ino] == k[Origin(k, j)].path {
      if j == i && k[i].ino in seen {
        var l :| 0 <= l < i && k[l].ino == k[i].ino;
        assert Origin(k, l) == Origin(k, i);
      } else if j == i {
        assert Origin(k, i) == i;
      }
    }
    forall n | n in after ensures exists j :: 0 <= j < i + 1 && k[j].ino == n {
      if n in seen { var j :| 0 <= j < i && k[j].ino == n; assert k[j].ino == n; }
    }
  }

  /** The item of file i, told from where its inode came up first. */
  ghost function ItemAt(k: seq<Node>, i: nat): Item
    requires i < |k|
  {
    var o := Origin(k, i);
    ItemOf(k[i], if o == i then map[] else map[k[i].ino := k[o].path])
  }

  lemma ItemFrom(k: seq<Node>, i: nat, seen: map<nat, string>)
    requires i < |k| && Noted(k, i, seen)
    ensures ItemOf(k[i], seen) == ItemAt(k, i)
  {
    var o := Origin(k, i);
    if o < i {
      assert k[o].ino in seen && seen[k[o].ino] == k[Origin(k, o)].path && Origin(k, o) == o;
    }
  }

  lemma {:induction false} ItemsAre(k: seq<Node>, i: nat, seen: map<nat, string>)
    requires i <= |k| && NoneSkipped(k) && Noted(k, i, seen)
    ensures |Items(k[i..], seen)| == |k| - i
    ensures forall j :: i <= j < |k| ==> Items(k[i..], seen)[j - i] == ItemAt(k, j)
    decreases |k| - i
  {
    hide Noted, ItemAt, ItemOf;
    if i < |k| {
      assert k[i..][0] == k[i] && k[i..][1..] == k[i + 1..] && !Skipped(k[i]);
      ItemFrom(k, i, seen);
      NotedNext(k, i, seen);
      var rest := Items(k[i + 1..], Note(k[i], seen));
      ItemsAre(k, i + 1, Note(k[i], seen));
      assert Items(k[i..], seen) == [ItemAt(k, i)] + rest;
      forall j | i <= j < |k| ensures Items(k[i..], seen)[j - i] == ItemAt(k, j) {
        if j > i { assert rest[j - (i + 1)] == ItemAt(k, j); }
      }
    }
  }

  /** filepath.Walk visits every path once. */
  ghost predicate DistinctPaths(k: seq<Node>) {
    forall i, j :: 0 <= i < j < |k| ==> k[i].path != k[j].path
  }

  ghost predicate SameMeta(n: Node, m: Node) {
    n.path == m.path && n.mode == m.mode && n.uid == m.uid && n.gid == m.gid && DevOf(n) == DevOf(m)
  }

  ghost predicate SameContent(n: Node, m: Node) {
    n.kind == m.kind && (n.kind == Symlink ==> n.target == m.target) && (n.kind == Reg ==> n.data == m.data)
  }

  /** Two walks found the same files: pairwise the same names and metadata, hard links between the same
      positions, and the same kind, target and data wherever an inode first comes up. */
  ghost predicate SameFiles(k: seq<Node>, l: seq<Node>) {
    && |k| == |l|
    && forall i :: 0 <= i < |k| ==>
         && SameMeta(k[i], l[i]) && Origin(k, i) == Origin(l, i)
         && (Origin(k, i) == i ==> SameContent(k[i], l[i]))
  }

  lemma SameItem(k: seq<Node>, l: seq<Node>, i: nat)
    requires |k| == |l| && i < |k| && NoneSkipped(k) && NoneSkipped(l)
    requires forall j :: 0 <= j < |k| ==> k[j].path == l[j].path
    requires DistinctPaths(k)
    ensures ItemAt(k, i) == ItemAt(l, i) <==>
              SameMeta(k[i], l[i]) && Origin(k, i) == Origin(l, i) && (Origin(k, i) == i ==> SameContent(k[i], l[i]))
  {
    var o, p := Origin(k, i), Origin(l, i);
    assert !Skipped(k[i]) && !Skipped(l[i]);
    if ItemAt(k, i) == ItemAt(l, i) {
      assert k[i].path == l[i].path;
      assert ItemAt(k, i).info.typeflag == '1' <==> o < i;
      assert ItemAt(l, i).info.typeflag == '1' <==> p < i;
      if o < i {
        assert k[o].path == l[p].path == k[p].path;
      }
    }
  }

  lemma PathsFromItems(k: seq<Node>, l: seq<Node>)
    requires |k| == |l| && forall i :: 0 <= i < |k| ==> ItemAt(k, i) == ItemAt(l, i)
    ensures forall i :: 0 <= i < |k| ==> k[i].path == l[i].path
  {
    forall i | 0 <= i < |k| ensures k[i].path == l[i].path {
      assert ItemAt(k, i).info.name == k[i].path && ItemAt(l, i).info.name == l[i].path;
    }
  }

  ghost function ItemsOf(k: seq<Node>): seq<Item> {
    seq(|k|, i requires 0 <= i < |k| => ItemAt(k, i))
  }

  lemma {:induction false} WalkItems(k: seq<Node>)
    requires NoneSkipped(k)
    ensures Items(k, map[]) == ItemsOf(k)
  {
    hide ItemAt, Items;
    assert k[0..] == k;
    ItemsAre(k, 0, map[]);
    assert forall j :: 0 <= j < |k| ==> Items(k, map[])[j - 0] == ItemAt(k, j);
  }

  lemma {:induction false} SameItems(k: seq<Node>, l: seq<Node>)
    requires NoneSkipped(k) && NoneSkipped(l) && DistinctPaths(k)
    ensures ItemsOf(k) == ItemsOf(l) <==> SameFiles(k, l)
  {
    hide ItemAt, SameContent;
    if ItemsOf(k) == ItemsOf(l) {
      assert |ItemsOf(k)| == |k| && |ItemsOf(l)| == |l|;
      assert forall i :: 0 <= i < |k| ==> ItemAt(k, i) == ItemsOf(k)[i] == ItemsOf(l)[i] == ItemAt(l, i);
      PathsFromItems(k, l);
      forall i | 0 <= i < |k|
        ensures SameMeta(k[i], l[i]) && Origin(k, i) == Origin(l, i) && (Origin(k, i) == i ==> SameContent(k[i], l[i]))
      {
        SameItem(k, l, i);
      }
    }
    if SameFiles(k, l) {
      forall i | 0 <= i < |k| ensures ItemAt(k, i) == ItemAt(l, i) { SameItem(k, l, i); }
      assert ItemsOf(k) == ItemsOf(l);
    }
  }

  /** The walks write the same items exactly if they found the same files. */
  lemma {:induction false} EqualItems(ns: seq<Node>, ms: seq<Node>)
    requires DistinctPaths(Walked(ns))
    ensures Items(ns, map[]) == Items(ms, map[]) <==> SameFiles(Walked(ns), Walked(ms))
  {
    hide ItemsOf, SameFiles, Items, Walked, NoneSkipped, DistinctPaths;
    WalkedKeeps(ns, map[]);
    WalkedKeeps(ms, map[]);
    WalkItems(Walked(ns));
    WalkItems(Walked(ms));
    SameItems(Walked(ns), Walked(ms));
  }

  // Unique decodability.

  /** The JSON encoding tells where it ends. */
  ghost predicate SelfDelimiting(enc: FileInfo -> seq<byte>) {
    && (forall i :: enc(i) != [])
    && (forall i, j, x, y {:trigger enc(i) + x, enc(j) + y} :: enc(i) + x == enc(j) + y ==> i == j && x == y)
  }

  /** A body follows exactly the headers of regular files, and is as long as they say. */
  ghost predicate Sized(it: Item) {
    if it.info.typeflag == '0' then |it.body| == it.info.size else it.body == []
  }

  lemma {:induction false} ItemsSized(ns: seq<Node>, seen: map<nat, string>, i: nat)
    requires i < |Items(ns, seen)|
    ensures Sized(Items(ns, seen)[i])
  {
    if Skipped(ns[0]) {
      ItemsSized(ns[1..], seen, i);
    } else if i > 0 {
      ItemsSized(ns[1..], Note(ns[0], seen), i - 1);
    }
  }

  lemma SameBody(a: seq<byte>, x: seq<byte>, b: seq<byte>, y: seq<byte>)
    requires a + x == b + y && |a| == |b|
    ensures a == b && x == y
  {
    assert a == (a + x)[..|a|] && b == (b + y)[..|b|];
    assert x == (a + x)[|a|..] && y == (b + y)[|b|..];
  }

  lemma StreamStarts(enc: FileInfo -> seq<byte>, s: seq<Item>)
    requires SelfDelimiting(enc)
    ensures Stream(enc, s) == [] <==> s == []
  {
  }

  /** The hashed stream determines every header and every file body. */
  lemma {:induction false} StreamDecodes(enc: FileInfo -> seq<byte>, s: seq<Item>, t: seq<Item>)
    requires SelfDelimiting(enc) && Stream(enc, s) == Stream(enc, t)
    requires forall i :: 0 <= i < |s| ==> Sized(s[i])
    requires forall i :: 0 <= i < |t| ==> Sized(t[i])
    ensures s == t
  {
    StreamStarts(enc, s);
    StreamStarts(enc, t);
    if s != [] {
      var a, b := s[0], t[0];
      var x, y := Stream(enc, s[1..]), Stream(enc, t[1..]);
      assert enc(a.info) + a.body + x == enc(a.info) + (a.body + x);
      assert enc(b.info) + b.body + y == enc(b.info) + (b.body + y);
      SameBody(a.body, x, b.body, y);
      StreamDecodes(enc, s[1..], t[1..]);
      assert s == [a] + s[1..] && t == [b] + t[1..];
    }
  }

  lemma {:induction false} StreamsAndItems(enc: FileInfo -> seq<byte>, ns: seq<Node>, ms: seq<Node>)
    requires SelfDelimiting(enc)
    ensures Stream(enc, Items(ns, map[])) == Stream(enc, Items(ms, map[])) <==> Items(ns, map[]) == Items(ms, map[])
  {
    if Stream(enc, Items(ns, map[])) == Stream(enc, Items(ms, map[])) {
      forall i | 0 <= i < |Items(ns, map[])| ensures Sized(Items(ns, map[])[i]) { ItemsSized(ns, map[], i); }
      forall i | 0 <= i < |Items(ms, map[])| ensures Sized(Items(ms, map[])[i]) { ItemsSized(ms, map[], i); }
      StreamDecodes(enc, Items(ns, map[]), Items(ms, map[]));
    }
  }

  /** Two walks write the same stream if and only if they found the same files: names, metadata, link
      structure, kinds, targets and contents. */
  lemma {:induction false} EqualStreams(enc: FileInfo -> seq<byte>, ns: seq<Node>, ms: seq<Node>)
    requires SelfDelimiting(enc) && DistinctPaths(Walked(ns))
    ensures Stream(enc, Items(ns, map[])) == Stream(enc, Items(ms, map[])) <==> SameFiles(Walked(ns), Walked(ms))
  {
    hide Stream, Items, Walked, SameFiles;
    StreamsAndItems(enc, ns, ms);
    EqualItems(ns, ms);
  }

  /** Neither the manifest, the hash nor the flag at the top, nor a socket. */
  ghost predicate Ordinary(ns: seq<Node>) {
    forall i :: 0 <= i < |ns| ==>
      ns[i].path != "manifest" && ns[i].path != "hash" && ns[i].path != "rendered" && ns[i].kind != Socket
  }

  lemma {:induction false} AllWalked(ns: seq<Node>)
    requires Ordinary(ns)
    ensures Walked(ns) == ns
  {
    if ns != [] {
      AllWalked(ns[1..]);
      assert !Skipped(ns[0]) && ns == [ns[0]] + ns[1..];
    }
  }

  /** Nothing else is left out: walks over files of every other name and kind write the same stream if and
      only if they found the same files. */
  lemma {:induction false} EveryFileCounts(enc: FileInfo -> seq<byte>, ns: seq<Node>, ms: seq<Node>)
    requires SelfDelimiting(enc) && DistinctPaths(ns) && DistinctPaths(ms) && Ordinary(ns) && Ordinary(ms)
    ensures Stream(enc, Items(ns, map[])) == Stream(enc, Items(ms, map[])) <==> SameFiles(ns, ms)
  {
    hide Ordinary, Stream, Items, SameFiles;
    AllWalked(ns);
    AllWalked(ms);
    EqualStreams(enc, ns, ms);
  }

  /** A file adds nothing to the stream if and only if it is the manifest, the hash or the flag at the top, or
      a socket. */
  lemma {:induction false} AddsNothingIff(enc: FileInfo -> seq<byte>, n: Node, seen: map<nat, string>)
    requires SelfDelimiting(enc)
    ensures Stream(enc, Items([n], seen)) == [] <==>
            n.path == "manifest" || n.path == "hash" || n.path == "rendered" || n.kind == Socket
  {
    assert [n][1..] == [];
    StreamStarts(enc, Items([n], seen));
  }

  /** What the header of a file says: type, link target, size and device, as archive/tar has them. */
  lemma {:induction false} HeaderSays(n: Node, seen: map<nat, string>)
    requires n.kind != Socket
    ensures var i := ItemOf(n, seen).info;
            && i.name == n.path && i.mode == n.mode && i.uid == n.uid && i.gid == n.gid && i.xattrs == []
            && (n.ino in seen ==> i.typeflag == '1' && i.linkname == seen[n.ino] && i.size == 0)
            && (n.ino !in seen ==>
                 && (n.kind == Symlink ==> i.typeflag == '2' && i.linkname == n.target && i.size == 0)
                 && (n.kind == Reg ==> i.typeflag == '0' && i.linkname == "" && i.size == |n.data|)
                 && (n.kind == Char ==> i.typeflag == '3') && (n.kind == Block ==> i.typeflag == '4')
                 && (n.kind == Dir ==> i.typeflag == '5') && (n.kind == Fifo ==> i.typeflag == '6'))
            && (n.kind == Char || n.kind == Block ==> i.devmajor == n.major && i.devminor == n.minor)
  {
    KeysAre(map[], []);
  }

  // The walker (lines 255-321) and the hash writer (lines 331-351).
  class Walker {
    const enc: FileInfo -> seq<byte>
    var inos: map<nat, string>
    var out: seq<byte>

    constructor (enc: FileInfo -> seq<byte>)
      ensures this.enc == enc && inos == map[] && out == []
    {
      this.enc, inos, out := enc, map[], [];
    }

    method AddFile(info: FileInfo, body: seq<byte>)
      modifies this`out
      ensures out == old(out) + (enc(info) + body)
    {
      out := out + enc(info);
      assert out + body == old(out) + (enc(info) + body);
      out := out + body;
    }

    method Visit(n: Node)
      modifies this
      ensures out == old(out) + Stream(enc, Items([n], old(inos))) && inos == SeenAfter([n], old(inos))
    {
      assert [n][1..] == [];
      if Skipped(n) { return; }
      var it := ItemOf(n, inos);
      assert Items([n], inos) == [it] && [it][1..] == [];
      assert Stream(enc, [it]) == enc(it.info) + it.body;
      inos := Note(n, inos);
      AddFile(it.info, it.body);
    }
  }

  lemma {:induction false} StreamConcat(enc: FileInfo -> seq<byte>, s: seq<Item>, t: seq<Item>)
    ensures Stream(enc, s + t) == Stream(enc, s) + Stream(enc, t)
  {
    if s == [] {
      assert s + t == t;
    } else {
      assert (s + t)[0] == s[0] && (s + t)[1..] == s[1..] + t;
      StreamConcat(enc, s[1..], t);
    }
  }

  lemma {:induction false} SeenConcat(a: seq<Node>, b: seq<Node>, seen: map<nat, string>)
    ensures SeenAfter(a + b, seen) == SeenAfter(b, SeenAfter(a, seen))
  {
    if a == [] {
      assert a + b == b;
    } else {
      assert (a + b)[0] == a[0] && (a + b)[1..] == a[1..] + b;
      SeenConcat(a[1..], b, if Skipped(a[0]) then seen else Note(a[0], seen));
    }
  }

  lemma NoItems(enc: FileInfo -> seq<byte>)
    ensures Stream(enc, Items([], map[])) == [] && SeenAfter([], map[]) == map[]
  {
  }

  // Hash (lines 168-181), before the digest.
  method HashStream(enc: FileInfo -> seq<byte>, ns: seq<Node>) returns (out: seq<byte>)
    ensures out == Stream(enc, Items(ns, map[]))
  {
    hide Items, SeenAfter, Stream;
    NoItems(enc);
    var w := new Walker(enc);
    for i := 0 to |ns|
      invariant w.enc == enc && w.out == Stream(enc, Items(ns[..i], map[])) && w.inos == SeenAfter(ns[..i], map[])
    {
      ItemsConcat(ns[..i], [ns[i]], map[]);
      SeenConcat(ns[..i], [ns[i]], map[]);
      StreamConcat(enc, Items(ns[..i], map[]), Items([ns[i]], w.inos));
      assert ns[..i + 1] == ns[..i] + [ns[i]];
      w.Visit(ns[i]);
    }
    assert ns[..|ns|] == ns;
    out := w.out;
  }

  // Check right after Write (lines 185-199): the stored digest matches although the directory now also
  // holds the hash and the flag, wherever the walk meets them.
  method CheckAfterWrite(enc: FileInfo -> seq<byte>, digest: seq<byte> -> string, a: seq<Node>, h: Node, b: seq<Node>,
                         r: Node, c: seq<Node>)
    returns (ok: bool)
    requires h.path == "hash" && r.path == "rendered"
    ensures ok
  {
    hide Items, Stream;
    var written := HashStream(enc, a + b + c);
    var checked := HashStream(enc, a + [h] + b + [r] + c);
    SameItemsAfterWrite(a, h, b, r, c);
    ok := digest(written) == digest(checked);
  }

  lemma {:induction false} SameItemsAfterWrite(a: seq<Node>, h: Node, b: seq<Node>, r: Node, c: seq<Node>)
    requires Skipped(h) && Skipped(r)
    ensures Items(a + [h] + b + [r] + c, map[]) == Items(a + b + c, map[])
  {
    hide Items, Skipped;
    SkippedDoNotCount(a + [h] + b, r, c, map[]);
    assert a + [h] + b + c == a + [h] + (b + c);
    assert a + b + c == a + (b + c);
    SkippedDoNotCount(a, h, b + c, map[]);
  }
}
