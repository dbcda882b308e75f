// The tree cache across crashes (store/tree.go, store/store.go).

module TreeStore {
  import opened Options

  type Path(==, !new)
  type Bytes(==, !new)

  // What the directory of one key may hold: the rendered image, its hash and the rendered flag.
  datatype Name = Entry(path: Path) | HashFile | Flag

  /** The directory as processes see it, and the names whose state on disk is not yet certain. */
  datatype Disk = Disk(dir: bool, vol: map<Name, Option<Bytes>>, dirty: set<Name>, dirDirty: bool)

  // Single file system operations. Any write leaves what is on disk uncertain until a sync.

  function MkDir(d: Disk): Disk {
    d.(dir := true, dirDirty := true)
  }

  function WriteFile(d: Disk, n: Name, v: Option<Bytes>): Disk {
    d.(vol := d.vol[n := v], dirty := d.dirty + {n})
  }

  function Unlink(d: Disk, n: Name): Disk {
    d.(vol := d.vol - {n}, dirty := d.dirty + {n})
  }

  function RmDir(d: Disk): Disk {
    d.(dir := false, dirDirty := true)
  }

  // syncfs makes everything certain.
  function SyncFs(d: Disk): Disk {
    d.(dirty := {}, dirDirty := false)
  }

  // fsync of the directory makes the presence of the empty flag file certain.
  function SyncDir(d: Disk): Disk {
    d.(dirty := d.dirty - {Flag})
  }

  /** After a crash everything certain is as it was, and the rest is anything. */
  ghost predicate CrashTo(d: Disk, e: Disk) {
    && e.dirty == {} && !e.dirDirty
    && (!d.dirDirty ==> e.dir == d.dir)
    && (!e.dir ==> e.vol == map[])
    && (e.dir ==> forall n :: n !in d.dirty ==> (n in e.vol <==> n in d.vol) && (n in d.vol ==> e.vol[n] == d.vol[n]))
  }

  /** The files of the image that are there. */
  function TreeOf(vol: map<Name, Option<Bytes>>): map<Path, Option<Bytes>> {
    map n | n in vol && n.Entry? :: n.path := vol[n]
  }

  /** The complete tree with its hash. */
  ghost predicate Complete(d: Disk, image: map<Path, Option<Bytes>>, hash: Option<Bytes>) {
    d.dir && TreeOf(d.vol) == image && HashFile in d.vol && d.vol[HashFile] == hash
  }

  /** If the flag can be on disk, the complete tree is certain to be. */
  ghost predicate Safe(d: Disk, image: map<Path, Option<Bytes>>, hash: Option<Bytes>) {
    Flag in d.vol || Flag in d.dirty ==> Complete(d, image, hash) && d.dirty <= {Flag} && !d.dirDirty
  }

  /** No earlier removal was cut off between unlinking the flag and syncing the directory. */
  ghost predicate FlagSettled(d: Disk) {
    d.dir && Flag in d.dirty ==> Flag in d.vol
  }

  /** A flag that survives a crash vouches for the complete tree and its hash. */
  lemma CrashSafe(d: Disk, e: Disk, image: map<Path, Option<Bytes>>, hash: Option<Bytes>)
    requires Safe(d, image, hash) && CrashTo(d, e)
    ensures Flag in e.vol ==> Complete(e, image, hash)
    ensures Safe(e, image, hash) && FlagSettled(e)
  {
    if Flag in e.vol {
      assert Flag in d.vol || Flag in d.dirty;
      forall p ensures p in TreeOf(e.vol) <==> p in TreeOf(d.vol) {
        assert Entry(p) !in d.dirty;
        assert Entry(p) in e.vol <==> Entry(p) in d.vol;
      }
      forall p | p in TreeOf(d.vol) ensures TreeOf(e.vol)[p] == TreeOf(d.vol)[p] {
        assert Entry(p) !in d.dirty && Entry(p) in d.vol;
      }
      assert HashFile !in d.dirty;
    }
  }

  /** Without Safe, some crash leaves the flag beside an incomplete tree. */
  lemma CrashLoses(d: Disk, image: map<Path, Option<Bytes>>, hash: Option<Bytes>) returns (e: Disk)
    requires !Safe(d, image, hash) && (d.dir || d.dirDirty) && HashFile !in d.vol
    ensures CrashTo(d, e) && Flag in e.vol && !Complete(e, image, hash)
  {
    e := Disk(true, d.vol[Flag := if Flag in d.vol then d.vol[Flag] else None], {}, false);
  }

  /** A process killed after unlinking the flag leaves a state that is safe in itself, but from which
      the next Remove is not: it finds no flag and skips the sync. */
  lemma KilledBeforeSync(d: Disk, image: map<Path, Option<Bytes>>, hash: Option<Bytes>)
    requires Safe(d, image, hash) && d.dir && Flag in d.vol
    ensures Safe(Unlink(d, Flag), image, hash) && !FlagSettled(Unlink(d, Flag))
  {
    UnlinkFlag(d, image, hash);
  }

  /** Why everything is synced before the flag is written: with any file not yet certain on disk, the flag and
      a sync of the directory alone leave a state in which a crash does harm. */
  lemma SyncNeeded(d: Disk, image: map<Path, Option<Bytes>>, hash: Option<Bytes>, p: Path)
    requires Entry(p) in d.dirty
    ensures !Safe(SyncDir(WriteFile(d, Flag, None)), image, hash)
  {
    var e := SyncDir(WriteFile(d, Flag, None));
    assert Entry(p) in e.dirty && Entry(p) !in {Flag} && Flag in e.vol;
  }

  /** What goes wrong in one call: the stat or the unlink of the flag, syncing its removal, entries that cannot
      be removed, removing or making the directory, files that cannot be written, hashing, the hash file or
      syncing everything, creating the flag, syncing it. */
  datatype Faults = Faults(stat: bool, unlinkFlag: bool, syncUnlink: bool, stuck: set<Name>, rmDir: bool, mkDir: bool,
                           unwritable: set<Path>, hashing: bool, syncTree: bool, create: bool, syncFlag: bool)

  const NO_FAULTS: Faults := Faults(false, false, false, {}, false, false, {}, false, false, false, false)

  class Tree {
    const image: map<Path, Option<Bytes>>  // what rendering the image yields
    const digest: map<Path, Option<Bytes>> -> Bytes
    var d: Disk
    ghost var trace: seq<Disk>  // every state the disk went through

    ghost function Digest(): Option<Bytes> {
      Some(digest(image))
    }

    ghost predicate Ok(e: Disk) {
      Safe(e, image, Digest())
    }

    /** Every state since the first n is one after which a crash does no harm. */
    ghost predicate SafeSince(n: nat)
      reads this
    {
      forall i :: n <= i < |trace| ==> Ok(trace[i])
    }

    constructor (image: map<Path, Option<Bytes>>, digest: map<Path, Option<Bytes>> -> Bytes, d: Disk)
      ensures this.image == image && this.digest == digest && this.d == d && trace == []
    {
      this.image, this.digest, this.d, trace := image, digest, d, [];
    }

    method Do(e: Disk)
      modifies this`d, this`trace
      ensures d == e && trace == old(trace) + [e]
    {
      d, trace := e, trace + [e];
    }

    // Deletes one entry.
    method UnlinkAny(n: Name)
      requires n in d.vol
      modifies this`d, this`trace
      ensures trace == old(trace) + [d] && d.vol.Keys == old(d.vol).Keys - {n} && |d.vol| < |old(d.vol)|
      ensures old(d.dirty) <= d.dirty && old(d.vol).Keys <= d.vol.Keys + d.dirty
      ensures Flag !in old(d.vol) && Flag !in old(d.dirty) ==> Flag !in d.vol && Flag !in d.dirty && Ok(d)
    {
      hide Safe, Unlink;
      UnlinkOne(d, n);
      NoFlagSafe(Unlink(d, n), image, Digest());
      Do(Unlink(d, n));
    }

    // The entries go in any order, until one is stuck.
    method Clear(f: Faults) returns (ok: bool)
      modifies this`d, this`trace
      ensures |old(trace)| <= |trace| && trace[..|old(trace)|] == old(trace)
      ensures Flag !in old(d.vol) && Flag !in old(d.dirty) ==>
              Flag !in d.vol && Flag !in d.dirty && SafeSince(|old(trace)|)
      ensures ok ==> d.vol == map[] && old(d.vol).Keys <= d.dirty
      ensures ok <==> old(d.vol).Keys !! f.stuck
      ensures old(d.dirty) <= d.dirty && d.vol.Keys <= old(d.vol).Keys
    {
      hide Safe;
      ghost var n0, v0 := |trace|, d.vol.Keys;
      while d.vol != map[]
        invariant n0 <= |trace| && trace[..n0] == old(trace)
        invariant Flag !in old(d.vol) && Flag !in old(d.dirty) ==> Flag !in d.vol && Flag !in d.dirty && SafeSince(n0)
        invariant old(d.dirty) <= d.dirty && d.vol.Keys <= v0 && v0 <= d.vol.Keys + d.dirty
        invariant (v0 - d.vol.Keys) !! f.stuck
        decreases |d.vol|
      {
        var n :| n in d.vol;
        if n in f.stuck {
          assert n in v0 * f.stuck;
          return false;
        }
        UnlinkAny(n);
      }
      return true;
    }

    // RemoveAll deletes the entries, then the directory.
    method RemoveAll(f: Faults) returns (ok: bool)
      modifies this`d, this`trace
      ensures |old(trace)| <= |trace| && trace[..|old(trace)|] == old(trace)
      ensures Flag !in old(d.vol) && Flag !in old(d.dirty) ==>
              Flag !in d.vol && Flag !in d.dirty && SafeSince(|old(trace)|)
      ensures ok ==> !d.dir && d.vol == map[] && d.dirDirty && |trace| > |old(trace)| && trace[|trace| - 1] == d
      ensures ok <==> old(d.vol).Keys !! f.stuck && !f.rmDir
      ensures old(d.dirty) <= d.dirty
      ensures ok ==> old(d.vol).Keys <= d.dirty
      ensures forall n :: n in d.vol ==> n in old(d.vol)
    {
      hide Safe;
      ok := Clear(f);
      if !ok || f.rmDir { return false; }
      NoFlagSafe(RmDir(d), image, Digest());
      Do(RmDir(d));
    }

    /** Removing is safe exactly when the flag is certainly gone from disk before anything else goes. */
    ghost predicate RemoveSafe(e: Disk, unlinkWorks: bool) {
      e.dir ==> FlagSettled(e) && (Flag in e.vol ==> unlinkWorks)
    }

    // Remove (tree.go lines 100-134). An error of unlinking the flag is overwritten and not seen.
    method Remove(f: Faults) returns (ok: bool)
      requires Ok(d) && (!d.dir ==> d.vol == map[])
      modifies this`d, this`trace
      ensures |old(trace)| <= |trace| && trace[..|old(trace)|] == old(trace)
      ensures RemoveSafe(old(d), !f.unlinkFlag) ==> SafeSince(|old(trace)|) && Ok(d)
      ensures f == NO_FAULTS ==> ok
      ensures ok ==> !d.dir && d.vol == map[]
      ensures ok ==> (Ok(d) <==> RemoveSafe(old(d), !f.unlinkFlag))
      ensures ok && Ok(d) ==> Flag !in d.dirty
      ensures ok && old(d.dir) ==> d.dirDirty && |trace| > |old(trace)| && trace[|trace| - 1] == d
    {
      hide Complete;
      if !d.dir {
        GoneIsClean(d, image, Digest());
        return true;
      }
      if f.stat { return false; }
      if Flag in d.vol {
        if !f.unlinkFlag { Do(Unlink(d, Flag)); UnlinkFlag(old(d), image, Digest()); }
        if f.syncUnlink { return false; }
        Do(SyncDir(d));
        SyncedFlag(old(d), !f.unlinkFlag, image, Digest());
      }
      ok := RemoveAll(f);
      if ok { GoneIsClean(d, image, Digest()); }
    }

    // RenderACIWithImageID writes the files of the image in any order (tree.go line 65).
    method Render(f: Faults) returns (ok: bool)
      requires d.dir && d.vol == map[]
      modifies this`d, this`trace
      ensures |old(trace)| <= |trace| && trace[..|old(trace)|] == old(trace)
      ensures Flag !in old(d.dirty) ==> Flag !in d.dirty && SafeSince(|old(trace)|)
      ensures d.dir && Flag !in d.vol
      ensures ok <==> image.Keys !! f.unwritable
      ensures ok ==> TreeOf(d.vol) == image && HashFile !in d.vol
    {
      ghost var n0 := |trace|;
      var todo := image;
      while todo != map[]
        invariant n0 <= |trace| && trace[..n0] == old(trace) && d.dir
        invariant Flag !in old(d.dirty) ==> Flag !in d.dirty && SafeSince(n0)
        invariant forall n :: n in d.vol ==> n.Entry? && n.path in image && d.vol[n] == image[n.path]
        invariant forall p :: p in image ==> p in todo || Entry(p) in d.vol
        invariant forall p :: p in todo ==> p in image && todo[p] == image[p]
        invariant forall p :: p in image && p !in todo ==> p !in f.unwritable
        decreases |todo|
      {
        var p :| p in todo;
        if p in f.unwritable { return false; }
        Do(WriteFile(d, Entry(p), todo[p]));
        todo := todo - {p};
      }
      Rendered(d.vol, image);
      return true;
    }

    // The hash and the sync (tree.go lines 69-85).
    method Stamp(f: Faults) returns (ok: bool)
      requires d.dir && TreeOf(d.vol) == image && HashFile !in d.vol && Flag !in d.vol
      modifies this`d, this`trace
      ensures |old(trace)| <= |trace| && trace[..|old(trace)|] == old(trace) && d.dir && Flag !in d.vol
      ensures Flag !in old(d.dirty) ==> Flag !in d.dirty && SafeSince(|old(trace)|)
      ensures ok <==> !f.syncTree
      ensures ok ==> Complete(d, image, Digest()) && d.dirty == {} && !d.dirDirty
    {
      hide Complete;
      ghost var tree := d.vol;
      Do(WriteFile(d, HashFile, Some(digest(TreeOf(d.vol)))));
      assert d.vol - {HashFile} == tree;
      if f.syncTree { return false; }
      Do(SyncFs(d));
      HashKeepsTree(d, image, Digest());
      return true;
    }

    // The flag and its sync (tree.go lines 86-96).
    method RaiseFlag(f: Faults) returns (ok: bool)
      requires Complete(d, image, Digest()) && d.dirty == {} && !d.dirDirty && Flag !in d.vol
      modifies this`d, this`trace
      ensures |old(trace)| <= |trace| && trace[..|old(trace)|] == old(trace)
      ensures SafeSince(|old(trace)|) && Ok(d) && FlagSettled(d)
      ensures ok <==> !f.create && !f.syncFlag
      ensures ok ==> Complete(d, image, Digest()) && Flag in d.vol && d.dirty == {}
    {
      hide Complete;
      FlagKeepsTree(d, image, Digest());
      if f.create { return false; }
      Do(WriteFile(d, Flag, None));
      if f.syncFlag { return false; }
      Do(SyncDir(d));
      return true;
    }

    // The hash, the sync, the flag (tree.go lines 69-96).
    method Seal(f: Faults) returns (ok: bool)
      requires d.dir && TreeOf(d.vol) == image && HashFile !in d.vol && Flag !in d.vol
      modifies this`d, this`trace
      ensures |old(trace)| <= |trace| && trace[..|old(trace)|] == old(trace)
      ensures Flag !in old(d.dirty) ==> SafeSince(|old(trace)|) && Ok(d) && FlagSettled(d)
      ensures ok <==> !f.syncTree && !f.create && !f.syncFlag
      ensures ok ==> Complete(d, image, Digest()) && Flag in d.vol && d.dirty == {}
    {
      hide Complete, TreeOf;
      ok := Stamp(f);
      if !ok { return; }
      ok := RaiseFlag(f);
    }

    // Write (tree.go lines 52-97).
    method Write(f: Faults) returns (ok: bool)
      requires !d.dir ==> d.vol == map[]
      modifies this`d, this`trace
      ensures |old(trace)| <= |trace| && trace[..|old(trace)|] == old(trace)
      ensures Ok(old(d)) ==> SafeSince(|old(trace)|) && Ok(d)
      ensures Ok(old(d)) && FlagSettled(old(d)) ==> FlagSettled(d)
      ensures f == NO_FAULTS && !old(d.dir) ==> ok
      ensures old(d.dir) ==> !ok && d == old(d)
      ensures ok ==> Complete(d, image, Digest()) && Flag in d.vol && d.dirty == {}
    {
      hide Complete;
      if d.dir { return false; }
      GoneIsClean(d, image, Digest());
      if f.mkDir { return false; }
      Do(MkDir(d));
      ok := Render(f);
      if !ok { return false; }
      if f.hashing { return false; }
      ok := Seal(f);
    }

    // RenderTreeStore (store.go lines 401-431), under the key's exclusive lock.
    method RenderTreeStore(rebuild: bool, f: Faults) returns (ok: bool)
      requires Ok(d) && (!d.dir ==> d.vol == map[])
      modifies this`d, this`trace
      ensures |old(trace)| <= |trace| && trace[..|old(trace)|] == old(trace)
      ensures (!rebuild && Flag in old(d.vol)) || RemoveSafe(old(d), !f.unlinkFlag) ==> SafeSince(|old(trace)|) && Ok(d)
      ensures ok && SafeSince(|old(trace)|) ==> (!rebuild && Flag in old(d.vol)) || RemoveSafe(old(d), !f.unlinkFlag)
      ensures f == NO_FAULTS ==> ok
      ensures ok ==> Complete(d, image, Digest()) && Flag in d.vol
    {
      if !rebuild && Flag in d.vol { return true; }
      ok := Remove(f);
      if !ok { return false; }
      ok := Write(f);
    }

    // Check (tree.go lines 185-199).
    method Check() returns (ok: bool)
      ensures ok <==> HashFile in d.vol && d.vol[HashFile] == Some(digest(TreeOf(d.vol)))
      ensures Complete(d, image, Digest()) ==> ok
    {
      ok := HashFile in d.vol && d.vol[HashFile] == Some(digest(TreeOf(d.vol)));
    }
  }

  lemma GoneIsClean(d: Disk, image: map<Path, Option<Bytes>>, hash: Option<Bytes>)
    requires !d.dir && d.vol == map[]
    ensures Safe(d, image, hash) <==> Flag !in d.dirty
  {
  }

  lemma UnlinkOne(d: Disk, n: Name)
    requires n in d.vol
    ensures var e := Unlink(d, n);
            e.vol.Keys == d.vol.Keys - {n} && |e.vol| < |d.vol| && e.dirty == d.dirty + {n} && e.dir == d.dir
  {
    var e := Unlink(d, n);
    assert e.vol.Keys == d.vol.Keys - {n} && |e.vol.Keys| == |d.vol.Keys| - 1;
  }

  lemma NoFlagSafe(d: Disk, image: map<Path, Option<Bytes>>, hash: Option<Bytes>)
    ensures Flag !in d.vol && Flag !in d.dirty ==> Safe(d, image, hash)
  {
  }

  lemma FlagKeepsTree(d: Disk, image: map<Path, Option<Bytes>>, hash: Option<Bytes>)
    requires Complete(d, image, hash)
    ensures Complete(WriteFile(d, Flag, None), image, hash) && Complete(SyncDir(WriteFile(d, Flag, None)), image, hash)
  {
    assert TreeOf(WriteFile(d, Flag, None).vol) == TreeOf(d.vol);
  }

  lemma UnlinkFlag(d: Disk, image: map<Path, Option<Bytes>>, hash: Option<Bytes>)
    requires Safe(d, image, hash) && Flag in d.vol
    ensures Safe(Unlink(d, Flag), image, hash)
  {
    assert TreeOf(Unlink(d, Flag).vol) == TreeOf(d.vol);
  }

  lemma SyncedFlag(d: Disk, unlinkWorks: bool, image: map<Path, Option<Bytes>>, hash: Option<Bytes>)
    requires Safe(d, image, hash) && Flag in d.vol
    ensures var e := SyncDir(if unlinkWorks then Unlink(d, Flag) else d);
            Safe(e, image, hash) && Flag !in e.dirty && (Flag in e.vol <==> !unlinkWorks)
  {
  }

  lemma Rendered(vol: map<Name, Option<Bytes>>, image: map<Path, Option<Bytes>>)
    requires forall n :: n in vol ==> n.Entry? && n.path in image && vol[n] == image[n.path]
    requires forall p :: p in image ==> Entry(p) in vol
    ensures TreeOf(vol) == image
  {
    forall p ensures p in TreeOf(vol) <==> p in image {
      if p in image { assert Entry(p) in vol; }
    }
  }

  lemma HashKeepsTree(d: Disk, image: map<Path, Option<Bytes>>, hash: Option<Bytes>)
    requires d.dir && HashFile in d.vol && d.vol[HashFile] == hash && TreeOf(d.vol - {HashFile}) == image &&
             Flag !in d.vol
    ensures Complete(d, image, hash) && Complete(WriteFile(d, Flag, None), image, hash)
    ensures Complete(SyncDir(WriteFile(d, Flag, None)), image, hash)
  {
    assert TreeOf(d.vol) == TreeOf(d.vol - {HashFile});
    assert TreeOf(WriteFile(d, Flag, None).vol) == TreeOf(d.vol);
  }
}
