// The image store under concurrent imports and removals that may die at any step
// (store/store.go, store/db.go).

module ImageStore {
  type Key(==, !new)
  type Pid(==, !new)

  // A diskv file: missing, truncated for writing, or with its full contents.
  datatype Content = Absent | Part | Whole

  datatype Item = Item(blob: Content, manifest: Content, row: bool)

  datatype Pc =
    | Idle
    | Writing     // WriteACI: has the key's exclusive lock
    | Imported    // the blob was renamed into place
    | Truncated   // the manifest file was opened with O_TRUNC
    | Written     // the manifest is complete
    | Removing    // RemoveACI: has the key's exclusive lock
    | RowGone     // the transaction was committed
    | BlobGone    // the blob was erased, or erasing it failed

  datatype Agent = Agent(pc: Pc, key: Key)

  datatype Sys = Sys(items: map<Key, Item>, agents: map<Pid, Agent>)

  // LoseRemoval is a commit whose error DoTx drops: RemoveACI goes on although the row stays.
  datatype Act =
    | LockWrite(key: Key) | Import | Truncate | Finish | CommitRow | LoseRow
    | LockRemove(key: Key) | CommitRemoval | LoseRemoval | NotFound | EraseBlob(ok: bool) | EraseManifest(ok: bool)
    | Die

  const EMPTY: Item := Item(Absent, Absent, false)

  ghost function At(s: Sys, k: Key): Item {
    if k in s.items then s.items[k] else EMPTY
  }

  ghost predicate Busy(s: Sys, a: Pid) {
    a in s.agents && !s.agents[a].pc.Idle?
  }

  /** The key lock lets at most one agent work on a key. */
  ghost predicate KeyFree(s: Sys, k: Key) {
    forall b :: b in s.agents && s.agents[b].key == k ==> s.agents[b].pc.Idle?
  }

  ghost predicate Enabled(s: Sys, a: Pid, act: Act) {
    if act.LockWrite? || act.LockRemove? then !Busy(s, a) && KeyFree(s, act.key)
    else
      && a in s.agents
      && var g := s.agents[a];
         match act
         case Import => g.pc.Writing?
         case Truncate => g.pc.Imported?
         case Finish => g.pc.Truncated?
         case CommitRow => g.pc.Written?
         case LoseRow => g.pc.Written?
         case CommitRemoval => g.pc.Removing? && At(s, g.key).row
         case LoseRemoval => g.pc.Removing? && At(s, g.key).row
         case NotFound => g.pc.Removing? && !At(s, g.key).row
         case EraseBlob(_) => g.pc.RowGone?
         case EraseManifest(_) => g.pc.BlobGone?
         case Die => true
  }

  ghost function Step(s: Sys, a: Pid, pc: Pc, i: Item): Sys
    requires a in s.agents
  {
    var g := s.agents[a];
    Sys(s.items[g.key := i], s.agents[a := g.(pc := pc)])
  }

  ghost function Effect(s: Sys, a: Pid, act: Act): Sys
    requires Enabled(s, a, act)
  {
    if act.LockWrite? then s.(agents := s.agents[a := Agent(Writing, act.key)])
    else if act.LockRemove? then s.(agents := s.agents[a := Agent(Removing, act.key)])
    else
      var i := At(s, s.agents[a].key);
      match act
      case Import => Step(s, a, Imported, i.(blob := Whole))
      case Truncate => Step(s, a, Truncated, i.(manifest := Part))
      case Finish => Step(s, a, Written, i.(manifest := Whole))
      case CommitRow => Step(s, a, Idle, i.(row := true))
      case LoseRow => Step(s, a, Idle, i)
      case CommitRemoval => Step(s, a, RowGone, i.(row := false))
      case LoseRemoval => Step(s, a, RowGone, i)
      case NotFound => Step(s, a, Idle, i)
      case EraseBlob(ok) => Step(s, a, BlobGone, if ok then i.(blob := Absent) else i)
      case EraseManifest(ok) => Step(s, a, Idle, if ok then i.(manifest := Absent) else i)
      case Die => Step(s, a, Idle, i)
  }

  datatype Event = Event(who: Pid, act: Act)

  const INITIAL: Sys := Sys(map[], map[])

  ghost predicate Possible(s: Sys, run: seq<Event>)
    decreases |run|
  {
    run == [] || (Enabled(s, run[0].who, run[0].act) && Possible(Effect(s, run[0].who, run[0].act), run[1..]))
  }

  ghost function After(s: Sys, run: seq<Event>): Sys
    requires Possible(s, run)
    decreases |run|
  {
    if run == [] then s else After(Effect(s, run[0].who, run[0].act), run[1..])
  }

  /** Every committed removal took effect. */
  ghost predicate Commits(run: seq<Event>) {
    forall i :: 0 <= i < |run| ==> !run[i].act.LoseRemoval?
  }

  /** No import rewrites the manifest of an image that already has a row. */
  ghost predicate NewImports(s: Sys, run: seq<Event>)
    requires Possible(s, run)
    decreases |run|
  {
    run == [] ||
    (var e := run[0];
     && (e.act.Truncate? ==> !At(s, s.agents[e.who].key).row)
     && NewImports(Effect(s, e.who, e.act), run[1..]))
  }

  // What every step keeps.

  ghost predicate Backed(i: Item) {
    i.row ==> i.blob == Whole && i.manifest != Absent
  }

  ghost predicate FullyBacked(i: Item) {
    i.row ==> i.blob == Whole && i.manifest == Whole
  }

  ghost predicate Knows(i: Item, g: Agent) {
    && (g.pc.Imported? || g.pc.Truncated? || g.pc.Written? ==> i.blob == Whole)
    && (g.pc.Truncated? ==> i.manifest == Part)
    && (g.pc.Written? ==> i.manifest == Whole)
    && (g.pc.RowGone? || g.pc.BlobGone? ==> !i.row)
  }

  ghost predicate Inv(s: Sys) {
    && (forall k :: k in s.items ==> Backed(s.items[k]))
    && (forall a :: a in s.agents ==> Knows(At(s, s.agents[a].key), s.agents[a]))
    && (forall a, b :: a in s.agents && b in s.agents && a != b && s.agents[a].key == s.agents[b].key ==>
          s.agents[a].pc.Idle? || s.agents[b].pc.Idle?)
  }

  lemma KeepsInv(s: Sys, a: Pid, act: Act)
    requires Inv(s) && Enabled(s, a, act) && !act.LoseRemoval?
    ensures Inv(Effect(s, a, act))
  {
    var t := Effect(s, a, act);
    if a in s.agents {
      assert Knows(At(s, s.agents[a].key), s.agents[a]) && Backed(At(s, s.agents[a].key));
    }
    forall k | k in t.items ensures Backed(t.items[k]) {
      if k in s.items { assert Backed(s.items[k]); }
    }
    forall b | b in t.agents ensures Knows(At(t, t.agents[b].key), t.agents[b]) {
      if b in s.agents { assert Knows(At(s, s.agents[b].key), s.agents[b]); }
    }
  }

  lemma {:induction false} RunKeepsInv(s: Sys, run: seq<Event>)
    requires Inv(s) && Possible(s, run) && Commits(run)
    ensures Inv(After(s, run))
    decreases |run|
  {
    hide Inv, Enabled, Effect;
    if run != [] {
      KeepsInv(s, run[0].who, run[0].act);
      RunKeepsInv(Effect(s, run[0].who, run[0].act), run[1..]);
    }
  }

  /** After any run of imports and removals, stopped anywhere, every row has its blob and manifest. */
  lemma {:induction false} RowsAreBacked(run: seq<Event>, k: Key)
    requires Possible(INITIAL, run) && Commits(run)
    ensures Backed(At(After(INITIAL, run), k))
  {
    RunKeepsInv(INITIAL, run);
  }

  /** A removal whose commit is lost erases the blob of a row that stays. */
  lemma {:induction false} LostRemovalBreaks(s: Sys, a: Pid)
    requires Inv(s) && Enabled(s, a, LoseRemoval)
    ensures var run := [Event(a, LoseRemoval), Event(a, EraseBlob(true))];
            Possible(s, run) && !Backed(At(After(s, run), s.agents[a].key))
  {
    var t := Effect(s, a, LoseRemoval);
    var run := [Event(a, LoseRemoval), Event(a, EraseBlob(true))];
    var rest := run[1..];
    assert rest == [Event(a, EraseBlob(true))] && rest[1..] == [];
    assert Enabled(t, a, EraseBlob(true));
    var u := Effect(t, a, EraseBlob(true));
    assert Possible(u, rest[1..]) && After(u, rest[1..]) == u;
    assert Possible(t, rest) && After(t, rest) == u;
    assert Possible(s, run) && After(s, run) == u;
  }

  // What an import or a removal gets done when nobody else works on the key.

  lemma {:induction false} Snoc(s: Sys, run: seq<Event>, e: Event)
    requires Possible(s, run) && Enabled(After(s, run), e.who, e.act)
    ensures Possible(s, run + [e]) && After(s, run + [e]) == Effect(After(s, run), e.who, e.act)
    decreases |run|
  {
    hide Enabled, Effect;
    if run == [] {
      assert [e][1..] == [];
    } else {
      assert (run + [e])[1..] == run[1..] + [e];
      Snoc(Effect(s, run[0].who, run[0].act), run[1..], e);
    }
  }

  lemma {:induction false} Go(s: Sys, run: seq<Event>, a: Pid, act: Act) returns (run': seq<Event>)
    requires Possible(s, run) && Enabled(After(s, run), a, act)
    ensures run' == run + [Event(a, act)] && Possible(s, run') && After(s, run') == Effect(After(s, run), a, act)
  {
    hide Enabled, Effect;
    run' := run + [Event(a, act)];
    Snoc(s, run, Event(a, act));
  }

  ghost function By(a: Pid, acts: seq<Act>): seq<Event> {
    seq(|acts|, i requires 0 <= i < |acts| => Event(a, acts[i]))
  }

  /** t differs from s at key k only, where it has i. */
  ghost predicate OnlyAt(s: Sys, t: Sys, k: Key, i: Item) {
    At(t, k) == i && forall j :: j != k ==> At(t, j) == At(s, j)
  }

  /** In every reachable state, an import that nobody is in the way of ends with blob, manifest and row, and
      leaves the other keys alone. */
  lemma {:induction false} ImportSucceeds(before: seq<Event>, a: Pid, k: Key) returns (run: seq<Event>)
    requires Possible(INITIAL, before)
    requires var s := After(INITIAL, before); KeyFree(s, k) && !Busy(s, a)
    ensures run == By(a, [LockWrite(k), Import, Truncate, Finish, CommitRow])
    ensures var s := After(INITIAL, before);
            Possible(s, run) && OnlyAt(s, After(s, run), k, Item(Whole, Whole, true)) && KeyFree(After(s, run), k)
  {
    hide Possible, After;
    var s := After(INITIAL, before);
    NoSteps(s);
    run := Go(s, [], a, LockWrite(k));
    run := Go(s, run, a, Import);
    run := Go(s, run, a, Truncate);
    run := Go(s, run, a, Finish);
    run := Go(s, run, a, CommitRow);
  }

  /** In every reachable state, the removal of an image with a row that nobody is in the way of ends with
      neither row nor blob nor manifest, and leaves the other keys alone. */
  lemma {:induction false} RemovalSucceeds(before: seq<Event>, a: Pid, k: Key) returns (run: seq<Event>)
    requires Possible(INITIAL, before)
    requires var s := After(INITIAL, before); KeyFree(s, k) && !Busy(s, a) && At(s, k).row
    ensures run == By(a, [LockRemove(k), CommitRemoval, EraseBlob(true), EraseManifest(true)])
    ensures var s := After(INITIAL, before);
            Possible(s, run) && OnlyAt(s, After(s, run), k, Item(Absent, Absent, false)) && KeyFree(After(s, run), k)
  {
    hide Possible, After;
    var s := After(INITIAL, before);
    NoSteps(s);
    run := Go(s, [], a, LockRemove(k));
    run := Go(s, run, a, CommitRemoval);
    run := Go(s, run, a, EraseBlob(true));
    run := Go(s, run, a, EraseManifest(true));
  }

  /** A removal of an image without a row finds nothing and changes nothing. */
  lemma {:induction false} RemovalFindsNothing(before: seq<Event>, a: Pid, k: Key, act: Act)
    requires Possible(INITIAL, before)
    requires var s := After(INITIAL, before);
             && !At(s, k).row && a in s.agents && s.agents[a].pc.Removing? && s.agents[a].key == k
             && Enabled(s, a, act)
    ensures var s := After(INITIAL, before); var t := Effect(s, a, act);
            forall j :: At(t, j) == At(s, j)
  {
  }

  /** A row comes only by the commit of an import and goes only by the commit of a removal of its key. */
  lemma {:induction false} RowsByCommit(s: Sys, a: Pid, act: Act, k: Key)
    requires Enabled(s, a, act)
    ensures var t := Effect(s, a, act);
            && (!At(s, k).row && At(t, k).row ==> act.CommitRow? && s.agents[a].key == k)
            && (At(s, k).row && !At(t, k).row ==> act.CommitRemoval? && s.agents[a].key == k)
  {
  }

  /** A blob goes only by an erase that succeeds, and a manifest only by that or by being written anew. */
  lemma {:induction false} FilesByOwner(s: Sys, a: Pid, act: Act, k: Key)
    requires Enabled(s, a, act)
    ensures var t := Effect(s, a, act);
            && (At(t, k).blob != At(s, k).blob ==>
                 (act.Import? || act == EraseBlob(true)) && s.agents[a].key == k)
            && (At(t, k).manifest != At(s, k).manifest ==>
                 (act.Truncate? || act.Finish? || act == EraseManifest(true)) && s.agents[a].key == k)
  {
  }

  /** A process that dies leaves everything on disk and in the database as it is. */
  lemma {:induction false} DeathKeeps(s: Sys, a: Pid)
    requires Enabled(s, a, Die)
    ensures var t := Effect(s, a, Die);
            (forall j :: At(t, j) == At(s, j)) && t.agents[a].pc.Idle?
  {
  }

  lemma NoSteps(s: Sys)
    ensures Possible(s, []) && After(s, []) == s
  {
  }

  ghost predicate AllBacked(s: Sys) {
    forall k :: k in s.items ==> Backed(s.items[k])
  }

  /** Whatever happens from s on, rows stay backed as long as no further removal loses its commit. */
  ghost predicate StaysBacked(s: Sys) {
    forall run :: Possible(s, run) && Commits(run) ==> AllBacked(After(s, run))
  }

  lemma {:induction false} LostStep(s: Sys, a: Pid)
    requires Inv(s) && Enabled(s, a, LoseRemoval)
    ensures !StaysBacked(Effect(s, a, LoseRemoval))
  {
    var t, k := Effect(s, a, LoseRemoval), s.agents[a].key;
    var rest := [Event(a, EraseBlob(true))];
    LostRemovalBreaks(s, a);
    assert rest[1..] == [] && Enabled(t, a, EraseBlob(true));
    var u := Effect(t, a, EraseBlob(true));
    assert Possible(u, rest[1..]) && After(u, rest[1..]) == u;
    assert Possible(t, rest) && After(t, rest) == u && Commits(rest);
    assert k in u.items && !Backed(u.items[k]);
  }

  /** From every good state, a step leaves rows that stay backed whatever follows, short of a further lost
      commit, if and only if it is not itself a removal that loses its commit. */
  lemma {:induction false} BackedIffCommitted(s: Sys, a: Pid, act: Act)
    requires Inv(s) && Enabled(s, a, act)
    ensures StaysBacked(Effect(s, a, act)) <==> !act.LoseRemoval?
  {
    hide Enabled, Effect;
    if act.LoseRemoval? {
      LostStep(s, a);
    } else {
      KeepsInv(s, a, act);
      var t := Effect(s, a, act);
      forall run | Possible(t, run) && Commits(run) ensures AllBacked(After(t, run)) {
        RunKeepsInv(t, run);
      }
    }
  }

  ghost predicate AllFull(s: Sys) {
    forall k :: k in s.items ==> FullyBacked(s.items[k])
  }

  /** A step leaves every row with a complete manifest exactly when it does not truncate the manifest of
      an image that has one. */
  lemma FullStep(s: Sys, a: Pid, act: Act)
    requires Inv(s) && AllFull(s) && Enabled(s, a, act) && !act.LoseRemoval?
    ensures AllFull(Effect(s, a, act)) <==> !(act.Truncate? && At(s, s.agents[a].key).row)
  {
    var t := Effect(s, a, act);
    if a in s.agents {
      var k := s.agents[a].key;
      assert Knows(At(s, k), s.agents[a]) && Backed(At(s, k)) && FullyBacked(At(s, k));
      if act.Truncate? && At(s, k).row {
        assert !FullyBacked(t.items[k]);
      }
    }
  }

  /** Rows always have complete manifests if no import rewrites an image that has a row. */
  lemma {:induction false} RowsAreFullyBacked(s: Sys, run: seq<Event>)
    requires Inv(s) && AllFull(s) && Possible(s, run) && Commits(run) && NewImports(s, run)
    ensures AllFull(After(s, run))
    decreases |run|
  {
    hide Inv, Enabled, Effect, AllFull;
    if run != [] {
      KeepsInv(s, run[0].who, run[0].act);
      FullStep(s, run[0].who, run[0].act);
      RowsAreFullyBacked(Effect(s, run[0].who, run[0].act), run[1..]);
    }
  }
}
