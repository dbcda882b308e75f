// Key locks: lockers and cleaners of one lock directory, step by step (pkg/lock/keylock.go and dir.go).

module KeyLock {
  type Key(==, !new)
  type Pid(==, !new)

  type File = nat   // a file for its whole life
  type Inode = nat  // its inode number, which a later file may get again

  datatype Mode = Unlocked | Shared | Exclusive

  // Where an agent is. Every KeyLock object is an agent of its own.
  datatype Pc =
    | Idle       // nothing open
    | Created    // NewKeyLock: the O_CREATE open was closed again
    | Opened     // NewLock returned
    | Asking     // inside flock
    | Locked     // flock returned
    | Stated     // the locked file's inode number is read
    | Looking    // the path is open
    | Seen       // the path's inode number is read
    | Shut       // the path's descriptor is closed
    | Holding    // lock returned nil
    | Removed    // CleanKeyLocks: os.Remove returned
    | Failed     // lock returned an error

  datatype Agent = Agent(key: Key, cleaner: bool, pc: Pc, want: Mode, retries: nat,
                         file: File, held: Mode, probe: File, lockIno: Inode, curIno: Inode)

  datatype Sys = Sys(dir: map<Key, File>, ino: map<File, Inode>, agents: map<Pid, Agent>)

  datatype Act =
    | Start(key: Key, cleaner: bool) | Create(file: File, ino: Inode) | Open | OpenMissing
    | Ask(want: Mode) | Acquire | Refuse | StatLock | OpenPath | PathMissing | StatPath | ClosePath
    | Same | Differ | GiveUp | Unlock | Close | Unlink | Crash

  const MAX_RETRIES: nat := 3

  ghost predicate HasFile(pc: Pc) {
    !(pc.Idle? || pc.Created?)
  }

  ghost predicate HasProbe(pc: Pc) {
    pc.Looking? || pc.Seen?
  }

  /** The agent has a descriptor on f. */
  ghost predicate Refers(g: Agent, f: File) {
    (HasFile(g.pc) && g.file == f) || (HasProbe(g.pc) && g.probe == f)
  }

  /** f has a name or a descriptor; otherwise its inode number is free again. */
  ghost predicate Live(s: Sys, f: File) {
    (exists k :: k in s.dir && s.dir[k] == f) || (exists a :: a in s.agents && Refers(s.agents[a], f))
  }

  /** No live file has inode number n. */
  ghost predicate NumberFree(s: Sys, n: Inode) {
    forall o :: o in s.ino && s.ino[o] == n ==> !Live(s, o)
  }

  /** flock(2): an exclusive lock conflicts with any lock on the same file by another description. */
  ghost predicate Free(s: Sys, a: Pid, f: File, m: Mode) {
    forall b :: b in s.agents && b != a && HasFile(s.agents[b].pc) && s.agents[b].file == f ==>
      s.agents[b].held == Unlocked || (s.agents[b].held == Shared && m == Shared)
  }

  /** No lock call of the agent is under way and it has nothing open. */
  ghost predicate IsIdle(s: Sys, a: Pid) {
    a !in s.agents || (s.agents[a].pc.Idle? && s.agents[a].retries == 0)
  }

  // retries counts how often the current lock call started over; it is 0 outside of a call.
  ghost predicate MayAsk(g: Agent, m: Mode) {
    && m != Unlocked && (g.cleaner ==> m == Exclusive)
    && (g.pc.Opened? || (!g.cleaner && (g.pc.Holding? || g.pc.Failed?)))
    && (g.pc.Opened? && g.retries > 0 ==> m == g.want)
  }

  ghost predicate Enabled(s: Sys, a: Pid, act: Act) {
    if act.Start? then IsIdle(s, a)
    else
      && a in s.agents
      && var g := s.agents[a];
         match act
         case Create(f, n) => g.pc.Idle? && (g.key !in s.dir ==> f !in s.ino && NumberFree(s, n))
         case Open => g.pc.Created? && g.key in s.dir
         case OpenMissing => g.pc.Created? && g.key !in s.dir
         case Ask(m) => MayAsk(g, m)
         case Acquire => g.pc.Asking? && Free(s, a, g.file, g.want)
         case Refuse => g.pc.Asking?
         case StatLock => g.pc.Locked? && g.file in s.ino
         case OpenPath => g.pc.Stated? && g.key in s.dir
         case PathMissing => g.pc.Stated? && g.key !in s.dir
         case StatPath => g.pc.Looking? && g.probe in s.ino
         case ClosePath => g.pc.Seen?
         case Same => g.pc.Shut? && g.lockIno == g.curIno
         case Differ => g.pc.Shut? && g.lockIno != g.curIno && g.retries < MAX_RETRIES
         case GiveUp => g.pc.Shut? && g.lockIno != g.curIno && g.retries >= MAX_RETRIES
         case Unlock => !g.cleaner && g.retries == 0 && (g.pc.Opened? || g.pc.Holding? || g.pc.Failed?)
         case Close => HasFile(g.pc)
         case Unlink => g.pc.Holding? && g.cleaner
         case Crash => true
  }

  ghost function With(s: Sys, a: Pid, g: Agent): Sys {
    s.(agents := s.agents[a := g])
  }

  ghost function Effect(s: Sys, a: Pid, act: Act): Sys
    requires Enabled(s, a, act)
  {
    if act.Start? then With(s, a, Agent(act.key, act.cleaner, Idle, Unlocked, 0, 0, Unlocked, 0, 0, 0))
    else
      var g := s.agents[a];
      match act
      case Create(f, n) =>
        var t := With(s, a, g.(pc := Created));
        if g.key in s.dir then t else t.(dir := s.dir[g.key := f], ino := s.ino[f := n])
      case Open => With(s, a, g.(pc := Opened, file := s.dir[g.key], held := Unlocked))
      case OpenMissing => With(s, a, g.(pc := Idle, retries := 0))
      // flock(2) leaves a lock of the same mode alone; a conversion first gives up the lock held so far.
      case Ask(m) =>
        With(s, a, if m == g.held then g.(pc := Locked, want := m) else g.(pc := Asking, want := m, held := Unlocked))
      case Acquire => With(s, a, g.(pc := Locked, held := g.want))
      case Refuse => With(s, a, g.(pc := Failed, retries := 0))
      case StatLock => With(s, a, g.(pc := Stated, lockIno := s.ino[g.file]))
      case OpenPath => With(s, a, g.(pc := Looking, probe := s.dir[g.key]))
      case PathMissing => With(s, a, g.(pc := Failed, retries := 0))
      case StatPath => With(s, a, g.(pc := Seen, curIno := s.ino[g.probe]))
      case ClosePath => With(s, a, g.(pc := Shut))
      case Same => With(s, a, g.(pc := Holding, retries := 0))
      // The lock on the replaced file is dropped and NewKeyLock starts over.
      case Differ => With(s, a, g.(pc := Idle, held := Unlocked, retries := g.retries + 1))
      case GiveUp => With(s, a, g.(pc := Failed, retries := 0))
      case Unlock => With(s, a, g.(pc := Opened, held := Unlocked))
      case Close => With(s, a, g.(pc := Idle, held := Unlocked, retries := 0))
      case Unlink => With(s, a, g.(pc := Removed)).(dir := s.dir - {g.key})
      case Crash => With(s, a, g.(pc := Idle, held := Unlocked, retries := 0))
  }

  // Runs: any interleaving of the steps of any number of agents.

  datatype Event = Event(who: Pid, act: Act)

  ghost predicate Possible(s: Sys, run: seq<Event>)
    decreases |run|
  {
    run == [] || (Enabled(s, run[0].who, run[0].act) && Possible(Effect(s, run[0].who, run[0].act), run[1..]))
  }

  ghost function After(s: Sys, run: seq<Event>): Sys
    requires Possible(s, run)
    decreases |run|
  {
    if run == [] then s else After(Effect(s, run[0].who, run[0].act), run[1..])
  }

  const INITIAL: Sys := Sys(map[], map[], map[])

  // What every step keeps.

  ghost predicate Known(s: Sys) {
    && (forall k :: k in s.dir ==> s.dir[k] in s.ino)
    && (forall a :: a in s.agents && HasFile(s.agents[a].pc) ==> s.agents[a].file in s.ino)
    && (forall a :: a in s.agents && HasProbe(s.agents[a].pc) ==> s.agents[a].probe in s.ino)
  }

  ghost predicate DistinctInodes(s: Sys) {
    forall f, g :: f in s.ino && g in s.ino && Live(s, f) && Live(s, g) && s.ino[f] == s.ino[g] ==> f == g
  }

  ghost predicate Tolerates(g: Agent, h: Agent) {
    HasFile(g.pc) && HasFile(h.pc) && g.file == h.file && g.held == Exclusive ==> h.held == Unlocked
  }

  ghost predicate Compatible(s: Sys) {
    forall a, b :: a in s.agents && b in s.agents && a != b ==> Tolerates(s.agents[a], s.agents[b])
  }

  ghost predicate IsLocked(pc: Pc) {
    pc.Locked? || pc.Stated? || pc.Looking? || pc.Seen? || pc.Shut? || pc.Holding?
  }

  /** What an agent has learnt about the path is still true. */
  ghost predicate Sound(s: Sys, g: Agent) {
    && (IsLocked(g.pc) ==> g.held != Unlocked && g.held == g.want)
    && (g.pc.Asking? ==> g.want != Unlocked)
    && (!HasFile(g.pc) || g.pc.Opened? || g.pc.Asking? ==> g.held == Unlocked)
    && (g.cleaner && HasFile(g.pc) && !g.pc.Opened? ==> g.want == Exclusive)
    && (g.pc.Stated? || HasProbe(g.pc) || g.pc.Shut? ==> g.file in s.ino && g.lockIno == s.ino[g.file])
    && (g.pc.Looking? && g.probe == g.file ==> g.key in s.dir && s.dir[g.key] == g.file)
    && ((g.pc.Seen? || g.pc.Shut?) && g.curIno == g.lockIno ==> g.key in s.dir && s.dir[g.key] == g.file)
    && (g.pc.Holding? ==> g.key in s.dir && s.dir[g.key] == g.file)
    && g.retries <= MAX_RETRIES
    && (g.pc.Holding? || g.pc.Failed? || g.pc.Removed? ==> g.retries == 0)
  }

  ghost predicate AllSound(s: Sys) {
    forall a :: a in s.agents ==> Sound(s, s.agents[a])
  }

  ghost predicate Inv(s: Sys) {
    Known(s) && DistinctInodes(s) && Compatible(s) && AllSound(s)
  }

  lemma KeepsKnown(s: Sys, a: Pid, act: Act)
    requires Known(s) && Enabled(s, a, act)
    ensures Known(Effect(s, a, act))
  {
    var t := Effect(s, a, act);
    KeepsFiles(s, a, act);
    forall b | b in t.agents && HasFile(t.agents[b].pc) ensures t.agents[b].file in t.ino {
      if b == a { OwnFiles(s, a, act); }
    }
    forall b | b in t.agents && HasProbe(t.agents[b].pc) ensures t.agents[b].probe in t.ino {
      if b == a { OwnFiles(s, a, act); }
    }
  }

  lemma KeepsFiles(s: Sys, a: Pid, act: Act)
    requires Known(s) && Enabled(s, a, act)
    ensures var t := Effect(s, a, act);
            (forall f :: f in s.ino ==> f in t.ino) && (forall k :: k in t.dir ==> t.dir[k] in t.ino)
  {
    hide Free, Live;
  }

  lemma OwnFiles(s: Sys, a: Pid, act: Act)
    requires Known(s) && Enabled(s, a, act)
    ensures var g := Effect(s, a, act).agents[a];
            (HasFile(g.pc) ==> g.file in s.ino) && (HasProbe(g.pc) ==> g.probe in s.ino)
  {
    hide Free, Live;
  }

  // Only Create makes a file live, and it takes a number no live file has.
  lemma StaysLive(s: Sys, a: Pid, act: Act, f: File)
    requires Enabled(s, a, act) && Live(Effect(s, a, act), f)
    ensures Live(s, f) || (act.Create? && act.file == f && s.agents[a].key !in s.dir)
  {
    var t := Effect(s, a, act);
    if b :| b in t.agents && Refers(t.agents[b], f) {
      if b == a && (act.Open? || act.OpenPath?) && !(a in s.agents && Refers(s.agents[a], f)) {
        assert s.dir[s.agents[a].key] == f;
      }
    } else {
      var k :| k in t.dir && t.dir[k] == f;
    }
  }

  lemma KeepsDistinct(s: Sys, a: Pid, act: Act)
    requires Inv(s) && Enabled(s, a, act)
    ensures DistinctInodes(Effect(s, a, act))
  {
    var t := Effect(s, a, act);
    forall f, g | f in t.ino && g in t.ino && Live(t, f) && Live(t, g) && t.ino[f] == t.ino[g] ensures f == g {
      StaysLive(s, a, act, f);
      StaysLive(s, a, act, g);
    }
  }

  lemma KeepsTolerance(s: Sys, a: Pid, act: Act, b: Pid)
    requires Compatible(s) && AllSound(s) && Enabled(s, a, act) && b in s.agents && b != a
    ensures var g := Effect(s, a, act).agents[a]; Tolerates(g, s.agents[b]) && Tolerates(s.agents[b], g)
  {
    if a in s.agents {
      assert Tolerates(s.agents[a], s.agents[b]) && Tolerates(s.agents[b], s.agents[a]);
      assert Sound(s, s.agents[a]);
    }
  }

  lemma KeepsCompatible(s: Sys, a: Pid, act: Act)
    requires Inv(s) && Enabled(s, a, act)
    ensures Compatible(Effect(s, a, act))
  {
    var t := Effect(s, a, act);
    forall b, c | b in t.agents && c in t.agents && b != c ensures Tolerates(t.agents[b], t.agents[c]) {
      if b == a {
        KeepsTolerance(s, a, act, c);
      } else if c == a {
        KeepsTolerance(s, a, act, b);
      }
    }
  }

  // The path names the locked file: two descriptors on files with one inode number are on one file.
  lemma SeesItself(s: Sys, a: Pid)
    requires Inv(s) && a in s.agents && HasProbe(s.agents[a].pc)
    requires var g := s.agents[a]; g.file in s.ino && g.probe in s.ino && s.ino[g.file] == s.ino[g.probe]
    ensures s.agents[a].file == s.agents[a].probe
  {
    var g := s.agents[a];
    assert Refers(g, g.file) && Refers(g, g.probe);
    assert Live(s, g.file) && Live(s, g.probe);
  }

  ghost predicate IsCheck(act: Act) {
    act.StatLock? || act.OpenPath? || act.StatPath? || act.ClosePath? || act.Same?
  }

  lemma CheckSound(s: Sys, a: Pid, act: Act)
    requires Enabled(s, a, act) && IsCheck(act) && Sound(s, s.agents[a])
    requires var g := s.agents[a];
             act.StatPath? && g.file in s.ino && s.ino[g.file] == s.ino[g.probe] ==> g.file == g.probe
    ensures var t := Effect(s, a, act); Sound(t, t.agents[a])
  {
  }

  lemma MoveSound(s: Sys, a: Pid, act: Act)
    requires Enabled(s, a, act) && !IsCheck(act) && (a in s.agents ==> Sound(s, s.agents[a]))
    ensures var t := Effect(s, a, act); Sound(t, t.agents[a])
  {
    hide Live, Free;
  }

  lemma KeepsOwnSound(s: Sys, a: Pid, act: Act)
    requires Inv(s) && Enabled(s, a, act)
    ensures var t := Effect(s, a, act); Sound(t, t.agents[a])
  {
    if IsCheck(act) {
      if act.StatPath? && s.agents[a].file in s.ino && s.ino[s.agents[a].file] == s.ino[s.agents[a].probe] {
        SeesItself(s, a);
      }
      CheckSound(s, a, act);
    } else {
      MoveSound(s, a, act);
    }
  }

  // The steps of one agent cannot disprove what another has learnt.
  lemma KeepsOtherSound(s: Sys, a: Pid, act: Act, b: Pid)
    requires Inv(s) && Enabled(s, a, act) && b in s.agents && b != a
    ensures var t := Effect(s, a, act); Sound(t, s.agents[b])
  {
    hide Live, Free, DistinctInodes;
    assert Sound(s, s.agents[b]);
    if act.Unlink? {
      assert Sound(s, s.agents[a]) && Tolerates(s.agents[a], s.agents[b]);
    }
  }

  lemma KeepsInv(s: Sys, a: Pid, act: Act)
    requires Inv(s) && Enabled(s, a, act)
    ensures Inv(Effect(s, a, act))
  {
    KeepsKnown(s, a, act);
    KeepsDistinct(s, a, act);
    KeepsCompatible(s, a, act);
    var t := Effect(s, a, act);
    forall b | b in t.agents ensures Sound(t, t.agents[b]) {
      if b == a {
        KeepsOwnSound(s, a, act);
      } else {
        KeepsOtherSound(s, a, act, b);
      }
    }
  }

  lemma {:induction false} RunKeepsInv(s: Sys, run: seq<Event>)
    requires Inv(s) && Possible(s, run)
    ensures Inv(After(s, run))
    decreases |run|
  {
    if run != [] {
      KeepsInv(s, run[0].who, run[0].act);
      RunKeepsInv(Effect(s, run[0].who, run[0].act), run[1..]);
    }
  }

  // The guarantees.

  ghost predicate Holds(s: Sys, a: Pid, k: Key) {
    a in s.agents && s.agents[a].pc.Holding? && s.agents[a].key == k
  }

  /** In every run, a validated exclusive holder of a key excludes every other validated holder, and
      all validated holders have locked the one file the path names. */
  lemma {:induction false} MutualExclusion(run: seq<Event>, a: Pid, b: Pid, k: Key)
    requires Possible(INITIAL, run)
    requires var s := After(INITIAL, run); a != b && Holds(s, a, k) && Holds(s, b, k)
    ensures var s := After(INITIAL, run);
            && s.agents[a].held == s.agents[b].held == Shared
            && k in s.dir && s.agents[a].file == s.agents[b].file == s.dir[k]
  {
    RunKeepsInv(INITIAL, run);
    var s := After(INITIAL, run);
    assert Sound(s, s.agents[a]) && Sound(s, s.agents[b]);
    assert Tolerates(s.agents[a], s.agents[b]) && Tolerates(s.agents[b], s.agents[a]);
  }

  /** A path is unlinked only by a cleaner that has locked exactly the file it names, while nobody
      else has any lock on that file and nobody else holds the key. */
  lemma {:induction false} UnlinkIsSafe(run: seq<Event>, a: Pid, b: Pid)
    requires Possible(INITIAL, run) && Enabled(After(INITIAL, run), a, Unlink)
    ensures var s := After(INITIAL, run); var g := s.agents[a];
            && g.held == Exclusive && g.key in s.dir && s.dir[g.key] == g.file
            && (b in s.agents && b != a && HasFile(s.agents[b].pc) && s.agents[b].file == g.file ==>
              s.agents[b].held == Unlocked)
            && (b != a ==> !Holds(s, b, g.key))
  {
    RunKeepsInv(INITIAL, run);
    var s := After(INITIAL, run);
    assert Sound(s, s.agents[a]);
    if b in s.agents && b != a {
      assert Sound(s, s.agents[b]) && Tolerates(s.agents[a], s.agents[b]);
    }
  }

  /** Nothing but such an unlink changes what an existing path names. */
  lemma DirOnlyUnlinked(s: Sys, a: Pid, act: Act, k: Key)
    requires Enabled(s, a, act) && k in s.dir && (k in Effect(s, a, act).dir ==> Effect(s, a, act).dir[k] != s.dir[k])
    ensures act.Unlink? && s.agents[a].key == k
  {
  }

  ghost predicate NotBy(run: seq<Event>, a: Pid) {
    forall i :: 0 <= i < |run| ==> run[i].who != a
  }

  lemma HoldKept(s: Sys, e: Event, a: Pid, k: Key)
    requires Inv(s) && Holds(s, a, k) && Enabled(s, e.who, e.act) && e.who != a
    ensures var t := Effect(s, e.who, e.act); Inv(t) && Holds(t, a, k) && t.agents[a] == s.agents[a]
  {
    hide Inv;
    KeepsInv(s, e.who, e.act);
  }

  /** Whatever the others do, a holder keeps its lock and its file keeps its name. */
  lemma {:induction false} HoldIsStable(s: Sys, run: seq<Event>, a: Pid, k: Key)
    requires Inv(s) && Holds(s, a, k) && Possible(s, run) && NotBy(run, a)
    ensures var t := After(s, run);
            Holds(t, a, k) && t.agents[a] == s.agents[a] && k in t.dir && t.dir[k] == s.agents[a].file
    decreases |run|
  {
    hide Effect, Enabled;
    assert Sound(s, s.agents[a]);
    if run != [] {
      HoldKept(s, run[0], a, k);
      HoldIsStable(Effect(s, run[0].who, run[0].act), run[1..], a, k);
    }
  }

  // One lock call, from its first flock until it returns.

  /** The step ends a lock call: it returns, or the descriptor or the process goes away under it. */
  ghost predicate Returns(act: Act) {
    act.Same? || act.Refuse? || act.PathMissing? || act.GiveUp? || act.OpenMissing? || act.Close? || act.Crash?
  }

  ghost predicate InCall(g: Agent) {
    g.retries > 0 || g.pc.Asking? || (IsLocked(g.pc) && !g.pc.Holding?)
  }

  ghost predicate NoReturn(run: seq<Event>, a: Pid) {
    forall i :: 0 <= i < |run| ==> run[i].who == a ==> !Returns(run[i].act)
  }

  /** How often a started over. */
  ghost function Retries(run: seq<Event>, a: Pid): nat {
    if run == [] then 0 else (if run[0].who == a && run[0].act.Differ? then 1 else 0) + Retries(run[1..], a)
  }

  lemma OwnCallStep(s: Sys, a: Pid, act: Act)
    requires a in s.agents && Sound(s, s.agents[a]) && InCall(s.agents[a]) && Enabled(s, a, act) && !Returns(act)
    ensures a in Effect(s, a, act).agents
    ensures var g, h := s.agents[a], Effect(s, a, act).agents[a];
            && InCall(h) && h.key == g.key && h.want == g.want
            && h.retries == g.retries + (if act.Differ? then 1 else 0)
  {
    hide Live, Free;
  }

  lemma SoundAt(s: Sys, a: Pid)
    requires Inv(s) && a in s.agents
    ensures Sound(s, s.agents[a])
  {
  }

  lemma Untouched(s: Sys, e: Event, a: Pid)
    requires a in s.agents && Enabled(s, e.who, e.act) && e.who != a
    ensures a in Effect(s, e.who, e.act).agents && Effect(s, e.who, e.act).agents[a] == s.agents[a]
  {
    hide Live, Free;
  }

  lemma {:induction false} CallStep(s: Sys, e: Event, a: Pid)
    requires Inv(s) && a in s.agents && InCall(s.agents[a]) && Enabled(s, e.who, e.act) &&
             (e.who == a ==> !Returns(e.act))
    ensures a in Effect(s, e.who, e.act).agents
    ensures var g, h := s.agents[a], Effect(s, e.who, e.act).agents[a];
            && InCall(h) && h.key == g.key && h.want == g.want
            && h.retries == g.retries + (if e.who == a && e.act.Differ? then 1 else 0)
  {
    hide Inv, Effect, Enabled, InCall, Returns, Sound;
    if e.who == a {
      SoundAt(s, a);
      OwnCallStep(s, a, e.act);
    } else {
      Untouched(s, e, a);
    }
  }

  lemma {:induction false} CallCounts(s: Sys, run: seq<Event>, a: Pid)
    requires Inv(s) && a in s.agents && InCall(s.agents[a]) && Possible(s, run) && NoReturn(run, a)
    ensures var t := After(s, run);
            && Inv(t) && a in t.agents && InCall(t.agents[a]) && t.agents[a].want == s.agents[a].want
            && t.agents[a].retries == s.agents[a].retries + Retries(run, a)
    decreases |run|
  {
    hide Inv, Effect, Enabled, InCall, Returns;
    if run != [] {
      var e := run[0];
      CallStep(s, e, a);
      KeepsInv(s, e.who, e.act);
      assert NoReturn(run[1..], a);
      CallCounts(Effect(s, e.who, e.act), run[1..], a);
    }
  }

  lemma AskStartsCall(s: Sys, a: Pid, m: Mode)
    requires Inv(s) && Enabled(s, a, Ask(m))
    ensures var t := Effect(s, a, Ask(m));
            && Inv(t) && a in t.agents && InCall(t.agents[a])
            && t.agents[a].want == m && t.agents[a].retries == s.agents[a].retries
  {
    hide Inv;
    KeepsInv(s, a, Ask(m));
  }

  /** Once a call has returned, with the lock or without, the next one counts its restarts anew. */
  lemma ReturnEndsCall(s: Sys, a: Pid, act: Act)
    requires Inv(s) && a in s.agents && Enabled(s, a, act) && Returns(act)
    ensures var t := Effect(s, a, act); !InCall(t.agents[a]) && (t.agents[a].pc.Idle? ==> IsIdle(t, a))
  {
    hide Live, Free, Known, DistinctInodes, Compatible;
    SoundAt(s, a);
  }

  /** In every run, between the first flock of a lock call and its return the call starts over at most
      three times, always for the mode it was asked for, and it gives up only after three. */
  lemma {:induction false} BoundedRetries(before: seq<Event>, a: Pid, m: Mode, run: seq<Event>)
    requires Possible(INITIAL, before) && Enabled(After(INITIAL, before), a, Ask(m)) &&
             After(INITIAL, before).agents[a].retries == 0
    requires Possible(Effect(After(INITIAL, before), a, Ask(m)), run) && NoReturn(run, a)
    ensures Retries(run, a) <= 3
    ensures var u := After(Effect(After(INITIAL, before), a, Ask(m)), run);
            a in u.agents && u.agents[a].want == m && (Enabled(u, a, GiveUp) ==> Retries(run, a) == 3)
  {
    hide Effect, InCall, Inv, Possible, After, Enabled, NoReturn, Retries;
    FromStart(before);
    var s := After(INITIAL, before);
    AskStartsCall(s, a, m);
    var t := Effect(s, a, Ask(m));
    CallCounts(t, run, a);
    CountBounded(After(t, run), a);
  }

  lemma {:induction false} FromStart(run: seq<Event>)
    requires Possible(INITIAL, run)
    ensures Inv(After(INITIAL, run))
  {
    RunKeepsInv(INITIAL, run);
  }

  lemma CountBounded(s: Sys, a: Pid)
    requires Inv(s) && a in s.agents
    ensures s.agents[a].retries <= MAX_RETRIES && (Enabled(s, a, GiveUp) ==> s.agents[a].retries == MAX_RETRIES)
  {
    SoundAt(s, a);
  }

  // Why a call starts over.

  /** The agent's descriptor is on a file that its path no longer names. */
  ghost predicate Stale(s: Sys, g: Agent) {
    HasFile(g.pc) && !(g.key in s.dir && s.dir[g.key] == g.file)
  }

  /** What an agent saw of another file under its path. */
  ghost predicate SawOther(s: Sys, g: Agent) {
    && (g.pc.Looking? && g.probe != g.file ==> Stale(s, g))
    && ((g.pc.Seen? || g.pc.Shut?) && g.curIno != g.lockIno ==> Stale(s, g))
  }

  /** How often the file of key k is unlinked from state s on. */
  ghost function Unlinks(s: Sys, run: seq<Event>, k: Key): nat
    requires Possible(s, run)
    decreases |run|
  {
    if run == [] then 0
    else
      var e := run[0];
      (if e.act.Unlink? && s.agents[e.who].key == k then 1 else 0) + Unlinks(Effect(s, e.who, e.act), run[1..], k)
  }

  ghost function Debt(s: Sys, g: Agent): nat {
    if Stale(s, g) then 1 else 0
  }

  // The step of another agent: only an unlink of the key makes a file stale, and nothing undoes it.
  lemma OtherDebt(s: Sys, e: Event, a: Pid)
    requires Inv(s) && a in s.agents && Enabled(s, e.who, e.act) && e.who != a && SawOther(s, s.agents[a])
    ensures var t := Effect(s, e.who, e.act);
            && SawOther(t, s.agents[a])
            && Debt(t, s.agents[a]) <= Debt(s, s.agents[a]) +
              (if e.act.Unlink? && s.agents[e.who].key == s.agents[a].key then 1 else 0)
  {
    hide Live, Free, DistinctInodes, Compatible, AllSound;
  }

  lemma OwnDebt(s: Sys, a: Pid, act: Act)
    requires Inv(s) && a in s.agents && InCall(s.agents[a]) && Enabled(s, a, act) && !Returns(act) &&
             SawOther(s, s.agents[a])
    ensures var t := Effect(s, a, act);
            && SawOther(t, t.agents[a]) && !act.Unlink?
            && (if act.Differ? then 1 else 0) + Debt(t, t.agents[a]) <= Debt(s, s.agents[a])
  {
    hide Live, Free, DistinctInodes, Compatible, Known;
    assert Sound(s, s.agents[a]);
  }

  lemma {:induction false} DebtPaid(s: Sys, run: seq<Event>, a: Pid)
    requires Inv(s) && a in s.agents && InCall(s.agents[a]) && SawOther(s, s.agents[a]) && Possible(s, run) &&
             NoReturn(run, a)
    ensures Retries(run, a) <= Debt(s, s.agents[a]) + Unlinks(s, run, s.agents[a].key)
    decreases |run|
  {
    hide Inv, Effect, Enabled, InCall, Returns, SawOther, Debt;
    if run != [] {
      var e := run[0];
      var t := Effect(s, e.who, e.act);
      CallStep(s, e, a);
      KeepsInv(s, e.who, e.act);
      if e.who == a {
        OwnDebt(s, a, e.act);
      } else {
        OtherDebt(s, e, a);
        Untouched(s, e, a);
      }
      assert NoReturn(run[1..], a);
      DebtPaid(t, run[1..], a);
    }
  }

  /** A call starts over only as often as cleaners unlinked the file of its key: once for the file it
      had open at its start, if that was unlinked before, and once for each unlink during the call. */
  lemma {:induction false} RetriesNeedUnlinks(before: seq<Event>, a: Pid, m: Mode, run: seq<Event>)
    requires Possible(INITIAL, before) && Enabled(After(INITIAL, before), a, Ask(m)) &&
             After(INITIAL, before).agents[a].retries == 0
    requires Possible(Effect(After(INITIAL, before), a, Ask(m)), run) && NoReturn(run, a)
    ensures var s := After(INITIAL, before); var k := s.agents[a].key;
            Retries(run, a) <= Unlinks(Effect(s, a, Ask(m)), run, k) + if Stale(s, s.agents[a]) then 1 else 0
  {
    hide Effect, InCall, Inv, Possible, After, Enabled, NoReturn, Retries, Unlinks, SawOther, Stale, Debt;
    FromStart(before);
    var s := After(INITIAL, before);
    AskStartsCall(s, a, m);
    AskDebt(s, a, m);
    DebtPaid(Effect(s, a, Ask(m)), run, a);
  }

  lemma AskDebt(s: Sys, a: Pid, m: Mode)
    requires Enabled(s, a, Ask(m))
    ensures var t := Effect(s, a, Ask(m));
            && a in t.agents && SawOther(t, t.agents[a]) && t.agents[a].key == s.agents[a].key
            && Debt(t, t.agents[a]) == if Stale(s, s.agents[a]) then 1 else 0
  {
  }

  // Runs that show what the protocol is up against.

  lemma {:induction false} Snoc(s: Sys, run: seq<Event>, e: Event)
    requires Possible(s, run) && Enabled(After(s, run), e.who, e.act)
    ensures Possible(s, run + [e]) && After(s, run + [e]) == Effect(After(s, run), e.who, e.act)
    decreases |run|
  {
    if run == [] {
      assert [e][1..] == [];
    } else {
      assert (run + [e])[1..] == run[1..] + [e];
      Snoc(Effect(s, run[0].who, run[0].act), run[1..], e);
    }
  }

  lemma {:induction false} Go(s: Sys, run: seq<Event>, a: Pid, act: Act) returns (run': seq<Event>)
    requires Possible(s, run) && Enabled(After(s, run), a, act)
    ensures run' == run + [Event(a, act)] && Possible(s, run') && After(s, run') == Effect(After(s, run), a, act)
  {
    run' := run + [Event(a, act)];
    Snoc(s, run, Event(a, act));
  }

  /** run' continues run with steps of a. */
  ghost predicate Extends(run: seq<Event>, run': seq<Event>, a: Pid) {
    && |run| <= |run'| && run' == run + run'[|run|..]
    && forall i :: |run| <= i < |run'| ==> run'[i].who == a
  }

  /** NewKeyLock by an agent nobody disturbs. */
  lemma {:induction false} GoOpen(s0: Sys, run: seq<Event>, a: Pid, k: Key, cleaner: bool, f: File, n: Inode)
    returns (run': seq<Event>)
    requires Possible(s0, run)
    requires var s := After(s0, run);
             && IsIdle(s, a) && (k in s.dir ==> s.dir[k] == f)
             && (k !in s.dir ==> f !in s.ino && forall o :: o in s.ino ==> s.ino[o] != n)
    ensures Possible(s0, run') && Extends(run, run', a)
    ensures var s, t := After(s0, run), After(s0, run');
            && t.dir == s.dir[k := f] && (if k in s.dir then t.ino == s.ino else t.ino == s.ino[f := n])
            && t.agents == s.agents[a := Agent(k, cleaner, Opened, Unlocked, 0, f, Unlocked, 0, 0, 0)]
  {
    hide Possible, After, Free;
    run' := Go(s0, run, a, Start(k, cleaner));
    run' := Go(s0, run', a, Create(f, n));
    run' := Go(s0, run', a, Open);
  }

  /** NewKeyLock and flock by an agent nobody disturbs. */
  lemma {:induction false} GoLock(s0: Sys, run: seq<Event>, a: Pid, k: Key, cleaner: bool, m: Mode, f: File, n: Inode)
    returns (run': seq<Event>)
    requires Possible(s0, run) && m != Unlocked && (cleaner ==> m == Exclusive)
    requires var s := After(s0, run);
             && IsIdle(s, a) && (k in s.dir ==> s.dir[k] == f)
             && (k !in s.dir ==> f !in s.ino && forall o :: o in s.ino ==> s.ino[o] != n)
             && forall b :: b in s.agents && HasFile(s.agents[b].pc) && s.agents[b].file == f ==>
                 s.agents[b].held == Unlocked
    ensures Possible(s0, run') && Extends(run, run', a)
    ensures var s, t := After(s0, run), After(s0, run');
            && t.dir == s.dir[k := f] && (if k in s.dir then t.ino == s.ino else t.ino == s.ino[f := n])
            && t.agents == s.agents[a := Agent(k, cleaner, Locked, m, 0, f, m, 0, 0, 0)]
  {
    hide Possible, After, Live;
    run' := GoOpen(s0, run, a, k, cleaner, f, n);
    run' := Go(s0, run', a, Ask(m));
    run' := Go(s0, run', a, Acquire);
  }

  lemma {:induction false} GoCheck(s0: Sys, run: seq<Event>, a: Pid) returns (run': seq<Event>)
    requires Possible(s0, run)
    requires var s := After(s0, run);
             && a in s.agents && s.agents[a].pc.Locked? && s.agents[a].file in s.ino
             && s.agents[a].key in s.dir && s.dir[s.agents[a].key] == s.agents[a].file
    ensures Possible(s0, run') && Extends(run, run', a)
    ensures var s, t := After(s0, run), After(s0, run'); var g := s.agents[a]; var n := s.ino[g.file];
            t == With(s, a, g.(pc := Holding, retries := 0, probe := g.file, lockIno := n, curIno := n))
  {
    hide Possible, After;
    run' := Go(s0, run, a, StatLock);
    run' := Go(s0, run', a, OpenPath);
    run' := Go(s0, run', a, StatPath);
    run' := Go(s0, run', a, ClosePath);
    run' := Go(s0, run', a, Same);
  }

  // What a lock call or a cleaner gets done when nobody is in its way.

  /** No lock on the file that k names keeps a from locking it in mode m. */
  ghost predicate Lockable(s: Sys, a: Pid, k: Key, m: Mode) {
    forall c :: c in s.agents && c != a && LocksNamed(s, c, k) ==> s.agents[c].held == Shared && m == Shared
  }

  /** a has a lock on the file that the path of k names. */
  ghost predicate LocksNamed(s: Sys, a: Pid, k: Key) {
    && a in s.agents && HasFile(s.agents[a].pc) && s.agents[a].held != Unlocked
    && k in s.dir && s.agents[a].file == s.dir[k]
  }

  ghost predicate OnlyBy(run: seq<Event>, b: Pid) {
    forall i :: 0 <= i < |run| ==> run[i].who == b
  }

  lemma {:induction false} Outside(xs: set<nat>) returns (n: nat)
    ensures n !in xs && forall x :: x in xs ==> x < n
  {
    if xs == {} { return 0; }
    var x :| x in xs;
    var m := Outside(xs - {x});
    n := if x < m then m else x + 1;
    forall y | y in xs ensures y < n {
      if y != x { assert y in xs - {x}; }
    }
  }

  /** A file and an inode number that were never used. */
  lemma {:induction false} Unused(s: Sys) returns (f: File, n: Inode)
    ensures f !in s.ino && forall o :: o in s.ino ==> s.ino[o] != n
  {
    f := Outside(s.ino.Keys);
    n := Outside(s.ino.Values);
    forall o | o in s.ino ensures s.ino[o] != n { assert s.ino[o] in s.ino.Values; }
  }

  /** f is the file that a will open under k. */
  ghost predicate WillOpen(s: Sys, k: Key, f: File, n: Inode) {
    if k in s.dir then s.dir[k] == f else f !in s.ino && forall o :: o in s.ino ==> s.ino[o] != n
  }

  lemma {:induction false} PickFile(s: Sys, k: Key) returns (f: File, n: Inode)
    ensures WillOpen(s, k, f, n)
  {
    f, n := Unused(s);
    if k in s.dir { f := s.dir[k]; }
  }

  // Whoever has f open and locked lets a lock it too.
  lemma OthersAllow(s: Sys, a: Pid, k: Key, m: Mode, f: File, n: Inode, c: Pid)
    requires Inv(s) && Lockable(s, a, k, m) && WillOpen(s, k, f, n)
    requires c in s.agents && c != a && HasFile(s.agents[c].pc) && s.agents[c].file == f
    ensures s.agents[c].held == Unlocked || (s.agents[c].held == Shared && m == Shared)
  {
    hide DistinctInodes, Compatible, AllSound;
    if k in s.dir && s.agents[c].held != Unlocked { assert LocksNamed(s, c, k); }
  }

  // The call drops the replaced file and opens the one the path names, or makes it.
  lemma {:induction false} GoReopen(s0: Sys, run: seq<Event>, a: Pid, f: File, n: Inode) returns (run': seq<Event>)
    requires Possible(s0, run)
    requires var s := After(s0, run);
             && a in s.agents && s.agents[a].pc.Shut? && s.agents[a].lockIno != s.agents[a].curIno
             && s.agents[a].retries < 3 && WillOpen(s, s.agents[a].key, f, n)
    ensures Possible(s0, run') && Extends(run, run', a)
    ensures var s, t := After(s0, run), After(s0, run'); var g := s.agents[a];
            && t.dir == s.dir[g.key := f] && (if g.key in s.dir then t.ino == s.ino else t.ino == s.ino[f := n])
            && t.agents == s.agents[a := g.(pc := Opened, retries := g.retries + 1, file := f, held := Unlocked)]
  {
    hide Possible, After, Free;
    run' := Go(s0, run, a, Differ);
    run' := Go(s0, run', a, Create(f, n));
    run' := Go(s0, run', a, Open);
  }

  // flock, when the other lockers of the file allow it, and the check of the path.
  lemma {:induction false} GoHold(s0: Sys, run: seq<Event>, a: Pid, m: Mode) returns (run': seq<Event>)
    requires Possible(s0, run)
    requires var s := After(s0, run);
             && a in s.agents && s.agents[a].pc.Opened? && s.agents[a].held == Unlocked && MayAsk(s.agents[a], m)
             && s.agents[a].key in s.dir && s.dir[s.agents[a].key] == s.agents[a].file && s.agents[a].file in s.ino
             && Free(s, a, s.agents[a].file, m)
    ensures Possible(s0, run') && Extends(run, run', a)
    ensures var s, t := After(s0, run), After(s0, run');
            && t.dir == s.dir && Holds(t, a, s.agents[a].key)
            && t.agents[a].held == m && t.agents[a].cleaner == s.agents[a].cleaner
  {
    hide Possible, After, Live;
    run' := Go(s0, run, a, Ask(m));
    run' := Go(s0, run', a, Acquire);
    run' := GoCheck(s0, run', a);
  }

  lemma {:induction false} FreeAfterOpen(s: Sys, t: Sys, a: Pid, k: Key, m: Mode, f: File, n: Inode)
    requires Inv(s) && Lockable(s, a, k, m) && WillOpen(s, k, f, n)
    requires a in t.agents && t.agents == s.agents[a := t.agents[a]]
    ensures Free(t, a, f, m)
  {
    hide Inv, Lockable, WillOpen;
    forall c | c in t.agents && c != a && HasFile(t.agents[c].pc) && t.agents[c].file == f
      ensures t.agents[c].held == Unlocked || (t.agents[c].held == Shared && m == Shared)
    {
      OthersAllow(s, a, k, m, f, n, c);
    }
  }

  lemma {:induction false} StepsOf(run: seq<Event>, a: Pid)
    requires Extends([], run, a)
    ensures OnlyBy(run, a)
  {
  }

  /** In every run, a lock call that finds its file replaced after at most two restarts can get the lock all
      the same: by its own steps alone it comes to hold the key in the mode asked for, unless others have
      locked the file that the path names now. */
  lemma {:induction false} RestartSucceeds(before: seq<Event>, a: Pid, m: Mode, run: seq<Event>)
    returns (rest: seq<Event>)
    requires Possible(INITIAL, before) && Enabled(After(INITIAL, before), a, Ask(m)) &&
             After(INITIAL, before).agents[a].retries == 0
    requires Possible(Effect(After(INITIAL, before), a, Ask(m)), run) && NoReturn(run, a) && Retries(run, a) <= 2
    requires var u := After(Effect(After(INITIAL, before), a, Ask(m)), run);
             && a in u.agents && u.agents[a].pc.Shut? && Stale(u, u.agents[a])
             && Lockable(u, a, u.agents[a].key, m)
    ensures var u := After(Effect(After(INITIAL, before), a, Ask(m)), run);
            && OnlyBy(rest, a) && Possible(u, rest)
            && Holds(After(u, rest), a, u.agents[a].key) && After(u, rest).agents[a].held == m
  {
    hide Effect, InCall, Inv, Possible, After, Enabled, NoReturn, Retries, Lockable;
    FromStart(before);
    var s := After(INITIAL, before);
    AskStartsCall(s, a, m);
    var t := Effect(s, a, Ask(m));
    CallCounts(t, run, a);
    var u := After(t, run);
    ShutStale(u, a);
    rest := TryAgain(u, a);
  }

  lemma ShutStale(s: Sys, a: Pid)
    requires Inv(s) && a in s.agents && s.agents[a].pc.Shut? && Stale(s, s.agents[a])
    ensures s.agents[a].lockIno != s.agents[a].curIno
  {
    SoundAt(s, a);
  }

  lemma {:induction false} TryAgain(s: Sys, a: Pid) returns (rest: seq<Event>)
    requires Inv(s) && a in s.agents && s.agents[a].pc.Shut? && s.agents[a].lockIno != s.agents[a].curIno
    requires s.agents[a].retries < 3 && Lockable(s, a, s.agents[a].key, s.agents[a].want)
    ensures OnlyBy(rest, a) && Possible(s, rest)
    ensures Holds(After(s, rest), a, s.agents[a].key) && After(s, rest).agents[a].held == s.agents[a].want
  {
    hide Possible, After, Effect, Enabled, Free, Lockable, DistinctInodes, Compatible;
    var g := s.agents[a];
    SoundAt(s, a);
    var f, n := PickFile(s, g.key);
    NoSteps(s);
    rest := GoReopen(s, [], a, f, n);
    FreeAfterOpen(s, After(s, rest), a, g.key, g.want, f, n);
    rest := GoHold(s, rest, a, g.want);
    StepsOf(rest, a);
  }

  /** In every reachable state an idle agent can by its own steps come to hold k in any mode that the locks
      of others allow, whether or not the file is there. */
  lemma {:induction false} LockSucceeds(before: seq<Event>, a: Pid, k: Key, m: Mode) returns (run: seq<Event>)
    requires Possible(INITIAL, before) && m != Unlocked
    requires var s := After(INITIAL, before); IsIdle(s, a) && Lockable(s, a, k, m)
    ensures var s := After(INITIAL, before);
            && OnlyBy(run, a) && Possible(s, run)
            && Holds(After(s, run), a, k) && After(s, run).agents[a].held == m
  {
    hide Possible, After, Effect, Enabled, Free, Lockable, Inv;
    FromStart(before);
    var s := After(INITIAL, before);
    run := Take(s, a, k, false, m);
  }

  lemma {:induction false} Take(s: Sys, a: Pid, k: Key, cleaner: bool, m: Mode) returns (run: seq<Event>)
    requires Inv(s) && m != Unlocked && (cleaner ==> m == Exclusive) && IsIdle(s, a) && Lockable(s, a, k, m)
    ensures OnlyBy(run, a) && Possible(s, run)
    ensures var t := After(s, run);
            && k in t.dir && t.dir == s.dir[k := t.dir[k]] && (k in s.dir ==> t.dir[k] == s.dir[k])
            && Holds(t, a, k) && t.agents[a].held == m && t.agents[a].cleaner == cleaner
  {
    hide Possible, After, Effect, Enabled, Free, Lockable, DistinctInodes, Compatible, AllSound;
    var f, n := PickFile(s, k);
    NoSteps(s);
    run := GoOpen(s, [], a, k, cleaner, f, n);
    FreeAfterOpen(s, After(s, run), a, k, m, f, n);
    run := GoHold(s, run, a, m);
    StepsOf(run, a);
  }

  /** In every reachable state an idle cleaner can by its own steps unlink a lock file that nobody has
      locked, and no other. */
  lemma {:induction false} CleanRemoves(before: seq<Event>, a: Pid, k: Key) returns (run: seq<Event>)
    requires Possible(INITIAL, before)
    requires var s := After(INITIAL, before); IsIdle(s, a) && k in s.dir && Lockable(s, a, k, Exclusive)
    ensures var s := After(INITIAL, before); OnlyBy(run, a) && Possible(s, run) && After(s, run).dir == s.dir - {k}
  {
    hide Possible, After, Free, Lockable, Inv;
    FromStart(before);
    var s := After(INITIAL, before);
    run := Take(s, a, k, true, Exclusive);
    run := Go(s, run, a, Unlink);
  }

  lemma NoSteps(s: Sys)
    ensures Possible(s, []) && After(s, []) == s
  {
  }

  /** Without the check of the path, flock alone lets two agents take one key exclusively: the race of
      lines 153-166. */
  lemma {:induction false} FlockAloneRaces(a: Pid, b: Pid, c: Pid, k: Key) returns (run: seq<Event>)
    requires a != b && a != c && b != c
    ensures Possible(INITIAL, run)
    ensures var s := After(INITIAL, run);
            && b in s.agents && s.agents[b].pc.Locked? && s.agents[b].held == Exclusive && s.agents[b].key == k
            && c in s.agents && s.agents[c].pc.Locked? && s.agents[c].held == Exclusive && s.agents[c].key == k
  {
    hide Possible, After, Effect;
    run := [];
    EmptyRun();
    run := GoLock(INITIAL, run, a, k, true, Exclusive, 0, 0);
    run := GoCheck(INITIAL, run, a);
    run := GoRaced(run, a, b, k);
    run := GoLock(INITIAL, run, c, k, false, Exclusive, 1, 1);
  }

  lemma EmptyRun()
    ensures Possible(INITIAL, []) && After(INITIAL, []) == INITIAL
  {
  }

  // b waits on the file that the holder a then removes.
  lemma {:induction false} GoRaced(run: seq<Event>, a: Pid, b: Pid, k: Key) returns (run': seq<Event>)
    requires Possible(INITIAL, run) && a != b
    requires var s := After(INITIAL, run);
             && s.dir == map[k := 0] && s.ino == map[0 := 0] && s.agents.Keys == {a}
             && s.agents[a].pc.Holding? && s.agents[a].cleaner && s.agents[a].key == k && s.agents[a].file == 0
    ensures Possible(INITIAL, run')
    ensures var t := After(INITIAL, run');
            && t.dir == map[] && t.ino == map[0 := 0] && t.agents.Keys == {a, b} && t.agents[a].pc.Idle?
            && t.agents[b] == Agent(k, false, Locked, Exclusive, 0, 0, Exclusive, 0, 0, 0)
  {
    hide Possible, After;
    run' := Go(INITIAL, run, b, Start(k, false));
    run' := Go(INITIAL, run', b, Create(0, 0));
    run' := Go(INITIAL, run', b, Open);
    run' := Go(INITIAL, run', b, Ask(Exclusive));
    run' := Go(INITIAL, run', a, Unlink);
    run' := Go(INITIAL, run', a, Close);
    run' := Go(INITIAL, run', b, Acquire);
  }

  // What a call by the holder of a key puts at risk.

  lemma NameKept(s: Sys, e: Event, a: Pid, k: Key)
    requires Inv(s) && LocksNamed(s, a, k) && Enabled(s, e.who, e.act) && e.who != a
    ensures var t := Effect(s, e.who, e.act);
            Inv(t) && LocksNamed(t, a, k) && t.agents[a] == s.agents[a] && t.dir[k] == s.dir[k]
  {
    hide Inv, Effect, Enabled;
    KeepsInv(s, e.who, e.act);
    Untouched(s, e, a);
    if e.act.Unlink? { NotUnlinked(s, e.who, a, k); }
    var t := Effect(s, e.who, e.act);
    if !(k in t.dir && t.dir[k] == s.dir[k]) { DirOnlyUnlinked(s, e.who, e.act, k); }
  }

  lemma NotUnlinked(s: Sys, c: Pid, a: Pid, k: Key)
    requires Inv(s) && LocksNamed(s, a, k) && Enabled(s, c, Unlink) && c != a
    ensures s.agents[c].key != k
  {
    hide Known, DistinctInodes;
    SoundAt(s, c);
    assert Tolerates(s.agents[c], s.agents[a]);
  }

  /** A lock on the named file, validated or not, keeps the name in place whatever the others do. */
  lemma {:induction false} NameStays(s: Sys, run: seq<Event>, a: Pid, k: Key)
    requires Inv(s) && LocksNamed(s, a, k) && Possible(s, run) && NotBy(run, a)
    ensures var t := After(s, run); Inv(t) && LocksNamed(t, a, k) && t.agents[a] == s.agents[a] && t.dir[k] == s.dir[k]
    decreases |run|
  {
    hide Inv, Effect, Enabled, LocksNamed;
    if run != [] {
      NameKept(s, run[0], a, k);
      NameStays(Effect(s, run[0].who, run[0].act), run[1..], a, k);
    }
  }

  /** The step belongs to lock, after flock returned. */
  ghost predicate IsCallStep(act: Act) {
    IsCheck(act) || act.PathMissing? || act.Differ? || act.GiveUp?
  }

  /** Any steps of the others, and of a those of its call. */
  ghost predicate CallRun(s: Sys, run: seq<Event>, a: Pid) {
    Possible(s, run) && forall i :: 0 <= i < |run| ==> run[i].who == a ==> IsCallStep(run[i].act)
  }

  /** a has the named file locked in mode m, and its call will find that out. */
  ghost predicate Undisturbed(s: Sys, a: Pid, k: Key, m: Mode) {
    && LocksNamed(s, a, k)
    && var g := s.agents[a];
       && g.key == k && g.held == m && IsLocked(g.pc)
       && (g.pc.Looking? ==> g.probe == g.file) && (g.pc.Seen? || g.pc.Shut? ==> g.curIno == g.lockIno)
  }

  lemma StepUndisturbed(s: Sys, a: Pid, act: Act, k: Key, m: Mode)
    requires Inv(s) && Undisturbed(s, a, k, m) && Enabled(s, a, act) && IsCallStep(act)
    ensures var t := Effect(s, a, act); Inv(t) && Undisturbed(t, a, k, m)
  {
    hide Known, DistinctInodes, Compatible, Live, Free;
    KeepsInv(s, a, act);
    assert Sound(s, s.agents[a]);
  }

  /** A call for the mode already held cannot fail, and at no point is the lock lost. */
  lemma {:induction false} StaysUndisturbed(s: Sys, run: seq<Event>, a: Pid, k: Key, m: Mode)
    requires Inv(s) && Undisturbed(s, a, k, m) && CallRun(s, run, a)
    ensures var t := After(s, run); Inv(t) && Undisturbed(t, a, k, m)
    decreases |run|
  {
    hide Inv, Effect, Enabled, LocksNamed, IsCallStep, IsLocked;
    if run != [] {
      var e := run[0];
      if e.who == a {
        StepUndisturbed(s, a, e.act, k, m);
      } else {
        NameKept(s, e, a, k);
      }
      assert CallRun(Effect(s, e.who, e.act), run[1..], a);
      StaysUndisturbed(Effect(s, e.who, e.act), run[1..], a, k, m);
    }
  }

  /** Whatever the others do during the call, a keeps a lock on the named file. */
  ghost predicate Survives(s: Sys, a: Pid, k: Key) {
    forall run :: CallRun(s, run, a) ==> LocksNamed(After(s, run), a, k)
  }

  lemma AskOutcome(s: Sys, a: Pid, k: Key, m: Mode)
    requires Inv(s) && Holds(s, a, k) && Enabled(s, a, Ask(m))
    ensures var t := Effect(s, a, Ask(m));
            && Inv(t) && LocksNamed(s, a, k) && t.dir == s.dir && a in t.agents
            && (forall b :: b != a ==>
                (b in t.agents <==> b in s.agents) && (b in s.agents ==> t.agents[b] == s.agents[b]))
            && (if m == s.agents[a].held then Undisturbed(t, a, k, m) else t.agents[a].held == Unlocked)
  {
    hide Known, DistinctInodes, Compatible, Live, Free;
    KeepsInv(s, a, Ask(m));
    assert Sound(s, s.agents[a]);
  }

  /** In every reachable state, a lock call by a holder of k keeps the lock throughout if and only if it
      asks for the mode already held: such a call is idempotent, and no conversion is atomic. */
  lemma {:induction false} KeepsLockIffSameMode(before: seq<Event>, a: Pid, k: Key, m: Mode)
    requires Possible(INITIAL, before)
    requires var s := After(INITIAL, before); Holds(s, a, k) && Enabled(s, a, Ask(m))
    ensures var s := After(INITIAL, before); Survives(Effect(s, a, Ask(m)), a, k) <==> m == s.agents[a].held
  {
    hide Effect, Enabled, Undisturbed;
    RunKeepsInv(INITIAL, before);
    var s := After(INITIAL, before);
    var t := Effect(s, a, Ask(m));
    AskOutcome(s, a, k, m);
    if m == s.agents[a].held {
      forall run | CallRun(t, run, a) ensures LocksNamed(After(t, run), a, k) {
        StaysUndisturbed(t, run, a, k, m);
        IsNamed(After(t, run), a, k, m);
      }
    } else {
      assert CallRun(t, [], a) && After(t, []) == t;
    }
  }

  lemma IsNamed(s: Sys, a: Pid, k: Key, m: Mode)
    requires Undisturbed(s, a, k, m)
    ensures LocksNamed(s, a, k)
  {
  }

  /** After run b holds k exclusively. */
  ghost predicate Takes(s: Sys, run: seq<Event>, b: Pid, k: Key) {
    Possible(s, run) && Holds(After(s, run), b, k) && After(s, run).agents[b].held == Exclusive
  }

  /** Nobody but a has a lock on the file that k names. */
  ghost predicate NoOtherLock(s: Sys, a: Pid, k: Key) {
    forall c :: c in s.agents && c != a ==> !LocksNamed(s, c, k)
  }

  lemma {:induction false} TakeAlone(s: Sys, b: Pid, k: Key) returns (run: seq<Event>)
    requires Inv(s) && IsIdle(s, b) && k in s.dir && forall c :: c in s.agents ==> !LocksNamed(s, c, k)
    ensures Takes(s, run, b, k) && OnlyBy(run, b)
  {
    hide Possible, After, Effect, Enabled, DistinctInodes, Compatible, AllSound;
    NoSteps(s);
    run := GoLock(s, [], b, k, false, Exclusive, s.dir[k], 0);
    run := GoCheck(s, run, b);
  }

  // A lock on the named file stands in the way of anybody else's exclusive hold.
  lemma {:induction false} LockExcludes(s: Sys, run: seq<Event>, c: Pid, b: Pid, k: Key)
    requires Inv(s) && LocksNamed(s, c, k) && Possible(s, run) && NotBy(run, c) && b != c
    ensures !Takes(s, run, b, k)
  {
    hide Effect, Enabled, Known, DistinctInodes;
    NameStays(s, run, c, k);
    var t := After(s, run);
    if Holds(t, b, k) {
      assert Sound(t, t.agents[b]) && Tolerates(t.agents[b], t.agents[c]);
    }
  }

  /** The agents other than a with a lock on the file that k names. */
  ghost function Lockers(s: Sys, a: Pid, k: Key): set<Pid> {
    set c | c in s.agents && c != a && LocksNamed(s, c, k)
  }

  lemma CloseOne(s: Sys, a: Pid, c: Pid, k: Key)
    requires Inv(s) && c in Lockers(s, a, k)
    ensures Enabled(s, c, Close)
    ensures var t := Effect(s, c, Close);
            && Inv(t) && t.dir == s.dir && t.agents[c].pc.Idle? && Lockers(t, a, k) < Lockers(s, a, k)
            && forall d :: d != c ==>
                (d in t.agents <==> d in s.agents) && (d in s.agents ==> t.agents[d] == s.agents[d])
  {
    KeepsInv(s, c, Close);
    var t := Effect(s, c, Close);
    assert c !in Lockers(t, a, k);
    forall d | d in Lockers(t, a, k) ensures d in Lockers(s, a, k) { }
  }

  // The other lockers close their locks; a and the idle b stand by.
  lemma {:induction false} OthersLeave(s: Sys, a: Pid, b: Pid, k: Key) returns (run: seq<Event>)
    requires Inv(s) && a in s.agents && IsIdle(s, b) && b != a
    ensures Possible(s, run) && NotBy(run, a)
    ensures var t := After(s, run);
            Inv(t) && t.dir == s.dir && a in t.agents && t.agents[a] == s.agents[a] && IsIdle(t, b) &&
              Lockers(t, a, k) == {}
    decreases Lockers(s, a, k)
  {
    hide Inv, Effect, Enabled, LocksNamed;
    NoSteps(s);
    if Lockers(s, a, k) == {} { return []; }
    var c :| c in Lockers(s, a, k);
    CloseOne(s, a, c, k);
    IdleLocksNothing(s, b, k);
    var rest := OthersLeave(Effect(s, c, Close), a, b, k);
    run := [Event(c, Close)] + rest;
    assert run[1..] == rest;
  }

  lemma IdleLocksNothing(s: Sys, b: Pid, k: Key)
    requires IsIdle(s, b)
    ensures !LocksNamed(s, b, k)
  {
  }

  lemma {:induction false} Chain(s: Sys, r: seq<Event>, q: seq<Event>)
    requires Possible(s, r) && Possible(After(s, r), q)
    ensures Possible(s, r + q) && After(s, r + q) == After(After(s, r), q)
    decreases |r|
  {
    if r == [] {
      assert r + q == q;
    } else {
      assert (r + q)[0] == r[0] && (r + q)[1..] == r[1..] + q;
      Chain(Effect(s, r[0].who, r[0].act), r[1..], q);
    }
  }

  lemma {:induction false} TakeTogether(s: Sys, a: Pid, b: Pid, k: Key) returns (run: seq<Event>)
    requires Inv(s) && a in s.agents && s.agents[a].held == Unlocked && IsIdle(s, b) && b != a && k in s.dir
    ensures Takes(s, run, b, k) && NotBy(run, a)
  {
    hide Inv, Effect, Enabled;
    var leave := OthersLeave(s, a, b, k);
    var t := After(s, leave);
    forall c | c in t.agents ensures !LocksNamed(t, c, k) {
      if c != a { assert c !in Lockers(t, a, k); }
    }
    var take := TakeAlone(t, b, k);
    Chain(s, leave, take);
    run := leave + take;
  }

  /** Converting a lock is not atomic, contrary to the comments. In every reachable state in which a holds
      k and calls for mode m: an idle b can on its own come to hold k exclusively during that call if and
      only if m is not the mode held and nobody but a has a lock on the file; and with the help of the other
      agents if and only if m is not the mode held. */
  lemma {:induction false} PromotionIsNotAtomic(before: seq<Event>, a: Pid, b: Pid, k: Key, m: Mode)
    requires Possible(INITIAL, before)
    requires var s := After(INITIAL, before); Holds(s, a, k) && Enabled(s, a, Ask(m)) && b != a && IsIdle(s, b)
    ensures var s := After(INITIAL, before); var t := Effect(s, a, Ask(m));
            (exists run :: Takes(t, run, b, k) && OnlyBy(run, b)) <==> m != s.agents[a].held && NoOtherLock(s, a, k)
    ensures var s := After(INITIAL, before); var t := Effect(s, a, Ask(m));
            (exists run :: Takes(t, run, b, k) && NotBy(run, a)) <==> m != s.agents[a].held
  {
    hide Effect, Enabled, Possible, After, Inv, Takes;
    RunKeepsInv(INITIAL, before);
    var s := After(INITIAL, before);
    AskOutcome(s, a, k, m);
    var t := Effect(s, a, Ask(m));
    if m == s.agents[a].held {
      IsNamed(t, a, k, m);
      forall run | Takes(t, run, b, k) ensures !NotBy(run, a) {
        TakesRuns(t, run, b, k);
        if NotBy(run, a) { LockExcludes(t, run, a, b, k); }
      }
      forall run | Takes(t, run, b, k) ensures !OnlyBy(run, b) { assert OnlyBy(run, b) ==> NotBy(run, a); }
    } else {
      var run := TakeTogether(t, a, b, k);
      assert Takes(t, run, b, k) && NotBy(run, a);
      AloneIffNoOther(s, t, a, b, k);
    }
  }

  lemma TakesRuns(s: Sys, run: seq<Event>, b: Pid, k: Key)
    requires Takes(s, run, b, k)
    ensures Possible(s, run)
  {
  }

  lemma {:induction false} AloneIffNoOther(s: Sys, t: Sys, a: Pid, b: Pid, k: Key)
    requires Inv(t) && t.dir == s.dir && k in t.dir && a in t.agents && t.agents[a].held == Unlocked && b != a &&
             IsIdle(t, b)
    requires forall c :: c != a ==> (c in t.agents <==> c in s.agents) && (c in s.agents ==> t.agents[c] == s.agents[c])
    ensures (exists run :: Takes(t, run, b, k) && OnlyBy(run, b)) <==> NoOtherLock(s, a, k)
  {
    hide Inv, Takes, Possible, After;
    IdleLocksNothing(t, b, k);
    if NoOtherLock(s, a, k) {
      forall c | c in t.agents ensures !LocksNamed(t, c, k) {
        if c != a { assert LocksNamed(t, c, k) ==> LocksNamed(s, c, k); }
      }
      var run := TakeAlone(t, b, k);
      assert Takes(t, run, b, k) && OnlyBy(run, b);
    } else {
      var c :| c in s.agents && c != a && LocksNamed(s, c, k);
      assert LocksNamed(t, c, k);
      forall run | Takes(t, run, b, k) ensures !OnlyBy(run, b) {
        TakesRuns(t, run, b, k);
        if OnlyBy(run, b) { LockExcludes(t, run, c, b, k); }
      }
    }
  }

  // When a lock call fails.

  /** After run a holds k in mode m. */
  ghost predicate Gets(s: Sys, run: seq<Event>, a: Pid, k: Key, m: Mode) {
    OnlyBy(run, a) && Possible(s, run) && Holds(After(s, run), a, k) && After(s, run).agents[a].held == m
  }

  // A lock of another on the named file that does not go with mode m stays in the way.
  lemma {:induction false} InTheWay(s: Sys, run: seq<Event>, a: Pid, c: Pid, k: Key, m: Mode)
    requires Inv(s) && c != a && LocksNamed(s, c, k) && !(s.agents[c].held == Shared && m == Shared)
    requires OnlyBy(run, a) && Possible(s, run)
    ensures !Gets(s, run, a, k, m)
  {
    hide Possible, After, Known, DistinctInodes;
    NameStays(s, run, c, k);
    var t := After(s, run);
    if Holds(t, a, k) {
      SoundAt(t, a);
      assert Tolerates(t.agents[a], t.agents[c]) && Tolerates(t.agents[c], t.agents[a]);
    }
  }

  /** In every reachable state, an idle agent can by its own steps come to hold k in mode m if and only if every
      lock of others on the file that k names is shared and so is m. */
  lemma {:induction false} LocksIff(before: seq<Event>, a: Pid, k: Key, m: Mode)
    requires Possible(INITIAL, before) && m != Unlocked && IsIdle(After(INITIAL, before), a)
    ensures var s := After(INITIAL, before); (exists run :: Gets(s, run, a, k, m)) <==> Lockable(s, a, k, m)
  {
    hide Possible, After, Inv, LocksNamed;
    FromStart(before);
    var s := After(INITIAL, before);
    if Lockable(s, a, k, m) {
      var run := LockSucceeds(before, a, k, m);
      assert Gets(s, run, a, k, m);
    } else {
      var c :| c in s.agents && c != a && LocksNamed(s, c, k) && !(s.agents[c].held == Shared && m == Shared);
      forall run ensures !Gets(s, run, a, k, m) {
        if OnlyBy(run, a) && Possible(s, run) { InTheWay(s, run, a, c, k, m); }
      }
    }
  }

  /** A call that cannot get the lock can be refused, and then has none. */
  lemma {:induction false} TryFails(before: seq<Event>, a: Pid, k: Key, m: Mode) returns (run: seq<Event>)
    requires Possible(INITIAL, before) && m != Unlocked && IsIdle(After(INITIAL, before), a)
    ensures var s := After(INITIAL, before);
            && OnlyBy(run, a) && Possible(s, run)
            && a in After(s, run).agents
            && After(s, run).agents[a].pc.Failed? && After(s, run).agents[a].held == Unlocked
  {
    hide Possible, After, Free;
    var s := After(INITIAL, before);
    var f, n := PickFile(s, k);
    NoSteps(s);
    run := GoOpen(s, [], a, k, false, f, n);
    run := Go(s, run, a, Ask(m));
    run := Go(s, run, a, Refuse);
    StepsOf(run, a);
  }

  /** Unlocking, closing or dying gives up whatever lock the agent has, and touches nobody else. */
  lemma {:induction false} Releases(s: Sys, a: Pid, act: Act, k: Key, b: Pid)
    requires Enabled(s, a, act) && (act.Unlock? || act.Close? || act.Crash?)
    ensures var t := Effect(s, a, act);
            && !LocksNamed(t, a, k) && !Holds(t, a, k) && t.dir == s.dir
            && (b != a && b in s.agents ==> b in t.agents && t.agents[b] == s.agents[b])
  {
    hide Free, Live;
  }

  /** A call that gives up, or finds no file under its path, fails with its lock still on the replaced file. */
  lemma {:induction false} FailsLocked(before: seq<Event>, a: Pid, act: Act)
    requires Possible(INITIAL, before) && Enabled(After(INITIAL, before), a, act) && (act.GiveUp? || act.PathMissing?)
    ensures var s := After(INITIAL, before); var t := Effect(s, a, act);
            && t.agents[a].pc.Failed? && t.agents[a].held == s.agents[a].want != Unlocked
            && (act.PathMissing? ==> Stale(t, t.agents[a]))
  {
    hide Possible, After, Free, Live, Known, DistinctInodes, Compatible;
    FromStart(before);
    SoundAt(After(INITIAL, before), a);
  }
}
