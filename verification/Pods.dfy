// The life of one pod directory under any number of processes (rkt/pods.go, rkt/gc.go, rkt/rm.go).
// Pods never share paths, so the model follows one uuid.

module Pods {
  import opened Options

  type Pid(==, !new)

  datatype Dir = Embryo | Prepare | Prepared | Run | ExitedGarbage | Garbage

  datatype Mode = Unlocked | Shared | Exclusive

  // The reachable combinations of the cached booleans of type pod.
  datatype Flag = FEmbryo | FPreparing | FAborted | FPrepared | FRunning | FExited
                | FExitedGarbage | FExitedDeleting | FGarbage | FDeleting | FGone

  // What a handle was opened for. The gc walks look at pods listed in one directory.
  datatype Goal = Look | Create | GcExited | GcAborted | GcExpired | GcEmptyExited | GcEmptyGarbage | Rm

  datatype Pc =
    | Closed            // not open, closed, or its process died
    | Made              // newPod: mkdir returned
    | Opened            // newPod: the embryo is open
    | Locked            // xToPreparing: locked, before the rename
    | Probing(i: nat)   // getPod or refreshState: next directory to try
    | Testing(d: Dir)   // getPod or refreshState: before TrySharedLock
    | Known             // flags are cached
    | Missed            // getPod returned an error
    | Moved             // xToPrepared: renamed, before the unlock
    | RunLocked         // xToRun: locked, before the rename
    | Deleting          // inside deletePod

  datatype Handle = Handle(pc: Pc, flag: Flag, mine: bool, runs: bool, held: Mode, goal: Goal,
                           listed: Option<Dir>, existed: bool, moved: bool)

  // Where the directory is, whether it was ever made, how often it entered run/, and whether its
  // contents are being removed.
  datatype Pod = Pod(at: Option<Dir>, born: bool, entered: nat, wiped: bool)

  datatype Sys = Sys(pod: Pod, handles: map<Pid, Handle>)

  datatype Act =
    | Make | OpenOwn | LockOwn | ToPreparing | ToPrepared | UnlockPrepared | AskRun | ToRun
    | Lookup(goal: Goal) | List(goal: Goal) | Refresh | Miss | Hit | TestFree | TestBusy
    | ToExitedGarbage | ToGarbage | WaitLock | WaitUnlock | LockDelete | Wipe | Rmdir | Close

  function Rank(d: Dir): nat {
    match d
    case Embryo => 0
    case Prepare => 1
    case Prepared => 2
    case Run => 3
    case ExitedGarbage => 4
    case Garbage => 5
  }

  const ORDER: seq<Dir> := [Embryo, Prepare, Prepared, Run, ExitedGarbage, Garbage]

  /** The flags that getPod caches for a directory found locked or not. */
  function FlagOf(d: Dir, busy: bool): Flag {
    match d
    case Embryo => FEmbryo
    case Prepare => if busy then FPreparing else FAborted
    case Prepared => FPrepared
    case Run => if busy then FRunning else FExited
    case ExitedGarbage => if busy then FExitedDeleting else FExitedGarbage
    case Garbage => if busy then FDeleting else FGarbage
  }

  /** path: the directory that the cached flags point to. */
  function PathOf(f: Flag): Option<Dir> {
    match f
    case FEmbryo => Some(Embryo)
    case FPreparing => Some(Prepare)
    case FAborted => Some(Prepare)
    case FPrepared => Some(Prepared)
    case FRunning => Some(Run)
    case FExited => Some(Run)
    case FExitedGarbage => Some(ExitedGarbage)
    case FExitedDeleting => Some(ExitedGarbage)
    case FGarbage => Some(Garbage)
    case FDeleting => Some(Garbage)
    case FGone => None
  }

  function IncludeOf(g: Goal): Option<Dir> {
    match g
    case GcExited => Some(Run)
    case GcAborted => Some(Prepare)
    case GcExpired => Some(Prepared)
    case GcEmptyExited => Some(ExitedGarbage)
    case GcEmptyGarbage => Some(Garbage)
    case _ => None
  }

  /** walkPods drops a pod found in an unrequested state. A pod found exited in run/ is never dropped. */
  function Omitted(f: Flag, wanted: Dir): bool {
    match f
    case FEmbryo => wanted != Embryo
    case FExitedGarbage => wanted != ExitedGarbage
    case FExitedDeleting => wanted != ExitedGarbage
    case FGarbage => wanted != Garbage
    case FDeleting => wanted != Garbage
    case FPrepared => wanted != Prepared
    case FPreparing => wanted != Prepare
    case FAborted => wanted != Prepare
    case FRunning => wanted != Run
    case FExited => false
    case FGone => false
  }

  /** The callers that go on to deletePod: two gc walks, and removePod past its switch. */
  function MayDelete(h: Handle): bool {
    match h.goal
    case GcEmptyExited => !Omitted(h.flag, ExitedGarbage)
    case GcEmptyGarbage => !Omitted(h.flag, Garbage)
    case Rm => h.moved || h.flag == FGarbage
    case _ => false
  }

  /** The callers of xToGarbage and xToExitedGarbage. */
  function MayDiscard(h: Handle): bool {
    match h.goal
    case GcExited => !Omitted(h.flag, Run)
    case GcAborted => h.flag == FAborted
    case GcExpired => !Omitted(h.flag, Prepared)
    case Rm => !h.moved
    case _ => false
  }

  const CLOSED: Handle := Handle(Closed, FGone, false, false, Unlocked, Look, None, false, false)

  /** flock(2): a lock of mode m is compatible with the lock that another handle holds. */
  predicate Tolerates(held: Mode, m: Mode) {
    held == Unlocked || (held == Shared && m == Shared)
  }

  ghost predicate Free(s: Sys, a: Pid, m: Mode) {
    forall b :: b in s.handles && b != a ==> Tolerates(s.handles[b].held, m)
  }

  /** The lock that a step must be able to get. */
  function Needs(act: Act): Option<Mode> {
    match act
    case LockOwn => Some(Exclusive)
    case AskRun => Some(Exclusive)
    case LockDelete => Some(Exclusive)
    case TestFree => Some(Shared)
    case WaitLock => Some(Shared)
    case _ => None
  }

  /** The step is next for a handle, and the paths it uses exist. */
  predicate Can(p: Pod, h: Handle, act: Act) {
    match act
    case Make => h.pc.Closed? && !p.born
    case Lookup(g) => h.pc.Closed? && (g.Look? || g.Rm?)
    case List(g) => h.pc.Closed? && IncludeOf(g).Some? && p.at == IncludeOf(g)
    case OpenOwn => h.pc.Made? && p.at == Some(Embryo)
    case LockOwn => h.pc.Opened?
    case ToPreparing => h.pc.Locked? && p.at == Some(Embryo)
    case ToPrepared => h.pc.Known? && h.mine && h.flag.FPreparing? && p.at == Some(Prepare)
    case UnlockPrepared => h.pc.Moved?
    case AskRun => h.pc.Known? && (h.flag.FPrepared? || (h.mine && h.flag.FPreparing?))
    case ToRun => h.pc.RunLocked? && p.at.Some? && p.at == PathOf(h.flag)
    case Refresh => h.pc.Known? && h.held == Unlocked && !h.mine
    case Miss => h.pc.Probing? && h.pc.i < 6 && p.at != Some(ORDER[h.pc.i])
    case Hit => h.pc.Probing? && h.pc.i < 6 && p.at == Some(ORDER[h.pc.i])
    case TestFree => h.pc.Testing?
    case TestBusy => h.pc.Testing?
    case ToExitedGarbage => h.pc.Known? && h.flag.FExited? && MayDiscard(h) && p.at == Some(Run)
    case ToGarbage => h.pc.Known? && (h.flag.FAborted? || h.flag.FPrepared?) && MayDiscard(h) && p.at == PathOf(h.flag)
    case WaitLock => h.pc.Known? && !h.mine && h.held == Unlocked
    case WaitUnlock => h.pc.Known? && h.held == Shared
    case LockDelete => h.pc.Known? && MayDelete(h)
    case Wipe => h.pc.Deleting? && p.at.Some? && p.at == PathOf(h.flag)
    case Rmdir => h.pc.Deleting? && p.at.Some? && p.at == PathOf(h.flag)
    case Close => !h.pc.Closed?
  }

  function PodAfter(p: Pod, act: Act): Pod {
    match act
    case Make => p.(at := Some(Embryo), born := true)
    case ToPreparing => p.(at := Some(Prepare))
    case ToPrepared => p.(at := Some(Prepared))
    case ToRun => p.(at := Some(Run), entered := p.entered + 1)
    case ToExitedGarbage => p.(at := Some(ExitedGarbage))
    case ToGarbage => p.(at := Some(Garbage))
    case Wipe => p.(wiped := true)
    case Rmdir => p.(at := None, wiped := true)
    case _ => p
  }

  function HandleAfter(p: Pod, h: Handle, act: Act): Handle
    requires Can(p, h, act)
  {
    match act
    case Make => Handle(Made, FEmbryo, true, false, Unlocked, Create, None, true, false)
    case Lookup(g) => Handle(Probing(0), FGone, false, false, Unlocked, g, None, p.at.Some?, false)
    case List(g) => Handle(Probing(0), FGone, false, false, Unlocked, g, p.at, true, false)
    case OpenOwn => h.(pc := Opened)
    case LockOwn => h.(pc := Locked, held := Exclusive)
    case ToPreparing => h.(pc := Known, flag := FPreparing)
    case ToPrepared => h.(pc := Moved)
    case UnlockPrepared => h.(pc := Known, held := Unlocked, flag := FPrepared)
    case AskRun => h.(pc := RunLocked, held := Exclusive)
    case ToRun => h.(pc := Known, flag := FRunning, runs := true)
    case Refresh => h.(pc := Probing(0), existed := p.at.Some?, listed := None, goal := Look, moved := false)
    case Miss => if h.pc.i < 5 then h.(pc := Probing(h.pc.i + 1)) else h.(pc := Missed, flag := FGone)
    case Hit =>
      var d := ORDER[h.pc.i];
      if d == Embryo || d == Prepared then h.(pc := Known, flag := FlagOf(d, false)) else h.(pc := Testing(d))
    case TestFree => h.(pc := Known, flag := FlagOf(h.pc.d, false))
    case TestBusy => h.(pc := Known, flag := FlagOf(h.pc.d, true))
    case ToExitedGarbage => h.(flag := FExitedGarbage, moved := true)
    case ToGarbage => h.(flag := FGarbage, moved := true)
    case WaitLock => h.(held := Shared)
    case WaitUnlock => h.(held := Unlocked)
    case LockDelete => h.(pc := Deleting, held := Exclusive)
    case Wipe => h
    case Rmdir => h
    case Close => CLOSED
  }

  ghost function Get(s: Sys, a: Pid): Handle {
    if a in s.handles then s.handles[a] else CLOSED
  }

  ghost predicate Enabled(s: Sys, a: Pid, act: Act) {
    && Can(s.pod, Get(s, a), act)
    && (Needs(act).Some? ==> Free(s, a, Needs(act).value))
    && (act.TestBusy? ==> !Free(s, a, Shared))
  }

  ghost function Effect(s: Sys, a: Pid, act: Act): Sys
    requires Enabled(s, a, act)
  {
    Sys(PodAfter(s.pod, act), s.handles[a := HandleAfter(s.pod, Get(s, a), act)])
  }

  // Runs: any interleaving of the steps of any number of processes.

  datatype Event = Event(who: Pid, act: Act)

  const INITIAL: Sys := Sys(Pod(None, false, 0, false), map[])

  ghost predicate Possible(s: Sys, run: seq<Event>)
    decreases |run|
  {
    run == [] || (Enabled(s, run[0].who, run[0].act) && Possible(Effect(s, run[0].who, run[0].act), run[1..]))
  }

  ghost function After(s: Sys, run: seq<Event>): Sys
    requires Possible(s, run)
    decreases |run|
  {
    if run == [] then s else After(Effect(s, run[0].who, run[0].act), run[1..])
  }

  // What every step keeps.

  /** The pod was made, and is gone or has come at least as far as directory number n. */
  ghost predicate Past(p: Pod, n: nat) {
    p.born && (p.at.Some? ==> Rank(p.at.value) >= n)
  }

  ghost predicate PodOk(p: Pod) {
    && (p.at.Some? ==> p.born)
    && (!p.born ==> p.entered == 0 && !p.wiped)
    && p.entered <= 1
    && (p.at.Some? ==> p.entered == if p.at.value.Run? || p.at.value.ExitedGarbage? then 1 else 0)
    && (p.wiped && p.at.Some? ==> p.at.value.ExitedGarbage? || p.at.value.Garbage?)
  }

  /** What the creator's handle says about the pod. */
  ghost predicate OwnOk(p: Pod, h: Handle) {
    && p.born && h.goal.Create? && h.listed.None? && !h.moved
    && (h.pc.Made? || h.pc.Opened? || h.pc.Locked? || h.pc.Known? || h.pc.Moved? || h.pc.RunLocked?)
    && (h.pc.Made? || h.pc.Opened? || h.pc.Locked? ==> p.at == Some(Embryo))
    && (h.pc.Known? || h.pc.RunLocked? ==> h.flag.FPreparing? || h.flag.FPrepared? || h.flag.FRunning?)
    && (h.pc.Known? || h.pc.RunLocked? ==>
          if h.flag.FPreparing? then p.at == Some(Prepare) && h.held == Exclusive else Past(p, 2))
    && (h.pc.Moved? ==> Past(p, 2))
  }

  ghost predicate LockOk(p: Pod, h: Handle) {
    && (h.pc.Closed? || h.pc.Made? || h.pc.Opened? || h.pc.Probing? || h.pc.Testing? || h.pc.Missed? ==>
      h.held == Unlocked)
    && (h.pc.Locked? || h.pc.Moved? || h.pc.RunLocked? || h.pc.Deleting? ==> h.held == Exclusive)
    && (h.pc.Closed? ==> !h.mine && !h.runs)
    && (h.pc.Made? || h.pc.Opened? || h.pc.Locked? || h.pc.Moved? ==> h.mine)
    && (h.runs ==> h.pc.Known? && h.flag.FRunning? && h.held == Exclusive && p.at == Some(Run))
    && (h.pc.RunLocked? ==> h.flag.FPrepared? || (h.mine && h.flag.FPreparing?))
  }

  ghost predicate ScanOk(p: Pod, h: Handle) {
    && (h.existed ==> p.born)
    && (h.pc.Probing? ==> h.pc.i < 6 && (h.existed ==> Past(p, h.pc.i)))
    && (h.pc.Missed? && h.existed ==> p.at.None?)
    && (h.pc.Testing? ==> !h.pc.d.Embryo? && !h.pc.d.Prepared? && Past(p, Rank(h.pc.d)))
    && (h.pc.Testing? && Rank(h.pc.d) >= 4 && p.at.Some? ==> p.at == Some(h.pc.d))
    && (h.listed.Some? && !h.pc.Closed? ==> Past(p, Rank(h.listed.value)) && IncludeOf(h.goal) == h.listed)
    && (IncludeOf(h.goal).Some? && !h.pc.Closed? ==> h.listed.Some?)
    && (h.pc.Testing? && h.listed.Some? ==> Rank(h.listed.value) <= Rank(h.pc.d))
  }

  ghost predicate Settled(pc: Pc) {
    pc.Known? || pc.Deleting?
  }

  ghost predicate IsGarbage(f: Flag) {
    f.FExitedGarbage? || f.FExitedDeleting? || f.FGarbage? || f.FDeleting?
  }

  ghost predicate FlagOk(p: Pod, h: Handle) {
    && (Settled(h.pc) ==> PathOf(h.flag).Some? && Past(p, Rank(PathOf(h.flag).value)))
    && (Settled(h.pc) && h.listed.Some? ==> Rank(h.listed.value) <= Rank(PathOf(h.flag).value))
  }

  ghost predicate DropOk(p: Pod, h: Handle) {
    && (h.moved ==> Settled(h.pc) && (h.flag.FGarbage? || h.flag.FExitedGarbage?))
    && (Settled(h.pc) && IsGarbage(h.flag) && p.at.Some? ==> p.at == PathOf(h.flag))
    && (h.pc.Deleting? ==> IsGarbage(h.flag))
  }

  ghost predicate HandleOk(p: Pod, h: Handle) {
    LockOk(p, h) && ScanOk(p, h) && FlagOk(p, h) && DropOk(p, h) && (h.mine ==> OwnOk(p, h))
  }

  /** Handle g leaves what h knows intact. */
  ghost predicate PairOk(p: Pod, h: Handle, g: Handle) {
    && (h.held == Exclusive ==> g.held == Unlocked)
    && !(h.mine && g.mine)
    && (h.pc.Known? && h.flag.FAborted? && p.at == Some(Prepare) ==> !g.mine)
    && (h.pc.Known? && h.flag.FExited? && p.at == Some(Run) ==> !g.runs)
  }

  ghost predicate Inv(s: Sys) {
    && PodOk(s.pod)
    && (forall a :: a in s.handles ==> HandleOk(s.pod, s.handles[a]))
    && (forall a, b :: a in s.handles && b in s.handles && a != b ==> PairOk(s.pod, s.handles[a], s.handles[b]))
  }

  // One step, on the pod and one or two handles.

  /** Every move goes forward in the order in which getPod and listPods look. */
  lemma Forward(p: Pod, h: Handle, act: Act)
    requires PodOk(p) && HandleOk(p, h) && Can(p, h, act) && PodAfter(p, act).at != p.at
    ensures p.at.None? ==> act.Make?
    ensures p.at.Some? ==> PodAfter(p, act).at.None? || Rank(PodAfter(p, act).at.value) > Rank(p.at.value)
  {
  }

  lemma KeepsPod(p: Pod, h: Handle, act: Act)
    requires PodOk(p) && HandleOk(p, h) && Can(p, h, act)
    ensures PodOk(PodAfter(p, act))
  {
  }

  /** deletePod is only called for a pod whose flags say garbage: its panic is unreachable. */
  lemma DeleteIsGarbage(p: Pod, h: Handle)
    requires HandleOk(p, h) && h.pc.Known? && MayDelete(h)
    ensures IsGarbage(h.flag)
  {
  }

  ghost predicate IsBuild(act: Act) {
    act.Make? || act.OpenOwn? || act.LockOwn? || act.ToPreparing? || act.ToPrepared? || act.UnlockPrepared? ||
      act.AskRun? || act.ToRun?
  }

  ghost predicate IsScan(act: Act) {
    act.Lookup? || act.List? || act.Refresh? || act.Miss? || act.Hit?
  }

  ghost predicate IsTest(act: Act) {
    act.TestFree? || act.TestBusy?
  }

  lemma BuildKeeps(p: Pod, h: Handle, act: Act)
    requires PodOk(p) && HandleOk(p, h) && Can(p, h, act) && IsBuild(act)
    ensures HandleOk(PodAfter(p, act), HandleAfter(p, h, act))
  {
  }

  lemma ScanKeeps(p: Pod, h: Handle, act: Act)
    requires PodOk(p) && HandleOk(p, h) && Can(p, h, act) && IsScan(act)
    ensures HandleOk(PodAfter(p, act), HandleAfter(p, h, act))
  {
  }

  lemma TestKeeps(p: Pod, h: Handle, act: Act)
    requires PodOk(p) && HandleOk(p, h) && Can(p, h, act) && IsTest(act)
    ensures HandleOk(PodAfter(p, act), HandleAfter(p, h, act))
  {
  }

  ghost predicate IsDrop(act: Act) {
    act.ToExitedGarbage? || act.ToGarbage? || act.Wipe? || act.Rmdir?
  }

  lemma DropKeeps(p: Pod, h: Handle, act: Act)
    requires PodOk(p) && HandleOk(p, h) && Can(p, h, act) && IsDrop(act)
    ensures HandleOk(PodAfter(p, act), HandleAfter(p, h, act))
  {
  }

  lemma LockKeeps(p: Pod, h: Handle, act: Act)
    requires PodOk(p) && HandleOk(p, h) && Can(p, h, act)
    requires !IsBuild(act) && !IsScan(act) && !IsTest(act) && !IsDrop(act)
    ensures HandleOk(PodAfter(p, act), HandleAfter(p, h, act))
  {
  }

  // The step of h cannot disprove what g knows.

  lemma KeepsOtherLock(p: Pod, h: Handle, act: Act, g: Handle)
    requires PodOk(p) && HandleOk(p, h) && Can(p, h, act) && HandleOk(p, g) && PairOk(p, h, g) && PairOk(p, g, h)
    ensures LockOk(PodAfter(p, act), g)
  {
    hide ScanOk;
  }

  lemma KeepsOtherView(p: Pod, h: Handle, act: Act, g: Handle)
    requires PodOk(p) && HandleOk(p, h) && Can(p, h, act) && HandleOk(p, g)
    ensures ScanOk(PodAfter(p, act), g) && FlagOk(PodAfter(p, act), g)
  {
    hide PairOk;
  }

  lemma KeepsOtherDrop(p: Pod, h: Handle, act: Act, g: Handle)
    requires PodOk(p) && HandleOk(p, h) && Can(p, h, act) && HandleOk(p, g) && PairOk(p, h, g) && PairOk(p, g, h)
    ensures DropOk(PodAfter(p, act), g)
  {
    hide ScanOk;
  }

  lemma KeepsOtherOwn(p: Pod, h: Handle, act: Act, g: Handle)
    requires PodOk(p) && HandleOk(p, h) && Can(p, h, act) && HandleOk(p, g) && PairOk(p, h, g) && PairOk(p, g, h)
    ensures g.mine ==> OwnOk(PodAfter(p, act), g)
  {
    hide ScanOk;
  }

  lemma KeepsOther(p: Pod, h: Handle, act: Act, g: Handle)
    requires PodOk(p) && HandleOk(p, h) && Can(p, h, act) && HandleOk(p, g) && PairOk(p, h, g) && PairOk(p, g, h)
    ensures HandleOk(PodAfter(p, act), g)
  {
    hide LockOk, ScanOk, FlagOk, DropOk, OwnOk, PodOk, PairOk, Can, PodAfter;
    KeepsOtherLock(p, h, act, g);
    KeepsOtherView(p, h, act, g);
    KeepsOtherDrop(p, h, act, g);
    KeepsOtherOwn(p, h, act, g);
  }

  lemma KeepsPairOf(p: Pod, h: Handle, act: Act, g: Handle)
    requires PodOk(p) && HandleOk(p, h) && Can(p, h, act) && HandleOk(p, g) && PairOk(p, h, g) && PairOk(p, g, h)
    requires Needs(act).Some? ==> Tolerates(g.held, Needs(act).value)
    ensures PairOk(PodAfter(p, act), HandleAfter(p, h, act), g)
  {
    hide ScanOk, DropOk;
  }

  lemma KeepsPairByBuild(p: Pod, h: Handle, act: Act, g: Handle)
    requires PodOk(p) && HandleOk(p, h) && Can(p, h, act) && HandleOk(p, g) && PairOk(p, h, g) && PairOk(p, g, h)
    requires (Needs(act).Some? ==> Tolerates(g.held, Needs(act).value)) && IsBuild(act)
    ensures PairOk(PodAfter(p, act), g, HandleAfter(p, h, act))
  {
    hide ScanOk, DropOk;
  }

  lemma KeepsPairByOther(p: Pod, h: Handle, act: Act, g: Handle)
    requires PodOk(p) && HandleOk(p, h) && Can(p, h, act) && HandleOk(p, g) && PairOk(p, h, g) && PairOk(p, g, h)
    requires (Needs(act).Some? ==> Tolerates(g.held, Needs(act).value)) && !IsBuild(act)
    ensures PairOk(PodAfter(p, act), g, HandleAfter(p, h, act))
  {
    hide ScanOk, DropOk;
  }

  lemma KeepsPairBy(p: Pod, h: Handle, act: Act, g: Handle)
    requires PodOk(p) && HandleOk(p, h) && Can(p, h, act) && HandleOk(p, g) && PairOk(p, h, g) && PairOk(p, g, h)
    requires Needs(act).Some? ==> Tolerates(g.held, Needs(act).value)
    ensures PairOk(PodAfter(p, act), g, HandleAfter(p, h, act))
  {
    hide PodOk, HandleOk, PairOk, Can, PodAfter, HandleAfter;
    if IsBuild(act) {
      KeepsPairByBuild(p, h, act, g);
    } else {
      KeepsPairByOther(p, h, act, g);
    }
  }

  // One step, on the whole system.

  lemma {:induction false} KeepsInv(s: Sys, a: Pid, act: Act)
    requires Inv(s) && Enabled(s, a, act)
    ensures Inv(Effect(s, a, act))
  {
    hide PodOk, HandleOk, PairOk, Can, PodAfter, HandleAfter;
    var p, h, t := s.pod, Get(s, a), Effect(s, a, act);
    if a !in s.handles { NewHandle(p); }
    KeepsHandle(p, h, act);
    forall b | b in t.handles ensures HandleOk(t.pod, t.handles[b]) {
      if b != a {
        PairWith(s, a, b);
        KeepsOther(p, h, act, s.handles[b]);
      }
    }
    forall b, c | b in t.handles && c in t.handles && b != c ensures PairOk(t.pod, t.handles[b], t.handles[c]) {
      if b == a {
        PairWith(s, a, c);
        KeepsPairOf(p, h, act, s.handles[c]);
      } else if c == a {
        PairWith(s, a, b);
        KeepsPairBy(p, h, act, s.handles[b]);
      } else {
        KeepsStrangers(p, h, act, s.handles[b], s.handles[c]);
      }
    }
  }

  lemma NewHandle(p: Pod)
    ensures HandleOk(p, CLOSED)
  {
  }

  lemma PairWith(s: Sys, a: Pid, b: Pid)
    requires Inv(s) && b in s.handles && b != a
    ensures PairOk(s.pod, Get(s, a), s.handles[b]) && PairOk(s.pod, s.handles[b], Get(s, a))
  {
  }

  lemma {:induction false} KeepsHandle(p: Pod, h: Handle, act: Act)
    requires PodOk(p) && HandleOk(p, h) && Can(p, h, act)
    ensures PodOk(PodAfter(p, act)) && HandleOk(PodAfter(p, act), HandleAfter(p, h, act))
  {
    hide HandleOk, Can, PodAfter, HandleAfter, PodOk;
    KeepsPod(p, h, act);
    if IsBuild(act) {
      BuildKeeps(p, h, act);
    } else if IsScan(act) {
      ScanKeeps(p, h, act);
    } else if IsTest(act) {
      TestKeeps(p, h, act);
    } else if IsDrop(act) {
      DropKeeps(p, h, act);
    } else {
      LockKeeps(p, h, act);
    }
  }

  // Two handles that both stand by while h steps.
  lemma KeepsStrangers(p: Pod, h: Handle, act: Act, g: Handle, k: Handle)
    requires PodOk(p) && HandleOk(p, h) && Can(p, h, act) && HandleOk(p, g) && HandleOk(p, k) && PairOk(p, g, k)
    requires PairOk(p, h, g) && PairOk(p, g, h) && PairOk(p, h, k) && PairOk(p, k, h)
    ensures PairOk(PodAfter(p, act), g, k)
  {
  }

  lemma {:induction false} RunKeepsInv(s: Sys, run: seq<Event>)
    requires Inv(s) && Possible(s, run)
    ensures Inv(After(s, run))
    decreases |run|
  {
    hide Inv, Enabled, Effect;
    if run != [] {
      KeepsInv(s, run[0].who, run[0].act);
      RunKeepsInv(Effect(s, run[0].who, run[0].act), run[1..]);
    }
  }

  // The guarantees, over every run.

  ghost predicate Reaches(run: seq<Event>, s: Sys) {
    Possible(INITIAL, run) && After(INITIAL, run) == s
  }

  lemma {:induction false} ReachesInv(run: seq<Event>, s: Sys)
    requires Reaches(run, s)
    ensures Inv(s)
  {
    RunKeepsInv(INITIAL, run);
  }

  /** A rename from run/ to exited-garbage/ succeeds only after the handle that moved the pod into
      run/, and holds its lock, was closed. */
  lemma {:induction false} ExitsAfterRelease(run: seq<Event>, s: Sys, a: Pid, b: Pid)
    requires Reaches(run, s) && Enabled(s, a, ToExitedGarbage)
    ensures s.pod.at == Some(Run) && s.pod.entered == 1
    ensures b in s.handles ==> !s.handles[b].runs
  {
    ReachesInv(run, s);
    assert HandleOk(s.pod, s.handles[a]);
    if b in s.handles && b != a {
      assert PairOk(s.pod, s.handles[a], s.handles[b]);
    }
  }

  /** A rename from prepare/ to garbage/ succeeds only if the creator's handle is closed with the pod
      still unprepared: the creator died preparing it. */
  lemma {:induction false} AbortsAfterDeath(run: seq<Event>, s: Sys, a: Pid, b: Pid)
    requires Reaches(run, s) && Enabled(s, a, ToGarbage) && s.pod.at == Some(Prepare)
    ensures b in s.handles ==> !s.handles[b].mine
  {
    ReachesInv(run, s);
    assert HandleOk(s.pod, s.handles[a]);
    if b in s.handles && b != a {
      assert PairOk(s.pod, s.handles[a], s.handles[b]);
    }
  }

  /** While its creator prepares or its mover runs it, a pod is locked in place. */
  lemma {:induction false} LockedInPlace(run: seq<Event>, s: Sys, b: Pid)
    requires Reaches(run, s) && b in s.handles
    ensures s.handles[b].mine && s.pod.at == Some(Prepare) ==> s.handles[b].held == Exclusive
    ensures s.handles[b].runs ==> s.handles[b].held == Exclusive && s.pod.at == Some(Run)
  {
    ReachesInv(run, s);
    assert HandleOk(s.pod, s.handles[b]);
  }

  /** A pod enters run/ at most once, and a pod in garbage/ never did. */
  lemma {:induction false} RunsOnce(run: seq<Event>, s: Sys)
    requires Reaches(run, s)
    ensures s.pod.entered <= 1
    ensures s.pod.at.Some? ==> (s.pod.entered == 1 <==> s.pod.at.value.Run? || s.pod.at.value.ExitedGarbage?)
  {
    ReachesInv(run, s);
  }

  /** Contents and directory are removed only in the two garbage directories, by the one holder of
      the exclusive lock, when no creator prepares and no mover runs the pod. */
  lemma {:induction false} RemovesOnlyGarbage(run: seq<Event>, s: Sys, a: Pid, act: Act, b: Pid)
    requires Reaches(run, s) && Enabled(s, a, act) && (act.Wipe? || act.Rmdir?)
    ensures s.pod.at == Some(ExitedGarbage) || s.pod.at == Some(Garbage)
    ensures s.handles[a].held == Exclusive
    ensures b in s.handles && b != a ==> s.handles[b].held == Unlocked && !s.handles[b].runs
  {
    ReachesInv(run, s);
    assert HandleOk(s.pod, s.handles[a]);
    if b in s.handles && b != a {
      assert PairOk(s.pod, s.handles[a], s.handles[b]) && HandleOk(s.pod, s.handles[b]);
    }
  }

  /** gc and rm call deletePod only on handles whose flags say garbage, so it never panics. */
  lemma {:induction false} NeverPanics(run: seq<Event>, s: Sys, a: Pid)
    requires Reaches(run, s) && Enabled(s, a, LockDelete)
    ensures IsGarbage(s.handles[a].flag) && (s.pod.at.Some? ==> s.pod.at == PathOf(s.handles[a].flag))
  {
    ReachesInv(run, s);
    assert HandleOk(s.pod, s.handles[a]);
    DeleteIsGarbage(s.pod, s.handles[a]);
  }

  /** getPod fails to find a pod that existed when it started only if the pod is deleted by the end. */
  lemma {:induction false} GetPodComplete(run: seq<Event>, s: Sys, a: Pid)
    requires Reaches(run, s) && a in s.handles && s.handles[a].pc.Missed? && s.handles[a].existed
    ensures s.pod.born && s.pod.at.None?
  {
    ReachesInv(run, s);
    assert HandleOk(s.pod, s.handles[a]);
  }

  // What gc and rm get done when nobody has the pod locked.

  ghost predicate OnlyBy(run: seq<Event>, a: Pid) {
    forall i :: 0 <= i < |run| ==> run[i].who == a
  }

  /** Nobody has a lock on the pod. */
  ghost predicate NoLocks(s: Sys) {
    forall b :: b in s.handles ==> s.handles[b].held == Unlocked
  }

  ghost predicate IsIdle(s: Sys, a: Pid) {
    Get(s, a).pc.Closed?
  }

  lemma {:induction false} Snoc(s: Sys, run: seq<Event>, e: Event)
    requires Possible(s, run) && Enabled(After(s, run), e.who, e.act)
    ensures Possible(s, run + [e]) && After(s, run + [e]) == Effect(After(s, run), e.who, e.act)
    decreases |run|
  {
    hide Enabled, Effect;
    if run == [] {
      assert [e][1..] == [];
    } else {
      assert (run + [e])[1..] == run[1..] + [e];
      Snoc(Effect(s, run[0].who, run[0].act), run[1..], e);
    }
  }

  /** Steps of a alone lead from s to t. */
  ghost predicate Leads(s: Sys, run: seq<Event>, a: Pid, t: Sys) {
    Possible(s, run) && OnlyBy(run, a) && After(s, run) == t
  }

  lemma {:induction false} Do(s: Sys, run: seq<Event>, a: Pid, t: Sys, act: Act) returns (run': seq<Event>, t': Sys)
    requires Leads(s, run, a, t) && Enabled(t, a, act)
    ensures run' == run + [Event(a, act)] && t' == Effect(t, a, act) && Leads(s, run', a, t')
  {
    hide Enabled, Effect;
    run', t' := run + [Event(a, act)], Effect(t, a, act);
    Snoc(s, run, Event(a, act));
  }

  /** t is s but for the handle of a, which is h. */
  ghost predicate Only(s: Sys, t: Sys, a: Pid, p: Pod, h: Handle) {
    t == Sys(p, s.handles[a := h])
  }

  /** The others have no lock. */
  ghost predicate OthersUnlocked(s: Sys, a: Pid) {
    forall b :: b in s.handles && b != a ==> s.handles[b].held == Unlocked
  }

  lemma OthersFree(s: Sys, t: Sys, a: Pid, p: Pod, h: Handle, m: Mode)
    requires OthersUnlocked(s, a) && Only(s, t, a, p, h)
    ensures Free(t, a, m) && Get(t, a) == h && t.pod == p
  {
  }

  lemma {:induction false} PassBy(s: Sys, run: seq<Event>, a: Pid, t: Sys, h: Handle, d: Dir)
    returns (run': seq<Event>, t': Sys)
    requires Leads(s, run, a, t) && Only(s, t, a, s.pod, h) && s.pod.at == Some(d)
    requires h.pc.Probing? && h.pc.i < Rank(d)
    ensures Leads(s, run', a, t') && Only(s, t', a, s.pod, h.(pc := Probing(h.pc.i + 1)))
    ensures run' == run + [Event(a, Miss)]
  {
    hide Leads;
    RankOrder(d);
    OrderRank(h.pc.i);
    run', t' := Do(s, run, a, t, Miss);
  }

  lemma {:induction false} Meet(s: Sys, run: seq<Event>, a: Pid, t: Sys, h: Handle, d: Dir)
    returns (run': seq<Event>, t': Sys)
    requires Leads(s, run, a, t) && OthersUnlocked(s, a) && Only(s, t, a, s.pod, h) && s.pod.at == Some(d)
    requires h.pc == Probing(Rank(d)) && run != []
    ensures Leads(s, run', a, t') && Only(s, t', a, s.pod, h.(pc := Known, flag := FlagOf(d, false)))
    ensures |run| <= |run'| && run'[0] == run[0]
  {
    hide Leads, FlagOf, ORDER;
    RankOrder(d);
    run', t' := Do(s, run, a, t, Hit);
    if d != Embryo && d != Prepared {
      OthersFree(s, t', a, s.pod, h.(pc := Testing(d)), Shared);
      run', t' := Do(s, run', a, t', TestFree);
    }
  }

  // The probing of getPod from directory i on to where the pod is.
  lemma {:induction false} Probe(s: Sys, run: seq<Event>, a: Pid, t: Sys, h: Handle, d: Dir)
    returns (run': seq<Event>, t': Sys)
    requires Leads(s, run, a, t) && OthersUnlocked(s, a) && Only(s, t, a, s.pod, h) && s.pod.at == Some(d)
    requires h.pc.Probing? && h.pc.i <= Rank(d) && run != []
    ensures Leads(s, run', a, t') && Only(s, t', a, s.pod, h.(pc := Known, flag := FlagOf(d, false)))
    ensures |run| <= |run'| && run'[0] == run[0]
    decreases Rank(d) - h.pc.i
  {
    hide Leads, FlagOf, Only, OthersUnlocked, Rank;
    if h.pc.i < Rank(d) {
      run', t' := PassBy(s, run, a, t, h, d);
      run', t' := Probe(s, run', a, t', h.(pc := Probing(h.pc.i + 1)), d);
    } else {
      run', t' := Meet(s, run, a, t, h, d);
    }
  }

  lemma OrderRank(i: nat)
    requires i < 6
    ensures Rank(ORDER[i]) == i
  {
  }

  lemma NoStepsYet(s: Sys, a: Pid)
    ensures Leads(s, [], a, s)
  {
  }

  // A gc walk over d lists the pod and looks for it.
  lemma {:induction false} Walk(s: Sys, a: Pid, g: Goal, d: Dir) returns (run: seq<Event>, t: Sys)
    requires NoLocks(s) && IsIdle(s, a) && IncludeOf(g) == Some(d) && s.pod.at == Some(d)
    ensures run != [] && run[0] == Event(a, List(g)) && Leads(s, run, a, t)
    ensures Only(s, t, a, s.pod, Handle(Known, FlagOf(d, false), false, false, Unlocked, g, Some(d), true, false))
  {
    hide Leads, FlagOf, ORDER;
    NoStepsYet(s, a);
    run, t := Do(s, [], a, s, List(g));
    run, t := Probe(s, run, a, t, Handle(Probing(0), FGone, false, false, Unlocked, g, Some(d), true, false), d);
  }

  // rm looks for the pod.
  lemma {:induction false} Find(s: Sys, a: Pid, d: Dir) returns (run: seq<Event>, t: Sys)
    requires NoLocks(s) && IsIdle(s, a) && s.pod.at == Some(d)
    ensures run != [] && run[0] == Event(a, Lookup(Rm)) && Leads(s, run, a, t)
    ensures Only(s, t, a, s.pod, Handle(Known, FlagOf(d, false), false, false, Unlocked, Rm, None, true, false))
  {
    hide Leads, FlagOf, ORDER;
    NoStepsYet(s, a);
    run, t := Do(s, [], a, s, Lookup(Rm));
    run, t := Probe(s, run, a, t, Handle(Probing(0), FGone, false, false, Unlocked, Rm, None, true, false), d);
  }

  // deletePod, once the handle says garbage.
  lemma {:induction false} Remove(s: Sys, run: seq<Event>, a: Pid, t: Sys, p: Pod, h: Handle)
    returns (run': seq<Event>, t': Sys)
    requires Leads(s, run, a, t) && OthersUnlocked(s, a) && Only(s, t, a, p, h) && run != []
    requires h.pc.Known? && MayDelete(h) && p.at.Some? && p.at == PathOf(h.flag)
    ensures Leads(s, run', a, t') && t'.pod.at.None? && run' != [] && run'[0] == run[0]
  {
    hide Leads, MayDelete, PathOf;
    OthersFree(s, t, a, p, h, Exclusive);
    run', t' := Do(s, run, a, t, LockDelete);
    run', t' := Do(s, run', a, t', Wipe);
    run', t' := Do(s, run', a, t', Rmdir);
  }

  /** In every reachable state, emptyExitedGarbage and emptyGarbage can by their own steps get rid of a pod in
      their directory that nobody has locked. */
  lemma {:induction false} GcDeletes(before: seq<Event>, s: Sys, a: Pid, g: Goal) returns (run: seq<Event>, t: Sys)
    requires Reaches(before, s) && NoLocks(s) && IsIdle(s, a)
    requires || (g == GcEmptyExited && s.pod.at == Some(ExitedGarbage))
             || (g == GcEmptyGarbage && s.pod.at == Some(Garbage))
    ensures run != [] && run[0] == Event(a, List(g)) && Leads(s, run, a, t) && t.pod.at.None?
  {
    hide Leads, Reaches;
    var d := s.pod.at.value;
    run, t := Walk(s, a, g, d);
    var h := Handle(Known, FlagOf(d, false), false, false, Unlocked, g, Some(d), true, false);
    run, t := Remove(s, run, a, t, s.pod, h);
  }

  /** In every reachable state, renameExited, renameAborted and renameExpired can by their own steps move a pod
      in their directory that nobody has locked to the garbage directory they name. */
  lemma {:induction false} GcMoves(before: seq<Event>, s: Sys, a: Pid, g: Goal) returns (run: seq<Event>, t: Sys)
    requires Reaches(before, s) && NoLocks(s) && IsIdle(s, a)
    requires g == GcExited || g == GcAborted || g == GcExpired
    requires s.pod.at == Some(if g == GcExited then Run else if g == GcAborted then Prepare else Prepared)
    ensures run != [] && run[0] == Event(a, List(g)) && Leads(s, run, a, t)
    ensures t.pod.at == Some(if g == GcExited then ExitedGarbage else Garbage)
  {
    hide Leads, Reaches, ORDER;
    var d := s.pod.at.value;
    run, t := Walk(s, a, g, d);
    run, t := Do(s, run, a, t, if g == GcExited then ToExitedGarbage else ToGarbage);
  }

  /** In every reachable state, rm can by its own steps get rid of a prepared, aborted, exited or garbage pod
      that nobody has locked. */
  lemma {:induction false} RmDeletes(before: seq<Event>, s: Sys, a: Pid, d: Dir) returns (run: seq<Event>, t: Sys)
    requires Reaches(before, s) && NoLocks(s) && IsIdle(s, a) && s.pod.at == Some(d)
    requires d == Prepare || d == Prepared || d == Run || d == Garbage
    ensures run != [] && run[0] == Event(a, Lookup(Rm)) && Leads(s, run, a, t) && t.pod.at.None?
  {
    hide Leads, Reaches, ORDER;
    run, t := Find(s, a, d);
    var p, h := s.pod, Handle(Known, FlagOf(d, false), false, false, Unlocked, Rm, None, true, false);
    if d != Garbage {
      var act := if d == Run then ToExitedGarbage else ToGarbage;
      p, h := PodAfter(p, act), HandleAfter(p, h, act);
      run, t := Do(s, run, a, t, act);
    }
    run, t := Remove(s, run, a, t, p, h);
  }

  /** In every reachable state without the pod, its creator can by its own steps bring it to prepared/, where
      nobody has it locked, and then to run/, which it keeps locked. */
  lemma {:induction false} CreatorRuns(before: seq<Event>, s: Sys, a: Pid)
    returns (prepare: seq<Event>, t: Sys, run: seq<Event>, u: Sys)
    requires Reaches(before, s) && !s.pod.born && NoLocks(s) && IsIdle(s, a)
    ensures Leads(s, prepare, a, t) && t.pod.at == Some(Prepared) && NoLocks(t)
    ensures Leads(s, run, a, u) && u.pod.at == Some(Run) && u.pod.entered == s.pod.entered + 1
    ensures a in u.handles && u.handles[a].held == Exclusive && u.handles[a].runs && u.handles[a].flag == FRunning
  {
    hide Leads, Reaches;
    NoStepsYet(s, a);
    prepare, t := Prepares(s, [], a, s);
    var h := Handle(Known, FPrepared, true, false, Unlocked, Create, None, true, false);
    OthersFree(s, t, a, Pod(Some(Prepared), true, s.pod.entered, s.pod.wiped), h, Exclusive);
    run, u := Do(s, prepare, a, t, AskRun);
    run, u := Do(s, run, a, u, ToRun);
  }

  lemma {:induction false} Prepares(s: Sys, run: seq<Event>, a: Pid, t: Sys) returns (run': seq<Event>, t': Sys)
    requires Leads(s, run, a, t) && t == s && OthersUnlocked(s, a) && !s.pod.born && IsIdle(s, a)
    ensures Leads(s, run', a, t')
    ensures Only(s, t', a, Pod(Some(Prepared), true, s.pod.entered, s.pod.wiped),
                 Handle(Known, FPrepared, true, false, Unlocked, Create, None, true, false))
  {
    hide Leads;
    run', t' := Do(s, run, a, t, Make);
    run', t' := Do(s, run', a, t', OpenOwn);
    OthersFree(s, t', a, t'.pod, Get(t', a), Exclusive);
    run', t' := Do(s, run', a, t', LockOwn);
    run', t' := Do(s, run', a, t', ToPreparing);
    run', t' := Do(s, run', a, t', ToPrepared);
    run', t' := Do(s, run', a, t', UnlockPrepared);
  }

  /** A handle that found the pod running can take the shared lock that waitExited waits for only once no handle
      that runs the pod is open, and then, if nobody else has a lock, comes to see that it has exited. */
  lemma {:induction false} WaiterSeesExit(before: seq<Event>, s: Sys, a: Pid) returns (run: seq<Event>, t: Sys)
    requires Reaches(before, s) && NoLocks(s) && s.pod.at == Some(Run)
    requires a in s.handles && s.handles[a].pc.Known? && s.handles[a].flag == FRunning && !s.handles[a].mine
    ensures Leads(s, run, a, t) && t.pod == s.pod && a in t.handles && t.handles[a].flag == FExited && NoLocks(t)
  {
    hide Leads, Reaches, ORDER, FlagOf;
    run, t := Waits(s, a, s.handles[a]);
    run, t := Probe(s, run, a, t, Get(t, a), Run);
    ExitedFlag();
  }

  lemma ExitedFlag()
    ensures FlagOf(Run, false) == FExited
  {
  }

  lemma {:induction false} Waits(s: Sys, a: Pid, h: Handle) returns (run: seq<Event>, t: Sys)
    requires NoLocks(s) && a in s.handles && s.handles[a] == h && h.pc.Known? && !h.mine && s.pod.at.Some?
    ensures Leads(s, run, a, t) && run != []
    ensures Only(s, t, a, s.pod, h.(pc := Probing(0), existed := true, listed := None, goal := Look, moved := false))
  {
    hide Leads, ORDER;
    assert s.handles[a := h] == s.handles;
    NoStepsYet(s, a);
    OthersFree(s, s, a, s.pod, h, Shared);
    run, t := Do(s, [], a, s, WaitLock);
    run, t := Do(s, run, a, t, WaitUnlock);
    run, t := Do(s, run, a, t, Refresh);
  }

  lemma {:induction false} WaitsForExit(before: seq<Event>, s: Sys, a: Pid, b: Pid)
    requires Reaches(before, s) && b in s.handles && b != a && s.handles[b].runs
    ensures !Enabled(s, a, WaitLock)
  {
    ReachesInv(before, s);
    assert HandleOk(s.pod, s.handles[b]);
  }

  /** The flags that getPod caches tell the directory and, where a lock means something, whether there is one. */
  lemma {:induction false} FlagsTell(d: Dir, busy: bool, e: Dir, held: bool)
    ensures FlagOf(d, busy) == FlagOf(e, held) <==> d == e && (busy == held || d == Embryo || d == Prepared)
    ensures PathOf(FlagOf(d, busy)) == Some(d)
  {
  }

  /** A gc that dies half way leaves a pod without contents in its garbage directory, for the next one. */
  lemma {:induction false} GcInterrupted(before: seq<Event>, s: Sys, a: Pid, g: Goal)
    returns (run: seq<Event>, t: Sys)
    requires Reaches(before, s) && NoLocks(s) && IsIdle(s, a)
    requires || (g == GcEmptyExited && s.pod.at == Some(ExitedGarbage))
             || (g == GcEmptyGarbage && s.pod.at == Some(Garbage))
    ensures Leads(s, run, a, t) && t.pod.at == s.pod.at && t.pod.wiped && NoLocks(t) && IsIdle(t, a)
  {
    hide Leads, Reaches;
    var d := s.pod.at.value;
    run, t := Walk(s, a, g, d);
    var h := Handle(Known, FlagOf(d, false), false, false, Unlocked, g, Some(d), true, false);
    run, t := Empty(s, run, a, t, s.pod, h);
    NoneLocked(s, t, a);
  }

  lemma NoneLocked(s: Sys, t: Sys, a: Pid)
    requires NoLocks(s) && t.handles == s.handles[a := CLOSED]
    ensures NoLocks(t) && IsIdle(t, a)
  {
  }

  // deletePod, cut off before the directory itself goes.
  lemma {:induction false} Empty(s: Sys, run: seq<Event>, a: Pid, t: Sys, p: Pod, h: Handle)
    returns (run': seq<Event>, t': Sys)
    requires Leads(s, run, a, t) && OthersUnlocked(s, a) && Only(s, t, a, p, h)
    requires h.pc.Known? && MayDelete(h) && p.at.Some? && p.at == PathOf(h.flag)
    ensures Leads(s, run', a, t') && Only(s, t', a, p.(wiped := true), CLOSED)
  {
    hide Leads, MayDelete, PathOf;
    OthersFree(s, t, a, p, h, Exclusive);
    run', t' := Do(s, run, a, t, LockDelete);
    run', t' := Do(s, run', a, t', Wipe);
    run', t' := Do(s, run', a, t', Close);
  }

  /** In every reachable state, a pod that has not come to a garbage directory has its contents. */
  lemma {:induction false} ContentsIntact(before: seq<Event>, s: Sys)
    requires Reaches(before, s) && s.pod.at.Some? && Rank(s.pod.at.value) < Rank(ExitedGarbage)
    ensures !s.pod.wiped
  {
    ReachesInv(before, s);
  }

  /** A pod that rm finds locked, whatever the directory, it neither moves nor deletes, also later. */
  lemma {:induction false} RmLeavesBusy(s: Sys, a: Pid, u: Sys, act: Act)
    requires Inv(s) && Enabled(s, a, TestBusy) && Get(s, a).goal == Rm && !Get(s, a).moved
    requires Get(u, a) == Get(Effect(s, a, TestBusy), a)
    requires act.ToGarbage? || act.ToExitedGarbage? || act.LockDelete?
    ensures !Enabled(u, a, act)
  {
    hide Free;
  }

  /** A pod that rm finds in exited-garbage/ stays there: removePod takes it for an exited one. */
  lemma {:induction false} RmLeavesExitedGarbage(s: Sys, a: Pid, act: Act)
    requires Inv(s) && s.pod.at == Some(ExitedGarbage) && Enabled(s, a, act)
    requires a in s.handles && s.handles[a].pc.Known? && s.handles[a].goal == Rm && !s.handles[a].moved
    requires s.handles[a].flag == FExitedGarbage
    ensures Effect(s, a, act).pod == s.pod && !act.LockDelete?
  {
  }

  // What walkPods passes on.

  /** In every reachable state a walk over d passes on exactly the pods found in d and, whatever d is,
      those found exited in run/; and the latter can only happen if d comes before run/. */
  lemma {:induction false} PassesOn(run: seq<Event>, s: Sys, a: Pid, d: Dir)
    requires Reaches(run, s) && a in s.handles && Settled(s.handles[a].pc) && s.handles[a].listed == Some(d)
    ensures !Omitted(s.handles[a].flag, d) <==> PathOf(s.handles[a].flag) == Some(d) || s.handles[a].flag == FExited
    ensures s.handles[a].flag == FExited && d != Run ==> Rank(d) < Rank(Run)
  {
    ReachesInv(run, s);
    assert HandleOk(s.pod, s.handles[a]);
  }

  /** A walk over d passes on a pod that it found in another directory. */
  ghost predicate PassesStranger(run: seq<Event>, s: Sys, a: Pid, d: Dir) {
    && Reaches(run, s) && a in s.handles
    && var h := s.handles[a];
       Settled(h.pc) && h.listed == Some(d) && !Omitted(h.flag, d) && PathOf(h.flag) != Some(d)
  }

  lemma {:induction false} Go(run: seq<Event>, s: Sys, a: Pid, act: Act) returns (run': seq<Event>, s': Sys)
    requires Reaches(run, s) && Enabled(s, a, act)
    ensures Reaches(run', s') && s' == Effect(s, a, act)
  {
    run', s' := run + [Event(a, act)], Effect(s, a, act);
    Snoc(INITIAL, run, Event(a, act));
  }

  // A pod in prepare/, exclusively locked by its creator a.
  lemma {:induction false} GoPreparing(a: Pid) returns (run: seq<Event>, s: Sys)
    ensures Reaches(run, s) && s.pod == Pod(Some(Prepare), true, 0, false)
    ensures s.handles == map[a := Handle(Known, FPreparing, true, false, Exclusive, Create, None, true, false)]
  {
    hide Reaches;
    run, s := [], INITIAL;
    NothingYet();
    run, s := Go(run, s, a, Make);
    run, s := Go(run, s, a, OpenOwn);
    run, s := Go(run, s, a, LockOwn);
    run, s := Go(run, s, a, ToPreparing);
  }

  lemma NothingYet()
    ensures Reaches([], INITIAL)
  {
  }

  // a runs the pod to its end while b, which has listed it in d, has not looked for it yet.
  lemma {:induction false} GoExited(r: seq<Event>, t: Sys, a: Pid, b: Pid, d: Dir, g: Handle)
    returns (run: seq<Event>, s: Sys)
    requires Reaches(r, t) && a != b && t.handles.Keys == {a, b} && t.pod.at.Some? && t.handles[b] == g
    requires var h := t.handles[a];
             && h.pc.Known? && PathOf(h.flag) == t.pod.at && (h.flag.FPrepared? || (h.mine && h.flag.FPreparing?))
    requires g.pc == Probing(0) && g.listed == Some(d) && g.held == Unlocked
    ensures Reaches(run, s) && s.handles.Keys == {a, b} && s.handles[a] == CLOSED && s.handles[b] == g &&
            s.pod.at == Some(Run)
  {
    hide Reaches;
    run, s := Go(r, t, a, AskRun);
    run, s := Go(run, s, a, ToRun);
    run, s := Go(run, s, a, Close);
  }

  // b looks for the pod and finds it exited.
  lemma {:induction false} GoFound(r: seq<Event>, t: Sys, a: Pid, b: Pid, d: Dir) returns (run: seq<Event>, s: Sys)
    requires Reaches(r, t) && a != b && t.handles.Keys == {a, b} && t.handles[a] == CLOSED && t.pod.at == Some(Run)
    requires t.handles[b].pc == Probing(0) && t.handles[b].listed == Some(d)
    ensures Reaches(run, s) && b in s.handles && s.handles[b].pc.Known? && s.handles[b].flag == FExited &&
            s.handles[b].listed == Some(d)
  {
    hide Reaches;
    run, s := Go(r, t, b, Miss);
    run, s := Go(run, s, b, Miss);
    run, s := Go(run, s, b, Miss);
    run, s := Go(run, s, b, Hit);
    run, s := Go(run, s, b, TestFree);
  }

  lemma {:induction false} GoListed(a: Pid, b: Pid, g: Goal) returns (run: seq<Event>, s: Sys)
    requires a != b && (g == GcAborted || g == GcExpired)
    ensures Reaches(run, s) && s.handles.Keys == {a, b} && s.pod.at == IncludeOf(g)
    ensures s.handles[b] == Handle(Probing(0), FGone, false, false, Unlocked, g, IncludeOf(g), true, false)
    ensures var h := s.handles[a];
            h.pc.Known? && PathOf(h.flag) == s.pod.at && (h.flag.FPrepared? || (h.mine && h.flag.FPreparing?))
  {
    hide Reaches;
    run, s := GoPreparing(a);
    if g == GcExpired {
      run, s := Go(run, s, a, ToPrepared);
      run, s := Go(run, s, a, UnlockPrepared);
    }
    run, s := Go(run, s, b, List(g));
  }

  /** A gc walk over d can pass on a pod found elsewhere if and only if d comes before run/: the walks
      over prepare/ and prepared/, which do not delete. */
  lemma {:induction false} PassesStrangerIff(a: Pid, b: Pid, g: Goal, d: Dir)
    requires a != b && IncludeOf(g) == Some(d)
    ensures (exists run, s, c :: PassesStranger(run, s, c, d)) <==> Rank(d) < Rank(Run)
  {
    hide Reaches;
    if Rank(d) < Rank(Run) {
      var run, s := GoListed(a, b, g);
      run, s := GoExited(run, s, a, b, d, s.handles[b]);
      run, s := GoFound(run, s, a, b, d);
      assert PassesStranger(run, s, b, d);
    } else {
      forall run, s, c ensures !PassesStranger(run, s, c, d) {
        if Reaches(run, s) && c in s.handles && Settled(s.handles[c].pc) && s.handles[c].listed == Some(d) {
          PassesOn(run, s, c, d);
        }
      }
    }
  }

  // listPods reads one directory after another while the pod moves on.

  /** Where the pod is after the first n events. */
  ghost function Place(s: Sys, run: seq<Event>, n: nat): Option<Dir>
    requires n <= |run| && Possible(s, run)
    decreases n
  {
    if n == 0 then s.pod.at else Place(Effect(s, run[0].who, run[0].act), run[1..], n - 1)
  }

  ghost predicate NotBack(o: Option<Dir>, p: Option<Dir>) {
    o.Some? && p.Some? ==> Rank(o.value) <= Rank(p.value)
  }

  lemma {:induction false} StepNotBack(s: Sys, a: Pid, act: Act)
    requires Inv(s) && Enabled(s, a, act)
    ensures NotBack(s.pod.at, Effect(s, a, act).pod.at)
    ensures s.pod.born ==> Effect(s, a, act).pod.born
    ensures s.pod.born && s.pod.at.None? ==> Effect(s, a, act).pod.at.None?
  {
    if a !in s.handles { NewHandle(s.pod); }
    if PodAfter(s.pod, act).at != s.pod.at {
      Forward(s.pod, Get(s, a), act);
    }
  }

  // A pod that is present later was already at most that far earlier.
  lemma {:induction false} PlaceNotBack(s: Sys, run: seq<Event>, i: nat, j: nat)
    requires Inv(s) && Possible(s, run) && i <= j <= |run| && Place(s, run, i).Some? && Place(s, run, j).Some?
    ensures Rank(Place(s, run, i).value) <= Rank(Place(s, run, j).value)
    decreases j
  {
    hide Inv, Effect, Enabled;
    if i > 0 {
      KeepsInv(s, run[0].who, run[0].act);
      PlaceNotBack(Effect(s, run[0].who, run[0].act), run[1..], i - 1, j - 1);
    } else if j > 0 {
      StepNotBack(s, run[0].who, run[0].act);
      KeepsInv(s, run[0].who, run[0].act);
      BornIfPlaced(s);
      var t := Effect(s, run[0].who, run[0].act);
      if t.pod.at.None? {
        GoneStays(t, run[1..], j - 1);
      } else {
        PlaceNotBack(t, run[1..], 0, j - 1);
      }
    }
  }

  lemma BornIfPlaced(s: Sys)
    requires Inv(s) && s.pod.at.Some?
    ensures s.pod.born
  {
  }

  lemma {:induction false} GoneStays(s: Sys, run: seq<Event>, j: nat)
    requires Inv(s) && Possible(s, run) && j <= |run| && s.pod.born && s.pod.at.None?
    ensures Place(s, run, j).None?
    decreases j
  {
    if j > 0 {
      StepNotBack(s, run[0].who, run[0].act);
      KeepsInv(s, run[0].who, run[0].act);
      GoneStays(Effect(s, run[0].who, run[0].act), run[1..], j - 1);
    }
  }

  /** listPods finds the pod if directory i, read at times[i], held it then. */
  ghost predicate Found(s: Sys, run: seq<Event>, wanted: set<Dir>, times: seq<nat>, n: nat)
    requires Possible(s, run) && |times| == 6 && n <= 6 && forall i :: 0 <= i < 6 ==> times[i] <= |run|
  {
    exists i :: 0 <= i < n && ORDER[i] in wanted && Place(s, run, times[i]) == Some(ORDER[i])
  }

  lemma RankOrder(d: Dir)
    ensures Rank(d) < 6 && ORDER[Rank(d)] == d
  {
  }

  // What was not found so far is further on.
  lemma {:induction false} ScanAhead(s: Sys, run: seq<Event>, wanted: set<Dir>, times: seq<nat>, n: nat)
    requires Inv(s) && Possible(s, run) && |times| == 6 && n < 6 && (forall i :: 0 <= i < 6 ==> times[i] <= |run|)
    requires forall i :: 0 < i < 6 ==> times[i - 1] <= times[i]
    requires forall i :: 0 <= i < 6 ==> Place(s, run, times[i]).Some? && Place(s, run, times[i]).value in wanted
    requires !Found(s, run, wanted, times, n)
    ensures Rank(Place(s, run, times[n]).value) >= n
  {
    hide Inv, Possible, Place;
    if n > 0 {
      assert times[n - 1] <= times[n];
      ScanAhead(s, run, wanted, times, n - 1);
      PlaceNotBack(s, run, times[n - 1], times[n]);
      RankOrder(Place(s, run, times[n - 1]).value);
    }
  }

  /** listPods lists every pod that stays inside the included directories throughout. */
  lemma {:induction false} ListPodsComplete(run: seq<Event>, wanted: set<Dir>, times: seq<nat>)
    requires Possible(INITIAL, run) && |times| == 6 && (forall i :: 0 <= i < 6 ==> times[i] <= |run|)
    requires forall i :: 0 < i < 6 ==> times[i - 1] <= times[i]
    requires forall t :: times[0] <= t <= times[5] ==>
               Place(INITIAL, run, t).Some? && Place(INITIAL, run, t).value in wanted
    ensures Found(INITIAL, run, wanted, times, 6)
  {
    hide Possible, Place, Inv;
    InitialInv();
    TimesRise(times);
    if !Found(INITIAL, run, wanted, times, 6) {
      ScanAhead(INITIAL, run, wanted, times, 5);
      RankOrder(Place(INITIAL, run, times[5]).value);
    }
  }

  lemma InitialInv()
    ensures Inv(INITIAL)
  {
  }

  lemma TimesRise(times: seq<nat>)
    requires |times| == 6 && forall i :: 0 < i < 6 ==> times[i - 1] <= times[i]
    ensures forall i :: 0 <= i < 6 ==> times[0] <= times[i] <= times[5]
  {
    assert times[0] <= times[1] <= times[2] <= times[3] <= times[4] <= times[5];
  }
}
