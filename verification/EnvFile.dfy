// The environment file between stage1/init/pod.go, which writes it, and stage1/diagexec/diagexec.c,
// which adds to it and loads it.

module EnvFile {
  import opened Options

  datatype Var = Var(name: string, value: string)

  type Env = map<string, string>

  const NUL: char := '\0'

  ghost predicate GoodName(n: string) {
    n != [] && '=' !in n && NUL !in n
  }

  ghost predicate GoodVar(v: Var) {
    GoodName(v.name) && NUL !in v.value
  }

  ghost predicate Good(vs: seq<Var>) {
    forall i :: 0 <= i < |vs| ==> GoodVar(vs[i])
  }

  function Line(v: Var): string {
    v.name + "=" + v.value + [NUL]
  }

  function Encode(vs: seq<Var>): string {
    if vs == [] then [] else Line(vs[0]) + Encode(vs[1..])
  }

  /** The environment after setting the variables one by one. */
  function SetAll(env: Env, vs: seq<Var>): Env
    decreases |vs|
  {
    if vs == [] then env else SetAll(env[vs[0].name := vs[0].value], vs[1..])
  }

  lemma {:induction false} EncodeConcat(a: seq<Var>, b: seq<Var>)
    ensures Encode(a + b) == Encode(a) + Encode(b)
  {
    if a == [] {
      assert a + b == b;
    } else {
      assert (a + b)[0] == a[0] && (a + b)[1..] == a[1..] + b;
      EncodeConcat(a[1..], b);
    }
  }

  lemma {:induction false} SetConcat(env: Env, a: seq<Var>, b: seq<Var>)
    ensures SetAll(env, a + b) == SetAll(SetAll(env, a), b)
    decreases |a|
  {
    if a == [] {
      assert a + b == b;
    } else {
      assert (a + b)[0] == a[0] && (a + b)[1..] == a[1..] + b;
      SetConcat(env[a[0].name := a[0].value], a[1..], b);
    }
  }

  // Reading.

  function IndexOf(s: string, c: char): (i: nat)
    requires c in s
    ensures i < |s| && s[i] == c && forall j :: 0 <= j < i ==> s[j] != c
  {
    if s[0] == c then 0 else 1 + IndexOf(s[1..], c)
  }

  lemma IndexIs(s: string, c: char, i: nat)
    requires i < |s| && s[i] == c && forall j :: 0 <= j < i ==> s[j] != c
    ensures c in s && IndexOf(s, c) == i
  {
  }

  /** One entry; setenv refuses an empty name. */
  function ReadVar(e: string): Option<Var> {
    if '=' !in e || e[0] == '=' then None else Some(Var(e[..IndexOf(e, '=')], e[IndexOf(e, '=') + 1..]))
  }

  ghost predicate Ended(f: string) {
    f != [] ==> f[|f| - 1] == NUL
  }

  /** The environment that a file adds to env, or None for a malformed file. */
  ghost function Read(f: string, env: Env): Option<Env>
    requires Ended(f)
    decreases |f|
  {
    if f == [] then Some(env)
    else
      var n := IndexOf(f, NUL);
      var v := ReadVar(f[..n]);
      if v.None? then None else Read(f[n + 1..], env[v.value.name := v.value.value])
  }

  lemma {:induction false} LineReads(v: Var, rest: string)
    requires GoodVar(v) && Ended(rest)
    ensures Ended(Line(v) + rest) && NUL in Line(v) + rest && IndexOf(Line(v) + rest, NUL) == |Line(v)| - 1
    ensures (Line(v) + rest)[|Line(v)|..] == rest && ReadVar((Line(v) + rest)[..|Line(v)| - 1]) == Some(v)
  {
    var e := v.name + "=" + v.value;
    var f := Line(v) + rest;
    EntryReads(v);
    assert Line(v) == e + [NUL];
    assert forall i :: 0 <= i < |e| ==> f[i] == e[i];
    assert f[|e|] == NUL;
    IndexIs(f, NUL, |e|);
    assert f[..|e|] == e;
  }

  lemma {:induction false} EntryReads(v: Var)
    requires GoodVar(v)
    ensures NUL !in v.name + "=" + v.value && ReadVar(v.name + "=" + v.value) == Some(v)
  {
    var e, m := v.name + "=" + v.value, |v.name|;
    assert e[m] == '=' && forall i :: 0 <= i < m ==> e[i] == v.name[i];
    assert forall i :: m < i < |e| ==> e[i] == v.value[i - m - 1];
    IndexIs(e, '=', m);
    assert e[..m] == v.name && e[m + 1..] == v.value;
  }

  /** Reading what was written sets exactly the variables that were written, in order. */
  lemma {:induction false} ReadWritten(vs: seq<Var>, env: Env)
    requires Good(vs)
    ensures Ended(Encode(vs)) && Read(Encode(vs), env) == Some(SetAll(env, vs))
    decreases |vs|
  {
    if vs != [] {
      ReadWritten(vs[1..], env[vs[0].name := vs[0].value]);
      LineReads(vs[0], Encode(vs[1..]));
    }
  }

  lemma {:induction false} EndedAfter(vs: seq<Var>, f: string)
    requires f != [] && Ended(f)
    ensures Ended(Encode(vs) + f)
  {
    assert (Encode(vs) + f)[|Encode(vs) + f| - 1] == f[|f| - 1];
  }

  lemma {:induction false} ReadAfter(vs: seq<Var>, f: string, env: Env)
    requires Good(vs) && f != [] && Ended(f)
    ensures Ended(Encode(vs) + f) && Read(Encode(vs) + f, env) == Read(f, SetAll(env, vs))
    decreases |vs|
  {
    hide Read, Line, GoodVar;
    EndedAfter(vs, f);
    if vs == [] {
      assert [] + f == f;
    } else {
      EndedAfter(vs[1..], f);
      assert Line(vs[0]) + Encode(vs[1..]) + f == Line(vs[0]) + (Encode(vs[1..]) + f);
      ReadLine(vs[0], Encode(vs[1..]) + f, env);
      ReadAfter(vs[1..], f, env[vs[0].name := vs[0].value]);
    }
  }

  lemma {:induction false} ReadLine(v: Var, rest: string, env: Env)
    requires GoodVar(v) && Ended(rest)
    ensures Ended(Line(v) + rest) && Read(Line(v) + rest, env) == Read(rest, env[v.name := v.value])
  {
    LineReads(v, rest);
  }

  /** A file is refused as a whole if, behind any good entries, one has no = or starts with it. */
  lemma {:induction false} MalformedIsRefused(vs: seq<Var>, e: string, rest: string, env: Env)
    requires Good(vs) && NUL !in e && ('=' !in e || e[0] == '=') && Ended(rest)
    ensures Ended(Encode(vs) + (e + [NUL] + rest)) && Read(Encode(vs) + (e + [NUL] + rest), env) == None
  {
    var f := e + [NUL] + rest;
    assert Ended(f) by { if rest != [] { assert f[|f| - 1] == rest[|rest| - 1]; } }
    assert f[|e|] == NUL && forall i :: 0 <= i < |e| ==> f[i] == e[i];
    IndexIs(f, NUL, |e|);
    assert f[..|e|] == e;
    ReadAfter(vs, f, env);
  }

  lemma {:induction false} AlwaysEnded(vs: seq<Var>)
    ensures Ended(Encode(vs))
  {
    if vs != [] { AlwaysEnded(vs[1..]); }
  }

  ghost predicate GoodEnv(env: Env) {
    forall n :: n in env ==> GoodName(n) && NUL !in env[n]
  }

  /** Whatever the file, only good names and values come out of it. */
  lemma {:induction false} ReadIsGood(f: string, env: Env)
    requires Ended(f) && GoodEnv(env)
    ensures Read(f, env).Some? ==> GoodEnv(Read(f, env).value)
    decreases |f|
  {
    hide ReadVar;
    if f != [] {
      var n := IndexOf(f, NUL);
      var v := ReadVar(f[..n]);
      if v.Some? {
        EntryIsGood(f[..n]);
        ReadIsGood(f[n + 1..], env[v.value.name := v.value.value]);
      }
    }
  }

  lemma EntryIsGood(e: string)
    requires NUL !in e && ReadVar(e).Some?
    ensures GoodVar(ReadVar(e).value)
  {
  }

  ghost predicate DistinctNames(vs: seq<Var>) {
    forall i, j :: 0 <= i < j < |vs| ==> vs[i].name != vs[j].name
  }

  lemma {:induction false} SetOnce(env: Env, vs: seq<Var>, i: nat)
    requires DistinctNames(vs) && i < |vs|
    ensures vs[i].name in SetAll(env, vs) && SetAll(env, vs)[vs[i].name] == vs[i].value
    decreases |vs|
  {
    var t := vs[1..];
    if i > 0 {
      SetOnce(env[vs[0].name := vs[0].value], t, i - 1);
    } else {
      Untouched(env[vs[0].name := vs[0].value], t, vs[0].name);
    }
  }

  lemma {:induction false} Untouched(env: Env, vs: seq<Var>, k: string)
    requires k in env && forall i :: 0 <= i < |vs| ==> vs[i].name != k
    ensures k in SetAll(env, vs) && SetAll(env, vs)[k] == env[k]
    decreases |vs|
  {
    if vs != [] { Untouched(env[vs[0].name := vs[0].value], vs[1..], k); }
  }

  /** Variables of different names come back exactly when names are not empty and have no '=', and
      neither names nor values have a NUL. */
  lemma {:induction false} BackIffGood(vs: seq<Var>)
    requires DistinctNames(vs)
    ensures Ended(Encode(vs))
    ensures Read(Encode(vs), map[]) == Some(SetAll(map[], vs)) <==> Good(vs)
  {
    hide Read, Encode, SetAll;
    AlwaysEnded(vs);
    if Good(vs) {
      ReadWritten(vs, map[]);
    } else if Read(Encode(vs), map[]) == Some(SetAll(map[], vs)) {
      ReadIsGood(Encode(vs), map[]);
      forall i | 0 <= i < |vs| ensures GoodVar(vs[i]) { SetOnce(map[], vs, i); }
    }
  }

  lemma {:induction false} EntryAt(f: string, i: nat, n: nat, k: nat)
    requires i <= k <= n < |f| && f[n] == NUL && (forall j :: i <= j < n ==> f[j] != NUL)
    requires (forall j :: i <= j < k ==> f[j] != '=') && (k < n ==> f[k] == '=')
    ensures NUL in f[i..] && IndexOf(f[i..], NUL) == n - i
    ensures ReadVar(f[i..n]) == if k == n || k == i then None else Some(Var(f[i..k], f[k + 1..n]))
  {
    assert f[i..][n - i] == NUL && forall j :: 0 <= j < n - i ==> f[i..][j] == f[i + j];
    IndexIs(f[i..], NUL, n - i);
    EntryCut(f, i, n, k);
  }

  lemma {:induction false} EntryCut(f: string, i: nat, n: nat, k: nat)
    requires i <= k <= n < |f| && (forall j :: i <= j < k ==> f[j] != '=') && (k < n ==> f[k] == '=')
    ensures ReadVar(f[i..n]) == if k == n || k == i then None else Some(Var(f[i..k], f[k + 1..n]))
  {
    var e := f[i..n];
    assert forall j :: 0 <= j < |e| ==> e[j] == f[i + j];
    if k < n {
      IndexIs(e, '=', k - i);
      assert e[..k - i] == f[i..k] && e[k - i + 1..] == f[k + 1..n];
    }
  }

  // The end of the string at i.
  method StrLen(buf: array<char>, i: nat) returns (n: nat)
    requires i < buf.Length && buf[buf.Length - 1] == NUL
    ensures i <= n < buf.Length && buf[n] == NUL && forall j :: i <= j < n ==> buf[j] != NUL
  {
    n := i;
    while buf[n] != NUL
      invariant i <= n < buf.Length && forall j :: i <= j < n ==> buf[j] != NUL
      decreases buf.Length - n
    {
      n := n + 1;
    }
  }

  // The first '=' from i on, or n.
  method StrChr(buf: array<char>, i: nat, n: nat) returns (k: nat)
    requires i <= n < buf.Length
    ensures i <= k <= n && (forall j :: i <= j < k ==> buf[j] != '=') && (k < n ==> buf[k] == '=')
  {
    k := i;
    while k < n && buf[k] != '='
      invariant i <= k <= n && forall j :: i <= j < k ==> buf[j] != '='
    {
      k := k + 1;
    }
  }

  // The entry at i: strlen, strchr and the separator overwritten in place (diagexec.c lines 201-209).
  method NextVar(buf: array<char>, i: nat) returns (v: Option<Var>, next: nat)
    requires i < buf.Length && buf[buf.Length - 1] == NUL
    modifies buf
    ensures i < next <= buf.Length
    ensures var f := old(buf[..]);
            NUL in f[i..] && next == i + IndexOf(f[i..], NUL) + 1 && v == ReadVar(f[i..next - 1]) &&
              buf[next..] == f[next..]
  {
    hide IndexOf, ReadVar;
    ghost var f := buf[..];
    var n := StrLen(buf, i);
    next := n + 1;
    var k := StrChr(buf, i, n);
    EntryAt(f, i, n, k);
    if k == n || k == i { return None, next; }
    v := Some(Var(buf[i..k], buf[k + 1..n]));
    assert buf[i..k] == f[i..k] && buf[k + 1..n] == f[k + 1..n];
    buf[k] := NUL;
    assert buf[next..] == f[next..];
  }

  lemma {:induction false} ReadStep(f: string, i: nat, next: nat, env: Env)
    requires i < next <= |f| && f[|f| - 1] == NUL && NUL in f[i..] && next == i + IndexOf(f[i..], NUL) + 1
    ensures Ended(f[i..]) && Ended(f[next..])
    ensures var v := ReadVar(f[i..next - 1]);
            Read(f[i..], env) == if v.None? then None else Read(f[next..], env[v.value.name := v.value.value])
  {
    hide IndexOf, ReadVar;
    var r, n := f[i..], next - 1 - i;
    assert r[|r| - 1] == NUL && r[..n] == f[i..next - 1] && r[n + 1..] == f[next..];
  }

  // load_env on the mapped file (diagexec.c lines 190-211). None stands for an exit with an error.
  method Load(buf: array<char>) returns (env: Option<Env>)
    modifies buf
    ensures var f := old(buf[..]);
            if f == [] then env == Some(map[]) else Ended(f[|f| - 1 := NUL]) && env == Read(f[|f| - 1 := NUL], map[])
  {
    hide Read, ReadVar;
    if buf.Length == 0 { return Some(map[]); }
    buf[buf.Length - 1] := NUL;
    ghost var f := buf[..];
    var i: nat, e: Env := 0, map[];
    assert f[0..] == f;
    while i < buf.Length
      invariant 0 <= i <= buf.Length && buf[i..] == f[i..] && Ended(f[i..]) && Read(f[i..], e) == Read(f, map[])
      decreases buf.Length - i
    {
      ghost var g := buf[..];
      assert g[i..] == f[i..] && buf[buf.Length - 1] == f[i..][buf.Length - 1 - i];
      var v, next := NextVar(buf, i);
      assert f[i..next - 1] == f[i..][..next - 1 - i] == g[i..next - 1];
      assert f[next..] == f[i..][next - i..] == g[next..];
      ReadStep(f, i, next, e);
      if v.None? { return None; }
      e := e[v.value.name := v.value.value];
      i := next;
    }
    ReadNothing(e);
    return Some(e);
  }

  lemma ReadNothing(env: Env)
    ensures Read([], env) == Some(env)
  {
  }

  // Writing.

  ghost predicate Sets(vs: seq<Var>, name: string) {
    exists i :: 0 <= i < |vs| && vs[i].name == name
  }

  /** The defaults in some order, each name once: what a range over the map yields. */
  ghost predicate IsRange(order: seq<string>, defaults: Env) {
    multiset(order) == multiset(defaults.Keys)
  }

  /** The defaults that env does not set, in the given order. */
  ghost function Missing(defaults: Env, order: seq<string>, env: seq<Var>): seq<Var> {
    if order == [] then []
    else
      var k := order[0];
      (if k in defaults && !Sets(env, k) then [Var(k, defaults[k])] else []) + Missing(defaults, order[1..], env)
  }

  // env.Get
  method Exists(env: seq<Var>, name: string) returns (found: bool)
    ensures found <==> Sets(env, name)
  {
    for i := 0 to |env|
      invariant forall j :: 0 <= j < i ==> env[j].name != name
    {
      if env[i].name == name { return true; }
    }
    return false;
  }

  // writeEnvFile (pod.go lines 338-349).
  method Write(defaults: Env, order: seq<string>, env: seq<Var>) returns (file: string)
    ensures file == Encode(Missing(defaults, order, env) + env)
  {
    hide Encode, Sets;
    file := [];
    ghost var done: seq<Var> := [];
    EncodeNothing();
    for i := 0 to |order|
      invariant file == Encode(done) && done + Missing(defaults, order[i..], env) == Missing(defaults, order, env)
    {
      var k := order[i];
      var found := Exists(env, k);
      assert order[i..][1..] == order[i + 1..];
      if k in defaults && !found {
        EncodeOne(done, Var(k, defaults[k]));
        file := file + Line(Var(k, defaults[k]));
        done := done + [Var(k, defaults[k])];
      }
    }
    EncodeConcat(done, env);
    assert done + [] == done;
    for i := 0 to |env|
      invariant file == Encode(done) + Encode(env[..i])
    {
      EncodeOne(env[..i], env[i]);
      assert env[..i + 1] == env[..i] + [env[i]];
      file := file + Line(env[i]);
    }
    assert env[..|env|] == env;
  }

  lemma EncodeNothing()
    ensures Encode([]) == []
  {
  }

  lemma EncodeOne(a: seq<Var>, v: Var)
    ensures Encode(a + [v]) == Encode(a) + Line(v)
  {
    EncodeConcat(a, [v]);
    assert [v][1..] == [];
  }

  /** The variables of keep that the process has, in the order of keep. */
  ghost function Kept(keep: seq<string>, cur: Env): seq<Var> {
    if keep == [] then [] else (if keep[0] in cur then [Var(keep[0], cur[keep[0]])] else []) + Kept(keep[1..], cur)
  }

  // append_env (diagexec.c lines 151-175).
  method Append(file: string, keep: seq<string>, cur: Env) returns (file': string)
    ensures file' == file + Encode(Kept(keep, cur))
  {
    file' := file;
    ghost var done: seq<Var> := [];
    for i := 0 to |keep|
      invariant file' == file + Encode(done) && done + Kept(keep[i..], cur) == Kept(keep, cur)
    {
      assert keep[i..][1..] == keep[i + 1..];
      if keep[i] in cur {
        EncodeOne(done, Var(keep[i], cur[keep[i]]));
        file' := file' + Line(Var(keep[i], cur[keep[i]]));
        done := done + [Var(keep[i], cur[keep[i]])];
      }
    }
    assert done + [] == done;
  }

  // What the loaded environment holds.

  lemma {:induction false} SetAllAt(env: Env, vs: seq<Var>, k: string)
    ensures k in SetAll(env, vs) <==> Sets(vs, k) || k in env
    ensures !Sets(vs, k) && k in env ==> SetAll(env, vs)[k] == env[k]
    ensures Sets(vs, k) ==> k in SetAll(map[], vs) && SetAll(env, vs)[k] == SetAll(map[], vs)[k]
    decreases |vs|
  {
    if vs != [] {
      var n, t := vs[0].name, vs[1..];
      SetAllAt(env[n := vs[0].value], t, k);
      SetAllAt(map[][n := vs[0].value], t, k);
      if Sets(t, k) {
        var i :| 0 <= i < |t| && t[i].name == k;
        assert vs[i + 1].name == k;
      } else if n == k {
        assert vs[0].name == k;
      }
    }
  }

  lemma {:induction false} MissingAt(defaults: Env, order: seq<string>, env: seq<Var>, k: string, m: Env)
    requires k in m ==> k in defaults && m[k] == defaults[k]
    ensures var r := SetAll(m, Missing(defaults, order, env));
            (k in r <==> k in m || (k in order && k in defaults && !Sets(env, k))) &&
              (k in r ==> k in defaults && r[k] == defaults[k])
    decreases |order|
  {
    if order != [] {
      var h, t := order[0], order[1..];
      assert order == [h] + t;
      if h in defaults && !Sets(env, h) {
        var v := Var(h, defaults[h]);
        assert Missing(defaults, order, env) == [v] + Missing(defaults, t, env);
        assert ([v] + Missing(defaults, t, env))[1..] == Missing(defaults, t, env);
        MissingAt(defaults, t, env, k, m[h := defaults[h]]);
      } else {
        assert Missing(defaults, order, env) == Missing(defaults, t, env);
        MissingAt(defaults, t, env, k, m);
      }
    }
  }

  /** Whatever the order of the defaults, the written file stands for the defaults overridden by env. */
  lemma {:induction false} DefaultsOverridden(defaults: Env, order: seq<string>, env: seq<Var>)
    requires IsRange(order, defaults)
    ensures SetAll(map[], Missing(defaults, order, env) + env) == SetAll(defaults, env)
  {
    var m := SetAll(map[], Missing(defaults, order, env));
    SetConcat(map[], Missing(defaults, order, env), env);
    var x, y := SetAll(m, env), SetAll(defaults, env);
    forall k ensures (k in x <==> k in y) && (k in x ==> x[k] == y[k]) {
      SetAllAt(m, env, k);
      SetAllAt(defaults, env, k);
      MissingAt(defaults, order, env, k, map[]);
      assert k in order <==> k in multiset(order);
    }
  }

  /** The variables kept by one run of diagexec after another. */
  ghost function AllKept(keep: seq<string>, curs: seq<Env>): seq<Var> {
    if curs == [] then [] else AllKept(keep, curs[..|curs| - 1]) + Kept(keep, curs[|curs| - 1])
  }

  /** The value that the latest run with k in its environment had for it. */
  ghost function Latest(curs: seq<Env>, k: string): Option<string> {
    if curs == [] then None
    else if k in curs[|curs| - 1] then Some(curs[|curs| - 1][k])
    else Latest(curs[..|curs| - 1], k)
  }

  lemma {:induction false} KeptAt(env: Env, keep: seq<string>, cur: Env, k: string)
    ensures var r := SetAll(env, Kept(keep, cur));
            if k in keep && k in cur then k in r && r[k] == cur[k]
            else (k in r <==> k in env) && (k in env ==> r[k] == env[k])
    decreases |keep|
  {
    if keep != [] {
      var h, t := keep[0], keep[1..];
      assert keep == [h] + t;
      if h in cur {
        var v := Var(h, cur[h]);
        assert Kept(keep, cur) == [v] + Kept(t, cur) && ([v] + Kept(t, cur))[1..] == Kept(t, cur);
        KeptAt(env[h := cur[h]], t, cur, k);
      } else {
        assert Kept(keep, cur) == Kept(t, cur);
        KeptAt(env, t, cur, k);
      }
    }
  }

  /** After any runs of diagexec a kept variable has its value of the latest run that had it. */
  lemma {:induction false} AllKeptAt(env: Env, keep: seq<string>, curs: seq<Env>, k: string)
    ensures var r, v := SetAll(env, AllKept(keep, curs)), Latest(curs, k);
            if k in keep && v.Some? then k in r && r[k] == v.value
            else (k in r <==> k in env) && (k in env ==> r[k] == env[k])
    decreases |curs|
  {
    if curs != [] {
      var init, last := curs[..|curs| - 1], curs[|curs| - 1];
      SetConcat(env, AllKept(keep, init), Kept(keep, last));
      AllKeptAt(env, keep, init, k);
      KeptAt(SetAll(env, AllKept(keep, init)), keep, last, k);
    }
  }

  /** Every variable to be kept that the last run lacks has, from the latest run that had it, the value
      that env gives it anyway. */
  ghost predicate NothingLingers(env: Env, keep: seq<string>, curs: seq<Env>)
    requires curs != []
  {
    forall k :: k in keep && k !in curs[|curs| - 1] && Latest(curs, k).Some? ==>
      k in env && env[k] == Latest(curs, k).value
  }

  /** After any number of runs the environment is what the last run alone would have made of it if and
      only if nothing lingers from an earlier one. */
  lemma {:induction false} KeptAgain(env: Env, keep: seq<string>, curs: seq<Env>)
    requires curs != []
    ensures SetAll(env, AllKept(keep, curs)) == SetAll(env, Kept(keep, curs[|curs| - 1])) <==>
            NothingLingers(env, keep, curs)
  {
    hide SetAll, AllKept, Kept;
    var last := curs[|curs| - 1];
    var x, y := SetAll(env, AllKept(keep, curs)), SetAll(env, Kept(keep, last));
    forall k ensures (k in keep && k !in last && Latest(curs, k).Some? ==> k in env && env[k] == Latest(curs, k).value)
                     <==> ((k in x <==> k in y) && (k in x && k in y ==> x[k] == y[k])) {
      AllKeptAt(env, keep, curs, k);
      KeptAt(env, keep, last, k);
    }
    if NothingLingers(env, keep, curs) {
      assert forall k :: (k in x <==> k in y) && (k in x && k in y ==> x[k] == y[k]);
    }
  }

  /** Runs that all have the same environment leave nothing behind. */
  lemma {:induction false} SameAgain(env: Env, keep: seq<string>, cur: Env, curs: seq<Env>)
    requires curs != [] && forall i :: 0 <= i < |curs| ==> curs[i] == cur
    ensures SetAll(env, AllKept(keep, curs)) == SetAll(env, Kept(keep, cur))
  {
    KeptAgain(env, keep, curs);
    forall k | k in keep && k !in cur ensures Latest(curs, k).None? { NeverHad(curs, k); }
  }

  lemma {:induction false} NeverHad(curs: seq<Env>, k: string)
    requires forall i :: 0 <= i < |curs| ==> k !in curs[i]
    ensures Latest(curs, k).None?
    decreases |curs|
  {
    if curs != [] { NeverHad(curs[..|curs| - 1], k); }
  }

  /** A variable of the first run lingers when the second has none. */
  lemma {:induction false} Lingers()
    ensures var keep, curs := ["L"], [map["L" := "1"], map[]];
            && SetAll(map[], AllKept(keep, curs)) == map["L" := "1"]
            && SetAll(map[], Kept(keep, curs[1])) == map[]
  {
    var keep, curs: seq<Env> := ["L"], [map["L" := "1"], map[]];
    var x, y := SetAll(map[], AllKept(keep, curs)), SetAll(map[], Kept(keep, curs[1]));
    assert curs[..1][0] == map["L" := "1"];
    forall k ensures (k in x <==> k == "L") && (k == "L" ==> x[k] == "1") && k !in y {
      AllKeptAt(map[], keep, curs, k);
      KeptAt(map[], keep, curs[1], k);
    }
  }

  lemma {:induction false} GoodMissing(defaults: Env, order: seq<string>, env: seq<Var>)
    requires GoodEnv(defaults)
    ensures Good(Missing(defaults, order, env))
  {
    if order != [] { GoodMissing(defaults, order[1..], env); }
  }

  lemma {:induction false} GoodKept(keep: seq<string>, cur: Env)
    requires GoodFor(keep, cur)
    ensures Good(Kept(keep, cur))
  {
    if keep != [] {
      assert keep[0] in keep;
      GoodKept(keep[1..], cur);
    }
  }

  lemma {:induction false} GoodAllKept(keep: seq<string>, curs: seq<Env>)
    requires forall i :: 0 <= i < |curs| ==> GoodFor(keep, curs[i])
    ensures Good(AllKept(keep, curs))
    decreases |curs|
  {
    if curs != [] {
      GoodAllKept(keep, curs[..|curs| - 1]);
      GoodKept(keep, curs[|curs| - 1]);
    }
  }

  ghost predicate GoodFor(keep: seq<string>, cur: Env) {
    forall n :: n in keep && n in cur ==> GoodName(n) && NUL !in cur[n]
  }

  method AppendAll(file: string, keep: seq<string>, curs: seq<Env>) returns (file': string)
    ensures file' == file + Encode(AllKept(keep, curs))
  {
    hide Encode, Kept;
    EncodeNothing();
    file' := file;
    for i := 0 to |curs|
      invariant file' == file + Encode(AllKept(keep, curs[..i]))
    {
      assert curs[..i + 1][..i] == curs[..i];
      EncodeConcat(AllKept(keep, curs[..i]), Kept(keep, curs[i]));
      file' := Append(file', keep, curs[i]);
    }
    assert curs[..|curs|] == curs;
  }

  method LoadFile(file: string) returns (r: Option<Env>)
    requires Ended(file)
    ensures r == Read(file, map[])
  {
    hide Read;
    var buf := new char[|file|](j requires 0 <= j < |file| => file[j]);
    assert buf[..] == file;
    if file != [] { assert file[|file| - 1 := NUL] == file; }
    ReadNothing(map[]);
    r := Load(buf);
  }

  /** From writeEnvFile through any number of runs of diagexec: the last one loads the defaults overridden
      by the app's environment and then by what each run kept. */
  method WriteAndLoad(defaults: Env, order: seq<string>, env: seq<Var>, keep: seq<string>, curs: seq<Env>)
    returns (r: Option<Env>)
    requires IsRange(order, defaults)
    ensures var all := Missing(defaults, order, env) + env + AllKept(keep, curs);
            && Ended(Encode(all)) && r == Read(Encode(all), map[])
            && SetAll(map[], all) == SetAll(SetAll(defaults, env), AllKept(keep, curs))
            && (GoodRun(defaults, env, keep, curs) ==> r == Some(SetAll(map[], all)))
    ensures GoodRun(defaults, env, keep, curs) && curs != [] ==>
              (r == Some(SetAll(SetAll(defaults, env), Kept(keep, curs[|curs| - 1]))) <==>
               NothingLingers(SetAll(defaults, env), keep, curs))
  {
    hide Read, Encode, Missing, GoodVar, SetAll, AllKept, Kept, NothingLingers;
    var file := Write(defaults, order, env);
    ghost var base, kept := Missing(defaults, order, env) + env, AllKept(keep, curs);
    file := AppendAll(file, keep, curs);
    EncodeConcat(base, kept);
    AlwaysEnded(base + kept);
    SetConcat(map[], base, kept);
    DefaultsOverridden(defaults, order, env);
    if GoodRun(defaults, env, keep, curs) {
      GoodMissing(defaults, order, env);
      GoodAllKept(keep, curs);
      ReadWritten(base + kept, map[]);
      if curs != [] { KeptAgain(SetAll(defaults, env), keep, curs); }
    }
    r := LoadFile(file);
  }

  ghost predicate GoodRun(defaults: Env, env: seq<Var>, keep: seq<string>, curs: seq<Env>) {
    GoodEnv(defaults) && Good(env) && forall i :: 0 <= i < |curs| ==> GoodFor(keep, curs[i])
  }
}
