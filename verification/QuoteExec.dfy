// Quoting of an argument vector for a systemd unit (stage1/init/pod.go).

module QuoteExec {
  import opened Options

  // strings.Replace of every occurrence of one character.
  function Replace(s: string, c: char, r: string): string {
    if s == [] then [] else (if s[0] == c then r else [s[0]]) + Replace(s[1..], c, r)
  }

  lemma {:induction false} ReplaceConcat(a: string, b: string, c: char, r: string)
    ensures Replace(a + b, c, r) == Replace(a, c, r) + Replace(b, c, r)
  {
    if a == [] {
      assert a + b == b;
    } else {
      assert (a + b)[0] == a[0] && (a + b)[1..] == a[1..] + b;
      ReplaceConcat(a[1..], b, c, r);
    }
  }

  /** The escape of one character. */
  function Esc(c: char): string {
    if c == '\\' then "\\\\"
    else if c == '"' then "\\\""
    else if c == '\'' then "\\'"
    else if c == '$' then "$$"
    else [c]
  }

  function EscAll(s: string): string {
    if s == [] then [] else Esc(s[0]) + EscAll(s[1..])
  }

  /** The four replacements in a row, as in lines 123-126. */
  function FourSteps(s: string): string {
    Replace(Replace(Replace(Replace(s, '\\', "\\\\"), '"', "\\\""), '\'', "\\'"), '$', "$$")
  }

  lemma {:induction false} FourStepsConcat(a: string, b: string)
    ensures FourSteps(a + b) == FourSteps(a) + FourSteps(b)
  {
    ReplaceConcat(a, b, '\\', "\\\\");
    var a1, b1 := Replace(a, '\\', "\\\\"), Replace(b, '\\', "\\\\");
    ReplaceConcat(a1, b1, '"', "\\\"");
    var a2, b2 := Replace(a1, '"', "\\\""), Replace(b1, '"', "\\\"");
    ReplaceConcat(a2, b2, '\'', "\\'");
    ReplaceConcat(Replace(a2, '\'', "\\'"), Replace(b2, '\'', "\\'"), '$', "$$");
  }

  lemma ReplaceOne(x: char, c: char, r: string)
    ensures Replace([x], c, r) == if x == c then r else [x]
  {
    assert [x][1..] == [];
  }

  lemma ReplaceTwo(x: char, y: char, c: char, r: string)
    requires x != c && y != c
    ensures Replace([x, y], c, r) == [x, y]
  {
    assert [x, y] == [x] + [y];
    ReplaceConcat([x], [y], c, r);
    ReplaceOne(x, c, r);
    ReplaceOne(y, c, r);
  }

  lemma FourStepsOne(x: char)
    ensures FourSteps([x]) == Esc(x)
  {
    ReplaceOne(x, '\\', "\\\\");
    ReplaceOne(x, '"', "\\\"");
    ReplaceOne(x, '\'', "\\'");
    ReplaceOne(x, '$', "$$");
    ReplaceTwo('\\', '\\', '"', "\\\"");
    ReplaceTwo('\\', '\\', '\'', "\\'");
    ReplaceTwo('\\', '\\', '$', "$$");
    ReplaceTwo('\\', '"', '\'', "\\'");
    ReplaceTwo('\\', '"', '$', "$$");
    ReplaceTwo('\\', '\'', '$', "$$");
  }

  /** No replacement disturbs another: together they escape each character on its own. */
  lemma {:induction false} FourStepsIsEscape(s: string)
    ensures FourSteps(s) == EscAll(s)
  {
    if s != [] {
      assert s == [s[0]] + s[1..];
      FourStepsConcat([s[0]], s[1..]);
      FourStepsOne(s[0]);
      FourStepsIsEscape(s[1..]);
    }
  }

  function Quoted(arg: string): string {
    "\"" + EscAll(arg) + "\""
  }

  function Args(args: seq<string>): string {
    if args == [] then [] else " " + Quoted(args[0]) + Args(args[1..])
  }

  lemma {:induction false} ArgsSnoc(a: seq<string>, x: string)
    ensures Args(a + [x]) == Args(a) + " " + Quoted(x)
  {
    if a == [] {
      assert a + [x] == [x] && [x][1..] == [];
      assert Args([x]) == " " + Quoted(x) + [];
    } else {
      assert (a + [x])[0] == a[0] && (a + [x])[1..] == a[1..] + [x];
      ArgsSnoc(a[1..], x);
      assert " " + Quoted(a[0]) + (Args(a[1..]) + " " + Quoted(x)) == (" " + Quoted(a[0]) + Args(a[1..])) + " " +
        Quoted(x);
    }
  }

  // quoteExec (lines 110-132). None stands for the panic on an empty vector.
  method Quote(exec: seq<string>) returns (line: Option<string>)
    ensures line == if exec == [] then None else Some(exec[0] + Args(exec[1..]))
  {
    if exec == [] { return None; }
    hide Args, FourSteps, EscAll;
    var s := exec[0];
    NoArgs();
    assert exec[1..1] == [] && s + [] == s;
    for i := 1 to |exec|
      invariant s == exec[0] + Args(exec[1..i])
    {
      FourStepsIsEscape(exec[i]);
      QuoteStep(exec[0], exec[1..i], exec[i]);
      assert exec[1..i + 1] == exec[1..i] + [exec[i]];
      s := s + " " + ("\"" + FourSteps(exec[i]) + "\"");
    }
    assert exec[1..|exec|] == exec[1..];
    return Some(s);
  }

  lemma {:induction false} QuoteStep(w: string, a: seq<string>, x: string)
    ensures w + Args(a) + " " + Quoted(x) == w + Args(a + [x])
  {
    hide Args, Quoted;
    ArgsSnoc(a, x);
    assert w + (Args(a) + " " + Quoted(x)) == w + Args(a) + " " + Quoted(x);
  }

  // Reading a line back as systemd does: a first word up to a space, then double-quoted words in which a
  // backslash starts an escape and $$ stands for $.

  datatype Word = Open | Closed(text: string, rest: string)

  /** What a backslash and c stand for; numeric escapes and unknown ones are not read. */
  function Escape(c: char): Option<char> {
    if c == '\\' || c == '"' || c == '\'' then Some(c)
    else if c == 'a' then Some('\U{7}')
    else if c == 'b' then Some('\U{8}')
    else if c == 'f' then Some('\U{C}')
    else if c == 'n' then Some('\n')
    else if c == 'r' then Some('\r')
    else if c == 's' then Some(' ')
    else if c == 't' then Some('\t')
    else if c == 'v' then Some('\U{B}')
    else None
  }

  function Unquote(s: string): Word
    decreases |s|
  {
    if s == [] then Open
    else if s[0] == '"' then Closed("", s[1..])
    else if s[0] == '\\' then if |s| < 2 || Escape(s[1]).None? then Open else Then(Escape(s[1]).value, Unquote(s[2..]))
    else if |s| > 1 && s[0] == '$' && s[1] == '$' then Then('$', Unquote(s[2..]))
    else Then(s[0], Unquote(s[1..]))
  }

  function Then(c: char, w: Word): Word {
    if w.Open? then Open else Closed([c] + w.text, w.rest)
  }

  lemma UnquoteOne(c: char, t: string)
    requires Unquote(t).Closed?
    ensures Unquote(Esc(c) + t) == Closed([c] + Unquote(t).text, Unquote(t).rest)
  {
    var e, s := Esc(c), Esc(c) + t;
    assert s[0] == e[0] && s[|e|..] == t;
    if |e| == 2 { assert s[1] == e[1]; }
  }

  lemma {:induction false} UnquoteEsc(arg: string, rest: string)
    ensures Unquote(EscAll(arg) + "\"" + rest) == Closed(arg, rest)
  {
    if arg == [] {
      assert (EscAll(arg) + "\"" + rest)[1..] == rest;
    } else {
      var t := EscAll(arg[1..]) + "\"" + rest;
      UnquoteEsc(arg[1..], rest);
      UnquoteOne(arg[0], t);
      assert EscAll(arg) + "\"" + rest == Esc(arg[0]) + t;
      assert arg == [arg[0]] + arg[1..];
    }
  }

  lemma {:induction false} UnquoteShorter(s: string)
    ensures Unquote(s).Closed? ==> |Unquote(s).rest| < |s|
    decreases |s|
  {
    if s != [] && s[0] != '"' {
      UnquoteShorter(s[1..]);
      if |s| > 1 { UnquoteShorter(s[2..]); }
    }
  }

  function ReadArgs(s: string): Option<seq<string>>
    decreases |s|
  {
    if s == [] then Some([])
    else if |s| < 2 || s[0] != ' ' || s[1] != '"' then None
    else
      var w := Unquote(s[2..]);
      UnquoteShorter(s[2..]);
      if w.Open? then None
      else
        var r := ReadArgs(w.rest);
        if r.None? then None else Some([w.text] + r.value)
  }

  lemma {:induction false} ReadArgsBack(args: seq<string>)
    ensures ReadArgs(Args(args)) == Some(args)
  {
    if args != [] {
      var s, t := Args(args), Args(args[1..]);
      assert s[2..] == EscAll(args[0]) + "\"" + t;
      UnquoteEsc(args[0], t);
      ReadArgsBack(args[1..]);
      assert args == [args[0]] + args[1..];
    }
  }

  function FirstSpace(s: string): (i: nat)
    ensures i <= |s| && ' ' !in s[..i] && (i < |s| ==> s[i] == ' ')
  {
    if s == [] || s[0] == ' ' then 0
    else
      assert forall i: nat :: i < |s| ==> s[..i + 1] == [s[0]] + s[1..][..i];
      1 + FirstSpace(s[1..])
  }

  function ReadLine(line: string): Option<seq<string>> {
    var i := FirstSpace(line);
    var r := ReadArgs(line[i..]);
    if r.None? then None else Some([line[..i]] + r.value)
  }

  lemma {:induction false} FirstSpaceIs(w: string, rest: string)
    requires ' ' !in w && (rest != [] ==> rest[0] == ' ')
    ensures FirstSpace(w + rest) == |w|
  {
    if w == [] {
      assert w + rest == rest;
    } else {
      assert (w + rest)[0] == w[0] && (w + rest)[1..] == w[1..] + rest;
      FirstSpaceIs(w[1..], rest);
    }
  }

  /** The line gives the vector back exactly when its first word has no space. */
  lemma {:induction false} ReadBack(exec: seq<string>)
    requires exec != []
    ensures ReadLine(exec[0] + Args(exec[1..])) == Some(exec) <==> ' ' !in exec[0]
  {
    var w, rest := exec[0], Args(exec[1..]);
    if ' ' !in w {
      FirstSpaceIs(w, rest);
      ReadArgsBack(exec[1..]);
      assert (w + rest)[..|w|] == w && (w + rest)[|w|..] == rest;
      assert exec == [exec[0]] + exec[1..];
    } else {
      var r := ReadLine(w + rest);
      assert r.Some? ==> r.value[0] == (w + rest)[..FirstSpace(w + rest)];
    }
  }

  // Which vectors share a line.

  function LineOf(exec: seq<string>): string
    requires exec != []
  {
    exec[0] + Args(exec[1..])
  }

  lemma {:induction false} ArgsConcat(a: seq<string>, b: seq<string>)
    ensures Args(a + b) == Args(a) + Args(b)
  {
    if a == [] {
      assert a + b == b;
    } else {
      assert (a + b)[0] == a[0] && (a + b)[1..] == a[1..] + b;
      ArgsConcat(a[1..], b);
    }
  }

  // Every quote inside an escaped argument has a backslash before it.
  lemma {:induction false} QuoteEscaped(s: string, i: nat)
    requires i < |EscAll(s)| && EscAll(s)[i] == '"'
    ensures i > 0 && EscAll(s)[i - 1] == '\\'
  {
    var e := Esc(s[0]);
    if i >= |e| { QuoteEscaped(s[1..], i - |e|); }
  }

  lemma {:induction false} SplitPrefix(q: string, t: string, d: string, r: string)
    requires q + t == d + r && |q| <= |d|
    ensures d == q + d[|q|..] && t == d[|q|..] + r
  {
    var l := q + t;
    assert d == l[..|d|] && q == l[..|q|] && t == l[|q|..];
    assert (d + r)[|q|..] == d[|q|..] + r;
  }

  lemma {:induction false} ArgsStart(b: seq<string>)
    requires b != []
    ensures Args(b) == " \"" + (EscAll(b[0]) + "\"" + Args(b[1..]))
  {
  }

  // An escaped argument that is followed by its closing quote and starts with a space and a quote is a space.
  lemma {:induction false} JustSpace(c: string, t: string, u: string)
    requires EscAll(c) + "\"" + t == " \"" + u
    ensures t == u
  {
    var e := EscAll(c);
    var l := e + "\"" + t;
    assert l[0] == ' ' && l[1] == '"' && l[|e|] == '"' && forall i :: 0 <= i < |e| ==> l[i] == e[i];
    if |e| > 1 { QuoteEscaped(c, 1); }
    assert |e| == 1 && l[2..] == t && (" \"" + u)[2..] == u;
  }

  // The rest of a line from inside an argument is no list of arguments: its quotes do not pair up.
  lemma {:induction false} NeverInside(c: string, a: seq<string>, b: seq<string>)
    ensures EscAll(c) + "\"" + Args(a) != Args(b)
    decreases |a| + |b|
  {
    if b != [] {
      hide Args, EscAll;
      ArgsStart(b);
      var u := EscAll(b[0]) + "\"" + Args(b[1..]);
      if EscAll(c) + "\"" + Args(a) == " \"" + u {
        JustSpace(c, Args(a), u);
        NeverInside(b[0], b[1..], a);
      }
    }
  }

  // An argument list that ends another one starts at one of its arguments.
  lemma {:induction false} SuffixIsArgs(a: seq<string>, d: string, b: seq<string>) returns (i: nat)
    requires Args(a) == d + Args(b)
    ensures i <= |a| && d == Args(a[..i]) && b == a[i..]
    decreases |a|, 1
  {
    if d == [] {
      assert d + Args(b) == Args(b);
      ReadArgsBack(a);
      ReadArgsBack(b);
      return 0;
    }
    assert a != [];
    var q := " " + Quoted(a[0]);
    assert Args(a) == q + Args(a[1..]);
    if |d| < |q| {
      NotWithin(a, d, b);
      assert false;
    }
    i := FurtherArgs(a, q, d, b);
  }

  lemma {:induction false} FurtherArgs(a: seq<string>, q: string, d: string, b: seq<string>) returns (i: nat)
    requires a != [] && q == " " + Quoted(a[0]) && q + Args(a[1..]) == d + Args(b) && |q| <= |d|
    ensures i <= |a| && d == Args(a[..i]) && b == a[i..]
    decreases |a|, 0
  {
    hide Quoted;
    SplitPrefix(q, Args(a[1..]), d, Args(b));
    var j := SuffixIsArgs(a[1..], d[|q|..], b);
    assert a[..j + 1][0] == a[0] && a[..j + 1][1..] == a[1..][..j];
    i := j + 1;
  }

  // Behind the opening quote a space and a quote come together only at the end of the argument.
  lemma {:induction false} SpaceQuote(c: string, s: string, n: nat)
    requires |s| >= |EscAll(c)| + 3 && s[..|EscAll(c)| + 3] == " \"" + EscAll(c) + "\""
    requires 0 < n < |EscAll(c)| + 3 && n + 1 < |s| && s[n] == ' ' && s[n + 1] == '"'
    ensures n == |EscAll(c)| + 1
  {
    var e := EscAll(c);
    var h := s[..|e| + 3];
    assert h[1] == '"' && h[|e| + 2] == '"' && forall i :: 0 <= i < |e| ==> h[i + 2] == e[i];
    assert s[1] == h[1] && s[|e| + 2] == h[|e| + 2] && h[n] == s[n];
    if n < |e| + 1 {
      assert h[n + 1] == s[n + 1];
      QuoteEscaped(c, n - 1);
    }
  }

  lemma {:induction false} NotWithin(a: seq<string>, d: string, b: seq<string>)
    requires a != [] && 0 < |d| < |Quoted(a[0])| + 1
    ensures Args(a) != d + Args(b)
  {
    hide EscAll;
    var e, t, s, r, n := EscAll(a[0]), Args(a[1..]), Args(a), Args(b), |d|;
    assert s == " \"" + e + "\"" + t;
    if s == d + r {
      assert r == s[n..] && b != [];
      assert r[0] == ' ' && r[1] == '"' && s[n] == r[0] && s[n + 1] == r[1];
      SpaceQuote(a[0], s, n);
      assert r[2..] == s[n + 2..] == t;
      assert r[2..] == EscAll(b[0]) + "\"" + Args(b[1..]);
      NeverInside(b[0], b[1..], a[1..]);
    }
  }

  /** The first word of y is that of x with x's first i arguments behind it, and y has the others. */
  ghost predicate Swallows(x: seq<string>, y: seq<string>, i: nat)
    requires x != [] && y != []
  {
    0 < i < |x| && y[0] == x[0] + Args(x[1..i + 1]) && y[1..] == x[i + 1..]
  }

  lemma {:induction false} SwallowedLine(x: seq<string>, y: seq<string>, i: nat)
    requires x != [] && y != [] && Swallows(x, y, i)
    ensures LineOf(x) == LineOf(y) && x != y
  {
    hide Args;
    var p, q := x[1..i + 1], x[i + 1..];
    assert x[1..] == p + q && |y| == |q| + 1;
    ArgsConcat(p, q);
    assert x[0] + (Args(p) + Args(q)) == x[0] + Args(p) + Args(q);
  }

  lemma NoArgs()
    ensures Args([]) == []
  {
  }

  lemma {:induction false} LongerWord(x: seq<string>, y: seq<string>) returns (i: nat)
    requires x != [] && y != [] && LineOf(x) == LineOf(y) && |x[0]| <= |y[0]|
    ensures x == y || Swallows(x, y, i)
  {
    hide Args;
    var v, w, a, b := x[0], y[0], x[1..], y[1..];
    SplitPrefix(v, Args(a), w, Args(b));
    i := SuffixIsArgs(a, w[|v|..], b);
    NoArgs();
    assert a[..i] == x[1..i + 1] && a[i..] == x[i + 1..];
    if i == 0 {
      assert a[..i] == [] && a[i..] == a && w == v + [] == v;
      assert x == [v] + a && y == [w] + b;
    } else {
      assert Swallows(x, y, i);
    }
  }

  /** Two different vectors share a line if and only if the first word of one is the first word of the
      other followed by some of its quoted arguments, and the remaining arguments agree. */
  lemma {:induction false} SharedLine(x: seq<string>, y: seq<string>)
    requires x != [] && y != [] && x != y
    ensures LineOf(x) == LineOf(y) <==> exists i: nat :: Swallows(x, y, i) || Swallows(y, x, i)
  {
    hide LineOf, Swallows;
    if LineOf(x) == LineOf(y) {
      if |x[0]| <= |y[0]| {
        var i := LongerWord(x, y);
        assert Swallows(x, y, i);
      } else {
        var i := LongerWord(y, x);
        assert Swallows(y, x, i);
      }
    } else {
      forall i: nat ensures !Swallows(x, y, i) && !Swallows(y, x, i) {
        if Swallows(x, y, i) { SwallowedLine(x, y, i); }
        if Swallows(y, x, i) { SwallowedLine(y, x, i); }
      }
    }
  }

  /** Without that condition two vectors can share a line. */
  lemma SpaceIsAmbiguous()
    ensures ["a", "b"] != ["a \"b\""] && "a" + Args(["b"]) == "a \"b\"" + Args([])
  {
    assert "b"[1..] == [] && ["b"][1..] == [];
    assert EscAll("b") == "b" + [];
  }
}
