// The file lists that the build tools exchange (tools/common/filelist/filelist.go).

module Filelist {
  import opened Options

  datatype Lists = Lists(files: seq<string>, symlinks: seq<string>, dirs: seq<string>)

  datatype Result<+T> = Ok(value: T) | Err | Panic

  // Lines, as bufio.ScanLines splits them: a carriage return before the newline is dropped.

  function DropCR(s: string): string {
    if s != [] && s[|s| - 1] == '\r' then s[..|s| - 1] else s
  }

  function LineEnd(s: string): (i: nat)
    ensures i <= |s| && (i < |s| ==> s[i] == '\n') && forall j :: 0 <= j < i ==> s[j] != '\n'
  {
    if s == [] || s[0] == '\n' then 0 else 1 + LineEnd(s[1..])
  }

  function Lines(s: string): seq<string>
    decreases |s|
  {
    if s == [] then []
    else
      var i := LineEnd(s);
      if i == |s| then [DropCR(s)] else [DropCR(s[..i])] + Lines(s[i + 1..])
  }

  function Unlines(ls: seq<string>): string {
    if ls == [] then [] else ls[0] + "\n" + Unlines(ls[1..])
  }

  /** A line that survives being written and scanned. */
  ghost predicate Plain(s: string) {
    '\n' !in s && (s != [] ==> s[|s| - 1] != '\r')
  }

  lemma {:induction false} LineEndIs(s: string, i: nat)
    requires i < |s| && s[i] == '\n' && forall j :: 0 <= j < i ==> s[j] != '\n'
    ensures LineEnd(s) == i
  {
    if i > 0 { LineEndIs(s[1..], i - 1); }
  }

  function DropAll(ls: seq<string>): seq<string> {
    seq(|ls|, i requires 0 <= i < |ls| => DropCR(ls[i]))
  }

  /** Lines without a newline come back without their final carriage returns, whatever text follows. */
  lemma {:induction false} LinesDropped(ls: seq<string>, rest: string)
    requires forall i :: 0 <= i < |ls| ==> '\n' !in ls[i]
    ensures Lines(Unlines(ls) + rest) == DropAll(ls) + Lines(rest)
  {
    hide Lines, Unlines, DropCR;
    UnlinesStep(ls);
    if ls == [] {
      assert [] + rest == rest && DropAll(ls) + Lines(rest) == Lines(rest);
    } else {
      var t := Unlines(ls[1..]) + rest;
      assert ls[0] + "\n" + Unlines(ls[1..]) + rest == ls[0] + "\n" + t;
      FirstLine(ls[0], t);
      LinesDropped(ls[1..], rest);
      DropStep(ls);
      assert [DropCR(ls[0])] + (DropAll(ls[1..]) + Lines(rest)) == [DropCR(ls[0])] + DropAll(ls[1..]) + Lines(rest);
    }
  }

  lemma UnlinesStep(ls: seq<string>)
    ensures Unlines(ls) == if ls == [] then [] else ls[0] + "\n" + Unlines(ls[1..])
  {
  }

  lemma DropStep(ls: seq<string>)
    requires ls != []
    ensures DropAll(ls) == [DropCR(ls[0])] + DropAll(ls[1..])
  {
  }

  lemma {:induction false} FirstLine(l: string, t: string)
    requires '\n' !in l
    ensures Lines(l + "\n" + t) == [DropCR(l)] + Lines(t)
  {
    var s := l + "\n" + t;
    assert forall j :: 0 <= j < |l| ==> s[j] == l[j];
    assert s[|l|] == '\n';
    LineEndIs(s, |l|);
    assert s[..|l|] == l && s[|l| + 1..] == t;
  }

  lemma {:induction false} NoNewlineInLines(s: string, i: nat)
    requires i < |Lines(s)|
    ensures '\n' !in Lines(s)[i]
    decreases |s|
  {
    var e := LineEnd(s);
    if e < |s| && i > 0 { NoNewlineInLines(s[e + 1..], i - 1); }
  }

  lemma {:induction false} UnlinesConcat(a: seq<string>, b: seq<string>)
    ensures Unlines(a + b) == Unlines(a) + Unlines(b)
  {
    if a == [] {
      assert a + b == b;
    } else {
      assert (a + b)[0] == a[0] && (a + b)[1..] == a[1..] + b;
      UnlinesConcat(a[1..], b);
    }
  }

  // Counts.

  const MAX_INT: int := 0x7FFF_FFFF_FFFF_FFFF

  // The largest capacity with which make does not panic: it depends on the runtime.
  type Capacity = n: nat | n <= MAX_INT
  const MAX_CAP: Capacity

  function Digit(d: nat): char
    requires d < 10
  {
    ['0', '1', '2', '3', '4', '5', '6', '7', '8', '9'][d]
  }

  function DigitOf(c: char): Option<nat> {
    if '0' <= c <= '9' then Some(c as int - '0' as int) else None
  }

  // strconv.Itoa
  function Itoa(n: nat): string {
    if n < 10 then [Digit(n)] else Itoa(n / 10) + [Digit(n % 10)]
  }

  /** The digits at the start of s, read as a number after those that made acc; and what follows. */
  function Digits(s: string, acc: nat): (nat, string) {
    if s == [] || DigitOf(s[0]).None? then (acc, s) else Digits(s[1..], acc * 10 + DigitOf(s[0]).value)
  }

  function SkipSpace(s: string): string {
    if s != [] && (s[0] == ' ' || s[0] == '\t' || s[0] == '\r') then SkipSpace(s[1..]) else s
  }

  // fmt.Fscanf with "(%d)": space, a sign and digits between parentheses; what follows is not looked at.
  function ReadCount(line: string): Option<int> {
    if line == [] || line[0] != '(' then None
    else
      var s := SkipSpace(line[1..]);
      var neg := s != [] && s[0] == '-';
      var d := if s != [] && (s[0] == '-' || s[0] == '+') then s[1..] else s;
      if d == [] || DigitOf(d[0]).None? then None
      else
        var (n, rest) := Digits(d, 0);
        if n > (if neg then MAX_INT + 1 else MAX_INT) || rest == [] || rest[0] != ')' then None
        else
          var k: int := n;
          Some(if neg then -k else k)
  }

  lemma {:induction false} FirstDigit(n: nat)
    ensures Itoa(n) != [] && DigitOf(Itoa(n)[0]).Some?
  {
    if n >= 10 { FirstDigit(n / 10); }
  }

  lemma DigitStep(d: nat, rest: string, acc: nat)
    requires d < 10
    ensures Digits([Digit(d)] + rest, acc) == Digits(rest, acc * 10 + d)
  {
    assert ([Digit(d)] + rest)[0] == Digit(d) && ([Digit(d)] + rest)[1..] == rest;
  }

  lemma {:induction false} DigitsBack(n: nat, rest: string)
    ensures Digits(Itoa(n) + rest, 0) == Digits(rest, n)
  {
    hide Digits, Digit;
    if n < 10 {
      DigitStep(n, rest, 0);
    } else {
      var q, d := n / 10, n % 10;
      assert Itoa(n) + rest == Itoa(q) + ([Digit(d)] + rest);
      DigitsBack(q, [Digit(d)] + rest);
      DigitStep(d, rest, q);
    }
  }

  lemma {:induction false} CountBack(n: nat)
    requires n <= MAX_INT
    ensures ReadCount("(" + Itoa(n) + ")") == Some(n)
  {
    var line := "(" + Itoa(n) + ")";
    assert line[1..] == Itoa(n) + ")";
    DigitsBack(n, ")");
    FirstDigit(n);
    assert line[1..][0] == Itoa(n)[0];
  }

  lemma {:induction false} DigitsStop(n: nat, rest: string)
    requires rest == [] || DigitOf(rest[0]).None?
    ensures Digits(Itoa(n) + rest, 0) == (n, rest)
  {
    DigitsBack(n, rest);
  }

  /** A negative number in parentheses is read as one, down to the least int. */
  lemma {:induction false} NegativeRead(n: nat)
    ensures ReadCount("(-" + Itoa(n) + ")") == if n <= MAX_INT + 1 then Some(-(n as int)) else None
  {
    hide Itoa, Digits;
    var line := "(-" + Itoa(n) + ")";
    assert line[0] == '(' && line[1..] == "-" + (Itoa(n) + ")") && line[1..][0] == '-';
    assert line[1..][1..] == Itoa(n) + ")";
    DigitsStop(n, ")");
    FirstDigit(n);
    assert (Itoa(n) + ")")[0] == Itoa(n)[0];
  }

  /** A count is read only between parentheses, and only if it is an int. */
  lemma {:induction false} CountRefused(n: nat, rest: string, line: string)
    ensures rest == [] || (DigitOf(rest[0]).None? && rest[0] != ')') ==> ReadCount("(" + Itoa(n) + rest).None?
    ensures n > MAX_INT ==> ReadCount("(" + Itoa(n) + ")").None?
    ensures line == [] || line[0] != '(' ==> ReadCount(line).None?
  {
    if rest == [] || DigitOf(rest[0]).None? { Parenthesised(n, rest); }
    Parenthesised(n, ")");
  }

  lemma {:induction false} Parenthesised(n: nat, rest: string)
    requires rest == [] || DigitOf(rest[0]).None?
    ensures ReadCount("(" + Itoa(n) + rest) == if n > MAX_INT || rest == [] || rest[0] != ')' then None else Some(n)
  {
    hide Itoa, Digits;
    var line := "(" + Itoa(n) + rest;
    assert line[0] == '(' && line[1..] == Itoa(n) + rest;
    DigitsStop(n, rest);
    FirstDigit(n);
    assert (Itoa(n) + rest)[0] == Itoa(n)[0];
  }

  // Blocks.

  function Header(kind: string, n: nat): seq<string> {
    [kind, "(" + Itoa(n) + ")"]
  }

  function Block(kind: string, items: seq<string>): seq<string> {
    Header(kind, |items|) + items + [""]
  }

  function AllLines(l: Lists): seq<string> {
    Block("files", l.files) + Block("symlinks", l.symlinks) + Block("dirs", l.dirs)
  }

  // strings.Join
  function Join(items: seq<string>, sep: string): string {
    if items == [] then [] else if |items| == 1 then items[0] else items[0] + sep + Join(items[1..], sep)
  }

  lemma {:induction false} JoinIsUnlines(items: seq<string>)
    requires items != []
    ensures Join(items, "\n") + "\n" == Unlines(items)
  {
    if |items| > 1 {
      JoinIsUnlines(items[1..]);
    } else {
      assert items[1..] == [] && items[0] + "\n" + [] == items[0] + "\n";
    }
  }

  // One turn of the loop in GenerateFilelist (lines 166-183).
  method WriteBlock(kind: string, items: seq<string>) returns (out: string)
    ensures out == Unlines(Block(kind, items))
  {
    out := kind + "\n(" + Itoa(|items|) + ")\n";
    HeaderText(kind, |items|);
    UnlinesConcat(Header(kind, |items|) + items, [""]);
    UnlinesConcat(Header(kind, |items|), items);
    EmptyLine();
    if |items| > 0 {
      JoinIsUnlines(items);
      out := out + (Join(items, "\n") + "\n");
    }
    out := out + "\n";
  }

  lemma HeaderText(kind: string, n: nat)
    ensures Unlines(Header(kind, n)) == kind + "\n(" + Itoa(n) + ")\n"
  {
    var h, c := Header(kind, n), "(" + Itoa(n) + ")";
    assert h[1..] == [c] && [c][1..] == [];
    assert Unlines([c]) == c + "\n" + [];
    assert kind + "\n" + (c + "\n") == kind + "\n(" + Itoa(n) + ")\n";
  }

  lemma EmptyLine()
    ensures Unlines([""]) == "\n" && Unlines([]) == []
  {
    assert [""][1..] == [];
  }

  // GenerateFilelist (lines 163-187).
  method Generate(l: Lists) returns (out: string)
    ensures out == Unlines(AllLines(l))
  {
    var f := WriteBlock("files", l.files);
    var s := WriteBlock("symlinks", l.symlinks);
    var d := WriteBlock("dirs", l.dirs);
    UnlinesConcat(Block("files", l.files) + Block("symlinks", l.symlinks), Block("dirs", l.dirs));
    UnlinesConcat(Block("files", l.files), Block("symlinks", l.symlinks));
    out := f + s + d;
  }

  // Reading.

  function Assign(l: Lists, kind: string, items: seq<string>): Option<Lists> {
    if kind == "files" then Some(l.(files := items))
    else if kind == "symlinks" then Some(l.(symlinks := items))
    else if kind == "dirs" then Some(l.(dirs := items))
    else None
  }

  /** The items of a list of count items that an empty line ends, and the lines after it. */
  function TakeList(ls: seq<string>, count: nat): Option<(seq<string>, seq<string>)> {
    if |ls| > count && ls[count] == "" && "" !in ls[..count] then Some((ls[..count], ls[count + 1..])) else None
  }

  /** What parsing the lines does to the lists. */
  function ReadLists(ls: seq<string>, l: Lists): Result<Lists>
    decreases |ls|
  {
    if ls == [] then Ok(l)
    else if ls[0] == "" || |ls| < 2 || ReadCount(ls[1]).None? || Assign(l, ls[0], []).None? then Err
    else if ReadCount(ls[1]).value < 0 || ReadCount(ls[1]).value > MAX_CAP then Panic
    else
      var t := TakeList(ls[2..], ReadCount(ls[1]).value);
      if t.None? then Err else ReadLists(t.value.1, Assign(l, ls[0], t.value.0).value)
  }

  class Parser {
    var lines: seq<string>  // what the scanner has not read yet
    var lists: Lists

    constructor (text: string, lists: Lists)
      ensures this.lines == Lines(text) && this.lists == lists
    {
      this.lines, this.lists := Lines(text), lists;
    }

    // parseHeader (lines 117-146). Some(None) stands for the end of the file.
    method ParseHeader() returns (r: Option<Option<(string, int)>>)
      modifies this`lines
      ensures old(lines) == [] ==> r == Some(None) && lines == []
      ensures var ls := old(lines);
              ls != [] ==>
                if ls[0] == "" || |ls| < 2 || ReadCount(ls[1]).None? then r == None
                else r == Some(Some((ls[0], ReadCount(ls[1]).value))) && lines == ls[2..]
    {
      if lines == [] { return Some(None); }
      var kind := lines[0];
      lines := lines[1..];
      if kind == "" { return None; }
      if lines == [] { return None; }
      var n := ReadCount(lines[0]);
      lines := lines[1..];
      if n.None? { return None; }
      return Some(Some((kind, n.value)));
    }

    // parseList (lines 86-110): exactly count items and an empty line. A count that make does not take
    // for a capacity panics before any line is read.
    method ParseList(count: int) returns (r: Result<seq<string>>)
      modifies this`lines
      ensures r.Panic? <==> count < 0 || count > MAX_CAP
      ensures r.Panic? ==> lines == old(lines)
      ensures 0 <= count <= MAX_CAP ==>
                var t := TakeList(old(lines), count);
                if t.None? then r.Err? else r == Ok(t.value.0) && lines == t.value.1
    {
      if count < 0 || count > MAX_CAP { return Panic; }
      var items: seq<string> := [];
      ghost var all := lines;
      while true
        invariant |items| <= count && "" !in items && all == items + lines
        decreases |lines|
      {
        if lines == [] { return Err; }
        var line := lines[0];
        assert all[|items|] == line;
        lines := lines[1..];
        assert all == items + [line] + lines;
        if line == "" {
          if |items| < count {
            assert count <= |all| ==> all[..count][|items|] == "";
            return Err;
          }
          assert all[..count] == items && all[count + 1..] == lines;
          return Ok(items);
        }
        if |items| + 1 > count { return Err; }
        items := items + [line];
      }
    }

    // ParseFilelist (lines 61-82).
    method Parse() returns (r: Result<()>)
      modifies this
      ensures var w := ReadLists(old(lines), old(lists));
              match w
              case Ok(l) => r.Ok? && lists == l
              case Err => r.Err?
              case Panic => r.Panic?
    {
      hide ReadCount, TakeList;
      ghost var want := ReadLists(lines, lists);
      while true
        invariant ReadLists(lines, lists) == want
        decreases |lines|
      {
        ghost var ls := lines;
        var h := ParseHeader();
        if h.None? { return Err; }
        if h.value.None? { return Ok(()); }
        var (kind, count) := h.value.value;
        if Assign(lists, kind, []).None? { return Err; }
        var t := ParseList(count);
        if t.Err? { return Err; }
        if t.Panic? { return Panic; }
        TakeShorter(ls[2..], count);
        AssignAny(lists, kind, t.value);
        lists := Assign(lists, kind, t.value).value;
      }
    }
  }

  lemma TakeShorter(ls: seq<string>, count: nat)
    ensures TakeList(ls, count).Some? ==> |TakeList(ls, count).value.1| < |ls| && |TakeList(ls, count).value.0| == count
  {
  }

  lemma AssignAny(l: Lists, kind: string, items: seq<string>)
    requires Assign(l, kind, []).Some?
    ensures Assign(l, kind, items).Some?
  {
  }

  // What is refused.

  /** A block of a kind that is none of the three is an error, whatever follows. */
  lemma {:induction false} UnknownKind(kind: string, rest: seq<string>, l: Lists)
    requires kind != "files" && kind != "symlinks" && kind != "dirs"
    ensures ReadLists([kind] + rest, l).Err?
  {
    assert ([kind] + rest)[0] == kind;
  }

  /** A block is read if and only if its count is the number of its items; otherwise it is an error. */
  lemma {:induction false} CountMustMatch(kind: string, n: nat, items: seq<string>, rest: seq<string>, l: Lists)
    requires n <= MAX_CAP && "" !in items && (kind == "files" || kind == "symlinks" || kind == "dirs")
    ensures var r := ReadLists(Header(kind, n) + items + [""] + rest, l);
            if n != |items| then r.Err?
            else r == ReadLists(rest, if kind == "files" then l.(files := items)
                                      else if kind == "symlinks" then l.(symlinks := items)
                                      else l.(dirs := items))
  {
    hide ReadCount, Itoa;
    var ls, tail := Header(kind, n) + items + [""] + rest, items + [""] + rest;
    CountBack(n);
    assert ls[0] == kind && ls[1] == "(" + Itoa(n) + ")" && ls[2..] == tail;
    if n == |items| {
      TakeBack(items, rest);
    } else if n < |items| {
      assert tail[n] == items[n] && items[n] in items;
    } else if n < |tail| {
      assert tail[..n][|items|] == "";
    }
  }

  /** A list that the end of the file cuts off is an error. */
  lemma {:induction false} CutOff(kind: string, n: nat, items: seq<string>, l: Lists)
    requires n <= MAX_CAP && "" !in items && (kind == "files" || kind == "symlinks" || kind == "dirs")
    ensures ReadLists(Header(kind, n) + items, l).Err?
  {
    hide ReadCount, Itoa;
    var ls := Header(kind, n) + items;
    CountBack(n);
    assert ls[0] == kind && ls[1] == "(" + Itoa(n) + ")" && ls[2..] == items;
    if n < |items| { assert items[n] in items; }
  }

  // The round trip.

  ghost predicate PlainItems(items: seq<string>) {
    forall i :: 0 <= i < |items| ==> items[i] != "" && Plain(items[i])
  }

  ghost predicate PlainLists(l: Lists) {
    PlainItems(l.files) && PlainItems(l.symlinks) && PlainItems(l.dirs)
  }

  /** The lists are no longer than a list can be. */
  ghost predicate Sized(l: Lists) {
    |l.files| <= MAX_CAP && |l.symlinks| <= MAX_CAP && |l.dirs| <= MAX_CAP
  }

  lemma {:induction false} BlockBack(kind: string, items: seq<string>, rest: seq<string>, l: Lists)
    requires |items| <= MAX_CAP && kind != "" && Assign(l, kind, items).Some?
    ensures ReadLists(Block(kind, items) + rest, l) == if "" in items then Err
            else ReadLists(rest, Assign(l, kind, items).value)
  {
    hide ReadCount, Itoa;
    var ls := Block(kind, items) + rest;
    CountBack(|items|);
    assert ls[0] == kind && ls[1] == "(" + Itoa(|items|) + ")" && ls[2..] == items + [""] + rest;
    TakeBack(items, rest);
  }

  lemma TakeBack(items: seq<string>, rest: seq<string>)
    ensures TakeList(items + [""] + rest, |items|) == if "" in items then None else Some((items, rest))
  {
    var ls := items + [""] + rest;
    assert ls[..|items|] == items && ls[|items| + 1..] == rest && ls[|items|] == "";
  }

  lemma {:induction false} ItoaPlain(n: nat)
    ensures Itoa(n) != [] && forall i :: 0 <= i < |Itoa(n)| ==> '0' <= Itoa(n)[i] <= '9'
  {
    if n >= 10 { ItoaPlain(n / 10); }
  }

  lemma {:induction false} BlockDropped(kind: string, items: seq<string>)
    requires Plain(kind)
    ensures DropAll(Block(kind, items)) == Block(kind, DropAll(items))
  {
    ItoaPlain(|items|);
    var b, c := Block(kind, items), Block(kind, DropAll(items));
    forall i | 0 <= i < |b| ensures DropCR(b[i]) == c[i] {
      if i == 1 {
        assert b[1] == "(" + Itoa(|items|) + ")" == c[1];
      } else if 2 <= i < |items| + 2 {
        assert b[i] == items[i - 2] && c[i] == DropAll(items)[i - 2];
      }
    }
  }

  function Dropped(l: Lists): Lists {
    Lists(DropAll(l.files), DropAll(l.symlinks), DropAll(l.dirs))
  }

  lemma {:induction false} AllDropped(l: Lists)
    ensures DropAll(AllLines(l)) == AllLines(Dropped(l))
  {
    hide Block;
    BlockDropped("files", l.files);
    BlockDropped("symlinks", l.symlinks);
    BlockDropped("dirs", l.dirs);
  }

  ghost predicate AllItems(l: Lists, p: string -> bool) {
    && (forall i :: 0 <= i < |l.files| ==> p(l.files[i]))
    && (forall i :: 0 <= i < |l.symlinks| ==> p(l.symlinks[i]))
    && (forall i :: 0 <= i < |l.dirs| ==> p(l.dirs[i]))
  }

  const ONE_LINE: string -> bool := s => '\n' !in s
  const NOT_EMPTY: string -> bool := s => s != ""

  lemma {:induction false} AllBack(l: Lists, before: Lists)
    requires Sized(l)
    ensures ReadLists(AllLines(l), before) == if AllItems(l, NOT_EMPTY) then Ok(l) else Err
  {
    hide Block, ReadLists;
    var f, s, d := Block("files", l.files), Block("symlinks", l.symlinks), Block("dirs", l.dirs);
    assert f + s + d == f + (s + (d + []));
    BlockBack("files", l.files, s + (d + []), before);
    BlockBack("symlinks", l.symlinks, d + [], before.(files := l.files));
    BlockBack("dirs", l.dirs, [], before.(files := l.files, symlinks := l.symlinks));
    NothingLeft(l);
  }

  lemma NothingLeft(l: Lists)
    ensures ReadLists([], l) == Ok(l)
  {
  }

  lemma {:induction false} BlockOneLine(kind: string, items: seq<string>)
    requires ONE_LINE(kind) && forall i :: 0 <= i < |items| ==> ONE_LINE(items[i])
    ensures forall i :: 0 <= i < |Block(kind, items)| ==> '\n' !in Block(kind, items)[i]
  {
    ItoaPlain(|items|);
    var b := Block(kind, items);
    forall i | 0 <= i < |b| ensures '\n' !in b[i] {
      if i == 1 {
        assert b[1] == "(" + Itoa(|items|) + ")";
      } else if 2 <= i < |items| + 2 {
        assert b[i] == items[i - 2] && ONE_LINE(items[i - 2]);
      }
    }
  }

  /** What is read from items that are single lines. */
  lemma {:induction false} SingleLines(l: Lists, before: Lists)
    requires Sized(l) && AllItems(l, ONE_LINE)
    ensures ReadLists(Lines(Unlines(AllLines(l))), before) ==
            if AllItems(Dropped(l), NOT_EMPTY) then Ok(Dropped(l)) else Err
  {
    hide Block, ReadLists, Lines, Unlines;
    BlockOneLine("files", l.files);
    BlockOneLine("symlinks", l.symlinks);
    BlockOneLine("dirs", l.dirs);
    LinesDropped(AllLines(l), []);
    assert Unlines(AllLines(l)) + [] == Unlines(AllLines(l)) && DropAll(AllLines(l)) + [] == DropAll(AllLines(l));
    NoLines();
    AllDropped(l);
    AllBack(Dropped(l), before);
  }

  lemma NoLines()
    ensures Lines([]) == []
  {
  }

  ghost predicate SingleLineItems(items: seq<string>) {
    forall i :: 0 <= i < |items| ==> ONE_LINE(items[i])
  }

  // getDataForKind, for the three kinds.
  function Of(l: Lists, kind: string): seq<string> {
    if kind == "files" then l.files else if kind == "symlinks" then l.symlinks else l.dirs
  }

  /** Once a list has single lines only, reading further single lines keeps it so. */
  lemma {:induction false} ReadsSingleLines(ls: seq<string>, l: Lists, kind: string)
    requires SingleLineItems(Of(l, kind)) && SingleLineItems(ls)
    ensures ReadLists(ls, l).Ok? ==> SingleLineItems(Of(ReadLists(ls, l).value, kind))
    decreases |ls|
  {
    hide ReadCount;
    if ReadLists(ls, l).Ok? && ls != [] {
      var t := TakeList(ls[2..], ReadCount(ls[1]).value);
      ReadsSingleLines(t.value.1, Assign(l, ls[0], t.value.0).value, kind);
    }
  }

  /** A block that is read, whatever follows its header, leaves single lines in its list. */
  lemma {:induction false} HeaderAssigns(kind: string, n: nat, tail: seq<string>, l: Lists)
    requires n <= MAX_CAP && kind != "" && Assign(l, kind, []).Some? && SingleLineItems(tail)
    requires ReadLists(Header(kind, n) + tail, l).Ok?
    ensures SingleLineItems(Of(ReadLists(Header(kind, n) + tail, l).value, kind))
  {
    hide ReadCount, Itoa;
    var ls := Header(kind, n) + tail;
    CountBack(n);
    assert ls[0] == kind && ls[1] == "(" + Itoa(n) + ")" && ls[2..] == tail;
    var t := TakeList(tail, n);
    ReadsSingleLines(t.value.1, Assign(l, kind, t.value.0).value, kind);
  }

  lemma {:induction false} BlockText(kind: string, items: seq<string>, rest: string)
    requires Plain(kind)
    ensures Lines(Unlines(Block(kind, items)) + rest)
         == Header(kind, |items|) + Lines(Unlines(items + [""]) + rest)
  {
    hide Itoa, Lines;
    var h, t := Header(kind, |items|), items + [""];
    ItoaPlain(|items|);
    assert Block(kind, items) == h + t;
    UnlinesConcat(h, t);
    assert Unlines(h) + Unlines(t) + rest == Unlines(h) + (Unlines(t) + rest);
    assert h[0] == kind && h[1] == "(" + Itoa(|items|) + ")";
    LinesDropped(h, Unlines(t) + rest);
    assert DropAll(h) == h;
  }

  /** If reading from a written block on ends with the block's own items in its list, these are single
      lines, and the rest is read after the block. */
  lemma {:induction false} BlockRead(kind: string, items: seq<string>, rest: string, l: Lists, m: Lists)
    requires |items| <= MAX_CAP && kind != "" && Plain(kind) && Assign(l, kind, []).Some?
    requires ReadLists(Lines(Unlines(Block(kind, items)) + rest), l) == Ok(m) && Of(m, kind) == items
    ensures SingleLineItems(items) && Assign(l, kind, DropAll(items)).Some?
    ensures ReadLists(Lines(rest), Assign(l, kind, DropAll(items)).value) == Ok(m)
  {
    hide ReadLists, Lines, Block, Header, Unlines;
    var text := Unlines(items + [""]) + rest;
    var tail := Lines(text);
    BlockText(kind, items, rest);
    forall i | 0 <= i < |tail| ensures ONE_LINE(tail[i]) { NoNewlineInLines(text, i); }
    HeaderAssigns(kind, |items|, tail, l);
    BlockOneLine(kind, items);
    LinesDropped(Block(kind, items), rest);
    BlockDropped(kind, items);
    AssignAny(l, kind, DropAll(items));
    BlockBack(kind, DropAll(items), Lines(rest), l);
  }

  /** Lists that come back have single lines only: each block overwrites its list with scanned lines. */
  lemma {:induction false} BackIsSingleLines(l: Lists, before: Lists)
    requires Sized(l) && ReadLists(Lines(Unlines(AllLines(l))), before) == Ok(l)
    ensures AllItems(l, ONE_LINE)
  {
    hide ReadLists, Lines, Block, Unlines, ONE_LINE, DropAll;
    var f, s, d := Block("files", l.files), Block("symlinks", l.symlinks), Block("dirs", l.dirs);
    UnlinesConcat(f + s, d);
    UnlinesConcat(f, s);
    assert Unlines(f) + Unlines(s) + Unlines(d) == Unlines(f) + (Unlines(s) + (Unlines(d) + []));
    BlockRead("files", l.files, Unlines(s) + (Unlines(d) + []), before, l);
    var b1 := before.(files := DropAll(l.files));
    BlockRead("symlinks", l.symlinks, Unlines(d) + [], b1, l);
    BlockRead("dirs", l.dirs, [], b1.(symlinks := DropAll(l.symlinks)), l);
  }

  lemma DroppedIsPlain(items: seq<string>)
    requires forall i :: 0 <= i < |items| ==> ONE_LINE(items[i])
    ensures PlainItems(items) <==> DropAll(items) == items && forall i :: 0 <= i < |items| ==> NOT_EMPTY(items[i])
  {
    if PlainItems(items) {
      assert DropAll(items) == items;
      forall i | 0 <= i < |items| ensures NOT_EMPTY(items[i]) { assert Plain(items[i]); }
    } else {
      var i :| 0 <= i < |items| && !(items[i] != "" && Plain(items[i]));
      assert ONE_LINE(items[i]);
      assert DropAll(items)[i] == DropCR(items[i]);
    }
  }

  /** The lists come back exactly when no item is empty, has a newline or ends in a carriage return. */
  lemma {:induction false} BackIffPlain(l: Lists, before: Lists)
    requires Sized(l)
    ensures ReadLists(Lines(Unlines(AllLines(l))), before) == Ok(l) <==> PlainLists(l)
  {
    hide Block, ReadLists, Lines, Unlines, AllLines;
    if AllItems(l, ONE_LINE) {
      SingleLines(l, before);
      DroppedIsPlain(l.files);
      DroppedIsPlain(l.symlinks);
      DroppedIsPlain(l.dirs);
    } else {
      if ReadLists(Lines(Unlines(AllLines(l))), before) == Ok(l) { BackIsSingleLines(l, before); }
      assert !PlainLists(l) by { if PlainLists(l) { PlainIsOneLine(l); } }
    }
  }

  lemma PlainIsOneLine(l: Lists)
    requires PlainLists(l)
    ensures AllItems(l, ONE_LINE)
  {
  }

  /** Generating and parsing restores the lists exactly when the items are plain. */
  method RoundTrip(l: Lists, before: Lists) returns (r: Result<()>, after: Lists)
    requires Sized(l)
    ensures r.Ok? && after == l <==> PlainLists(l)
  {
    hide ReadLists, Block, PlainLists;
    var text := Generate(l);
    BackIffPlain(l, before);
    var p := new Parser(text, before);
    r := p.Parse();
    after := p.lists;
  }
}
