/**
 The language of the shell (user/sh.c) as a grammar over tokens, apart from any parser,
 and the proof that the parser accepts exactly its sentences, with exactly their trees.
 */
module ShellGrammar {
  import opened Gates
  import opened ShellParse

  // ---------- tokens ----------

  /** A symbol, with '+' for >>, or a word. */
  datatype Tk = S(kind: char) | W(word: Word)

  /** The tokens from position `i` on. */
  function Toks(s: string, i: nat): seq<Tk>
    requires i <= |s|
    decreases |s| - i
  {
    var t := GetToken(s, i);
    if t.kind == NUL then [] else [TkOf(t)] + Toks(s, t.next)
  }

  function TkOf(t: Token): Tk {
    if t.kind == 'a' then W((t.q, t.eq)) else S(t.kind)
  }

  predicate NoNul(s: string) {
    forall k :: 0 <= k < |s| ==> s[k] != NUL
  }

  // ---------- the grammar ----------

  type Redirections = seq<(Word, Mode)>

  /** An argument and the redirections behind it. */
  datatype Arg = Arg(word: Word, redirs: Redirections)

  /** A block in parentheses with redirections, or redirections and arguments. */
  datatype Simple = Group(line: Line, redirs: Redirections) | Plain(redirs: Redirections, args: seq<Arg>)

  datatype Pipeline = PipeEnd(simple: Simple) | PipeTo(simple: Simple, rest: Pipeline)

  /** A pipeline, a number of &, and perhaps a ; and more. */
  datatype Line = LineEnd(pipe: Pipeline, backs: nat) | LineSeq(pipe: Pipeline, backs: nat, rest: Line)

  function OpOf(m: Mode): char {
    match m case In => '<' case Out => '>' case Append => '+'
  }

  function RedirToks(rs: Redirections): seq<Tk> {
    if rs == [] then [] else [S(OpOf(rs[0].1)), W(rs[0].0)] + RedirToks(rs[1..])
  }

  function ArgToks(args: seq<Arg>): seq<Tk> {
    if args == [] then [] else [W(args[0].word)] + RedirToks(args[0].redirs) + ArgToks(args[1..])
  }

  function Amps(n: nat): seq<Tk> {
    if n == 0 then [] else [S('&')] + Amps(n - 1)
  }

  function SimpleToks(x: Simple): seq<Tk> {
    match x
    case Group(l, rs) => [S('(')] + LineToks(l) + [S(')')] + RedirToks(rs)
    case Plain(rs, args) => RedirToks(rs) + ArgToks(args)
  }

  function PipeToks(p: Pipeline): seq<Tk> {
    match p
    case PipeEnd(x) => SimpleToks(x)
    case PipeTo(x, r) => SimpleToks(x) + [S('|')] + PipeToks(r)
  }

  function LineToks(l: Line): seq<Tk> {
    match l
    case LineEnd(p, n) => PipeToks(p) + Amps(n)
    case LineSeq(p, n, r) => PipeToks(p) + Amps(n) + [S(';')] + LineToks(r)
  }

  /** No command has more arguments than its array has room for. */
  predicate SimpleFits(x: Simple) {
    match x
    case Group(l, _) => LineFits(l)
    case Plain(_, args) => |args| < MAXARGS
  }

  predicate PipeFits(p: Pipeline) {
    match p
    case PipeEnd(x) => SimpleFits(x)
    case PipeTo(x, r) => SimpleFits(x) && PipeFits(r)
  }

  predicate LineFits(l: Line) {
    match l
    case LineEnd(p, _) => PipeFits(p)
    case LineSeq(p, _, r) => PipeFits(p) && LineFits(r)
  }

  // ---------- the tree of a sentence ----------

  /** The first redirection is the innermost. */
  function Around(c: Cmd, rs: Redirections): Cmd
    decreases |rs|
  {
    if rs == [] then c
    else
      var k := |rs| - 1;
      Redir(Around(c, rs[..k]), rs[k].0, rs[k].1)
  }

  function InBack(c: Cmd, n: nat): Cmd {
    if n == 0 then c else Back(InBack(c, n - 1))
  }

  function ArgWords(args: seq<Arg>): seq<Word> {
    if args == [] then [] else [args[0].word] + ArgWords(args[1..])
  }

  function ArgRedirs(args: seq<Arg>): Redirections {
    if args == [] then [] else args[0].redirs + ArgRedirs(args[1..])
  }

  function SimpleTree(x: Simple): Cmd {
    match x
    case Group(l, rs) => Around(LineTree(l), rs)
    case Plain(rs, args) => Around(Exec(ArgWords(args)), rs + ArgRedirs(args))
  }

  function PipeTree(p: Pipeline): Cmd {
    match p
    case PipeEnd(x) => SimpleTree(x)
    case PipeTo(x, r) => Pipe(SimpleTree(x), PipeTree(r))
  }

  function LineTree(l: Line): Cmd {
    match l
    case LineEnd(p, n) => InBack(PipeTree(p), n)
    case LineSeq(p, n, r) => List(InBack(PipeTree(p), n), LineTree(r))
  }

  /** The line is a sentence of the grammar, with this derivation. */
  predicate Sentence(s: string, l: Line) {
    LineFits(l) && LineToks(l) == Toks(s, 0)
  }

  // ---------- tokens and the cursor ----------

  lemma {:induction false} SkipTwice(s: string, i: nat)
    requires i <= |s|
    ensures Skip(s, Skip(s, i)) == Skip(s, i)
  {
  }

  lemma SameToken(s: string, i: nat)
    requires i <= |s|
    ensures GetToken(s, Skip(s, i)) == GetToken(s, i) && Toks(s, Skip(s, i)) == Toks(s, i)
  {
    SkipTwice(s, i);
  }

  /** The character a symbol begins with, which is what peek looks at. */
  function FirstOf(t: Tk): char {
    if t.W? then 'a' else if t.kind == '+' then '>' else t.kind
  }

  lemma PeekIs(s: string, i: nat, toks: string)
    requires i <= |s| && NoNul(s) && forall k :: 0 <= k < |toks| ==> Sym(toks[k])
    ensures Peek(s, i, toks) <==> Toks(s, i) != [] && Toks(s, i)[0].S? && FirstOf(Toks(s, i)[0]) in toks
  {
    var q := Skip(s, i);
    if q < |s| { TokenAt(s, i); }
  }

  lemma TokenAt(s: string, i: nat)
    requires i <= |s| && NoNul(s) && Skip(s, i) < |s|
    ensures Toks(s, i) == [TkOf(GetToken(s, i))] + Toks(s, GetToken(s, i).next)
    ensures var q := Skip(s, i); if Sym(s[q]) then Toks(s, i)[0].S?
            && FirstOf(Toks(s, i)[0]) == s[q] else Toks(s, i)[0].W?
  {
  }

  lemma EndIs(s: string, i: nat)
    requires i <= |s| && NoNul(s)
    ensures Toks(s, i) == [] <==> Skip(s, i) == |s|
  {
  }

  // ---------- trees built from either end ----------

  lemma {:induction false} AroundFront(c: Cmd, r: (Word, Mode), rs: Redirections)
    ensures Around(Redir(c, r.0, r.1), rs) == Around(c, [r] + rs)
    decreases |rs|
  {
    if rs == [] {
      assert ([r] + rs)[..0] == [];
    } else {
      var k := |rs| - 1;
      AroundFront(c, r, rs[..k]);
      assert ([r] + rs)[..k + 1] == [r] + rs[..k];
    }
  }

  lemma {:induction false} WrapIs(c: Cmd, rs: Redirections)
    ensures Wrap(c, rs) == Around(c, rs)
    decreases |rs|
  {
    if rs != [] {
      WrapIs(Redir(c, rs[0].0, rs[0].1), rs[1..]);
      AroundFront(c, rs[0], rs[1..]);
      assert [rs[0]] + rs[1..] == rs;
    }
  }

  lemma {:induction false} BackShift(c: Cmd, n: nat)
    ensures InBack(Back(c), n) == Back(InBack(c, n))
  {
    if n > 0 { BackShift(c, n - 1); }
  }

  // ---------- reading tokens ----------

  /** Between positions `i` and `j` there are these tokens (unfolded only at a Gate). */
  ghost predicate Reads(s: string, i: nat, ts: seq<Tk>, j: nat) {
    i <= |s| && j <= |s| && forall z: nat {:trigger Gate(z)} :: Gate(z) ==> Toks(s, i) == ts + Toks(s, j)
  }

  lemma ReadsNone(s: string, i: nat)
    requires i <= |s|
    ensures Reads(s, i, [], i) && Reads(s, i, [], Skip(s, i))
  {
    SameToken(s, i);
  }

  lemma ReadsBoth(s: string, i: nat, a: seq<Tk>, j: nat, b: seq<Tk>, k: nat) returns (c: seq<Tk>)
    requires Reads(s, i, a, j) && Reads(s, j, b, k)
    ensures c == a + b && Reads(s, i, c, k)
  {
    assert Gate(0);
    c := a + b;
    assert a + (b + Toks(s, k)) == c + Toks(s, k);
  }

  lemma ReadsOne(s: string, i: nat)
    requires i <= |s| && NoNul(s) && GetToken(s, i).kind != NUL
    ensures var t := GetToken(s, i); Reads(s, i, [TkOf(t)], t.next) && GetToken(s, Skip(s, i)) == t
  {
    SameToken(s, i);
  }

  /** A symbol that peek has seen is the next token. */
  lemma Take(s: string, i: nat, toks: string, c: char) returns (j: nat)
    requires i <= |s| && NoNul(s) && toks == [c] && Peek(s, i, toks) && Sym(c) && c != '>'
    ensures Reads(s, i, [S(c)], j) && i < j && j == GetToken(s, Skip(s, i)).next
  {
    SameToken(s, i);
    PeekIs(s, i, toks);
    j := GetToken(s, i).next;
  }

  // ---------- what the parser returns is a derivation ----------

  lemma {:induction false} SoundRedirs(s: string, i: nat) returns (ts: seq<Tk>)
    requires i <= |s| && NoNul(s) && ParseRedirs(s, i).Redirs?
    ensures ts == RedirToks(ParseRedirs(s, i).list) && Reads(s, i, ts, ParseRedirs(s, i).next)
    decreases |s| - i
  {
    if Peek(s, i, "<>") {
      var t := GetToken(s, Skip(s, i));
      var f := GetToken(s, t.next);
      var more := SoundRedirs(s, f.next);
      RedirKind(s, i);
      ReadsOne(s, i);
      ReadsOne(s, t.next);
      ts := ReadsBoth(s, i, [S(t.kind)], t.next, [W((f.q, f.eq))], f.next);
      ts := ReadsBoth(s, i, ts, f.next, more, ParseRedirs(s, i).next);
      var list := ParseRedirs(s, i).list;
      assert list[1..] == ParseRedirs(s, f.next).list;
    } else {
      ts := [];
      ReadsNone(s, i);
    }
  }

  lemma RedirKind(s: string, i: nat)
    requires i <= |s| && NoNul(s) && Peek(s, i, "<>")
    ensures var t := GetToken(s, i); t.kind in "<>+" && OpOf(ModeOf(t.kind)) == t.kind && TkOf(t) == S(t.kind)
  {
  }

  lemma {:induction false} SoundArgs(s: string, i: nat, argv: seq<Word>, list: Redirections)
    returns (args: seq<Arg>, ts: seq<Tk>)
    requires i <= |s| && NoNul(s) && ParseArgs(s, i, argv, list).Ok?
    ensures ts == ArgToks(args) && Reads(s, i, ts, ParseArgs(s, i, argv, list).next)
    ensures ParseArgs(s, i, argv, list).cmd == Around(Exec(argv + ArgWords(args)), list + ArgRedirs(args))
    ensures args != [] ==> |argv| + |args| < MAXARGS
    decreases |s| - i
  {
    var t := GetToken(s, Skip(s, i));
    if Peek(s, i, "|)&;") || t.kind == NUL {
      args, ts := [], [];
      WrapIs(Exec(argv), list);
      assert argv + [] == argv && list + [] == list;
      if Peek(s, i, "|)&;") { ReadsNone(s, i); } else { EndReads(s, i); }
    } else {
      args, ts := ArgRound(s, i, argv, list);
    }
  }

  lemma {:induction false} ArgRound(s: string, i: nat, argv: seq<Word>, list: Redirections)
    returns (args: seq<Arg>, ts: seq<Tk>)
    requires i <= |s| && NoNul(s) && ParseArgs(s, i, argv, list).Ok?
    requires !Peek(s, i, "|)&;") && GetToken(s, Skip(s, i)).kind != NUL
    ensures ts == ArgToks(args) && Reads(s, i, ts, ParseArgs(s, i, argv, list).next)
    ensures ParseArgs(s, i, argv, list).cmd == Around(Exec(argv + ArgWords(args)), list + ArgRedirs(args))
    ensures args != [] ==> |argv| + |args| < MAXARGS
    decreases |s| - i, 0
  {
    SameToken(s, i);
    ReadsOne(s, i);
    var t := GetToken(s, Skip(s, i));
    var rs := ParseRedirs(s, t.next);
    var w: Word := (t.q, t.eq);
    var mid := SoundRedirs(s, t.next);
    var more, end := SoundArgs(s, rs.next, argv + [w], list + rs.list);
    args := [Arg(w, rs.list)] + more;
    ts := ReadsBoth(s, i, [W(w)], t.next, mid, rs.next);
    ts := ReadsBoth(s, i, ts, rs.next, end, ParseArgs(s, i, argv, list).next);
    ArgsJoin(argv, list, w, rs.list, more);
  }

  lemma ArgsJoin(argv: seq<Word>, list: Redirections, w: Word, rs: Redirections, more: seq<Arg>)
    ensures var args := [Arg(w, rs)] + more;
            && ArgToks(args) == [W(w)] + RedirToks(rs) + ArgToks(more)
            && argv + [w] + ArgWords(more) == argv + ArgWords(args)
            && list + rs + ArgRedirs(more) == list + ArgRedirs(args)
  {
    var args := [Arg(w, rs)] + more;
    assert args[0] == Arg(w, rs) && args[1..] == more;
    JoinThree(argv, [w], ArgWords(more));
    JoinThree(list, rs, ArgRedirs(more));
  }

  lemma JoinThree<T>(a: seq<T>, b: seq<T>, c: seq<T>)
    ensures a + b + c == a + (b + c)
  {
  }

  lemma EndReads(s: string, i: nat)
    requires i <= |s| && NoNul(s) && GetToken(s, Skip(s, i)).kind == NUL
    ensures Reads(s, i, [], GetToken(s, Skip(s, i)).next) && GetToken(s, Skip(s, i)).next == |s|
  {
    SameToken(s, i);
  }

  lemma {:induction false} SoundBacks(s: string, i: nat, c: Cmd) returns (n: nat, ts: seq<Tk>)
    requires i <= |s| && NoNul(s)
    ensures ParseBacks(s, i, c).0 == InBack(c, n) && ts == Amps(n) && Reads(s, i, ts, ParseBacks(s, i, c).1)
    decreases |s| - i
  {
    if Peek(s, i, "&") {
      var j := Take(s, i, "&", '&');
      var m, more := SoundBacks(s, j, Back(c));
      n := m + 1;
      BackShift(c, m);
      ts := ReadsBoth(s, i, [S('&')], j, more, ParseBacks(s, i, c).1);
    } else {
      n, ts := 0, [];
      ReadsNone(s, i);
    }
  }

  lemma {:induction false} SoundExec(s: string, i: nat) returns (x: Simple, ts: seq<Tk>)
    requires i <= |s| && NoNul(s) && ParseExec(s, i).Ok?
    ensures SimpleFits(x) && ParseExec(s, i).cmd == SimpleTree(x)
    ensures ts == SimpleToks(x) && Reads(s, i, ts, ParseExec(s, i).next)
    decreases |s| - i, 1
  {
    if Peek(s, i, "(") {
      var j := Take(s, i, "(", '(');
      var l, mid := SoundLine(s, j);
      x, ts := SoundGroup(s, i, j, l, mid);
    } else {
      var rs := ParseRedirs(s, i);
      var a := SoundRedirs(s, i);
      var args, b := SoundArgs(s, rs.next, [], rs.list);
      x := Plain(rs.list, args);
      assert [] + ArgWords(args) == ArgWords(args);
      ts := ReadsBoth(s, i, a, rs.next, b, ParseExec(s, i).next);
    }
  }

  lemma SoundGroup(s: string, i: nat, j: nat, l: Line, mid: seq<Tk>) returns (x: Simple, ts: seq<Tk>)
    requires i < j <= |s| && NoNul(s) && Peek(s, i, "(") && ParseExec(s, i).Ok? && j == GetToken(s, Skip(s, i)).next
    requires ParseLine(s, j).Ok? && LineFits(l) && ParseLine(s, j).cmd == LineTree(l)
    requires Reads(s, i, [S('(')], j) && mid == LineToks(l) && Reads(s, j, mid, ParseLine(s, j).next)
    ensures SimpleFits(x) && ParseExec(s, i).cmd == SimpleTree(x)
    ensures ts == SimpleToks(x) && Reads(s, i, ts, ParseExec(s, i).next)
  {
    var c := ParseLine(s, j);
    var k := Take(s, c.next, ")", ')');
    var rs := ParseRedirs(s, k);
    var end := SoundRedirs(s, k);
    x := Group(l, rs.list);
    WrapIs(c.cmd, rs.list);
    ts := ReadsBoth(s, i, [S('(')], j, mid, c.next);
    ts := ReadsBoth(s, i, ts, c.next, [S(')')], k);
    ts := ReadsBoth(s, i, ts, k, end, rs.next);
  }

  lemma {:induction false} SoundPipe(s: string, i: nat) returns (p: Pipeline, ts: seq<Tk>)
    requires i <= |s| && NoNul(s) && ParsePipe(s, i).Ok?
    ensures PipeFits(p) && ParsePipe(s, i).cmd == PipeTree(p)
    ensures ts == PipeToks(p) && Reads(s, i, ts, ParsePipe(s, i).next)
    decreases |s| - i, 2
  {
    var x, a := SoundExec(s, i);
    var l := ParseExec(s, i);
    if Peek(s, l.next, "|") {
      var j := Take(s, l.next, "|", '|');
      var r, b := SoundPipe(s, j);
      p := PipeTo(x, r);
      ts := ReadsBoth(s, i, a, l.next, [S('|')], j);
      ts := ReadsBoth(s, i, ts, j, b, ParsePipe(s, i).next);
    } else {
      p := PipeEnd(x);
      ReadsNone(s, l.next);
      ts := ReadsBoth(s, i, a, l.next, [], ParsePipe(s, i).next);
    }
  }

  lemma {:induction false} SoundLine(s: string, i: nat) returns (l: Line, ts: seq<Tk>)
    requires i <= |s| && NoNul(s) && ParseLine(s, i).Ok?
    ensures LineFits(l) && ParseLine(s, i).cmd == LineTree(l)
    ensures ts == LineToks(l) && Reads(s, i, ts, ParseLine(s, i).next)
    decreases |s| - i, 3
  {
    var p, a := SoundPipe(s, i);
    var c := ParsePipe(s, i);
    var n, m := SoundBacks(s, c.next, c.cmd);
    var b := ParseBacks(s, c.next, c.cmd);
    ts := ReadsBoth(s, i, a, c.next, m, b.1);
    if Peek(s, b.1, ";") {
      var j := Take(s, b.1, ";", ';');
      var r, e := SoundLine(s, j);
      l := LineSeq(p, n, r);
      ts := ReadsBoth(s, i, ts, b.1, [S(';')], j);
      ts := ReadsBoth(s, i, ts, j, e, ParseLine(s, i).next);
    } else {
      l := LineEnd(p, n);
      ReadsNone(s, b.1);
      ts := ReadsBoth(s, i, ts, b.1, [], ParseLine(s, i).next);
    }
  }

  // ---------- every derivation is what the parser returns ----------

  /** These are the tokens from position `i` on (unfolded only at a Gate). */
  ghost predicate Starts(s: string, i: nat, ts: seq<Tk>) {
    i <= |s| && forall z: nat {:trigger Gate(z)} :: Gate(z) ==> Toks(s, i) == ts
  }

  /** The next token, if any, is not one of these. */
  predicate Follows(ts: seq<Tk>, toks: string) {
    ts == [] || ts[0].W? || FirstOf(ts[0]) !in toks
  }

  lemma Consume(s: string, i: nat, ts: seq<Tk>, rest: seq<Tk>) returns (t: Token)
    requires NoNul(s) && Starts(s, i, ts) && ts != [] && rest == ts[1..]
    ensures t == GetToken(s, Skip(s, i)) && TkOf(t) == ts[0] && t.kind != NUL && i < t.next && Starts(s, t.next, rest)
    ensures ts[0].S? ==> t.kind == ts[0].kind
    ensures ts[0].W? ==> t.kind == 'a' && (t.q, t.eq) == ts[0].word
  {
    assert Gate(0);
    SameToken(s, i);
    t := GetToken(s, i);
  }

  lemma Peeks(s: string, i: nat, ts: seq<Tk>, toks: string)
    requires NoNul(s) && Starts(s, i, ts) && forall k :: 0 <= k < |toks| ==> Sym(toks[k])
    ensures Peek(s, i, toks) <==> !Follows(ts, toks)
  {
    assert Gate(0);
    PeekIs(s, i, toks);
  }

  lemma StartsSkip(s: string, i: nat, ts: seq<Tk>)
    requires Starts(s, i, ts)
    ensures Starts(s, Skip(s, i), ts)
  {
    SameToken(s, i);
  }

  lemma {:induction false} CompleteRedirs(s: string, i: nat, rs: Redirections, ts: seq<Tk>, rest: seq<Tk>)
    returns (r: Redirs)
    requires NoNul(s) && Starts(s, i, ts) && ts == RedirToks(rs) + rest && Follows(rest, "<>")
    ensures r == ParseRedirs(s, i) && r.Redirs? && r.list == rs && Starts(s, r.next, rest)
    decreases |rs|
  {
    Peeks(s, i, ts, "<>");
    r := ParseRedirs(s, i);
    if rs == [] {
      StartsSkip(s, i, ts);
      assert ts == rest;
    } else {
      var more := RedirToks(rs[1..]) + rest;
      var tail := [W(rs[0].0)] + more;
      RedirSplit(rs, rest);
      var t := Consume(s, i, ts, tail);
      var f := NextIs(s, t.next, tail, more);
      var q := CompleteRedirs(s, f.next, rs[1..], more, rest);
      RedirRound(s, i, t, f, q, rs);
    }
  }

  lemma RedirSplit(rs: Redirections, rest: seq<Tk>)
    requires rs != []
    ensures var tail := [W(rs[0].0)] + (RedirToks(rs[1..]) + rest);
            && RedirToks(rs) + rest == [S(OpOf(rs[0].1))] + tail && (RedirToks(rs) + rest)[1..] == tail
            && tail[1..] == RedirToks(rs[1..]) + rest
  {
    JoinThree([S(OpOf(rs[0].1)), W(rs[0].0)], RedirToks(rs[1..]), rest);
    assert [S(OpOf(rs[0].1)), W(rs[0].0)] == [S(OpOf(rs[0].1))] + [W(rs[0].0)];
    JoinThree([S(OpOf(rs[0].1))], [W(rs[0].0)], RedirToks(rs[1..]) + rest);
  }

  lemma RedirRound(s: string, i: nat, t: Token, f: Token, q: Redirs, rs: Redirections)
    requires i < t.next <= f.next <= |s| && Peek(s, i, "<>") && t == GetToken(s, Skip(s, i)) && f == GetToken(s, t.next)
    requires f.kind == 'a' && q == ParseRedirs(s, f.next) && q.Redirs? && rs != [] && q.list == rs[1..]
    requires t.kind == OpOf(rs[0].1) && (f.q, f.eq) == rs[0].0
    ensures ParseRedirs(s, i) == Redirs(rs, q.next)
  {
    assert ModeOf(t.kind) == rs[0].1;
    var list: Redirections := [((f.q, f.eq), ModeOf(t.kind))] + q.list;
    assert list == [rs[0]] + rs[1..] == rs;
    OneRound(s, i, t, f, q, list);
  }

  lemma OneRound(s: string, i: nat, t: Token, f: Token, q: Redirs, list: Redirections)
    requires i < t.next <= f.next <= |s| && Peek(s, i, "<>") && t == GetToken(s, Skip(s, i)) && f == GetToken(s, t.next)
    requires f.kind == 'a' && q == ParseRedirs(s, f.next) && q.Redirs?
    requires list == [((f.q, f.eq), ModeOf(t.kind))] + q.list
    ensures ParseRedirs(s, i) == Redirs(list, q.next)
  {
  }

  lemma NextIs(s: string, i: nat, ts: seq<Tk>, rest: seq<Tk>) returns (t: Token)
    requires NoNul(s) && Starts(s, i, ts) && ts != [] && rest == ts[1..] && ts[0].W?
    ensures t == GetToken(s, i) && t.kind == 'a' && (t.q, t.eq) == ts[0].word && i < t.next && Starts(s, t.next, rest)
  {
    t := Consume(s, i, ts, rest);
    SameToken(s, i);
  }

  /** What may come behind a command. */
  predicate Stops(ts: seq<Tk>) {
    ts == [] || (ts[0].S? && ts[0].kind in "|)&;")
  }

  lemma StopsFollow(ts: seq<Tk>)
    requires Stops(ts)
    ensures Follows(ts, "<>")
  {
  }

  lemma {:induction false} CompleteArgs(s: string, i: nat, argv: seq<Word>, list: Redirections, args: seq<Arg>,
      ts: seq<Tk>,
      rest: seq<Tk>) returns (r: Result)
    requires NoNul(s) && Starts(s, i, ts) && ts == ArgToks(args) + rest && Stops(rest)
    requires args != [] ==> |argv| + |args| < MAXARGS
    ensures r == ParseArgs(s, i, argv, list) && r.Ok? && Starts(s, r.next, rest)
    ensures r.cmd == Around(Exec(argv + ArgWords(args)), list + ArgRedirs(args))
    decreases |args|
  {
    Peeks(s, i, ts, "|)&;");
    r := ParseArgs(s, i, argv, list);
    if args == [] {
      assert ts == rest && argv + [] == argv && list + [] == list;
      WrapIs(Exec(argv), list);
      StartsSkip(s, i, ts);
      if rest == [] { EndStarts(s, i, ts); }
    } else {
      r := CompleteArg(s, i, argv, list, args, ts, rest);
    }
  }

  lemma EndStarts(s: string, i: nat, ts: seq<Tk>)
    requires NoNul(s) && Starts(s, i, ts) && ts == []
    ensures GetToken(s, Skip(s, i)).kind == NUL && Starts(s, GetToken(s, Skip(s, i)).next, [])
            && GetToken(s, Skip(s, i)).next == |s| == Skip(s, i)
  {
    assert Gate(0);
    SameToken(s, i);
  }

  lemma {:induction false} CompleteArg(s: string, i: nat, argv: seq<Word>, list: Redirections, args: seq<Arg>,
      ts: seq<Tk>,
      rest: seq<Tk>) returns (r: Result)
    requires NoNul(s) && Starts(s, i, ts) && ts == ArgToks(args) + rest && Stops(rest) && !Peek(s, i, "|)&;")
    requires args != [] && |argv| + |args| < MAXARGS
    ensures r == ParseArgs(s, i, argv, list) && r.Ok? && Starts(s, r.next, rest)
    ensures r.cmd == Around(Exec(argv + ArgWords(args)), list + ArgRedirs(args))
    decreases |args|, 0
  {
    var a, more := args[0], args[1..];
    var tail := ArgToks(more) + rest;
    var mid := RedirToks(a.redirs) + tail;
    ArgSplit(args, rest);
    var t := Consume(s, i, ts, mid);
    ArgsFollow(more, rest);
    var rs := CompleteRedirs(s, t.next, a.redirs, mid, tail);
    var words, redirs := argv + [a.word], list + a.redirs;
    ArgStep(s, i, argv, list, t, rs);
    r := CompleteArgs(s, rs.next, words, redirs, more, tail, rest);
    assert [Arg(a.word, a.redirs)] + more == args;
    ArgsJoin(argv, list, a.word, a.redirs, more);
  }

  lemma ArgSplit(args: seq<Arg>, rest: seq<Tk>)
    requires args != []
    ensures ArgToks(args) + rest == [W(args[0].word)] + (RedirToks(args[0].redirs) + (ArgToks(args[1..]) + rest))
    ensures (ArgToks(args) + rest)[1..] == RedirToks(args[0].redirs) + (ArgToks(args[1..]) + rest)
  {
    JoinThree([W(args[0].word)], RedirToks(args[0].redirs), ArgToks(args[1..]));
    JoinThree([W(args[0].word)], RedirToks(args[0].redirs) + ArgToks(args[1..]), rest);
    JoinThree(RedirToks(args[0].redirs), ArgToks(args[1..]), rest);
  }

  lemma ArgStep(s: string, i: nat, argv: seq<Word>, list: Redirections, t: Token, rs: Redirs)
    requires i <= |s| && !Peek(s, i, "|)&;") && t == GetToken(s, Skip(s, i)) && t.kind == 'a' && |argv| + 1 < MAXARGS
    requires rs == ParseRedirs(s, t.next) && rs.Redirs?
    ensures ParseArgs(s, i, argv, list) == ParseArgs(s, rs.next, argv + [(t.q, t.eq)], list + rs.list)
  {
  }

  lemma ArgsFollow(args: seq<Arg>, rest: seq<Tk>)
    requires Stops(rest)
    ensures Follows(ArgToks(args) + rest, "<>") && Follows(ArgToks(args) + rest, "(")
    ensures args != [] ==> Follows(ArgToks(args) + rest, "|)&;")
  {
    if args == [] { assert ArgToks(args) + rest == rest; }
  }

  lemma {:induction false} CompleteBacks(s: string, i: nat, c: Cmd, n: nat, ts: seq<Tk>, rest: seq<Tk>)
    returns (r: (Cmd, nat))
    requires NoNul(s) && Starts(s, i, ts) && ts == Amps(n) + rest && Follows(rest, "&")
    ensures r == ParseBacks(s, i, c) && r.0 == InBack(c, n) && Starts(s, r.1, rest)
    decreases n
  {
    Peeks(s, i, ts, "&");
    r := ParseBacks(s, i, c);
    if n == 0 {
      assert ts == rest;
      StartsSkip(s, i, ts);
    } else {
      var more := Amps(n - 1) + rest;
      assert ts == [S('&')] + more;
      var t := Consume(s, i, ts, more);
      var q := CompleteBacks(s, t.next, Back(c), n - 1, more, rest);
      BackShift(c, n - 1);
    }
  }

  lemma {:induction false} CompleteExec(s: string, i: nat, x: Simple, ts: seq<Tk>, rest: seq<Tk>) returns (r: Result)
    requires NoNul(s) && Starts(s, i, ts) && ts == SimpleToks(x) + rest && Stops(rest) && SimpleFits(x)
    ensures r == ParseExec(s, i) && r.Ok? && r.cmd == SimpleTree(x) && Starts(s, r.next, rest)
    decreases x, 0
  {
    Peeks(s, i, ts, "(");
    r := ParseExec(s, i);
    match x
    case Group(l, rs) =>
      var end := RedirToks(rs) + rest;
      var mid := [S(')')] + end;
      var inner := LineToks(l) + mid;
      GroupSplit(l, rs, rest);
      var t := Consume(s, i, ts, inner);
      var c := CompleteLine(s, t.next, l, inner, mid);
      CompleteGroup(s, i, t.next, c, rs, mid, end, rest);
    case Plain(rs, args) =>
      var tail := ArgToks(args) + rest;
      assert ts == RedirToks(rs) + tail;
      ArgsFollow(args, rest);
      RedirsFollow(rs, tail);
      var q := CompleteRedirs(s, i, rs, ts, tail);
      var a := CompleteArgs(s, q.next, [], rs, args, tail, rest);
      assert [] + ArgWords(args) == ArgWords(args);
  }

  lemma GroupSplit(l: Line, rs: Redirections, rest: seq<Tk>)
    ensures var inner := LineToks(l) + ([S(')')] + (RedirToks(rs) + rest)); 
            SimpleToks(Group(l, rs)) + rest == [S('(')] + inner && (SimpleToks(Group(l, rs)) + rest)[1..] == inner
  {
    JoinThree([S('(')], LineToks(l), [S(')')]);
    JoinThree([S('(')] + (LineToks(l) + [S(')')]), RedirToks(rs), rest);
    JoinThree([S('(')], LineToks(l) + [S(')')], RedirToks(rs) + rest);
    JoinThree(LineToks(l), [S(')')], RedirToks(rs) + rest);
  }

  lemma RedirsFollow(rs: Redirections, tail: seq<Tk>)
    requires Follows(tail, "(")
    ensures Follows(RedirToks(rs) + tail, "(")
  {
    if rs == [] { assert RedirToks(rs) + tail == tail; }
  }

  lemma CompleteGroup(s: string, i: nat, j: nat, c: Result, rs: Redirections, mid: seq<Tk>, end: seq<Tk>, rest: seq<Tk>)
    requires i <= j <= |s| && NoNul(s) && Peek(s, i, "(") && j == GetToken(s, Skip(s, i)).next && c == ParseLine(s, j)
             && c.Ok?
    requires Starts(s, c.next, mid) && mid == [S(')')] + end && end == RedirToks(rs) + rest && Stops(rest)
    ensures var r := ParseExec(s, i); r.Ok? && r.cmd == Around(c.cmd, rs) && Starts(s, r.next, rest)
  {
    Peeks(s, c.next, mid, ")");
    var t := Consume(s, c.next, mid, end);
    StopsFollow(rest);
    var q := CompleteRedirs(s, t.next, rs, end, rest);
    WrapIs(c.cmd, rs);
  }

  lemma {:induction false} CompletePipe(s: string, i: nat, p: Pipeline, ts: seq<Tk>, rest: seq<Tk>) returns (r: Result)
    requires NoNul(s) && Starts(s, i, ts) && ts == PipeToks(p) + rest && PipeFits(p)
    requires Stops(rest) && Follows(rest, "|")
    ensures r == ParsePipe(s, i) && r.Ok? && r.cmd == PipeTree(p) && Starts(s, r.next, rest)
    decreases p, 1
  {
    r := ParsePipe(s, i);
    match p
    case PipeEnd(x) =>
      var l := CompleteExec(s, i, x, ts, rest);
      Peeks(s, l.next, rest, "|");
      StartsSkip(s, l.next, rest);
    case PipeTo(x, more) =>
      var tail := PipeToks(more) + rest;
      var mid := [S('|')] + tail;
      PipeSplit(x, more, rest);
      var l := CompleteExec(s, i, x, ts, mid);
      Peeks(s, l.next, mid, "|");
      var t := Consume(s, l.next, mid, tail);
      var q := CompletePipe(s, t.next, more, tail, rest);
  }

  lemma PipeSplit(x: Simple, more: Pipeline, rest: seq<Tk>)
    ensures PipeToks(PipeTo(x, more)) + rest == SimpleToks(x) + ([S('|')] + (PipeToks(more) + rest))
    ensures ([S('|')] + (PipeToks(more) + rest))[1..] == PipeToks(more) + rest
  {
    JoinThree(SimpleToks(x), [S('|')], PipeToks(more));
    JoinThree(SimpleToks(x), [S('|')] + PipeToks(more), rest);
    JoinThree([S('|')], PipeToks(more), rest);
  }

  /** What comes behind the pipeline of a line and its ampersands. */
  function Behind(l: Line, rest: seq<Tk>): seq<Tk> {
    if l.LineEnd? then rest else [S(';')] + (LineToks(l.rest) + rest)
  }

  lemma LineSplit(l: Line, rest: seq<Tk>)
    ensures LineToks(l) + rest == PipeToks(l.pipe) + (Amps(l.backs) + Behind(l, rest))
    ensures l.LineSeq? ==> Behind(l, rest)[1..] == LineToks(l.rest) + rest
  {
    if l.LineEnd? {
      JoinThree(PipeToks(l.pipe), Amps(l.backs), rest);
    } else {
      var a, b, c, d := PipeToks(l.pipe), Amps(l.backs), [S(';')], LineToks(l.rest);
      JoinThree(a + b, c, d);
      JoinThree(a + b, c + d, rest);
      JoinThree(c, d, rest);
      JoinThree(a, b, c + (d + rest));
    }
  }

  lemma {:induction false} CompleteLine(s: string, i: nat, l: Line, ts: seq<Tk>, rest: seq<Tk>) returns (r: Result)
    requires NoNul(s) && Starts(s, i, ts) && ts == LineToks(l) + rest && LineFits(l)
             && (rest == [] || rest[0] == S(')'))
    ensures r == ParseLine(s, i) && r.Ok? && r.cmd == LineTree(l) && Starts(s, r.next, rest)
    decreases l, 2
  {
    r := ParseLine(s, i);
    var end := Behind(l, rest);
    var mid := Amps(l.backs) + end;
    LineSplit(l, rest);
    AmpsStop(l.backs, end);
    var p := CompletePipe(s, i, l.pipe, ts, mid);
    var b := CompleteBacks(s, p.next, p.cmd, l.backs, mid, end);
    Peeks(s, b.1, end, ";");
    if l.LineEnd? {
      StartsSkip(s, b.1, end);
    } else {
      var tail := LineToks(l.rest) + rest;
      var t := Consume(s, b.1, end, tail);
      var q := CompleteLine(s, t.next, l.rest, tail, rest);
    }
  }

  lemma AmpsStop(n: nat, end: seq<Tk>)
    requires end == [] || end[0] == S(')') || end[0] == S(';')
    ensures Stops(Amps(n) + end) && Follows(Amps(n) + end, "|") && Follows(end, "&")
  {
    if n == 0 { assert Amps(n) + end == end; }
  }

  // ---------- the parser and the grammar ----------

  /**
   The parser accepts exactly the sentences of the grammar: a line is parsed if and only if
   it has a derivation, and then the command is the tree of that derivation.
   */
  lemma ParseExactly(s: string)
    requires NoNul(s)
    ensures ParseCmd(s).Ok? <==> exists l :: Sentence(s, l)
    ensures forall l :: Sentence(s, l) ==> ParseCmd(s) == Ok(LineTree(l), |s|)
  {
    if ParseCmd(s).Ok? { var l := ParsedIsSentence(s); }
    forall l | Sentence(s, l) ensures ParseCmd(s) == Ok(LineTree(l), |s|) { SentenceIsParsed(s, l); }
  }

  lemma ParsedIsSentence(s: string) returns (l: Line)
    requires NoNul(s) && ParseCmd(s).Ok?
    ensures Sentence(s, l) && ParseCmd(s).cmd == LineTree(l)
  {
    var ts;
    l, ts := SoundLine(s, 0);
    var j := ParseLine(s, 0).next;
    EndIs(s, j);
    assert Gate(0);
  }

  lemma SentenceIsParsed(s: string, l: Line)
    requires NoNul(s) && Sentence(s, l)
    ensures ParseCmd(s) == Ok(LineTree(l), |s|)
  {
    var ts := LineToks(l);
    assert ts + [] == ts;
    var r := CompleteLine(s, 0, l, ts, []);
    EndStarts(s, r.next, []);
  }
}
