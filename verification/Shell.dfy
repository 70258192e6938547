/**
 The shell's parser as it runs (user/sh.c): a cursor moving over the line buffer, and the
 pass that writes a NUL behind every word the commands point to.
 */
module Shell {
  import opened ShellParse
  import opened ShellTokens
  import G = ShellGrammar

  // ----- The commands of a line point to its words

  /** Every argument and file name is a word of the line, and the arguments fit their array. */
  ghost predicate CmdOk(s: string, c: Cmd) {
    match c
    case Exec(argv) => |argv| < MAXARGS && forall i :: 0 <= i < |argv| ==> IsWord(s, argv[i].0, argv[i].1)
    case Redir(d, file, mode) => CmdOk(s, d) && IsWord(s, file.0, file.1)
    case Pipe(l, r) => CmdOk(s, l) && CmdOk(s, r)
    case List(l, r) => CmdOk(s, l) && CmdOk(s, r)
    case Back(d) => CmdOk(s, d)
  }

  ghost predicate FilesOk(s: string, list: seq<(Word, Mode)>) {
    forall i :: 0 <= i < |list| ==> IsWord(s, list[i].0.0, list[i].0.1)
  }

  lemma RedirsOk(s: string, i: nat)
    requires i <= |s|
    ensures ParseRedirs(s, i).Redirs? ==> FilesOk(s, ParseRedirs(s, i).list)
    decreases |s| - i
  {
    if Peek(s, i, "<>") && ParseRedirs(s, i).Redirs? {
      RedirsOk(s, GetToken(s, GetToken(s, Skip(s, i)).next).next);
    }
  }

  lemma {:induction false} WrapOk(s: string, c: Cmd, list: seq<(Word, Mode)>)
    requires CmdOk(s, c) && FilesOk(s, list)
    ensures CmdOk(s, Wrap(c, list))
    decreases |list|
  {
    if list != [] {
      WrapOk(s, Redir(c, list[0].0, list[0].1), list[1..]);
    }
  }

  lemma {:induction false} ArgsOk(s: string, i: nat, argv: seq<Word>, list: seq<(Word, Mode)>)
    requires i <= |s| && CmdOk(s, Exec(argv)) && FilesOk(s, list)
    ensures ParseArgs(s, i, argv, list).Ok? ==> CmdOk(s, ParseArgs(s, i, argv, list).cmd)
    decreases |s| - i
  {
    var t := GetToken(s, Skip(s, i));
    WrapOk(s, Exec(argv), list);
    if !Peek(s, i, "|)&;") && t.kind == 'a' && |argv| + 1 < MAXARGS {
      RedirsOk(s, t.next);
      var rs := ParseRedirs(s, t.next);
      if rs.Redirs? {
        ArgsOk(s, rs.next, argv + [(t.q, t.eq)], list + rs.list);
      }
    }
  }

  lemma {:induction false} ExecOk(s: string, i: nat)
    requires i <= |s|
    ensures ParseExec(s, i).Ok? ==> CmdOk(s, ParseExec(s, i).cmd)
    decreases |s| - i, 1
  {
    if Peek(s, i, "(") {
      var c := ParseLine(s, GetToken(s, Skip(s, i)).next);
      LineOk(s, GetToken(s, Skip(s, i)).next);
      if c.Ok? && Peek(s, c.next, ")") {
        var k := GetToken(s, Skip(s, c.next)).next;
        RedirsOk(s, k);
        if ParseRedirs(s, k).Redirs? { WrapOk(s, c.cmd, ParseRedirs(s, k).list); }
      }
    } else {
      RedirsOk(s, i);
      var rs := ParseRedirs(s, i);
      if rs.Redirs? { ArgsOk(s, rs.next, [], rs.list); }
    }
  }

  lemma {:induction false} PipeOk(s: string, i: nat)
    requires i <= |s|
    ensures ParsePipe(s, i).Ok? ==> CmdOk(s, ParsePipe(s, i).cmd)
    decreases |s| - i, 2
  {
    ExecOk(s, i);
    var l := ParseExec(s, i);
    if l.Ok? && Peek(s, l.next, "|") { PipeOk(s, GetToken(s, Skip(s, l.next)).next); }
  }

  lemma {:induction false} BacksOk(s: string, i: nat, c: Cmd)
    requires i <= |s| && CmdOk(s, c)
    ensures CmdOk(s, ParseBacks(s, i, c).0)
    decreases |s| - i
  {
    if Peek(s, i, "&") { BacksOk(s, GetToken(s, Skip(s, i)).next, Back(c)); }
  }

  /** Every command the grammar builds points to words of the line only. */
  lemma {:induction false} LineOk(s: string, i: nat)
    requires i <= |s|
    ensures ParseLine(s, i).Ok? ==> CmdOk(s, ParseLine(s, i).cmd)
    decreases |s| - i, 3
  {
    PipeOk(s, i);
    var p := ParsePipe(s, i);
    if p.Ok? {
      BacksOk(s, p.next, p.cmd);
      var b := ParseBacks(s, p.next, p.cmd);
      if Peek(s, b.1, ";") { LineOk(s, GetToken(s, Skip(s, b.1)).next); }
    }
  }

  // ----- Writing the NULs

  /** The position behind every word of a command. */
  ghost function Ends(c: Cmd): set<nat> {
    match c
    case Exec(argv) => set i | 0 <= i < |argv| :: argv[i].1
    case Redir(d, file, mode) => Ends(d) + {file.1}
    case Pipe(l, r) => Ends(l) + Ends(r)
    case List(l, r) => Ends(l) + Ends(r)
    case Back(d) => Ends(d)
  }

  /** The words of a command. */
  /** A NUL-terminated string: what a program given a pointer to `q` reads. */
  ghost predicate StringAt(b: seq<char>, q: nat, t: string) {
    q + |t| < |b| && b[q..q + |t|] == t && NUL !in t && b[q + |t|] == NUL
  }

  /** `b` is `a` with a NUL at the positions `ends`. */
  ghost predicate Terminated(a: seq<char>, b: seq<char>, ends: set<nat>) {
    |b| == |a| && forall k :: 0 <= k < |a| ==> b[k] == if k in ends then NUL else a[k]
  }

  lemma {:induction false} EndsOutside(s: string, c: Cmd)
    requires CmdOk(s, c)
    ensures forall e :: e in Ends(c) ==> e <= |s| && (e < |s| ==> Ws(s[e]) || Sym(s[e]))
    ensures forall w :: w in WordSet(c) ==> IsWord(s, w.0, w.1) && w.1 in Ends(c)
  {
    match c
    case Exec(argv) =>
      forall w | w in WordSet(c) ensures IsWord(s, w.0, w.1) && w.1 in Ends(c) {
        var i :| 0 <= i < |argv| && argv[i] == w;
        assert argv[i].1 in Ends(c);
      }
    case Redir(d, file, mode) => EndsOutside(s, d);
    case Pipe(l, r) => EndsOutside(s, l); EndsOutside(s, r);
    case List(l, r) => EndsOutside(s, l); EndsOutside(s, r);
    case Back(d) => EndsOutside(s, d);
  }

  /** After nulterminate every word of the command reads as exactly the word of the line. */
  lemma WordsRead(a: seq<char>, b: seq<char>, n: nat, c: Cmd)
    requires n < |a| && NUL !in a[..n] && CmdOk(a[..n], c) && Terminated(a, b, Ends(c))
    ensures forall w :: w in WordSet(c) ==> w.0 <= w.1 <= n && StringAt(b, w.0, a[w.0..w.1])
  {
    var s := a[..n];
    EndsOutside(s, c);
    forall w | w in WordSet(c) ensures w.0 <= w.1 <= n && StringAt(b, w.0, a[w.0..w.1]) {
      WordReads(a, b, n, Ends(c), w);
    }
  }

  lemma WordReads(a: seq<char>, b: seq<char>, n: nat, ends: set<nat>, w: Word)
    requires n < |a| && NUL !in a[..n] && Terminated(a, b, ends) && IsWord(a[..n], w.0, w.1) && w.1 in ends
    requires forall e :: e in ends ==> e <= n && (e < n ==> Ws(a[..n][e]) || Sym(a[..n][e]))
    ensures w.0 <= w.1 <= n && StringAt(b, w.0, a[w.0..w.1])
  {
    var s, t := a[..n], a[w.0..w.1];
    forall k | w.0 <= k < w.1 ensures b[k] == a[k] && a[k] != NUL {
      assert s[k] == a[k] && s[k] in s;
      assert !Ws(s[k]) && !Sym(s[k]);
    }
    assert b[w.0..w.0 + |t|] == t;
  }

  // ----- The parser

  /** A run of redirections in front of what the rest of the line gives. */
  ghost function Before(list: seq<(Word, Mode)>, r: Redirs): Redirs {
    if r.RedirPanic? then RedirPanic else Redirs(list + r.list, r.next)
  }

  lemma SkipTwice(s: string, i: nat)
    requires i <= |s|
    ensures Skip(s, Skip(s, i)) == Skip(s, i)
  {
  }

  /** Blanks in front make no difference. */
  lemma RedirsFrom(s: string, i: nat)
    requires i <= |s|
    ensures ParseRedirs(s, Skip(s, i)) == ParseRedirs(s, i)
  {
    SkipTwice(s, i);
  }

  lemma Shift(list: seq<(Word, Mode)>, one: seq<(Word, Mode)>, rest: Redirs)
    ensures Before(list, Before(one, rest)) == Before(list + one, rest)
  {
    if rest.Redirs? { assert list + (one + rest.list) == list + one + rest.list; }
  }

  /** One turn of the loop of parseredirs. */
  lemma RedirsStep(s: string, i: nat, t: Token, f: Token)
    requires i <= |s| && Peek(s, i, "<>") && i == Skip(s, i) && t == GetToken(s, i) && f == GetToken(s, t.next)
    ensures ParseRedirs(s, i) == if f.kind != 'a' then RedirPanic
            else Before([((f.q, f.eq), ModeOf(t.kind))], ParseRedirs(s, f.next))
  {
  }

  class Parser {
    const buf: array<char>
    const es: nat
    var ps: nat

    ghost predicate Valid()
      reads this, buf
    {
      ps <= es < buf.Length && buf[es] == NUL && NUL !in buf[..es]
    }

    /** What is parsed: the buffer up to its first NUL. */
    ghost function Line(): string
      requires es < buf.Length
      reads buf
    {
      buf[..es]
    }

    /** parsecmd's strlen. */
    constructor (b: array<char>)
      requires NUL in b[..]
      ensures Valid() && buf == b && ps == 0
    {
      var n := 0;
      while b[n] != NUL
        invariant n < b.Length && NUL !in b[..n] && NUL in b[n..]
        decreases b.Length - n
      {
        assert b[n..] == [b[n]] + b[n + 1..];
        assert b[..n + 1] == b[..n] + [b[n]];
        n := n + 1;
      }
      buf := b;
      es := n;
      ps := 0;
    }

    method Blanks(i: nat) returns (s: nat)
      requires Valid() && i <= es
      ensures s == Skip(Line(), i)
    {
      s := i;
      while s < es && Ws(buf[s])
        invariant i <= s <= es && Skip(Line(), s) == Skip(Line(), i)
      {
        s := s + 1;
      }
    }

    method Wordchars(i: nat) returns (s: nat)
      requires Valid() && i <= es
      ensures s == WordEnd(Line(), i)
    {
      s := i;
      while s < es && !Ws(buf[s]) && !Sym(buf[s])
        invariant i <= s <= es && WordEnd(Line(), s) == WordEnd(Line(), i)
      {
        s := s + 1;
      }
    }

    method Gettoken() returns (ret: char, q: nat, eq: nat)
      requires Valid()
      modifies this`ps
      ensures Valid() && GetToken(Line(), old(ps)) == Token(ret, q, eq, ps)
    {
      var s := Blanks(ps);
      q := s;
      ret := buf[s];
      ghost var l := Line();
      assert s < es ==> buf[s] == l[s] && l[s] in l;
      assert s + 1 < es ==> buf[s + 1] == l[s + 1];
      if ret == '|' || ret == '(' || ret == ')' || ret == ';' || ret == '&' || ret == '<' {
        s := s + 1;
      } else if ret == '>' {
        s := s + 1;
        if buf[s] == '>' {
          ret := '+';
          s := s + 1;
        }
      } else if ret != NUL {
        ret := 'a';
        s := Wordchars(s);
      }
      eq := s;
      ps := Blanks(s);
    }

    method PeekAt(toks: string) returns (found: bool)
      requires Valid()
      modifies this`ps
      ensures Valid() && ps == Skip(Line(), old(ps)) && found == Peek(Line(), old(ps), toks) == Peek(Line(), ps, toks)
    {
      ps := Blanks(ps);
      SkipTwice(Line(), old(ps));
      found := buf[ps] != NUL && buf[ps] in toks;
    }

    method Parseredirs() returns (r: Redirs)
      requires Valid()
      modifies this`ps
      ensures Valid() && old(ps) <= ps && r == ParseRedirs(Line(), old(ps)) && (r.Redirs? ==> ps == r.next)
    {
      var list: seq<(Word, Mode)> := [];
      var more := PeekAt("<>");
      SkipTwice(Line(), old(ps));
      while more
        invariant Valid() && old(ps) <= ps && ps == Skip(Line(), ps) && more == Peek(Line(), ps, "<>")
        invariant ParseRedirs(Line(), old(ps)) == Before(list, ParseRedirs(Line(), ps))
        decreases es - ps
      {
        ghost var i := ps;
        var tok, q0, e0 := Gettoken();
        ghost var j := ps;
        var kind, q, eq := Gettoken();
        RedirsStep(Line(), i, Token(tok, q0, e0, j), Token(kind, q, eq, ps));
        if kind != 'a' {
          return RedirPanic;
        }
        Shift(list, [((q, eq), ModeOf(tok))], ParseRedirs(Line(), ps));
        list := list + [((q, eq), ModeOf(tok))];
        RedirsFrom(Line(), ps);
        SkipTwice(Line(), ps);
        more := PeekAt("<>");
      }
      r := Redirs(list, ps);
    }

    method Parseblock() returns (r: Result)
      requires Valid() && Peek(Line(), ps, "(")
      modifies this`ps
      ensures Valid() && old(ps) <= ps && r == ParseExec(Line(), old(ps)) && (r.Ok? ==> ps == r.next)
      decreases es - ps, 0
    {
      var paren := PeekAt("(");
      var tok, q, eq := Gettoken();
      var c := Parseline();
      if c.Panic? {
        return Panic;
      }
      paren := PeekAt(")");
      if !paren {
        return Panic;
      }
      tok, q, eq := Gettoken();
      var rs := Parseredirs();
      r := if rs.RedirPanic? then Panic else Ok(Wrap(c.cmd, rs.list), rs.next);
    }

    method Parseexec() returns (r: Result)
      requires Valid()
      modifies this`ps
      ensures Valid() && old(ps) <= ps && r == ParseExec(Line(), old(ps)) && (r.Ok? ==> ps == r.next)
      decreases es - ps, 1
    {
      SkipTwice(Line(), ps);
      var block := PeekAt("(");
      if block {
        r := Parseblock();
        return;
      }
      var rs := Parseredirs();
      if rs.RedirPanic? {
        return Panic;
      }
      r := Parseargs(rs.list);
    }

    /** The loop of parseexec. */
    method Parseargs(first: seq<(Word, Mode)>) returns (r: Result)
      requires Valid()
      modifies this`ps
      ensures Valid() && old(ps) <= ps && r == ParseArgs(Line(), old(ps), [], first) && (r.Ok? ==> ps == r.next)
    {
      var argv: seq<Word>, list := [], first;
      ghost var i := ps;
      var end := PeekAt("|)&;");
      while !end
        invariant Valid() && old(ps) <= i <= ps == Skip(Line(), i) && end == Peek(Line(), i, "|)&;")
        invariant ParseArgs(Line(), old(ps), [], first) == ParseArgs(Line(), i, argv, list)
        decreases es - i
      {
        var kind, q, eq := Gettoken();
        if kind == NUL {
          break;
        }
        if kind != 'a' || |argv| + 1 >= MAXARGS {
          return Panic;
        }
        var rs := Parseredirs();
        if rs.RedirPanic? {
          return Panic;
        }
        argv, list, i := argv + [(q, eq)], list + rs.list, ps;
        end := PeekAt("|)&;");
      }
      r := Ok(Wrap(Exec(argv), list), ps);
    }

    method Parsepipe() returns (r: Result)
      requires Valid()
      modifies this`ps
      ensures Valid() && old(ps) <= ps && r == ParsePipe(Line(), old(ps)) && (r.Ok? ==> ps == r.next)
      decreases es - ps, 2
    {
      r := Parseexec();
      if r.Panic? {
        return;
      }
      var bar := PeekAt("|");
      if bar {
        var tok, q, eq := Gettoken();
        var right := Parsepipe();
        return if right.Panic? then Panic else Ok(Pipe(r.cmd, right.cmd), ps);
      }
      r := Ok(r.cmd, ps);
    }

    method Parseline() returns (r: Result)
      requires Valid()
      modifies this`ps
      ensures Valid() && old(ps) <= ps && r == ParseLine(Line(), old(ps)) && (r.Ok? ==> ps == r.next)
      decreases es - ps, 3
    {
      var p := Parsepipe();
      if p.Panic? {
        return Panic;
      }
      var cmd := Parsebacks(p.cmd);
      var semi := PeekAt(";");
      if semi {
        var tok, q, eq := Gettoken();
        var rest := Parseline();
        return if rest.Panic? then Panic else Ok(List(cmd, rest.cmd), ps);
      }
      r := Ok(cmd, ps);
    }

    /** The loop of parseline. */
    method Parsebacks(c: Cmd) returns (cmd: Cmd)
      requires Valid()
      modifies this`ps
      ensures Valid() && old(ps) <= ps && (cmd, ps) == ParseBacks(Line(), old(ps), c)
    {
      cmd := c;
      ghost var i := ps;
      var amp := PeekAt("&");
      while amp
        invariant Valid() && old(ps) <= i <= ps == Skip(Line(), i) && amp == Peek(Line(), i, "&")
        invariant ParseBacks(Line(), old(ps), c) == ParseBacks(Line(), i, cmd)
        decreases es - i
      {
        var tok, q, eq := Gettoken();
        cmd, i := Back(cmd), ps;
        amp := PeekAt("&");
      }
    }

    /** nulterminate: exactly the positions behind the command's words become NUL. */
    method Nulterminate(c: Cmd)
      requires forall e :: e in Ends(c) ==> e < buf.Length
      modifies buf
      ensures Terminated(old(buf[..]), buf[..], Ends(c))
      decreases c
    {
      match c
      case Exec(argv) =>
        for i := 0 to |argv|
          invariant Terminated(old(buf[..]), buf[..], set j | 0 <= j < i :: argv[j].1)
        {
          assert argv[i].1 in Ends(c);
          buf[argv[i].1] := NUL;
        }
      case Redir(d, file, mode) =>
        assert Ends(d) <= Ends(c) && file.1 in Ends(c);
        Nulterminate(d);
        buf[file.1] := NUL;
      case Pipe(l, r) =>
        assert Ends(l) <= Ends(c) && Ends(r) <= Ends(c);
        Nulterminate(l);
        Nulterminate(r);
      case List(l, r) =>
        assert Ends(l) <= Ends(c) && Ends(r) <= Ends(c);
        Nulterminate(l);
        Nulterminate(r);
      case Back(d) =>
        assert Ends(d) == Ends(c);
        Nulterminate(d);
    }

    /**
     parsecmd: the commands of the line, or a panic, for every line; afterwards every argument
     and file name is a NUL-terminated string that reads as the word it was in the line.
     */
    method Parsecmd() returns (r: Result)
      requires Valid() && ps == 0
      modifies this`ps, buf
      ensures r == ParseCmd(old(Line()))
      ensures r.Ok? <==> exists l :: G.Sentence(old(Line()), l)
      ensures forall l :: G.Sentence(old(Line()), l) ==> r == Ok(G.LineTree(l), es)
      ensures r.Ok? ==> forall w: Word :: w in WordSet(r.cmd) <==> MaxWord(old(Line()), w.0, w.1)
      ensures r.Ok? ==> RedirBag(r.cmd) == TokRedirs(G.Toks(old(Line()), 0))
      ensures r.Panic? ==> buf[..] == old(buf[..])
      ensures r.Ok? ==> CmdOk(old(Line()), r.cmd) && Terminated(old(buf[..]), buf[..], Ends(r.cmd))
      ensures r.Ok? ==> forall w :: w in WordSet(r.cmd) ==>
              w.0 <= w.1 <= es && StringAt(buf[..], w.0, old(buf[..])[w.0..w.1])
    {
      G.ParseExactly(Line());
      if ParseCmd(Line()).Ok? { NothingLost(Line()); }
      r := Parseline();
      LineOk(Line(), 0);
      if r.Panic? {
        return;
      }
      var any := PeekAt("");
      if ps != es {
        return Panic;
      }
      EndsOutside(Line(), r.cmd);
      ghost var a := buf[..];
      assert a[..es] == Line();
      Nulterminate(r.cmd);
      WordsRead(a, buf[..], es, r.cmd);
      r := Ok(r.cmd, es);
    }
  }
}
