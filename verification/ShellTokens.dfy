/**
 The tokens of a shell line (user/sh.c) told without a scanner, and where each of them
 ends up in the command: every word once as an argument or a file name, and every
 redirection sign in a redirection.
 */
module ShellTokens {
  import opened Gates
  import opened ShellParse
  import opened ShellGrammar

  // ---------- which tokens a line has ----------

  predicate Blank(s: string, i: nat, j: nat) {
    i <= j <= |s| && forall k :: i <= k < j ==> Ws(s[k])
  }

  predicate Plainly(c: char) {
    !Ws(c) && !Sym(c)
  }

  /** A maximal run of characters that are neither white space nor symbols. */
  predicate MaxWord(s: string, q: nat, eq: nat) {
    && q < eq <= |s| && (forall k :: q <= k < eq ==> Plainly(s[k]))
    && (eq < |s| ==> !Plainly(s[eq])) && (q > 0 ==> !Plainly(s[q - 1]))
  }

  /** A token of the line: a maximal word, or a symbol, where two > in a row make one. */
  predicate TokenIs(s: string, t: Tk, q: nat, eq: nat) {
    match t
    case W(w) => w == (q, eq) && MaxWord(s, q, eq)
    case S(c) =>
      if c == '+' then q + 2 == eq <= |s| && s[q] == '>' && s[q + 1] == '>'
      else q + 1 == eq <= |s| && s[q] == c && Sym(c) && (c == '>' && eq < |s| ==> s[eq] != '>')
  }

  /** The text from `i` on is these tokens with white space around them. */
  ghost predicate Lexed(s: string, i: nat, ts: seq<Tk>)
    decreases |ts|
  {
    if ts == [] then Blank(s, i, |s|)
    else exists q: nat, eq: nat :: Blank(s, i, q) && TokenIs(s, ts[0], q, eq) && Lexed(s, eq, ts[1..])
  }

  /** No word goes across position `i`. */
  predicate Edge(s: string, i: nat) {
    i == 0 || i >= |s| || !Plainly(s[i - 1]) || !Plainly(s[i])
  }

  lemma {:induction false} SkipBlank(s: string, i: nat)
    requires i <= |s|
    ensures Blank(s, i, Skip(s, i))
    decreases |s| - i
  {
    if i < |s| && Ws(s[i]) { SkipBlank(s, i + 1); }
  }

  lemma LexedCons(s: string, i: nat, t: Tk, q: nat, eq: nat, rest: seq<Tk>) returns (ts: seq<Tk>)
    requires Blank(s, i, q) && TokenIs(s, t, q, eq) && Lexed(s, eq, rest)
    ensures ts == [t] + rest && Lexed(s, i, ts)
  {
    ts := [t] + rest;
    assert ts[1..] == rest;
  }

  /** The tokens of a line are its maximal words and its symbols, in order, and white space is all there is besides. */
  lemma {:induction false} ToksLexed(s: string, i: nat) returns (ts: seq<Tk>)
    requires i <= |s| && NoNul(s) && Edge(s, i)
    ensures ts == Toks(s, i) && Lexed(s, i, ts)
    decreases |s| - i
  {
    var t := GetToken(s, i);
    if t.kind == NUL {
      SkipBlank(s, i);
      ts := [];
    } else {
      FirstToken(s, i);
      LaterToks(s, i);
      var rest := ToksLexed(s, t.eq);
      ts := LexedCons(s, i, TkOf(t), t.q, t.eq, rest);
    }
  }

  lemma FirstToken(s: string, i: nat)
    requires i <= |s| && NoNul(s) && Edge(s, i) && GetToken(s, i).kind != NUL
    ensures var t := GetToken(s, i); Blank(s, i, t.q) && TokenIs(s, TkOf(t), t.q, t.eq) && i < t.eq && Edge(s, t.eq)
  {
    SkipBlank(s, i);
  }

  lemma LaterToks(s: string, i: nat)
    requires i <= |s| && NoNul(s) && GetToken(s, i).kind != NUL
    ensures Toks(s, i) == [TkOf(GetToken(s, i))] + Toks(s, GetToken(s, i).eq)
  {
    var t := GetToken(s, i);
    NextIsSkip(s, i);
    assert Toks(s, i) == [TkOf(t)] + Toks(s, t.next);
    SameToken(s, t.eq);
  }

  lemma NextIsSkip(s: string, i: nat)
    requires i <= |s| && GetToken(s, i).kind != NUL
    ensures GetToken(s, i).next == Skip(s, GetToken(s, i).eq)
  {
  }

  /** White space ends before anything else. */
  lemma BeforeInk(s: string, i: nat, q: nat, k: nat)
    requires Blank(s, i, q) && i <= k < |s| && !Ws(s[k])
    ensures q <= k
  {
  }

  lemma TokenInk(s: string, t: Tk, q: nat, eq: nat)
    requires TokenIs(s, t, q, eq)
    ensures q < eq <= |s| && !Ws(s[q])
  {
    if t.W? { assert Plainly(s[q]); }
  }

  lemma BlankNone(s: string, i: nat, ts: seq<Tk>)
    requires Blank(s, i, |s|) && Lexed(s, i, ts)
    ensures ts == []
  {
    if ts != [] {
      var q: nat, eq: nat :| Blank(s, i, q) && TokenIs(s, ts[0], q, eq) && Lexed(s, eq, ts[1..]);
      TokenInk(s, ts[0], q, eq);
      assert false;
    }
  }

  /** And there is only one way to read a line so. */
  lemma {:induction false} LexUnique(s: string, i: nat, a: seq<Tk>, b: seq<Tk>)
    requires Lexed(s, i, a) && Lexed(s, i, b)
    ensures a == b
    decreases |a|
  {
    if a == [] {
      BlankNone(s, i, b);
    } else if b == [] {
      BlankNone(s, i, a);
    } else {
      var q: nat, eq: nat :| Blank(s, i, q) && TokenIs(s, a[0], q, eq) && Lexed(s, eq, a[1..]);
      var r: nat, er: nat :| Blank(s, i, r) && TokenIs(s, b[0], r, er) && Lexed(s, er, b[1..]);
      SameFirst(s, i, a[0], q, eq, b[0], r, er);
      LexUnique(s, eq, a[1..], b[1..]);
      assert a == [a[0]] + a[1..] && b == [b[0]] + b[1..];
    }
  }

  lemma SameFirst(s: string, i: nat, x: Tk, q: nat, eq: nat, y: Tk, r: nat, er: nat)
    requires Blank(s, i, q) && TokenIs(s, x, q, eq) && Blank(s, i, r) && TokenIs(s, y, r, er)
    ensures x == y && q == r && eq == er
  {
    TokenInk(s, x, q, eq);
    TokenInk(s, y, r, er);
    BeforeInk(s, i, q, r);
    BeforeInk(s, i, r, q);
    if x.W? && y.W? { SameEnd(s, q, eq, er); }
    assert Plainly(s[q]) <==> x.W?;
    assert Plainly(s[r]) <==> y.W?;
  }

  lemma SameEnd(s: string, q: nat, a: nat, b: nat)
    requires MaxWord(s, q, a) && MaxWord(s, q, b)
    ensures a == b
  {
  }

  /** Every maximal word of the line is one of its tokens. */
  lemma {:induction false} WordIsToken(s: string, i: nat, ts: seq<Tk>, q: nat, eq: nat)
    requires Lexed(s, i, ts) && i <= q && MaxWord(s, q, eq)
    ensures W((q, eq)) in ts
    decreases |ts|
  {
    assert Plainly(s[q]);
    if ts == [] {
      assert false;
    } else {
      var r: nat, er: nat :| Blank(s, i, r) && TokenIs(s, ts[0], r, er) && Lexed(s, er, ts[1..]);
      BeforeInk(s, i, r, q);
      if r == q {
        SameFirst(s, q, ts[0], q, er, W((q, eq)), q, eq);
      } else {
        TokenBefore(s, ts[0], r, er, q, eq);
        WordIsToken(s, er, ts[1..], q, eq);
      }
    }
  }

  lemma TokenBefore(s: string, t: Tk, r: nat, er: nat, q: nat, eq: nat)
    requires TokenIs(s, t, r, er) && MaxWord(s, q, eq) && r < q
    ensures er <= q
  {
    if t.S? { assert Plainly(s[q]); }
  }

  lemma {:induction false} TokenIsWord(s: string, i: nat, ts: seq<Tk>, w: Word)
    requires Lexed(s, i, ts) && W(w) in ts
    ensures MaxWord(s, w.0, w.1)
    decreases |ts|
  {
    var q: nat, eq: nat :| Blank(s, i, q) && TokenIs(s, ts[0], q, eq) && Lexed(s, eq, ts[1..]);
    if ts[0] != W(w) {
      assert ts == [ts[0]] + ts[1..];
      TokenIsWord(s, eq, ts[1..], w);
    }
  }

  // ---------- the words and redirections of a command ----------

  function WordSet(c: Cmd): set<Word> {
    match c
    case Exec(argv) => set w | w in argv
    case Redir(d, file, mode) => WordSet(d) + {file}
    case Pipe(l, r) => WordSet(l) + WordSet(r)
    case List(l, r) => WordSet(l) + WordSet(r)
    case Back(d) => WordSet(d)
  }

  function RedirBag(c: Cmd): multiset<(Word, Mode)> {
    match c
    case Exec(argv) => multiset{}
    case Redir(d, file, mode) => RedirBag(d) + multiset{(file, mode)}
    case Pipe(l, r) => RedirBag(l) + RedirBag(r)
    case List(l, r) => RedirBag(l) + RedirBag(r)
    case Back(d) => RedirBag(d)
  }

  /** The words among the tokens. */
  function TokWords(ts: seq<Tk>): set<Word> {
    if ts == [] then {} else (if ts[0].W? then {ts[0].word} else {}) + TokWords(ts[1..])
  }

  predicate IsOp(t: Tk) {
    t.S? && (t.kind == '<' || t.kind == '>' || t.kind == '+')
  }

  /** The redirection signs among the tokens, each with the word behind it. */
  function TokRedirs(ts: seq<Tk>): multiset<(Word, Mode)> {
    if |ts| < 2 then multiset{} else Two(ts[0], ts[1]) + TokRedirs(ts[1..])
  }

  function Two(t: Tk, u: Tk): multiset<(Word, Mode)> {
    if IsOp(t) && u.W? then multiset{(u.word, ModeOf(t.kind))} else multiset{}
  }

  lemma {:induction false} WordsJoin(a: seq<Tk>, b: seq<Tk>)
    ensures TokWords(a + b) == TokWords(a) + TokWords(b)
  {
    if a == [] {
      assert a + b == b;
    } else {
      WordsJoin(a[1..], b);
      assert (a + b)[1..] == a[1..] + b;
    }
  }

  lemma {:induction false} WordAmong(ts: seq<Tk>, w: Word)
    ensures w in TokWords(ts) <==> W(w) in ts
  {
    if ts != [] {
      WordAmong(ts[1..], w);
      assert ts == [ts[0]] + ts[1..];
    }
  }

  /** A redirection sign is not the last of these. */
  predicate Whole(ts: seq<Tk>) {
    ts == [] || !IsOp(ts[|ts| - 1])
  }

  /** Unfolded only at a Gate. */
  ghost predicate BagOf(ts: seq<Tk>, bag: multiset<(Word, Mode)>) {
    forall z: nat {:trigger Gate(z)} :: Gate(z) ==> TokRedirs(ts) == bag
  }

  lemma BagCons(t: Tk, more: seq<Tk>, x: multiset<(Word, Mode)>, ts: seq<Tk>)
    requires BagOf(more, x) && more != [] && ts == [t] + more
    ensures BagOf(ts, Two(t, more[0]) + x)
  {
    assert Gate(0);
    NextToken(t, more[0], more);
  }

  lemma NextToken(t: Tk, u: Tk, more: seq<Tk>)
    requires more != [] && more[0] == u
    ensures TokRedirs([t] + more) == Two(t, u) + TokRedirs(more)
  {
    assert ([t] + more)[1..] == more;
  }

  lemma {:induction false} BagsJoin(a: seq<Tk>, b: seq<Tk>, y: multiset<(Word, Mode)>, ab: seq<Tk>)
    returns (x: multiset<(Word, Mode)>)
    requires Whole(a) && BagOf(b, y) && ab == a + b
    ensures BagOf(a, x) && BagOf(ab, x + y)
    decreases |a|
  {
    if a == [] {
      x := multiset{};
      assert ab == b && x + y == y;
    } else if |a| == 1 {
      x := multiset{};
      assert ab == [a[0]] + b && x + y == y;
      OneBag(a[0], b, y, ab, a);
    } else {
      var more := a[1..];
      var mb := more + b;
      assert Whole(more) by { assert more[|more| - 1] == a[|a| - 1]; }
      var w := BagsJoin(more, b, y, mb);
      assert ab == [a[0]] + mb && a == [a[0]] + more && mb[0] == more[0];
      BagCons(a[0], more, w, a);
      BagCons(a[0], mb, w + y, ab);
      x := Two(a[0], more[0]) + w;
      BagJoin(Two(a[0], more[0]), w, y);
    }
  }

  lemma OneBag(t: Tk, b: seq<Tk>, y: multiset<(Word, Mode)>, ab: seq<Tk>, a: seq<Tk>)
    requires !IsOp(t) && BagOf(b, y) && ab == [t] + b && a == [t]
    ensures BagOf(a, multiset{}) && BagOf(ab, y)
  {
    assert Gate(0);
    LoneToken(t, b);
  }

  lemma RedirsJoin(a: seq<Tk>, b: seq<Tk>)
    requires Whole(a)
    ensures TokRedirs(a + b) == TokRedirs(a) + TokRedirs(b)
  {
    var x := BagsJoin(a, b, TokRedirs(b), a + b);
    assert Gate(0);
  }

  lemma BagJoin(x: multiset<(Word, Mode)>, y: multiset<(Word, Mode)>, z: multiset<(Word, Mode)>)
    ensures x + (y + z) == x + y + z
  {
  }

  lemma WholeJoin(a: seq<Tk>, b: seq<Tk>)
    requires Whole(a) && Whole(b)
    ensures Whole(a + b)
  {
    if b == [] { assert a + b == a; }
  }

  lemma LoneToken(t: Tk, b: seq<Tk>)
    requires !IsOp(t)
    ensures TokRedirs([t] + b) == TokRedirs(b)
  {
    assert ([t] + b)[1..] == b;
  }

  /** What the tokens of a part of the grammar hold, and what its tree holds. */
  ghost predicate Holds(ts: seq<Tk>, words: set<Word>, bag: multiset<(Word, Mode)>) {
    forall z: nat {:trigger Gate(z)} :: Gate(z) ==> Whole(ts) && TokWords(ts) == words && TokRedirs(ts) == bag
  }

  lemma HoldsBoth(a: seq<Tk>, v: set<Word>, x: multiset<(Word, Mode)>, b: seq<Tk>, w: set<Word>,
      y: multiset<(Word, Mode)>)
    requires Holds(a, v, x) && Holds(b, w, y)
    ensures Holds(a + b, v + w, x + y)
  {
    assert Gate(0);
    WordsJoin(a, b);
    RedirsJoin(a, b);
    WholeJoin(a, b);
  }

  lemma HoldsSym(c: char)
    requires !IsOp(S(c))
    ensures Holds([S(c)], {}, multiset{})
  {
    assert [S(c)][1..] == [];
  }

  function Files(rs: Redirections): set<Word> {
    set r | r in rs :: r.0
  }

  lemma {:induction false} RedirsHold(rs: Redirections)
    ensures Holds(RedirToks(rs), Files(rs), multiset(rs))
  {
    if rs != [] {
      var r, more := rs[0], rs[1..];
      RedirsHold(more);
      assert rs == [r] + more;
      OneHolds(r);
      HoldsBoth([S(OpOf(r.1)), W(r.0)], {r.0}, multiset{r}, RedirToks(more), Files(more), multiset(more));
      assert Files(rs) == {r.0} + Files(more);
    }
  }

  lemma OneHolds(r: (Word, Mode))
    ensures Holds([S(OpOf(r.1)), W(r.0)], {r.0}, multiset{r})
  {
    var t, last := S(OpOf(r.1)), [W(r.0)];
    assert [t, W(r.0)] == [t] + last;
    WordHolds(r.0);
    assert Gate(0);
    NextToken(t, W(r.0), last);
    WordsJoin([t], last);
    SymWords(OpOf(r.1));
    assert ModeOf(OpOf(r.1)) == r.1;
  }

  lemma SymWords(c: char)
    ensures TokWords([S(c)]) == {}
  {
    assert [S(c)][1..] == [];
  }

  lemma {:induction false} ArgsHold(args: seq<Arg>)
    ensures Holds(ArgToks(args), (set w | w in ArgWords(args)) + Files(ArgRedirs(args)), multiset(ArgRedirs(args)))
  {
    if args == [] {
      assert (set w: Word | w in ArgWords(args)) == {};
    } else {
      var a, more := args[0], args[1..];
      ArgsHold(more);
      RedirsHold(a.redirs);
      WordHolds(a.word);
      HoldsBoth([W(a.word)], {a.word}, multiset{}, RedirToks(a.redirs), Files(a.redirs), multiset(a.redirs));
      var v, w := {a.word} + Files(a.redirs), (set w | w in ArgWords(more)) + Files(ArgRedirs(more));
      HoldsBoth([W(a.word)] + RedirToks(a.redirs), v, multiset{} + multiset(a.redirs), ArgToks(more), w,
          multiset(ArgRedirs(more)));
      ArgSets(args, v, w);
    }
  }

  lemma WordHolds(w: Word)
    ensures Holds([W(w)], {w}, multiset{})
  {
    assert [W(w)][1..] == [];
  }

  lemma ArgSets(args: seq<Arg>, v: set<Word>, w: set<Word>)
    requires args != [] && v == {args[0].word} + Files(args[0].redirs)
    requires w == (set x | x in ArgWords(args[1..])) + Files(ArgRedirs(args[1..]))
    ensures v + w == (set x | x in ArgWords(args)) + Files(ArgRedirs(args))
    ensures multiset(ArgRedirs(args)) == multiset(args[0].redirs) + multiset(ArgRedirs(args[1..]))
  {
  }

  lemma {:induction false} AroundHolds(c: Cmd, rs: Redirections)
    ensures WordSet(Around(c, rs)) == WordSet(c) + Files(rs) && RedirBag(Around(c, rs)) == RedirBag(c) + multiset(rs)
    decreases |rs|
  {
    if rs != [] {
      var k := |rs| - 1;
      AroundHolds(c, rs[..k]);
      assert rs == rs[..k] + [rs[k]];
      assert Files(rs) == Files(rs[..k]) + {rs[k].0};
    }
  }

  lemma {:induction false} AmpsHold(c: Cmd, n: nat)
    ensures Holds(Amps(n), {}, multiset{}) && WordSet(InBack(c, n)) == WordSet(c)
            && RedirBag(InBack(c, n)) == RedirBag(c)
  {
    if n > 0 {
      AmpsHold(c, n - 1);
      HoldsSym('&');
      HoldsBoth([S('&')], {}, multiset{}, Amps(n - 1), {}, multiset{});
    }
  }

  lemma {:induction false} SimpleHolds(x: Simple)
    ensures Holds(SimpleToks(x), WordSet(SimpleTree(x)), RedirBag(SimpleTree(x)))
    decreases x, 0
  {
    match x
    case Group(l, rs) =>
      var c := LineTree(l);
      LineHolds(l);
      RedirsHold(rs);
      HoldsSym('(');
      HoldsSym(')');
      HoldsBoth([S('(')], {}, multiset{}, LineToks(l), WordSet(c), RedirBag(c));
      HoldsBoth([S('(')] + LineToks(l), {} + WordSet(c), multiset{} + RedirBag(c), [S(')')], {}, multiset{});
      HoldsBoth([S('(')] + LineToks(l) + [S(')')], {} + WordSet(c) + {}, multiset{} + RedirBag(c) + multiset{},
          RedirToks(rs), Files(rs), multiset(rs));
      AroundHolds(c, rs);
      assert {} + WordSet(c) + {} + Files(rs) == WordSet(c) + Files(rs);
      assert multiset{} + RedirBag(c) + multiset{} + multiset(rs) == RedirBag(c) + multiset(rs);
    case Plain(rs, args) =>
      var all := rs + ArgRedirs(args);
      RedirsHold(rs);
      ArgsHold(args);
      var w := (set w | w in ArgWords(args)) + Files(ArgRedirs(args));
      HoldsBoth(RedirToks(rs), Files(rs), multiset(rs), ArgToks(args), w, multiset(ArgRedirs(args)));
      AroundHolds(Exec(ArgWords(args)), all);
      assert Files(all) == Files(rs) + Files(ArgRedirs(args));
      assert Files(rs) + w == WordSet(Exec(ArgWords(args))) + Files(all);
  }

  /** Tokens without words add nothing. */
  lemma HoldsEmpty(a: seq<Tk>, v: set<Word>, x: multiset<(Word, Mode)>, b: seq<Tk>, ts: seq<Tk>)
    requires Holds(a, v, x) && Holds(b, {}, multiset{}) && ts == a + b
    ensures Holds(ts, v, x)
  {
    HoldsBoth(a, v, x, b, {}, multiset{});
    assert v + {} == v && x + multiset{} == x;
  }

  lemma {:induction false} PipeHolds(p: Pipeline)
    ensures Holds(PipeToks(p), WordSet(PipeTree(p)), RedirBag(PipeTree(p)))
    decreases p, 1
  {
    match p
    case PipeEnd(x) => SimpleHolds(x);
    case PipeTo(x, r) =>
      var c, d := SimpleTree(x), PipeTree(r);
      SimpleHolds(x);
      PipeHolds(r);
      HoldsSym('|');
      var ts := SimpleToks(x) + [S('|')];
      HoldsEmpty(SimpleToks(x), WordSet(c), RedirBag(c), [S('|')], ts);
      HoldsBoth(ts, WordSet(c), RedirBag(c), PipeToks(r), WordSet(d), RedirBag(d));
  }

  lemma {:induction false} LineHolds(l: Line)
    ensures Holds(LineToks(l), WordSet(LineTree(l)), RedirBag(LineTree(l)))
    decreases l, 2
  {
    var c := PipeTree(l.pipe);
    PipeHolds(l.pipe);
    AmpsHold(c, l.backs);
    var ts := PipeToks(l.pipe) + Amps(l.backs);
    HoldsEmpty(PipeToks(l.pipe), WordSet(c), RedirBag(c), Amps(l.backs), ts);
    if l.LineSeq? {
      LineHolds(l.rest);
      RestHolds(l, ts, c);
    }
  }

  lemma RestHolds(l: Line, ts: seq<Tk>, c: Cmd)
    requires l.LineSeq? && ts == PipeToks(l.pipe) + Amps(l.backs) && Holds(ts, WordSet(c), RedirBag(c))
    requires LineTree(l).left == InBack(c, l.backs)
    requires Holds(LineToks(l.rest), WordSet(LineTree(l.rest)), RedirBag(LineTree(l.rest)))
    ensures Holds(LineToks(l), WordSet(LineTree(l)), RedirBag(LineTree(l)))
  {
    var d, more := LineTree(l.rest), ts + [S(';')];
    HoldsSym(';');
    HoldsEmpty(ts, WordSet(c), RedirBag(c), [S(';')], more);
    HoldsBoth(more, WordSet(c), RedirBag(c), LineToks(l.rest), WordSet(d), RedirBag(d));
    AmpsHold(c, l.backs);
  }

  /**
   Nothing of a line is lost or made up: the arguments and file names of its commands are
   exactly the maximal words of the line, and its redirections are exactly the signs <, >
   and >> of the line, each with the word behind it.
   */
  lemma NothingLost(s: string)
    requires NoNul(s) && ParseCmd(s).Ok?
    ensures forall w: Word :: w in WordSet(ParseCmd(s).cmd) <==> MaxWord(s, w.0, w.1)
    ensures Lexed(s, 0, Toks(s, 0)) && RedirBag(ParseCmd(s).cmd) == TokRedirs(Toks(s, 0))
  {
    var l := ParsedIsSentence(s);
    LineHolds(l);
    assert Gate(0);
    var ts := ToksLexed(s, 0);
    forall w: Word ensures w in WordSet(ParseCmd(s).cmd) <==> MaxWord(s, w.0, w.1) {
      WordAmong(ts, w);
      if W(w) in ts { TokenIsWord(s, 0, ts, w); }
      if MaxWord(s, w.0, w.1) { WordIsToken(s, 0, ts, w.0, w.1); }
    }
  }

  /** A redirection behind the arguments goes around the command, a word before them stays an argument. */
  lemma EchoHi(s: string)
    requires s == "echo hi > out"
    ensures ParseCmd(s) == Ok(Redir(Exec([(0, 4), (5, 7)]), (10, 13), Out), 13)
  {
    var l := LineEnd(PipeEnd(Plain([], [Arg((0, 4), []), Arg((5, 7), [((10, 13), Out)])])), 0);
    var a, b, c, d := W((0, 4)), W((5, 7)), S('>'), W((10, 13));
    EchoToks(s, a, b, c, d);
    EchoTree(l, a, b, c, d);
    SentenceIsParsed(s, l);
  }

  lemma EchoToks(s: string, a: Tk, b: Tk, c: Tk, d: Tk)
    requires s == "echo hi > out" && a == W((0, 4)) && b == W((5, 7)) && c == S('>') && d == W((10, 13))
    ensures NoNul(s) && Toks(s, 0) == [a, b, c, d]
  {
    var t4 := LexedCons(s, 9, d, 10, 13, []);
    var t3 := LexedCons(s, 7, c, 8, 9, t4);
    var t2 := LexedCons(s, 4, b, 5, 7, t3);
    var t1 := LexedCons(s, 0, a, 0, 4, t2);
    var ts := ToksLexed(s, 0);
    LexUnique(s, 0, t1, ts);
  }

  lemma EchoTree(l: Line, a: Tk, b: Tk, c: Tk, d: Tk)
    requires a == W((0, 4)) && b == W((5, 7)) && c == S('>') && d == W((10, 13))
    requires l == LineEnd(PipeEnd(Plain([], [Arg((0, 4), []), Arg((5, 7), [((10, 13), Out)])])), 0)
    ensures LineFits(l) && LineToks(l) == [a, b, c, d] && LineTree(l) == Redir(Exec([(0, 4), (5, 7)]), (10, 13), Out)
  {
    var y := Arg((5, 7), [((10, 13), Out)]);
    var args, last := [Arg((0, 4), []), y], [y];
    assert args[1..] == last && last[1..] == [];
    var rs := y.redirs;
    assert rs[1..] == [] && rs[..0] == [];
    assert RedirToks(rs) == [c, d];
    assert ArgToks(last) == [b, c, d] && ArgToks(args) == [a, b, c, d];
    assert ArgWords(last) == [(5, 7)] && ArgWords(args) == [(0, 4), (5, 7)];
    assert ArgRedirs(last) == rs && ArgRedirs(args) == rs && [] + rs == rs;
    assert Around(Exec([(0, 4), (5, 7)]), rs) == Redir(Exec([(0, 4), (5, 7)]), (10, 13), Out);
  }
}
