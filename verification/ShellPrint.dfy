/**
 A canonical, parenthesised way to write down a command tree, and the proof that the
 shell's parser reads every such line back as the same tree.
 */
module ShellPrint {
  import opened Gates
  import opened ShellParse

  /** A command with its words spelled out. */
  datatype Tree = TExec(argv: seq<string>) | TRedir(tree: Tree, file: string, mode: Mode)
      | TPipe(left: Tree, right: Tree) | TList(left: Tree, right: Tree) | TBack(tree: Tree)

  predicate WordOk(w: string) {
    w != "" && forall k :: 0 <= k < |w| ==> !Ws(w[k]) && !Sym(w[k]) && w[k] != NUL
  }

  predicate AllWords(argv: seq<string>) {
    forall i :: 0 <= i < |argv| ==> WordOk(argv[i])
  }

  lemma TailWords(argv: seq<string>)
    requires argv != [] && AllWords(argv)
    ensures WordOk(argv[0]) && AllWords(argv[1..])
  {
    forall i | 0 <= i < |argv[1..]| ensures WordOk(argv[1..][i]) { assert argv[1..][i] == argv[i + 1]; }
  }

  /** At most MAXARGS - 1 arguments in each command, and words free of white space and symbols. */
  predicate TreeOk(t: Tree) {
    match t
    case TExec(argv) => |argv| < MAXARGS && AllWords(argv)
    case TRedir(u, f, _) => TreeOk(u) && WordOk(f)
    case TPipe(l, r) => TreeOk(l) && TreeOk(r)
    case TList(l, r) => TreeOk(l) && TreeOk(r)
    case TBack(u) => TreeOk(u)
  }

  function Size(t: Tree): nat {
    match t
    case TExec(_) => 1
    case TRedir(u, _, _) => Size(u) + 1
    case TPipe(l, r) => Size(l) + Size(r) + 1
    case TList(l, r) => Size(l) + Size(r) + 1
    case TBack(u) => Size(u) + 1
  }

  function Words(argv: seq<string>): string {
    if argv == [] then "" else if |argv| == 1 then argv[0] else argv[0] + " " + Words(argv[1..])
  }

  function Op(m: Mode): string {
    match m case In => "<" case Out => ">" case Append => ">>"
  }

  function Block(t: Tree): string
    decreases t, 1
  {
    "(" + Print(t) + ")"
  }

  function Print(t: Tree): string
    decreases t, 0
  {
    match t
    case TExec(argv) => Words(argv)
    case TRedir(u, f, m) => Block(u) + Op(m) + f
    case TPipe(l, r) => Block(l) + "|" + Block(r)
    case TList(l, r) => Block(l) + ";" + Block(r)
    case TBack(u) => Block(u) + "&"
  }

  /** The words of a parsed command, taken from the line. */
  function Text(s: string, w: Word): string {
    if w.0 <= w.1 <= |s| then s[w.0..w.1] else ""
  }

  function Texts(s: string, argv: seq<Word>): seq<string> {
    seq(|argv|, i requires 0 <= i < |argv| => Text(s, argv[i]))
  }

  function Spelled(s: string, c: Cmd): Tree {
    match c
    case Exec(argv) => TExec(Texts(s, argv))
    case Redir(d, f, m) => TRedir(Spelled(s, d), Text(s, f), m)
    case Pipe(l, r) => TPipe(Spelled(s, l), Spelled(s, r))
    case List(l, r) => TList(Spelled(s, l), Spelled(s, r))
    case Back(d) => TBack(Spelled(s, d))
  }

  // ---------- strings within the line ----------

  /** The string `w` stands at position `i` of the line (unfolded only at a Gate). */
  ghost predicate At(s: string, i: nat, w: string) {
    i + |w| <= |s| && forall z: nat {:trigger Gate(z)} :: Gate(z) ==> s[i..i + |w|] == w
  }

  lemma AtSplit(s: string, i: nat, a: string, b: string)
    requires At(s, i, a + b)
    ensures At(s, i, a) && At(s, i + |a|, b)
  {
    assert Gate(0);
    assert s[i..i + |a|] == (a + b)[..|a|];
    assert s[i + |a|..i + |a| + |b|] == (a + b)[|a|..];
  }

  lemma AtChar(s: string, i: nat, w: string, k: nat)
    requires At(s, i, w) && k < |w|
    ensures i + k < |s| && s[i + k] == w[k]
  {
    assert Gate(0);
    assert s[i..i + |w|][k] == w[k];
  }

  /** What may follow a printed command: the end, or a closing parenthesis. */
  predicate Stop(s: string, i: nat) {
    i <= |s| && (i < |s| ==> s[i] == ')')
  }

  /** A symbol of one character at the cursor. */
  lemma SymToken(s: string, i: nat)
    requires i < |s| && Sym(s[i]) && s[i] != '>' && i + 1 <= |s| && (i + 1 < |s| ==> !Ws(s[i + 1]))
    ensures Skip(s, i) == i && GetToken(s, i) == Token(s[i], i, i + 1, i + 1)
  {
    assert Skip(s, i + 1) == i + 1;
  }

  /** A word at the cursor, up to a character that ends it. */
  lemma WordToken(s: string, i: nat, w: string)
    requires WordOk(w) && At(s, i, w) && (i + |w| < |s| ==> Ws(s[i + |w|]) || Sym(s[i + |w|]))
    ensures Skip(s, i) == i && GetToken(s, i) == Token('a', i, i + |w|, Skip(s, i + |w|)) && s[i] == w[0]
  {
    AtChar(s, i, w, 0);
    WordEndAt(s, i, w, 0);
  }

  lemma {:induction false} WordEndAt(s: string, i: nat, w: string, k: nat)
    requires WordOk(w) && At(s, i, w) && k <= |w| && (i + |w| < |s| ==> Ws(s[i + |w|]) || Sym(s[i + |w|]))
    ensures WordEnd(s, i + k) == i + |w|
    decreases |w| - k
  {
    if k < |w| {
      AtChar(s, i, w, k);
      WordEndAt(s, i, w, k + 1);
    }
  }

  // ---------- words ----------

  lemma NoSym(c: char)
    requires !Sym(c)
    ensures c !in "|)&;" && c !in "<>" && c !in "("
  {
  }

  /** The loop of parseexec stops at the end of a command. */
  lemma ArgsEnd(s: string, i: nat, done: seq<Word>, list: seq<(Word, Mode)>)
    requires Stop(s, i)
    ensures ParseArgs(s, i, done, list) == Ok(Wrap(Exec(done), list), i)
  {
    assert Skip(s, i) == i;
    if i < |s| { assert s[i] in "|)&;"; }
  }

  /** The loop of parseexec, with these arguments read, gives this command (unfolded only at a Gate). */
  ghost predicate ArgsFrom(s: string, i: nat, done: seq<Word>, c: Cmd, e: nat) {
    forall z: nat {:trigger Gate(z)} :: Gate(z) ==> i <= |s| && ParseArgs(s, i, done, []) == Ok(c, e)
  }

  /** One word is one round of it. */
  lemma OneArg(s: string, i: nat, w: string, k: nat, j: nat, done: seq<Word>, more: seq<Word>, c: Cmd, e: nat)
    requires WordOk(w) && At(s, i, w) && k == i + |w| && (k < |s| ==> Ws(s[k]) || Sym(s[k])) && |done| + 1 < MAXARGS
    requires Skip(s, k) == j && (j < |s| ==> s[j] != '<' && s[j] != '>' && !Ws(s[j]))
    requires more == done + [(i, k)] && ArgsFrom(s, j, more, c, e)
    ensures ArgsFrom(s, i, done, c, e)
  {
    WordToken(s, i, w);
    AtChar(s, i, w, 0);
    NoSym(s[i]);
    NoRedirs(s, j);
    assert !Peek(s, i, "|)&;");
    var none: seq<(Word, Mode)> := [];
    assert none + none == none;
    assert ParseArgs(s, i, done, []) == ParseArgs(s, j, more, []);
    assert Gate(0);
  }

  lemma TextsAdd(s: string, done: seq<Word>, i: nat, w: string, argv: seq<string>)
    requires At(s, i, w) && argv != [] && argv[0] == w
    ensures Texts(s, done + [(i, i + |w|)]) + argv[1..] == Texts(s, done) + argv
  {
    assert Gate(0);
    assert Texts(s, done + [(i, i + |w|)]) == Texts(s, done) + [w];
    assert argv == [w] + argv[1..];
  }

  /** The loop of parseexec reads the words of a command. */
  lemma {:induction false} ArgsRead(s: string, i: nat, argv: seq<string>, t: string, e: nat, done: seq<Word>)
      returns (c: Cmd)
    requires t == Words(argv) && At(s, i, t) && e == i + |t| && Stop(s, e) && |done| + |argv| < MAXARGS
             && AllWords(argv)
    ensures ArgsFrom(s, i, done, c, e) && c.Exec? && Texts(s, c.argv) == Texts(s, done) + argv
    decreases |argv|
  {
    if argv == [] {
      ArgsEnd(s, i, done, []);
      c := Exec(done);
    } else {
      var w, tail := argv[0], argv[1..];
      TailWords(argv);
      var k, j, rest := NextWord(s, i, argv, t, e);
      var more: seq<Word> := done + [(i, k)];
      c := ArgsRead(s, j, tail, rest, e, more);
      OneArg(s, i, w, k, j, done, more, c, e);
      TextsAdd(s, done, i, w, argv);
    }
  }

  /** After a word the cursor is at the next word or at the end of the command. */
  lemma NextWord(s: string, i: nat, argv: seq<string>, t: string, e: nat) returns (k: nat, j: nat, rest: string)
    requires argv != [] && t == Words(argv) && At(s, i, t) && e == i + |t| && Stop(s, e) && AllWords(argv)
    ensures At(s, i, argv[0]) && k == i + |argv[0]| <= |s| && (k < |s| ==> Ws(s[k]) || Sym(s[k]))
    ensures j <= |s| && Skip(s, k) == j && (j < |s| ==> s[j] != '<' && s[j] != '>' && !Ws(s[j]))
    ensures rest == Words(argv[1..]) && At(s, j, rest) && e == j + |rest|
  {
    var w := argv[0];
    k, rest := i + |w|, Words(argv[1..]);
    TailWords(argv);
    if |argv| > 1 {
      FirstChar(argv[1..]) by { TailWords(argv[1..]); }
      j := SecondWord(s, i, w, rest);
    } else {
      j := k;
      assert rest == "";
    }
  }

  lemma SecondWord(s: string, i: nat, w: string, rest: string) returns (j: nat)
    requires At(s, i, w + " " + rest) && rest != "" && !Ws(rest[0])
    ensures j == i + |w| + 1 && At(s, i, w) && At(s, j, rest) && s[i + |w|] == ' ' && Skip(s, i + |w|) == j
            && s[j] == rest[0]
  {
    AtSplit(s, i, w + " ", rest);
    AtSplit(s, i, w, " ");
    AtChar(s, i + |w|, " ", 0);
    j := i + |w| + 1;
    AtChar(s, j, rest, 0);
    assert Skip(s, i + |w|) == Skip(s, j);
  }

  lemma FirstChar(argv: seq<string>)
    requires argv != [] && WordOk(argv[0])
    ensures Words(argv) != "" && Words(argv)[0] == argv[0][0] && !Ws(argv[0][0]) && !Sym(argv[0][0])
  {
  }

  lemma NoRedirs(s: string, i: nat)
    requires i <= |s| && (i < |s| ==> s[i] != '<' && s[i] != '>' && !Ws(s[i]))
    ensures ParseRedirs(s, i) == Redirs([], i) && Skip(s, i) == i
  {
  }

  // ---------- what the parser functions return, unfolded only at a Gate ----------

  ghost predicate RedirsIs(s: string, i: nat, list: seq<(Word, Mode)>, e: nat) {
    forall z: nat {:trigger Gate(z)} :: Gate(z) ==> i <= |s| && ParseRedirs(s, i) == Redirs(list, e)
  }

  ghost predicate ExecIs(s: string, i: nat, c: Cmd, e: nat) {
    forall z: nat {:trigger Gate(z)} :: Gate(z) ==> i <= |s| && ParseExec(s, i) == Ok(c, e)
  }

  ghost predicate PipeIs(s: string, i: nat, c: Cmd, e: nat) {
    forall z: nat {:trigger Gate(z)} :: Gate(z) ==> i <= |s| && ParsePipe(s, i) == Ok(c, e)
  }

  ghost predicate LineIs(s: string, i: nat, c: Cmd, e: nat) {
    forall z: nat {:trigger Gate(z)} :: Gate(z) ==> i <= |s| && ParseLine(s, i) == Ok(c, e)
  }

  /** At the end of the line, or at a character that is neither white space nor one of these. */
  predicate Clear(s: string, e: nat, toks: string) {
    e <= |s| && (e < |s| ==> !Ws(s[e]) && s[e] !in toks)
  }

  lemma NoRedir(s: string, i: nat)
    requires Clear(s, i, "<>")
    ensures RedirsIs(s, i, [], i)
  {
    assert Skip(s, i) == i;
  }

  /** parseexec at an opening parenthesis. */
  lemma ExecBlock(s: string, i: nat, k: nat, c: Cmd, e: nat, j: nat, list: seq<(Word, Mode)>, x: nat, w: Cmd)
    requires i + 1 <= e < |s| && s[i] == '(' && !Ws(s[i + 1]) && k == i + 1 && LineIs(s, k, c, e) && s[e] == ')'
             && Clear(s, e + 1, "")
    requires j == e + 1 && RedirsIs(s, j, list, x) && w == Wrap(c, list)
    ensures ExecIs(s, i, w, x)
  {
    assert Gate(0);
    SymToken(s, i);
    SymToken(s, e);
    assert s[i] in "(" && s[e] in ")";
    BlockParts(s, i, k, c, e, j, list, x);
  }

  lemma BlockParts(s: string, i: nat, k: nat, c: Cmd, e: nat, j: nat, list: seq<(Word, Mode)>, x: nat)
    requires i <= k <= |s| && e <= j <= |s| && Peek(s, i, "(") && GetToken(s, Skip(s, i)).next == k
             && ParseLine(s, k) == Ok(c, e)
    requires Peek(s, e, ")") && GetToken(s, Skip(s, e)).next == j && ParseRedirs(s, j) == Redirs(list, x)
    ensures ParseExec(s, i) == Ok(Wrap(c, list), x)
  {
  }

  lemma PipeEnd(s: string, i: nat, c: Cmd, e: nat)
    requires ExecIs(s, i, c, e) && Clear(s, e, "|")
    ensures PipeIs(s, i, c, e)
  {
    assert Gate(0);
    assert Skip(s, e) == e;
  }

  lemma PipeStep(s: string, i: nat, c: Cmd, j: nat, k: nat, d: Cmd, e: nat, w: Cmd)
    requires ExecIs(s, i, c, j) && j + 1 < |s| && s[j] == '|' && !Ws(s[j + 1]) && k == j + 1 && PipeIs(s, k, d, e)
             && w == Pipe(c, d)
    ensures PipeIs(s, i, w, e)
  {
    assert Gate(0);
    SymToken(s, j);
    assert s[j] in "|";
  }

  lemma NoBacks(s: string, e: nat, c: Cmd)
    requires Clear(s, e, "&")
    ensures ParseBacks(s, e, c) == (c, e) && Skip(s, e) == e
  {
    assert Skip(s, e) == e;
  }

  lemma LineEnd(s: string, i: nat, c: Cmd, e: nat)
    requires PipeIs(s, i, c, e) && Stop(s, e)
    ensures LineIs(s, i, c, e)
  {
    assert Gate(0);
    NoBacks(s, e, c);
    assert !Peek(s, e, ";");
  }

  lemma LineList(s: string, i: nat, c: Cmd, j: nat, k: nat, d: Cmd, e: nat, w: Cmd)
    requires PipeIs(s, i, c, j) && j + 1 < |s| && s[j] == ';' && !Ws(s[j + 1]) && k == j + 1 && LineIs(s, k, d, e)
             && w == List(c, d)
    ensures LineIs(s, i, w, e)
  {
    assert Gate(0);
    NoBacks(s, j, c);
    SymToken(s, j);
    assert s[j] in ";";
  }

  lemma LineBack(s: string, i: nat, c: Cmd, j: nat, e: nat, w: Cmd)
    requires PipeIs(s, i, c, j) && j < |s| && s[j] == '&' && e == j + 1 && Stop(s, e) && w == Back(c)
    ensures LineIs(s, i, w, e)
  {
    assert Gate(0);
    SymToken(s, j);
    NoBacks(s, j + 1, Back(c));
    assert s[j] in "&";
    assert ParseBacks(s, j, c) == (Back(c), j + 1);
    assert !Peek(s, j + 1, ";");
  }

  /** One redirection up to the end of the command. */
  lemma OneRedir(s: string, i: nat, j: nat, o: string, f: string, m: Mode, e: nat) returns (list: seq<(Word, Mode)>)
    requires WordOk(f) && o == Op(m) && At(s, i, o) && j == i + |o| && At(s, j, f) && Stop(s, e) && e == j + |f|
    ensures list == [((j, e), m)] && RedirsIs(s, i, list, e)
  {
    AtChar(s, j, f, 0);
    RedirToken(s, i, m);
    WordToken(s, j, f);
    assert Skip(s, e) == e;
    assert ParseRedirs(s, e) == Redirs([], e);
    list := RedirRound(s, i, j, e, m);
  }

  lemma RedirRound(s: string, i: nat, j: nat, e: nat, m: Mode) returns (list: seq<(Word, Mode)>)
    requires i < j < e <= |s| && (s[i] == '<' || s[i] == '>') && Skip(s, i) == i && GetToken(s, i).next == j
             && ModeOf(GetToken(s, i).kind) == m
    requires GetToken(s, j) == Token('a', j, e, e) && ParseRedirs(s, e) == Redirs([], e)
    ensures list == [((j, e), m)] && RedirsIs(s, i, list, e)
  {
    list := [((j, e), m)];
    assert s[i] in "<>";
    var none: seq<(Word, Mode)> := [];
    assert list + none == list;
  }

  lemma RedirToken(s: string, i: nat, m: Mode)
    requires At(s, i, Op(m)) && i + |Op(m)| < |s| && !Ws(s[i + |Op(m)|]) && !Sym(s[i + |Op(m)|])
    ensures Skip(s, i) == i && GetToken(s, i).next == i + |Op(m)| && ModeOf(GetToken(s, i).kind) == m
            && (s[i] == '<' || s[i] == '>')
  {
    AtChar(s, i, Op(m), 0);
    if m == Append { AtChar(s, i, Op(m), 1); }
    assert Skip(s, i + |Op(m)|) == i + |Op(m)|;
  }

  // ---------- commands ----------

  lemma PrintFirst(t: Tree)
    requires TreeOk(t)
    ensures Print(t) != "" ==> !Ws(Print(t)[0])
  {
    match t
    case TExec(argv) =>
      if argv != [] { FirstChar(argv) by { TailWords(argv); } }
    case _ =>
  }

  lemma ExecRead(s: string, i: nat, argv: seq<string>, e: nat) returns (c: Cmd)
    requires |argv| < MAXARGS && AllWords(argv) && At(s, i, Words(argv)) && e == i + |Words(argv)| && Stop(s, e)
    ensures LineIs(s, i, c, e) && Spelled(s, c) == TExec(argv)
  {
    c := ArgsRead(s, i, argv, Words(argv), e, []);
    assert Texts(s, []) + argv == argv;
    ExecStart(s, i, argv, c, e);
    PipeEnd(s, i, c, e);
    LineEnd(s, i, c, e);
  }

  lemma ExecStart(s: string, i: nat, argv: seq<string>, c: Cmd, e: nat)
    requires AllWords(argv) && At(s, i, Words(argv)) && Stop(s, i + |Words(argv)|) && ArgsFrom(s, i, [], c, e)
    ensures ExecIs(s, i, c, e)
  {
    if argv != [] {
      FirstChar(argv) by { TailWords(argv); }
      AtChar(s, i, Words(argv), 0);
      NoSym(s[i]);
    }
    NoRedirs(s, i);
    assert Gate(0);
    assert !Peek(s, i, "(");
  }

  /** A parenthesised command, and the redirections that follow. */
  lemma BlockRead(s: string, i: nat, t: Tree, b: string, j: nat, list: seq<(Word, Mode)>, x: nat)
      returns (c: Cmd, w: Cmd)
    requires TreeOk(t) && b == Block(t) && At(s, i, b) && j == i + |b| && Clear(s, j, "") && RedirsIs(s, j, list, x)
    ensures Spelled(s, c) == t && w == Wrap(c, list) && ExecIs(s, i, w, x)
    decreases Size(t), 5
  {
    var k, p := i + 1, Print(t);
    var e := k + |p|;
    InBlock(s, i, p);
    PrintFirst(t);
    if p != "" { AtChar(s, k, p, 0); }
    c := LineRead(s, k, t, e);
    w := Wrap(c, list);
    ExecBlock(s, i, k, c, e, j, list, x, w);
  }

  lemma InBlock(s: string, i: nat, p: string)
    requires At(s, i, "(" + p + ")")
    ensures i + 1 + |p| < |s| && s[i] == '(' && At(s, i + 1, p) && s[i + 1 + |p|] == ')'
  {
    AtSplit(s, i, "(" + p, ")");
    AtSplit(s, i, "(", p);
    AtChar(s, i, "(", 0);
    AtChar(s, i + 1 + |p|, ")", 0);
  }

  /** Three strings in a row. */
  lemma ThreeAt(s: string, i: nat, a: string, b: string, c: string, j: nat, k: nat)
    requires At(s, i, a + b + c) && b != "" && c != "" && j == i + |a| && k == j + |b|
    ensures At(s, i, a) && At(s, j, b) && At(s, k, c) && k < |s|
    ensures s[j] == b[0] && s[k] == c[0] && |a + b + c| == |a| + |b| + |c|
  {
    AtSplit(s, i, a + b, c);
    AtSplit(s, i, a, b);
    AtChar(s, j, b, 0);
    AtChar(s, k, c, 0);
  }

  lemma RedirRead(s: string, i: nat, u: Tree, f: string, m: Mode, b: string, e: nat) returns (c: Cmd)
    requires TreeOk(u) && WordOk(f) && b == Block(u) && At(s, i, b + Op(m) + f) && e == i + |b| + |Op(m)| + |f|
             && Stop(s, e)
    ensures LineIs(s, i, c, e) && Spelled(s, c) == TRedir(u, f, m)
    decreases Size(u) + 1, 3
  {
    c := RedirBlock(s, i, u, f, m, b, e);
    PipeEnd(s, i, c, e);
    LineEnd(s, i, c, e);
  }

  lemma RedirBlock(s: string, i: nat, u: Tree, f: string, m: Mode, b: string, e: nat) returns (c: Cmd)
    requires TreeOk(u) && WordOk(f) && b == Block(u) && At(s, i, b + Op(m) + f) && e == i + |b| + |Op(m)| + |f|
             && Stop(s, e)
    ensures ExecIs(s, i, c, e) && Spelled(s, c) == TRedir(u, f, m)
    decreases Size(u) + 1, 2
  {
    var j, o := i + |b|, Op(m);
    var k := j + |o|;
    ThreeAt(s, i, b, o, f, j, k);
    var list := OneRedir(s, j, k, o, f, m, e);
    var d;
    d, c := BlockRead(s, i, u, b, j, list, e);
    WrapOne(s, d, u, k, e, f, m, list, c);
  }

  lemma WrapOne(s: string, d: Cmd, u: Tree, q: nat, e: nat, f: string, m: Mode, list: seq<(Word, Mode)>, c: Cmd)
    requires At(s, q, f) && e == q + |f| && Spelled(s, d) == u && list == [((q, e), m)] && c == Wrap(d, list)
    ensures Spelled(s, c) == TRedir(u, f, m)
  {
    assert c == Redir(d, (q, e), m);
    assert Gate(0);
  }

  /** A parenthesised command with no redirection behind it. */
  lemma BlockAlone(s: string, i: nat, t: Tree, b: string, j: nat) returns (c: Cmd)
    requires TreeOk(t) && b == Block(t) && At(s, i, b) && j == i + |b| && Clear(s, j, "<>")
    ensures Spelled(s, c) == t && ExecIs(s, i, c, j)
    decreases Size(t), 6
  {
    NoRedir(s, j);
    var d;
    d, c := BlockRead(s, i, t, b, j, [], j);
  }

  /** Two parenthesised commands with a symbol between them. */
  lemma TwoBlocks(s: string, i: nat, l: Tree, r: Tree, a: string, op: string, b: string, j: nat, k: nat, e: nat)
      returns (x: Cmd, y: Cmd)
    requires TreeOk(l) && TreeOk(r) && a == Block(l) && b == Block(r) && (op == "|" || op == ";")
    requires At(s, i, a + op + b) && j == i + |a| && k == j + 1 && e == k + |b| && Stop(s, e)
    ensures k < |s| && s[j] == op[0] && !Ws(s[k])
    ensures Spelled(s, x) == l && ExecIs(s, i, x, j) && Spelled(s, y) == r && ExecIs(s, k, y, e)
    decreases Size(l) + Size(r) + 1, 2
  {
    assert b[0] == '(';
    ThreeAt(s, i, a, op, b, j, k);
    x := BlockAlone(s, i, l, a, j);
    y := BlockAlone(s, k, r, b, e);
  }

  lemma PipeRead(s: string, i: nat, l: Tree, r: Tree, a: string, b: string, e: nat) returns (c: Cmd)
    requires TreeOk(l) && TreeOk(r) && a == Block(l) && b == Block(r) && At(s, i, a + "|" + b)
             && e == i + |a| + 1 + |b| && Stop(s, e)
    ensures LineIs(s, i, c, e) && Spelled(s, c) == TPipe(l, r)
    decreases Size(l) + Size(r) + 1, 3
  {
    var j := i + |a|;
    var k := j + 1;
    var x, y := TwoBlocks(s, i, l, r, a, "|", b, j, k, e);
    PipeEnd(s, k, y, e);
    c := Pipe(x, y);
    PipeStep(s, i, x, j, k, y, e, c);
    LineEnd(s, i, c, e);
  }

  lemma ListRead(s: string, i: nat, l: Tree, r: Tree, a: string, b: string, e: nat) returns (c: Cmd)
    requires TreeOk(l) && TreeOk(r) && a == Block(l) && b == Block(r) && At(s, i, a + ";" + b)
             && e == i + |a| + 1 + |b| && Stop(s, e)
    ensures LineIs(s, i, c, e) && Spelled(s, c) == TList(l, r)
    decreases Size(l) + Size(r) + 1, 3
  {
    var j := i + |a|;
    var k := j + 1;
    var x, y := TwoBlocks(s, i, l, r, a, ";", b, j, k, e);
    PipeEnd(s, i, x, j);
    PipeEnd(s, k, y, e);
    LineEnd(s, k, y, e);
    c := List(x, y);
    LineList(s, i, x, j, k, y, e, c);
  }

  lemma BackRead(s: string, i: nat, u: Tree, b: string, e: nat) returns (c: Cmd)
    requires TreeOk(u) && b == Block(u) && At(s, i, b + "&") && e == i + |b| + 1 && Stop(s, e)
    ensures LineIs(s, i, c, e) && Spelled(s, c) == TBack(u)
    decreases Size(u) + 1, 3
  {
    var j := i + |b|;
    AtSplit(s, i, b, "&");
    AtChar(s, j, "&", 0);
    var x := BlockAlone(s, i, u, b, j);
    PipeEnd(s, i, x, j);
    c := Back(x);
    LineBack(s, i, x, j, e, c);
  }

  /** A printed command anywhere in a line, up to the end or a closing parenthesis. */
  lemma LineRead(s: string, i: nat, t: Tree, e: nat) returns (c: Cmd)
    requires TreeOk(t) && At(s, i, Print(t)) && e == i + |Print(t)| && Stop(s, e)
    ensures LineIs(s, i, c, e) && Spelled(s, c) == t
    decreases Size(t), 4
  {
    match t
    case TExec(argv) => c := ExecRead(s, i, argv, e);
    case TRedir(u, f, m) => c := RedirRead(s, i, u, f, m, Block(u), e);
    case TPipe(l, r) => c := PipeRead(s, i, l, r, Block(l), Block(r), e);
    case TList(l, r) => c := ListRead(s, i, l, r, Block(l), Block(r), e);
    case TBack(u) => c := BackRead(s, i, u, Block(u), e);
  }

  /** Parsing the print of a command tree gives the tree back. */
  lemma RoundTrip(t: Tree)
    requires TreeOk(t)
    ensures ParseCmd(Print(t)).Ok? && Spelled(Print(t), ParseCmd(Print(t)).cmd) == t
  {
    var c := LineRead(Print(t), 0, t, |Print(t)|);
    assert Gate(0);
  }
}
