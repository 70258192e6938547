/**
 The grammar of the shell (user/sh.c): tokens and commands of a line, as functions of
 the line and a position in it.  Position |s| stands for the terminating NUL.
 */
module ShellParse {

  const MAXARGS: nat := 10
  const NUL: char := '\0'

  predicate Ws(c: char) {
    c == ' ' || c == '\t' || c == '\r' || c == '\n' || c == '\U{0B}'
  }

  predicate Sym(c: char) {
    c == '<' || c == '|' || c == '>' || c == '&' || c == ';' || c == '(' || c == ')'
  }

  function Skip(s: string, i: nat): (j: nat)
    requires i <= |s|
    ensures i <= j <= |s| && (j < |s| ==> !Ws(s[j])) && (i < |s| && !Ws(s[i]) ==> j == i)
    decreases |s| - i
  {
    if i < |s| && Ws(s[i]) then Skip(s, i + 1) else i
  }

  function WordEnd(s: string, i: nat): (j: nat)
    requires i <= |s|
    ensures i <= j <= |s| && (j < |s| ==> Ws(s[j]) || Sym(s[j])) && (forall k :: i <= k < j ==> !Ws(s[k]) && !Sym(s[k]))
    ensures i < |s| && !Ws(s[i]) && !Sym(s[i]) ==> i < j
    decreases |s| - i
  {
    if i < |s| && !Ws(s[i]) && !Sym(s[i]) then WordEnd(s, i + 1) else i
  }

  /** What gettoken returns, where the token is, and where it leaves the cursor. */
  datatype Token = Token(kind: char, q: nat, eq: nat, next: nat)

  function GetToken(s: string, i: nat): (t: Token)
    requires i <= |s|
    ensures i <= t.q <= t.eq <= t.next <= |s| && (t.kind != NUL ==> i < t.next)
    ensures t.kind == 'a' ==> t.q < t.eq && IsWord(s, t.q, t.eq)
  {
    var q := Skip(s, i);
    if q == |s| || s[q] == NUL then Token(NUL, q, q, Skip(s, q))
    else if s[q] == '>' then
      if q + 1 < |s| && s[q + 1] == '>' then Token('+', q, q + 2, Skip(s, q + 2))
          else Token('>', q, q + 1, Skip(s, q + 1))
    else if Sym(s[q]) then Token(s[q], q, q + 1, Skip(s, q + 1))
    else Token('a', q, WordEnd(s, q), Skip(s, WordEnd(s, q)))
  }

  /** A maximal run of word characters begins at `q` and ends at `eq`. */
  predicate IsWord(s: string, q: nat, eq: nat) {
    && q < eq <= |s| && (forall k :: q <= k < eq ==> !Ws(s[k]) && !Sym(s[k]))
    && (eq < |s| ==> Ws(s[eq]) || Sym(s[eq]))
  }

  /** peek */
  predicate Peek(s: string, i: nat, toks: string)
    requires i <= |s|
  {
    Skip(s, i) < |s| && s[Skip(s, i)] != NUL && s[Skip(s, i)] in toks
  }

  /** Words are kept as the positions of their first character and of the one after them. */
  type Word = (nat, nat)

  datatype Mode = In | Out | Append

  datatype Cmd = Exec(argv: seq<Word>) | Redir(cmd: Cmd, file: Word, mode: Mode) | Pipe(left: Cmd, right: Cmd)
      | List(left: Cmd, right: Cmd) | Back(cmd: Cmd)

  datatype Result = Ok(cmd: Cmd, next: nat) | Panic

  datatype Redirs = Redirs(list: seq<(Word, Mode)>, next: nat) | RedirPanic

  function ModeOf(kind: char): Mode {
    if kind == '<' then In else if kind == '>' then Out else Append
  }

  /** parseredirs: the redirections from here on. */
  function ParseRedirs(s: string, i: nat): (r: Redirs)
    requires i <= |s|
    ensures r.Redirs? ==> i <= r.next <= |s|
    decreases |s| - i
  {
    if !Peek(s, i, "<>") then Redirs([], Skip(s, i))
    else
      var t := GetToken(s, Skip(s, i));
      var f := GetToken(s, t.next);
      if f.kind != 'a' then RedirPanic
      else
        var rest := ParseRedirs(s, f.next);
        if rest.RedirPanic? then RedirPanic else Redirs([((f.q, f.eq), ModeOf(t.kind))] + rest.list, rest.next)
  }

  /** Each redirection goes around what is there. */
  function Wrap(c: Cmd, list: seq<(Word, Mode)>): Cmd
    decreases |list|
  {
    if list == [] then c else Wrap(Redir(c, list[0].0, list[0].1), list[1..])
  }

  /** The loop of parseexec: more arguments and redirections. */
  function ParseArgs(s: string, i: nat, argv: seq<Word>, list: seq<(Word, Mode)>): (r: Result)
    requires i <= |s|
    ensures r.Ok? ==> i <= r.next <= |s|
    decreases |s| - i
  {
    if Peek(s, i, "|)&;") then Ok(Wrap(Exec(argv), list), Skip(s, i))
    else
      var t := GetToken(s, Skip(s, i));
      if t.kind == NUL then Ok(Wrap(Exec(argv), list), t.next)
      else if t.kind != 'a' || |argv| + 1 >= MAXARGS then Panic
      else
        var rs := ParseRedirs(s, t.next);
        if rs.RedirPanic? then Panic else ParseArgs(s, rs.next, argv + [(t.q, t.eq)], list + rs.list)
  }

  /** parseexec, with parseblock. */
  function ParseExec(s: string, i: nat): (r: Result)
    requires i <= |s|
    ensures r.Ok? ==> i <= r.next <= |s|
    decreases |s| - i, 1
  {
    if Peek(s, i, "(") then
      var open := GetToken(s, Skip(s, i));
      var c := ParseLine(s, open.next);
      if c.Panic? || !Peek(s, c.next, ")") then Panic
      else
        var rs := ParseRedirs(s, GetToken(s, Skip(s, c.next)).next);
        if rs.RedirPanic? then Panic else Ok(Wrap(c.cmd, rs.list), rs.next)
    else
      var rs := ParseRedirs(s, i);
      if rs.RedirPanic? then Panic else ParseArgs(s, rs.next, [], rs.list)
  }

  function ParsePipe(s: string, i: nat): (r: Result)
    requires i <= |s|
    ensures r.Ok? ==> i <= r.next <= |s|
    decreases |s| - i, 2
  {
    var l := ParseExec(s, i);
    if l.Panic? then Panic
    else if !Peek(s, l.next, "|") then Ok(l.cmd, Skip(s, l.next))
    else
      var r := ParsePipe(s, GetToken(s, Skip(s, l.next)).next);
      if r.Panic? then Panic else Ok(Pipe(l.cmd, r.cmd), r.next)
  }

  /** The loop of parseline. */
  function ParseBacks(s: string, i: nat, c: Cmd): (r: (Cmd, nat))
    requires i <= |s|
    ensures i <= r.1 <= |s|
    decreases |s| - i
  {
    if Peek(s, i, "&") then ParseBacks(s, GetToken(s, Skip(s, i)).next, Back(c)) else (c, Skip(s, i))
  }

  function ParseLine(s: string, i: nat): (r: Result)
    requires i <= |s|
    ensures r.Ok? ==> i <= r.next <= |s|
    decreases |s| - i, 3
  {
    var p := ParsePipe(s, i);
    if p.Panic? then Panic
    else
      var b := ParseBacks(s, p.next, p.cmd);
      if !Peek(s, b.1, ";") then Ok(b.0, Skip(s, b.1))
      else
        var r := ParseLine(s, GetToken(s, Skip(s, b.1)).next);
        if r.Panic? then Panic else Ok(List(b.0, r.cmd), r.next)
  }

  /** parsecmd, before nulterminate: the whole line must be used up. */
  function ParseCmd(s: string): (r: Result)
    ensures r.Ok? ==> r.next == |s|
  {
    var r := ParseLine(s, 0);
    if r.Panic? || Skip(s, r.next) != |s| then Panic else Ok(r.cmd, |s|)
  }
}
