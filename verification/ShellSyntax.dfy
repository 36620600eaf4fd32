/**
 The command parser of user/sh.c as functions of the line and the cursor: one function per parsing
 routine, with loops as recursion.
 */
module ShellSyntax {

  const MAXARGS := 10

  /** A word as gettoken reports it: from q up to eq. */
  datatype Word = Word(q: nat, eq: nat)

  /** '<', '>' and ">>". */
  datatype Mode = Input | Output | Append

  datatype Cmd<W> =
    | Exec(argv: seq<W>)
    | Redir(cmd: Cmd<W>, file: W, mode: Mode)
    | Pipe(left: Cmd<W>, right: Cmd<W>)
    | List(left: Cmd<W>, right: Cmd<W>)
    | Back(cmd: Cmd<W>)

  /** The command and the cursor, or panic("syntax") and its like. */
  datatype Result = Ok(cmd: Cmd<Word>, s: nat) | Panic

  predicate White(c: char) {
    c == ' ' || c == '\t' || c == '\r' || c == '\n' || c == '\U{0B}'
  }

  predicate Symbol(c: char) {
    c == '<' || c == '|' || c == '>' || c == '&' || c == ';' || c == '(' || c == ')'
  }

  predicate Plain(c: char) {
    !White(c) && !Symbol(c)
  }

  // ----- tokens -----

  function SkipWhite(line: string, s: nat): (e: nat)
    requires s <= |line|
    ensures s <= e <= |line| && (e < |line| ==> !White(line[e]))
    ensures s < |line| && !White(line[s]) ==> e == s
    decreases |line| - s
  {
    if s < |line| && White(line[s]) then SkipWhite(line, s + 1) else s
  }

  function WordEnd(line: string, s: nat): (e: nat)
    requires s <= |line|
    ensures s <= e <= |line| && (forall i :: s <= i < e ==> Plain(line[i])) && (e < |line| ==> !Plain(line[e]))
    decreases |line| - s
  {
    if s < |line| && Plain(line[s]) then WordEnd(line, s + 1) else s
  }

  /** The return value of gettoken, the limits of the token, and the cursor behind it. */
  datatype Token = End(next: nat) | Sym(c: char, next: nat) | Arg(word: Word, next: nat)

  function GetToken(line: string, s: nat): (t: Token)
    requires s <= |line|
    ensures s <= t.next <= |line| && (!t.End? ==> s < t.next)
    ensures t.Arg? ==> IsWord(line, t.word)
  {
    var q := SkipWhite(line, s);
    if q == |line| then End(q)
    else if line[q] == '>' && q + 1 < |line| && line[q + 1] == '>' then Sym('+', SkipWhite(line, q + 2))
    else if Symbol(line[q]) then Sym(line[q], SkipWhite(line, q + 1))
    else
      var e := WordEnd(line, q);
      Arg(Word(q, e), SkipWhite(line, e))
  }

  /** A word is a longest stretch of plain characters. */
  predicate IsWord(line: string, w: Word) {
    && w.q < w.eq <= |line| && (forall i :: w.q <= i < w.eq ==> Plain(line[i]))
    && (w.eq < |line| ==> !Plain(line[w.eq]))
  }

  predicate Peek(line: string, s: nat, toks: set<char>)
    requires s <= |line|
  {
    var q := SkipWhite(line, s);
    q < |line| && line[q] in toks
  }

  // ----- commands -----

  datatype Redirs = Redirs(list: seq<(Word, Mode)>, s: nat) | NoFile

  /** parseredirs: the redirections from s on, after those in list. */
  function ParseRedirs(line: string, s: nat, list: seq<(Word, Mode)>): (r: Redirs)
    requires s <= |line|
    ensures r.Redirs? ==> s <= r.s <= |line|
    decreases |line| - s
  {
    if !Peek(line, s, {'<', '>'}) then Redirs(list, SkipWhite(line, s)) else
    var op := GetToken(line, s);
    var file := GetToken(line, op.next);
    if !op.Sym? || !file.Arg? then NoFile
    else
      var mode := if op.c == '<' then Input else if op.c == '>' then Output else Append;
      ParseRedirs(line, file.next, list + [(file.word, mode)])
  }

  /** The command within redirections, the last of them outermost. */
  function Wrap<W>(cmd: Cmd<W>, list: seq<(W, Mode)>): Cmd<W> {
    if list == [] then cmd else Redir(Wrap(cmd, list[..|list| - 1]), list[|list| - 1].0, list[|list| - 1].1)
  }

  /** The loop of parseexec, with the words and redirections found so far. */
  function ParseArgs(line: string, s: nat, argv: seq<Word>, list: seq<(Word, Mode)>): (r: Result)
    requires s <= |line|
    ensures r.Ok? ==> s <= r.s <= |line|
    decreases |line| - s
  {
    var q := SkipWhite(line, s);
    if Peek(line, s, {'|', ')', '&', ';'}) then Ok(Wrap(Exec(argv), list), q) else
    match GetToken(line, q)
    case End(next) => Ok(Wrap(Exec(argv), list), next)
    case Sym(_, _) => Panic
    case Arg(word, next) =>
      if |argv| + 1 >= MAXARGS then Panic else
      match ParseRedirs(line, next, list)
      case NoFile => Panic
      case Redirs(more, s1) => ParseArgs(line, s1, argv + [word], more)
  }

  function ParseExec(line: string, s: nat): (r: Result)
    requires s <= |line|
    ensures r.Ok? ==> s <= r.s <= |line|
    decreases |line| - s, 1
  {
    if Peek(line, s, {'('}) then ParseBlock(line, s) else
    match ParseRedirs(line, s, [])
    case NoFile => Panic
    case Redirs(list, s1) => ParseArgs(line, s1, [], list)
  }

  function ParseBlock(line: string, s: nat): (r: Result)
    requires s <= |line| && Peek(line, s, {'('})
    ensures r.Ok? ==> s <= r.s <= |line|
    decreases |line| - s, 0
  {
    match ParseLine(line, GetToken(line, s).next)
    case Panic => Panic
    case Ok(cmd, s1) => BlockEnd(line, s1, cmd)
  }

  /** The end of parseblock, after the command. */
  function BlockEnd(line: string, s: nat, cmd: Cmd<Word>): (r: Result)
    requires s <= |line|
    ensures r.Ok? ==> s <= r.s <= |line|
  {
    if !Peek(line, s, {')'}) then Panic else
    match ParseRedirs(line, GetToken(line, s).next, [])
    case NoFile => Panic
    case Redirs(list, s2) => Ok(Wrap(cmd, list), s2)
  }

  function ParsePipe(line: string, s: nat): (r: Result)
    requires s <= |line|
    ensures r.Ok? ==> s <= r.s <= |line|
    decreases |line| - s, 2
  {
    match ParseExec(line, s)
    case Panic => Panic
    case Ok(cmd, s1) =>
      if !Peek(line, s1, {'|'}) then Ok(cmd, SkipWhite(line, s1)) else
      match ParsePipe(line, GetToken(line, s1).next)
      case Panic => Panic
      case Ok(right, s2) => Ok(Pipe(cmd, right), s2)
  }

  /** The loop over '&' in parseline. */
  function ParseBacks(line: string, s: nat, cmd: Cmd<Word>): (r: Result)
    requires s <= |line|
    ensures r.Ok? && s <= r.s <= |line|
    decreases |line| - s
  {
    if !Peek(line, s, {'&'}) then Ok(cmd, SkipWhite(line, s)) else ParseBacks(line, GetToken(line, s).next, Back(cmd))
  }

  function ParseLine(line: string, s: nat): (r: Result)
    requires s <= |line|
    ensures r.Ok? ==> s <= r.s <= |line|
    decreases |line| - s, 3
  {
    match ParsePipe(line, s)
    case Panic => Panic
    case Ok(first, s0) =>
      var Ok(cmd, s1) := ParseBacks(line, s0, first);
      if !Peek(line, s1, {';'}) then Ok(cmd, SkipWhite(line, s1)) else
      match ParseLine(line, GetToken(line, s1).next)
      case Panic => Panic
      case Ok(right, s2) => Ok(List(cmd, right), s2)
  }

  /** parsecmd without nulterminate. */
  function ParseCmd(line: string): Result {
    match ParseLine(line, 0)
    case Panic => Panic
    case Ok(cmd, s) => if SkipWhite(line, s) != |line| then Panic else Ok(cmd, |line|)
  }

  // ----- reading the words off the line -----

  function Slice(line: string, w: Word): string {
    if w.q <= w.eq <= |line| then line[w.q..w.eq] else ""
  }

  function Slices(line: string, argv: seq<Word>): (ws: seq<string>)
    ensures |ws| == |argv| && forall i :: 0 <= i < |argv| ==> ws[i] == Slice(line, argv[i])
  {
    seq(|argv|, i requires 0 <= i < |argv| => Slice(line, argv[i]))
  }

  /** The parsed command with its words read off the line. */
  function Text(line: string, c: Cmd<Word>): Cmd<string> {
    match c
    case Exec(argv) => Exec(Slices(line, argv))
    case Redir(cmd, file, mode) => Redir(Text(line, cmd), Slice(line, file), mode)
    case Pipe(left, right) => Pipe(Text(line, left), Text(line, right))
    case List(left, right) => List(Text(line, left), Text(line, right))
    case Back(cmd) => Back(Text(line, cmd))
  }
}
