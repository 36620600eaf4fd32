/** The command lines of the shell: how they fall into tokens, and what the parser makes of them. */
module ShellLines {
  import opened ShellSyntax
  import opened ShellGrammar

  /** The tokens that gettoken finds from s on. */
  function Lex(line: string, s: nat): seq<Tok>
    requires s <= |line|
    decreases |line| - s
  {
    match GetToken(line, s)
    case End(_) => []
    case Sym(c, next) => [S(c)] + Lex(line, next)
    case Arg(word, next) => [W(Slice(line, word))] + Lex(line, next)
  }

  ghost predicate At(line: string, s: nat, toks: seq<Tok>) {
    s <= |line| && forall key: bool :: AtParts(key, line, s, toks)
  }

  /** The key keeps At from unfolding except where a proof names it. */
  ghost predicate AtParts(key: bool, line: string, s: nat, toks: seq<Tok>)
    requires s <= |line|
  {
    Lex(line, s) == toks
  }

  lemma SkipStays(line: string, s: nat)
    requires s <= |line|
    ensures SkipWhite(line, SkipWhite(line, s)) == SkipWhite(line, s)
    ensures GetToken(line, SkipWhite(line, s)) == GetToken(line, s)
  {
  }

  /** The next token: what gettoken and peek tell of it. */
  lemma NextTok(line: string, s: nat, toks: seq<Tok>)
    requires At(line, s, toks)
    ensures At(line, SkipWhite(line, s), toks)
    ensures
      var k := GetToken(line, s);
      && (k.End? <==> toks == []) && (toks == [] <==> SkipWhite(line, s) == |line|)
      && (toks != [] ==> At(line, k.next, toks[1..]) && toks[0] == TokOf(line, k))
  {
    assert AtParts(true, line, s, toks);
    SkipStays(line, s);
    var k := GetToken(line, s);
    if !k.End? {
      assert Lex(line, s) == [TokOf(line, k)] + Lex(line, k.next);
      assert ([TokOf(line, k)] + Lex(line, k.next))[1..] == Lex(line, k.next);
    }
  }

  function TokOf(line: string, k: Token): Tok {
    if k.Arg? then W(Slice(line, k.word)) else S(if k.Sym? then k.c else '\0')
  }

  lemma PeekIs(line: string, s: nat, toks: seq<Tok>, cs: set<char>)
    requires At(line, s, toks) && cs <= {'|', ')', '&', ';', '('}
    ensures Peek(line, s, cs) <==> Starts(toks, cs)
  {
    NextTok(line, s, toks);
  }

  lemma PeekRedir(line: string, s: nat, toks: seq<Tok>)
    requires At(line, s, toks)
    ensures Peek(line, s, {'<', '>'}) <==> Starts(toks, {'<', '>', '+'})
  {
    NextTok(line, s, toks);
  }

  // ----- the parser on the line does what the parser on its tokens does -----

  function Texts(line: string, list: seq<(Word, Mode)>): (rs: seq<Redirection>)
    ensures |rs| == |list| && forall i :: 0 <= i < |list| ==> rs[i] == (Slice(line, list[i].0), list[i].1)
  {
    seq(|list|, i requires 0 <= i < |list| => (Slice(line, list[i].0), list[i].1))
  }

  lemma TextsMore(line: string, list: seq<(Word, Mode)>, file: Word, mode: Mode)
    ensures Texts(line, list + [(file, mode)]) == Texts(line, list) + [(Slice(line, file), mode)]
  {
  }

  lemma SlicesMore(line: string, argv: seq<Word>, w: Word)
    ensures Slices(line, argv + [w]) == Slices(line, argv) + [Slice(line, w)]
  {
  }

  lemma {:induction false} TextWrap(line: string, c: Cmd<Word>, list: seq<(Word, Mode)>)
    ensures Text(line, Wrap(c, list)) == Wrap(Text(line, c), Texts(line, list))
  {
    var n := |list| - 1;
    if list != [] {
      TextWrap(line, c, list[..n]);
      assert Texts(line, list)[..n] == Texts(line, list[..n]);
    }
  }

  ghost predicate SameList(line: string, r: Redirs, t: Listed) {
    && (r.NoFile? <==> t.Unnamed?)
    && (r.Redirs? && t.Listed? ==> Texts(line, r.list) == t.list && At(line, r.s, t.rest))
  }

  ghost predicate SameCmd(line: string, r: Result, t: Outcome) {
    && (r.Panic? <==> t.Refused?)
    && (r.Ok? && t.Read? ==> Text(line, r.cmd) == t.cmd && At(line, r.s, t.rest))
  }

  lemma {:induction false} SameRedirs(line: string, s: nat, list: seq<(Word, Mode)>, toks: seq<Tok>)
    requires At(line, s, toks)
    ensures SameList(line, ParseRedirs(line, s, list), ReadRedirs(toks, Texts(line, list)))
    decreases |line| - s
  {
    PeekRedir(line, s, toks);
    NextTok(line, s, toks);
    if Peek(line, s, {'<', '>'}) {
      var op := GetToken(line, s);
      var file := GetToken(line, op.next);
      NextTok(line, op.next, toks[1..]);
      if file.Arg? {
        var mode := if op.c == '<' then Input else if op.c == '>' then Output else Append;
        assert toks[1..][1..] == toks[2..];
        TextsMore(line, list, file.word, mode);
        SameRedirs(line, file.next, list + [(file.word, mode)], toks[2..]);
      }
    }
  }

  lemma {:induction false} SameArgs(line: string, s: nat, argv: seq<Word>, list: seq<(Word, Mode)>, toks: seq<Tok>)
    requires At(line, s, toks)
    ensures SameCmd(line, ParseArgs(line, s, argv, list), ReadArgs(toks, Slices(line, argv), Texts(line, list)))
    decreases |line| - s
  {
    PeekIs(line, s, toks, {'|', ')', '&', ';'});
    NextTok(line, s, toks);
    SkipStays(line, s);
    TextWrap(line, Exec(argv), list);
    var t := GetToken(line, s);
    if !Peek(line, s, {'|', ')', '&', ';'}) && t.Arg? && |argv| + 1 < MAXARGS {
      SameRedirs(line, t.next, list, toks[1..]);
      var r := ParseRedirs(line, t.next, list);
      if r.Redirs? {
        SlicesMore(line, argv, t.word);
        SameArgs(line, r.s, argv + [t.word], r.list, ReadRedirs(toks[1..], Texts(line, list)).rest);
      }
    }
  }

  lemma {:induction false} SameUnit(line: string, s: nat, toks: seq<Tok>)
    requires At(line, s, toks)
    ensures SameCmd(line, ParseExec(line, s), ReadUnit(toks))
    decreases |line| - s, 0
  {
    PeekIs(line, s, toks, {'('});
    NextTok(line, s, toks);
    if Peek(line, s, {'('}) {
      var next := GetToken(line, s).next;
      SameLine(line, next, toks[1..]);
      var r := ParseLine(line, next);
      if r.Ok? {
        SameEnd(line, r.s, r.cmd, ReadLine(toks[1..]).rest);
      }
    } else {
      SameRedirs(line, s, [], toks);
      var r := ParseRedirs(line, s, []);
      assert Texts(line, []) == [] && Slices(line, []) == [];
      if r.Redirs? {
        SameArgs(line, r.s, [], r.list, ReadRedirs(toks, []).rest);
      }
    }
  }

  lemma SameEnd(line: string, s: nat, cmd: Cmd<Word>, toks: seq<Tok>)
    requires At(line, s, toks)
    ensures SameCmd(line, BlockEnd(line, s, cmd), ReadEnd(toks, Text(line, cmd)))
  {
    PeekIs(line, s, toks, {')'});
    NextTok(line, s, toks);
    if Peek(line, s, {')'}) {
      var next := GetToken(line, s).next;
      SameRedirs(line, next, [], toks[1..]);
      assert Texts(line, []) == [];
      var r := ParseRedirs(line, next, []);
      if r.Redirs? {
        TextWrap(line, cmd, r.list);
      }
    }
  }

  lemma {:induction false} SamePipe(line: string, s: nat, toks: seq<Tok>)
    requires At(line, s, toks)
    ensures SameCmd(line, ParsePipe(line, s), ReadPipe(toks))
    decreases |line| - s, 1
  {
    SameUnit(line, s, toks);
    var r := ParseExec(line, s);
    if r.Ok? {
      var rest := ReadUnit(toks).rest;
      PeekIs(line, r.s, rest, {'|'});
      NextTok(line, r.s, rest);
      if Peek(line, r.s, {'|'}) {
        SamePipe(line, GetToken(line, r.s).next, rest[1..]);
      }
    }
  }

  lemma {:induction false} SameBacks(line: string, s: nat, cmd: Cmd<Word>, toks: seq<Tok>)
    requires At(line, s, toks)
    ensures SameCmd(line, ParseBacks(line, s, cmd), ReadBacks(toks, Text(line, cmd)))
    decreases |line| - s
  {
    PeekIs(line, s, toks, {'&'});
    NextTok(line, s, toks);
    if Peek(line, s, {'&'}) {
      SameBacks(line, GetToken(line, s).next, Back(cmd), toks[1..]);
    }
  }

  lemma {:induction false} SameLine(line: string, s: nat, toks: seq<Tok>)
    requires At(line, s, toks)
    ensures SameCmd(line, ParseLine(line, s), ReadLine(toks))
    decreases |line| - s, 2
  {
    SamePipe(line, s, toks);
    var r := ParsePipe(line, s);
    if r.Ok? {
      var rest := ReadPipe(toks).rest;
      SameBacks(line, r.s, r.cmd, rest);
      var b := ParseBacks(line, r.s, r.cmd);
      var more := ReadBacks(rest, Text(line, r.cmd)).rest;
      PeekIs(line, b.s, more, {';'});
      NextTok(line, b.s, more);
      if Peek(line, b.s, {';'}) {
        SameLine(line, GetToken(line, b.s).next, more[1..]);
      }
    }
  }

  // ----- what parsecmd accepts -----

  /** A line is accepted exactly if its tokens are a sentence; the command is what the sentence means. */
  lemma Accepts(line: string, l: Line)
    ensures Spells(l, Lex(line, 0)) ==> ParseCmd(line).Ok? && Text(line, ParseCmd(line).cmd) == LineCmd(l)
    ensures ParseCmd(line).Ok? ==> exists x :: Spells(x, Lex(line, 0))
  {
    var toks := Lex(line, 0);
    assert At(line, 0, toks);
    SameLine(line, 0, toks);
    ReadsSentences(toks, l);
    var r := ParseLine(line, 0);
    if r.Ok? {
      NextTok(line, r.s, ReadLine(toks).rest);
    }
  }

  /** parsecmd panics exactly on the lines whose tokens are no sentence. */
  lemma PanicsExactly(line: string)
    ensures ParseCmd(line).Panic? <==> forall x :: !Spells(x, Lex(line, 0))
  {
    forall x
      ensures Spells(x, Lex(line, 0)) ==> ParseCmd(line).Ok?
    {
      Accepts(line, x);
    }
    Accepts(line, Last(One(Simple([], [])), 0));
  }

  /** Parentheses that do not match in number and redirections without a file are among them. */
  lemma Refuses(line: string)
    ensures Depth(Lex(line, 0)) != 0 || !Named(Lex(line, 0)) ==> ParseCmd(line).Panic?
  {
    PanicsExactly(line);
    forall x | Spells(x, Lex(line, 0))
      ensures Depth(Lex(line, 0)) == 0 && Named(Lex(line, 0))
    {
      LineSound(x, []);
    }
  }

  lemma NoAmps(p: Pipeline)
    ensures LineCmd(Last(p, 0)) == PipeCmd(p) && LineCmd(Last(p, 1)) == Back(PipeCmd(p))
    ensures FewInLine(Last(p, 0)) == FewInLine(Last(p, 1)) == FewInPipe(p)
  {
    assert Backs(PipeCmd(p), 1) == Backs(Back(PipeCmd(p)), 0);
  }

  lemma SimpleLine(lead: seq<Redirection>, args: seq<Argument>)
    ensures
      var l := Last(One(Simple(lead, args)), 0);
      && LineToks(l, []) == UnitToks(Simple(lead, args), []) && LineCmd(l) == UnitCmd(Simple(lead, args))
      && FewInLine(l) == (|args| < MAXARGS)
  {
    var u := Simple(lead, args);
    NoAmps(One(u));
    assert Amps(0, []) == [] && PipeToks(One(u), []) == UnitToks(u, []);
    assert FewInPipe(One(u)) == FewInUnit(u);
  }

  lemma TooManyWords(line: string, lead: seq<Redirection>, args: seq<Argument>)
    requires At(line, 0, UnitToks(Simple(lead, args), [])) && |args| >= MAXARGS
    ensures ParseLine(line, 0).Panic?
  {
    var toks := UnitToks(Simple(lead, args), []);
    SimpleRead(lead, args, []);
    assert ReadPipe(toks).Refused?;
    SameLine(line, 0, toks);
  }

  /** A simple command is refused exactly if it has MAXARGS words or more. */
  lemma WordLimit(line: string, lead: seq<Redirection>, args: seq<Argument>)
    requires Lex(line, 0) == UnitToks(Simple(lead, args), [])
    ensures ParseCmd(line).Panic? <==> |args| >= MAXARGS
    ensures |args| < MAXARGS ==> Text(line, ParseCmd(line).cmd) == Wrap(Exec(Words(args)), lead + Files(args))
  {
    SimpleLine(lead, args);
    assert AtParts(true, line, 0, UnitToks(Simple(lead, args), []));
    if |args| < MAXARGS {
      var l := Last(One(Simple(lead, args)), 0);
      assert Spells(l, Lex(line, 0));
      Accepts(line, l);
    } else {
      TooManyWords(line, lead, args);
    }
  }

  // ----- typing a line -----

  predicate LegalWord(w: string) {
    w != "" && forall i :: 0 <= i < |w| ==> Plain(w[i])
  }

  predicate LegalTok(t: Tok) {
    if t.W? then LegalWord(t.text) else t.c in {'<', '|', '>', '&', ';', '(', ')', '+'}
  }

  function Spelling(t: Tok): string {
    if t.W? then t.text else if t.c == '+' then ">>" else [t.c]
  }

  /** A token with the blanks before it. */
  datatype Piece = Piece(blank: string, tok: Tok)

  predicate Blank(b: string) {
    forall i :: 0 <= i < |b| ==> White(b[i])
  }

  /** Without a blank between them the two would be read as one token, or as others. */
  predicate Runs(a: Tok, b: Tok) {
    (a.W? && b.W?) || (a == S('>') && (b == S('>') || b == S('+')))
  }

  predicate Typed(ps: seq<Piece>, tail: string) {
    if ps == [] then Blank(tail)
    else
      && Blank(ps[0].blank) && LegalTok(ps[0].tok) && Typed(ps[1..], tail)
      && (|ps| > 1 && ps[1].blank == "" ==> !Runs(ps[0].tok, ps[1].tok))
  }

  function Spelled(ps: seq<Piece>, tail: string): string {
    if ps == [] then tail else ps[0].blank + (Spelling(ps[0].tok) + Spelled(ps[1..], tail))
  }

  function ToksOf(ps: seq<Piece>): seq<Tok> {
    if ps == [] then [] else [ps[0].tok] + ToksOf(ps[1..])
  }

  lemma {:induction false} SkipIs(line: string, s: nat, e: nat)
    requires s <= e <= |line| && (forall i :: s <= i < e ==> White(line[i])) && (e < |line| ==> !White(line[e]))
    ensures SkipWhite(line, s) == e
    decreases e - s
  {
    if s < e {
      SkipIs(line, s + 1, e);
    }
  }

  lemma {:induction false} WordEndIs(line: string, s: nat, e: nat)
    requires s <= e <= |line| && (forall i :: s <= i < e ==> Plain(line[i])) && (e < |line| ==> !Plain(line[e]))
    ensures WordEnd(line, s) == e
    decreases e - s
  {
    if s < e {
      WordEndIs(line, s + 1, e);
    }
  }

  /** The first character behind a token tells where it ends. */
  predicate Ends(t: Tok, rest: string) {
    rest == "" || (if t.W? then !Plain(rest[0]) else t == S('>') ==> rest[0] != '>')
  }

  /** text is the rest of the line from s on. */
  ghost predicate Stands(line: string, s: nat, text: string) {
    s <= |line| && forall key: bool :: StandsParts(key, line, s, text)
  }

  /** The key keeps Stands from unfolding except where a proof names it. */
  ghost predicate StandsParts(key: bool, line: string, s: nat, text: string)
    requires s <= |line|
  {
    line[s..] == text
  }

  lemma Follow(line: string, s: nat, a: string, rest: string)
    requires Stands(line, s, a + rest)
    ensures s + |a| <= |line| && Stands(line, s + |a|, rest) && (s + |a| < |line| <==> rest != "")
    ensures forall i :: s <= i < s + |a| ==> line[i] == a[i - s]
    ensures rest != "" ==> line[s + |a|] == rest[0]
  {
    assert StandsParts(true, line, s, a + rest);
    assert line[s + |a|..] == line[s..][|a|..];
    forall i | s <= i < s + |a|
      ensures line[i] == a[i - s]
    {
      assert line[i] == line[s..][i - s];
    }
    if rest != "" {
      assert line[s + |a|] == line[s + |a|..][0];
    }
  }

  lemma BlankBefore(line: string, s: nat, blank: string, t: Tok, rest: string)
    requires Stands(line, s, blank + (Spelling(t) + rest)) && Blank(blank) && LegalTok(t)
    ensures s + |blank| <= |line| && Stands(line, s + |blank|, Spelling(t) + rest)
    ensures GetToken(line, s) == GetToken(line, s + |blank|)
  {
    Follow(line, s, blank, Spelling(t) + rest);
    var q := s + |blank|;
    assert (Spelling(t) + rest)[0] == Spelling(t)[0];
    SkipIs(line, s, q);
    SkipStays(line, s);
  }

  lemma TokenAt(line: string, s: nat, blank: string, t: Tok, rest: string)
    requires Stands(line, s, blank + (Spelling(t) + rest)) && Blank(blank) && LegalTok(t) && Ends(t, rest)
    ensures
      var e := s + |blank| + |Spelling(t)|;
      var k := GetToken(line, s);
      Stands(line, e, rest) && !k.End? && k.next == SkipWhite(line, e) && TokOf(line, k) == t
  {
    BlankBefore(line, s, blank, t, rest);
    if t.W? {
      WordHere(line, s + |blank|, t.text, rest);
    } else {
      SymbolHere(line, s + |blank|, t.c, rest);
    }
  }

  lemma WordHere(line: string, q: nat, w: string, rest: string)
    requires Stands(line, q, w + rest) && LegalWord(w) && (rest != "" ==> !Plain(rest[0]))
    ensures
      var k := GetToken(line, q);
      Stands(line, q + |w|, rest) && k.Arg? && k.next == SkipWhite(line, q + |w|) && Slice(line, k.word) == w
  {
    Follow(line, q, w, rest);
    WordAt(line, q, w);
  }

  lemma SymbolHere(line: string, q: nat, c: char, rest: string)
    requires Stands(line, q, Spelling(S(c)) + rest) && LegalTok(S(c)) && (c == '>' && rest != "" ==> rest[0] != '>')
    ensures
      var e := q + |Spelling(S(c))|;
      Stands(line, e, rest) && GetToken(line, q) == Sym(c, SkipWhite(line, e))
  {
    Follow(line, q, Spelling(S(c)), rest);
    SymbolAt(line, q, c);
  }

  lemma WordAt(line: string, q: nat, w: string)
    requires LegalWord(w) && q + |w| <= |line| && (forall i :: q <= i < q + |w| ==> line[i] == w[i - q])
    requires q + |w| < |line| ==> !Plain(line[q + |w|])
    ensures SkipWhite(line, q) == q && GetToken(line, q) == Arg(Word(q, q + |w|), SkipWhite(line, q + |w|))
    ensures Slice(line, Word(q, q + |w|)) == w
  {
    assert line[q] == w[0];
    WordEndIs(line, q, q + |w|);
    assert line[q..q + |w|] == w;
  }

  lemma SymbolAt(line: string, q: nat, c: char)
    requires LegalTok(S(c)) && q + |Spelling(S(c))| <= |line|
    requires forall i :: q <= i < q + |Spelling(S(c))| ==> line[i] == Spelling(S(c))[i - q]
    requires c == '>' && q + 1 < |line| ==> line[q + 1] != '>'
    ensures SkipWhite(line, q) == q && GetToken(line, q) == Sym(c, SkipWhite(line, q + |Spelling(S(c))|))
  {
    assert line[q] == Spelling(S(c))[0];
    if c == '+' {
      assert line[q + 1] == Spelling(S(c))[1];
    }
  }

  lemma SpelledFirst(ps: seq<Piece>, tail: string)
    requires Typed(ps, tail) && ps != []
    ensures Ends(ps[0].tok, Spelled(ps[1..], tail))
  {
    if |ps| > 1 {
      var p := ps[1];
      assert ps[1..][0] == p;
      var rest := Spelled(ps[1..], tail);
      if p.blank != "" {
        assert rest[0] == p.blank[0];
      } else {
        assert rest == Spelling(p.tok) + Spelled(ps[1..][1..], tail);
        assert rest[0] == Spelling(p.tok)[0];
      }
    }
  }

  /** A line falls into the tokens that were typed, whatever the blanks. */
  lemma {:induction false} SpelledLexes(line: string, s: nat, ps: seq<Piece>, tail: string)
    requires Stands(line, s, Spelled(ps, tail)) && Typed(ps, tail)
    ensures At(line, s, ToksOf(ps))
    decreases |ps|
  {
    if ps == [] {
      assert tail + "" == tail;
      Follow(line, s, tail, "");
      SkipIs(line, s, |line|);
    } else {
      var rest := Spelled(ps[1..], tail);
      SpelledFirst(ps, tail);
      TokenAt(line, s, ps[0].blank, ps[0].tok, rest);
      var e := s + |ps[0].blank| + |Spelling(ps[0].tok)|;
      SpelledLexes(line, e, ps[1..], tail);
      NextTok(line, e, ToksOf(ps[1..]));
      TokenFirst(line, s, ps[0].tok, ToksOf(ps[1..]));
    }
  }

  lemma TokenFirst(line: string, s: nat, t: Tok, toks: seq<Tok>)
    requires s <= |line| && !GetToken(line, s).End? && TokOf(line, GetToken(line, s)) == t
    requires At(line, GetToken(line, s).next, toks)
    ensures At(line, s, [t] + toks)
  {
    assert AtParts(true, line, GetToken(line, s).next, toks);
  }

  /** Whoever types the tokens of a line, with any blanks, is understood. */
  lemma TypedLine(l: Line, ps: seq<Piece>, tail: string)
    requires FewInLine(l) && Typed(ps, tail) && ToksOf(ps) == LineToks(l, [])
    ensures
      var line := Spelled(ps, tail);
      ParseCmd(line).Ok? && Text(line, ParseCmd(line).cmd) == LineCmd(l)
  {
    var line := Spelled(ps, tail);
    assert line[0..] == line;
    assert StandsParts(true, line, 0, line);
    SpelledLexes(line, 0, ps, tail);
    assert AtParts(true, line, 0, ToksOf(ps));
    Accepts(line, l);
  }

  // ----- every command can be typed -----

  predicate Legal(t: Cmd<string>) {
    match t
    case Exec(argv) => |argv| < MAXARGS && forall i :: 0 <= i < |argv| ==> LegalWord(argv[i])
    case Redir(cmd, file, mode) => Legal(cmd) && LegalWord(file)
    case Pipe(left, right) => Legal(left) && Legal(right)
    case List(left, right) => Legal(left) && Legal(right)
    case Back(cmd) => Legal(cmd)
  }

  function Bare(argv: seq<string>): seq<Argument> {
    if argv == [] then [] else [Argument(argv[0], [])] + Bare(argv[1..])
  }

  /** The command with every part of it in parentheses. */
  function LineOf(t: Cmd<string>): Line {
    match t
    case Exec(argv) => Last(One(Simple([], Bare(argv))), 0)
    case Redir(cmd, file, mode) => Last(One(Group(LineOf(cmd), [(file, mode)])), 0)
    case Pipe(left, right) => Last(Into(Group(LineOf(left), []), One(Group(LineOf(right), []))), 0)
    case List(left, right) => Then(One(Group(LineOf(left), [])), 0, Last(One(Group(LineOf(right), [])), 0))
    case Back(cmd) => Last(One(Group(LineOf(cmd), [])), 1)
  }

  lemma {:induction false} BareIs(argv: seq<string>)
    ensures |Bare(argv)| == |argv| && Words(Bare(argv)) == argv && Files(Bare(argv)) == []
  {
    if argv != [] {
      BareIs(argv[1..]);
      assert Bare(argv)[1..] == Bare(argv[1..]);
    }
  }

  lemma GroupIs(l: Line)
    requires FewInLine(l)
    ensures UnitCmd(Group(l, [])) == LineCmd(l) && PipeCmd(One(Group(l, []))) == LineCmd(l)
    ensures FewInPipe(One(Group(l, [])))
  {
  }

  lemma {:induction false} LineOfIs(t: Cmd<string>)
    requires Legal(t)
    ensures LineCmd(LineOf(t)) == t && FewInLine(LineOf(t))
  {
    match t
    case Exec(argv) =>
      BareIs(argv);
      NoAmps(One(Simple([], Bare(argv))));
    case Redir(cmd, file, mode) =>
      LineOfIs(cmd);
      var one := [(file, mode)];
      assert Wrap(cmd, one[..0]) == cmd;
      NoAmps(One(Group(LineOf(cmd), one)));
    case Pipe(left, right) =>
      LineOfIs(left);
      LineOfIs(right);
      GroupIs(LineOf(left));
      GroupIs(LineOf(right));
      NoAmps(Into(Group(LineOf(left), []), One(Group(LineOf(right), []))));
    case List(left, right) =>
      LineOfIs(left);
      LineOfIs(right);
      GroupIs(LineOf(left));
      GroupIs(LineOf(right));
      NoAmps(One(Group(LineOf(right), [])));
      assert Backs(left, 0) == left;
    case Back(cmd) =>
      LineOfIs(cmd);
      GroupIs(LineOf(cmd));
      NoAmps(One(Group(LineOf(cmd), [])));
  }

  /** Every command is what some line means: typed in full parentheses, with any blanks, it comes back. */
  lemma RoundTrip(t: Cmd<string>, ps: seq<Piece>, tail: string)
    requires Legal(t) && Typed(ps, tail) && ToksOf(ps) == LineToks(LineOf(t), [])
    ensures
      var line := Spelled(ps, tail);
      ParseCmd(line).Ok? && Text(line, ParseCmd(line).cmd) == t
  {
    LineOfIs(t);
    TypedLine(LineOf(t), ps, tail);
  }

  // ----- and has a line -----

  predicate AllLegal(toks: seq<Tok>) {
    toks == [] || (LegalTok(toks[0]) && AllLegal(toks[1..]))
  }

  /** One blank before every token. */
  function Blanked(toks: seq<Tok>): seq<Piece> {
    if toks == [] then [] else [Piece(" ", toks[0])] + Blanked(toks[1..])
  }

  lemma {:induction false} BlankedTyped(toks: seq<Tok>)
    requires AllLegal(toks)
    ensures Typed(Blanked(toks), "") && ToksOf(Blanked(toks)) == toks
  {
    if toks != [] {
      BlankedTyped(toks[1..]);
      assert Blanked(toks)[1..] == Blanked(toks[1..]);
      assert |toks| > 1 ==> Blanked(toks)[1] == Blanked(toks[1..])[0];
    }
  }

  lemma LegalCons(t: Tok, rest: seq<Tok>)
    requires LegalTok(t) && AllLegal(rest)
    ensures AllLegal([t] + rest)
  {
    assert ([t] + rest)[1..] == rest;
  }

  lemma {:induction false} BareLegal(argv: seq<string>, rest: seq<Tok>)
    requires (forall i :: 0 <= i < |argv| ==> LegalWord(argv[i])) && AllLegal(rest)
    ensures AllLegal(ArgToks(Bare(argv), rest))
  {
    if argv != [] {
      BareLegal(argv[1..], rest);
      assert Bare(argv)[1..] == Bare(argv[1..]);
      LegalCons(W(argv[0]), ArgToks(Bare(argv[1..]), rest));
    }
  }

  lemma GroupLegal(l: Line, rest: seq<Tok>)
    requires AllLegal(LineToks(l, [S(')')] + rest))
    ensures AllLegal(UnitToks(Group(l, []), rest))
  {
    LegalCons(S('('), LineToks(l, [S(')')] + rest));
  }

  lemma {:induction false} LineOfLegal(t: Cmd<string>, rest: seq<Tok>)
    requires Legal(t) && AllLegal(rest)
    ensures AllLegal(LineToks(LineOf(t), rest))
    decreases t, 0
  {
    match t
    case Exec(argv) =>
      BareLegal(argv, rest);
      assert UnitToks(Simple([], Bare(argv)), rest) == ArgToks(Bare(argv), rest);
      assert Amps(0, rest) == rest;
    case Redir(cmd, file, mode) =>
      RedirLegal(file, mode, rest);
      var one := [(file, mode)];
      var end := [S(')')] + RedirToks(one, rest);
      LegalCons(S(')'), RedirToks(one, rest));
      LineOfLegal(cmd, end);
      LegalCons(S('('), LineToks(LineOf(cmd), end));
      assert UnitToks(Group(LineOf(cmd), one), rest) == [S('(')] + LineToks(LineOf(cmd), end);
      assert Amps(0, rest) == rest;
    case Pipe(left, right) =>
      PartLegal(right, rest);
      var mid := UnitToks(Group(LineOf(right), []), rest);
      LegalCons(S('|'), mid);
      PartLegal(left, [S('|')] + mid);
      assert Amps(0, rest) == rest && PipeToks(One(Group(LineOf(right), [])), rest) == mid;
    case List(left, right) =>
      PartLegal(right, rest);
      var mid := UnitToks(Group(LineOf(right), []), rest);
      LegalCons(S(';'), mid);
      PartLegal(left, [S(';')] + mid);
      assert Amps(0, rest) == rest && PipeToks(One(Group(LineOf(right), [])), rest) == mid;
      assert Amps(0, [S(';')] + mid) == [S(';')] + mid;
      assert LineToks(Last(One(Group(LineOf(right), [])), 0), rest) == mid;
    case Back(cmd) =>
      LegalCons(S('&'), rest);
      PartLegal(cmd, [S('&')] + rest);
      assert Amps(1, rest) == [S('&')] + Amps(0, rest);
  }

  lemma RedirLegal(file: string, mode: Mode, rest: seq<Tok>)
    requires LegalWord(file) && AllLegal(rest)
    ensures AllLegal(RedirToks([(file, mode)], rest))
  {
    var one := [(file, mode)];
    assert RedirToks(one[1..], rest) == rest;
    LegalCons(W(file), rest);
    LegalCons(S(Op(mode)), [W(file)] + rest);
    assert [S(Op(mode)), W(file)] + rest == [S(Op(mode))] + ([W(file)] + rest);
  }

  lemma {:induction false} PartLegal(t: Cmd<string>, rest: seq<Tok>)
    requires Legal(t) && AllLegal(rest)
    ensures AllLegal(UnitToks(Group(LineOf(t), []), rest))
    decreases t, 1
  {
    LegalCons(S(')'), rest);
    LineOfLegal(t, [S(')')] + rest);
    GroupLegal(LineOf(t), rest);
  }

  function Print(t: Cmd<string>): string {
    Spelled(Blanked(LineToks(LineOf(t), [])), "")
  }

  /** So every command has a line, and parsing it gives the command back. */
  lemma PrintBack(t: Cmd<string>)
    requires Legal(t)
    ensures ParseCmd(Print(t)).Ok? && Text(Print(t), ParseCmd(Print(t)).cmd) == t
  {
    LineOfLegal(t, []);
    BlankedTyped(LineToks(LineOf(t), []));
    RoundTrip(t, Blanked(LineToks(LineOf(t), [])), "");
  }
}
