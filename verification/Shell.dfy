/** The parser as code: every routine moves the shared cursor, and nulterminate writes into the line. */
module Shell {
  import opened ShellSyntax

  lemma SkipTwice(line: string, s: nat)
    requires s <= |line|
    ensures SkipWhite(line, SkipWhite(line, s)) == SkipWhite(line, s)
    ensures GetToken(line, SkipWhite(line, s)) == GetToken(line, s)
  {
  }

  class Parser {
    const line: string                   // from *ps at the start up to es
    var s: nat                           // *ps

    ghost predicate Valid()
      reads this
    {
      s <= |line|
    }

    method SkipBlanks()
      requires Valid()
      modifies this
      ensures s == SkipWhite(line, old(s))
    {
      while s < |line| && White(line[s])
        invariant s <= |line| && SkipWhite(line, s) == SkipWhite(line, old(s))
      {
        s := s + 1;
      }
    }

    method Token() returns (t: Token)
      requires Valid()
      modifies this
      ensures t == GetToken(line, old(s)) && s == t.next
    {
      SkipBlanks();
      var q := s;
      if s == |line| {
        return End(s);
      }
      var c := line[s];
      if c == '>' && s + 1 < |line| && line[s + 1] == '>' {
        s := s + 2;
        SkipBlanks();
        return Sym('+', s);
      }
      if Symbol(c) {
        s := s + 1;
        SkipBlanks();
        return Sym(c, s);
      }
      while s < |line| && Plain(line[s])
        invariant q <= s <= |line| && WordEnd(line, s) == WordEnd(line, q)
      {
        s := s + 1;
      }
      var e := s;
      SkipBlanks();
      return Arg(Word(q, e), s);
    }

    method Sees(toks: set<char>) returns (r: bool)
      requires Valid()
      modifies this
      ensures s == SkipWhite(line, old(s)) && r == Peek(line, old(s), toks)
    {
      SkipBlanks();
      r := s < |line| && line[s] in toks;
    }

    method Redirections(before: seq<(Word, Mode)>) returns (r: Redirs)
      requires Valid()
      modifies this
      ensures r == ParseRedirs(line, old(s), before) && (r.Redirs? ==> s == r.s)
    {
      var list := before;
      while true
        invariant s <= |line| && ParseRedirs(line, s, list) == ParseRedirs(line, old(s), before)
        decreases |line| - s
      {
        ghost var s0 := s;
        var more := Sees({'<', '>'});
        if !more {
          return Redirs(list, s);
        }
        SkipTwice(line, s0);
        var op := Token();
        var file := Token();
        if !op.Sym? || !file.Arg? {
          return NoFile;
        }
        var mode := if op.c == '<' then Input else if op.c == '>' then Output else Append;
        list := list + [(file.word, mode)];
      }
    }

    method Line() returns (r: Result)
      requires Valid()
      modifies this
      ensures r == ParseLine(line, old(s)) && (r.Ok? ==> s == r.s)
      decreases |line| - s, 3
    {
      r := Piped();
      if r.Panic? {
        return;
      }
      var cmd := r.cmd;
      ghost var first, s0 := cmd, s;
      while true
        invariant s0 <= s <= |line| && ParseBacks(line, s, cmd) == ParseBacks(line, s0, first)
        decreases |line| - s
      {
        ghost var s1 := s;
        var more := Sees({'&'});
        SkipTwice(line, s1);
        if !more {
          break;
        }
        var _ := Token();
        cmd := Back(cmd);
      }
      var list := Sees({';'});
      if !list {
        return Ok(cmd, s);
      }
      var _ := Token();
      var rest := Line();
      r := if rest.Panic? then Panic else Ok(List(cmd, rest.cmd), s);
    }

    method Piped() returns (r: Result)
      requires Valid()
      modifies this
      ensures r == ParsePipe(line, old(s)) && (r.Ok? ==> s == r.s)
      decreases |line| - s, 2
    {
      r := Simple();
      if r.Panic? {
        return;
      }
      ghost var s1 := s;
      var more := Sees({'|'});
      SkipTwice(line, s1);
      if !more {
        return Ok(r.cmd, s);
      }
      var _ := Token();
      var right := Piped();
      r := if right.Panic? then Panic else Ok(Pipe(r.cmd, right.cmd), s);
    }

    /** parseexec; cmd is the list of words and the redirections that already surround it. */
    method Simple() returns (r: Result)
      requires Valid()
      modifies this
      ensures r == ParseExec(line, old(s)) && (r.Ok? ==> s == r.s)
      decreases |line| - s, 1
    {
      ghost var s0 := s;
      var block := Sees({'('});
      SkipTwice(line, s0);
      if block {
        r := Block(s0);
        return;
      }
      SameRedirs(line, s0, []);
      var redirs := Redirections([]);
      if redirs.NoFile? {
        return Panic;
      }
      r := Words(redirs.list);
    }

    method Words(before: seq<(Word, Mode)>) returns (r: Result)
      requires Valid()
      modifies this
      ensures r == ParseArgs(line, old(s), [], before) && (r.Ok? ==> s == r.s)
    {
      var argv, list := [], before;
      while true
        invariant s <= |line| && ParseArgs(line, s, argv, list) == ParseArgs(line, old(s), [], before)
        decreases |line| - s
      {
        ghost var s0 := s;
        var stop := Sees({'|', ')', '&', ';'});
        SkipTwice(line, s0);
        if stop {
          return Ok(Wrap(Exec(argv), list), s);
        }
        var t := Token();
        if t.End? {
          return Ok(Wrap(Exec(argv), list), s);
        }
        if t.Sym? || |argv| + 1 >= MAXARGS {
          return Panic;
        }
        var redirs := Redirections(list);
        if redirs.NoFile? {
          return Panic;
        }
        argv, list := argv + [t.word], redirs.list;
      }
    }

    method Block(ghost s0: nat) returns (r: Result)
      requires s0 <= |line| && s == SkipWhite(line, s0) && Peek(line, s0, {'('})
      modifies this
      ensures r == ParseBlock(line, s0) && (r.Ok? ==> s == r.s)
      decreases |line| - s, 0
    {
      SkipTwice(line, s0);
      var _ := Token();
      r := Line();
      if r.Panic? {
        return;
      }
      ghost var s1 := s;
      var closed := Sees({')'});
      SkipTwice(line, s1);
      if !closed {
        return Panic;
      }
      var _ := Token();
      var redirs := Redirections([]);
      r := if redirs.NoFile? then Panic else Ok(Wrap(r.cmd, redirs.list), s);
    }
  }

  lemma SameRedirs(line: string, s: nat, list: seq<(Word, Mode)>)
    requires s <= |line|
    ensures ParseRedirs(line, SkipWhite(line, s), list) == ParseRedirs(line, s, list)
  {
    SkipTwice(line, s);
  }

  // ----- nulterminate -----

  ghost predicate HasWord(c: Cmd<Word>, w: Word) {
    match c
    case Exec(argv) => w in argv
    case Redir(cmd, file, _) => HasWord(cmd, w) || w == file
    case Pipe(left, right) => HasWord(left, w) || HasWord(right, w)
    case List(left, right) => HasWord(left, w) || HasWord(right, w)
    case Back(cmd) => HasWord(cmd, w)
  }

  /** Every word of the command is a word of the line. */
  ghost predicate OfLine(line: string, c: Cmd<Word>) {
    forall w :: HasWord(c, w) ==> IsWord(line, w)
  }

  ghost predicate ListOfLine(line: string, list: seq<(Word, Mode)>) {
    forall i :: 0 <= i < |list| ==> IsWord(line, list[i].0)
  }

  lemma {:induction false} RedirsOfLine(line: string, s: nat, list: seq<(Word, Mode)>)
    requires s <= |line| && ListOfLine(line, list)
    ensures
      var r := ParseRedirs(line, s, list);
      r.Redirs? ==> ListOfLine(line, r.list)
    decreases |line| - s
  {
    if Peek(line, s, {'<', '>'}) {
      var op := GetToken(line, s);
      var file := GetToken(line, op.next);
      if op.Sym? && file.Arg? {
        var mode := if op.c == '<' then Input else if op.c == '>' then Output else Append;
        RedirsOfLine(line, file.next, list + [(file.word, mode)]);
      }
    }
  }

  lemma {:induction false} WrapOfLine(line: string, c: Cmd<Word>, list: seq<(Word, Mode)>)
    requires OfLine(line, c) && ListOfLine(line, list)
    ensures OfLine(line, Wrap(c, list))
  {
    if list != [] {
      WrapOfLine(line, c, list[..|list| - 1]);
    }
  }

  lemma {:induction false} ArgsOfLine(line: string, s: nat, argv: seq<Word>, list: seq<(Word, Mode)>)
    requires s <= |line| && (forall i :: 0 <= i < |argv| ==> IsWord(line, argv[i])) && ListOfLine(line, list)
    ensures
      var r := ParseArgs(line, s, argv, list);
      r.Ok? ==> OfLine(line, r.cmd)
    decreases |line| - s
  {
    var q := SkipWhite(line, s);
    assert OfLine(line, Exec(argv));
    WrapOfLine(line, Exec(argv), list);
    if !Peek(line, s, {'|', ')', '&', ';'}) {
      var t := GetToken(line, q);
      if t.Arg? {
        RedirsOfLine(line, t.next, list);
        var r := ParseRedirs(line, t.next, list);
        if r.Redirs? {
          ArgsOfLine(line, r.s, argv + [t.word], r.list);
        }
      }
    }
  }

  lemma {:induction false} ExecOfLine(line: string, s: nat)
    requires s <= |line|
    ensures ParseExec(line, s).Ok? ==> OfLine(line, ParseExec(line, s).cmd)
    decreases |line| - s, 0
  {
    if Peek(line, s, {'('}) {
      var next := GetToken(line, s).next;
      LineOfLine(line, next);
      var r := ParseLine(line, next);
      if r.Ok? {
        EndOfLine(line, r.s, r.cmd);
      }
    } else {
      RedirsOfLine(line, s, []);
      var r := ParseRedirs(line, s, []);
      if r.Redirs? {
        ArgsOfLine(line, r.s, [], r.list);
      }
    }
  }

  lemma EndOfLine(line: string, s: nat, cmd: Cmd<Word>)
    requires s <= |line| && OfLine(line, cmd)
    ensures BlockEnd(line, s, cmd).Ok? ==> OfLine(line, BlockEnd(line, s, cmd).cmd)
  {
    var next := GetToken(line, s).next;
    RedirsOfLine(line, next, []);
    var r := ParseRedirs(line, next, []);
    if r.Redirs? {
      WrapOfLine(line, cmd, r.list);
    }
  }

  lemma {:induction false} PipeOfLine(line: string, s: nat)
    requires s <= |line|
    ensures ParsePipe(line, s).Ok? ==> OfLine(line, ParsePipe(line, s).cmd)
    decreases |line| - s, 1
  {
    ExecOfLine(line, s);
    var r := ParseExec(line, s);
    if r.Ok? && Peek(line, r.s, {'|'}) {
      PipeOfLine(line, GetToken(line, r.s).next);
    }
  }

  lemma {:induction false} BacksOfLine(line: string, s: nat, cmd: Cmd<Word>)
    requires s <= |line| && OfLine(line, cmd)
    ensures OfLine(line, ParseBacks(line, s, cmd).cmd)
    decreases |line| - s
  {
    if Peek(line, s, {'&'}) {
      assert OfLine(line, Back(cmd));
      BacksOfLine(line, GetToken(line, s).next, Back(cmd));
    }
  }

  lemma {:induction false} LineOfLine(line: string, s: nat)
    requires s <= |line|
    ensures ParseLine(line, s).Ok? ==> OfLine(line, ParseLine(line, s).cmd)
    decreases |line| - s, 2
  {
    PipeOfLine(line, s);
    var r := ParsePipe(line, s);
    if r.Ok? {
      BacksOfLine(line, r.s, r.cmd);
      var b := ParseBacks(line, r.s, r.cmd);
      if Peek(line, b.s, {';'}) {
        LineOfLine(line, GetToken(line, b.s).next);
      }
    }
  }

  /** buf is the line and its NUL, cut behind the words in cut. */
  ghost predicate Cut(line: string, buf: seq<char>, cut: iset<Word>) {
    && |buf| == |line| + 1
    && (forall w :: w in cut ==> IsWord(line, w) && buf[w.eq] == '\0')
    && (forall i :: 0 <= i < |line| ==> buf[i] == line[i] || exists w :: w in cut && w.eq == i)
  }

  /** No cut is inside a word: each word of the line that is cut stands in the buffer as a C string. */
  lemma CutWord(line: string, buf: seq<char>, cut: iset<Word>, w: Word)
    requires Cut(line, buf, cut) && w in cut && '\0' !in line
    ensures w.q < w.eq <= |line| && buf[w.q..w.eq] == line[w.q..w.eq] && '\0' !in buf[w.q..w.eq] && buf[w.eq] == '\0'
  {
    assert IsWord(line, w);
    forall i | w.q <= i < w.eq
      ensures buf[i] == line[i] && line[i] != '\0'
    {
      assert line[i] in line;
    }
  }

  ghost function WordsOf(c: Cmd<Word>): iset<Word> {
    iset w | HasWord(c, w)
  }

  ghost function Members(argv: seq<Word>): iset<Word> {
    iset w | w in argv
  }

  /** Puts a NUL behind every word of a simple command. */
  method CutArgs(argv: seq<Word>, buf: array<char>, ghost line: string, ghost cut: iset<Word>)
    requires Cut(line, buf[..], cut) && forall i :: 0 <= i < |argv| ==> IsWord(line, argv[i])
    modifies buf
    ensures Cut(line, buf[..], cut + Members(argv))
  {
    assert cut + Members(argv[..0]) == cut;
    for i := 0 to |argv|
      invariant Cut(line, buf[..], cut + Members(argv[..i]))
    {
      CutOne(buf, argv[i], line, cut + Members(argv[..i]));
      assert argv[..i + 1] == argv[..i] + [argv[i]];
      assert cut + Members(argv[..i]) + iset{argv[i]} == cut + Members(argv[..i + 1]);
    }
    assert argv[..|argv|] == argv;
  }

  /** Puts a NUL behind every word of the command. */
  method NulTerminate(c: Cmd<Word>, buf: array<char>, ghost line: string, ghost cut: iset<Word>)
    requires Cut(line, buf[..], cut) && OfLine(line, c)
    modifies buf
    ensures Cut(line, buf[..], cut + WordsOf(c))
    decreases c
  {
    match c
    case Exec(argv) =>
      assert forall i :: 0 <= i < |argv| ==> HasWord(c, argv[i]);
      CutArgs(argv, buf, line, cut);
      assert cut + WordsOf(c) == cut + Members(argv);
    case Redir(cmd, file, _) =>
      assert HasWord(c, file) && forall w :: HasWord(cmd, w) ==> HasWord(c, w);
      NulTerminate(cmd, buf, line, cut);
      CutOne(buf, file, line, cut + WordsOf(cmd));
      assert cut + WordsOf(c) == cut + WordsOf(cmd) + iset{file};
    case Pipe(left, right) =>
      assert forall w :: HasWord(left, w) || HasWord(right, w) ==> HasWord(c, w);
      NulTerminate(left, buf, line, cut);
      NulTerminate(right, buf, line, cut + WordsOf(left));
      assert cut + WordsOf(c) == cut + WordsOf(left) + WordsOf(right);
    case List(left, right) =>
      assert forall w :: HasWord(left, w) || HasWord(right, w) ==> HasWord(c, w);
      NulTerminate(left, buf, line, cut);
      NulTerminate(right, buf, line, cut + WordsOf(left));
      assert cut + WordsOf(c) == cut + WordsOf(left) + WordsOf(right);
    case Back(cmd) =>
      assert forall w :: HasWord(cmd, w) ==> HasWord(c, w);
      NulTerminate(cmd, buf, line, cut);
      assert cut + WordsOf(c) == cut + WordsOf(cmd);
  }

  /** Puts a NUL behind one word. */
  method CutOne(buf: array<char>, w: Word, ghost line: string, ghost cut: iset<Word>)
    requires Cut(line, buf[..], cut) && IsWord(line, w)
    modifies buf
    ensures Cut(line, buf[..], cut + iset{w})
  {
    assert w.eq < |buf[..]|;
    ghost var was := buf[..];
    buf[w.eq] := '\0';
    assert buf[..] == was[w.eq := '\0'];
    CutMore(line, was, buf[..], cut, w);
  }

  lemma CutMore(line: string, was: seq<char>, buf: seq<char>, cut: iset<Word>, w: Word)
    requires Cut(line, was, cut) && IsWord(line, w) && w.eq < |was| && buf == was[w.eq := '\0']
    ensures Cut(line, buf, cut + iset{w})
  {
    forall i | 0 <= i < |line| && buf[i] != line[i]
      ensures exists v :: v in cut + iset{w} && v.eq == i
    {
      if i == w.eq {
        assert w in cut + iset{w};
      } else {
        var v :| v in cut && v.eq == i;
        assert v in cut + iset{w};
      }
    }
  }

  /**
   parsecmd: the command with its words cut out of the line, or a panic.  Each word of the command stands
   in the buffer as a C string, whatever else was cut.
   */
  method Parsecmd(p: Parser, buf: array<char>) returns (r: Result)
    requires p.s == 0 && buf[..] == p.line + "\0" && '\0' !in p.line
    modifies p, buf
    ensures r == ParseCmd(p.line)
    ensures r.Ok? ==> forall w :: HasWord(r.cmd, w) ==>
      && w.q < w.eq < buf.Length && buf[w.eq] == '\0' && '\0' !in buf[w.q..w.eq]
      && buf[w.q..w.eq] == Slice(p.line, w)
  {
    r := p.Line();
    if r.Panic? {
      return;
    }
    var cmd := r.cmd;
    LineOfLine(p.line, 0);
    var _ := p.Sees({});
    if p.s != |p.line| {
      return Panic;
    }
    assert Cut(p.line, buf[..], iset{});
    NulTerminate(cmd, buf, p.line, iset{});
    r := Ok(cmd, |p.line|);
    forall w | HasWord(cmd, w)
      ensures w.q < w.eq < buf.Length && buf[w.eq] == '\0' && '\0' !in buf[w.q..w.eq]
      ensures buf[w.q..w.eq] == Slice(p.line, w)
    {
      CutWord(p.line, buf[..], iset{} + WordsOf(cmd), w);
      assert buf[..][w.q..w.eq] == buf[w.q..w.eq];
    }
  }
}
