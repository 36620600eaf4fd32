/**
 The language of the shell and what its sentences mean: a grammar over tokens, for command lines as users type
 them, and the parser of user/sh.c on tokens, which accepts exactly the sentences and yields their meaning.
 */
module ShellGrammar {
  import opened ShellSyntax

  /** A word, or an operator; '+' stands for ">>". */
  datatype Tok = W(text: string) | S(c: char)

  type Redirection = (string, Mode)

  /** A word of a simple command and the redirections between it and the next word. */
  datatype Argument = Argument(word: string, redirs: seq<Redirection>)

  datatype Unit =
    | Simple(lead: seq<Redirection>, args: seq<Argument>)
    | Group(body: Line, after: seq<Redirection>)

  datatype Pipeline = One(unit: Unit) | Into(unit: Unit, rest: Pipeline)

  datatype Line = Last(pipe: Pipeline, amps: nat) | Then(pipe: Pipeline, amps: nat, next: Line)

  // ----- the tokens of a sentence, with those in rest behind it -----

  function Op(m: Mode): char {
    match m
    case Input => '<'
    case Output => '>'
    case Append => '+'
  }

  function RedirToks(rs: seq<Redirection>, rest: seq<Tok>): seq<Tok> {
    if rs == [] then rest else [S(Op(rs[0].1)), W(rs[0].0)] + RedirToks(rs[1..], rest)
  }

  function ArgToks(args: seq<Argument>, rest: seq<Tok>): seq<Tok> {
    if args == [] then rest else [W(args[0].word)] + RedirToks(args[0].redirs, ArgToks(args[1..], rest))
  }

  function UnitToks(u: Unit, rest: seq<Tok>): seq<Tok>
    decreases u
  {
    match u
    case Simple(lead, args) => RedirToks(lead, ArgToks(args, rest))
    case Group(body, after) => [S('(')] + LineToks(body, [S(')')] + RedirToks(after, rest))
  }

  function PipeToks(p: Pipeline, rest: seq<Tok>): seq<Tok>
    decreases p
  {
    match p
    case One(unit) => UnitToks(unit, rest)
    case Into(unit, more) => UnitToks(unit, [S('|')] + PipeToks(more, rest))
  }

  function Amps(n: nat, rest: seq<Tok>): seq<Tok> {
    if n == 0 then rest else [S('&')] + Amps(n - 1, rest)
  }

  function LineToks(l: Line, rest: seq<Tok>): seq<Tok>
    decreases l
  {
    match l
    case Last(pipe, amps) => PipeToks(pipe, Amps(amps, rest))
    case Then(pipe, amps, next) => PipeToks(pipe, Amps(amps, [S(';')] + LineToks(next, rest)))
  }

  // ----- its meaning -----

  function Words(args: seq<Argument>): seq<string> {
    if args == [] then [] else [args[0].word] + Words(args[1..])
  }

  function Files(args: seq<Argument>): seq<Redirection> {
    if args == [] then [] else args[0].redirs + Files(args[1..])
  }

  /** The words in order, within the redirections in order, wherever they stand among the words. */
  function UnitCmd(u: Unit): Cmd<string> {
    match u
    case Simple(lead, args) => Wrap(Exec(Words(args)), lead + Files(args))
    case Group(body, after) => Wrap(LineCmd(body), after)
  }

  function PipeCmd(p: Pipeline): Cmd<string> {
    match p
    case One(unit) => UnitCmd(unit)
    case Into(unit, more) => Pipe(UnitCmd(unit), PipeCmd(more))
  }

  function Backs(c: Cmd<string>, n: nat): Cmd<string>
    decreases n
  {
    if n == 0 then c else Backs(Back(c), n - 1)
  }

  function LineCmd(l: Line): Cmd<string> {
    match l
    case Last(pipe, amps) => Backs(PipeCmd(pipe), amps)
    case Then(pipe, amps, next) => List(Backs(PipeCmd(pipe), amps), LineCmd(next))
  }

  /** No simple command has MAXARGS words. */
  predicate FewInUnit(u: Unit) {
    match u
    case Simple(_, args) => |args| < MAXARGS
    case Group(body, _) => FewInLine(body)
  }

  predicate FewInPipe(p: Pipeline) {
    match p
    case One(unit) => FewInUnit(unit)
    case Into(unit, more) => FewInUnit(unit) && FewInPipe(more)
  }

  predicate FewInLine(l: Line) {
    match l
    case Last(pipe, _) => FewInPipe(pipe)
    case Then(pipe, _, next) => FewInPipe(pipe) && FewInLine(next)
  }

  // ----- the parser on tokens -----

  predicate Starts(toks: seq<Tok>, cs: set<char>) {
    toks != [] && toks[0].S? && toks[0].c in cs
  }

  datatype Outcome = Read(cmd: Cmd<string>, rest: seq<Tok>) | Refused

  datatype Listed = Listed(list: seq<Redirection>, rest: seq<Tok>) | Unnamed

  function ReadRedirs(toks: seq<Tok>, list: seq<Redirection>): (r: Listed)
    ensures r.Listed? ==> |r.rest| <= |toks|
  {
    if !Starts(toks, {'<', '>', '+'}) then Listed(list, toks)
    else if |toks| < 2 || !toks[1].W? then Unnamed
    else
      var mode := if toks[0].c == '<' then Input else if toks[0].c == '>' then Output else Append;
      ReadRedirs(toks[2..], list + [(toks[1].text, mode)])
  }

  function ReadArgs(toks: seq<Tok>, argv: seq<string>, list: seq<Redirection>): (r: Outcome)
    ensures r.Read? ==> |r.rest| <= |toks|
    decreases |toks|
  {
    if toks == [] || Starts(toks, {'|', ')', '&', ';'}) then Read(Wrap(Exec(argv), list), toks)
    else if toks[0].S? || |argv| + 1 >= MAXARGS then Refused
    else
      match ReadRedirs(toks[1..], list)
      case Unnamed => Refused
      case Listed(more, rest) => ReadArgs(rest, argv + [toks[0].text], more)
  }

  function ReadUnit(toks: seq<Tok>): (r: Outcome)
    ensures r.Read? ==> |r.rest| <= |toks|
    decreases |toks|, 0
  {
    if Starts(toks, {'('}) then
      match ReadLine(toks[1..])
      case Refused => Refused
      case Read(cmd, rest) => ReadEnd(rest, cmd)
    else
      match ReadRedirs(toks, [])
      case Unnamed => Refused
      case Listed(list, rest) => ReadArgs(rest, [], list)
  }

  function ReadEnd(toks: seq<Tok>, cmd: Cmd<string>): (r: Outcome)
    ensures r.Read? ==> |r.rest| <= |toks|
  {
    if !Starts(toks, {')'}) then Refused
    else
      match ReadRedirs(toks[1..], [])
      case Unnamed => Refused
      case Listed(list, rest) => Read(Wrap(cmd, list), rest)
  }

  function ReadPipe(toks: seq<Tok>): (r: Outcome)
    ensures r.Read? ==> |r.rest| <= |toks|
    decreases |toks|, 1
  {
    match ReadUnit(toks)
    case Refused => Refused
    case Read(cmd, rest) =>
      if !Starts(rest, {'|'}) then Read(cmd, rest) else
      match ReadPipe(rest[1..])
      case Refused => Refused
      case Read(right, more) => Read(Pipe(cmd, right), more)
  }

  function ReadBacks(toks: seq<Tok>, cmd: Cmd<string>): (r: Outcome)
    ensures r.Read? && |r.rest| <= |toks|
    decreases |toks|
  {
    if !Starts(toks, {'&'}) then Read(cmd, toks) else ReadBacks(toks[1..], Back(cmd))
  }

  function ReadLine(toks: seq<Tok>): (r: Outcome)
    ensures r.Read? ==> |r.rest| <= |toks|
    decreases |toks|, 2
  {
    match ReadPipe(toks)
    case Refused => Refused
    case Read(first, rest) =>
      var b := ReadBacks(rest, first);
      if !Starts(b.rest, {';'}) then b else
      match ReadLine(b.rest[1..])
      case Refused => Refused
      case Read(right, more) => Read(List(b.cmd, right), more)
  }

  // ----- sentences are read -----

  /** What may follow a unit, a pipeline, and a line. */
  predicate AfterUnit(rest: seq<Tok>) {
    rest == [] || Starts(rest, {'|', ')', '&', ';'})
  }

  predicate AfterPipe(rest: seq<Tok>) {
    rest == [] || Starts(rest, {')', '&', ';'})
  }

  predicate AfterLine(rest: seq<Tok>) {
    rest == [] || Starts(rest, {')'})
  }

  lemma {:induction false} RedirsRead(rs: seq<Redirection>, rest: seq<Tok>, list: seq<Redirection>)
    requires !Starts(rest, {'<', '>', '+'})
    ensures ReadRedirs(RedirToks(rs, rest), list) == Listed(list + rs, rest)
  {
    if rs == [] {
      assert list + rs == list;
    } else {
      var toks := RedirToks(rs, rest);
      assert toks[2..] == RedirToks(rs[1..], rest);
      RedirsRead(rs[1..], rest, list + [rs[0]]);
      assert list + [rs[0]] + rs[1..] == list + rs;
    }
  }

  lemma ArgFirst(args: seq<Argument>, rest: seq<Tok>)
    requires AfterUnit(rest)
    ensures
      var toks := ArgToks(args, rest);
      !Starts(toks, {'<', '>', '+', '('}) && (args == [] ==> AfterUnit(toks)) && (args != [] ==> toks != [] && toks[0].W?)
  {
  }

  lemma ArgRead(a: Argument, more: seq<Tok>, argv: seq<string>, list: seq<Redirection>)
    requires !Starts(more, {'<', '>', '+'})
    ensures
      ReadArgs([W(a.word)] + RedirToks(a.redirs, more), argv, list) ==
      if |argv| + 1 >= MAXARGS then Refused else ReadArgs(more, argv + [a.word], list + a.redirs)
  {
    var toks := [W(a.word)] + RedirToks(a.redirs, more);
    assert toks[0] == W(a.word) && toks[1..] == RedirToks(a.redirs, more);
    RedirsRead(a.redirs, more, list);
  }

  lemma {:induction false} ArgsRead(args: seq<Argument>, rest: seq<Tok>, argv: seq<string>, list: seq<Redirection>)
    requires AfterUnit(rest)
    ensures
      ReadArgs(ArgToks(args, rest), argv, list) ==
      if args != [] && |argv| + |args| >= MAXARGS then Refused
      else Read(Wrap(Exec(argv + Words(args)), list + Files(args)), rest)
  {
    if args == [] {
      assert argv + Words(args) == argv && list + Files(args) == list;
    } else {
      var a := args[0];
      ArgFirst(args[1..], rest);
      ArgRead(a, ArgToks(args[1..], rest), argv, list);
      ArgsRead(args[1..], rest, argv + [a.word], list + a.redirs);
      InOrder(args, argv, list);
    }
  }

  lemma InOrder(args: seq<Argument>, argv: seq<string>, list: seq<Redirection>)
    requires args != []
    ensures argv + [args[0].word] + Words(args[1..]) == argv + Words(args)
    ensures list + args[0].redirs + Files(args[1..]) == list + Files(args)
  {
    Grouped(argv, [args[0].word], Words(args[1..]));
    Grouped(list, args[0].redirs, Files(args[1..]));
  }

  lemma Grouped<T>(a: seq<T>, b: seq<T>, c: seq<T>)
    ensures a + b + c == a + (b + c)
  {
  }

  /** A simple command is read unless it has too many words. */
  lemma SimpleRead(lead: seq<Redirection>, args: seq<Argument>, rest: seq<Tok>)
    requires AfterUnit(rest)
    ensures
      ReadUnit(UnitToks(Simple(lead, args), rest)) ==
      if |args| >= MAXARGS then Refused else Read(UnitCmd(Simple(lead, args)), rest)
  {
    var toks := ArgToks(args, rest);
    ArgFirst(args, rest);
    RedirsRead(lead, toks, []);
    assert [] + lead == lead && [] + Words(args) == Words(args);
    ArgsRead(args, rest, [], lead);
    assert !Starts(RedirToks(lead, toks), {'('});
  }

  lemma {:induction false} UnitRead(u: Unit, rest: seq<Tok>)
    requires AfterUnit(rest) && FewInUnit(u)
    ensures ReadUnit(UnitToks(u, rest)) == Read(UnitCmd(u), rest)
    decreases u
  {
    match u
    case Simple(lead, args) => SimpleRead(lead, args, rest);
    case Group(body, after) =>
      var end := [S(')')] + RedirToks(after, rest);
      var toks := UnitToks(u, rest);
      assert toks[1..] == LineToks(body, end);
      LineRead(body, end);
      assert end[1..] == RedirToks(after, rest);
      RedirsRead(after, rest, []);
      assert [] + after == after;
  }

  lemma {:induction false} PipeRead(p: Pipeline, rest: seq<Tok>)
    requires AfterPipe(rest) && FewInPipe(p)
    ensures ReadPipe(PipeToks(p, rest)) == Read(PipeCmd(p), rest)
    decreases p
  {
    match p
    case One(unit) => UnitRead(unit, rest);
    case Into(unit, more) =>
      var end := [S('|')] + PipeToks(more, rest);
      UnitRead(unit, end);
      assert end[1..] == PipeToks(more, rest);
      PipeRead(more, rest);
  }

  lemma {:induction false} BacksRead(n: nat, rest: seq<Tok>, cmd: Cmd<string>)
    requires !Starts(rest, {'&'})
    ensures ReadBacks(Amps(n, rest), cmd) == Read(Backs(cmd, n), rest)
    decreases n
  {
    if n > 0 {
      assert Amps(n, rest)[1..] == Amps(n - 1, rest);
      BacksRead(n - 1, rest, Back(cmd));
    }
  }

  lemma {:induction false} LineRead(l: Line, rest: seq<Tok>)
    requires AfterLine(rest) && FewInLine(l)
    ensures ReadLine(LineToks(l, rest)) == Read(LineCmd(l), rest)
    decreases l
  {
    var end := if l.Last? then rest else [S(';')] + LineToks(l.next, rest);
    assert Starts(Amps(l.amps, end), {'&'}) || Amps(l.amps, end) == end;
    PipeRead(l.pipe, Amps(l.amps, end));
    BacksRead(l.amps, end, PipeCmd(l.pipe));
    if l.Then? {
      assert end[1..] == LineToks(l.next, rest);
      LineRead(l.next, rest);
    }
  }

  // ----- what is read is a sentence -----

  lemma {:induction false} RedirsAre(toks: seq<Tok>, list: seq<Redirection>) returns (rs: seq<Redirection>)
    requires ReadRedirs(toks, list).Listed?
    ensures
      var r := ReadRedirs(toks, list);
      r.list == list + rs && toks == RedirToks(rs, r.rest)
  {
    rs := [];
    if Starts(toks, {'<', '>', '+'}) {
      var mode := if toks[0].c == '<' then Input else if toks[0].c == '>' then Output else Append;
      var more := RedirsAre(toks[2..], list + [(toks[1].text, mode)]);
      rs := [(toks[1].text, mode)] + more;
      RedirsCons(toks, list, more, rs, mode);
    }
  }

  lemma RedirsCons(toks: seq<Tok>, list: seq<Redirection>, more: seq<Redirection>, rs: seq<Redirection>, mode: Mode)
    requires |toks| >= 2 && toks[0] == S(Op(mode)) && toks[1].W? && rs == [(toks[1].text, mode)] + more
    ensures list + [(toks[1].text, mode)] + more == list + rs
    ensures forall rest: seq<Tok> :: toks[2..] == RedirToks(more, rest) ==> toks == RedirToks(rs, rest)
  {
    assert rs[1..] == more && rs[0] == (toks[1].text, mode);
    assert toks == [toks[0], toks[1]] + toks[2..];
  }

  lemma {:induction false} ArgsAre(toks: seq<Tok>, argv: seq<string>, list: seq<Redirection>)
    returns (args: seq<Argument>)
    requires ReadArgs(toks, argv, list).Read?
    ensures
      var r := ReadArgs(toks, argv, list);
      && AfterUnit(r.rest) && toks == ArgToks(args, r.rest) && (args == [] || |argv| + |args| < MAXARGS)
      && r.cmd == Wrap(Exec(argv + Words(args)), list + Files(args))
    decreases |toks|
  {
    args := [];
    if toks == [] || Starts(toks, {'|', ')', '&', ';'}) {
      assert argv + Words(args) == argv && list + Files(args) == list;
    } else {
      var rs := RedirsAre(toks[1..], list);
      var r := ReadRedirs(toks[1..], list);
      var more := ArgsAre(r.rest, argv + [toks[0].text], r.list);
      args := [Argument(toks[0].text, rs)] + more;
      ArgsCons(toks, argv, list, rs, more, args);
    }
  }

  lemma ArgsCons(toks: seq<Tok>, argv: seq<string>, list: seq<Redirection>, rs: seq<Redirection>, more: seq<Argument>,
                 args: seq<Argument>)
    requires toks != [] && toks[0].W? && args == [Argument(toks[0].text, rs)] + more
    ensures argv + [toks[0].text] + Words(more) == argv + Words(args)
    ensures list + rs + Files(more) == list + Files(args)
    ensures forall rest: seq<Tok> :: toks[1..] == RedirToks(rs, ArgToks(more, rest)) ==> toks == ArgToks(args, rest)
  {
    assert args[1..] == more && args[0] == Argument(toks[0].text, rs);
    assert toks == [toks[0]] + toks[1..];
  }

  lemma {:induction false} UnitIs(toks: seq<Tok>) returns (u: Unit)
    requires ReadUnit(toks).Read?
    ensures
      var r := ReadUnit(toks);
      FewInUnit(u) && toks == UnitToks(u, r.rest) && r.cmd == UnitCmd(u)
    decreases |toks|, 0
  {
    if Starts(toks, {'('}) {
      var body := LineIs(toks[1..]);
      var b := ReadLine(toks[1..]);
      var after := RedirsAre(b.rest[1..], []);
      u := Group(body, after);
      GroupIs(toks, body, after);
    } else {
      u := SimpleIs(toks);
    }
  }

  lemma SimpleIs(toks: seq<Tok>) returns (u: Unit)
    requires !Starts(toks, {'('}) && ReadUnit(toks).Read?
    ensures
      var r := ReadUnit(toks);
      FewInUnit(u) && toks == UnitToks(u, r.rest) && r.cmd == UnitCmd(u)
  {
    var lead := RedirsAre(toks, []);
    var r := ReadRedirs(toks, []);
    var args := ArgsAre(r.rest, [], r.list);
    u := Simple(lead, args);
    assert [] + lead == lead && [] + Words(args) == Words(args);
  }

  lemma GroupIs(toks: seq<Tok>, body: Line, after: seq<Redirection>)
    requires Starts(toks, {'('}) && ReadUnit(toks).Read?
    requires
      var b := ReadLine(toks[1..]);
      b.Read? ==>
        && FewInLine(body) && toks[1..] == LineToks(body, b.rest) && b.cmd == LineCmd(body)
        && (Starts(b.rest, {')'}) ==>
              var r := ReadRedirs(b.rest[1..], []);
              r.Listed? ==> r.list == [] + after && b.rest[1..] == RedirToks(after, r.rest))
    ensures
      var r := ReadUnit(toks);
      FewInUnit(Group(body, after)) && toks == UnitToks(Group(body, after), r.rest) && r.cmd == UnitCmd(Group(body, after))
  {
    var b := ReadLine(toks[1..]);
    assert toks == [S('(')] + toks[1..] && b.rest == [S(')')] + b.rest[1..];
    assert [] + after == after;
  }

  lemma {:induction false} PipeIs(toks: seq<Tok>) returns (p: Pipeline)
    requires ReadPipe(toks).Read?
    ensures
      var r := ReadPipe(toks);
      FewInPipe(p) && toks == PipeToks(p, r.rest) && r.cmd == PipeCmd(p)
    decreases |toks|, 1
  {
    var unit := UnitIs(toks);
    var r := ReadUnit(toks);
    p := One(unit);
    if Starts(r.rest, {'|'}) {
      var more := PipeIs(r.rest[1..]);
      p := Into(unit, more);
      assert r.rest == [S('|')] + r.rest[1..];
    }
  }

  lemma {:induction false} BacksAre(toks: seq<Tok>, cmd: Cmd<string>) returns (n: nat)
    ensures
      var r := ReadBacks(toks, cmd);
      toks == Amps(n, r.rest) && r.cmd == Backs(cmd, n)
    decreases |toks|
  {
    n := 0;
    if Starts(toks, {'&'}) {
      n := BacksAre(toks[1..], Back(cmd));
      n := n + 1;
      assert toks == [S('&')] + toks[1..];
    }
  }

  lemma {:induction false} LineIs(toks: seq<Tok>) returns (l: Line)
    requires ReadLine(toks).Read?
    ensures
      var r := ReadLine(toks);
      FewInLine(l) && toks == LineToks(l, r.rest) && r.cmd == LineCmd(l)
    decreases |toks|, 2
  {
    var pipe := PipeIs(toks);
    var r := ReadPipe(toks);
    var n := BacksAre(r.rest, r.cmd);
    var b := ReadBacks(r.rest, r.cmd);
    l := Last(pipe, n);
    if Starts(b.rest, {';'}) {
      var next := LineIs(b.rest[1..]);
      l := Then(pipe, n, next);
      assert b.rest == [S(';')] + b.rest[1..];
    }
  }

  /** The whole of toks is the sentence l. */
  predicate Spells(l: Line, toks: seq<Tok>) {
    FewInLine(l) && LineToks(l, []) == toks
  }

  /** A sequence of tokens is read to its end exactly if it is a sentence, and then as what the sentence means. */
  lemma ReadsSentences(toks: seq<Tok>, l: Line)
    ensures Spells(l, toks) ==> ReadLine(toks) == Read(LineCmd(l), [])
    ensures ReadLine(toks).Read? && ReadLine(toks).rest == [] ==> exists x :: Spells(x, toks)
  {
    if Spells(l, toks) {
      LineRead(l, []);
    }
    if ReadLine(toks).Read? && ReadLine(toks).rest == [] {
      var x := LineIs(toks);
      assert Spells(x, toks);
    }
  }

  // ----- what no sentence has -----

  /** Opening less closing parentheses. */
  function Depth(toks: seq<Tok>): int {
    if toks == [] then 0
    else (if toks[0] == S('(') then 1 else if toks[0] == S(')') then -1 else 0) + Depth(toks[1..])
  }

  /** Every redirection names a file. */
  predicate Named(toks: seq<Tok>) {
    toks == [] || ((Starts(toks, {'<', '>', '+'}) ==> |toks| > 1 && toks[1].W?) && Named(toks[1..]))
  }

  lemma ConsIs(t: Tok, rest: seq<Tok>)
    requires !Starts([t], {'<', '>', '+'})
    ensures Named([t] + rest) == Named(rest)
    ensures Depth([t] + rest) == Depth(rest) + if t == S('(') then 1 else if t == S(')') then -1 else 0
  {
    assert ([t] + rest)[1..] == rest;
  }

  lemma {:induction false} RedirsSound(rs: seq<Redirection>, rest: seq<Tok>)
    ensures Named(RedirToks(rs, rest)) == Named(rest) && Depth(RedirToks(rs, rest)) == Depth(rest)
  {
    if rs != [] {
      RedirsSound(rs[1..], rest);
      var op, tail := S(Op(rs[0].1)), [W(rs[0].0)] + RedirToks(rs[1..], rest);
      ConsIs(W(rs[0].0), RedirToks(rs[1..], rest));
      assert RedirToks(rs, rest) == [op] + tail;
      assert ([op] + tail)[1..] == tail;
    }
  }

  lemma {:induction false} ArgsSound(args: seq<Argument>, rest: seq<Tok>)
    ensures Named(ArgToks(args, rest)) == Named(rest) && Depth(ArgToks(args, rest)) == Depth(rest)
  {
    if args != [] {
      ArgsSound(args[1..], rest);
      RedirsSound(args[0].redirs, ArgToks(args[1..], rest));
      ConsIs(W(args[0].word), RedirToks(args[0].redirs, ArgToks(args[1..], rest)));
    }
  }

  lemma {:induction false} UnitSound(u: Unit, rest: seq<Tok>)
    ensures Named(UnitToks(u, rest)) == Named(rest) && Depth(UnitToks(u, rest)) == Depth(rest)
    decreases u
  {
    match u
    case Simple(lead, args) =>
      ArgsSound(args, rest);
      RedirsSound(lead, ArgToks(args, rest));
    case Group(body, after) =>
      RedirsSound(after, rest);
      var end := [S(')')] + RedirToks(after, rest);
      ConsIs(S(')'), RedirToks(after, rest));
      LineSound(body, end);
      ConsIs(S('('), LineToks(body, end));
  }

  lemma {:induction false} PipeSound(p: Pipeline, rest: seq<Tok>)
    ensures Named(PipeToks(p, rest)) == Named(rest) && Depth(PipeToks(p, rest)) == Depth(rest)
    decreases p
  {
    match p
    case One(unit) => UnitSound(unit, rest);
    case Into(unit, more) =>
      PipeSound(more, rest);
      ConsIs(S('|'), PipeToks(more, rest));
      UnitSound(unit, [S('|')] + PipeToks(more, rest));
  }

  lemma {:induction false} AmpsSound(n: nat, rest: seq<Tok>)
    ensures Named(Amps(n, rest)) == Named(rest) && Depth(Amps(n, rest)) == Depth(rest)
  {
    if n > 0 {
      AmpsSound(n - 1, rest);
      ConsIs(S('&'), Amps(n - 1, rest));
    }
  }

  /** In a sentence the parentheses match in number and every redirection names a file. */
  lemma {:induction false} LineSound(l: Line, rest: seq<Tok>)
    ensures Named(LineToks(l, rest)) == Named(rest) && Depth(LineToks(l, rest)) == Depth(rest)
    decreases l
  {
    var end := rest;
    if l.Then? {
      LineSound(l.next, rest);
      ConsIs(S(';'), LineToks(l.next, rest));
      end := [S(';')] + LineToks(l.next, rest);
    }
    AmpsSound(l.amps, end);
    PipeSound(l.pipe, Amps(l.amps, end));
  }
}
