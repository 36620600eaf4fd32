/**
 The regular expressions and the line loop of user/grep.c.  C strings are sequences without their NUL.
 */
module Grep {

  // ----- what a pattern means -----

  /** A character or '.', one of these with '*', or the '$' at the end of the pattern. */
  datatype Item = One(c: char) | Star(c: char) | End

  function Items(re: string): (r: seq<Item>)
    ensures forall i :: 0 <= i < |r| - 1 ==> !r[i].End?
  {
    if re == "" then []
    else if |re| > 1 && re[1] == '*' then [Star(re[0])] + Items(re[2..])
    else if re == "$" then [End]
    else [One(re[0])] + Items(re[1..])
  }

  predicate Accepts(c: char, x: char) {
    c == '.' || x == c
  }

  predicate Fits(item: Item, piece: string) {
    match item
    case One(c) => |piece| == 1 && Accepts(c, piece[0])
    case Star(c) => forall x :: x in piece ==> Accepts(c, x)
    case End => piece == ""
  }

  function Concat(pieces: seq<string>): string {
    if pieces == [] then "" else pieces[0] + Concat(pieces[1..])
  }

  ghost predicate Decomposes(items: seq<Item>, pieces: seq<string>, text: string) {
    && |pieces| == |items| && Concat(pieces) <= text
    && (forall i :: 0 <= i < |items| ==> Fits(items[i], pieces[i]))
    && (items != [] && items[|items| - 1].End? ==> Concat(pieces) == text)
  }

  /** A beginning of text falls into one piece per item; all of text, if the last item is '$'. */
  ghost predicate Begins(items: seq<Item>, text: string) {
    exists pieces :: Decomposes(items, pieces, text)
  }

  /** What match decides. */
  ghost predicate Matches(re: string, text: string) {
    if re != "" && re[0] == '^' then Begins(Items(re[1..]), text)
    else exists i :: 0 <= i <= |text| && Begins(Items(re), text[i..])
  }

  // ----- one item at a time -----

  lemma NoItems(text: string)
    ensures Begins([], text)
  {
    assert Decomposes([], [], text);
  }

  lemma OnlyEnd(text: string)
    ensures Begins([End], text) <==> text == ""
  {
    if text == "" {
      assert Concat([""]) == "" + Concat([""][1..]);
      assert Decomposes([End], [""], text);
    }
    if Begins([End], text) {
      var pieces :| Decomposes([End], pieces, text);
      assert Fits([End][0], pieces[0]) && Concat(pieces) == pieces[0] + Concat(pieces[1..]);
    }
  }

  /** The first piece and the rest. */
  lemma Peel(item: Item, rest: seq<Item>, pieces: seq<string>, text: string)
    requires Decomposes([item] + rest, pieces, text) && (item.End? ==> rest == [])
    ensures pieces != [] && Fits(item, pieces[0]) && pieces[0] <= text
    ensures Decomposes(rest, pieces[1..], text[|pieces[0]|..])
  {
    var items := [item] + rest;
    assert Fits(items[0], pieces[0]);
    var head, tail := pieces[0], Concat(pieces[1..]);
    assert Concat(pieces) == head + tail;
    assert text[..|head|] == head;
    assert text[|head|..][..|tail|] == tail;
    forall i | 0 <= i < |rest|
      ensures Fits(rest[i], pieces[1..][i])
    {
      assert Fits(items[i + 1], pieces[i + 1]);
    }
    assert rest != [] ==> items[|items| - 1] == rest[|rest| - 1];
  }

  lemma Join(item: Item, rest: seq<Item>, head: string, pieces: seq<string>, text: string)
    requires !item.End? && Fits(item, head) && head <= text && Decomposes(rest, pieces, text[|head|..])
    ensures Decomposes([item] + rest, [head] + pieces, text)
  {
    var items := [item] + rest;
    assert ([head] + pieces)[1..] == pieces;
    assert text == head + text[|head|..];
    assert rest != [] ==> items[|items| - 1] == rest[|rest| - 1];
  }

  lemma FirstOne(c: char, rest: seq<Item>, text: string)
    ensures Begins([One(c)] + rest, text) <==> text != "" && Accepts(c, text[0]) && Begins(rest, text[1..])
  {
    if Begins([One(c)] + rest, text) {
      var pieces :| Decomposes([One(c)] + rest, pieces, text);
      Peel(One(c), rest, pieces, text);
    }
    if text != "" && Accepts(c, text[0]) && Begins(rest, text[1..]) {
      var pieces :| Decomposes(rest, pieces, text[1..]);
      Join(One(c), rest, [text[0]], pieces, text);
    }
  }

  /** The first n characters of text are all taken by c. */
  ghost predicate Run(c: char, text: string, n: nat) {
    n <= |text| && forall i :: 0 <= i < n ==> Accepts(c, text[i])
  }

  ghost predicate StarBegins(c: char, rest: seq<Item>, text: string) {
    exists n: nat :: Run(c, text, n) && Begins(rest, text[n..])
  }

  lemma FirstStar(c: char, rest: seq<Item>, text: string)
    ensures Begins([Star(c)] + rest, text) <==> StarBegins(c, rest, text)
  {
    if Begins([Star(c)] + rest, text) {
      var pieces :| Decomposes([Star(c)] + rest, pieces, text);
      Peel(Star(c), rest, pieces, text);
      var n := |pieces[0]|;
      forall i | 0 <= i < n
        ensures Accepts(c, text[i])
      {
        assert pieces[0][i] in pieces[0];
      }
      assert Run(c, text, n);
    }
    if StarBegins(c, rest, text) {
      var n: nat :| Run(c, text, n) && Begins(rest, text[n..]);
      var pieces :| Decomposes(rest, pieces, text[n..]);
      Join(Star(c), rest, text[..n], pieces, text);
    }
  }

  // ----- match, matchhere, matchstar -----

  /** re matches at the beginning of text. */
  method Matchhere(re: string, text: string) returns (r: bool)
    ensures r <==> Begins(Items(re), text)
    decreases |re|, 0
  {
    if re == "" {
      NoItems(text);
      return true;
    }
    if |re| > 1 && re[1] == '*' {
      FirstStar(re[0], Items(re[2..]), text);
      r := Matchstar(re[0], re[2..], text);
      return;
    }
    if re == "$" {
      OnlyEnd(text);
      return text == "";
    }
    FirstOne(re[0], Items(re[1..]), text);
    if text != "" && (re[0] == '.' || re[0] == text[0]) {
      r := Matchhere(re[1..], text[1..]);
      return;
    }
    return false;
  }

  /** c* and then re match at the beginning of text. */
  method Matchstar(c: char, re: string, text: string) returns (r: bool)
    ensures r <==> StarBegins(c, Items(re), text)
    decreases |re|, 1
  {
    var n := 0;
    while true
      invariant 0 <= n <= |text| && Run(c, text, n)
      invariant forall k: nat :: k < n ==> !Begins(Items(re), text[k..])
      decreases |text| - n
    {
      r := Matchhere(re, text[n..]);
      if r {
        return;
      }
      if n == |text| || !(text[n] == c || c == '.') {
        break;
      }
      n := n + 1;
    }
    assert n < |text| ==> !Accepts(c, text[n]);
    assert forall k: nat :: Run(c, text, k) ==> k <= n;
    r := false;
  }

  method Match(re: string, text: string) returns (r: bool)
    ensures r <==> Matches(re, text)
  {
    if re != "" && re[0] == '^' {
      r := Matchhere(re[1..], text);
      return;
    }
    var i := 0;
    while true
      invariant 0 <= i <= |text|
      invariant forall k :: 0 <= k < i ==> !Begins(Items(re), text[k..])
      decreases |text| - i
    {
      r := Matchhere(re, text[i..]);
      if r || i == |text| {
        return;
      }
      i := i + 1;
    }
  }

  // ----- grep -----

  /** The position of the first newline, or the length. */
  function FirstNl(s: string): (i: nat)
    ensures i <= |s| && '\n' !in s[..i] && (i < |s| ==> s[i] == '\n')
  {
    if s == "" || s[0] == '\n' then 0 else 1 + FirstNl(s[1..])
  }

  /** The matching lines of s, each with its newline, up to the first line of more than 1022 characters. */
  ghost function Printed(re: string, s: string): string {
    var i := FirstNl(s);
    if i >= 1023 || i == |s| then ""
    else (if Matches(re, s[..i]) then s[..i + 1] else "") + Printed(re, s[i + 1..])
  }

  /** All newline-terminated lines of s are short enough for the buffer. */
  predicate ShortLines(s: string) {
    var i := FirstNl(s);
    i == |s| || (i < 1023 && ShortLines(s[i + 1..]))
  }

  /** The matching newline-terminated lines of s. */
  ghost function Selected(re: string, s: string): string {
    var i := FirstNl(s);
    if i == |s| then "" else (if Matches(re, s[..i]) then s[..i + 1] else "") + Selected(re, s[i + 1..])
  }

  /** What is left of s from its first over-long line on. */
  function FromLong(s: string): string {
    var i := FirstNl(s);
    if i == |s| then "" else if i >= 1023 then s else FromLong(s[i + 1..])
  }

  /** What grep leaves out is just what it would have selected from the first over-long line on. */
  lemma {:induction false} PrintedIsSelected(re: string, s: string)
    ensures Selected(re, s) == Printed(re, s) + Selected(re, FromLong(s))
    ensures Printed(re, s) == Selected(re, s) <==> Selected(re, FromLong(s)) == ""
    ensures ShortLines(s) <==> FromLong(s) == ""
  {
    var i := FirstNl(s);
    if i < |s| && i < 1023 {
      PrintedIsSelected(re, s[i + 1..]);
      var head := if Matches(re, s[..i]) then s[..i + 1] else "";
      assert head + (Printed(re, s[i + 1..]) + Selected(re, FromLong(s))) ==
             head + Printed(re, s[i + 1..]) + Selected(re, FromLong(s));
    }
  }

  /** A matching line of 1023 characters is not printed. */
  lemma LongLineLost()
    ensures
      var s := seq(1023, i => 'a') + "\n";
      Printed("", s) == "" && Selected("", s) == s
  {
    var s := seq(1023, i => 'a') + "\n";
    assert s[..1023] == seq(1023, i => 'a') && s[..1024] == s && s[1024..] == "";
    FirstNlIs(s, 1023);
    var line := s[..1023];
    NoItems(line);
    assert line[0..] == line;
  }

  lemma FirstNlIs(s: string, i: nat)
    requires i < |s| && s[i] == '\n' && '\n' !in s[..i]
    ensures FirstNl(s) == i
  {
    var j := FirstNl(s);
    assert forall k :: 0 <= k < i ==> s[..i][k] != '\n';
    assert forall k :: 0 <= k < j ==> s[..j][k] != '\n';
  }

  lemma NoNl(s: string, t: string)
    requires '\n' !in s
    ensures FirstNl(s + t) >= |s|
  {
    assert forall k :: 0 <= k < |s| ==> (s + t)[k] == s[k];
  }

  /** strchr(p, '\n') in a buffer that holds NUL-free text up to m: the position found, or m. */
  method Strchr(buf: array<char>, p: nat, m: nat) returns (q: nat)
    requires p <= m < buf.Length && buf[m] == '\0'
    ensures p <= q <= m && '\n' !in buf[p..q] && (buf[q] == '\n' || buf[q] == '\0')
    ensures '\0' !in buf[p..m] ==> q == m || buf[q] == '\n'
  {
    q := p;
    while buf[q] != '\n' && buf[q] != '\0'
      invariant p <= q <= m && '\n' !in buf[p..q] && '\0' !in buf[p..q]
      decreases m - q
    {
      q := q + 1;
    }
    assert q < m ==> buf[q] in buf[p..m];
  }

  lemma PrintedStep(re: string, line: string, tail: string, rest: string)
    requires '\n' !in line && |line| < 1023
    ensures Printed(re, line + "\n" + tail + rest) ==
            (if Matches(re, line) then line + "\n" else "") + Printed(re, tail + rest)
  {
    var s := line + "\n" + tail + rest;
    assert s[..|line|] == line && s[..|line| + 1] == line + "\n" && s[|line| + 1..] == tail + rest;
    FirstNlIs(s, |line|);
  }

  lemma PrintedNone(re: string, s: string, rest: string)
    requires '\n' !in s && (rest == "" || |s| >= 1023)
    ensures Printed(re, s + rest) == ""
  {
    NoNl(s, rest);
  }

  /** read(fd, ..., room): some of the input that is left; 0 when there is none or no room. */
  method Read(left: nat, room: nat) returns (n: nat)
    ensures n <= left && n <= room && (n == 0 <==> left == 0 || room == 0)
  {
    if left == 0 || room == 0 {
      return 0;
    }
    n :| 1 <= n <= left && n <= room;
  }

  /** The line at p, with its newline at q: printed if it matches. */
  method OneLine(re: string, buf: array<char>, p: nat, q: nat, m: nat) returns (out: string)
    requires p <= q < m < buf.Length && buf[q] == '\n'
    modifies buf
    ensures out == if Matches(re, old(buf[p..q])) then old(buf[p..q]) + "\n" else ""
    ensures buf[q + 1..m] == old(buf[q + 1..m]) && buf[m] == old(buf[m])
  {
    ghost var line := buf[p..q];
    buf[q] := '\0';
    assert buf[p..q] == line;
    var r := Match(re, buf[p..q]);
    out := "";
    if r {
      buf[q] := '\n';
      assert buf[p..q + 1] == line + "\n";
      out := buf[p..q + 1];
    }
  }

  /** out, and then what is still to be printed, is all that is to be printed. */
  ghost predicate Prints(re: string, all: string, out: string, left: string) {
    forall key: bool :: PrintsParts(key, re, all, out, left)
  }

  /** The key keeps Prints from unfolding except where a proof names its parts. */
  ghost predicate PrintsParts(key: bool, re: string, all: string, out: string, left: string) {
    Printed(re, all) == out + Printed(re, left)
  }

  lemma PrintsNone(re: string, all: string, out: string)
    requires out == ""
    ensures Prints(re, all, out, all)
  {
  }

  lemma PrintsLine(re: string, all: string, out: string, line: string, tail: string, rest: string, left: string, more: string)
    requires Prints(re, all, out, left) && left == line + "\n" + tail + rest && '\n' !in line && |line| < 1023
    requires more == if Matches(re, line) then line + "\n" else ""
    ensures Prints(re, all, out + more, tail + rest)
  {
    assert PrintsParts(true, re, all, out, left);
    PrintedStep(re, line, tail, rest);
    assert out + (more + Printed(re, tail + rest)) == out + more + Printed(re, tail + rest);
  }

  lemma PrintsMore(re: string, all: string, out: string, left: string, more: string, rest: string)
    requires Prints(re, all, out, left) && Prints(re, left, more, rest)
    ensures Prints(re, all, out + more, rest)
  {
    assert PrintsParts(true, re, all, out, left) && PrintsParts(true, re, left, more, rest);
    assert out + (more + Printed(re, rest)) == out + more + Printed(re, rest);
  }

  lemma PrintsEnd(re: string, all: string, out: string, s: string, rest: string)
    requires Prints(re, all, out, s + rest) && '\n' !in s && (rest == "" || |s| >= 1023)
    ensures out == Printed(re, all)
  {
    assert PrintsParts(true, re, all, out, s + rest);
    PrintedNone(re, s, rest);
  }

  /** The loop over the lines in the buffer; p is where the unfinished line begins. */
  method Lines(re: string, buf: array<char>, m: nat, ghost rest: string) returns (out: string, p: nat)
    requires m < buf.Length == 1024 && buf[m] == '\0'
    modifies buf
    ensures p <= m
    ensures '\0' !in old(buf[..m]) ==>
      '\n' !in buf[p..m] && '\0' !in buf[p..m] && Prints(re, old(buf[..m]) + rest, out, buf[p..m] + rest)
  {
    ghost var text := buf[..m];
    p, out := 0, "";
    PrintsNone(re, text + rest, out);
    assert buf[0..m] == text;
    while true
      invariant p <= m && buf[m] == '\0'
      invariant '\0' !in text ==> '\0' !in buf[p..m] && Prints(re, text + rest, out, buf[p..m] + rest)
      decreases m - p
    {
      var q := Strchr(buf, p, m);
      if buf[q] != '\n' {
        return;
      }
      ghost var line, tail := buf[p..q], buf[q + 1..m];
      assert buf[p..m] == line + "\n" + tail;
      var more := OneLine(re, buf, p, q, m);
      if '\0' !in text {
        PrintsLine(re, text + rest, out, line, tail, rest, line + "\n" + tail + rest, more);
      }
      out := out + more;
      p := q + 1;
    }
  }

  /** read's piece goes behind the m characters in the buffer, and a NUL behind it. */
  method Append(buf: array<char>, m: nat, piece: string)
    requires m + |piece| < buf.Length
    modifies buf
    ensures buf[..m + |piece|] == old(buf[..m]) + piece && buf[m + |piece|] == '\0'
  {
    forall i | 0 <= i < |piece| {
      buf[m + i] := piece[i];
    }
    buf[m + |piece|] := '\0';
  }

  /** memmove(buf, p, m - p) */
  method Shift(buf: array<char>, p: nat, m: nat)
    requires p <= m <= buf.Length
    modifies buf
    ensures buf[..m - p] == old(buf[p..m])
  {
    forall i | 0 <= i < m - p {
      buf[i] := buf[p + i];
    }
  }

  /** Prints the matching lines of the input, whatever the pieces in which read delivers it. */
  method Grep(re: string, input: string, buf: array<char>) returns (out: string)
    requires buf.Length == 1024
    modifies buf
    ensures '\0' !in input ==> out == Printed(re, input)
  {
    var m, rest := 0, input;
    out := "";
    PrintsNone(re, input, out);
    assert buf[..0] + rest == input;
    while true
      invariant 0 <= m <= 1023
      invariant '\0' !in input ==>
        '\0' !in rest && '\0' !in buf[..m] && '\n' !in buf[..m] && Prints(re, input, out, buf[..m] + rest)
      decreases |rest|
    {
      var n := Read(|rest|, 1023 - m);
      if n == 0 {
        if '\0' !in input {
          PrintsEnd(re, input, out, buf[..m], rest);
        }
        return;
      }
      ghost var left := buf[..m] + rest;
      Append(buf, m, rest[..n]);
      rest := rest[n..];
      m := m + n;
      assert left == buf[..m] + rest;
      var more, p := Lines(re, buf, m, rest);
      if '\0' !in input {
        PrintsMore(re, input, out, left, more, buf[p..m] + rest);
      }
      out := out + more;
      if m > 0 {
        Shift(buf, p, m);
        m := m - p;
      }
    }
  }
}
