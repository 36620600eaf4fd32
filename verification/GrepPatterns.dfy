/** The patterns of user/grep.c by their characters. */
module GrepPatterns {
  import opened Grep

  // ----- how items are written -----

  function Spell(item: Item): string {
    match item
    case One(c) => [c]
    case Star(c) => [c, '*']
    case End => "$"
  }

  function Pattern(items: seq<Item>): string {
    if items == [] then "" else Spell(items[0]) + Pattern(items[1..])
  }

  /** A character that a '*' follows is repeated; a last '$' is the end of the line; and '$' is nothing else. */
  predicate Legal(items: seq<Item>) {
    items == [] ||
    (&& Legal(items[1..])
     && (items[0].End? ==> |items| == 1)
     && (items[0].One? ==> if |items| == 1 then items[0].c != '$' else items[1] != One('*') && items[1] != Star('*')))
  }

  lemma FirstChar(items: seq<Item>)
    ensures Pattern(items) == "" <==> items == []
    ensures items != [] ==> Pattern(items)[0] == Spell(items[0])[0]
  {
  }

  lemma {:induction false} ItemsSpell(re: string)
    ensures Pattern(Items(re)) == re && Legal(Items(re))
  {
    if re != "" {
      var r := Items(re);
      var n := |Spell(r[0])|;
      assert re[..n] == Spell(r[0]);
      ItemsSpell(re[n..]);
      assert r == [r[0]] + Items(re[n..]) && r[1..] == Items(re[n..]);
      assert re == re[..n] + re[n..];
      if |r| > 1 {
        FirstChar(r[1..]);
      }
    }
  }

  lemma {:induction false} SpellItems(items: seq<Item>)
    requires Legal(items)
    ensures Items(Pattern(items)) == items
  {
    if items != [] {
      var re, rest := Pattern(items), items[1..];
      SpellItems(rest);
      FirstChar(rest);
      assert re[|Spell(items[0])|..] == Pattern(rest);
      assert items == [items[0]] + rest;
    }
  }

  /** A pattern is read as the one legal sequence of items that is written like it. */
  lemma ReadAsWritten(re: string, items: seq<Item>)
    ensures items == Items(re) <==> Legal(items) && Pattern(items) == re
  {
    ItemsSpell(re);
    if Legal(items) {
      SpellItems(items);
    }
  }

  // ----- plain words -----

  /** w has no operator inside. */
  predicate Plain(w: string) {
    '*' !in w && '.' !in w
  }

  function Ones(w: string): seq<Item> {
    seq(|w|, i requires 0 <= i < |w| => One(w[i]))
  }

  lemma {:induction false} PlainItems(w: string, end: bool)
    requires Plain(w) && (end || w == "" || w[|w| - 1] != '$')
    ensures Items(if end then w + "$" else w) == if end then Ones(w) + [End] else Ones(w)
  {
    var re := if end then w + "$" else w;
    if w != "" {
      PlainItems(w[1..], end);
      assert re[1..] == if end then w[1..] + "$" else w[1..];
      assert Ones(w) == [One(w[0])] + Ones(w[1..]);
      assert |re| > 1 ==> re[1] == '$' || re[1] == w[1];
    } else if end {
      assert Ones(w) + [End] == [End] && re == "$";
    }
  }

  lemma {:induction false} OnesBegin(w: string, rest: seq<Item>, text: string)
    requires Plain(w)
    ensures Begins(Ones(w) + rest, text) <==> w <= text && Begins(rest, text[|w|..])
  {
    if w == "" {
      assert Ones(w) + rest == rest && text[0..] == text;
    } else {
      var v := w[1..];
      assert Ones(w) + rest == [One(w[0])] + (Ones(v) + rest);
      FirstOne(w[0], Ones(v) + rest, text);
      if text != "" {
        OnesBegin(v, rest, text[1..]);
        if w <= text {
          assert text[|w|..] == text[1..][|v|..];
        }
        if text[0] == w[0] && v <= text[1..] {
          assert text == [text[0]] + text[1..] && w == [w[0]] + v;
          assert text[|w|..] == text[1..][|v|..];
        }
      }
    }
  }

  lemma PlainBegins(w: string, end: bool, text: string)
    requires Plain(w) && (end || w == "" || w[|w| - 1] != '$')
    ensures Begins(Items(if end then w + "$" else w), text) <==> if end then text == w else w <= text
  {
    PlainItems(w, end);
    if end {
      OnesBegin(w, [End], text);
      if w <= text {
        OnlyEnd(text[|w|..]);
      }
    } else {
      assert Ones(w) + [] == Ones(w);
      OnesBegin(w, [], text);
      if w <= text {
        NoItems(text[|w|..]);
      }
    }
  }

  predicate Has(text: string, w: string) {
    exists i :: 0 <= i <= |text| && w <= text[i..]
  }

  /** A word finds itself anywhere, after '^' at the beginning, before '$' at the end, between them as the whole line. */
  lemma PlainMatches(w: string, text: string)
    requires Plain(w)
    ensures Matches("^" + w + "$", text) <==> text == w
    ensures w == "" || w[|w| - 1] != '$' ==> (Matches("^" + w, text) <==> w <= text)
    ensures w == "" || w[0] != '^' ==>
      (Matches(w + "$", text) <==> |w| <= |text| && text[|text| - |w|..] == w)
    ensures w == "" || (w[0] != '^' && w[|w| - 1] != '$') ==> (Matches(w, text) <==> Has(text, w))
  {
    assert ("^" + w + "$")[1..] == w + "$" && ("^" + w)[1..] == w;
    PlainBegins(w, true, text);
    if w == "" || w[|w| - 1] != '$' {
      PlainBegins(w, false, text);
    }
    if w == "" || w[0] != '^' {
      EndMatches(w, text);
      if w == "" || w[|w| - 1] != '$' {
        AnyMatches(w, text);
      }
    }
  }

  lemma EndMatches(w: string, text: string)
    requires Plain(w) && (w == "" || w[0] != '^')
    ensures Matches(w + "$", text) <==> |w| <= |text| && text[|text| - |w|..] == w
  {
    forall i | 0 <= i <= |text|
      ensures Begins(Items(w + "$"), text[i..]) <==> text[i..] == w
    {
      PlainBegins(w, true, text[i..]);
    }
    if |w| <= |text| && text[|text| - |w|..] == w {
      assert Begins(Items(w + "$"), text[|text| - |w|..]);
    }
  }

  lemma AnyMatches(w: string, text: string)
    requires Plain(w) && (w == "" || (w[0] != '^' && w[|w| - 1] != '$'))
    ensures Matches(w, text) <==> Has(text, w)
  {
    forall i | 0 <= i <= |text|
      ensures Begins(Items(w), text[i..]) <==> w <= text[i..]
    {
      PlainBegins(w, false, text[i..]);
    }
  }
}
