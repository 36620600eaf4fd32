/** How many pages of memory it takes to map a range of user pages: the tables that are missing, and the frames. */
module PageNeed {
  import opened PageTree

  // ----- sets of tables -----

  /** The number of members of a that are not in k. */
  function Beyond(a: set<Key>, k: set<Key>): nat {
    |a - k|
  }

  function Union(ways: seq<set<Key>>): set<Key> {
    if ways == [] then {} else Union(ways[..|ways| - 1]) + ways[|ways| - 1]
  }

  lemma UnionMore(ways: seq<set<Key>>, way: set<Key>)
    ensures Union(ways + [way]) == Union(ways) + way
  {
    assert (ways + [way])[..|ways|] == ways;
  }

  lemma {:induction false} UnionGrows(ways: seq<set<Key>>, n: nat)
    requires n <= |ways|
    ensures Union(ways[..n]) <= Union(ways)
    decreases |ways| - n
  {
    if n < |ways| {
      var less := ways[..|ways| - 1];
      UnionGrows(less, n);
      assert less[..n] == ways[..n];
    } else {
      assert ways[..n] == ways;
    }
  }

  lemma BeyondBoth(a: set<Key>, b: set<Key>, k: set<Key>)
    ensures Beyond(a + b, k) == Beyond(a, k) + Beyond(b, k + a)
  {
    assert a + b - k == (a - k) + (b - (k + a));
    assert (a - k) !! (b - (k + a));
  }

  lemma BeyondFewer(a: set<Key>, b: set<Key>, k: set<Key>)
    requires a <= b
    ensures Beyond(a, k) <= Beyond(b, k)
  {
    assert b - k == (a - k) + (b - a - k);
  }

  // ----- the way of walk -----

  function Lack(t: Nodes, k: Key): nat {
    if k in t then 0 else 1
  }

  /** The tables that walk must add on the way to page v. */
  function Lacks(t: Nodes, v: nat): nat {
    Lack(t, KeyAt(2, v)) + Lack(t, KeyAt(1, v))
  }

  /** The tables below the root on the way to page v. */
  function Way(v: nat): set<Key> {
    {KeyAt(2, v), KeyAt(1, v)}
  }

  lemma BeyondWay(t: Nodes, v: nat)
    ensures Beyond(Way(v), t.Keys) == Lacks(t, v)
  {
    var a, b := KeyAt(2, v), KeyAt(1, v);
    var s: set<Key> := (if a in t then {} else {a}) + (if b in t then {} else {b});
    assert Way(v) - t.Keys == s;
  }

  /** walk has come down to `level` with alloc set; b pages were free before, a are now. */
  ghost predicate Reached(t: Nodes, u: Nodes, v: nat, level: nat, b: nat, a: nat) {
    if level >= 3 then u == t && a == b
    else if level == 2 then u.Keys == t.Keys + {KeyAt(2, v)} && b == a + Lack(t, KeyAt(2, v))
    else u.Keys == t.Keys + Way(v) && b == a + Lacks(t, v)
  }

  lemma ReachedNext(t: Nodes, u: Nodes, w: Nodes, v: nat, level: nat, b: nat, k: nat, a: nat, ok: bool)
    requires 1 <= level <= 2 && Reached(t, u, v, level + 1, b, k)
    requires ok <==> k >= Lack(u, KeyAt(level, v))
    requires ok ==> w.Keys == u.Keys + {KeyAt(level, v)} && a == k - Lack(u, KeyAt(level, v))
    ensures ok ==> Reached(t, w, v, level, b, a)
    ensures !ok ==> b < Lacks(t, v)
  {
    assert KeyAt(1, v) in u.Keys ==> level == 2 || KeyAt(1, v) in t.Keys;
  }

  // ----- a range of pages -----

  function Ways(lo: nat, n: nat): seq<set<Key>> {
    seq(n, i requires 0 <= i => Way(lo + i))
  }

  /** Pages needed to map the n pages from lo: the missing tables, and k frames for each page. */
  function Need(t: Nodes, lo: nat, n: nat, k: nat): nat {
    NeedFor(t, Ways(lo, n), k)
  }

  function NeedFor(t: Nodes, ways: seq<set<Key>>, k: nat): nat {
    Beyond(Union(ways), t.Keys) + k * |ways|
  }

  lemma NeedForMore(t: Nodes, u: Nodes, ways: seq<set<Key>>, way: set<Key>, k: nat)
    requires u.Keys == t.Keys + Union(ways)
    ensures NeedFor(t, ways + [way], k) == NeedFor(t, ways, k) + k + Beyond(way, u.Keys)
  {
    UnionMore(ways, way);
    BeyondBoth(Union(ways), way, t.Keys);
    assert k * (|ways| + 1) == k * |ways| + k;
  }

  lemma NeedForFewer(t: Nodes, ways: seq<set<Key>>, n: nat, k: nat)
    requires n <= |ways|
    ensures NeedFor(t, ways[..n], k) <= NeedFor(t, ways, k)
  {
    UnionGrows(ways, n);
    BeyondFewer(Union(ways[..n]), Union(ways), t.Keys);
    Product(k, n, |ways|);
  }

  lemma Product(k: nat, m: nat, n: nat)
    requires m <= n
    ensures k * m <= k * n
  {
  }

  /** b free pages are enough to map the n pages from lo. */
  ghost predicate Enough(t: Nodes, lo: nat, n: nat, k: nat, b: nat) {
    forall key: bool :: EnoughParts(key, t, lo, n, k, b)
  }

  /** The key keeps Enough from unfolding except where a proof names its parts. */
  ghost predicate EnoughParts(key: bool, t: Nodes, lo: nat, n: nat, k: nat, b: nat) {
    b >= NeedFor(t, Ways(lo, n), k)
  }

  /** They are not. */
  ghost predicate Short(t: Nodes, lo: nat, n: nat, k: nat, b: nat) {
    forall key: bool :: ShortParts(key, t, lo, n, k, b)
  }

  /** The key keeps Short from unfolding except where a proof names its parts. */
  ghost predicate ShortParts(key: bool, t: Nodes, lo: nat, n: nat, k: nat, b: nat) {
    b < NeedFor(t, Ways(lo, n), k)
  }

  lemma EnoughIs(t: Nodes, lo: nat, n: nat, k: nat, b: nat)
    ensures Enough(t, lo, n, k, b) <==> b >= Need(t, lo, n, k)
    ensures Short(t, lo, n, k, b) <==> b < Need(t, lo, n, k)
  {
    assert EnoughParts(true, t, lo, n, k, b) == EnoughParts(false, t, lo, n, k, b);
    assert ShortParts(true, t, lo, n, k, b) == ShortParts(false, t, lo, n, k, b);
  }

  /** With b free pages before and a after, n pages have been mapped from t to u. */
  ghost predicate Spent(t: Nodes, u: Nodes, lo: nat, n: nat, k: nat, b: nat, a: nat) {
    forall key: bool :: SpentParts(key, t, u, lo, n, k, b, a)
  }

  /** The key keeps Spent from unfolding except where a proof names its parts. */
  ghost predicate SpentParts(key: bool, t: Nodes, u: Nodes, lo: nat, n: nat, k: nat, b: nat, a: nat) {
    SpentFor(t, u, Ways(lo, n), k, b, a)
  }

  ghost predicate SpentFor(t: Nodes, u: Nodes, ways: seq<set<Key>>, k: nat, b: nat, a: nat) {
    u.Keys == t.Keys + Union(ways) && b == a + NeedFor(t, ways, k)
  }

  lemma SpentNone(t: Nodes, lo: nat, k: nat, b: nat)
    ensures Spent(t, t, lo, 0, k, b, b)
  {
    assert Union([]) - t.Keys == {};
  }

  lemma WaysMore(lo: nat, n: nat)
    ensures Ways(lo, n + 1) == Ways(lo, n) + [Way(lo + n)]
  {
  }

  lemma OneWay(v: nat)
    ensures Ways(v, 1) == [Way(v)] && Union([Way(v)]) == Way(v)
  {
    assert Ways(v, 1) == [Way(v)] && [] + [Way(v)] == [Way(v)];
    UnionMore([], Way(v));
    assert Union([]) + Way(v) == Way(v);
  }

  lemma WaysAt(lo: nat, n: nat, m: nat)
    requires n < m
    ensures |Ways(lo, n)| == n < |Ways(lo, m)|
    ensures Ways(lo, n) == Ways(lo, m)[..n] && Way(lo + n) == Ways(lo, m)[n]
  {
  }

  lemma PartsMore(t: Nodes, u: Nodes, w: Nodes, ways: seq<set<Key>>, way: set<Key>, k: nat, b: nat, a: nat, c: nat)
    requires SpentFor(t, u, ways, k, b, a) && SpentFor(u, w, [way], k, a, c) && Union([way]) == way
    ensures SpentFor(t, w, ways + [way], k, b, c)
  {
    NeedForMore(t, u, ways, way, k);
    UnionMore(ways, way);
  }

  lemma SpentMore(t: Nodes, u: Nodes, w: Nodes, lo: nat, n: nat, k: nat, b: nat, a: nat, c: nat)
    requires Spent(t, u, lo, n, k, b, a) && Spent(u, w, lo + n, 1, k, a, c)
    ensures Spent(t, w, lo, n + 1, k, b, c)
  {
    assert SpentParts(true, t, u, lo, n, k, b, a) && SpentParts(true, u, w, lo + n, 1, k, a, c);
    OneWay(lo + n);
    PartsMore(t, u, w, Ways(lo, n), Way(lo + n), k, b, a, c);
    WaysMore(lo, n);
  }

  lemma SpentEnough(t: Nodes, u: Nodes, lo: nat, n: nat, k: nat, b: nat, a: nat)
    requires Spent(t, u, lo, n, k, b, a)
    ensures Enough(t, lo, n, k, b) && k * n + a <= b
  {
    assert SpentParts(true, t, u, lo, n, k, b, a);
  }

  lemma PartsOut(t: Nodes, u: Nodes, ways: seq<set<Key>>, less: seq<set<Key>>, way: set<Key>, k: nat, b: nat, a: nat)
    requires |less| < |ways| && less == ways[..|less|] && way == ways[|less|] && Union([way]) == way
    requires SpentFor(t, u, less, k, b, a) && a < NeedFor(u, [way], k)
    ensures b < NeedFor(t, ways, k)
  {
    NeedForMore(t, u, less, way, k);
    assert ways[..|less| + 1] == less + [way];
    NeedForFewer(t, ways, |less| + 1, k);
  }

  lemma SpentAs(t: Nodes, u: Nodes, lo: nat, n: nat, k: nat, b: nat, a: nat)
    requires Spent(t, u, lo, n, k, b, a)
    ensures SpentFor(t, u, Ways(lo, n), k, b, a)
  {
    assert SpentParts(true, t, u, lo, n, k, b, a);
  }

  lemma ShortOne(t: Nodes, v: nat, k: nat, b: nat)
    requires Short(t, v, 1, k, b)
    ensures b < NeedFor(t, [Way(v)], k) && Union([Way(v)]) == Way(v)
  {
    OneWay(v);
    assert ShortParts(true, t, v, 1, k, b);
  }

  /** When the pages do not reach for the next page, they did not reach for any range that has it. */
  lemma SpentOut(t: Nodes, u: Nodes, lo: nat, n: nat, k: nat, b: nat, a: nat, m: nat)
    requires Spent(t, u, lo, n, k, b, a) && n < m && Short(u, lo + n, 1, k, a)
    ensures Short(t, lo, m, k, b)
  {
    ShortOne(u, lo + n, k, a);
    WaysAt(lo, n, m);
    SpentAs(t, u, lo, n, k, b, a);
    PartsOut(t, u, Ways(lo, m), Ways(lo, n), Way(lo + n), k, b, a);
  }

  // ----- one page -----

  lemma NeedOne(t: Nodes, v: nat, k: nat)
    ensures NeedFor(t, Ways(v, 1), k) == Lacks(t, v) + k
  {
    OneWay(v);
    BeyondWay(t, v);
  }

  lemma WalkSpent(t: Nodes, u: Nodes, v: nat, b: nat, a: nat)
    requires u.Keys == t.Keys + Way(v) && b == a + Lacks(t, v)
    ensures Spent(t, u, v, 1, 0, b, a)
  {
    NeedOne(t, v, 0);
    OneWay(v);
  }

  lemma WalkShort(t: Nodes, v: nat, b: nat)
    requires b < Lacks(t, v)
    ensures Short(t, v, 1, 0, b)
  {
    NeedOne(t, v, 0);
  }

  /** A frame more. */
  lemma FrameSpent(t: Nodes, u: Nodes, v: nat, b: nat, a: nat)
    requires b > 0 && Spent(t, u, v, 1, 0, b - 1, a)
    ensures Spent(t, u, v, 1, 1, b, a)
  {
    assert SpentParts(true, t, u, v, 1, 0, b - 1, a);
    NeedOne(t, v, 0);
    NeedOne(t, v, 1);
  }

  lemma FrameShort(t: Nodes, v: nat, b: nat)
    requires b == 0 || Short(t, v, 1, 0, b - 1)
    ensures Short(t, v, 1, 1, b)
  {
    assert b == 0 || ShortParts(true, t, v, 1, 0, b - 1);
    NeedOne(t, v, 0);
    NeedOne(t, v, 1);
  }

  /** No range of more than b pages can be had with b. */
  lemma EnoughPages(t: Nodes, lo: nat, n: nat, b: nat)
    requires n > b
    ensures Short(t, lo, n, 1, b)
  {
  }

  lemma NotBoth(t: Nodes, lo: nat, n: nat, k: nat, b: nat)
    requires Short(t, lo, n, k, b)
    ensures !Enough(t, lo, n, k, b)
  {
    EnoughIs(t, lo, n, k, b);
  }
}
