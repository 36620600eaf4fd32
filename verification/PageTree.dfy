/**
 Sv39 page tables as a three-level tree in physical memory, and the plain map from page numbers to
 PTEs that the tree stands for.
 */
module PageTree {
  import opened RiscV

  /** The page-table pages, by physical address. */
  type Tables = map<nat, seq<nat>>

  /** A position in the tree: Mid(i) hangs from entry i of the root, Low(q) from entry q % 512 of Mid(q / 512). */
  datatype Key = Root | Mid(i: nat) | Low(q: nat)

  /** Which page holds the table at each position. */
  type Nodes = map<Key, nat>

  /** memset(pagetable, 0, PGSIZE) */
  function Zeros(): seq<nat> {
    seq(512, i => 0)
  }

  function SetEntry(page: seq<nat>, i: nat, pte: nat): seq<nat>
    requires i < |page|
  {
    page[i := pte]
  }

  /** A PTE that is either clear or points at the table at position k. */
  ghost predicate Points(pte: nat, t: Nodes, k: Key)
    requires k in t ==> t[k] % PGSIZE == 0
  {
    if k in t then pte == MakePte(t[k], 0) else !IsV(pte)
  }

  ghost predicate Shape(m: Tables, t: Nodes) {
    && Root in t
    && (forall k :: k in t ==> t[k] in m && |m[t[k]]| == 512 && t[k] % PGSIZE == 0)
    && (forall k, l :: k in t && l in t && t[k] == t[l] ==> k == l)
    && (forall i: nat :: Mid(i) in t ==> i < 512)
    && (forall q: nat :: Low(q) in t ==> q < 0x4_0000 && Mid(q / 512) in t)
  }

  ghost predicate Tree(m: Tables, t: Nodes) {
    Root in t && forall key: bool :: TreeParts(key, m, t)
  }

  /** The key keeps Tree from unfolding except where a proof names its parts. */
  ghost predicate TreeParts(key: bool, m: Tables, t: Nodes) {
    Branches(m, t)
  }

  ghost predicate Branches(m: Tables, t: Nodes) {
    && Shape(m, t)
    && (forall i :: 0 <= i < 512 ==> Points(m[t[Root]][i], t, Mid(i)))
    && (forall q :: 0 <= q < 0x4_0000 && Mid(q / 512) in t ==> Points(m[t[Mid(q / 512)]][q % 512], t, Low(q)))
  }

  /** The PTE of page v; an absent table reads as a clear PTE. */
  function Leaf(m: Tables, t: Nodes, v: nat): nat {
    if Low(v / 512) in t && t[Low(v / 512)] in m then Entry(m[t[Low(v / 512)]], v % 512) else 0
  }

  function Entry(page: seq<nat>, i: nat): nat {
    if i < |page| then page[i] else 0
  }

  /** What the tree means: the PTE of every mapped page. */
  ghost function Pages(m: Tables, t: Nodes): map<nat, nat> {
    map v | 0 <= v < NVPAGE && IsV(Leaf(m, t, v)) :: Leaf(m, t, v)
  }

  /** Two pages never share a PTE slot. */
  lemma SlotsDistinct(m: Tables, t: Nodes, v: nat, w: nat)
    requires Branches(m, t) && Low(v / 512) in t && Low(w / 512) in t
    requires t[Low(v / 512)] == t[Low(w / 512)] && v % 512 == w % 512
    ensures v == w
  {
    assert Low(v / 512) == Low(w / 512);
  }

  /** Hanging a cleared table into an empty entry of a level-2 or level-1 table. */
  function Hang(m: Tables, parent: nat, i: nat, pa: nat): (r: Tables)
    requires parent in m && |m[parent]| == 512 && i < 512 && pa % PGSIZE == 0
  {
    m[pa := Zeros()][parent := SetEntry(m[parent], i, MakePte(pa, 0))]
  }

  lemma HangMid(m: Tables, t: Nodes, i: nat, pa: nat)
    requires Branches(m, t) && i < 512 && Mid(i) !in t && pa !in m && pa % PGSIZE == 0
    ensures
      var r := Hang(m, t[Root], i, pa);
      var u := t[Mid(i) := pa];
      Tree(r, u) && forall v: nat :: Leaf(r, u, v) == Leaf(m, t, v)
  {
    var r := Hang(m, t[Root], i, pa);
    var u := t[Mid(i) := pa];
    assert Shape(r, u);
    forall q | 0 <= q < 0x4_0000 && Mid(q / 512) in u
      ensures Points(r[u[Mid(q / 512)]][q % 512], u, Low(q))
    {
      if q / 512 != i {
        assert r[u[Mid(q / 512)]] == m[t[Mid(q / 512)]];
      }
    }
  }

  lemma HangLow(m: Tables, t: Nodes, q: nat, pa: nat)
    requires Branches(m, t) && q < 0x4_0000 && Low(q) !in t && Mid(q / 512) in t && pa !in m && pa % PGSIZE == 0
    ensures
      var r := Hang(m, t[Mid(q / 512)], q % 512, pa);
      var u := t[Low(q) := pa];
      Tree(r, u) && forall v: nat :: Leaf(r, u, v) == Leaf(m, t, v)
  {
    var r := Hang(m, t[Mid(q / 512)], q % 512, pa);
    var u := t[Low(q) := pa];
    assert Shape(r, u);
    forall p | 0 <= p < 0x4_0000 && Mid(p / 512) in u
      ensures Points(r[u[Mid(p / 512)]][p % 512], u, Low(p))
    {
      if p / 512 != q / 512 {
        assert r[u[Mid(p / 512)]] == m[t[Mid(p / 512)]];
      }
    }
  }

  /** Storing into one leaf PTE. */
  function Store(m: Tables, t: Nodes, v: nat, pte: nat): Tables
    requires Low(v / 512) in t && t[Low(v / 512)] in m && |m[t[Low(v / 512)]]| == 512
  {
    var a := t[Low(v / 512)];
    m[a := SetEntry(m[a], v % 512, pte)]
  }

  lemma StoreOne(m: Tables, t: Nodes, v: nat, pte: nat)
    requires Branches(m, t) && v < NVPAGE && Low(v / 512) in t
    ensures
      var r := Store(m, t, v, pte);
      && Tree(r, t)
      && Leaf(r, t, v) == pte
      && forall w: nat :: w != v ==> Leaf(r, t, w) == Leaf(m, t, w)
  {
    var r := Store(m, t, v, pte);
    assert Shape(r, t);
    forall w: nat | w != v
      ensures Leaf(r, t, w) == Leaf(m, t, w)
    {
      if Low(w / 512) in t && w % 512 == v % 512 && w / 512 != v / 512 {
        assert Low(w / 512) != Low(v / 512);
      }
    }
  }

  /** A change elsewhere in memory does not concern the tree. */
  lemma Untouched(m: Tables, r: Tables, t: Nodes)
    requires Branches(m, t)
    requires forall k :: k in t ==> t[k] in r && r[t[k]] == m[t[k]]
    ensures Tree(r, t)
    ensures forall v: nat :: Leaf(r, t, v) == Leaf(m, t, v)
  {
    assert Shape(r, t);
  }

  /** The tables outside the tree are the same pages with the same contents: none lost, none touched. */
  ghost predicate Outside(m: Tables, t: Nodes, r: Tables, u: Nodes) {
    && m.Keys - t.Values == r.Keys - u.Values
    && forall pa :: pa in m.Keys - t.Values ==> r[pa] == m[pa]
  }

  /** The tree keeps its tables, may gain some, and no other table changes. */
  ghost predicate Kept(m: Tables, t: Nodes, r: Tables, u: Nodes) {
    && Tree(r, u) && (Root in t ==> Root in u && u[Root] == t[Root])
    && forall key: bool :: Extended(key, m, t, r, u)
  }

  /** The key keeps Kept from unfolding except where a proof names its parts. */
  ghost predicate Extended(key: bool, m: Tables, t: Nodes, r: Tables, u: Nodes) {
    && m.Keys <= r.Keys
    && (forall k :: k in t ==> k in u && u[k] == t[k])
    && (forall k :: k in u && k !in t ==> u[k] !in m)
    && Outside(m, t, r, u)
  }

  /** u maps every page as t does. */
  ghost predicate SameLeaves(m: Tables, t: Nodes, r: Tables, u: Nodes) {
    forall v: nat :: Leaf(r, u, v) == Leaf(m, t, v)
  }

  lemma KeptSelf(m: Tables, t: Nodes)
    requires Tree(m, t)
    ensures Kept(m, t, m, t) && Root in t
  {
  }

  lemma KeptMore(m: Tables, t: Nodes, r: Tables, u: Nodes, s: Tables, w: Nodes)
    requires Kept(m, t, r, u) && Kept(r, u, s, w)
    ensures Kept(m, t, s, w)
  {
    assert Extended(true, m, t, r, u) && Extended(true, r, u, s, w);
    forall pa | pa in m.Keys - t.Values
      ensures s[pa] == m[pa]
    {
      assert pa in r.Keys - u.Values;
    }
    forall key: bool
      ensures Extended(key, m, t, s, w)
    {
    }
  }

  /** The table position that walk has reached when `level` is next to be resolved below it. */
  function KeyAt(level: nat, v: nat): Key {
    if level >= 3 then Root else if level == 2 then Mid(v / 0x4_0000) else Low(v / 512)
  }

  /** The entry that walk reads at `level`. */
  function Index(level: nat, v: nat): nat {
    if level == 2 then v / 0x4_0000 else if level == 1 then v / 512 % 512 else v % 512
  }

  lemma IndexIsPX(va: nat, level: nat)
    requires va < MAXVA && level < 3
    ensures PX(level, va) == Index(level, va / PGSIZE)
  {
    Split(va);
  }

  lemma EntryPoints(m: Tables, t: Nodes, level: nat, v: nat)
    requires Branches(m, t) && v < NVPAGE && 1 <= level <= 2 && KeyAt(level + 1, v) in t
    ensures Points(m[t[KeyAt(level + 1, v)]][Index(level, v)], t, KeyAt(level, v))
  {
  }

  lemma HangAt(m: Tables, t: Nodes, level: nat, v: nat, pa: nat)
    requires Branches(m, t) && v < NVPAGE && 1 <= level <= 2 && pa !in m && pa % PGSIZE == 0
    requires KeyAt(level + 1, v) in t && KeyAt(level, v) !in t
    ensures
      var r := Hang(m, t[KeyAt(level + 1, v)], Index(level, v), pa);
      var u := t[KeyAt(level, v) := pa];
      Kept(m, t, r, u) && SameLeaves(m, t, r, u)
  {
    if level == 2 {
      HangMid(m, t, v / 0x4_0000, pa);
    } else {
      HangLow(m, t, v / 512, pa);
    }
    HangValues(m, t, level, v, pa);
  }

  lemma HangValues(m: Tables, t: Nodes, level: nat, v: nat, pa: nat)
    requires Branches(m, t) && v < NVPAGE && 1 <= level <= 2 && pa !in m && pa % PGSIZE == 0
    requires KeyAt(level + 1, v) in t && KeyAt(level, v) !in t
    ensures
      var r := Hang(m, t[KeyAt(level + 1, v)], Index(level, v), pa);
      Outside(m, t, r, t[KeyAt(level, v) := pa])
  {
    var c := KeyAt(level, v);
    var u := t[c := pa];
    assert u.Values == t.Values + {pa} by {
      forall k | k in t ensures t[k] in u.Values { assert u[k] == t[k]; }
      assert u[c] == pa;
    }
  }

  /** The frames of the pages lo, ..., hi - 1. */
  ghost function Frames(m: Tables, t: Nodes, lo: nat, hi: nat): set<nat> {
    set v: nat | lo <= v < hi :: PTE2PA(Leaf(m, t, v))
  }

  /** The pages lo, ..., hi - 1 are mapped as leaves, each to a data page of its own. */
  ghost predicate Holds(m: Tables, t: Nodes, data: set<nat>, lo: nat, hi: nat) {
    && (forall v: nat :: lo <= v < hi ==>
          IsV(Leaf(m, t, v)) && PTE_FLAGS(Leaf(m, t, v)) != PTE_V && PTE2PA(Leaf(m, t, v)) in data)
    && (forall v: nat, w: nat :: lo <= v < w < hi ==> PTE2PA(Leaf(m, t, v)) != PTE2PA(Leaf(m, t, w)))
  }

  lemma StoreKept(m: Tables, t: Nodes, v: nat, pte: nat)
    requires Branches(m, t) && v < NVPAGE && Low(v / 512) in t
    ensures Kept(m, t, Store(m, t, v, pte), t)
  {
    StoreOne(m, t, v, pte);
    var a := t[Low(v / 512)];
    assert a in t.Values;
  }

  /** The k-th page after pa. */
  function PageAfter(pa: nat, k: nat): (r: nat)
    requires pa % PGSIZE == 0
    ensures r % PGSIZE == 0 && r / PGSIZE == pa / PGSIZE + k
  {
    pa + k * PGSIZE
  }

  /** A loop that goes up a page at a time from start to end: it is at a, the page lo + k of lo, ..., hi - 1. */
  predicate PageLoop(start: nat, end: nat, lo: nat, hi: nat, a: nat, k: nat) {
    forall key: bool :: PageLoopParts(key, start, end, lo, hi, a, k)
  }

  /** The key keeps PageLoop from unfolding except where a proof names its parts. */
  predicate PageLoopParts(key: bool, start: nat, end: nat, lo: nat, hi: nat, a: nat, k: nat) {
    && start % PGSIZE == 0 && lo == start / PGSIZE && hi == PGROUNDUP(end) / PGSIZE
    && a == PageAfter(start, k) && lo + k <= hi && (a < end <==> lo + k < hi)
  }

  lemma PageLoopBegin(start: nat, end: nat, lo: nat, hi: nat)
    requires start % PGSIZE == 0 && lo == start / PGSIZE && hi == PGROUNDUP(end) / PGSIZE && lo <= hi
    ensures PageLoop(start, end, lo, hi, start, 0)
  {
    BelowRoundUp(start, end);
  }

  lemma PageLoopAt(start: nat, end: nat, lo: nat, hi: nat, a: nat, k: nat)
    requires PageLoop(start, end, lo, hi, a, k)
    ensures a < end <==> lo + k < hi
    ensures a >= end ==> lo + k == hi
  {
    assert PageLoopParts(true, start, end, lo, hi, a, k);
  }

  lemma PageLoopStep(start: nat, end: nat, lo: nat, hi: nat, a: nat, k: nat)
    requires PageLoop(start, end, lo, hi, a, k) && a < end
    ensures PageLoop(start, end, lo, hi, a + PGSIZE, k + 1)
  {
    assert PageLoopParts(true, start, end, lo, hi, a, k);
    BelowRoundUp(PageAfter(start, k + 1), end);
  }

  /** The page loop ends below MAXVA, or n free pages do not take it there; the pages on its way are not mapped. */
  ghost predicate Room(m: Tables, t: Nodes, start: nat, end: nat, lo: nat, hi: nat, n: nat) {
    forall key: bool :: RoomParts(key, m, t, start, end, lo, hi, n)
  }

  /** The key keeps Room from unfolding except where a proof names its parts. */
  ghost predicate RoomParts(key: bool, m: Tables, t: Nodes, start: nat, end: nat, lo: nat, hi: nat, n: nat) {
    && start % PGSIZE == 0 && (end <= MAXVA || PageAfter(start, n) <= MAXVA)
    && (forall v: nat :: lo <= v < hi && v < lo + n ==> !IsV(Leaf(m, t, v)))
  }

  /** A loop that uses up one of at most n free pages in each round stays below MAXVA. */
  lemma PageLoopRoom(start: nat, end: nat, lo: nat, hi: nat, a: nat, k: nat, n: nat)
    requires PageLoop(start, end, lo, hi, a, k) && a < end && start % PGSIZE == 0
    requires k <= n && (end <= MAXVA || PageAfter(start, n) <= MAXVA)
    ensures a <= MAXVA && (k < n ==> a < MAXVA)
  {
    assert PageLoopParts(true, start, end, lo, hi, a, k);
  }

  /** u maps the n pages from lo to the n frames from pa, and every other page as t does. */
  ghost predicate Mapped(m: Tables, t: Nodes, r: Tables, u: Nodes, lo: nat, n: nat, pa: nat, perm: nat)
    requires pa % PGSIZE == 0 && perm < 1024
  {
    forall v: nat :: Leaf(r, u, v) ==
      if lo <= v < lo + n then MakePte(PageAfter(pa, v - lo), perm) else Leaf(m, t, v)
  }

  lemma MappedMore(m: Tables, t: Nodes, r: Tables, u: Nodes, s: Tables, w: Nodes, lo: nat, n: nat, pa: nat, perm: nat)
    requires pa % PGSIZE == 0 && perm < 1024
    requires Mapped(m, t, r, u, lo, n, pa, perm)
    requires forall v: nat :: Leaf(s, w, v) == if v == lo + n then MakePte(PageAfter(pa, n), perm) else Leaf(r, u, v)
    ensures Mapped(m, t, s, w, lo, n + 1, pa, perm)
  {
  }

  /** t without the n pages from lo. */
  ghost predicate Unmapped(m: Tables, t: Nodes, r: Tables, lo: nat, n: nat) {
    forall v: nat :: Leaf(r, t, v) == if lo <= v < lo + n then 0 else Leaf(m, t, v)
  }

  lemma FrameStill(m: Tables, t: Nodes, data: set<nat>, lo: nat, n: nat, i: nat)
    requires Holds(m, t, data, lo, lo + n) && i < n
    ensures PTE2PA(Leaf(m, t, lo + i)) in data - Frames(m, t, lo, lo + i)
  {
  }

  lemma UnmappedMore(m: Tables, t: Nodes, r: Tables, s: Tables, lo: nat, n: nat)
    requires Unmapped(m, t, r, lo, n)
    requires forall v: nat :: Leaf(s, t, v) == if v == lo + n then 0 else Leaf(r, t, v)
    ensures Unmapped(m, t, s, lo, n + 1)
  {
  }

  lemma FramesMore(m: Tables, t: Nodes, lo: nat, n: nat)
    ensures Frames(m, t, lo, lo + n + 1) == Frames(m, t, lo, lo + n) + {PTE2PA(Leaf(m, t, lo + n))}
  {
  }

  /** The same pages are mapped, to the same frames with the same flags. */
  ghost predicate SamePages(m: Tables, t: Nodes, r: Tables, u: Nodes) {
    forall v: nat :: Leaf(r, u, v) == Leaf(m, t, v) || (!IsV(Leaf(r, u, v)) && !IsV(Leaf(m, t, v)))
  }

  /** SamePages is equality of the maps that the two trees stand for. */
  lemma SamePagesIsEquality(m: Tables, t: Nodes, r: Tables, u: Nodes)
    requires forall v: nat :: v >= NVPAGE ==> !IsV(Leaf(m, t, v)) && !IsV(Leaf(r, u, v))
    ensures SamePages(m, t, r, u) <==> Pages(m, t) == Pages(r, u)
  {
    if Pages(m, t) == Pages(r, u) {
      forall v: nat
        ensures Leaf(r, u, v) == Leaf(m, t, v) || (!IsV(Leaf(r, u, v)) && !IsV(Leaf(m, t, v)))
      {
        if v < NVPAGE && (IsV(Leaf(r, u, v)) || IsV(Leaf(m, t, v))) {
          assert v in Pages(m, t) && v in Pages(r, u);
          assert Pages(m, t)[v] == Pages(r, u)[v];
        }
      }
    }
    if SamePages(m, t, r, u) {
      assert Pages(m, t) == Pages(r, u);
    }
  }

  /** A second tree that shares no table with the one that grows. */
  lemma OtherTree(m: Tables, t: Nodes, r: Tables, u: Nodes, o: Nodes)
    requires Tree(m, t) && Kept(m, t, r, u) && Tree(m, o) && o.Values !! t.Values
    ensures Tree(r, o) && SameLeaves(m, o, r, o) && o.Values !! u.Values
  {
    assert Extended(true, m, t, r, u) && TreeParts(true, m, o);
    forall k | k in o
      ensures o[k] in r && r[o[k]] == m[o[k]]
    {
      assert o[k] in o.Values && o[k] in m.Keys - t.Values;
    }
    Untouched(m, r, o);
    forall pa | pa in o.Values
      ensures pa !in u.Values
    {
      assert pa in m.Keys - t.Values;
    }
  }
}
