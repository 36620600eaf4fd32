/**
 The blocks of the user heap of user/umalloc.c: what the free list and the live blocks are, and the few
 ways in which malloc, free and morecore change them.  Addresses and sizes count headers of 16 bytes.
 */
module HeapModel {

  /**
   The free list in address order, starting with the static header `base`; the size field of every
   header; the live blocks; and the block that each unit of memory from sbrk belongs to.
   */
  datatype Heap = Heap(fl: seq<nat>, size: map<nat, nat>, live: set<nat>, owner: map<nat, nat>) {

    predicate IsBlock(b: nat) {
      b in size && (b in live || (b in fl && b != fl[0]))
    }

    predicate Covers(b: nat, u: nat)
      requires b in size
    {
      b <= u < b + size[b]
    }
  }

  ghost predicate Ascending(fl: seq<nat>) {
    forall i, j :: 0 <= i < j < |fl| ==> fl[i] < fl[j]
  }

  ghost predicate Listed(h: Heap, base: nat) {
    && |h.fl| >= 1 && h.fl[0] == base
    && Ascending(h.fl)
    && (forall i :: 0 <= i < |h.fl| ==> h.fl[i] in h.size && (h.size[h.fl[i]] == 0 <==> i == 0))
    && (forall b :: b in h.live ==> b in h.size && h.size[b] > 0 && b > base && b !in h.fl)
  }

  /** Free and live blocks tile the memory obtained from sbrk: no gap and no overlap. */
  ghost predicate Tiled(h: Heap) {
    && (forall u :: u in h.owner ==> h.IsBlock(h.owner[u]) && h.Covers(h.owner[u], u))
    && (forall b: nat, u: nat :: h.IsBlock(b) && h.Covers(b, u) ==> u in h.owner && h.owner[u] == b)
  }

  ghost predicate Inv(h: Heap, base: nat) {
    Listed(h, base) && Tiled(h)
  }

  /** The free block at i ends where the next one begins. */
  predicate Touches(h: Heap, i: nat) {
    i + 1 < |h.fl| && h.fl[i] in h.size && h.fl[i] + h.size[h.fl[i]] == h.fl[i + 1]
  }

  ghost predicate Spaced(h: Heap) {
    forall i: nat :: !Touches(h, i)
  }

  lemma Apart(h: Heap, base: nat, b: nat, c: nat)
    requires Inv(h, base) && h.IsBlock(b) && h.IsBlock(c) && b < c
    ensures b + h.size[b] <= c
  {
    assert h.Covers(c, c);
    assert !h.Covers(b, c);
  }

  // ----- the ways to change the heap -----

  /** A live block joins the free list after position k. */
  function Insert(h: Heap, k: nat, b: nat): Heap
    requires k < |h.fl|
  {
    h.(fl := h.fl[..k + 1] + [b] + h.fl[k + 1..], live := h.live - {b})
  }

  /** The free block at i swallows the one at i + 1. */
  function Merge(h: Heap, i: nat): Heap
    requires i + 1 < |h.fl| && h.fl[i] in h.size && h.fl[i + 1] in h.size
  {
    var b, c := h.fl[i], h.fl[i + 1];
    h.(fl := h.fl[..i + 1] + h.fl[i + 2..],
       size := h.size[b := h.size[b] + h.size[c]],
       owner := map u | u in h.owner :: if h.owner[u] == c then b else h.owner[u])
  }

  /** The free block at i becomes live as a whole. */
  function Take(h: Heap, i: nat): Heap
    requires i < |h.fl|
  {
    h.(fl := h.fl[..i] + h.fl[i + 1..], live := h.live + {h.fl[i]})
  }

  /** The last n units of the free block at i become a live block. */
  function Split(h: Heap, i: nat, n: nat): Heap
    requires i < |h.fl| && h.fl[i] in h.size && n < h.size[h.fl[i]]
  {
    var b := h.fl[i];
    var q := b + (h.size[b] - n);
    h.(size := h.size[b := h.size[b] - n][q := n],
       live := h.live + {q},
       owner := map u | u in h.owner :: if q <= u < q + n then q else h.owner[u])
  }

  predicate Within(u: nat, a: nat, n: nat) {
    a <= u < a + n
  }

  /** n units from sbrk at a, as one live block. */
  function Extend(h: Heap, a: nat, n: nat): Heap {
    h.(size := h.size[a := n], live := h.live + {a},
       owner := h.owner + map u: nat | a <= u < a + n && Within(u, a, n) :: a)
  }

  lemma InsertMembers(fl: seq<nat>, k: nat, b: nat)
    requires k < |fl|
    ensures forall x :: x in fl[..k + 1] + [b] + fl[k + 1..] <==> x in fl || x == b
  {
    assert fl == fl[..k + 1] + fl[k + 1..];
  }

  lemma InsertAscending(fl: seq<nat>, k: nat, b: nat)
    requires Ascending(fl) && k < |fl| && fl[k] < b && (k + 1 < |fl| ==> b < fl[k + 1])
    ensures Ascending(fl[..k + 1] + [b] + fl[k + 1..])
  {
  }

  lemma InsertListed(h: Heap, base: nat, k: nat, b: nat)
    requires Listed(h, base) && b in h.live && k < |h.fl| && h.fl[k] < b
    requires k + 1 < |h.fl| ==> b < h.fl[k + 1]
    ensures Listed(Insert(h, k, b), base)
  {
    var r := Insert(h, k, b);
    InsertMembers(h.fl, k, b);
    InsertAscending(h.fl, k, b);
    assert forall i :: 0 <= i < |r.fl| ==> r.fl[i] == if i <= k then h.fl[i] else if i == k + 1 then b else h.fl[i - 1];
  }

  lemma InsertKeeps(h: Heap, base: nat, k: nat, b: nat)
    requires Inv(h, base) && b in h.live && k < |h.fl| && h.fl[k] < b
    requires k + 1 < |h.fl| ==> b < h.fl[k + 1]
    ensures Inv(Insert(h, k, b), base)
  {
    var r := Insert(h, k, b);
    InsertListed(h, base, k, b);
    InsertMembers(h.fl, k, b);
    forall x: nat
      ensures r.IsBlock(x) <==> h.IsBlock(x)
    {
      assert x in r.fl <==> x in h.fl || x == b;
    }
    TiledSame(h, r);
  }

  lemma TiledSame(h: Heap, r: Heap)
    requires Tiled(h) && r.owner == h.owner && r.size == h.size
    requires forall x: nat :: r.IsBlock(x) <==> h.IsBlock(x)
    ensures Tiled(r)
  {
  }

  lemma MergeKeeps(h: Heap, base: nat, i: nat)
    requires Inv(h, base) && 1 <= i && i + 1 < |h.fl| && h.fl[i] + h.size[h.fl[i]] == h.fl[i + 1]
    ensures Inv(Merge(h, i), base)
  {
    var r := Merge(h, i);
    var b, c := h.fl[i], h.fl[i + 1];
    assert forall x :: x in r.fl <==> x in h.fl && x != c;
    assert forall x :: r.IsBlock(x) <==> h.IsBlock(x) && x != c;
    assert Listed(r, base);
    forall x: nat, u: nat | r.IsBlock(x) && r.Covers(x, u)
      ensures u in r.owner && r.owner[u] == x
    {
      if x == b && u >= c {
        assert h.Covers(c, u);
      } else {
        assert h.Covers(x, u);
      }
    }
  }

  lemma TakeListed(h: Heap, base: nat, i: nat)
    requires Listed(h, base) && 1 <= i < |h.fl|
    ensures Listed(Take(h, i), base)
    ensures forall x :: x in Take(h, i).fl <==> x in h.fl && x != h.fl[i]
  {
    var r := Take(h, i);
    assert forall x :: x in r.fl <==> x in h.fl && x != h.fl[i];
  }

  lemma TakeKeeps(h: Heap, base: nat, i: nat)
    requires Inv(h, base) && 1 <= i < |h.fl|
    ensures Inv(Take(h, i), base)
  {
    var r := Take(h, i);
    TakeListed(h, base, i);
    assert forall x :: r.IsBlock(x) <==> h.IsBlock(x);
  }

  lemma SplitKeeps(h: Heap, base: nat, i: nat, n: nat)
    requires Inv(h, base) && 1 <= i < |h.fl| && 0 < n < h.size[h.fl[i]]
    ensures Inv(Split(h, i, n), base)
  {
    var r := Split(h, i, n);
    var b := h.fl[i];
    var q := b + (h.size[b] - n);
    assert h.Covers(b, q) && h.owner[q] == b;
    assert !h.IsBlock(q) by {
      if h.IsBlock(q) {
        Apart(h, base, b, q);
      }
    }
    assert forall x :: r.IsBlock(x) <==> h.IsBlock(x) || x == q;
    assert Listed(r, base);
    forall x: nat, u: nat | r.IsBlock(x) && r.Covers(x, u)
      ensures u in r.owner && r.owner[u] == x
    {
      if x == q {
        assert h.Covers(b, u);
      } else {
        assert h.Covers(x, u);
        assert x != b ==> !h.Covers(b, u);
      }
    }
  }

  lemma ExtendKeeps(h: Heap, base: nat, a: nat, n: nat)
    requires Inv(h, base) && n > 0 && a > base && forall u :: u in h.owner ==> !Within(u, a, n)
    ensures Inv(Extend(h, a, n), base)
  {
    var r := Extend(h, a, n);
    assert !h.IsBlock(a) by {
      if h.IsBlock(a) {
        assert h.Covers(a, a);
      }
    }
    assert forall x :: r.IsBlock(x) <==> h.IsBlock(x) || x == a;
    assert Listed(r, base);
    forall x: nat, u: nat | r.IsBlock(x) && r.Covers(x, u)
      ensures u in r.owner && r.owner[u] == x
    {
      if x != a {
        assert h.Covers(x, u);
      }
    }
  }

  // ----- free -----

  /** The last free block below b. */
  ghost function Place(fl: seq<nat>, b: nat): (k: nat)
    requires |fl| >= 1 && fl[0] < b
    ensures k < |fl| && fl[k] < b && (k + 1 < |fl| ==> b <= fl[k + 1])
  {
    if fl[|fl| - 1] < b then |fl| - 1 else Place(fl[..|fl| - 1], b)
  }

  function MergeIf(h: Heap, i: nat): Heap
    requires i + 1 < |h.fl| ==> h.fl[i + 1] in h.size
  {
    if Touches(h, i) then Merge(h, i) else h
  }

  /** b goes back to the free list after position k, joined with the block above and the one below. */
  function Freed(h: Heap, k: nat, b: nat): Heap
    requires k < |h.fl| && b in h.size && forall i :: 0 <= i < |h.fl| ==> h.fl[i] in h.size
  {
    MergeIf(MergeIf(Insert(h, k, b), k + 1), k)
  }

  lemma MergeIfKeeps(h: Heap, base: nat, i: nat)
    requires Inv(h, base) && i < |h.fl|
    ensures Inv(MergeIf(h, i), base)
  {
    if Touches(h, i) {
      assert i >= 1 by {
        assert h.fl[0] < h.fl[1 + 0] || |h.fl| == 1;
      }
      MergeKeeps(h, base, i);
    }
  }

  /** No two neighbours touch, apart from the ones at k and at l. */
  ghost predicate SpacedBut(h: Heap, k: nat, l: nat) {
    forall i: nat :: i != k && i != l ==> !Touches(h, i)
  }

  lemma InsertSpaced(h: Heap, base: nat, k: nat, b: nat)
    requires Inv(h, base) && Spaced(h) && b in h.live && k < |h.fl|
    ensures SpacedBut(Insert(h, k, b), k, k + 1)
  {
    var r := Insert(h, k, b);
    forall i: nat | i != k && i != k + 1
      ensures !Touches(r, i)
    {
      if i < k {
        assert !Touches(h, i);
      } else {
        assert !Touches(h, i - 1);
      }
    }
  }

  lemma MergeIfSpaced(h: Heap, base: nat, i: nat, l: nat)
    requires Inv(h, base) && i < |h.fl| && l <= i && SpacedBut(h, l, i)
    ensures l == i ==> Spaced(MergeIf(h, i))
    ensures SpacedBut(MergeIf(h, i), l, l)
  {
    var r := MergeIf(h, i);
    if Touches(h, i) {
      forall j: nat | l == i || j != l
        ensures !Touches(r, j)
      {
        if j < i {
          assert !Touches(h, j);
        } else {
          assert !Touches(h, j + 1);
        }
      }
    }
  }

  /** Merging moves nothing between free and live. */
  lemma MergeIfSame(h: Heap, base: nat, i: nat)
    requires Inv(h, base) && i < |h.fl|
    ensures
      var r := MergeIf(h, i);
      && r.live == h.live && r.owner.Keys == h.owner.Keys
      && (forall x :: x in h.live ==> r.size[x] == h.size[x])
      && i < |r.fl| && (forall j :: 0 <= j <= i ==> r.fl[j] == h.fl[j])
  {
  }

  lemma FreedKeeps(h: Heap, base: nat, k: nat, b: nat)
    requires Inv(h, base) && Spaced(h) && b in h.live && k < |h.fl| && h.fl[k] < b
    requires k + 1 < |h.fl| ==> b < h.fl[k + 1]
    ensures
      var r := Freed(h, k, b);
      && Inv(r, base) && Spaced(r)
      && r.live == h.live - {b} && r.owner.Keys == h.owner.Keys
      && (forall x :: x in r.live ==> r.size[x] == h.size[x])
      && k < |r.fl| && r.fl[k] == h.fl[k]
  {
    InsertKeeps(h, base, k, b);
    InsertSpaced(h, base, k, b);
    var r1 := Insert(h, k, b);
    MergeIfKeeps(r1, base, k + 1);
    MergeIfSpaced(r1, base, k + 1, k);
    MergeIfSame(r1, base, k + 1);
    var r2 := MergeIf(r1, k + 1);
    assert r2.fl[k] == r1.fl[k] == h.fl[k];
    MergeIfKeeps(r2, base, k);
    MergeIfSpaced(r2, base, k, k);
    MergeIfSame(r2, base, k);
  }

  /** From h to r exactly the units of the live block b have become free. */
  ghost predicate OnlyFreed(h: Heap, r: Heap, b: nat) {
    forall u :: u in h.owner ==> u in r.owner && (r.owner[u] in r.live <==> h.owner[u] in h.live && h.owner[u] != b)
  }

  lemma FreesOnly(h: Heap, r: Heap, base: nat, b: nat)
    requires Tiled(h) && Inv(r, base) && b in h.live && r.live == h.live - {b}
    requires r.owner.Keys == h.owner.Keys && (forall x :: x in r.live ==> x in h.size && r.size[x] == h.size[x])
    ensures OnlyFreed(h, r, b)
  {
    forall u | u in h.owner
      ensures u in r.owner && (r.owner[u] in r.live <==> h.owner[u] in h.live && h.owner[u] != b)
    {
      var x, y := h.owner[u], r.owner[u];
      if x in h.live && x != b {
        assert r.IsBlock(x) && r.Covers(x, u);
      } else if y in r.live {
        assert h.IsBlock(y) && h.Covers(y, u);
        assert false;
      }
    }
  }

  // ----- malloc -----

  /** The free block at i serves a request for n units. */
  function Served(h: Heap, i: nat, n: nat): Heap
    requires i < |h.fl| && h.fl[i] in h.size && n <= h.size[h.fl[i]]
  {
    if h.size[h.fl[i]] == n then Take(h, i) else Split(h, i, n)
  }

  /** The block that the request gets. */
  function Given(h: Heap, i: nat, n: nat): nat
    requires i < |h.fl| && h.fl[i] in h.size && n <= h.size[h.fl[i]]
  {
    h.fl[i] + (h.size[h.fl[i]] - n)
  }

  /** The units of the block that is given out were all free. */
  lemma GivenWasFree(h: Heap, base: nat, i: nat, n: nat)
    requires Inv(h, base) && 1 <= i < |h.fl| && 0 < n <= h.size[h.fl[i]]
    ensures Given(h, i, n) !in h.live
    ensures forall u :: Given(h, i, n) <= u < Given(h, i, n) + n ==> u in h.owner && h.owner[u] == h.fl[i]
  {
    var x := h.fl[i];
    var b := Given(h, i, n);
    assert h.IsBlock(x);
    assert b in h.live ==> h.IsBlock(b) && h.Covers(b, b);
    forall u: nat | b <= u < b + n
      ensures u in h.owner && h.owner[u] == x
    {
      assert h.Covers(x, u);
    }
  }

  lemma ServedKeeps(h: Heap, base: nat, i: nat, n: nat)
    requires Inv(h, base) && Spaced(h) && 1 <= i < |h.fl| && 0 < n <= h.size[h.fl[i]]
    ensures
      var r := Served(h, i, n);
      var b := Given(h, i, n);
      && Inv(r, base) && Spaced(r) && r.owner.Keys == h.owner.Keys
      && b !in h.live && r.live == h.live + {b} && r.size[b] == n
      && (forall x :: x in h.live ==> r.size[x] == h.size[x])
      && (forall u :: b <= u < b + n ==> u in h.owner && h.owner[u] == h.fl[i])
  {
    GivenWasFree(h, base, i, n);
    ServedSpaced(h, base, i, n);
    if h.size[h.fl[i]] == n {
      TakeKeeps(h, base, i);
    } else {
      SplitKeeps(h, base, i, n);
    }
  }

  lemma ServedSpaced(h: Heap, base: nat, i: nat, n: nat)
    requires Inv(h, base) && Spaced(h) && 1 <= i < |h.fl| && 0 < n <= h.size[h.fl[i]]
    ensures Spaced(Served(h, i, n))
  {
    var r := Served(h, i, n);
    forall j: nat
      ensures !Touches(r, j)
    {
      if h.size[h.fl[i]] == n {
        if j + 1 < i {
          assert !Touches(h, j);
        } else if j + 1 == i && i + 1 < |h.fl| {
          if j >= 1 {
            Apart(h, base, h.fl[j], h.fl[i]);
          }
        } else {
          assert !Touches(h, j + 1);
        }
      } else if j == i {
        if i + 1 < |h.fl| {
          Apart(h, base, h.fl[i], h.fl[i + 1]);
        }
      } else {
        assert !Touches(h, j);
        if j < |h.fl| && j >= 1 && h.fl[j] == Given(h, i, n) {
          assert h.Covers(h.fl[i], h.fl[j]) && h.Covers(h.fl[j], h.fl[j]);
        }
      }
    }
  }

  // ----- the ptr fields -----

  function Succ(fl: seq<nat>, i: nat): nat
    requires i < |fl|
  {
    if i + 1 < |fl| then fl[i + 1] else fl[0]
  }

  /** The ptr fields make the free list one cycle in address order, with a single wrap at its end. */
  ghost predicate Ring(fl: seq<nat>, ptr: map<nat, nat>) {
    && (forall i :: 0 <= i < |fl| ==> fl[i] in ptr)
    && (forall i {:trigger Succ(fl, i)} :: 0 <= i < |fl| ==> ptr[fl[i]] == Succ(fl, i))
  }

  /** The test that ends the search loop of free, at the header p whose ptr field is n. */
  predicate Stops(p: nat, n: nat, b: nat) {
    (b > p && b < n) || (p >= n && (b > p || b < n))
  }

  /** The search for b stops at one header of the cycle and at no other. */
  lemma StopsOnce(fl: seq<nat>, b: nat, i: nat)
    requires Ascending(fl) && |fl| >= 1 && fl[0] < b && b !in fl && i < |fl|
    ensures Stops(fl[i], Succ(fl, i), b) <==> i == Place(fl, b)
  {
    var k := Place(fl, b);
    if i < k {
      assert fl[i] < fl[i + 1] <= fl[k];
    } else if i > k {
      assert fl[k + 1] <= fl[i];
    }
  }

  lemma RingInsert(fl: seq<nat>, ptr: map<nat, nat>, k: nat, b: nat)
    requires Ring(fl, ptr) && Ascending(fl) && k < |fl| && b !in fl
    ensures Ring(fl[..k + 1] + [b] + fl[k + 1..], ptr[b := ptr[fl[k]]][fl[k] := b])
  {
    var r := fl[..k + 1] + [b] + fl[k + 1..];
    var q := ptr[b := ptr[fl[k]]][fl[k] := b];
    forall i | 0 <= i < |r|
      ensures r[i] in q && q[r[i]] == Succ(r, i)
    {
      if i <= k {
        assert r[i] == fl[i] && ptr[fl[i]] == Succ(fl, i);
      } else if i == k + 1 {
        assert ptr[fl[k]] == Succ(fl, k);
      } else {
        assert r[i] == fl[i - 1] && ptr[fl[i - 1]] == Succ(fl, i - 1);
      }
    }
  }

  lemma RingRemove(fl: seq<nat>, ptr: map<nat, nat>, i: nat)
    requires Ring(fl, ptr) && Ascending(fl) && i + 1 < |fl|
    ensures Ring(fl[..i + 1] + fl[i + 2..], ptr[fl[i] := ptr[fl[i + 1]]])
  {
    var r := fl[..i + 1] + fl[i + 2..];
    var q := ptr[fl[i] := ptr[fl[i + 1]]];
    forall j | 0 <= j < |r|
      ensures r[j] in q && q[r[j]] == Succ(r, j)
    {
      if j < i {
        assert r[j] == fl[j] && ptr[fl[j]] == Succ(fl, j);
      } else {
        assert r[j] == fl[if j == i then i else j + 1] && ptr[fl[j + 1]] == Succ(fl, j + 1);
      }
    }
  }

  lemma RingReplace(fl: seq<nat>, ptr: map<nat, nat>, k: nat, b: nat)
    requires Ring(fl, ptr) && Ascending(fl) && k + 1 < |fl| && b !in fl
    ensures Ring(fl[k + 1 := b], ptr[b := ptr[fl[k + 1]]][fl[k] := b])
  {
    var r := fl[k + 1 := b];
    var q := ptr[b := ptr[fl[k + 1]]][fl[k] := b];
    forall i | 0 <= i < |r|
      ensures r[i] in q && q[r[i]] == Succ(r, i)
    {
      assert ptr[fl[i]] == Succ(fl, i);
    }
  }

  /** The list and the sizes after free has put b in after position k, when b ends at the next free block. */
  lemma AboveTouches(h: Heap, k: nat, b: nat)
    requires k + 1 < |h.fl| && b in h.size && h.fl[k + 1] in h.size && b + h.size[b] == h.fl[k + 1]
    ensures
      var r := MergeIf(Insert(h, k, b), k + 1);
      r.fl == h.fl[k + 1 := b] && r.size == h.size[b := h.size[b] + h.size[h.fl[k + 1]]]
  {
    var h1 := Insert(h, k, b);
    assert h1.fl[k + 1] == b && h1.fl[k + 2] == h.fl[k + 1];
  }

  lemma AboveIsApart(h: Heap, k: nat, b: nat)
    requires k < |h.fl| && b in h.size && (k + 1 < |h.fl| ==> h.fl[k + 1] in h.size && b + h.size[b] != h.fl[k + 1])
    ensures MergeIf(Insert(h, k, b), k + 1) == Insert(h, k, b)
  {
    var h1 := Insert(h, k, b);
    assert h1.fl[k + 1] == b && (k + 1 < |h.fl| ==> h1.fl[k + 2] == h.fl[k + 1]);
  }

  lemma AboveShape(h: Heap, base: nat, k: nat, b: nat)
    requires Inv(h, base) && b in h.live && k < |h.fl| && h.fl[k] < b && (k + 1 < |h.fl| ==> b < h.fl[k + 1])
    ensures
      var r := MergeIf(Insert(h, k, b), k + 1);
      && Inv(r, base) && k + 1 < |r.fl| && r.fl[k] == h.fl[k] && r.fl[k + 1] == b
  {
    var h1 := Insert(h, k, b);
    InsertKeeps(h, base, k, b);
    MergeIfKeeps(h1, base, k + 1);
    MergeIfSame(h1, base, k + 1);
    assert h1.fl[k] == h.fl[k] && h1.fl[k + 1] == b;
  }

  lemma BelowTouches(fl: seq<nat>, ptr: map<nat, nat>, k: nat)
    requires Ascending(fl) && k + 1 < |fl| && fl[k + 1] in ptr && Ring(fl, ptr[fl[k] := fl[k + 1]])
    ensures Ring(fl[..k + 1] + fl[k + 2..], ptr[fl[k] := ptr[fl[k + 1]]])
  {
    var p1 := ptr[fl[k] := fl[k + 1]];
    RingRemove(fl, p1, k);
    assert fl[k] < fl[k + 1];
    assert p1[fl[k] := p1[fl[k + 1]]] == ptr[fl[k] := ptr[fl[k + 1]]];
  }

  /** The free block that holds b after free. */
  ghost function Holder(h: Heap, k: nat, b: nat): nat
    requires k < |h.fl| && b in h.size && forall i :: 0 <= i < |h.fl| ==> h.fl[i] in h.size
  {
    if Touches(MergeIf(Insert(h, k, b), k + 1), k) then k else k + 1
  }

  lemma HolderHolds(h: Heap, base: nat, k: nat, b: nat)
    requires Inv(h, base) && b in h.live && k < |h.fl| && h.fl[k] < b && (k + 1 < |h.fl| ==> b < h.fl[k + 1])
    ensures
      var r := Freed(h, k, b);
      var g := Holder(h, k, b);
      g < |r.fl| && r.fl[g] in r.size && r.fl[g] <= b && b + h.size[b] <= r.fl[g] + r.size[r.fl[g]]
  {
    AboveShape(h, base, k, b);
    var r1 := MergeIf(Insert(h, k, b), k + 1);
    assert r1.size[b] >= h.size[b] by {
      assert Insert(h, k, b).fl[k + 1] == b;
    }
  }

  lemma ExtendSpaced(h: Heap, base: nat, a: nat, n: nat)
    requires Inv(h, base) && Spaced(h) && a !in h.fl
    ensures Spaced(Extend(h, a, n))
  {
    forall i: nat
      ensures !Touches(Extend(h, a, n), i)
    {
      assert !Touches(h, i);
    }
  }

  // ----- the search of malloc -----

  /** g is one of the positions i, i + 1, ..., f of the cycle. */
  predicate InSpan(i: nat, f: nat, g: nat) {
    if i <= f then i <= g <= f else g >= i || g <= f
  }

  /** How many steps of ptr lead from position i to position f. */
  function Steps(i: nat, f: nat, n: nat): nat
    requires i < n && f < n
  {
    if i <= f then f - i else n + f - i
  }

  function NextIn(i: nat, n: nat): nat {
    if i + 1 < n then i + 1 else 0
  }

  lemma SpanStep(i: nat, f: nat, g: nat, n: nat)
    requires i < n && f < n && g < n
    ensures i != f ==> Steps(NextIn(i, n), f, n) < Steps(i, f, n)
    ensures i != f && InSpan(i, f, g) && g != i ==> InSpan(NextIn(i, n), f, g)
    ensures i == f ==> InSpan(NextIn(i, n), f, g)
    ensures i == f && InSpan(i, f, g) ==> g == i
  {
  }

  /** The free blocks that the search has passed, those not between i and f, are all smaller than n. */
  ghost predicate TooSmall(h: Heap, n: nat, i: nat, f: nat) {
    forall k: nat :: k < |h.fl| && !InSpan(i, f, k) ==> SmallAt(h, n, k)
  }

  predicate SmallAt(h: Heap, n: nat, k: nat)
    requires k < |h.fl|
  {
    h.fl[k] in h.size && h.size[h.fl[k]] < n
  }

  ghost predicate AllSmall(h: Heap, n: nat) {
    forall k: nat :: k < |h.fl| ==> SmallAt(h, n, k)
  }

  lemma SearchBegins(h: Heap, n: nat, f: nat)
    requires f < |h.fl|
    ensures TooSmall(h, n, NextIn(f, |h.fl|), f)
  {
    forall k: nat | k < |h.fl|
      ensures InSpan(NextIn(f, |h.fl|), f, k)
    {
      SpanStep(f, f, k, |h.fl|);
    }
  }

  lemma SearchGoesOn(h: Heap, n: nat, i: nat, f: nat)
    requires i < |h.fl| && f < |h.fl| && TooSmall(h, n, i, f) && SmallAt(h, n, i)
    ensures i != f ==> TooSmall(h, n, NextIn(i, |h.fl|), f)
    ensures i == f ==> AllSmall(h, n)
  {
    forall k: nat | k < |h.fl|
      ensures i != f && !InSpan(NextIn(i, |h.fl|), f, k) ==> SmallAt(h, n, k)
      ensures i == f ==> SmallAt(h, n, k)
    {
      SpanStep(i, f, k, |h.fl|);
    }
  }

  /** Only the static header has size 0, so a block that fits is not the first of the list. */
  lemma FitsInside(h: Heap, base: nat, j: nat, i: nat, n: nat)
    requires Listed(h, base) && j < |h.fl| && i == NextIn(j, |h.fl|) && 0 < n <= h.size[h.fl[i]]
    ensures 1 <= i && j == i - 1
  {
  }

  lemma RingNext(fl: seq<nat>, ptr: map<nat, nat>, i: nat)
    requires Ring(fl, ptr) && i < |fl|
    ensures fl[i] in ptr && ptr[fl[i]] == fl[NextIn(i, |fl|)]
  {
    assert ptr[fl[i]] == Succ(fl, i);
  }
}
