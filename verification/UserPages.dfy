/**
 What filling a range of user pages with fresh frames means, for uvmalloc and uvmcopy.
 */
module UserPages {
  import opened Bytes
  import opened RiscV
  import opened PageTree

  type Data = map<nat, seq<Byte>>

  /** The flags and the contents that a page is to have. */
  datatype Want = Want(perm: nat, bytes: seq<Byte>)

  /**
   From (m, t, f) to (r, u, g): the pages from lo on have got frames of their own, none of them in
   use before, with the wanted flags and contents; every other page and every older frame is as it was.
   */
  ghost predicate Filled(m: Tables, t: Nodes, f: Data, r: Tables, u: Nodes, g: Data, lo: nat, w: seq<Want>) {
    forall key: bool :: FilledParts(key, m, t, f, r, u, g, lo, w)
  }

  /** The key keeps Filled from unfolding except where a proof names its parts. */
  ghost predicate FilledParts(key: bool, m: Tables, t: Nodes, f: Data, r: Tables, u: Nodes, g: Data, lo: nat,
                              w: seq<Want>) {
    && (forall v: nat :: !(lo <= v < lo + |w|) ==> Leaf(r, u, v) == Leaf(m, t, v))
    && Holds(r, u, g.Keys - f.Keys, lo, lo + |w|)
    && g.Keys == f.Keys + Frames(r, u, lo, lo + |w|)
    && (forall pa :: pa in f ==> g[pa] == f[pa])
    && (forall i :: 0 <= i < |w| ==>
          PTE_FLAGS(Leaf(r, u, lo + i)) == w[i].perm / 2 * 2 + 1 && g[PTE2PA(Leaf(r, u, lo + i))] == w[i].bytes)
  }

  lemma FilledNone(m: Tables, t: Nodes, f: Data, lo: nat, w: seq<Want>)
    requires w == []
    ensures Filled(m, t, f, m, t, f, lo, w)
  {
    assert Frames(m, t, lo, lo) == {};
  }

  lemma FilledKeys(m: Tables, t: Nodes, f: Data, r: Tables, u: Nodes, g: Data, s: Tables, x: Nodes, h: Data,
                   lo: nat, w: seq<Want>, pa: nat, want: Want)
    requires FilledParts(true, m, t, f, r, u, g, lo, w)
    requires pa % PGSIZE == 0 && want.perm < 1024 && want.perm / 2 > 0
    requires pa !in g && h == g[pa := want.bytes]
    requires forall v: nat :: Leaf(s, x, v) == if v == lo + |w| then MakePte(pa, want.perm) else Leaf(r, u, v)
    ensures h.Keys == f.Keys + Frames(s, x, lo, lo + |w| + 1)
  {
    var n := |w|;
    assert Frames(s, x, lo, lo + n) == Frames(r, u, lo, lo + n);
    FramesMore(s, x, lo, n);
    assert PTE2PA(Leaf(s, x, lo + n)) == pa;
  }

  lemma FilledOwns(m: Tables, t: Nodes, f: Data, r: Tables, u: Nodes, g: Data, s: Tables, x: Nodes, h: Data,
                   lo: nat, w: seq<Want>, pa: nat, want: Want)
    requires FilledParts(true, m, t, f, r, u, g, lo, w)
    requires pa % PGSIZE == 0 && want.perm < 1024 && want.perm / 2 > 0
    requires pa !in g && h == g[pa := want.bytes]
    requires forall v: nat :: Leaf(s, x, v) == if v == lo + |w| then MakePte(pa, want.perm) else Leaf(r, u, v)
    ensures Holds(s, x, h.Keys - f.Keys, lo, lo + |w| + 1)
  {
    forall v: nat | lo <= v < lo + |w|
      ensures Leaf(s, x, v) == Leaf(r, u, v) && PTE2PA(Leaf(r, u, v)) in g
    {
    }
    FilledKeys(m, t, f, r, u, g, s, x, h, lo, w, pa, want);
    assert PTE2PA(Leaf(s, x, lo + |w|)) == pa;
  }

  lemma FilledContents(m: Tables, t: Nodes, f: Data, r: Tables, u: Nodes, g: Data, s: Tables, x: Nodes, h: Data,
                       lo: nat, w: seq<Want>, pa: nat, want: Want, more: seq<Want>)
    requires FilledParts(true, m, t, f, r, u, g, lo, w)
    requires pa % PGSIZE == 0 && want.perm < 1024 && want.perm / 2 > 0
    requires pa !in g && h == g[pa := want.bytes] && more == w + [want]
    requires forall v: nat :: Leaf(s, x, v) == if v == lo + |w| then MakePte(pa, want.perm) else Leaf(r, u, v)
    ensures forall i :: 0 <= i < |more| ==>
      && PTE_FLAGS(Leaf(s, x, lo + i)) == more[i].perm / 2 * 2 + 1
      && PTE2PA(Leaf(s, x, lo + i)) in h && h[PTE2PA(Leaf(s, x, lo + i))] == more[i].bytes
  {
    forall i | 0 <= i < |w|
      ensures Leaf(s, x, lo + i) == Leaf(r, u, lo + i) && more[i] == w[i] && PTE2PA(Leaf(r, u, lo + i)) in g
    {
      assert IsV(Leaf(r, u, lo + i));
    }
  }

  /** One page more. */
  lemma FilledMore(m: Tables, t: Nodes, f: Data, r: Tables, u: Nodes, g: Data, s: Tables, x: Nodes, h: Data,
                   lo: nat, w: seq<Want>, pa: nat, want: Want)
    requires Filled(m, t, f, r, u, g, lo, w)
    requires pa % PGSIZE == 0 && want.perm < 1024 && want.perm / 2 > 0
    requires pa !in g && h == g[pa := want.bytes]
    requires forall v: nat :: Leaf(s, x, v) == if v == lo + |w| then MakePte(pa, want.perm) else Leaf(r, u, v)
    ensures Filled(m, t, f, s, x, h, lo, w + [want])
  {
    assert FilledParts(true, m, t, f, r, u, g, lo, w);
    FilledKeys(m, t, f, r, u, g, s, x, h, lo, w, pa, want);
    FilledOwns(m, t, f, r, u, g, s, x, h, lo, w, pa, want);
    FilledContents(m, t, f, r, u, g, s, x, h, lo, w, pa, want, w + [want]);
    FilledRest(m, t, f, r, u, g, s, x, h, lo, w, pa, want);
    FilledJoin(m, t, f, s, x, h, lo, w + [want]);
  }

  lemma MappedFills(m: Tables, t: Nodes, f: Data, r: Tables, u: Nodes, g: Data, s: Tables, x: Nodes, h: Data,
                    lo: nat, w: seq<Want>, pa: nat, want: Want)
    requires Filled(m, t, f, r, u, g, lo, w)
    requires pa % PGSIZE == 0 && want.perm < 1024 && want.perm / 2 > 0
    requires pa !in g && h == g[pa := want.bytes] && Mapped(r, u, s, x, lo + |w|, 1, pa, want.perm)
    ensures Filled(m, t, f, s, x, h, lo, w + [want])
  {
    assert PageAfter(pa, 0) == pa;
    FilledMore(m, t, f, r, u, g, s, x, h, lo, w, pa, want);
  }

  /** What one page more, or the failure to add it, is to the pages filled since (m, t, f). */
  lemma PageAdded(m: Tables, t: Nodes, f: Data, r: Tables, u: Nodes, g: Data, s: Tables, x: Nodes, h: Data,
                  lo: nat, w: seq<Want>, pa: nat, want: Want, ok: bool)
    requires Kept(m, t, r, u) && Kept(r, u, s, x) && Filled(m, t, f, r, u, g, lo, w)
    requires want.perm < 1024 && want.perm / 2 > 0
    requires ok ==> pa % PGSIZE == 0 && pa !in g && h == g[pa := want.bytes]
    requires ok ==> Mapped(r, u, s, x, lo + |w|, 1, pa, want.perm)
    requires !ok ==> h == g && SameLeaves(r, u, s, x)
    ensures Kept(m, t, s, x) && Filled(m, t, f, s, x, h, lo, if ok then w + [want] else w)
  {
    KeptMore(m, t, r, u, s, x);
    if ok {
      MappedFills(m, t, f, r, u, g, s, x, h, lo, w, pa, want);
    } else {
      FilledSame(m, t, f, r, u, g, s, x, lo, w);
    }
  }

  lemma FilledRest(m: Tables, t: Nodes, f: Data, r: Tables, u: Nodes, g: Data, s: Tables, x: Nodes, h: Data,
                   lo: nat, w: seq<Want>, pa: nat, want: Want)
    requires FilledParts(true, m, t, f, r, u, g, lo, w)
    requires pa % PGSIZE == 0 && want.perm < 1024 && pa !in g && h == g[pa := want.bytes]
    requires forall v: nat :: Leaf(s, x, v) == if v == lo + |w| then MakePte(pa, want.perm) else Leaf(r, u, v)
    ensures forall v: nat :: !(lo <= v < lo + |w| + 1) ==> Leaf(s, x, v) == Leaf(m, t, v)
    ensures forall b :: b in f ==> b in h && h[b] == f[b]
  {
  }

  lemma FilledJoin(m: Tables, t: Nodes, f: Data, r: Tables, u: Nodes, g: Data, lo: nat, w: seq<Want>)
    requires forall v: nat :: !(lo <= v < lo + |w|) ==> Leaf(r, u, v) == Leaf(m, t, v)
    requires Holds(r, u, g.Keys - f.Keys, lo, lo + |w|)
    requires g.Keys == f.Keys + Frames(r, u, lo, lo + |w|)
    requires forall pa :: pa in f ==> pa in g && g[pa] == f[pa]
    requires forall i :: 0 <= i < |w| ==>
      && PTE_FLAGS(Leaf(r, u, lo + i)) == w[i].perm / 2 * 2 + 1
      && PTE2PA(Leaf(r, u, lo + i)) in g && g[PTE2PA(Leaf(r, u, lo + i))] == w[i].bytes
    ensures Filled(m, t, f, r, u, g, lo, w)
  {
  }

  /** Taking the filled pages away again restores the mapping and the data pages. */
  lemma FilledUndone(m: Tables, t: Nodes, f: Data, r: Tables, u: Nodes, g: Data, s: Tables, h: Data,
                     lo: nat, w: seq<Want>)
    requires Filled(m, t, f, r, u, g, lo, w)
    requires forall v: nat :: lo <= v < lo + |w| ==> !IsV(Leaf(m, t, v))
    requires Unmapped(r, u, s, lo, |w|) && h == g - Frames(r, u, lo, lo + |w|)
    ensures SamePages(m, t, s, u) && h == f
  {
    assert FilledParts(true, m, t, f, r, u, g, lo, w);
    assert h.Keys == f.Keys;
  }

  lemma FilledSame(m: Tables, t: Nodes, f: Data, r: Tables, u: Nodes, g: Data, s: Tables, x: Nodes, lo: nat, w: seq<Want>)
    requires Filled(m, t, f, r, u, g, lo, w) && SameLeaves(r, u, s, x)
    ensures Filled(m, t, f, s, x, g, lo, w)
  {
    assert FilledParts(true, m, t, f, r, u, g, lo, w);
    assert Frames(s, x, lo, lo + |w|) == Frames(r, u, lo, lo + |w|);
    forall key: bool
      ensures FilledParts(key, m, t, f, s, x, g, lo, w)
    {
    }
  }

  lemma FilledOutside(m: Tables, t: Nodes, f: Data, r: Tables, u: Nodes, g: Data, lo: nat, w: seq<Want>, v: nat)
    requires Filled(m, t, f, r, u, g, lo, w) && !(lo <= v < lo + |w|)
    ensures Leaf(r, u, v) == Leaf(m, t, v)
  {
    assert FilledParts(true, m, t, f, r, u, g, lo, w);
  }

  /** The filled pages can be unmapped. */
  lemma FilledHolds(m: Tables, t: Nodes, f: Data, r: Tables, u: Nodes, g: Data, lo: nat, w: seq<Want>)
    requires Filled(m, t, f, r, u, g, lo, w)
    ensures Holds(r, u, g.Keys, lo, lo + |w|)
  {
    assert FilledParts(true, m, t, f, r, u, g, lo, w);
  }

  /** n pages with the same flags and contents. */
  function Same(n: nat, w: Want): (s: seq<Want>)
    ensures |s| == n
  {
    seq(n, i => w)
  }

  lemma SameMore(n: nat, w: Want)
    ensures Same(n + 1, w) == Same(n, w) + [w]
  {
  }

  /** The n pages from lo are gone, and with `freed` their frames too. */
  ghost predicate Taken(m: Tables, t: Nodes, f: Data, r: Tables, g: Data, lo: nat, n: nat, freed: bool) {
    forall key: bool :: TakenParts(key, m, t, f, r, g, lo, n, freed)
  }

  /** The key keeps Taken from unfolding except where a proof names its parts. */
  ghost predicate TakenParts(key: bool, m: Tables, t: Nodes, f: Data, r: Tables, g: Data, lo: nat, n: nat, freed: bool) {
    && Unmapped(m, t, r, lo, n)
    && (freed ==> g == f - Frames(m, t, lo, lo + n))
    && (!freed ==> g == f)
  }

  lemma TakenNone(m: Tables, t: Nodes, f: Data, lo: nat, freed: bool)
    ensures Taken(m, t, f, m, f, lo, 0, freed)
  {
    assert Frames(m, t, lo, lo) == {};
  }

  lemma TakenMore(m: Tables, t: Nodes, f: Data, r: Tables, g: Data, s: Tables, h: Data, lo: nat, n: nat, freed: bool)
    requires Taken(m, t, f, r, g, lo, n, freed)
    requires forall v: nat :: Leaf(s, t, v) == if v == lo + n then 0 else Leaf(r, t, v)
    requires freed ==> h == g - {PTE2PA(Leaf(r, t, lo + n))}
    requires !freed ==> h == g
    ensures Taken(m, t, f, s, h, lo, n + 1, freed)
  {
    assert TakenParts(true, m, t, f, r, g, lo, n, freed);
    UnmappedMore(m, t, r, s, lo, n);
    FramesMore(m, t, lo, n);
    assert Leaf(r, t, lo + n) == Leaf(m, t, lo + n);
  }

  /** While the pages from lo on are being taken, the next one is still mapped. */
  lemma StillMapped(m: Tables, t: Nodes, f: Data, r: Tables, g: Data, lo: nat, n: nat, i: nat, freed: bool)
    requires Taken(m, t, f, r, g, lo, i, freed) && i < n && (freed ==> Holds(m, t, f.Keys, lo, lo + n))
    requires forall v: nat :: lo <= v < lo + n ==> IsV(Leaf(m, t, v)) && PTE_FLAGS(Leaf(m, t, v)) != PTE_V
    ensures IsV(Leaf(r, t, lo + i)) && PTE_FLAGS(Leaf(r, t, lo + i)) != PTE_V
    ensures freed ==> PTE2PA(Leaf(r, t, lo + i)) in g
  {
    assert TakenParts(true, m, t, f, r, g, lo, i, freed);
    if freed {
      FrameStill(m, t, f.Keys, lo, n, i);
    }
  }

  function FrameBytes(f: Data, pa: nat): seq<Byte> {
    if pa in f then f[pa] else []
  }

  /** The flags and contents of the first n pages. */
  ghost function Image(m: Tables, t: Nodes, f: Data, n: nat): (w: seq<Want>)
    ensures |w| == n
  {
    seq(n, i requires 0 <= i => PageImage(m, t, f, i))
  }

  lemma ImageMore(m: Tables, t: Nodes, f: Data, n: nat)
    ensures Image(m, t, f, n + 1) == Image(m, t, f, n) + [PageImage(m, t, f, n)]
  {
  }

  ghost function PageImage(m: Tables, t: Nodes, f: Data, v: nat): Want {
    Want(PTE_FLAGS(Leaf(m, t, v)), FrameBytes(f, PTE2PA(Leaf(m, t, v))))
  }

  /** A copy has equal flags and bytes on frames that the original does not use. */
  lemma CopyIsApart(m: Tables, o: Nodes, t: Nodes, f: Data, r: Tables, u: Nodes, g: Data, n: nat, v: nat, w: nat)
    requires Holds(m, o, f.Keys, 0, n) && SameLeaves(m, o, r, o)
    requires Filled(m, t, f, r, u, g, 0, Image(m, o, f, n)) && v < n && w < n
    ensures PTE2PA(Leaf(r, o, v)) != PTE2PA(Leaf(r, u, w))
    ensures PTE_FLAGS(Leaf(r, u, v)) == PTE_FLAGS(Leaf(r, o, v))
    ensures PTE2PA(Leaf(r, o, v)) in g && PTE2PA(Leaf(r, u, v)) in g
    ensures g[PTE2PA(Leaf(r, u, v))] == g[PTE2PA(Leaf(r, o, v))]
  {
    var x := Image(m, o, f, n);
    assert FilledParts(true, m, t, f, r, u, g, 0, x);
    assert x[v] == PageImage(m, o, f, v);
    assert PTE2PA(Leaf(r, u, w)) in g.Keys - f.Keys && PTE2PA(Leaf(r, u, v)) in g.Keys - f.Keys;
    assert Leaf(r, o, v) == Leaf(m, o, v) && IsV(Leaf(m, o, v));
  }

  /** The parent o has hi pages, each with a frame of its own, and the child t has none of them. */
  ghost predicate Parent(m: Tables, o: Nodes, t: Nodes, f: Data, hi: nat) {
    forall key: bool :: ParentParts(key, m, o, t, f, hi)
  }

  /** The key keeps Parent from unfolding except where a proof names its parts. */
  ghost predicate ParentParts(key: bool, m: Tables, o: Nodes, t: Nodes, f: Data, hi: nat) {
    && Tree(m, o) && Tree(m, t) && o.Values !! t.Values && Holds(m, o, f.Keys, 0, hi)
    && (forall v: nat :: v < hi ==> !IsV(Leaf(m, t, v)))
    && (forall pa :: pa in f ==> |f[pa]| == PGSIZE)
  }

  /** The first n pages of o are copied into t. */
  ghost predicate Copied(m: Tables, o: Nodes, t: Nodes, f: Data, r: Tables, u: Nodes, g: Data, n: nat) {
    forall key: bool :: CopiedParts(key, m, o, t, f, r, u, g, n)
  }

  /** The key keeps Copied from unfolding except where a proof names its parts. */
  ghost predicate CopiedParts(key: bool, m: Tables, o: Nodes, t: Nodes, f: Data, r: Tables, u: Nodes, g: Data, n: nat) {
    Filled(m, t, f, r, u, g, 0, Image(m, o, f, n))
  }

  lemma CopiedNone(m: Tables, o: Nodes, t: Nodes, f: Data)
    ensures Copied(m, o, t, f, m, t, f, 0)
  {
    FilledNone(m, t, f, 0, Image(m, o, f, 0));
  }

  /** While the child t is being filled, the parent o still reads as it did at the start. */
  lemma SourcePage(m: Tables, o: Nodes, t: Nodes, f: Data, r: Tables, u: Nodes, g: Data, w: seq<Want>, n: nat)
    requires Tree(m, o) && Tree(m, t) && o.Values !! t.Values && Holds(m, o, f.Keys, n, n + 1)
    requires Kept(m, t, r, u) && Filled(m, t, f, r, u, g, 0, w)
    ensures Tree(r, o)
    ensures
      var pte := Leaf(r, o, n);
      && IsV(pte) && PTE_FLAGS(pte) / 2 > 0 && PTE2PA(pte) in f && PTE2PA(pte) in g
      && PageImage(m, o, f, n) == Want(PTE_FLAGS(pte), g[PTE2PA(pte)])
  {
    assert FilledParts(true, m, t, f, r, u, g, 0, w);
    OtherTree(m, t, r, u, o);
    assert Leaf(r, o, n) == Leaf(m, o, n);
  }

  lemma PutBack(f: Data, pa: nat, bytes: seq<Byte>)
    requires pa !in f
    ensures f[pa := bytes] - {pa} == f
  {
  }
}
