/**
 User memory as a flat array of bytes, for copyin, copyout and copyinstr.
 */
module UserBytes {
  import opened Bytes
  import opened RiscV
  import opened PageTree
  import opened UserPages

  ghost predicate Readable(m: Tables, t: Nodes, va: nat) {
    va < MAXVA && IsV(Leaf(m, t, va / PGSIZE)) && IsU(Leaf(m, t, va / PGSIZE))
  }

  ghost predicate Writable(m: Tables, t: Nodes, va: nat) {
    Readable(m, t, va) && IsW(Leaf(m, t, va / PGSIZE))
  }

  /** Every user page has a data page of its own. */
  ghost predicate UserMem(m: Tables, t: Nodes, f: Data) {
    forall key: bool :: UserMemParts(key, m, t, f)
  }

  /** The key keeps UserMem from unfolding except where a proof names its parts. */
  ghost predicate UserMemParts(key: bool, m: Tables, t: Nodes, f: Data) {
    && (forall v: nat :: IsV(Leaf(m, t, v)) && IsU(Leaf(m, t, v)) ==> PTE2PA(Leaf(m, t, v)) in f)
    && (forall v: nat, w: nat ::
          v < w && IsV(Leaf(m, t, v)) && IsU(Leaf(m, t, v)) && IsV(Leaf(m, t, w)) && IsU(Leaf(m, t, w)) ==>
          PTE2PA(Leaf(m, t, v)) != PTE2PA(Leaf(m, t, w)))
    && (forall pa :: pa in f ==> |f[pa]| == PGSIZE && pa > 0)
  }

  /** The byte that the user reads at va; -1 where there is none. */
  ghost function ByteAt(m: Tables, t: Nodes, f: Data, va: nat): int {
    var pte := Leaf(m, t, va / PGSIZE);
    if IsV(pte) && IsU(pte) && PTE2PA(pte) in f && |f[PTE2PA(pte)]| == PGSIZE then f[PTE2PA(pte)][va % PGSIZE] else -1
  }

  /** From f to g exactly the bytes from va on have changed, to src. */
  ghost predicate Written(m: Tables, t: Nodes, f: Data, g: Data, va: nat, src: seq<Byte>) {
    forall x: nat :: WrittenAt(m, t, f, g, va, src, x)
  }

  ghost predicate WrittenAt(m: Tables, t: Nodes, f: Data, g: Data, va: nat, src: seq<Byte>, x: nat) {
    ByteAt(m, t, g, x) == if va <= x < va + |src| then src[x - va] else ByteAt(m, t, f, x)
  }

  lemma WrittenNone(m: Tables, t: Nodes, f: Data, va: nat, src: seq<Byte>)
    requires src == []
    ensures Written(m, t, f, f, va, src) && Elsewhere(m, t, f, f)
  {
  }

  lemma WrittenMore(m: Tables, t: Nodes, f: Data, g: Data, h: Data, va: nat, src: seq<Byte>, more: seq<Byte>)
    requires Written(m, t, f, g, va, src) && Written(m, t, g, h, va + |src|, more)
    ensures Written(m, t, f, h, va, src + more)
  {
    forall x: nat
      ensures WrittenAt(m, t, f, h, va, src + more, x)
    {
      assert WrittenAt(m, t, f, g, va, src, x) && WrittenAt(m, t, g, h, va + |src|, more, x);
    }
  }

  lemma SamePage(va: nat, x: nat)
    ensures va / PGSIZE == x / PGSIZE ==> x % PGSIZE - va % PGSIZE == x - va
    ensures va <= x && va % PGSIZE + (x - va) < PGSIZE ==> va / PGSIZE == x / PGSIZE
  {
  }

  /** One memmove of copyout, within a page. */
  lemma WriteChunk(m: Tables, t: Nodes, f: Data, va: nat, src: seq<Byte>)
    requires UserMem(m, t, f) && Readable(m, t, va) && va % PGSIZE + |src| <= PGSIZE
    ensures
      var pa := PTE2PA(Leaf(m, t, va / PGSIZE));
      pa in f && |f[pa]| == PGSIZE &&
      var g := f[pa := Overwrite(f[pa], va % PGSIZE, src)];
      UserMem(m, t, g) && Written(m, t, f, g, va, src)
  {
    assert UserMemParts(true, m, t, f);
    var v := va / PGSIZE;
    var pa := PTE2PA(Leaf(m, t, v));
    var g := f[pa := Overwrite(f[pa], va % PGSIZE, src)];
    forall x: nat
      ensures WrittenAt(m, t, f, g, va, src, x)
    {
      SamePage(va, x);
      var w := x / PGSIZE;
      var pte := Leaf(m, t, w);
      if w != v && IsV(pte) && IsU(pte) {
        assert PTE2PA(pte) != pa;
      }
    }
  }

  /** How much of len bytes at va lies in the page of va. */
  function Chunk(va: nat, len: nat): (n: nat)
    ensures n <= len && (len > 0 ==> n > 0) && va % PGSIZE + n <= PGSIZE
  {
    if PGSIZE - va % PGSIZE > len then len else PGSIZE - va % PGSIZE
  }

  lemma PageOf(va: nat)
    ensures va - PGROUNDDOWN(va) == va % PGSIZE && PGROUNDDOWN(va) / PGSIZE == va / PGSIZE
    ensures va < MAXVA <==> PGROUNDDOWN(va) < MAXVA
  {
  }

  lemma ChunkEnds(va: nat, len: nat)
    ensures Chunk(va, len) < len ==> va + Chunk(va, len) == PGROUNDDOWN(va) + PGSIZE
  {
  }

  ghost predicate AllWritable(m: Tables, t: Nodes, lo: nat, hi: nat) {
    forall x: nat :: lo <= x < hi ==> Writable(m, t, x)
  }

  lemma ChunkWritable(m: Tables, t: Nodes, va: nat, len: nat)
    requires Writable(m, t, va)
    ensures AllWritable(m, t, va, va + Chunk(va, len))
  {
    forall x: nat | va <= x < va + Chunk(va, len)
      ensures Writable(m, t, x)
    {
      SamePage(va, x);
    }
  }

  /** copyout has stored the first `done` bytes of src, all to writable addresses, and nothing else. */
  ghost predicate Stored(m: Tables, t: Nodes, f: Data, g: Data, va: nat, src: seq<Byte>, done: nat) {
    forall key: bool :: StoredParts(key, m, t, f, g, va, src, done)
  }

  /** The key keeps Stored from unfolding except where a proof names its parts. */
  ghost predicate StoredParts(key: bool, m: Tables, t: Nodes, f: Data, g: Data, va: nat, src: seq<Byte>, done: nat) {
    && done <= |src| && AllWritable(m, t, va, va + done)
    && Written(m, t, f, g, va, src[..done]) && Elsewhere(m, t, f, g)
  }

  lemma StoredNone(m: Tables, t: Nodes, f: Data, va: nat, src: seq<Byte>)
    ensures Stored(m, t, f, f, va, src, 0)
  {
    WrittenNone(m, t, f, va, src[..0]);
  }

  /** One round of copyout, as long as the page goes. */
  lemma StoreChunk(m: Tables, t: Nodes, f: Data, va: nat, src: seq<Byte>, n: nat)
    requires UserMem(m, t, f) && Writable(m, t, va) && n == Chunk(va, |src|)
    ensures
      var pa := PTE2PA(Leaf(m, t, va / PGSIZE));
      pa in f && |f[pa]| == PGSIZE &&
      var g := f[pa := Overwrite(f[pa], va % PGSIZE, src[..n])];
      UserMem(m, t, g) && Stored(m, t, f, g, va, src, n)
  {
    WriteChunk(m, t, f, va, src[..n]);
    ChunkWritable(m, t, va, |src|);
    var pa := PTE2PA(Leaf(m, t, va / PGSIZE));
    var g := f[pa := Overwrite(f[pa], va % PGSIZE, src[..n])];
    assert UserPage(m, t, va / PGSIZE);
    assert Elsewhere(m, t, f, g);
  }

  lemma StoredStep(m: Tables, t: Nodes, f: Data, g: Data, h: Data, va: nat, src: seq<Byte>, done: nat,
                   dst: nat, rest: seq<Byte>, n: nat)
    requires done <= |src| && dst == va + done && rest == src[done..]
    requires Stored(m, t, f, g, va, src, done) && Stored(m, t, g, h, dst, rest, n)
    ensures Stored(m, t, f, h, va, src, done + n) && n <= |rest|
  {
    assert StoredParts(true, m, t, f, g, va, src, done) && StoredParts(true, m, t, g, h, dst, rest, n);
    WrittenMore(m, t, f, g, h, va, src[..done], rest[..n]);
    assert src[..done] + rest[..n] == src[..done + n];
    ElsewhereMore(m, t, f, g, h);
  }

  /** got is what the user has from va on. */
  ghost predicate IsRead(m: Tables, t: Nodes, f: Data, va: nat, got: seq<Byte>) {
    forall x: nat :: va <= x < va + |got| ==> ReadAt(m, t, f, va, got, x)
  }

  ghost predicate ReadAt(m: Tables, t: Nodes, f: Data, va: nat, got: seq<Byte>, x: nat)
    requires va <= x < va + |got|
  {
    Readable(m, t, x) && ByteAt(m, t, f, x) == got[x - va]
  }

  lemma IsReadMore(m: Tables, t: Nodes, f: Data, va: nat, got: seq<Byte>, more: seq<Byte>)
    requires IsRead(m, t, f, va, got) && IsRead(m, t, f, va + |got|, more)
    ensures IsRead(m, t, f, va, got + more)
  {
    forall x: nat | va <= x < va + |got + more|
      ensures ReadAt(m, t, f, va, got + more, x)
    {
      if x < va + |got| {
        assert ReadAt(m, t, f, va, got, x);
      } else {
        assert ReadAt(m, t, f, va + |got|, more, x);
      }
    }
  }

  lemma IsReadLess(m: Tables, t: Nodes, f: Data, va: nat, got: seq<Byte>, n: nat)
    requires IsRead(m, t, f, va, got) && n <= |got|
    ensures IsRead(m, t, f, va, got[..n])
  {
    forall x: nat | va <= x < va + n
      ensures ReadAt(m, t, f, va, got[..n], x)
    {
      assert ReadAt(m, t, f, va, got, x);
    }
  }

  lemma ReadChunk(m: Tables, t: Nodes, f: Data, va: nat, n: nat)
    requires UserMem(m, t, f) && Readable(m, t, va) && va % PGSIZE + n <= PGSIZE
    ensures
      var pa := PTE2PA(Leaf(m, t, va / PGSIZE));
      pa in f && |f[pa]| == PGSIZE && IsRead(m, t, f, va, f[pa][va % PGSIZE..va % PGSIZE + n])
  {
    assert UserMemParts(true, m, t, f);
    forall x: nat | va <= x < va + n
      ensures x / PGSIZE == va / PGSIZE && x % PGSIZE == va % PGSIZE + (x - va) && x < MAXVA
    {
      SamePage(va, x);
    }
  }

  lemma WritableIsReadable(m: Tables, t: Nodes, lo: nat, hi: nat, va: nat)
    requires AllWritable(m, t, lo, hi) && lo <= va < hi
    ensures Readable(m, t, va)
  {
    assert Writable(m, t, va);
  }

  lemma SameBytes(m: Tables, t: Nodes, f: Data, g: Data, va: nat, src: seq<Byte>, dst: seq<Byte>)
    requires Written(m, t, f, g, va, src) && IsRead(m, t, g, va, dst) && AllWritable(m, t, va, va + |src|)
    requires |dst| < |src| ==> !Readable(m, t, va + |dst|)
    ensures |dst| <= |src| ==> dst == src
  {
    if |dst| < |src| {
      WritableIsReadable(m, t, va, va + |src|, va + |dst|);
      assert false;
    }
    if |dst| == |src| {
      forall i | 0 <= i < |dst|
        ensures dst[i] == src[i]
      {
        assert WrittenAt(m, t, f, g, va, src, va + i) && ReadAt(m, t, g, va, dst, va + i);
      }
    }
  }

  ghost predicate UserPage(m: Tables, t: Nodes, v: nat) {
    IsV(Leaf(m, t, v)) && IsU(Leaf(m, t, v))
  }

  /** The data pages that are not the user pages of t have not changed. */
  ghost predicate Elsewhere(m: Tables, t: Nodes, f: Data, g: Data) {
    forall pa: nat :: StillAt(m, t, f, g, pa)
  }

  ghost predicate StillAt(m: Tables, t: Nodes, f: Data, g: Data, pa: nat) {
    pa in f && (forall v: nat :: UserPage(m, t, v) ==> PTE2PA(Leaf(m, t, v)) != pa) ==> pa in g && g[pa] == f[pa]
  }

  lemma ElsewhereMore(m: Tables, t: Nodes, f: Data, g: Data, h: Data)
    requires Elsewhere(m, t, f, g) && Elsewhere(m, t, g, h)
    ensures Elsewhere(m, t, f, h)
  {
    forall pa: nat
      ensures StillAt(m, t, f, h, pa)
    {
      assert StillAt(m, t, f, g, pa) && StillAt(m, t, g, h, pa);
    }
  }

  /** Two address spaces, each with data pages of its own, that share none. */
  ghost predicate Separate(m: Tables, o: Nodes, t: Nodes, f: Data) {
    && UserMem(m, o, f) && UserMem(m, t, f)
    && (forall v: nat, w: nat :: UserPage(m, o, v) && UserPage(m, t, w) ==>
          PTE2PA(Leaf(m, o, v)) != PTE2PA(Leaf(m, t, w)))
  }

  /** Stores through t never show in o, and the two stay separate. */
  lemma Isolation(m: Tables, o: Nodes, t: Nodes, f: Data, g: Data)
    requires Separate(m, o, t, f) && UserMem(m, t, g) && Elsewhere(m, t, f, g)
    ensures Separate(m, o, t, g)
    ensures forall va: nat :: ByteAt(m, o, g, va) == ByteAt(m, o, f, va)
  {
    assert UserMemParts(true, m, o, f) && UserMemParts(true, m, t, g);
    forall v: nat | UserPage(m, o, v)
      ensures PTE2PA(Leaf(m, o, v)) in g && g[PTE2PA(Leaf(m, o, v))] == f[PTE2PA(Leaf(m, o, v))]
    {
      assert StillAt(m, t, f, g, PTE2PA(Leaf(m, o, v)));
    }
    forall va: nat
      ensures ByteAt(m, o, g, va) == ByteAt(m, o, f, va)
    {
      assert UserPage(m, o, va / PGSIZE) || !UserPage(m, o, va / PGSIZE);
    }
    assert forall key: bool :: UserMemParts(key, m, o, g);
  }

  /** All user pages are below page n, as those of a process of n pages are. */
  ghost predicate EndsAt(m: Tables, t: Nodes, n: nat) {
    forall v: nat :: UserPage(m, t, v) ==> v < n
  }

  lemma SameFlags(p: nat, q: nat)
    requires PTE_FLAGS(p) == PTE_FLAGS(q)
    ensures IsV(p) == IsV(q) && IsU(p) == IsU(q)
  {
  }

  /** Page v of the copy is a user page exactly if it is one of the original, with a new frame and the same bytes. */
  lemma CopiedPage(m: Tables, o: Nodes, t: Nodes, f: Data, r: Tables, u: Nodes, g: Data, n: nat, v: nat)
    requires Holds(m, o, f.Keys, 0, n) && EndsAt(m, o, n) && EndsAt(m, t, n)
    requires Filled(m, t, f, r, u, g, 0, Image(m, o, f, n))
    ensures UserPage(r, u, v) <==> UserPage(m, o, v)
    ensures UserPage(r, u, v) ==>
      && v < n && PTE2PA(Leaf(r, u, v)) in g.Keys - f.Keys
      && PTE2PA(Leaf(m, o, v)) in f && g[PTE2PA(Leaf(r, u, v))] == f[PTE2PA(Leaf(m, o, v))]
  {
    var x := Image(m, o, f, n);
    assert FilledParts(true, m, t, f, r, u, g, 0, x);
    if v < n {
      assert x[v] == PageImage(m, o, f, v);
      SameFlags(Leaf(r, u, 0 + v), Leaf(m, o, v));
    } else {
      assert UserPage(m, t, v) ==> v < n;
      assert UserPage(m, o, v) ==> v < n;
    }
  }

  /** After uvmcopy parent and child have separate data pages, and by CopyIsSame the same memory. */
  lemma CopyIsSeparate(m: Tables, o: Nodes, t: Nodes, f: Data, r: Tables, u: Nodes, g: Data, n: nat)
    requires Holds(m, o, f.Keys, 0, n) && EndsAt(m, o, n) && EndsAt(m, t, n) && UserMem(m, o, f)
    requires SameLeaves(m, o, r, o) && Filled(m, t, f, r, u, g, 0, Image(m, o, f, n))
    requires forall pa :: pa in g ==> |g[pa]| == PGSIZE && pa > 0
    ensures Separate(r, o, u, g)
  {
    assert UserMemParts(true, m, o, f) && FilledParts(true, m, t, f, r, u, g, 0, Image(m, o, f, n));
    forall v: nat
      ensures Leaf(r, o, v) == Leaf(m, o, v)
      ensures UserPage(r, u, v) <==> UserPage(m, o, v)
      ensures UserPage(r, u, v) ==>
        && v < n && PTE2PA(Leaf(r, u, v)) in g.Keys - f.Keys
        && PTE2PA(Leaf(m, o, v)) in f && g[PTE2PA(Leaf(r, u, v))] == f[PTE2PA(Leaf(m, o, v))]
    {
      CopiedPage(m, o, t, f, r, u, g, n, v);
    }
    assert forall key: bool :: UserMemParts(key, r, o, g);
    assert forall key: bool :: UserMemParts(key, r, u, g);
  }

  lemma CopyIsSame(m: Tables, o: Nodes, t: Nodes, f: Data, r: Tables, u: Nodes, g: Data, n: nat, va: nat)
    requires Holds(m, o, f.Keys, 0, n) && EndsAt(m, o, n) && EndsAt(m, t, n)
    requires SameLeaves(m, o, r, o) && Filled(m, t, f, r, u, g, 0, Image(m, o, f, n))
    ensures ByteAt(r, o, g, va) == ByteAt(m, o, f, va) == ByteAt(r, u, g, va)
  {
    var v := va / PGSIZE;
    assert FilledParts(true, m, t, f, r, u, g, 0, Image(m, o, f, n));
    CopiedPage(m, o, t, f, r, u, g, n, v);
    assert Leaf(r, o, v) == Leaf(m, o, v);
    assert UserPage(m, o, v) <==> UserPage(r, o, v);
  }

  lemma SeparateBack(m: Tables, o: Nodes, t: Nodes, f: Data)
    requires Separate(m, o, t, f)
    ensures Separate(m, t, o, f)
  {
  }

  // ----- stores into two address spaces -----

  /** A copyout into the child or into the parent. */
  datatype Store = Store(child: bool, va: nat, bytes: seq<Byte>)

  /** The number of bytes, of n from va on, before the first address that is not writable. */
  ghost function Fits(m: Tables, t: Nodes, va: nat, n: nat): (k: nat)
    ensures k <= n
    decreases n
  {
    if n == 0 || !Writable(m, t, va) then 0 else 1 + Fits(m, t, va + 1, n - 1)
  }

  lemma {:induction false} FitsIs(m: Tables, t: Nodes, va: nat, n: nat, done: nat)
    requires done <= n && AllWritable(m, t, va, va + done) && (done < n ==> !Writable(m, t, va + done))
    ensures Fits(m, t, va, n) == done
    decreases done
  {
    if done > 0 {
      assert Writable(m, t, va);
      forall x: nat | va + 1 <= x < va + done
        ensures Writable(m, t, x)
      {
      }
      FitsIs(m, t, va + 1, n - 1, done - 1);
    }
  }

  /** The byte at x of an address space, `first` at the start, after its own ones among the stores. */
  ghost function ReadAfter(m: Tables, t: Nodes, child: bool, stores: seq<Store>, first: int, x: nat): int {
    if stores == [] then first else
      var last := stores[|stores| - 1];
      if last.child == child && last.va <= x < last.va + Fits(m, t, last.va, |last.bytes|) then last.bytes[x - last.va]
      else ReadAfter(m, t, child, stores[..|stores| - 1], first, x)
  }

  /** t reads as o did in (m0, f0), but for its own ones among the stores. */
  ghost predicate Follows(m: Tables, t: Nodes, f: Data, child: bool, stores: seq<Store>, m0: Tables, o: Nodes, f0: Data) {
    forall x: nat :: FollowsAt(m, t, f, child, stores, m0, o, f0, x)
  }

  ghost predicate FollowsAt(m: Tables, t: Nodes, f: Data, child: bool, stores: seq<Store>, m0: Tables, o: Nodes, f0: Data,
                            x: nat) {
    ByteAt(m, t, f, x) == ReadAfter(m, t, child, stores, ByteAt(m0, o, f0, x), x)
  }

  lemma ReadLast(m: Tables, t: Nodes, child: bool, stores: seq<Store>, last: Store, first: int, x: nat)
    ensures
      ReadAfter(m, t, child, stores + [last], first, x) ==
      if last.child == child && last.va <= x < last.va + Fits(m, t, last.va, |last.bytes|) then last.bytes[x - last.va]
      else ReadAfter(m, t, child, stores, first, x)
  {
    assert (stores + [last])[..|stores|] == stores;
  }

  lemma FollowsOwn(m: Tables, t: Nodes, f: Data, g: Data, stores: seq<Store>, last: Store, done: nat,
                   m0: Tables, o: Nodes, f0: Data)
    requires Follows(m, t, f, last.child, stores, m0, o, f0)
    requires Stored(m, t, f, g, last.va, last.bytes, done) && (done < |last.bytes| ==> !Writable(m, t, last.va + done))
    ensures Follows(m, t, g, last.child, stores + [last], m0, o, f0)
  {
    assert StoredParts(true, m, t, f, g, last.va, last.bytes, done);
    FitsIs(m, t, last.va, |last.bytes|, done);
    forall x: nat
      ensures FollowsAt(m, t, g, last.child, stores + [last], m0, o, f0, x)
    {
      assert FollowsAt(m, t, f, last.child, stores, m0, o, f0, x);
      assert WrittenAt(m, t, f, g, last.va, last.bytes[..done], x);
      ReadLast(m, t, last.child, stores, last, ByteAt(m0, o, f0, x), x);
    }
  }

  lemma FollowsOther(m: Tables, t: Nodes, f: Data, g: Data, child: bool, stores: seq<Store>, last: Store,
                     m0: Tables, o: Nodes, f0: Data)
    requires Follows(m, t, f, child, stores, m0, o, f0) && child != last.child
    requires forall x: nat :: ByteAt(m, t, g, x) == ByteAt(m, t, f, x)
    ensures Follows(m, t, g, child, stores + [last], m0, o, f0)
  {
    forall x: nat
      ensures FollowsAt(m, t, g, child, stores + [last], m0, o, f0, x)
    {
      assert FollowsAt(m, t, f, child, stores, m0, o, f0, x);
      ReadLast(m, t, child, stores, last, ByteAt(m0, o, f0, x), x);
    }
  }
}
