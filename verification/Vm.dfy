/**
 Physical pages and user address spaces: kernel/kalloc.c and the walk, mappages and uvm* functions of
 kernel/vm.c, over the page-table pages, the data pages and the free list.
 */
module Vm {
  import opened Bytes
  import opened RiscV
  import opened PageTree
  import opened UserPages
  import opened PageFree
  import opened PageNeed
  import opened UserBytes

  function Fill(b: Byte): (p: seq<Byte>)
    ensures |p| == PGSIZE
  {
    seq(PGSIZE, i => b)
  }

  /** pa is a whole page of the range. */
  predicate InRange(paStart: nat, paEnd: nat, pa: int) {
    pa % PGSIZE == 0 && paStart <= pa && pa + PGSIZE <= paEnd
  }

  class Memory {
    ghost const ram: set<nat>            // the pages between end and PHYSTOP
    var free: seq<nat>                   // kmem.freelist
    var tables: Tables                   // pages in use as page tables
    var frames: map<nat, seq<Byte>>      // pages in use for data

    /** Every page of RAM is on the free list, a page table or a data page, and only one of them. */
    ghost predicate Valid()
      reads this
    {
      forall key: bool :: ValidParts(key)
    }

    /** The key keeps Valid from unfolding except where a proof names its parts. */
    ghost predicate ValidParts(key: bool)
      reads this
    {
      && (forall pa :: pa in ram <==> pa in free || pa in tables || pa in frames)
      && (forall pa :: pa in free ==> pa !in tables && pa !in frames)
      && (forall pa :: pa in tables ==> pa !in frames)
      && (forall i, j :: 0 <= i < j < |free| ==> free[i] != free[j])
      && (forall pa :: pa in ram ==> pa % PGSIZE == 0 && pa > 0)
      && (forall pa :: pa in frames ==> |frames[pa]| == PGSIZE)
    }

    /** kinit and freerange: every whole page from paStart up to paEnd goes on the free list. */
    constructor (paStart: nat, paEnd: nat)
      requires paStart > 0
      ensures Valid() && tables == map[] && frames == map[]
      ensures forall pa :: pa in free <==> InRange(paStart, paEnd, pa)
    {
      ram := set pa | 0 <= pa < paEnd && InRange(paStart, paEnd, pa);
      free, tables, frames := [], map[], map[];
      new;
      var p: nat := PGROUNDUP(paStart);
      while p + PGSIZE <= paEnd
        invariant p % PGSIZE == 0 && paStart <= p && tables == map[] && frames == map[]
        invariant forall pa :: pa in free <==> InRange(paStart, paEnd, pa) && pa < p
        invariant forall i, j :: 0 <= i < j < |free| ==> free[i] != free[j]
      {
        assert forall pa :: InRange(paStart, paEnd, pa) && p <= pa < p + PGSIZE ==> pa == p;
        assert p !in free;
        forall j | 0 <= j < |free|
          ensures free[j] != p
        {
          assert free[j] in free;
        }
        free := [p] + free;
        p := p + PGSIZE;
      }
      assert forall pa :: InRange(paStart, paEnd, pa) ==> pa < p;
      assert Valid();
    }

    method Kalloc() returns (pa: nat)
      requires Valid()
      modifies `free, `frames
      ensures Valid()
      ensures pa == 0 <==> old(free) == []
      ensures pa == 0 ==> free == old(free) && frames == old(frames)
      ensures pa != 0 ==> old(free) == [pa] + free && frames == old(frames)[pa := Fill(5)]
    {
      assert ValidParts(true);
      if free == [] {
        return 0;
      }
      pa := free[0];
      assert pa in free;
      free := free[1..];
      frames := frames[pa := Fill(5)];
      assert Valid();
    }

    method Kfree(pa: nat)
      requires Valid() && (pa in tables || pa in frames)
      modifies this
      ensures Valid()
      ensures free == [pa] + old(free)
      ensures tables == old(tables) - {pa} && frames == old(frames) - {pa}
      ensures pa in old(frames) ==> tables == old(tables)
      ensures pa in old(tables) ==> frames == old(frames)
    {
      assert ValidParts(true);
      free := [pa] + free;
      tables := tables - {pa};
      frames := frames - {pa};
      assert Valid();
      assert pa in old(frames) ==> tables == old(tables);
      assert pa in old(tables) ==> frames == old(frames);
    }

    /** kalloc and memset(pa, 0, PGSIZE) for a page-table page. */
    method NewTable() returns (pa: nat)
      requires Valid()
      modifies this
      ensures Valid() && frames == old(frames)
      ensures pa == 0 <==> old(free) == []
      ensures pa == 0 ==> free == old(free) && tables == old(tables)
      ensures pa != 0 ==> old(free) == [pa] + free && tables == old(tables)[pa := Zeros()]
      ensures pa != 0 ==> pa !in old(tables) && pa % PGSIZE == 0
    {
      assert ValidParts(true);
      pa := Kalloc();
      if pa != 0 {
        assert pa in old(free) && ValidParts(true);
        frames := frames - {pa};
        tables := tables[pa := Zeros()];
        assert frames == old(frames);
        assert Valid();
      }
    }

    /** The allocating branch of walk: a cleared table, hung into the empty entry of `level`. */
    method Extend(level: nat, table: nat, va: nat, ghost t: Nodes) returns (next: nat, ghost u: Nodes)
      requires Valid() && Tree(tables, t) && va < MAXVA && 1 <= level <= 2
      requires KeyAt(level + 1, va / PGSIZE) in t && table == t[KeyAt(level + 1, va / PGSIZE)]
      requires KeyAt(level, va / PGSIZE) !in t
      modifies this
      ensures Valid() && frames == old(frames) && |free| <= |old(free)|
      ensures next == 0 <==> old(free) == []
      ensures next == 0 ==> u == t && tables == old(tables) && free == old(free)
      ensures next != 0 ==> |free| == |old(free)| - 1
      ensures next != 0 ==> u == t[KeyAt(level, va / PGSIZE) := next]
      ensures Kept(old(tables), t, tables, u) && SameLeaves(old(tables), t, tables, u)
    {
      assert TreeParts(true, tables, t);
      ghost var m0 := tables;
      u := t;
      next := NewTable();
      if next != 0 {
        assert ValidParts(true);
        IndexIsPX(va, level);
        HangAt(m0, t, level, va / PGSIZE, next);
        tables := tables[table := SetEntry(tables[table], PX(level, va), MakePte(next, 0))];
        assert tables == Hang(m0, table, PX(level, va), next);
        u := t[KeyAt(level, va / PGSIZE) := next];
        assert Valid();
      }
    }

    /** One round of the loop of walk: from the table at level + 1 to the one below it. */
    method Descend(level: nat, table: nat, va: nat, alloc: bool, ghost t: Nodes)
      returns (ok: bool, next: nat, ghost u: Nodes)
      requires Valid() && Tree(tables, t) && va < MAXVA && 1 <= level <= 2
      requires KeyAt(level + 1, va / PGSIZE) in t && table == t[KeyAt(level + 1, va / PGSIZE)]
      modifies this
      ensures Valid() && frames == old(frames) && |free| <= |old(free)|
      ensures Kept(old(tables), t, tables, u) && SameLeaves(old(tables), t, tables, u)
      ensures ok ==> KeyAt(level, va / PGSIZE) in u && next == u[KeyAt(level, va / PGSIZE)]
      ensures !ok ==> if alloc then free == [] else KeyAt(level, va / PGSIZE) !in t
      ensures alloc ==> (ok <==> |old(free)| >= Lack(t, KeyAt(level, va / PGSIZE)))
      ensures alloc && ok ==> u.Keys == t.Keys + {KeyAt(level, va / PGSIZE)}
      ensures alloc && ok ==> |free| == |old(free)| - Lack(t, KeyAt(level, va / PGSIZE))
      ensures !alloc || !ok ==> u == t && tables == old(tables) && free == old(free)
    {
      assert TreeParts(true, tables, t);
      IndexIsPX(va, level);
      EntryPoints(tables, t, level, va / PGSIZE);
      var pte := tables[table][PX(level, va)];
      if IsV(pte) {
        return true, PTE2PA(pte), t;
      }
      if !alloc {
        return false, 0, t;
      }
      next, u := Extend(level, table, va, t);
      ok := next != 0;
    }

    /** The table that holds the PTE of va, or ok == false; the PTE is its entry PX(0, va). */
    method Walk(root: nat, va: nat, alloc: bool, ghost t: Nodes) returns (ok: bool, table: nat, ghost u: Nodes)
      requires Valid() && Tree(tables, t) && root == t[Root] && va < MAXVA
      modifies this
      ensures Valid() && frames == old(frames) && |free| <= |old(free)|
      ensures Kept(old(tables), t, tables, u) && SameLeaves(old(tables), t, tables, u)
      ensures ok ==> Low(va / PGSIZE / 512) in u && table == u[Low(va / PGSIZE / 512)]
      ensures !ok ==> if alloc then free == [] else Low(va / PGSIZE / 512) !in t
      ensures alloc && ok ==> Spent(t, u, va / PGSIZE, 1, 0, |old(free)|, |free|)
      ensures alloc && !ok ==> Short(t, va / PGSIZE, 1, 0, |old(free)|)
      ensures !alloc ==> u == t && tables == old(tables) && free == old(free)
    {
      assert TreeParts(true, tables, t);
      ok, table, u := true, root, t;
      for level := 3 downto 1
        invariant Valid() && frames == old(frames) && |free| <= |old(free)|
        invariant Kept(old(tables), t, tables, u) && SameLeaves(old(tables), t, tables, u)
        invariant KeyAt(level, va / PGSIZE) in u && table == u[KeyAt(level, va / PGSIZE)]
        invariant alloc ==> Reached(t, u, va / PGSIZE, level, |old(free)|, |free|)
        invariant !alloc ==> u == t && tables == old(tables) && free == old(free)
      {
        ghost var m, w, k := tables, u, |free|;
        ok, table, u := Descend(level, table, va, alloc, u);
        KeptMore(old(tables), t, m, w, tables, u);
        if alloc {
          ReachedNext(t, w, u, va / PGSIZE, level, |old(free)|, k, |free|, ok);
        }
        if !ok {
          if alloc {
            WalkShort(t, va / PGSIZE, |old(free)|);
          }
          return;
        }
      }
      if alloc {
        WalkSpent(t, u, va / PGSIZE, |old(free)|, |free|);
      }
    }

    /** mappages for one page: the new PTE, unless walk finds no memory. */
    method MapOne(root: nat, va: nat, pa: nat, perm: nat, ghost t: Nodes, ghost v: nat)
      returns (ok: bool, ghost u: Nodes)
      requires v == va / PGSIZE
      requires Valid() && Tree(tables, t) && root == t[Root] && va < MAXVA && pa % PGSIZE == 0 && perm < 1024
      requires !IsV(Leaf(tables, t, va / PGSIZE))
      modifies this
      ensures Valid() && frames == old(frames) && |free| <= |old(free)| && Kept(old(tables), t, tables, u)
      ensures !ok ==> free == []
      ensures ok ==> Spent(t, u, v, 1, 0, |old(free)|, |free|)
      ensures !ok ==> Short(t, v, 1, 0, |old(free)|)
      ensures forall v: nat :: Leaf(tables, u, v) ==
                if ok && v == va / PGSIZE then MakePte(pa, perm) else old(Leaf(tables, t, v))
    {
      var table;
      ok, table, u := Walk(root, va, true, t);
      if ok {
        assert ValidParts(true) && TreeParts(true, tables, u);
        IndexIsPX(va, 0);
        ghost var m := tables;
        StoreOne(tables, u, va / PGSIZE, MakePte(pa, perm));
        StoreKept(tables, u, va / PGSIZE, MakePte(pa, perm));
        tables := tables[table := SetEntry(tables[table], PX(0, va), MakePte(pa, perm))];
        assert Valid();
        KeptMore(old(tables), t, m, u, tables, u);
      }
    }

    /** Maps the whole range and returns 0, or maps its first `done` pages and returns -1. */
    method Mappages(root: nat, va: nat, size: nat, pa: nat, perm: nat, ghost t: Nodes)
      returns (r: int, ghost u: Nodes, ghost done: nat)
      requires Valid() && Tree(tables, t) && root == t[Root]
      requires va % PGSIZE == 0 && size % PGSIZE == 0 && size > 0 && va + size <= MAXVA
      requires pa % PGSIZE == 0 && perm < 1024
      requires forall v: nat :: va / PGSIZE <= v < va / PGSIZE + size / PGSIZE ==> !IsV(Leaf(tables, t, v))
      modifies this
      ensures Valid() && frames == old(frames) && |free| <= |old(free)| && Kept(old(tables), t, tables, u)
      ensures if r == 0 then done == size / PGSIZE else r == -1 && done < size / PGSIZE && free == []
      ensures if r == 0 then Spent(t, u, va / PGSIZE, size / PGSIZE, 0, |old(free)|, |free|)
              else Short(t, va / PGSIZE, size / PGSIZE, 0, |old(free)|)
      ensures Mapped(old(tables), t, tables, u, va / PGSIZE, done, pa, perm)
    {
      ghost var lo := va / PGSIZE;
      ghost var n := size / PGSIZE;
      ghost var m0 := tables;
      var a, p := va, pa;
      var last := va + size - PGSIZE;
      u, done := t, 0;
      SpentNone(t, lo, 0, |free|);
      while true
        invariant done < n && a == PageAfter(va, done) && p == PageAfter(pa, done)
        invariant Valid() && frames == old(frames) && |free| <= |old(free)| && Kept(m0, t, tables, u)
        invariant Spent(t, u, lo, done, 0, |old(free)|, |free|)
        invariant Mapped(m0, t, tables, u, lo, done, pa, perm)
        decreases n - done
      {
        var ok;
        ok, u := MapNext(root, a, p, perm, m0, t, u, lo, done, n, |old(free)|, pa);
        if !ok {
          return -1, u, done;
        }
        done := done + 1;
        if a == last {
          break;
        }
        a, p := a + PGSIZE, p + PGSIZE;
      }
      r := 0;
    }

    /** One round of the loop of mappages. */
    method MapNext(root: nat, a: nat, p: nat, perm: nat, ghost m0: Tables, ghost t: Nodes, ghost x: Nodes,
                   ghost lo: nat, ghost done: nat, ghost n: nat, ghost b: nat, ghost pa: nat)
      returns (ok: bool, ghost u: Nodes)
      requires Valid() && Tree(tables, x) && root == x[Root] && perm < 1024 && done < n
      requires a < MAXVA && lo + done == a / PGSIZE && pa % PGSIZE == 0 && p == PageAfter(pa, done)
      requires !IsV(Leaf(m0, t, lo + done))
      requires Kept(m0, t, tables, x) && Mapped(m0, t, tables, x, lo, done, pa, perm)
      requires Spent(t, x, lo, done, 0, b, |free|)
      modifies this
      ensures Valid() && frames == old(frames) && |free| <= |old(free)| && Kept(m0, t, tables, u)
      ensures ok ==> Spent(t, u, lo, done + 1, 0, b, |free|)
      ensures !ok ==> free == [] && Short(t, lo, n, 0, b)
      ensures Mapped(m0, t, tables, u, lo, if ok then done + 1 else done, pa, perm)
    {
      ghost var m, k := tables, |free|;
      ok, u := MapOne(root, a, p, perm, x, lo + done);
      KeptMore(m0, t, m, x, tables, u);
      if ok {
        SpentMore(t, x, u, lo, done, 0, b, k, |free|);
        MappedMore(m0, t, m, x, tables, u, lo, done, pa, perm);
      } else {
        SpentOut(t, x, lo, done, 0, b, k, n);
      }
    }

    /** Clears the PTEs of n pages, all of them mapped leaves, and returns their frames if asked to. */
    method Uvmunmap(root: nat, va: nat, npages: nat, doFree: bool, ghost t: Nodes)
      requires Valid() && Tree(tables, t) && root == t[Root]
      requires va % PGSIZE == 0 && va + npages * PGSIZE <= MAXVA
      requires forall v: nat :: va / PGSIZE <= v < va / PGSIZE + npages ==>
                 IsV(Leaf(tables, t, v)) && PTE_FLAGS(Leaf(tables, t, v)) != PTE_V
      requires doFree ==> Holds(tables, t, frames.Keys, va / PGSIZE, va / PGSIZE + npages)
      modifies this
      ensures Valid() && Kept(old(tables), t, tables, t) && tables.Keys == old(tables).Keys
      ensures Taken(old(tables), t, old(frames), tables, frames, va / PGSIZE, npages, doFree)
    {
      ghost var lo := va / PGSIZE;
      ghost var m0, f0 := tables, frames;
      var a := va;
      ghost var i := 0;
      TakenNone(m0, t, f0, lo, doFree);
      KeptSelf(m0, t);
      while a < va + npages * PGSIZE
        invariant a == PageAfter(va, i) && i <= npages && (a < va + npages * PGSIZE <==> i < npages)
        invariant Valid() && Kept(m0, t, tables, t) && tables.Keys == m0.Keys
        invariant Taken(m0, t, f0, tables, frames, lo, i, doFree)
      {
        StillMapped(m0, t, f0, tables, frames, lo, npages, i, doFree);
        UnmapNext(root, a, doFree, t, m0, f0, lo, i);
        a := a + PGSIZE;
        i := i + 1;
      }
    }

    method UnmapNext(root: nat, a: nat, doFree: bool, ghost t: Nodes, ghost m0: Tables, ghost f0: Data,
                     ghost lo: nat, ghost i: nat)
      requires Valid() && Tree(tables, t) && root == t[Root] && a % PGSIZE == 0 && a < MAXVA && a / PGSIZE == lo + i
      requires IsV(Leaf(tables, t, a / PGSIZE)) && PTE_FLAGS(Leaf(tables, t, a / PGSIZE)) != PTE_V
      requires doFree ==> PTE2PA(Leaf(tables, t, a / PGSIZE)) in frames
      requires Kept(m0, t, tables, t) && Taken(m0, t, f0, tables, frames, lo, i, doFree)
      modifies this
      ensures Valid() && Kept(m0, t, tables, t) && tables.Keys == old(tables).Keys
      ensures Taken(m0, t, f0, tables, frames, lo, i + 1, doFree)
    {
      ghost var m, f := tables, frames;
      UnmapOne(root, a, doFree, t);
      KeptMore(m0, t, m, t, tables, t);
      TakenMore(m0, t, f0, m, f, tables, frames, lo, i, doFree);
    }

    method UnmapOne(root: nat, a: nat, doFree: bool, ghost t: Nodes)
      requires Valid() && Tree(tables, t) && root == t[Root] && a % PGSIZE == 0 && a < MAXVA
      requires IsV(Leaf(tables, t, a / PGSIZE)) && PTE_FLAGS(Leaf(tables, t, a / PGSIZE)) != PTE_V
      requires doFree ==> PTE2PA(Leaf(tables, t, a / PGSIZE)) in frames
      modifies this
      ensures Valid() && Kept(old(tables), t, tables, t) && tables.Keys == old(tables).Keys
      ensures forall v: nat :: Leaf(tables, t, v) == if v == a / PGSIZE then 0 else old(Leaf(tables, t, v))
      ensures doFree ==> frames == old(frames) - {PTE2PA(old(Leaf(tables, t, a / PGSIZE)))}
      ensures !doFree ==> frames == old(frames)
    {
      var ok, table, _ := Walk(root, a, false, t);
      IndexIsPX(a, 0);
      assert ValidParts(true) && TreeParts(true, tables, t);
      var pte := tables[table][PX(0, a)];
      if doFree {
        Kfree(PTE2PA(pte));
      }
      StoreOne(tables, t, a / PGSIZE, 0);
      StoreKept(tables, t, a / PGSIZE, 0);
      tables := tables[table := SetEntry(tables[table], PX(0, a), 0)];
      assert Valid();
    }

    /** kalloc, then memset or memmove of a whole page. */
    method NewFrame(bytes: seq<Byte>) returns (pa: nat)
      requires Valid() && |bytes| == PGSIZE
      modifies `free, `frames
      ensures Valid()
      ensures pa == 0 <==> old(free) == []
      ensures pa != 0 ==> |free| == |old(free)| - 1
      ensures pa == 0 ==> frames == old(frames) && free == old(free)
      ensures pa != 0 ==> pa !in old(frames) && pa % PGSIZE == 0 && frames == old(frames)[pa := bytes]
    {
      assert ValidParts(true);
      pa := Kalloc();
      if pa != 0 {
        assert pa in old(free) && ValidParts(true);
        frames := frames[pa := bytes];
        assert Valid();
      }
    }

    /** mappages with size PGSIZE. */
    method MapPage(root: nat, va: nat, pa: nat, perm: nat, ghost t: Nodes, ghost v: nat)
      returns (ok: bool, ghost u: Nodes)
      requires v == va / PGSIZE
      requires Valid() && Tree(tables, t) && root == t[Root] && va < MAXVA && va % PGSIZE == 0
      requires pa % PGSIZE == 0 && perm < 1024 && !IsV(Leaf(tables, t, va / PGSIZE))
      modifies this
      ensures Valid() && Kept(old(tables), t, tables, u) && frames == old(frames) && |free| <= |old(free)|
      ensures ok ==> Spent(t, u, v, 1, 0, |old(free)|, |free|)
      ensures !ok ==> Short(t, v, 1, 0, |old(free)|)
      ensures Mapped(old(tables), t, tables, u, va / PGSIZE, if ok then 1 else 0, pa, perm)
    {
      var r;
      ghost var done;
      r, u, done := Mappages(root, va, PGSIZE, pa, perm, t);
      ok := r == 0;
    }

    /** kalloc, fill and mappages for one page; on failure the page goes back. */
    method AddPage(root: nat, va: nat, perm: nat, bytes: seq<Byte>, ghost t: Nodes, ghost v: nat)
      returns (ok: bool, ghost pa: nat, ghost u: Nodes)
      requires v == va / PGSIZE
      requires Valid() && Tree(tables, t) && root == t[Root] && va % PGSIZE == 0 && perm < 1024
      requires free != [] ==> va < MAXVA && !IsV(Leaf(tables, t, va / PGSIZE))
      requires |bytes| == PGSIZE
      modifies this
      ensures Valid() && Kept(old(tables), t, tables, u)
      ensures ok ==> Spent(t, u, v, 1, 1, |old(free)|, |free|)
      ensures !ok ==> Short(t, v, 1, 1, |old(free)|)
      ensures ok ==> pa !in old(frames) && pa % PGSIZE == 0 && frames == old(frames)[pa := bytes]
      ensures ok ==> Mapped(old(tables), t, tables, u, va / PGSIZE, 1, pa, perm)
      ensures !ok ==> frames == old(frames) && SameLeaves(old(tables), t, tables, u)
    {
      var mem := NewFrame(bytes);
      if mem == 0 {
        FrameShort(t, v, 0);
        return false, 0, t;
      }
      ok, u := MapPage(root, va, mem, perm, t, v);
      pa := mem;
      if ok {
        FrameSpent(t, u, v, |old(free)|, |free|);
      } else {
        FrameShort(t, v, |old(free)|);
        PutBack(old(frames), mem, bytes);
        Kfree(mem);
      }
    }

    /** AddPage as one step of filling the pages from lo on. */
    method GrowPage(root: nat, va: nat, perm: nat, bytes: seq<Byte>,
                    ghost m0: Tables, ghost t: Nodes, ghost f0: Data, ghost x: Nodes, ghost lo: nat, ghost w: seq<Want>,
                    ghost v: nat)
      returns (ok: bool, ghost u: Nodes)
      requires v == lo + |w|
      requires Valid() && Tree(tables, x) && root == x[Root] && va % PGSIZE == 0
      requires perm < 1024 && perm / 2 > 0 && |bytes| == PGSIZE && va / PGSIZE == lo + |w|
      requires free != [] ==> va < MAXVA && !IsV(Leaf(m0, t, lo + |w|))
      requires Kept(m0, t, tables, x) && Filled(m0, t, f0, tables, x, frames, lo, w)
      modifies this
      ensures Valid() && Kept(m0, t, tables, u) && Kept(old(tables), x, tables, u)
      ensures ok ==> Spent(x, u, v, 1, 1, |old(free)|, |free|)
      ensures !ok ==> Short(x, v, 1, 1, |old(free)|)
      ensures Filled(m0, t, f0, tables, u, frames, lo, if ok then w + [Want(perm, bytes)] else w)
    {
      ghost var m, f := tables, frames;
      ghost var pa;
      FilledOutside(m0, t, f0, m, x, f, lo, w, lo + |w|);
      ok, pa, u := AddPage(root, va, perm, bytes, x, v);
      PageAdded(m0, t, f0, m, x, f, tables, u, frames, lo, w, pa, Want(perm, bytes), ok);
    }

    method Uvmdealloc(root: nat, oldsz: nat, newsz: nat, ghost t: Nodes) returns (r: nat)
      requires Valid() && Tree(tables, t) && root == t[Root] && oldsz <= MAXVA
      requires newsz < oldsz ==>
                 Holds(tables, t, frames.Keys, PGROUNDUP(newsz) / PGSIZE, PGROUNDUP(oldsz) / PGSIZE)
      modifies this
      ensures Valid() && Kept(old(tables), t, tables, t) && tables.Keys == old(tables).Keys
      ensures newsz >= oldsz ==> r == oldsz && tables == old(tables) && frames == old(frames)
      ensures newsz < oldsz ==>
        var lo, hi := PGROUNDUP(newsz) / PGSIZE, PGROUNDUP(oldsz) / PGSIZE;
        && r == newsz && lo <= hi
        && Unmapped(old(tables), t, tables, lo, hi - lo)
        && frames == old(frames) - Frames(old(tables), t, lo, hi)
    {
      if newsz >= oldsz {
        return oldsz;
      }
      if PGROUNDUP(newsz) < PGROUNDUP(oldsz) {
        var npages := (PGROUNDUP(oldsz) - PGROUNDUP(newsz)) / PGSIZE;
        Uvmunmap(root, PGROUNDUP(newsz), npages, true, t);
        assert TakenParts(true, old(tables), t, old(frames), tables, frames, PGROUNDUP(newsz) / PGSIZE, npages, true);
      } else {
        assert Frames(tables, t, PGROUNDUP(newsz) / PGSIZE, PGROUNDUP(oldsz) / PGSIZE) == {};
      }
      return newsz;
    }

    /** One round of the loop of uvmalloc, with its failure exits. */
    method GrowZeroed(root: nat, a: nat, newsz: nat, xperm: nat, start: nat, ghost m0: Tables, ghost t: Nodes,
                      ghost f0: Data, ghost x: Nodes, ghost lo: nat, ghost hi: nat, ghost i: nat, ghost n: nat)
      returns (ok: bool, ghost u: Nodes)
      requires Valid() && Tree(tables, x) && root == x[Root] && xperm <= PTE_W + PTE_X
      requires PageLoop(start, newsz, lo, hi, a, i) && a < newsz
      requires Room(m0, t, start, newsz, lo, hi, n) && Spent(t, x, lo, i, 1, n, |free|)
      requires Kept(m0, t, tables, x) && Filled(m0, t, f0, tables, x, frames, lo, Same(i, Zeroed(xperm)))
      modifies this
      ensures Valid() && Kept(m0, t, tables, u)
      ensures ok ==> Spent(t, u, lo, i + 1, 1, n, |free|)
      ensures !ok ==> lo < hi && Short(t, lo, hi - lo, 1, n)
      ensures ok ==> Filled(m0, t, f0, tables, u, frames, lo, Same(i + 1, Zeroed(xperm)))
      ensures !ok ==> SamePages(m0, t, tables, u) && frames == f0
    {
      assert PageLoopParts(true, start, newsz, lo, hi, a, i) && RoomParts(true, m0, t, start, newsz, lo, hi, n);
      SpentEnough(t, x, lo, i, 1, n, |free|);
      PageLoopRoom(start, newsz, lo, hi, a, i, n);
      ghost var k := |free|;
      SameMore(i, Zeroed(xperm));
      ghost var w := Same(i, Zeroed(xperm));
      assert |w| == i;
      ok, u := GrowPage(root, a, PTE_R + PTE_U + xperm, Fill(0), m0, t, f0, x, lo, w, lo + i);
      if ok {
        SpentMore(t, x, u, lo, i, 1, n, k, |free|);
      } else {
        SpentOut(t, x, lo, i, 1, n, k, hi - lo);
        Rollback(root, a, start, u, m0, t, f0, w);
      }
    }

    /**
     Grows to newsz with zeroed frames of its own, or restores mapping and data pages and returns 0.  A size above
     MAXVA is fine if the free pages run out below.
     */
    method Uvmalloc(root: nat, oldsz: nat, newsz: nat, xperm: nat, ghost t: Nodes) returns (r: nat, ghost u: Nodes)
      requires Valid() && Tree(tables, t) && root == t[Root]
      requires newsz <= MAXVA || PageAfter(PGROUNDUP(oldsz), |free|) <= MAXVA
      requires xperm in {0, PTE_W, PTE_X, PTE_W + PTE_X}
      requires
        var lo, hi := PGROUNDUP(oldsz) / PGSIZE, PGROUNDUP(newsz) / PGSIZE;
        forall v: nat :: lo <= v < hi && v < lo + |free| ==> !IsV(Leaf(tables, t, v))
      modifies this
      ensures Valid() && Kept(old(tables), t, tables, u)
      ensures newsz < oldsz ==> r == oldsz && tables == old(tables) && frames == old(frames) && u == t
      ensures newsz >= oldsz ==>
        var lo, hi := PGROUNDUP(oldsz) / PGSIZE, PGROUNDUP(newsz) / PGSIZE;
        lo <= hi &&
        if r == newsz then Enough(t, lo, hi - lo, 1, |old(free)|) else r == 0 && Short(t, lo, hi - lo, 1, |old(free)|)
      ensures newsz >= oldsz && newsz > MAXVA ==> r == 0
      ensures newsz >= oldsz && r != newsz ==>
                r == 0 && SamePages(old(tables), t, tables, u) && frames == old(frames)
      ensures newsz >= oldsz && r == newsz ==>
        var lo, hi := PGROUNDUP(oldsz) / PGSIZE, PGROUNDUP(newsz) / PGSIZE;
        lo <= hi && Filled(old(tables), t, old(frames), tables, u, frames, lo, Same(hi - lo, Zeroed(xperm)))
    {
      if newsz < oldsz {
        return oldsz, t;
      }
      RoundUpMonotone(oldsz, newsz);
      ghost var lo, hi := PGROUNDUP(oldsz) / PGSIZE, PGROUNDUP(newsz) / PGSIZE;
      PageLoopBegin(PGROUNDUP(oldsz), newsz, lo, hi);
      assert RoomParts(true, tables, t, PGROUNDUP(oldsz), newsz, lo, hi, |free|);
      KeptSelf(tables, t);
      r, u := GrowFrom(root, PGROUNDUP(oldsz), newsz, xperm, t, lo, hi);
      if newsz > MAXVA {
        EnoughPages(t, lo, hi - lo, |old(free)|);
        NotBoth(t, lo, hi - lo, 1, |old(free)|);
      }
    }

    /** The loop of uvmalloc. */
    method GrowFrom(root: nat, start: nat, newsz: nat, xperm: nat, ghost t: Nodes, ghost lo: nat, ghost hi: nat)
      returns (r: nat, ghost u: Nodes)
      requires Valid() && Kept(tables, t, tables, t) && Root in t && root == t[Root] && xperm <= PTE_W + PTE_X
      requires lo <= hi && PageLoop(start, newsz, lo, hi, start, 0)
      requires Room(tables, t, start, newsz, lo, hi, |free|)
      modifies this
      ensures Valid() && Kept(old(tables), t, tables, u)
      ensures r != newsz ==> r == 0 && SamePages(old(tables), t, tables, u) && frames == old(frames)
      ensures if r == newsz then Enough(t, lo, hi - lo, 1, |old(free)|) else r == 0 && Short(t, lo, hi - lo, 1, |old(free)|)
      ensures r == newsz ==> Filled(old(tables), t, old(frames), tables, u, frames, lo, Same(hi - lo, Zeroed(xperm)))
    {
      ghost var m0, f0 := tables, frames;
      ghost var i: nat := 0;
      var a: nat := start;
      u := t;
      FilledNone(m0, t, f0, lo, Same(0, Zeroed(xperm)));
      SpentNone(t, lo, 1, |free|);
      PageLoopAt(start, newsz, lo, hi, a, i);
      while a < newsz
        invariant PageLoop(start, newsz, lo, hi, a, i) && (a < newsz <==> lo + i < hi) && (a >= newsz ==> lo + i == hi)
        invariant Valid() && Kept(m0, t, tables, u) && Spent(t, u, lo, i, 1, |old(free)|, |free|)
        invariant Filled(m0, t, f0, tables, u, frames, lo, Same(i, Zeroed(xperm)))
        decreases hi - i
      {
        var ok;
        ok, u := GrowZeroed(root, a, newsz, xperm, start, m0, t, f0, u, lo, hi, i, |old(free)|);
        if !ok {
          return 0, u;
        }
        PageLoopStep(start, newsz, lo, hi, a, i);
        a := a + PGSIZE;
        i := i + 1;
        PageLoopAt(start, newsz, lo, hi, a, i);
      }
      SpentEnough(t, u, lo, i, 1, |old(free)|, |free|);
      return newsz, u;
    }

    ghost function Zeroed(xperm: nat): Want {
      Want(PTE_R + PTE_U + xperm, Fill(0))
    }

    /** uvmdealloc(pagetable, a, oldsz) on the failure paths of uvmalloc. */
    method Rollback(root: nat, a: nat, start: nat, ghost u: Nodes, ghost m0: Tables, ghost t: Nodes, ghost f0: Data,
                    ghost w: seq<Want>)
      requires Valid() && Tree(tables, u) && root == u[Root] && a <= MAXVA && a % PGSIZE == 0 && start % PGSIZE == 0
      requires a == PageAfter(start, |w|) && Kept(m0, t, tables, u)
      requires Filled(m0, t, f0, tables, u, frames, start / PGSIZE, w)
      requires forall v: nat :: start / PGSIZE <= v < a / PGSIZE ==> !IsV(Leaf(m0, t, v))
      modifies this
      ensures Valid() && Kept(m0, t, tables, u)
      ensures SamePages(m0, t, tables, u) && frames == f0
    {
      ghost var m, f := tables, frames;
      BelowRoundUp(a, a);
      BelowRoundUp(start, a);
      FilledHolds(m0, t, f0, tables, u, frames, start / PGSIZE, w);
      if |w| == 0 {
        assert Frames(tables, u, start / PGSIZE, a / PGSIZE) == {};
      }
      var _ := Uvmdealloc(root, a, start, u);
      KeptMore(m0, t, m, u, tables, u);
      FilledUndone(m0, t, f0, m, u, f, tables, frames, start / PGSIZE, w);
    }

    /** Copies the parent's pages into fresh frames, or restores the child and the data pages and returns -1. */
    method Uvmcopy(oroot: nat, nroot: nat, sz: nat, ghost o: Nodes, ghost t: Nodes) returns (r: int, ghost u: Nodes)
      requires Valid() && Tree(tables, o) && Tree(tables, t) && o.Values !! t.Values
      requires oroot == o[Root] && nroot == t[Root] && sz <= MAXVA
      requires Holds(tables, o, frames.Keys, 0, PGROUNDUP(sz) / PGSIZE)
      requires forall v: nat :: v < PGROUNDUP(sz) / PGSIZE ==> !IsV(Leaf(tables, t, v))
      modifies this
      ensures Valid() && Kept(old(tables), t, tables, u)
      ensures Tree(tables, o) && SameLeaves(old(tables), o, tables, o) && o.Values !! u.Values
      ensures if r == 0 then Enough(t, 0, PGROUNDUP(sz) / PGSIZE, 1, |old(free)|)
              else Short(t, 0, PGROUNDUP(sz) / PGSIZE, 1, |old(free)|)
      ensures r == 0 ==>
        Filled(old(tables), t, old(frames), tables, u, frames, 0, Image(old(tables), o, old(frames), PGROUNDUP(sz) / PGSIZE))
      ensures r != 0 ==> r == -1 && SamePages(old(tables), t, tables, u) && frames == old(frames)
    {
      assert ValidParts(true);
      ghost var m0 := tables;
      PageLoopBegin(0, sz, 0, PGROUNDUP(sz) / PGSIZE);
      assert ParentParts(true, tables, o, t, frames, PGROUNDUP(sz) / PGSIZE);
      KeptSelf(tables, t);
      r, u := CopyPages(oroot, nroot, sz, o, t, PGROUNDUP(sz) / PGSIZE);
      OtherTree(m0, t, tables, u, o);
      if r == 0 {
        assert CopiedParts(true, old(tables), o, t, old(frames), tables, u, frames, PGROUNDUP(sz) / PGSIZE);
      }
    }

    /** The loop of uvmcopy. */
    method CopyPages(oroot: nat, nroot: nat, sz: nat, ghost o: Nodes, ghost t: Nodes, ghost hi: nat)
      returns (r: int, ghost u: Nodes)
      requires Valid() && Kept(tables, t, tables, t) && Parent(tables, o, t, frames, hi)
      requires Root in o && Root in t && oroot == o[Root] && nroot == t[Root] && sz <= MAXVA && PageLoop(0, sz, 0, hi, 0, 0)
      modifies this
      ensures Valid() && Kept(old(tables), t, tables, u)
      ensures if r == 0 then Enough(t, 0, hi, 1, |old(free)|) else Short(t, 0, hi, 1, |old(free)|)
      ensures r == 0 ==> Copied(old(tables), o, t, old(frames), tables, u, frames, hi)
      ensures r != 0 ==> r == -1 && SamePages(old(tables), t, tables, u) && frames == old(frames)
    {
      ghost var m0, f0 := tables, frames;
      ghost var n: nat := 0;
      var i: nat := 0;
      u := t;
      CopiedNone(m0, o, t, f0);
      SpentNone(t, 0, 1, |free|);
      PageLoopAt(0, sz, 0, hi, i, n);
      while i < sz
        invariant PageLoop(0, sz, 0, hi, i, n) && (i < sz <==> n < hi) && (i >= sz ==> n == hi)
        invariant Valid() && Kept(m0, t, tables, u) && Spent(t, u, 0, n, 1, |old(free)|, |free|)
        invariant Copied(m0, o, t, f0, tables, u, frames, n)
        decreases hi - n
      {
        var ok;
        ok, u := CopyPage(oroot, nroot, i, sz, o, m0, t, f0, u, hi, n, |old(free)|);
        if !ok {
          return -1, u;
        }
        PageLoopStep(0, sz, 0, hi, i, n);
        n := n + 1;
        i := i + PGSIZE;
        PageLoopAt(0, sz, 0, hi, i, n);
      }
      SpentEnough(t, u, 0, n, 1, |old(free)|, |free|);
      return 0, u;
    }

    /** One round of the loop of uvmcopy, with its err exit. */
    method CopyPage(oroot: nat, nroot: nat, i: nat, sz: nat, ghost o: Nodes, ghost m0: Tables, ghost t: Nodes,
                    ghost f0: Data, ghost x: Nodes, ghost hi: nat, ghost n: nat, ghost b: nat)
      returns (ok: bool, ghost u: Nodes)
      requires Valid() && Parent(m0, o, t, f0, hi) && Root in o && Root in t && oroot == o[Root] && nroot == t[Root]
      requires PageLoop(0, sz, 0, hi, i, n) && i < sz <= MAXVA
      requires Spent(t, x, 0, n, 1, b, |free|)
      requires Kept(m0, t, tables, x) && Copied(m0, o, t, f0, tables, x, frames, n)
      modifies this
      ensures Valid() && Kept(m0, t, tables, u)
      ensures ok ==> Spent(t, u, 0, n + 1, 1, b, |free|)
      ensures !ok ==> Short(t, 0, hi, 1, b)
      ensures ok ==> Copied(m0, o, t, f0, tables, u, frames, n + 1)
      ensures !ok ==> SamePages(m0, t, tables, u) && frames == f0
    {
      assert PageLoopParts(true, 0, sz, 0, hi, i, n) && ParentParts(true, m0, o, t, f0, hi);
      assert CopiedParts(true, m0, o, t, f0, tables, x, frames, n);
      SourcePage(m0, o, t, f0, tables, x, frames, Image(m0, o, f0, n), n);
      var pte := ReadPte(oroot, i, o);
      var bytes := frames[PTE2PA(pte)];
      ghost var k := |free|;
      ok, u := GrowPage(nroot, i, PTE_FLAGS(pte), bytes, m0, t, f0, x, 0, Image(m0, o, f0, n), 0 + n);
      ImageMore(m0, o, f0, n);
      if ok {
        SpentMore(t, x, u, 0, n, 1, b, k, |free|);
      } else {
        SpentOut(t, x, 0, n, 1, b, k, hi);
        Undo(nroot, i, u, m0, t, f0, Image(m0, o, f0, n));
      }
    }

    /** uvmunmap(new, 0, i / PGSIZE, 1) on the err exit of uvmcopy. */
    method Undo(root: nat, i: nat, ghost u: Nodes, ghost m0: Tables, ghost t: Nodes, ghost f0: Data, ghost w: seq<Want>)
      requires Valid() && Tree(tables, u) && root == u[Root] && i == PageAfter(0, |w|) && i <= MAXVA
      requires Kept(m0, t, tables, u) && Filled(m0, t, f0, tables, u, frames, 0, w)
      requires forall v: nat :: v < |w| ==> !IsV(Leaf(m0, t, v))
      modifies this
      ensures Valid() && Kept(m0, t, tables, u)
      ensures SamePages(m0, t, tables, u) && frames == f0
    {
      ghost var m, f := tables, frames;
      FilledHolds(m0, t, f0, tables, u, frames, 0, w);
      Uvmunmap(root, 0, i / PGSIZE, true, u);
      assert TakenParts(true, m, u, f, tables, frames, 0, i / PGSIZE, true);
      KeptMore(m0, t, m, u, tables, u);
      FilledUndone(m0, t, f0, m, u, f, tables, frames, 0, w);
    }

    /** The PTE of va without allocating; 0 where walk returns no slot. */
    method ReadPte(root: nat, va: nat, ghost t: Nodes) returns (pte: nat)
      requires Valid() && Tree(tables, t) && root == t[Root] && va < MAXVA
      modifies this
      ensures tables == old(tables) && frames == old(frames) && free == old(free) && Valid()
      ensures pte == Leaf(tables, t, va / PGSIZE)
    {
      var ok, table, _ := Walk(root, va, false, t);
      if !ok {
        return 0;
      }
      IndexIsPX(va, 0);
      assert TreeParts(true, tables, t);
      pte := tables[table][PX(0, va)];
    }

    /** Gives back the tables below `top`, each of them once. */
    method Freewalk(table: nat, ghost top: Key, ghost t: Nodes)
      requires Valid() && BareBelow(tables, t, top) && top in t && table == t[top]
      modifies this
      ensures Valid() && frames == old(frames)
      ensures tables == old(tables) - Gone(t, top)
      decreases if top.Root? then 2 else if top.Mid? then 1 else 0, 1
    {
      ghost var m0 := tables;
      GoneNone(t, top);
      for i := 0 to 512
        invariant Valid() && frames == old(frames)
        invariant Pruned(m0, tables, t, top, i)
      {
        var pte := tables[table][i];
        GoneStep(t, top, i);
        if IsV(pte) {
          PrunedChild(m0, tables, t, top, i);
          if !IsR(pte) && !IsW(pte) && !IsX(pte) {
            FreeChild(table, i, top, t, m0);
          } else {
            assert false;  // panic("freewalk: leaf")
          }
        }
      }
      GoneAll(t, top);
      Kfree(table);
    }

    /** The branch of freewalk for an entry that points to a lower table. */
    method FreeChild(table: nat, i: nat, ghost top: Key, ghost t: Nodes, ghost m0: Tables)
      requires Valid() && BareBelow(m0, t, top) && top in t && table == t[top] && i < 512
      requires Pruned(m0, tables, t, top, i) && table in tables && IsV(tables[table][i])
      modifies this
      ensures Valid() && frames == old(frames) && Pruned(m0, tables, t, top, i + 1)
      decreases if top.Root? then 2 else if top.Mid? then 1 else 0, 0
    {
      ghost var m := tables;
      var child := PTE2PA(tables[table][i]);
      PrunedChild(m0, tables, t, top, i);
      Freewalk(child, Child(top, i), t);
      assert ValidParts(true);
      tables := tables[table := SetEntry(tables[table], i, 0)];
      PrunedStep(m0, m, tables, t, top, i);
      assert Valid();
    }

    /** Gives back every data page and every table of a user address space. */
    method Uvmfree(root: nat, sz: nat, ghost t: Nodes)
      requires Valid() && Tree(tables, t) && root == t[Root] && sz <= MAXVA
      requires Holds(tables, t, frames.Keys, 0, PGROUNDUP(sz) / PGSIZE)
      requires forall v: nat :: IsV(Leaf(tables, t, v)) ==> v < PGROUNDUP(sz) / PGSIZE
      modifies this
      ensures Valid() && tables == old(tables) - t.Values
      ensures frames == old(frames) - Frames(old(tables), t, 0, PGROUNDUP(sz) / PGSIZE)
    {
      ghost var m0, f0 := tables, frames;
      if sz > 0 {
        Uvmunmap(root, 0, PGROUNDUP(sz) / PGSIZE, true, t);
        assert TakenParts(true, m0, t, f0, tables, frames, 0, PGROUNDUP(sz) / PGSIZE, true);
        assert Extended(true, m0, t, tables, t);
      } else {
        assert Frames(m0, t, 0, 0) == {};
      }
      EmptyIsBare(tables, t);
      Freewalk(root, Root, t);
      assert Gone(t, Root) == t.Values;
    }

    /** One round of the loop of copyout: n bytes into the page of dst, or n == 0 if it is not writable. */
    method CopyoutPage(root: nat, dst: nat, src: seq<Byte>, ghost t: Nodes) returns (n: nat)
      requires Valid() && Tree(tables, t) && root == t[Root] && UserMem(tables, t, frames) && |src| > 0
      modifies this
      ensures Valid() && tables == old(tables) && free == old(free) && frames.Keys == old(frames).Keys
      ensures UserMem(tables, t, frames) && Stored(tables, t, old(frames), frames, dst, src, n)
      ensures n == 0 <==> !Writable(tables, t, dst)
      ensures n == 0 || n == |src| || dst + n == PGROUNDDOWN(dst) + PGSIZE
    {
      var va0 := PGROUNDDOWN(dst);
      PageOf(dst);
      StoredNone(tables, t, frames, dst, src);
      if va0 >= MAXVA {
        return 0;
      }
      var pte := ReadPte(root, va0, t);
      if !IsV(pte) || !IsU(pte) || !IsW(pte) {
        return 0;
      }
      n := PGSIZE - (dst - va0);
      if n > |src| {
        n := |src|;
      }
      StoreChunk(tables, t, frames, dst, src, n);
      assert ValidParts(true);
      frames := frames[PTE2PA(pte) := Overwrite(frames[PTE2PA(pte)], dst - va0, src[..n])];
      assert Valid();
    }

    /** Copies src to user addresses from dstva on; stops at the first page that is not writable. */
    method Copyout(root: nat, dstva: nat, src: seq<Byte>, ghost t: Nodes) returns (r: int, ghost done: nat)
      requires Valid() && Tree(tables, t) && root == t[Root] && UserMem(tables, t, frames)
      modifies this
      ensures Valid() && tables == old(tables) && free == old(free) && frames.Keys == old(frames).Keys
      ensures UserMem(tables, t, frames) && Stored(tables, t, old(frames), frames, dstva, src, done)
      ensures r == 0 ==> done == |src|
      ensures r != 0 ==> r == -1 && done < |src| && !Writable(tables, t, dstva + done)
    {
      ghost var f0 := frames;
      var dst, rest := dstva, src;
      done := 0;
      StoredNone(tables, t, f0, dstva, src);
      while |rest| > 0
        invariant done <= |src| && rest == src[done..] && (rest == [] || dst == dstva + done)
        invariant Valid() && tables == old(tables) && free == old(free) && frames.Keys == f0.Keys
        invariant UserMem(tables, t, frames) && Stored(tables, t, f0, frames, dstva, src, done)
        decreases |rest|
      {
        ghost var f := frames;
        var n := CopyoutPage(root, dst, rest, t);
        StoredStep(tables, t, f0, f, frames, dstva, src, done, dst, rest, n);
        if n == 0 {
          return -1, done;
        }
        rest := rest[n..];
        done := done + n;
        dst := PGROUNDDOWN(dst) + PGSIZE;
      }
      r := 0;
    }

    method CopyinPage(root: nat, srcva: nat, len: nat, ghost t: Nodes) returns (got: seq<Byte>)
      requires Valid() && Tree(tables, t) && root == t[Root] && UserMem(tables, t, frames) && len > 0
      modifies this
      ensures Valid() && tables == old(tables) && free == old(free) && frames == old(frames)
      ensures |got| == if Readable(tables, t, srcva) then Chunk(srcva, len) else 0
      ensures IsRead(tables, t, frames, srcva, got)
    {
      var va0 := PGROUNDDOWN(srcva);
      PageOf(srcva);
      if va0 >= MAXVA {
        return [];
      }
      var pte := ReadPte(root, va0, t);
      if !IsV(pte) || !IsU(pte) {
        return [];
      }
      var n := PGSIZE - (srcva - va0);
      if n > len {
        n := len;
      }
      ReadChunk(tables, t, frames, srcva, n);
      got := frames[PTE2PA(pte)][srcva - va0..srcva - va0 + n];
    }

    method Copyin(root: nat, srcva: nat, len: nat, ghost t: Nodes) returns (r: int, dst: seq<Byte>)
      requires Valid() && Tree(tables, t) && root == t[Root] && UserMem(tables, t, frames)
      modifies this
      ensures Valid() && tables == old(tables) && free == old(free) && frames == old(frames)
      ensures r == 0 ==> |dst| == len
      ensures r != 0 ==> r == -1 && |dst| < len && !Readable(tables, t, srcva + |dst|)
      ensures IsRead(tables, t, frames, srcva, dst)
    {
      var src, rest := srcva, len;
      dst := [];
      while rest > 0
        invariant rest >= 0 && |dst| + rest == len && (rest == 0 || src == srcva + |dst|)
        invariant Valid() && tables == old(tables) && free == old(free) && frames == old(frames)
        invariant IsRead(tables, t, frames, srcva, dst)
      {
        var got := CopyinPage(root, src, rest, t);
        if got == [] {
          return -1, dst;
        }
        IsReadMore(tables, t, frames, srcva, dst, got);
        ChunkEnds(src, rest);
        dst := dst + got;
        rest := rest - |got|;
        src := PGROUNDDOWN(src) + PGSIZE;
      }
      r := 0;
    }

    /** The inner loop of copyinstr. */
    method FindNul(got: seq<Byte>) returns (n: nat)
      ensures n <= |got| && 0 !in got[..n] && (n < |got| ==> got[n] == 0)
    {
      n := 0;
      while n < |got| && got[n] != 0
        invariant n <= |got| && 0 !in got[..n]
      {
        n := n + 1;
      }
    }

    /** Copies a string and its NUL, at most max bytes in all. */
    method Copyinstr(root: nat, srcva: nat, max: nat, ghost t: Nodes) returns (r: int, dst: seq<Byte>)
      requires Valid() && Tree(tables, t) && root == t[Root] && UserMem(tables, t, frames)
      modifies this
      ensures Valid() && tables == old(tables) && free == old(free) && frames == old(frames)
      ensures IsRead(tables, t, frames, srcva, dst) && |dst| <= max
      ensures r == 0 ==> |dst| > 0 && dst[|dst| - 1] == 0 && 0 !in dst[..|dst| - 1]
      ensures r != 0 ==> r == -1 && 0 !in dst && (|dst| == max || !Readable(tables, t, srcva + |dst|))
    {
      var src, rest := srcva, max;
      dst := [];
      while rest > 0
        invariant rest >= 0 && |dst| + rest == max && (rest == 0 || src == srcva + |dst|) && 0 !in dst
        invariant Valid() && tables == old(tables) && free == old(free) && frames == old(frames)
        invariant IsRead(tables, t, frames, srcva, dst)
      {
        var got := CopyinPage(root, src, rest, t);
        if got == [] {
          return -1, dst;
        }
        var n := FindNul(got);
        if n < |got| {
          IsReadLess(tables, t, frames, src, got, n + 1);
          IsReadMore(tables, t, frames, srcva, dst, got[..n + 1]);
          return 0, dst + got[..n + 1];
        }
        IsReadMore(tables, t, frames, srcva, dst, got);
        ChunkEnds(src, rest);
        dst := dst + got;
        rest := rest - |got|;
        src := PGROUNDDOWN(src) + PGSIZE;
      }
      r := -1;
    }

    /** What copyout has stored is what copyin fetches. */
    method CopyThere(root: nat, va: nat, src: seq<Byte>, ghost t: Nodes) returns (r: int, dst: seq<Byte>)
      requires Valid() && Tree(tables, t) && root == t[Root] && UserMem(tables, t, frames)
      modifies this
      ensures r == 0 ==> dst == src
      ensures r == 0 <==> AllWritable(tables, t, va, va + |src|)
    {
      dst := [];
      ghost var done;
      r, done := Copyout(root, va, src, t);
      if r == 0 {
        r, dst := Copyin(root, va, |src|, t);
        assert src[..done] == src && StoredParts(true, tables, t, old(frames), frames, va, src, done);
        SameBytes(tables, t, old(frames), frames, va, src, dst);
      }
    }

    lemma Copies(m0: Tables, o: Nodes, t: Nodes, f0: Data, u: Nodes, n: nat)
      requires Valid() && Holds(m0, o, f0.Keys, 0, n) && EndsAt(m0, o, n) && EndsAt(m0, t, n) && UserMem(m0, o, f0)
      requires SameLeaves(m0, o, tables, o) && Filled(m0, t, f0, tables, u, frames, 0, Image(m0, o, f0, n))
      ensures Separate(tables, o, u, frames)
      ensures Follows(tables, o, frames, false, [], m0, o, f0) && Follows(tables, u, frames, true, [], m0, o, f0)
    {
      assert ValidParts(true);
      CopyIsSeparate(m0, o, t, f0, tables, u, frames, n);
      forall x: nat
        ensures FollowsAt(tables, o, frames, false, [], m0, o, f0, x) && FollowsAt(tables, u, frames, true, [], m0, o, f0, x)
      {
        CopyIsSame(m0, o, t, f0, tables, u, frames, n, x);
      }
    }

    /** One more store, into t beside v. */
    method StoreBeside(root: nat, last: Store, ghost t: Nodes, ghost v: Nodes, ghost stores: seq<Store>,
                       ghost m0: Tables, ghost o: Nodes, ghost f0: Data)
      requires Valid() && Tree(tables, t) && root == t[Root] && Separate(tables, v, t, frames)
      requires Follows(tables, t, frames, last.child, stores, m0, o, f0)
      requires Follows(tables, v, frames, !last.child, stores, m0, o, f0)
      modifies this
      ensures Valid() && tables == old(tables) && Separate(tables, v, t, frames)
      ensures Follows(tables, t, frames, last.child, stores + [last], m0, o, f0)
      ensures Follows(tables, v, frames, !last.child, stores + [last], m0, o, f0)
    {
      ghost var f := frames;
      var _, done := Copyout(root, last.va, last.bytes, t);
      assert StoredParts(true, tables, t, f, frames, last.va, last.bytes, done);
      Isolation(tables, v, t, f, frames);
      FollowsOwn(tables, t, f, frames, stores, last, done, m0, o, f0);
      FollowsOther(tables, v, f, frames, !last.child, stores, last, m0, o, f0);
    }

    /**
     uvmcopy, and then any copyouts into child and parent, in any order: each of the two reads as the parent did at
     the start, but for the stores into itself.
     */
    method CopyThenStore(oroot: nat, nroot: nat, sz: nat, stores: seq<Store>, ghost o: Nodes, ghost t: Nodes)
      returns (r: int, ghost u: Nodes)
      requires Valid() && Tree(tables, o) && Tree(tables, t) && o.Values !! t.Values
      requires oroot == o[Root] && nroot == t[Root] && sz <= MAXVA
      requires Holds(tables, o, frames.Keys, 0, PGROUNDUP(sz) / PGSIZE) && UserMem(tables, o, frames)
      requires EndsAt(tables, o, PGROUNDUP(sz) / PGSIZE)
      requires forall v: nat :: v < PGROUNDUP(sz) / PGSIZE ==> !IsV(Leaf(tables, t, v))
      requires EndsAt(tables, t, PGROUNDUP(sz) / PGSIZE)
      modifies this
      ensures Valid()
      ensures r == 0 ==>
        && Separate(tables, o, u, frames)
        && Follows(tables, o, frames, false, stores, old(tables), o, old(frames))
        && Follows(tables, u, frames, true, stores, old(tables), o, old(frames))
    {
      ghost var m0, f0 := tables, frames;
      r, u := Uvmcopy(oroot, nroot, sz, o, t);
      if r != 0 {
        return;
      }
      Copies(m0, o, t, f0, u, PGROUNDUP(sz) / PGSIZE);
      ghost var m := tables;
      for i := 0 to |stores|
        invariant Valid() && tables == m && Tree(m, o) && Tree(m, u) && oroot == o[Root] && nroot == u[Root]
        invariant Separate(m, o, u, frames)
        invariant Follows(m, o, frames, false, stores[..i], m0, o, f0)
        invariant Follows(m, u, frames, true, stores[..i], m0, o, f0)
      {
        assert stores[..i + 1] == stores[..i] + [stores[i]];
        if stores[i].child {
          StoreBeside(nroot, stores[i], u, o, stores[..i], m0, o, f0);
        } else {
          SeparateBack(m, o, u, frames);
          StoreBeside(oroot, stores[i], o, u, stores[..i], m0, o, f0);
          SeparateBack(m, u, o, frames);
        }
      }
      assert stores[..|stores|] == stores;
    }
  }
}
