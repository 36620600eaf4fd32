/**
 malloc and free of user/umalloc.c: the circular free list, the first-fit search, coalescing, and the
 calls of sbrk.
 */
module UserHeap {
  import opened HeapModel

  const HEADER: nat := 16  // sizeof(Header)

  /** The size in headers that malloc looks for; nbytes + sizeof(Header) is computed in 64 bits. */
  function Units(nbytes: nat): (n: nat)
    ensures n >= 1 && (n - 1) * HEADER >= nbytes && (n - 1) * HEADER < nbytes + HEADER
  {
    (nbytes + HEADER - 1) / HEADER + 1
  }

  /** The conversion to int that the argument of sbrk undergoes. */
  function ToInt(n: nat): int {
    if n % 0x1_0000_0000 < 0x8000_0000 then n % 0x1_0000_0000 else n % 0x1_0000_0000 - 0x1_0000_0000
  }

  /** The break after sbrk(n) at q; growproc leaves it where it is if there is not so much to take away. */
  function Break(q: nat, n: int): nat {
    if q + n / HEADER < 0 then q else q + n / HEADER
  }

  /** The units of memory in use by the heap end below the break. */
  ghost predicate Below(h: Heap, brk: nat) {
    forall u :: u in h.owner ==> u < brk
  }

  lemma NotBelow(h: Heap, base: nat, q: nat)
    requires Inv(h, base) && Below(h, q) && q > base
    ensures q !in h.fl && q !in h.live
  {
    forall i | 0 <= i < |h.fl|
      ensures h.fl[i] != q
    {
      if i > 0 {
        assert h.Covers(h.fl[i], h.fl[i]);
      }
    }
    assert q in h.live ==> h.IsBlock(q) && h.Covers(q, q);
  }

  /**
   morecore for nu units gets memory at q, above all that the heap has.  The heap, with these units in it, ends
   below the new break exactly if nu * 16 is an int.
   */
  lemma BreakHolds(h: Heap, q: nat, nu: nat)
    requires Below(h, q) && 0 < nu <= Units(0xffff_ffff)
    ensures Below(Extend(h, q, nu), Break(q, ToInt(nu * HEADER))) <==> nu < 0x800_0000
  {
    if nu >= 0x800_0000 {
      var last := q + nu - 1;
      assert Within(last, q, nu) && last in Extend(h, q, nu).owner;
      assert ToInt(nu * HEADER) / HEADER < nu;
    }
  }

  /** malloc(0xffff_ffff) asks sbrk for one header; the heap then has 2^28 units above the break. */
  lemma BreakPassed(h: Heap, q: nat, u: nat)
    requires Below(h, q)
    ensures
      var nu := Units(0xffff_ffff);
      var brk := Break(q, ToInt(nu * HEADER));
      brk == q + 1 && (brk <= u < brk + 0x1000_0000 ==> u in Extend(h, q, nu).owner)
  {
    assert Within(u, q, 0x1000_0001) <==> q <= u < q + 0x1000_0001;
  }

  /** A call of sbrk, with its argument and its result. */
  datatype Call = Call(bytes: int, result: int)

  /** The argument of sbrk when morecore wants n units. */
  function Asked(n: nat): int {
    ToInt((if n < 4096 then 4096 else n) * HEADER)
  }

  class Allocator {
    const base: nat            // the static header, below the heap
    var freep: nat             // 0 before the first malloc
    var ptr: map<nat, nat>     // the ptr field of each header
    var size: map<nat, nat>    // the size field of each header
    var brk: nat               // the end of the process's memory
    ghost var h: Heap
    ghost var calls: seq<Call>  // the calls of sbrk so far

    /** The blocks tile the heap, and the list is one address-ordered cycle without touching blocks. */
    ghost predicate Sound()
      reads this
    {
      && base > 0 && size == h.size
      && (freep == 0 ==> h == Heap([], map[], {}, map[]))
      && (freep != 0 ==> Inv(h, base) && Spaced(h) && Ring(h.fl, ptr) && freep in h.fl)
    }

    /** All of the heap is the process's memory. */
    ghost predicate Valid()
      reads this
    {
      Sound() && brk > base && Below(h, brk)
    }

    /** A process that has not called malloc yet. */
    constructor (base: nat, brk: nat)
      requires 0 < base < brk
      ensures Valid() && freep == 0 && this.brk == brk
    {
      this.base, this.brk := base, brk;
      freep, ptr, size, h, calls := 0, map[], map[], Heap([], map[], {}, map[]), [];
    }

    /** The search loop of free: the free block after which bp belongs. */
    method FindPlace(bp: nat) returns (p: nat, ghost k: nat)
      requires Sound() && freep != 0 && bp in h.live
      ensures k < |h.fl| && p == h.fl[k] && p < bp && (k + 1 < |h.fl| ==> bp < h.fl[k + 1])
    {
      k := Place(h.fl, bp);
      ghost var i :| 0 <= i < |h.fl| && h.fl[i] == freep;
      p := freep;
      StopsOnce(h.fl, bp, i);
      assert ptr[p] == Succ(h.fl, i);
      while !(bp > p && bp < ptr[p])
        invariant i < |h.fl| && h.fl[i] == p && ptr[p] == Succ(h.fl, i) && (Stops(p, ptr[p], bp) <==> i == k)
        decreases if i <= k then k - i else |h.fl| + k - i
      {
        if p >= ptr[p] && (bp > p || bp < ptr[p]) {
          break;
        }
        p := ptr[p];
        i := if i + 1 < |h.fl| then i + 1 else 0;
        assert ptr[h.fl[i]] == Succ(h.fl, i);
        StopsOnce(h.fl, bp, i);
      }
    }

    /** The first test of free: bp goes in after p and swallows the free block above it if they touch. */
    method JoinAbove(p: nat, bp: nat, ghost k: nat) returns (ghost fl: seq<nat>)
      requires Listed(h, base) && size == h.size && Ring(h.fl, ptr) && bp in h.live
      requires k < |h.fl| && p == h.fl[k] && p < bp
      modifies `ptr, `size
      ensures
        var r := MergeIf(Insert(h, k, bp), k + 1);
        size == r.size && fl == r.fl
      ensures bp in ptr && Ring(fl, ptr[p := bp])
    {
      var nxt := ptr[p];
      assert nxt == Succ(h.fl, k);
      if bp + size[bp] == nxt {
        AboveTouches(h, k, bp);
        RingReplace(h.fl, ptr, k, bp);
        fl := h.fl[k + 1 := bp];
        size := size[bp := size[bp] + size[nxt]];
        ptr := ptr[bp := ptr[nxt]];
      } else {
        AboveIsApart(h, k, bp);
        RingInsert(h.fl, ptr, k, bp);
        fl := h.fl[..k + 1] + [bp] + h.fl[k + 1..];
        ptr := ptr[bp := nxt];
      }
    }

    /** The second test of free: p swallows bp if they touch. */
    method JoinBelow(p: nat, bp: nat, ghost r: Heap, ghost k: nat)
      requires size == r.size && Ascending(r.fl) && Ring(r.fl, ptr[p := bp]) && p in size && bp in size && bp in ptr
      requires k + 1 < |r.fl| && p == r.fl[k] && bp == r.fl[k + 1]
      modifies `ptr, `size
      ensures size == MergeIf(r, k).size && Ring(MergeIf(r, k).fl, ptr)
    {
      if p + size[p] == bp {
        BelowTouches(r.fl, ptr, k);
        size := size[p := size[p] + size[bp]];
        ptr := ptr[p := ptr[bp]];
      } else {
        ptr := ptr[p := bp];
      }
    }

    /** The two tests together: bp is inserted after p and merged with its neighbours. */
    method Join(p: nat, bp: nat, ghost k: nat)
      requires Sound() && freep != 0 && bp in h.live
      requires k < |h.fl| && p == h.fl[k] && p < bp && (k + 1 < |h.fl| ==> bp < h.fl[k + 1])
      modifies `ptr, `size, `h
      ensures h == Freed(old(h), k, bp) && size == h.size && Ring(h.fl, ptr)
    {
      ghost var r := MergeIf(Insert(h, k, bp), k + 1);
      FreedKeeps(h, base, k, bp);
      AboveShape(h, base, k, bp);
      ghost var fl := JoinAbove(p, bp, k);
      JoinBelow(p, bp, r, k);
      h := Freed(h, k, bp);
    }

    /** free(ap) of a live block; afterwards it lies in the free block at position g. */
    method Free(ap: nat) returns (ghost g: nat)
      requires Sound() && freep != 0 && ap >= 1 && ap - 1 in h.live
      modifies `freep, `ptr, `size, `h
      ensures Sound() && freep != 0
      ensures h.live == old(h.live) - {ap - 1} && h.owner.Keys == old(h.owner.Keys)
      ensures forall x :: x in h.live ==> size[x] == old(size)[x]
      ensures OnlyFreed(old(h), h, ap - 1)
      ensures g < |h.fl| && h.fl[g] <= ap - 1 && ap - 1 + old(size)[ap - 1] <= h.fl[g] + size[h.fl[g]]
    {
      var bp := ap - 1;
      var p;
      ghost var k;
      p, k := FindPlace(bp);
      FreedKeeps(h, base, k, bp);
      HolderHolds(h, base, k, bp);
      FreesOnly(h, Freed(h, k, bp), base, bp);
      g := Holder(h, k, bp);
      Join(p, bp, k);
      freep := p;
    }

    /** sbrk(n), also of a negative n: the old break, or -1; other calls of sbrk may have moved the break up before. */
    method Sbrk(n: int) returns (p: int)
      requires n % HEADER == 0
      modifies `brk, `calls
      ensures p == -1 ==> brk == old(brk)
      ensures p != -1 ==> p >= old(brk) && brk == Break(p, n)
      ensures calls == old(calls) + [Call(n, p)]
    {
      if * {
        p := -1;
      } else {
        var gap: nat :| true;
        p := brk + gap;
        brk := Break(p, n);
      }
      calls := calls + [Call(n, p)];
    }

    method Morecore(nu0: nat) returns (p: nat, ghost g: nat)
      requires Valid() && freep != 0 && 1 <= nu0 <= Units(0xffff_ffff)
      modifies this
      ensures Sound() && freep != 0
      ensures p == 0 ==> h == old(h) && ptr == old(ptr) && freep == old(freep) && brk == old(brk)
      ensures Called(old(calls), nu0, p != 0)
      ensures p != 0 ==> h.owner.Keys != old(h.owner.Keys) && (Valid() <==> nu0 < 0x800_0000)
      ensures p != 0 ==> p == freep && g < |h.fl| && size[h.fl[g]] >= nu0
      ensures h.live == old(h.live) && old(h.owner.Keys) <= h.owner.Keys
      ensures forall x :: x in h.live ==> size[x] == old(size)[x]
    {
      var nu := if nu0 < 4096 then 4096 else nu0;
      var q := Sbrk(ToInt(nu * HEADER));
      assert calls == old(calls) + [Call(Asked(nu0), q)];
      if q == -1 {
        return 0, 0;
      }
      BreakHolds(h, q, nu);
      g := Add(q, nu);
      p := freep;
    }

    /** The rest of morecore: a header for the new memory, and free of it. */
    method Add(q: nat, nu: nat) returns (ghost g: nat)
      requires Sound() && freep != 0 && Below(h, q) && q > base && nu > 0
      modifies `freep, `ptr, `size, `h
      ensures Sound() && freep != 0 && g < |h.fl| && size[h.fl[g]] >= nu
      ensures h.live == old(h.live) && h.owner.Keys == Extend(old(h), q, nu).owner.Keys && q !in old(h.owner)
      ensures forall x :: x in h.live ==> size[x] == old(size)[x]
    {
      ExtendKeeps(h, base, q, nu);
      NotBelow(h, base, q);
      ExtendSpaced(h, base, q, nu);
      size := size[q := nu];
      h := Extend(h, q, nu);
      g := Free(q + 1);
    }

    /**
     malloc is at p, the free block after prevp: their positions are i and j, and f is that of freep.  Before
     morecore all blocks that it has passed are too small; after morecore the block at g fits and is ahead.
     */
    ghost predicate Searching(n: nat, prevp: nat, p: nat, f: nat, j: nat, g: nat, fetched: bool)
      reads this
    {
      && f < |h.fl| && h.fl[f] == freep && j < |h.fl| && h.fl[j] == prevp && h.fl[NextIn(j, |h.fl|)] == p && p in size
      && (!fetched ==> TooSmall(h, n, NextIn(j, |h.fl|), f))
      && (fetched ==> g < |h.fl| && InSpan(NextIn(j, |h.fl|), f, g) && h.fl[g] in size && size[h.fl[g]] >= n)
    }

    /** Since then there was one call of sbrk, for at least the n units, and it has been granted or not. */
    ghost predicate Called(before: seq<Call>, n: nat, granted: bool)
      reads this
    {
      exists q :: calls == before + [Call(Asked(n), q)] && (granted <==> q != -1)
    }

    /**
     Before morecore the allocator is as it was in h0; after it the heap is larger, and within the memory of the
     process or not, because no block of h0 was large enough.
     */
    ghost predicate Since(h0: Heap, calls0: seq<Call>, n: nat, fetched: bool)
      reads this
    {
      forall key: bool :: SinceParts(key, h0, calls0, n, fetched)
    }

    /** The key keeps Since from unfolding except where a proof names its parts. */
    ghost predicate SinceParts(key: bool, h0: Heap, calls0: seq<Call>, n: nat, fetched: bool)
      reads this
    {
      && h.live == h0.live && h0.owner.Keys <= h.owner.Keys
      && (forall x :: x in h.live ==> x in h0.size && x in h.size && h.size[x] == h0.size[x])
      && if fetched then
           && h.owner.Keys != h0.owner.Keys && (Valid() <==> n < 0x800_0000)
           && Called(calls0, n, true) && AllSmall(h0, n)
         else Valid() && h == h0 && calls == calls0
    }

    /** p is too small: malloc goes on to the next block, after a call of morecore if it is back at freep. */
    method Advance(n: nat, prevp: nat, p: nat, ghost f: nat, ghost j: nat, ghost g: nat, ghost fetched: bool,
                   ghost h0: Heap, ghost calls0: seq<Call>)
      returns (ok: bool, q: nat, r: nat, ghost f': nat, ghost j': nat, ghost g': nat, ghost fetched': bool)
      requires Sound() && freep != 0 && 1 <= n <= Units(0xffff_ffff) && Since(h0, calls0, n, fetched)
      requires Searching(n, prevp, p, f, j, g, fetched) && size[p] < n
      modifies this
      ensures Sound() && freep != 0
      ensures !ok ==> Valid() && h == h0 && AllSmall(h0, n) && Called(calls0, n, false)
      ensures ok ==> Searching(n, q, r, f', j', g', fetched') && Since(h0, calls0, n, fetched')
      ensures ok ==> (fetched ==> fetched') && (fetched' == fetched ==>
        h == old(h) && f' == f && Steps(NextIn(j', |h.fl|), f, |h.fl|) < Steps(NextIn(j, |h.fl|), f, |h.fl|))
    {
      assert SinceParts(true, h0, calls0, n, fetched);
      ghost var i := NextIn(j, |h.fl|);
      f', g', fetched' := f, g, fetched;
      SpanStep(i, f, if fetched then g else 0, |h.fl|);
      if !fetched {
        SearchGoesOn(h, n, i, f);
      }
      q, r := p, p;
      if p == freep {
        q, g' := Morecore(n);
        if q == 0 {
          return false, q, r, f', j, g', fetched';
        }
        f' :| f' < |h.fl| && h.fl[f'] == freep;
        i, fetched' := f', true;
        SpanStep(i, f', g', |h.fl|);
      }
      RingNext(h.fl, ptr, i);
      r := ptr[q];
      return true, q, r, f', i, g', fetched';
    }

    /** The first-fit branch of malloc: the block at position i serves n units, its predecessor is prevp. */
    method Serve(prevp: nat, p: nat, n: nat, ghost i: nat) returns (b: nat)
      requires Sound() && freep != 0 && 1 <= i < |h.fl| && h.fl[i] == p && h.fl[i - 1] == prevp && 0 < n <= size[p]
      modifies `freep, `ptr, `size, `h
      ensures Sound() && freep != 0 && (Valid() <==> old(Valid()))
      ensures b !in old(h.live) && h.live == old(h.live) + {b} && size[b] == n
      ensures h.owner.Keys == old(h.owner.Keys) && forall x :: x in old(h.live) ==> size[x] == old(size)[x]
    {
      if size[p] == n {
        Unlink(prevp, p, i);
        b := p;
      } else {
        b := CutOff(prevp, p, n, i);
      }
    }

    /** The block p leaves the list whole, its neighbours linked. */
    method Unlink(prevp: nat, p: nat, ghost i: nat)
      requires Sound() && freep != 0 && 1 <= i < |h.fl| && h.fl[i] == p && h.fl[i - 1] == prevp
      modifies `freep, `ptr, `h
      ensures Sound() && freep != 0
      ensures p !in old(h.live) && h.live == old(h.live) + {p} && h.owner == old(h.owner)
    {
      ServedKeeps(h, base, i, size[p]);
      ghost var r := Take(h, i);
      RingRemove(h.fl, ptr, i - 1);
      assert r.fl == h.fl[..i - 1 + 1] + h.fl[i - 1 + 2..] && r.fl[i - 1] == prevp;
      ptr := ptr[prevp := ptr[p]];
      freep := prevp;
      h := r;
    }

    /** The last n units of p become a block of their own. */
    method CutOff(prevp: nat, p: nat, n: nat, ghost i: nat) returns (b: nat)
      requires Sound() && freep != 0 && 1 <= i < |h.fl| && h.fl[i] == p && h.fl[i - 1] == prevp && 0 < n < size[p]
      modifies `freep, `size, `h
      ensures Sound() && freep != 0
      ensures b !in old(h.live) && h.live == old(h.live) + {b} && size[b] == n
      ensures h.owner.Keys == old(h.owner.Keys) && forall x :: x in old(h.live) ==> size[x] == old(size)[x]
    {
      ServedKeeps(h, base, i, n);
      ghost var r := Split(h, i, n);
      size := size[p := size[p] - n];
      b := p + size[p];
      size := size[b := n];
      freep := prevp;
      h := r;
    }

    /**
     malloc(nbytes) of any unsigned size: 0, or one past the header of a new live block of Units(nbytes) headers.
     The heap stays within the process's memory exactly if it did not grow or the request was not too large.
     */
    method Malloc(nbytes: nat) returns (ap: nat)
      requires Valid() && nbytes < 0x1_0000_0000
      modifies this
      ensures Sound() && freep != 0 && old(h.owner.Keys) <= h.owner.Keys
      ensures Valid() <==> h.owner.Keys == old(h.owner.Keys) || nbytes <= 0x8000_0000 - 32
      ensures forall x :: x in old(h.live) ==> x in size && size[x] == old(size)[x]
      ensures if ap == 0 then Called(old(calls), Units(nbytes), false)
              else calls == old(calls) || Called(old(calls), Units(nbytes), true)
      ensures calls != old(calls) ==> AllSmall(old(h), Units(nbytes))
      ensures ap == 0 ==> h.live == old(h.live) && h.owner == old(h.owner) && AllSmall(h, Units(nbytes))
      ensures ap != 0 ==> ap - 1 !in old(h.live) && h.live == old(h.live) + {ap - 1} && size[ap - 1] == Units(nbytes)
    {
      var nunits := Units(nbytes);
      if freep == 0 {
        Initialize();
      }
      ghost var f: nat :| f < |h.fl| && h.fl[f] == freep;
      RingNext(h.fl, ptr, f);
      SearchBegins(h, nunits, f);
      ap := Search(nunits, freep, ptr[freep], f);
    }

    /** p is large enough: the search that began in h0 ends. */
    method Finish(n: nat, prevp: nat, p: nat, ghost f: nat, ghost j: nat, ghost g: nat, ghost fetched: bool,
                  ghost h0: Heap, ghost calls0: seq<Call>)
      returns (b: nat)
      requires Sound() && freep != 0 && 1 <= n && Since(h0, calls0, n, fetched)
      requires Searching(n, prevp, p, f, j, g, fetched) && size[p] >= n
      modifies `freep, `ptr, `size, `h
      ensures Sound() && freep != 0 && (Valid() <==> h.owner.Keys == h0.owner.Keys || n < 0x800_0000)
      ensures b !in h0.live && h.live == h0.live + {b} && size[b] == n && h0.owner.Keys <= h.owner.Keys
      ensures forall x :: x in h0.live ==> x in size && x in h0.size && size[x] == h0.size[x]
      ensures calls == calls0 || (Called(calls0, n, true) && AllSmall(h0, n))
    {
      assert SinceParts(true, h0, calls0, n, fetched);
      FitsInside(h, base, j, NextIn(j, |h.fl|), n);
      b := Serve(prevp, p, n, NextIn(j, |h.fl|));
    }

    /** The loop of malloc. */
    method Search(n: nat, prevp0: nat, p0: nat, ghost f0: nat) returns (ap: nat)
      requires Valid() && freep != 0 && 1 <= n <= Units(0xffff_ffff) && Searching(n, prevp0, p0, f0, f0, 0, false)
      modifies this
      ensures Sound() && freep != 0 && old(h.owner.Keys) <= h.owner.Keys
      ensures Valid() <==> h.owner.Keys == old(h.owner.Keys) || n < 0x800_0000
      ensures forall x :: x in old(h.live) ==> x in size && size[x] == old(size)[x]
      ensures if ap == 0 then Called(old(calls), n, false) else calls == old(calls) || Called(old(calls), n, true)
      ensures calls != old(calls) ==> AllSmall(old(h), n)
      ensures ap == 0 ==> h.live == old(h.live) && h.owner == old(h.owner) && AllSmall(h, n)
      ensures ap != 0 ==> ap - 1 !in old(h.live) && h.live == old(h.live) + {ap - 1} && size[ap - 1] == n
    {
      var prevp, p := prevp0, p0;
      ghost var fetched, g: nat, f, j := false, 0, f0, f0;
      while true
        invariant Sound() && freep != 0 && Since(old(h), old(calls), n, fetched)
        invariant Searching(n, prevp, p, f, j, g, fetched)
        decreases !fetched, Steps(NextIn(j, |h.fl|), f, |h.fl|)
      {
        if size[p] >= n {
          var b := Finish(n, prevp, p, f, j, g, fetched, old(h), old(calls));
          return b + 1;
        }
        var ok;
        ok, prevp, p, f, j, g, fetched := Advance(n, prevp, p, f, j, g, fetched, old(h), old(calls));
        if !ok {
          return 0;
        }
      }
    }

    /** The first call: the free list is the static header alone. */
    method Initialize()
      requires Valid() && freep == 0
      modifies `freep, `ptr, `size, `h
      ensures Valid() && freep == base && h.fl == [base] && h.live == {} && h.owner == map[]
    {
      freep := base;
      ptr := ptr[base := base];
      size := size[base := 0];
      h := Heap([base], size, {}, map[]);
      assert Ring(h.fl, ptr);
    }
  }
}
