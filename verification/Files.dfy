/**
 An inode's blocks and contents: bmap, itrunc, readi and writei of kernel/fs.c, over a store in which
 blocks are allocated zeroed and changes made in place stay.
 */
module Files {
  import opened Bytes
  import opened Kernel
  import opened BlockTree

  lemma {:induction false} Bound(s: set<nat>) returns (m: nat)
    ensures forall x :: x in s ==> x < m
  {
    if s == {} {
      m := 0;
    } else {
      var x :| x in s;
      var n := Bound(s - {x});
      m := if n <= x then x + 1 else n;
      assert forall y :: y in s ==> y == x || y in s - {x};
    }
  }

  const UINT := 0x1_0000_0000
  const MAXFILE := 12 + 256              // kernel/fs.h, not EXT2_MAXFILE

  /** The conversion of an unsigned result to int. */
  function AsInt(n: nat): int
    requires n < UINT
  {
    if n < UINT / 2 then n else n - UINT
  }

  lemma Slices(src: seq<Byte>, i: nat, m: nat, k: nat)
    requires i + m <= |src| && k <= m
    ensures src[..i] + src[i..i + m][..k] == src[..i + k]
    ensures k == m ==> src[i..i + m][..k] == src[i..i + m]
  {
  }

  lemma ChunkFits(at: nat, left: nat, m: int)
    requires left > 0 && m == if left < BSIZE - at % BSIZE then left else BSIZE - at % BSIZE
    ensures 0 < m <= left && at % BSIZE + m <= BSIZE
  {
  }

  class Inode {
    var addrs: seq<nat>                  // ip->addrs
    var size: nat                        // ip->size
    var index: Index                     // the blocks in use that hold block numbers, of all files
    var data: Data                       // the blocks in use that hold data, of all files
    ghost var tree: Tree                 // the blocks of this file

    ghost predicate Valid()
      reads this
    {
      Inv(addrs, index, data, tree)
    }

    /** An empty file beside the blocks of the other files. */
    constructor (index: Index, data: Data)
      requires forall b :: b in index ==> |index[b]| == NINDIRECT && b !in data
      requires forall b :: b in data ==> |data[b]| == BSIZE
      ensures Valid() && Contents() == [] && this.index == index && this.data == data
    {
      addrs, size, this.index, this.data, tree := seq(15, i => 0), 0, index, data, map[];
    }

    /** A block that was not in use, zeroed; balloc panics when there is none. */
    method Balloc(forData: bool) returns (b: nat)
      modifies `index, `data
      ensures b != 0 && b !in old(index) && b !in old(data)
      ensures index == (if forData then old(index) else old(index)[b := NoBlocks()])
      ensures data == (if forData then old(data)[b := Zeros()] else old(data))
    {
      ghost var used := index.Keys + data.Keys + {0};
      ghost var m := Bound(used);
      assert m !in used;
      b :| b != 0 && b !in index && b !in data;
      if forData {
        data := data[b := Zeros()];
      } else {
        index := index[b := NoBlocks()];
      }
    }

    /** bfree panics on a block that is not in use. */
    method Bfree(b: nat)
      requires b in index || b in data
      modifies `index, `data
      ensures index == old(index) - {b} && data == old(data) - {b}
    {
      index := index - {b};
      data := data - {b};
    }

    // ----- bmap -----

    /** ip->addrs[i], allocated if it is 0. */
    method Direct(i: nat, ghost path: Path, ghost t0: Tree, ghost i0: Index, ghost d0: Data) returns (addr: nat)
      requires Valid() && i < 15 && [i] <= path && IsPath(path) && Grown(t0, i0, d0, tree, index, data, path)
      modifies `addrs, `index, `data, `tree
      ensures Valid() && Grown(t0, i0, d0, tree, index, data, path)
      ensures [i] in tree && tree[[i]] == addr
    {
      assert Node(addrs, index, data, tree, [i]);
      addr := addrs[i];
      if addr == 0 {
        addr := Balloc(i < NDIRECT);
        AddKeeps(addrs, old(index), old(data), tree, [i], addr);
        GrownAdd(t0, i0, d0, tree, old(index), old(data), path, [i], addr);
        addrs := SetAt(addrs, i, addr);
        tree := tree[[i] := addr];
      }
    }

    /** Entry i of the index block blk at p, allocated if it is 0. */
    method Entry(blk: nat, i: nat, forData: bool,
                 ghost p: Path, ghost q: Path, ghost path: Path, ghost t0: Tree, ghost i0: Index, ghost d0: Data)
      returns (addr: nat)
      requires Valid() && p in tree && tree[p] == blk && i < NINDIRECT && q == p + [i] && q <= path && IsPath(path)
      requires forData == IsData(q) && Grown(t0, i0, d0, tree, index, data, path)
      modifies `index, `data, `tree
      ensures Valid() && Grown(t0, i0, d0, tree, index, data, path)
      ensures q in tree && tree[q] == addr
    {
      PrefixIsPath(q, path);
      RowOf(addrs, index, data, tree, p, i, q);
      addr := index[blk][i];
      if addr == 0 {
        addr := Balloc(forData);
        AddKeeps(addrs, old(index), old(data), tree, q, addr);
        GrownAdd(t0, i0, d0, tree, old(index), old(data), path, q, addr);
        index := index[blk := SetAt(index[blk], i, addr)];
        tree := tree[q := addr];
      }
    }

    /** Block bn of the file, allocated with its index blocks if need be; bmap panics on larger bn. */
    method Bmap(bn: nat) returns (addr: nat)
      requires Valid() && bn < MAXBLOCKS
      modifies `addrs, `index, `data, `tree
      ensures Valid() && Grown(old(tree), old(index), old(data), tree, index, data, PathOf(bn))
      ensures PathOf(bn) in tree && tree[PathOf(bn)] == addr
      ensures FileMap(tree) == old(FileMap(tree))[bn := addr]
      ensures bn in old(FileMap(tree)) ==> addr == old(FileMap(tree))[bn]
      ensures bn !in old(FileMap(tree)) ==> addr !in old(index) && addr !in old(data)
    {
      addr := Lookup(bn);
      GrownMap(old(tree), old(index), old(data), tree, index, data, bn);
    }

    /** The four regimes of bmap. */
    method Lookup(bn: nat) returns (addr: nat)
      requires Valid() && bn < MAXBLOCKS
      modifies `addrs, `index, `data, `tree
      ensures Valid() && Grown(old(tree), old(index), old(data), tree, index, data, PathOf(bn))
      ensures PathOf(bn) in tree && tree[PathOf(bn)] == addr
    {
      ghost var t0, i0, d0, path := tree, index, data, PathOf(bn);
      PathRoundTrip(bn);
      GrownNone(tree, index, data, path);
      if bn < NDIRECT {
        addr := Direct(bn, path, t0, i0, d0);
        return;
      }
      var b := bn - NDIRECT;
      if b < 256 {
        addr := Direct(12, path, t0, i0, d0);
        addr := Entry(addr, b, true, [12], [12, b], path, t0, i0, d0);
        return;
      }
      b := b - 256;
      if b < 0x1_0000 {
        addr := Direct(13, path, t0, i0, d0);
        addr := Entry(addr, b / 256, false, [13], [13, b / 256], path, t0, i0, d0);
        addr := Entry(addr, b % 256, true, [13, b / 256], path, path, t0, i0, d0);
        return;
      }
      b := b - 0x1_0000;
      ghost var i := b / 0x1_0000;
      addr := Direct(14, path, t0, i0, d0);
      addr := Entry(addr, b / 0x1_0000, false, [14], [14, i], path, t0, i0, d0);
      b := b % 0x1_0000;
      addr := Entry(addr, b / 256, false, [14, i], [14, i, b / 256], path, t0, i0, d0);
      addr := Entry(addr, b % 256, true, [14, i, b / 256], path, path, t0, i0, d0);
    }

    // ----- itrunc -----

    /** Frees the block of entry k of the index block blk at p and clears the entry. */
    method FreeEntry(blk: nat, k: nat, ghost p: Path, ghost q: Path, ghost t0: Tree, ghost i0: Index, ghost d0: Data)
      requires Valid() && p in tree && tree[p] == blk && k < NINDIRECT && q == p + [k] && Bare(tree, q)
      requires Trimmed(t0, i0, d0, tree, index, data)
      modifies `index, `data, `tree
      ensures Valid() && tree == old(tree) - {q} && Trimmed(t0, i0, d0, tree, index, data)
    {
      assert Node(addrs, index, data, tree, q);
      RowOf(addrs, index, data, tree, p, k, q);
      CutKeeps(addrs, index, data, tree, q);
      TrimmedCut(t0, i0, d0, tree, index, data, q);
      assert ApartParts(true, index, data, tree) && p != q;
      Bfree(index[blk][k]);
      index := index[blk := SetAt(index[blk], k, 0)];
      tree := tree - {q};
    }

    /** Frees the block of entry k of the inode and clears the entry. */
    method FreeDirect(k: nat, ghost t0: Tree, ghost i0: Index, ghost d0: Data)
      requires Valid() && k < 15 && Bare(tree, [k]) && Trimmed(t0, i0, d0, tree, index, data)
      modifies `addrs, `index, `data, `tree
      ensures Valid() && tree == old(tree) - {[k]} && Trimmed(t0, i0, d0, tree, index, data)
      ensures addrs == old(addrs)[k := 0]
    {
      assert Node(addrs, index, data, tree, [k]);
      CutKeeps(addrs, index, data, tree, [k]);
      TrimmedCut(t0, i0, d0, tree, index, data, [k]);
      Bfree(addrs[k]);
      addrs := SetAt(addrs, k, 0);
      tree := tree - {[k]};
    }

    /** The loop over an index block of data blocks. */
    method FreeTable(blk: nat, ghost p: Path, ghost t0: Tree, ghost i0: Index, ghost d0: Data)
      requires Valid() && p in tree && tree[p] == blk && p != [] && |p| + 1 == Depth(p[0])
      requires Trimmed(t0, i0, d0, tree, index, data)
      modifies `index, `data, `tree
      ensures Valid() && p in tree && tree[p] == blk && Trimmed(t0, i0, d0, tree, index, data)
      ensures Cleared(old(tree), tree, p, NINDIRECT) && Part(old(tree), tree)
    {
      ghost var t := tree;
      for k := 0 to 256
        invariant Valid() && p in tree && tree[p] == blk && Trimmed(t0, i0, d0, tree, index, data)
        invariant Cleared(t, tree, p, k) && Part(t, tree)
      {
        ghost var u, q := tree, p + [k];
        assert Node(addrs, index, data, tree, p);
        RowOf(addrs, index, data, tree, p, k, q);
        if index[blk][k] != 0 {
          DataIsBare(addrs, index, data, tree, q);
          FreeEntry(blk, k, p, q, t0, i0, d0);
        } else {
          NothingBelow(addrs, index, data, tree, q);
        }
        ClearedStep(t, u, tree, p, k);
      }
    }

    /** The loop over an index block of index blocks. */
    method FreeDouble(blk: nat, ghost p: Path, ghost t0: Tree, ghost i0: Index, ghost d0: Data)
      requires Valid() && p in tree && tree[p] == blk && p != [] && |p| + 2 == Depth(p[0])
      requires Trimmed(t0, i0, d0, tree, index, data)
      modifies `index, `data, `tree
      ensures Valid() && p in tree && tree[p] == blk && Trimmed(t0, i0, d0, tree, index, data)
      ensures Cleared(old(tree), tree, p, NINDIRECT) && Part(old(tree), tree)
    {
      ghost var t := tree;
      for k := 0 to 256
        invariant Valid() && p in tree && tree[p] == blk && Trimmed(t0, i0, d0, tree, index, data)
        invariant Cleared(t, tree, p, k) && Part(t, tree)
      {
        ghost var u, q := tree, p + [k];
        assert Node(addrs, index, data, tree, p);
        RowOf(addrs, index, data, tree, p, k, q);
        if index[blk][k] != 0 {
          FreeTable(index[blk][k], q, t0, i0, d0);
          StillThere(u, tree, p, q);
          ThenBare(addrs, index, data, u, tree, q);
          FreeEntry(blk, k, p, q, t0, i0, d0);
        } else {
          NothingBelow(addrs, index, data, tree, q);
        }
        ClearedStep(t, u, tree, p, k);
      }
    }

    /** The loop over an index block of index blocks of index blocks. */
    method FreeTriple(blk: nat, ghost p: Path, ghost t0: Tree, ghost i0: Index, ghost d0: Data)
      requires Valid() && p in tree && tree[p] == blk && p != [] && |p| + 3 == Depth(p[0])
      requires Trimmed(t0, i0, d0, tree, index, data)
      modifies `index, `data, `tree
      ensures Valid() && p in tree && tree[p] == blk && Trimmed(t0, i0, d0, tree, index, data)
      ensures Cleared(old(tree), tree, p, NINDIRECT) && Part(old(tree), tree)
    {
      ghost var t := tree;
      for k := 0 to 256
        invariant Valid() && p in tree && tree[p] == blk && Trimmed(t0, i0, d0, tree, index, data)
        invariant Cleared(t, tree, p, k) && Part(t, tree)
      {
        ghost var u, q := tree, p + [k];
        assert Node(addrs, index, data, tree, p);
        RowOf(addrs, index, data, tree, p, k, q);
        if index[blk][k] != 0 {
          FreeDouble(index[blk][k], q, t0, i0, d0);
          StillThere(u, tree, p, q);
          ThenBare(addrs, index, data, u, tree, q);
          FreeEntry(blk, k, p, q, t0, i0, d0);
        } else {
          NothingBelow(addrs, index, data, tree, q);
        }
        ClearedStep(t, u, tree, p, k);
      }
    }

    /** Gives up every block of the file, each of them once, and leaves the empty file. */
    method Itrunc()
      requires Valid()
      modifies this
      ensures Valid() && tree == map[] && size == 0 && addrs == seq(15, i => 0)
      ensures data == old(data) - old(tree).Values && index.Keys == old(index).Keys - old(tree).Values
      ensures forall b :: b in index ==> index[b] == old(index)[b]
    {
      ghost var t0, i0, d0 := tree, index, data;
      TrimmedNone(tree, index, data);
      for i := 0 to 12
        invariant Valid() && Trimmed(t0, i0, d0, tree, index, data) && Rest(tree, i)
      {
        ghost var t := tree;
        assert Node(addrs, index, data, tree, [i]);
        if addrs[i] != 0 {
          DataIsBare(addrs, index, data, tree, [i]);
          FreeDirect(i, t0, i0, d0);
        } else {
          NothingBelow(addrs, index, data, tree, [i]);
        }
        RestStep(t, tree, i);
      }
      FreeRoot(12, t0, i0, d0);
      FreeRoot(13, t0, i0, d0);
      FreeRoot(14, t0, i0, d0);
      Nothing(addrs, index, data, tree);
      TrimmedAll(t0, i0, d0, index, data);
      size := 0;
    }

    /** The block ip->addrs[i], i > 11, with all that is below it. */
    method FreeRoot(i: nat, ghost t0: Tree, ghost i0: Index, ghost d0: Data)
      requires Valid() && 12 <= i < 15 && Trimmed(t0, i0, d0, tree, index, data) && Rest(tree, i)
      modifies `addrs, `index, `data, `tree
      ensures Valid() && Trimmed(t0, i0, d0, tree, index, data) && Rest(tree, i + 1)
    {
      ghost var t := tree;
      assert Node(addrs, index, data, tree, [i]);
      if addrs[i] != 0 {
        if i == 12 {
          FreeTable(addrs[i], [i], t0, i0, d0);
        } else if i == 13 {
          FreeDouble(addrs[i], [i], t0, i0, d0);
        } else {
          FreeTriple(addrs[i], [i], t0, i0, d0);
        }
        ThenBare(addrs, index, data, t, tree, [i]);
        FreeDirect(i, t0, i0, d0);
      } else {
        NothingBelow(addrs, index, data, tree, [i]);
      }
      RestStep(t, tree, i);
    }

    // ----- readi and writei -----

    ghost function Contents(): seq<Byte>
      reads this
    {
      FileBytes(data, tree, size)
    }

    /** One round of the loop of readi: m bytes at off, which may first give a hole its block. */
    method ReadChunk(off: nat, m: nat) returns (got: seq<Byte>)
      requires Valid() && off / BSIZE < MAXBLOCKS && m > 0 && off % BSIZE + m <= BSIZE
      modifies `addrs, `index, `data, `tree
      ensures Valid() && Took(old(tree), old(index), old(data), tree, index, data, off, m)
      ensures Wrote(old(data), old(tree), data, tree, 0, [])
      ensures |got| == m && IsSlice(old(data), old(tree), off, got)
    {
      var addr := Bmap(off / BSIZE);
      GrownSpared(old(tree), old(index), old(data), tree, index, data, PathOf(off / BSIZE));
      TookOne(old(tree), old(index), old(data), tree, index, data, off, m, off / BSIZE, addr);
      GrownBytes(old(addrs), old(tree), old(index), old(data), addrs, tree, index, data, off / BSIZE, 0);
      BlockByte(addrs, index, data, tree, off, 0);
      got := data[addr][off % BSIZE..off % BSIZE + m];
      forall k | 0 <= k < m
        ensures got[k] == old(ByteAt(data, tree, off + k))
      {
        BlockByte(addrs, index, data, tree, off, k);
        assert WroteAt(old(data), old(tree), data, tree, 0, [], off + k);
      }
    }

    /**
     The bytes of the file from off on, clipped to its size, and their number as an int; -1 if off is past the end
     or off + n wraps.
     */
    method Readi(off: nat, n: nat) returns (r: int, dst: seq<Byte>)
      requires Valid() && size < UINT && off < UINT && n < UINT
      modifies `addrs, `index, `data, `tree
      ensures Valid() && Contents() == old(Contents())
      ensures Took(old(tree), old(index), old(data), tree, index, data, off, |dst|)
      ensures off > size || off + n >= UINT ==> r == -1 && dst == []
      ensures !(off > size || off + n >= UINT) ==>
        var end := if off + n > size then size else off + n;
        dst == old(Contents())[off..end] && r == AsInt(end - off)
    {
      TookNone(tree, index, data, off);
      if off > size || (off + n) % UINT < off {
        return -1, [];
      }
      var n1 := if off + n > size then size - off else n;
      dst := ReadLoop(off, n1);
      r := AsInt(n1);
      SliceOf(old(data), old(tree), size, off, dst);
      WroteContents(old(data), old(tree), data, tree, size, 0, []);
    }

    /** The loop of readi. */
    method ReadLoop(off: nat, n: nat) returns (dst: seq<Byte>)
      requires Valid() && off + n <= UINT
      modifies `addrs, `index, `data, `tree
      ensures Valid() && Took(old(tree), old(index), old(data), tree, index, data, off, n)
      ensures Wrote(old(data), old(tree), data, tree, 0, []) && |dst| == n && IsSlice(old(data), old(tree), off, dst)
    {
      dst := [];
      var tot := 0;
      TookNone(tree, index, data, off);
      WroteNone(data, tree, 0);
      while tot < n
        invariant 0 <= tot <= n && |dst| == tot && Valid()
        invariant Took(old(tree), old(index), old(data), tree, index, data, off, tot)
        invariant Wrote(old(data), old(tree), data, tree, 0, []) && IsSlice(old(data), old(tree), off, dst)
      {
        ghost var d, t, i := data, tree, index;
        var m := if n - tot < BSIZE - (off + tot) % BSIZE then n - tot else BSIZE - (off + tot) % BSIZE;
        var at := off + tot;
        ChunkFits(at, n - tot, m);
        var got := ReadChunk(at, m);
        TookMore(old(tree), old(index), old(data), t, i, d, tree, index, data, off, tot, at, m, tot + m);
        WroteNothing(old(data), old(tree), d, t, data, tree, 0);
        SliceMore(old(data), old(tree), d, t, off, dst, got);
        dst := dst + got;
        tot := tot + m;
      }
    }

    /**
     One round of the loop of writei: src goes to off, as far as it can be read.  A source that ends
     early leaves its readable part in the block.
     */
    method WriteChunk(off: nat, src: seq<Byte>, readable: nat) returns (ok: bool)
      requires Valid() && off / BSIZE < MAXBLOCKS && src != [] && off % BSIZE + |src| <= BSIZE
      modifies `addrs, `index, `data, `tree
      ensures Valid() && Took(old(tree), old(index), old(data), tree, index, data, off, |src|)
      ensures ok <==> |src| <= readable
      ensures Wrote(old(data), old(tree), data, tree, off, if ok then src else src[..readable])
    {
      var addr := Bmap(off / BSIZE);
      GrownSpared(old(tree), old(index), old(data), tree, index, data, PathOf(off / BSIZE));
      GrownBytes(old(addrs), old(tree), old(index), old(data), addrs, tree, index, data, off / BSIZE, off);
      ok := |src| <= readable;
      var part := if ok then src else src[..readable];
      ghost var d := data;
      StoreBytes(addrs, index, data, tree, off, part);
      data := data[addr := Overwrite(data[addr], off % BSIZE, part)];
      StoreSpared(tree, index, d, PathOf(off / BSIZE), data[addr]);
      SparedMore(old(tree), old(index), old(data), tree, index, d, tree, index, data);
      TookOne(old(tree), old(index), old(data), tree, index, data, off, |src|, off / BSIZE, addr);
      WroteMore(old(data), old(tree), d, tree, data, tree, off, [], part);
      assert [] + part == part;
    }

    /** WriteChunk as one step of writing src from off on. */
    method WriteNext(off: nat, src: seq<Byte>, readable: nat, tot: nat, m: nat, ghost t0: Tree, ghost i0: Index, ghost d0: Data)
      returns (ok: bool)
      requires Valid() && off + |src| <= MAXFILE * BSIZE && tot <= readable
      requires 0 < m && tot + m <= |src| && (off + tot) % BSIZE + m <= BSIZE
      requires Took(t0, i0, d0, tree, index, data, off, tot) && Wrote(d0, t0, data, tree, off, src[..tot])
      modifies `addrs, `index, `data, `tree
      ensures Valid() && (ok <==> tot + m <= readable)
      ensures Took(t0, i0, d0, tree, index, data, off, if ok then tot + m else tot + 1)
      ensures Wrote(d0, t0, data, tree, off, if ok then src[..tot + m] else src[..readable])
    {
      ghost var d, t, i := data, tree, index;
      var at, chunk := off + tot, src[tot..tot + m];
      ok := WriteChunk(at, chunk, readable - tot);
      TookMore(t0, i0, d0, t, i, d, tree, index, data, off, tot, at, |chunk|, if ok then tot + m else tot + 1);
      ghost var part := if ok then chunk else chunk[..readable - tot];
      WroteMore(d0, t0, d, t, data, tree, off, src[..tot], part);
      Slices(src, tot, m, if ok then m else readable - tot);
    }

    /** The loop of writei: tot bytes of src, whole blocks of it, or all of it that can be read. */
    method WriteLoop(off: nat, src: seq<Byte>, readable: nat) returns (tot: nat)
      requires Valid() && off + |src| <= MAXFILE * BSIZE
      modifies `addrs, `index, `data, `tree
      ensures Valid() && tot <= |src| && tot <= readable
      ensures tot < |src| ==> readable < |src| && readable - tot < BSIZE && (tot == 0 || (off + tot) % BSIZE == 0)
      ensures Took(old(tree), old(index), old(data), tree, index, data, off, if tot == |src| then tot else tot + 1)
      ensures Wrote(old(data), old(tree), data, tree, off, if tot == |src| then src else src[..readable])
    {
      tot := 0;
      var ok := true;
      ghost var reach: nat := 0;
      TookNone(tree, index, data, off);
      WroteNone(data, tree, off);
      while tot < |src| && ok
        invariant 0 <= tot <= |src| && tot <= readable && Valid()
        invariant tot == 0 || tot == |src| || (off + tot) % BSIZE == 0
        invariant !ok ==> tot < |src| && readable < |src| && readable - tot < BSIZE
        invariant reach == (if ok then tot else tot + 1) && Took(old(tree), old(index), old(data), tree, index, data, off, reach)
        invariant Wrote(old(data), old(tree), data, tree, off, if ok then src[..tot] else src[..readable])
        decreases |src| - tot, ok
      {
        var m := if |src| - tot < BSIZE - (off + tot) % BSIZE then |src| - tot else BSIZE - (off + tot) % BSIZE;
        ChunkFits(off + tot, |src| - tot, m);
        ok := WriteNext(off, src, readable, tot, m, old(tree), old(index), old(data));
        reach := if ok then tot + m else tot + 1;
        if ok {
          tot := tot + m;
        }
      }
      assert tot == |src| ==> src[..tot] == src;
    }

    /**
     writei with the n bytes of src, of which the first `readable` can be fetched.  Bytes off, off + 1, ...
     are replaced as far as src is readable; the size grows to cover the whole blocks that were written.
     */
    method Writei(off: nat, src: seq<Byte>, readable: nat) returns (r: int)
      requires Valid() && size < UINT && off < UINT && |src| < UINT
      modifies this
      ensures Valid()
      ensures (r == -1) <==> off > old(size) || off + |src| >= UINT || off + |src| > MAXFILE * BSIZE
      ensures r == -1 ==> size == old(size) && Contents() == old(Contents())
      ensures Took(old(tree), old(index), old(data), tree, index, data, off, if r < 0 then 0 else if r == |src| then r else r + 1)
      ensures r != -1 ==> 0 <= r <= |src| && r <= readable && size == (if off + r > old(size) then off + r else old(size))
      ensures r != -1 && r < |src| ==> readable < |src| && readable - r < BSIZE && (r == 0 || (off + r) % BSIZE == 0)
      ensures r != -1 ==> Wrote(old(data), old(tree), data, tree, off, if r == |src| then src else src[..readable])
      ensures r == |src| ==> Contents() == Splice(old(Contents()), off, src)
    {
      TookNone(tree, index, data, off);
      if off > size || (off + |src|) % UINT < off {
        return -1;
      }
      if off + |src| > MAXFILE * BSIZE {
        return -1;
      }
      var tot := WriteLoop(off, src, readable);
      if off + tot > size {
        size := off + tot;
      }
      if tot == |src| {
        WroteContents(old(data), old(tree), data, tree, old(size), off, src);
      }
      r := tot;
    }
  }
}
