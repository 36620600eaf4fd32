/**
 The index tree of an ext2 inode, kernel/fs.h and bmap of kernel/fs.c: which slot holds the number of
 which block, and what adding and removing one block does to the whole tree.
 */
module BlockTree {
  import opened Bytes
  import opened Kernel

  const BSIZE := 1024
  const NDIRECT := 12                    // EXT2_NDIRECT
  const NINDIRECT := 256                 // EXT2_NINDIRECT
  const MAXBLOCKS := 12 + 256 + 256 * 256 + 256 * 256 * 256  // EXT2_MAXFILE

  /** The entries to go through from ip->addrs to a block: [5], [12, b], [13, i, j], [14, i, j, k] and their prefixes. */
  type Path = seq<nat>

  type Tree = map<Path, nat>
  type Index = map<nat, seq<nat>>        // the blocks that hold block numbers
  type Data = map<nat, seq<Byte>>        // the blocks that hold file data

  /** The length of the paths that start with entry i of ip->addrs. */
  function Depth(i: nat): nat {
    if i < NDIRECT then 1 else i - 10
  }

  predicate IsPath(p: Path) {
    1 <= |p| && p[0] < 15 && |p| <= Depth(p[0]) && forall i :: 1 <= i < |p| ==> p[i] < NINDIRECT
  }

  /** The path leads to a data block, not to an index block. */
  predicate IsData(p: Path) {
    |p| > 0 && |p| == Depth(p[0])
  }

  function Up(p: Path): Path
    requires p != []
  {
    p[..|p| - 1]
  }

  function Last(p: Path): nat
    requires p != []
  {
    p[|p| - 1]
  }

  /** Where bmap goes for block bn of the file. */
  function PathOf(bn: nat): Path {
    if bn < NDIRECT then [bn] else
    var b := bn - NDIRECT;
    if b < 256 then [12, b] else
    var c := b - 256;
    if c < 0x1_0000 then [13, c / 256, c % 256] else
    var d := c - 0x1_0000;
    [14, d / 0x1_0000, d % 0x1_0000 / 256, d % 0x1_0000 % 256]
  }

  function BlockAt(p: Path): nat {
    if |p| == 1 then p[0]
    else if |p| == 2 then 12 + p[1]
    else if |p| == 3 then 12 + 256 + 256 * p[1] + p[2]
    else if |p| == 4 then 12 + 256 + 0x1_0000 + 0x1_0000 * p[1] + 256 * p[2] + p[3]
    else 0
  }

  /** The paths to data blocks are the block numbers of the file, one for one. */
  lemma PathRoundTrip(bn: nat)
    requires bn < MAXBLOCKS
    ensures IsPath(PathOf(bn)) && IsData(PathOf(bn)) && BlockAt(PathOf(bn)) == bn
  {
  }

  lemma BlockRoundTrip(p: Path)
    requires IsPath(p) && IsData(p)
    ensures BlockAt(p) < MAXBLOCKS && PathOf(BlockAt(p)) == p
  {
    if |p| == 4 {
      assert p == [p[0], p[1], p[2], p[3]];
      var d := 0x1_0000 * p[1] + 256 * p[2] + p[3];
      assert d / 0x1_0000 == p[1] && d % 0x1_0000 == 256 * p[2] + p[3];
    } else if |p| == 3 {
      assert p == [p[0], p[1], p[2]];
    } else if |p| == 2 {
      assert p == [p[0], p[1]];
    } else {
      assert p == [p[0]];
    }
  }

  /** What the slot of p holds; 0 where there is no such slot. */
  function Slot(addrs: seq<nat>, index: Index, t: Tree, p: Path): nat {
    if p == [] then 0
    else if |p| == 1 then if p[0] < |addrs| then addrs[p[0]] else 0
    else if Up(p) in t && t[Up(p)] in index && Last(p) < |index[t[Up(p)]]| then index[t[Up(p)]][Last(p)]
    else 0
  }

  /** t[p] is the block at p: the slot of p and the kind of the block say so. */
  ghost predicate Node(addrs: seq<nat>, index: Index, data: Data, t: Tree, p: Path) {
    && (p in t ==>
          && IsPath(p) && t[p] != 0 && (|p| > 1 ==> Up(p) in t)
          && (IsData(p) ==> t[p] in data) && (!IsData(p) ==> t[p] in index))
    && (IsPath(p) ==> Slot(addrs, index, t, p) == if p in t then t[p] else 0)
  }

  /** Every index and data block is its own: t is one-to-one, and the two kinds of blocks do not meet. */
  ghost predicate Apart(index: Index, data: Data, t: Tree) {
    && (forall p, q :: p in t && q in t && t[p] == t[q] ==> p == q)
    && (forall b :: b in index ==> |index[b]| == NINDIRECT && b !in data)
    && (forall b :: b in data ==> |data[b]| == BSIZE)
  }

  ghost predicate Inv(addrs: seq<nat>, index: Index, data: Data, t: Tree) {
    && |addrs| == 15
    && (forall p: Path :: Node(addrs, index, data, t, p))
    && (forall key: bool :: ApartParts(key, index, data, t))
  }

  /** The key keeps Apart from unfolding except where a proof names it. */
  ghost predicate ApartParts(key: bool, index: Index, data: Data, t: Tree) {
    Apart(index, data, t)
  }

  // ----- one block more -----

  function NoBlocks(): seq<nat> {
    seq(NINDIRECT, i => 0)
  }

  function Zeros(): seq<Byte> {
    seq(BSIZE, i => 0)
  }

  function NewIndex(index: Index, p: Path, b: nat): Index {
    if IsData(p) then index else index[b := NoBlocks()]
  }

  function NewData(data: Data, p: Path, b: nat): Data {
    if IsData(p) then data[b := Zeros()] else data
  }

  ghost predicate Fresh(index: Index, data: Data, t: Tree, p: Path, b: nat) {
    b != 0 && b !in index && b !in data && IsPath(p) && p !in t && (|p| > 1 ==> Up(p) in t)
  }

  /** Different paths have different slots. */
  lemma Differ(p: Path, q: Path)
    requires |p| == |q| > 0 && p != q
    ensures |p| == 1 ==> p[0] != q[0]
    ensures |p| > 1 ==> Up(p) != Up(q) || Last(p) != Last(q)
  {
    assert p == Up(p) + [Last(p)] && q == Up(q) + [Last(q)];
  }

  /** ip->addrs and the index blocks with b stored in the slot of p. */
  function PutAddrs(addrs: seq<nat>, p: Path, b: nat): seq<nat> {
    if |p| == 1 && p[0] < |addrs| then SetAt(addrs, p[0], b) else addrs
  }

  function PutIndex(index: Index, t: Tree, p: Path, b: nat): Index {
    if |p| > 1 && Up(p) in t && t[Up(p)] in index && Last(p) < |index[t[Up(p)]]|
    then index[t[Up(p)] := SetAt(index[t[Up(p)]], Last(p), b)] else index
  }

  lemma AddApart(index: Index, data: Data, t: Tree, p: Path, b: nat)
    requires Apart(index, data, t) && b !in index && b !in data
    requires forall q :: q in t ==> t[q] in index || t[q] in data
    ensures Apart(PutIndex(NewIndex(index, p, b), t, p, b), NewData(data, p, b), t[p := b])
  {
  }

  lemma AddNode(addrs: seq<nat>, index: Index, data: Data, t: Tree, p: Path, b: nat, q: Path)
    requires Inv(addrs, index, data, t) && Fresh(index, data, t, p, b)
    ensures Node(PutAddrs(addrs, p, b), PutIndex(NewIndex(index, p, b), t, p, b), NewData(data, p, b), t[p := b], q)
  {
    if q == p {
      AddHere(addrs, index, data, t, p, b);
    } else {
      AddElsewhere(addrs, index, data, t, p, b, q);
    }
  }

  lemma AddHere(addrs: seq<nat>, index: Index, data: Data, t: Tree, p: Path, b: nat)
    requires Inv(addrs, index, data, t) && Fresh(index, data, t, p, b)
    ensures Node(PutAddrs(addrs, p, b), PutIndex(NewIndex(index, p, b), t, p, b), NewData(data, p, b), t[p := b], p)
  {
    assert ApartParts(true, index, data, t);
    assert Node(addrs, index, data, t, p);
    if |p| > 1 {
      assert Node(addrs, index, data, t, Up(p));
    }
  }

  lemma AddElsewhere(addrs: seq<nat>, index: Index, data: Data, t: Tree, p: Path, b: nat, q: Path)
    requires Inv(addrs, index, data, t) && Fresh(index, data, t, p, b) && q != p
    ensures Node(PutAddrs(addrs, p, b), PutIndex(NewIndex(index, p, b), t, p, b), NewData(data, p, b), t[p := b], q)
  {
    assert ApartParts(true, index, data, t);
    assert Node(addrs, index, data, t, q);
    if |p| > 1 {
      assert Node(addrs, index, data, t, Up(p));
    }
    if |q| > 1 {
      assert Node(addrs, index, data, t, Up(q));
    }
    if |p| == |q| {
      Differ(p, q);
    }
  }

  lemma AddKeeps(addrs: seq<nat>, index: Index, data: Data, t: Tree, p: Path, b: nat)
    requires Inv(addrs, index, data, t) && Fresh(index, data, t, p, b)
    ensures Inv(PutAddrs(addrs, p, b), PutIndex(NewIndex(index, p, b), t, p, b), NewData(data, p, b), t[p := b])
  {
    assert ApartParts(true, index, data, t);
    forall q | q in t
      ensures t[q] in index || t[q] in data
    {
      assert Node(addrs, index, data, t, q);
    }
    AddApart(index, data, t, p, b);
    var a, i, d, u := PutAddrs(addrs, p, b), PutIndex(NewIndex(index, p, b), t, p, b), NewData(data, p, b), t[p := b];
    forall q: Path
      ensures Node(a, i, d, u, q)
    {
      AddNode(addrs, index, data, t, p, b, q);
    }
  }

  // ----- one block less -----

  ghost predicate Bare(t: Tree, p: Path) {
    p in t && forall q :: q in t && |q| > 1 ==> Up(q) != p
  }

  lemma CutNode(addrs: seq<nat>, index: Index, data: Data, t: Tree, p: Path, q: Path)
    requires Inv(addrs, index, data, t) && Bare(t, p)
    ensures Node(PutAddrs(addrs, p, 0), PutIndex(index - {t[p]}, t, p, 0), data - {t[p]}, t - {p}, q)
  {
    assert ApartParts(true, index, data, t);
    assert Node(addrs, index, data, t, p) && Node(addrs, index, data, t, q);
    if |p| > 1 {
      assert Node(addrs, index, data, t, Up(p));
    }
    if |q| > 1 {
      assert Node(addrs, index, data, t, Up(q));
    }
    if q != p && |p| == |q| {
      Differ(p, q);
    }
  }

  lemma CutApart(index: Index, data: Data, t: Tree, p: Path)
    requires Apart(index, data, t) && p in t
    ensures Apart(PutIndex(index - {t[p]}, t, p, 0), data - {t[p]}, t - {p})
  {
  }

  lemma CutKeeps(addrs: seq<nat>, index: Index, data: Data, t: Tree, p: Path)
    requires Inv(addrs, index, data, t) && Bare(t, p)
    ensures Inv(PutAddrs(addrs, p, 0), PutIndex(index - {t[p]}, t, p, 0), data - {t[p]}, t - {p})
  {
    assert ApartParts(true, index, data, t);
    CutApart(index, data, t, p);
    var a, i, d, u := PutAddrs(addrs, p, 0), PutIndex(index - {t[p]}, t, p, 0), data - {t[p]}, t - {p};
    forall q: Path
      ensures Node(a, i, d, u, q)
    {
      CutNode(addrs, index, data, t, p, q);
    }
  }

  /** Entry i of the index block at p is the slot of q = p + [i]. */
  lemma RowOf(addrs: seq<nat>, index: Index, data: Data, t: Tree, p: Path, i: nat, q: Path)
    requires Inv(addrs, index, data, t) && p in t && i < NINDIRECT && q == p + [i] && IsPath(q)
    ensures |q| > 1 && Up(q) == p && Last(q) == i
    ensures t[p] in index && |index[t[p]]| == NINDIRECT
    ensures index[t[p]][i] == (if q in t then t[q] else 0) && (q in t ==> t[q] != 0)
  {
    assert Node(addrs, index, data, t, p) && Node(addrs, index, data, t, q);
    assert Up(q) == p;
    assert ApartParts(true, index, data, t);
  }

  lemma PrefixIsPath(q: Path, path: Path)
    requires IsPath(path) && q != [] && q <= path
    ensures IsPath(q)
  {
  }

  // ----- what bmap may change -----

  ghost predicate Owned(t: Tree, b: nat) {
    exists q :: q in t && t[q] == b
  }

  /**
   From (t0, i0, d0) to (t, i, d) the tree has kept its blocks and may have gained fresh ones on the way
   to `path`: a new data block there holds zeros.  No data block and no index block of another tree has
   changed.
   */
  ghost predicate Grown(t0: Tree, i0: Index, d0: Data, t: Tree, i: Index, d: Data, path: Path) {
    forall key: bool :: GrownParts(key, t0, i0, d0, t, i, d, path)
  }

  /** The key keeps Grown from unfolding except where a proof names its parts. */
  ghost predicate GrownParts(key: bool, t0: Tree, i0: Index, d0: Data, t: Tree, i: Index, d: Data, path: Path) {
    && (forall q :: q in t0 ==> q in t && t[q] == t0[q])
    && (forall q :: q in t && q !in t0 ==> q <= path && t[q] !in i0 && t[q] !in d0)
    && (forall b :: b in d0 ==> b in d && d[b] == d0[b])
    && (forall b :: b in d && b !in d0 ==> path in t && path !in t0 && b == t[path] && d[b] == Zeros())
    && (forall b :: b in i0 ==> b in i && (i[b] == i0[b] || Owned(t0, b)))
    && (forall b :: b in i && b !in i0 ==> Owned(t, b))
  }

  lemma GrownNone(t: Tree, i: Index, d: Data, path: Path)
    ensures Grown(t, i, d, t, i, d, path)
  {
  }

  lemma GrownIndex(t0: Tree, i0: Index, t: Tree, i: Index, p: Path, b: nat)
    requires forall q :: q in t0 ==> q in t && t[q] == t0[q]
    requires forall q :: q in t && q !in t0 ==> t[q] !in i0
    requires forall c :: c in i0 ==> c in i && (i[c] == i0[c] || Owned(t0, c))
    requires forall c :: c in i && c !in i0 ==> Owned(t, c)
    requires b !in i && p !in t
    ensures
      var j := PutIndex(NewIndex(i, p, b), t, p, b);
      && (forall c :: c in i0 ==> c in j && (j[c] == i0[c] || Owned(t0, c)))
      && (forall c :: c in j && c !in i0 ==> Owned(t[p := b], c))
  {
    var j, u := PutIndex(NewIndex(i, p, b), t, p, b), t[p := b];
    assert u[p] == b;
    forall c | c in j && c !in i0
      ensures Owned(u, c)
    {
      if c != b {
        var q :| q in t && t[q] == c;
        assert u[q] == c;
      }
    }
  }

  lemma GrownAdd(t0: Tree, i0: Index, d0: Data, t: Tree, i: Index, d: Data, path: Path, p: Path, b: nat)
    requires Grown(t0, i0, d0, t, i, d, path) && IsPath(path) && p <= path && Fresh(i, d, t, p, b)
    ensures Grown(t0, i0, d0, t[p := b], PutIndex(NewIndex(i, p, b), t, p, b), NewData(d, p, b), path)
  {
    assert GrownParts(true, t0, i0, d0, t, i, d, path);
    GrownIndex(t0, i0, t, i, p, b);
    assert IsData(p) ==> p == path;
  }

  /** What the tree means: the disk block of every file block that has one. */
  ghost function FileMap(t: Tree): map<nat, nat> {
    map bn | 0 <= bn < MAXBLOCKS && PathOf(bn) in t :: t[PathOf(bn)]
  }

  lemma OnlyOneData(bn: nat, bm: nat)
    requires bn < MAXBLOCKS && bm < MAXBLOCKS && PathOf(bm) <= PathOf(bn)
    ensures bm == bn
  {
    PathRoundTrip(bn);
    PathRoundTrip(bm);
    assert PathOf(bm) == PathOf(bn);
  }

  /** bmap is insert-if-absent. */
  lemma GrownMap(t0: Tree, i0: Index, d0: Data, t: Tree, i: Index, d: Data, bn: nat)
    requires bn < MAXBLOCKS && Grown(t0, i0, d0, t, i, d, PathOf(bn)) && PathOf(bn) in t
    ensures FileMap(t) == FileMap(t0)[bn := t[PathOf(bn)]]
    ensures bn in FileMap(t0) ==> FileMap(t0)[bn] == t[PathOf(bn)]
    ensures bn !in FileMap(t0) ==> t[PathOf(bn)] !in i0 && t[PathOf(bn)] !in d0
  {
    assert GrownParts(true, t0, i0, d0, t, i, d, PathOf(bn));
    forall bm | 0 <= bm < MAXBLOCKS && PathOf(bm) in t && PathOf(bm) !in t0
      ensures bm == bn
    {
      OnlyOneData(bn, bm);
    }
  }

  // ----- the bytes of the file -----

  /** The byte at offset x; a missing block reads as zeros. */
  ghost function ByteAt(d: Data, t: Tree, x: nat): Byte {
    var p := PathOf(x / BSIZE);
    if p in t && t[p] in d && |d[t[p]]| == BSIZE then d[t[p]][x % BSIZE] else 0
  }

  /** From (d, t) to (e, u) just the bytes from off on have changed, to src. */
  ghost predicate Wrote(d: Data, t: Tree, e: Data, u: Tree, off: nat, src: seq<Byte>) {
    forall x: nat :: x < MAXBLOCKS * BSIZE ==> WroteAt(d, t, e, u, off, src, x)
  }

  ghost predicate WroteAt(d: Data, t: Tree, e: Data, u: Tree, off: nat, src: seq<Byte>, x: nat) {
    ByteAt(e, u, x) == if off <= x < off + |src| then src[x - off] else ByteAt(d, t, x)
  }

  lemma WroteNone(d: Data, t: Tree, off: nat)
    ensures Wrote(d, t, d, t, off, [])
  {
  }

  lemma WroteMore(d: Data, t: Tree, e: Data, u: Tree, f: Data, v: Tree, off: nat, src: seq<Byte>, more: seq<Byte>)
    requires Wrote(d, t, e, u, off, src) && Wrote(e, u, f, v, off + |src|, more)
    ensures Wrote(d, t, f, v, off, src + more)
  {
    forall x: nat | x < MAXBLOCKS * BSIZE
      ensures WroteAt(d, t, f, v, off, src + more, x)
    {
      assert WroteAt(d, t, e, u, off, src, x) && WroteAt(e, u, f, v, off + |src|, more, x);
    }
  }

  lemma WroteNothing(d: Data, t: Tree, e: Data, u: Tree, f: Data, v: Tree, off: nat)
    requires Wrote(d, t, e, u, off, []) && Wrote(e, u, f, v, off, [])
    ensures Wrote(d, t, f, v, off, [])
  {
    forall x: nat | x < MAXBLOCKS * BSIZE
      ensures WroteAt(d, t, f, v, off, [], x)
    {
      assert WroteAt(d, t, e, u, off, [], x) && WroteAt(e, u, f, v, off, [], x);
    }
  }

  /** bmap changes no byte of the file: a new block reads as the hole did. */
  lemma GrownBytes(a0: seq<nat>, t0: Tree, i0: Index, d0: Data, a: seq<nat>, t: Tree, i: Index, d: Data, bn: nat, off: nat)
    requires bn < MAXBLOCKS && Inv(a0, i0, d0, t0) && Inv(a, i, d, t)
    requires Grown(t0, i0, d0, t, i, d, PathOf(bn)) && PathOf(bn) in t
    ensures Wrote(d0, t0, d, t, off, [])
  {
    assert GrownParts(true, t0, i0, d0, t, i, d, PathOf(bn)) && ApartParts(true, i0, d0, t0);
    forall x: nat | x < MAXBLOCKS * BSIZE
      ensures WroteAt(d0, t0, d, t, off, [], x)
    {
      var bm := x / BSIZE;
      PathRoundTrip(bm);
      assert Node(a0, i0, d0, t0, PathOf(bm)) && Node(a, i, d, t, PathOf(bm));
      if PathOf(bm) in t && PathOf(bm) !in t0 {
        OnlyOneData(bn, bm);
      }
    }
  }

  /** One memmove of writei, within the block at PathOf(off / BSIZE). */
  lemma StoreBytes(addrs: seq<nat>, i: Index, d: Data, t: Tree, off: nat, src: seq<Byte>)
    requires Inv(addrs, i, d, t) && off / BSIZE < MAXBLOCKS && PathOf(off / BSIZE) in t && off % BSIZE + |src| <= BSIZE
    ensures
      var b := t[PathOf(off / BSIZE)];
      b in d && |d[b]| == BSIZE &&
      var e := d[b := Overwrite(d[b], off % BSIZE, src)];
      Inv(addrs, i, e, t) && Wrote(d, t, e, t, off, src)
  {
    var p := PathOf(off / BSIZE);
    PathRoundTrip(off / BSIZE);
    assert ApartParts(true, i, d, t) && Node(addrs, i, d, t, p);
    var e := d[t[p] := Overwrite(d[t[p]], off % BSIZE, src)];
    forall q: Path
      ensures Node(addrs, i, e, t, q)
    {
      assert Node(addrs, i, d, t, q);
    }
    forall x: nat | x < MAXBLOCKS * BSIZE
      ensures WroteAt(d, t, e, t, off, src, x)
    {
      SameBlock(off, x);
      if PathOf(x / BSIZE) in t && x / BSIZE != off / BSIZE {
        PathRoundTrip(x / BSIZE);
        assert t[PathOf(x / BSIZE)] != t[p];
      }
    }
  }

  lemma SameBlock(off: nat, x: nat)
    ensures off / BSIZE == x / BSIZE ==> x % BSIZE - off % BSIZE == x - off
    ensures off <= x && off % BSIZE + (x - off) < BSIZE ==> off / BSIZE == x / BSIZE
  {
  }

  /** A byte of the block that holds off, where it is on disk. */
  lemma BlockByte(addrs: seq<nat>, i: Index, d: Data, t: Tree, off: nat, k: nat)
    requires Inv(addrs, i, d, t) && off / BSIZE < MAXBLOCKS && PathOf(off / BSIZE) in t && off % BSIZE + k < BSIZE
    ensures
      var b := t[PathOf(off / BSIZE)];
      b in d && |d[b]| == BSIZE && ByteAt(d, t, off + k) == d[b][off % BSIZE + k]
  {
    PathRoundTrip(off / BSIZE);
    assert ApartParts(true, i, d, t) && Node(addrs, i, d, t, PathOf(off / BSIZE));
    SameBlock(off, off + k);
  }

  /** The first n bytes of the file. */
  ghost function FileBytes(d: Data, t: Tree, n: nat): (s: seq<Byte>)
    ensures |s| == n
  {
    seq(n, x requires 0 <= x => ByteAt(d, t, x))
  }

  /** dst is what the file holds from off on. */
  ghost predicate IsSlice(d: Data, t: Tree, off: nat, dst: seq<Byte>) {
    forall k :: 0 <= k < |dst| ==> dst[k] == ByteAt(d, t, off + k)
  }

  lemma SliceMore(d: Data, t: Tree, e: Data, u: Tree, off: nat, dst: seq<Byte>, got: seq<Byte>)
    requires IsSlice(d, t, off, dst) && IsSlice(e, u, off + |dst|, got) && Wrote(d, t, e, u, 0, [])
    requires off + |dst| + |got| <= MAXBLOCKS * BSIZE
    ensures IsSlice(d, t, off, dst + got)
  {
    forall k | 0 <= k < |got|
      ensures got[k] == ByteAt(d, t, off + (|dst| + k))
    {
      assert WroteAt(d, t, e, u, 0, [], off + |dst| + k);
    }
  }

  lemma SliceOf(d: Data, t: Tree, n: nat, off: nat, dst: seq<Byte>)
    requires off + |dst| <= n && IsSlice(d, t, off, dst)
    ensures dst == FileBytes(d, t, n)[off..off + |dst|]
  {
  }

  /** src in place of the bytes from off on, and beyond the end if it is longer. */
  function Splice(s: seq<Byte>, off: nat, src: seq<Byte>): seq<Byte>
    requires off <= |s|
  {
    s[..off] + src + if off + |src| < |s| then s[off + |src|..] else []
  }

  lemma WroteContents(d: Data, t: Tree, e: Data, u: Tree, n: nat, off: nat, src: seq<Byte>)
    requires Wrote(d, t, e, u, off, src) && off <= n && n <= MAXBLOCKS * BSIZE && off + |src| <= MAXBLOCKS * BSIZE
    ensures
      var m := if off + |src| > n then off + |src| else n;
      FileBytes(e, u, m) == Splice(FileBytes(d, t, n), off, src)
  {
    var m := if off + |src| > n then off + |src| else n;
    var s, r := FileBytes(d, t, n), FileBytes(e, u, m);
    forall x: nat | x < m
      ensures r[x] == Splice(s, off, src)[x]
    {
      assert WroteAt(d, t, e, u, off, src, x);
    }
  }

  /**
   This file has kept its blocks and may have taken fresh ones, which are the only new blocks in use; no block of
   another file has changed.
   */
  ghost predicate Spared(t0: Tree, i0: Index, d0: Data, t: Tree, i: Index, d: Data) {
    forall key: bool :: SparedParts(key, t0, i0, d0, t, i, d)
  }

  /** The key keeps Spared from unfolding except where a proof names its parts. */
  ghost predicate SparedParts(key: bool, t0: Tree, i0: Index, d0: Data, t: Tree, i: Index, d: Data) {
    && (forall q :: q in t0 ==> q in t && t[q] == t0[q])
    && (forall q :: q in t && q !in t0 ==> t[q] !in i0 && t[q] !in d0)
    && (forall b :: b in d0 ==> b in d && (d[b] == d0[b] || Owned(t0, b)))
    && (forall b :: b in i0 ==> b in i && (i[b] == i0[b] || Owned(t0, b)))
    && (forall b :: (b in d && b !in d0) || (b in i && b !in i0) ==> Owned(t, b))
  }

  lemma SparedNone(t: Tree, i: Index, d: Data)
    ensures Spared(t, i, d, t, i, d)
  {
  }

  lemma SparedMore(t0: Tree, i0: Index, d0: Data, t: Tree, i: Index, d: Data, u: Tree, j: Index, e: Data)
    requires Spared(t0, i0, d0, t, i, d) && Spared(t, i, d, u, j, e)
    ensures Spared(t0, i0, d0, u, j, e)
  {
    assert SparedParts(true, t0, i0, d0, t, i, d) && SparedParts(true, t, i, d, u, j, e);
    forall b | Owned(t, b) && (b in i0 || b in d0)
      ensures Owned(t0, b)
    {
      var q :| q in t && t[q] == b;
      assert q in t0 && t0[q] == b;
    }
    forall b | Owned(t, b)
      ensures Owned(u, b)
    {
      var q :| q in t && t[q] == b;
      assert q in u && u[q] == b;
    }
  }

  lemma GrownSpared(t0: Tree, i0: Index, d0: Data, t: Tree, i: Index, d: Data, path: Path)
    requires Grown(t0, i0, d0, t, i, d, path)
    ensures Spared(t0, i0, d0, t, i, d)
  {
    assert GrownParts(true, t0, i0, d0, t, i, d, path);
  }

  lemma StoreSpared(t: Tree, i: Index, d: Data, p: Path, block: seq<Byte>)
    requires p in t && t[p] in d
    ensures Spared(t, i, d, t, i, d[t[p] := block])
  {
    assert Owned(t, t[p]);
  }

  /** The blocks that hold the n bytes from off on. */
  function Touched(off: nat, n: nat): set<nat> {
    if n == 0 then {} else Touched(off, n - 1) + {(off + n - 1) / BSIZE}
  }

  lemma {:induction false} TouchedMore(off: nat, n: nat, m: nat)
    requires m > 0 && (off + n) % BSIZE + m <= BSIZE
    ensures Touched(off, n + m) == Touched(off, n) + {(off + n) / BSIZE}
  {
    if m > 1 {
      TouchedMore(off, n, m - 1);
      assert (off + n + m - 1) / BSIZE == (off + n) / BSIZE;
    }
  }

  /** Of the n bytes from off on the file has got the blocks that it lacked, and no more. */
  ghost predicate Took(t0: Tree, i0: Index, d0: Data, t: Tree, i: Index, d: Data, off: nat, n: nat) {
    forall key: bool :: TookParts(key, t0, i0, d0, t, i, d, off, n)
  }

  /** The key keeps Took from unfolding except where a proof names its parts. */
  ghost predicate TookParts(key: bool, t0: Tree, i0: Index, d0: Data, t: Tree, i: Index, d: Data, off: nat, n: nat) {
    Spared(t0, i0, d0, t, i, d) && FileMap(t).Keys == FileMap(t0).Keys + Touched(off, n)
  }

  lemma TookNone(t: Tree, i: Index, d: Data, off: nat)
    ensures Took(t, i, d, t, i, d, off, 0)
  {
    SparedNone(t, i, d);
  }

  lemma TookOne(t0: Tree, i0: Index, d0: Data, t: Tree, i: Index, d: Data, off: nat, m: nat, bn: nat, addr: nat)
    requires Spared(t0, i0, d0, t, i, d) && FileMap(t) == FileMap(t0)[bn := addr]
    requires bn == off / BSIZE && m > 0 && off % BSIZE + m <= BSIZE
    ensures Took(t0, i0, d0, t, i, d, off, m)
  {
    OneBlock(off, m);
    KeysWith(FileMap(t0), FileMap(t), bn, addr);
  }

  lemma OneBlock(off: nat, m: nat)
    requires m > 0 && off % BSIZE + m <= BSIZE
    ensures Touched(off, m) == {off / BSIZE}
  {
    TouchedMore(off, 0, m);
  }

  lemma KeysWith(f: map<nat, nat>, g: map<nat, nat>, k: nat, v: nat)
    requires g == f[k := v]
    ensures g.Keys == f.Keys + {k}
  {
  }

  /** The next m bytes, all in one block; any of them counts for the block. */
  lemma TookMore(t0: Tree, i0: Index, d0: Data, t: Tree, i: Index, d: Data, u: Tree, j: Index, e: Data, off: nat, n: nat,
                 at: nat, m: nat, to: nat)
    requires at == off + n && Took(t0, i0, d0, t, i, d, off, n) && Took(t, i, d, u, j, e, at, m)
    requires n < to <= n + m && at % BSIZE + m <= BSIZE
    ensures Took(t0, i0, d0, u, j, e, off, to)
  {
    assert TookParts(true, t0, i0, d0, t, i, d, off, n) && TookParts(true, t, i, d, u, j, e, at, m);
    SparedMore(t0, i0, d0, t, i, d, u, j, e);
    TouchedMore(off, n, to - n);
    OneBlock(at, m);
  }

  // ----- what itrunc may change -----

  ghost predicate Lost(t0: Tree, t: Tree, b: nat) {
    exists q :: q in t0 && q !in t && t0[q] == b
  }

  /** From (t0, i0, d0) to (t, i, d) the tree has only lost blocks, and just those are no longer in use. */
  ghost predicate Trimmed(t0: Tree, i0: Index, d0: Data, t: Tree, i: Index, d: Data) {
    forall key: bool :: TrimmedParts(key, t0, i0, d0, t, i, d)
  }

  /** The key keeps Trimmed from unfolding except where a proof names its parts. */
  ghost predicate TrimmedParts(key: bool, t0: Tree, i0: Index, d0: Data, t: Tree, i: Index, d: Data) {
    && (forall q :: q in t ==> q in t0 && t[q] == t0[q])
    && (forall q :: q in t0 && q !in t ==> t0[q] !in i && t0[q] !in d)
    && (forall b :: b in d ==> b in d0 && d[b] == d0[b])
    && (forall b :: b in d0 ==> b in d || Lost(t0, t, b))
    && (forall b :: b in i ==> b in i0 && (i[b] == i0[b] || Owned(t0, b)))
    && (forall b :: b in i0 ==> b in i || Lost(t0, t, b))
  }

  lemma TrimmedNone(t: Tree, i: Index, d: Data)
    ensures Trimmed(t, i, d, t, i, d)
  {
  }

  lemma LostMore(t0: Tree, t: Tree, p: Path, b: nat)
    requires Lost(t0, t, b)
    ensures Lost(t0, t - {p}, b)
  {
    var q :| q in t0 && q !in t && t0[q] == b;
    assert q !in t - {p};
  }

  lemma TrimmedCut(t0: Tree, i0: Index, d0: Data, t: Tree, i: Index, d: Data, p: Path)
    requires Trimmed(t0, i0, d0, t, i, d) && p in t && (|p| > 1 ==> Up(p) in t)
    ensures Trimmed(t0, i0, d0, t - {p}, PutIndex(i - {t[p]}, t, p, 0), d - {t[p]})
  {
    assert TrimmedParts(true, t0, i0, d0, t, i, d);
    var b, u := t[p], t - {p};
    assert p in t0 && p !in u && Lost(t0, u, b);
    assert |p| > 1 ==> Owned(t0, t[Up(p)]);
    forall c | Lost(t0, t, c)
      ensures Lost(t0, u, c)
    {
      LostMore(t0, t, p, c);
    }
  }

  /** Below p, the entries before k are gone; the rest of t0 is still there. */
  ghost predicate Cleared(t0: Tree, t: Tree, p: Path, k: nat) {
    forall q :: q in t0 ==> (q in t <==> !(p < q && q[|p|] < k))
  }

  /** After itrunc just the blocks of the tree have gone. */
  lemma TrimmedAll(t0: Tree, i0: Index, d0: Data, i: Index, d: Data)
    requires Trimmed(t0, i0, d0, map[], i, d)
    ensures d == d0 - t0.Values && i.Keys == i0.Keys - t0.Values
    ensures forall b :: b in i ==> i[b] == i0[b]
  {
    assert TrimmedParts(true, t0, i0, d0, map[], i, d);
    assert forall b :: b in t0.Values <==> Lost(t0, map[], b);
  }

  /** With a block the whole way to it is in the tree. */
  lemma {:induction false} WayIn(addrs: seq<nat>, index: Index, data: Data, t: Tree, q: Path, n: nat)
    requires Inv(addrs, index, data, t) && q in t && 1 <= n <= |q|
    ensures q[..n] in t
    decreases |q|
  {
    assert Node(addrs, index, data, t, q);
    if n < |q| {
      WayIn(addrs, index, data, t, Up(q), n);
      assert Up(q)[..n] == q[..n];
    } else {
      assert q[..n] == q;
    }
  }

  ghost predicate Part(t: Tree, u: Tree) {
    forall r :: r in u ==> r in t && u[r] == t[r]
  }

  /** Just the block at q and those below it have gone. */
  ghost predicate CutOff(t: Tree, u: Tree, q: Path) {
    && (forall r :: r in u ==> r in t)
    && (forall r :: r in t ==> (r in u <==> !(q <= r)))
  }

  lemma Below(p: Path, k: nat, r: Path)
    ensures p + [k] <= r <==> p < r && r[|p|] == k
  {
    if p < r && r[|p|] == k {
      assert r[..|p| + 1] == p + [k];
    }
  }

  lemma ClearedStep(t0: Tree, t: Tree, u: Tree, p: Path, k: nat)
    requires Cleared(t0, t, p, k) && (forall r :: r in t ==> r in t0) && CutOff(t, u, p + [k])
    ensures Cleared(t0, u, p, k + 1)
  {
    forall q | q in t0
      ensures q in u <==> !(p < q && q[|p|] < k + 1)
    {
      Below(p, k, q);
    }
  }

  /** An entry that is 0 has nothing below it. */
  lemma NothingBelow(addrs: seq<nat>, index: Index, data: Data, t: Tree, q: Path)
    requires Inv(addrs, index, data, t) && q != [] && q !in t
    ensures CutOff(t, t, q)
  {
    forall r | r in t
      ensures !(q <= r)
    {
      if q <= r {
        assert r[..|q|] == q;
        WayIn(addrs, index, data, t, r, |q|);
      }
    }
  }

  /** Once everything below q has gone, q can go too, and then q is cut off. */
  lemma ThenBare(addrs: seq<nat>, index: Index, data: Data, t: Tree, u: Tree, q: Path)
    requires Inv(addrs, index, data, u) && q in u && Cleared(t, u, q, NINDIRECT) && forall r :: r in u ==> r in t
    ensures Bare(u, q) && CutOff(t, u - {q}, q)
  {
    forall r | r in u
      ensures !(q < r)
    {
      assert Node(addrs, index, data, u, r) && r in t;
    }
    forall r | r in u && |r| > 1
      ensures Up(r) != q
    {
      assert Up(r) < r;
    }
    forall r | r in t
      ensures q <= r <==> q < r || q == r
    {
      if q <= r && |q| == |r| {
        assert q == r;
      }
    }
  }

  lemma DataIsBare(addrs: seq<nat>, index: Index, data: Data, t: Tree, q: Path)
    requires Inv(addrs, index, data, t) && q in t && IsData(q)
    ensures Bare(t, q) && CutOff(t, t - {q}, q)
  {
    forall r | r in t
      ensures q <= r <==> q == r
      ensures |r| > 1 ==> Up(r) != q
    {
      assert Node(addrs, index, data, t, r);
      if q <= r {
        assert q[0] == r[0] && |r| <= |q|;
        assert q == r;
      }
    }
  }

  /** Clearing below q leaves p above it and q itself. */
  lemma StillThere(t: Tree, u: Tree, p: Path, q: Path)
    requires p in t && q in t && |p| < |q| && Cleared(t, u, q, NINDIRECT)
    ensures p in u && q in u
  {
  }

  /** Only paths that start at entry i of ip->addrs or later are left. */
  ghost predicate Rest(t: Tree, i: nat) {
    forall r :: r in t && r != [] ==> r[0] >= i
  }

  lemma RestStep(t: Tree, u: Tree, i: nat)
    requires Rest(t, i) && CutOff(t, u, [i])
    ensures Rest(u, i + 1)
  {
  }

  lemma Nothing(addrs: seq<nat>, index: Index, data: Data, t: Tree)
    requires Inv(addrs, index, data, t) && Rest(t, 15)
    ensures t == map[] && addrs == seq(15, i => 0)
  {
    assert forall r :: Node(addrs, index, data, t, r) ==> r !in t;
    forall i | 0 <= i < 15
      ensures addrs[i] == 0
    {
      assert Node(addrs, index, data, t, [i]);
    }
  }
}
