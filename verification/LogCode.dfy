/**
 The log of kernel/log.c as code, with its loops: its methods issue exactly the block writes of the
 transition system, in the same order.
 */
module LogCode {
  import opened RedoLog

  /** The disk after the first k block writes of commit. */
  function CommitDisk(g: Geometry, d: Disk, lh: seq<int>, cache: map<int, Block>, k: nat): (r: Disk)
    requires g.Valid() && |d| == g.nblocks && Logged(g, lh) && Cached(lh, cache) && k <= 2 * |lh| + 2
    ensures |r| == |d|
  {
    if k == 0 then d else CommitWrite(g, CommitDisk(g, d, lh, cache, k - 1), lh, cache, k - 1)
  }

  /** The disk after the first k block writes of recover_from_log. */
  function RecoverDisk(g: Geometry, d: Disk, lh: seq<int>, k: nat): (r: Disk)
    requires g.Valid() && |d| == g.nblocks && Logged(g, lh) && k <= |lh| + 1
    ensures |r| == |d|
  {
    if k == 0 then d else RecoverWrite(g, RecoverDisk(g, d, lh, k - 1), lh, k - 1)
  }

  /** The disks after each of the first k block writes. */
  function CommitTrace(g: Geometry, d: Disk, lh: seq<int>, cache: map<int, Block>, k: nat): (t: seq<Disk>)
    requires g.Valid() && |d| == g.nblocks && Logged(g, lh) && Cached(lh, cache) && k <= 2 * |lh| + 2
    ensures |t| == k
  {
    if k == 0 then [] else CommitTrace(g, d, lh, cache, k - 1) + [CommitDisk(g, d, lh, cache, k)]
  }

  function RecoverTrace(g: Geometry, d: Disk, lh: seq<int>, k: nat): (t: seq<Disk>)
    requires g.Valid() && |d| == g.nblocks && Logged(g, lh) && k <= |lh| + 1
    ensures |t| == k
  {
    if k == 0 then [] else RecoverTrace(g, d, lh, k - 1) + [RecoverDisk(g, d, lh, k)]
  }

  lemma {:induction false} TailDisk(g: Geometry, d: Disk, lh: seq<int>, cache: map<int, Block>, i: nat)
    requires g.Valid() && |d| == g.nblocks && Logged(g, lh) && Cached(lh, cache) && i <= |lh| + 1
    ensures CommitDisk(g, d, lh, cache, |lh| + 1 + i) == RecoverDisk(g, CommitDisk(g, d, lh, cache, |lh| + 1), lh, i)
  {
    if i > 0 {
      TailDisk(g, d, lh, cache, i - 1);
    }
  }

  /** After its header write, commit goes on as recovery from that header would. */
  lemma {:induction false} CommitTail(g: Geometry, d: Disk, lh: seq<int>, cache: map<int, Block>, i: nat)
    requires g.Valid() && |d| == g.nblocks && Logged(g, lh) && Cached(lh, cache) && i <= |lh| + 1
    ensures
      var n := |lh| + 1;
      var mid := CommitDisk(g, d, lh, cache, n);
      && CommitDisk(g, d, lh, cache, n + i) == RecoverDisk(g, mid, lh, i)
      && CommitTrace(g, d, lh, cache, n + i) == CommitTrace(g, d, lh, cache, n) + RecoverTrace(g, mid, lh, i)
  {
    TailDisk(g, d, lh, cache, i);
    if i > 0 {
      CommitTail(g, d, lh, cache, i - 1);
    }
  }

  lemma EmptyHeader(g: Geometry, d: Disk)
    requires Recoverable(g, d) && Header(g, d) == []
    ensures HomeBlocks(g, d) == AfterRecovery(g, d)
  {
  }

  /** A power failure during recovery changes nothing, and recovery that ends is complete. */
  lemma {:induction false} RecoverPrefix(g: Geometry, d: Disk, k: nat)
    requires Recoverable(g, d) && k <= |Header(g, d)| + 1
    ensures
      var lh := Header(g, d);
      var r := RecoverDisk(g, d, lh, k);
      && Recoverable(g, r) && AfterRecovery(g, r) == AfterRecovery(g, d)
      && (k <= |lh| ==> Header(g, r) == lh && Installed(g, r, lh, k))
      && (k == |lh| + 1 ==> Header(g, r) == [] && HomeBlocks(g, r) == AfterRecovery(g, d))
  {
    if k > 0 {
      RecoverPrefix(g, d, k - 1);
      var lh := Header(g, d);
      var q := RecoverDisk(g, d, lh, k - 1);
      TailSame(g, q, lh, k - 1);
      if k == |lh| + 1 {
        EmptyHeader(g, RecoverDisk(g, d, lh, k));
      }
    }
  }

  lemma {:induction false} CopyPrefix(g: Geometry, d: Disk, lh: seq<int>, cache: map<int, Block>, k: nat)
    requires Recoverable(g, d) && Header(g, d) == [] && Logged(g, lh) && Cached(lh, cache) && k <= |lh|
    ensures
      var r := CommitDisk(g, d, lh, cache, k);
      && Recoverable(g, r) && Header(g, r) == [] && AfterRecovery(g, r) == AfterRecovery(g, d)
      && forall i :: 0 <= i < k ==> r[g.start + 1 + i] == cache[lh[i]]
  {
    if k > 0 {
      CopyPrefix(g, d, lh, cache, k - 1);
      var q := CommitDisk(g, d, lh, cache, k - 1);
      var r := CommitDisk(g, d, lh, cache, k);
      assert r[g.start] == q[g.start];
      assert AfterRecovery(g, r) == AfterRecovery(g, q);
    }
  }

  lemma {:induction false} HeadPrefix(g: Geometry, d: Disk, lh: seq<int>, cache: map<int, Block>)
    requires Recoverable(g, d) && Header(g, d) == [] && Logged(g, lh) && Cached(lh, cache)
    ensures
      var r := CommitDisk(g, d, lh, cache, |lh| + 1);
      Recoverable(g, r) && Header(g, r) == lh && AfterRecovery(g, r) == AfterRecovery(g, d) + cache
  {
    CopyPrefix(g, d, lh, cache, |lh|);
    var q := CommitDisk(g, d, lh, cache, |lh|);
    HeadCommits(g, q, lh, cache);
    assert CommitDisk(g, d, lh, cache, |lh| + 1) == WriteHead(g, q, lh);
  }

  /**
   A power failure during commit: recovery yields none of the transaction before its header write
   (CopyPrefix), and all of it from then on.
   */
  lemma InstallPrefix(g: Geometry, d: Disk, lh: seq<int>, cache: map<int, Block>, i: nat)
    requires Recoverable(g, d) && Header(g, d) == [] && Logged(g, lh) && Cached(lh, cache) && i <= |lh| + 1
    ensures
      var r := CommitDisk(g, d, lh, cache, |lh| + 1 + i);
      Recoverable(g, r) && AfterRecovery(g, r) == AfterRecovery(g, d) + cache
  {
    HeadPrefix(g, d, lh, cache);
    CommitTail(g, d, lh, cache, i);
    RecoverPrefix(g, CommitDisk(g, d, lh, cache, |lh| + 1), i);
  }

  class Log {
    const g: Geometry
    var outstanding: int
    var committing: bool
    var lh: seq<int>
    var cache: map<int, Block>    // the pinned buffers
    var disk: Disk
    ghost var writes: seq<Disk>   // the disk after each block write issued so far

    ghost predicate Typed()
      reads this
    {
      g.Valid() && |disk| == g.nblocks && Logged(g, lh) && forall b :: b in cache ==> g.Home(b)
    }

    ghost predicate Valid()
      reads this
    {
      Typed() && Cached(lh, cache)
    }

    /** bread(log.dev, b) */
    method ReadBlock(b: int) returns (v: Block)
      requires Typed() && 0 <= b < g.nblocks
      ensures v == if b in cache then cache[b] else disk[b]
    {
      v := if b in cache then cache[b] else disk[b];
    }

    /** bwrite */
    method WriteBlock(b: int, v: Block)
      requires Typed() && 0 <= b < g.nblocks
      modifies `disk, `writes
      ensures Typed() && disk == old(disk)[b := v] && writes == old(writes) + [disk]
    {
      disk := disk[b := v];
      writes := writes + [disk];
    }

    method StoreHead()
      requires Typed()
      modifies `disk, `writes
      ensures Typed() && disk == WriteHead(g, old(disk), lh) && writes == old(writes) + [disk]
    {
      var hb: seq<int> := disk[g.start];
      ghost var was := hb;
      hb := hb[0 := |lh|];
      for i := 0 to |lh|
        invariant |hb| == WORDS && hb[0] == |lh|
        invariant forall j :: 0 <= j < i ==> hb[1 + j] == lh[j]
        invariant forall j :: i < j < WORDS ==> hb[j] == was[j]
      {
        hb := hb[1 + i := lh[i]];
      }
      assert hb == [|lh|] + lh + was[1 + |lh|..];
      WriteBlock(g.start, hb);
    }

    method LoadHead() returns (read: seq<int>)
      requires g.Valid() && Recoverable(g, disk)
      ensures read == Header(g, disk)
    {
      var hb := disk[g.start];
      read := [];
      for i := 0 to hb[0]
        invariant read == hb[1..1 + i]
      {
        read := read + [hb[1 + i]];
      }
    }

    method WriteLog()
      requires Valid()
      modifies `disk, `writes
      ensures Valid()
      ensures disk == CommitDisk(g, old(disk), lh, cache, |lh|)
      ensures writes == old(writes) + CommitTrace(g, old(disk), lh, cache, |lh|)
    {
      for tail := 0 to |lh|
        invariant Valid() && disk == CommitDisk(g, old(disk), lh, cache, tail)
        invariant writes == old(writes) + CommitTrace(g, old(disk), lh, cache, tail)
      {
        var from := ReadBlock(lh[tail]);
        assert lh[tail] in cache;
        WriteBlock(g.start + tail + 1, from);
      }
    }

    method InstallTrans()
      requires Typed()
      modifies `disk, `writes
      ensures Typed()
      ensures disk == RecoverDisk(g, old(disk), lh, |lh|)
      ensures writes == old(writes) + RecoverTrace(g, old(disk), lh, |lh|)
    {
      for tail := 0 to |lh|
        invariant Typed() && disk == RecoverDisk(g, old(disk), lh, tail)
        invariant writes == old(writes) + RecoverTrace(g, old(disk), lh, tail)
      {
        var lbuf := ReadBlock(g.start + tail + 1);
        WriteBlock(lh[tail], lbuf);
      }
    }

    /** The block writes of commit, in order; nothing at all for an empty transaction. */
    method Commit()
      requires Valid()
      modifies `disk, `writes, `lh, `cache
      ensures Valid() && lh == [] && cache == map[]
      ensures
        var k := if old(lh) == [] then 0 else 2 * |old(lh)| + 2;
        && disk == CommitDisk(g, old(disk), old(lh), old(cache), k)
        && writes == old(writes) + CommitTrace(g, old(disk), old(lh), old(cache), k)
    {
      if |lh| > 0 {
        WriteLog();
        StoreHead();
        InstallAll(old(disk), old(writes));
      } else {
        forall b ensures b !in cache { assert b !in lh; }
        assert cache == map[];
      }
    }

    /** commit after its first write_head, for a transaction that began on disk d. */
    method InstallAll(ghost d: Disk, ghost w: seq<Disk>)
      requires Valid() && |d| == g.nblocks && |lh| > 0
      requires disk == CommitDisk(g, d, lh, cache, |lh| + 1) && writes == w + CommitTrace(g, d, lh, cache, |lh| + 1)
      modifies `disk, `writes, `lh, `cache
      ensures Valid() && lh == [] && cache == map[]
      ensures disk == CommitDisk(g, d, old(lh), old(cache), 2 * |old(lh)| + 2)
      ensures writes == w + CommitTrace(g, d, old(lh), old(cache), 2 * |old(lh)| + 2)
    {
      InstallTrans();
      CommitTail(g, d, lh, cache, |lh|);
      lh := [];
      cache := map[];
      StoreHead();
    }

    method RecoverFromLog()
      requires g.Valid() && Recoverable(g, disk) && cache == map[]
      modifies `disk, `writes, `lh
      ensures Valid() && lh == []
      ensures
        var h := Header(g, old(disk));
        && disk == RecoverDisk(g, old(disk), h, |h| + 1)
        && writes == old(writes) + RecoverTrace(g, old(disk), h, |h| + 1)
    {
      lh := LoadHead();
      InstallTrans();
      lh := [];
      StoreHead();
    }

    /** One pass of the loop of begin_op under log.lock; false when the caller goes to sleep. */
    method BeginOp() returns (admitted: bool)
      requires Valid()
      modifies `outstanding
      ensures admitted <==> !committing && |lh| + (old(outstanding) + 1) * MAXOPBLOCKS <= LOGSIZE
      ensures outstanding == old(outstanding) + if admitted then 1 else 0
    {
      if committing || |lh| + (outstanding + 1) * MAXOPBLOCKS > LOGSIZE {
        return false;
      }
      outstanding := outstanding + 1;
      return true;
    }

    /** The caller has put v into the buffer of block b. */
    method LogWrite(b: int, v: Block)
      requires Valid() && g.Home(b)
      requires |lh| < LOGSIZE && |lh| < g.size - 1 && outstanding >= 1
      modifies `lh, `cache
      ensures Valid()
      ensures lh == if b in old(lh) then old(lh) else old(lh) + [b]
      ensures cache == old(cache)[b := v]
    {
      var i := 0;
      while i < |lh| && lh[i] != b
        invariant 0 <= i <= |lh| && b !in lh[..i]
      {
        i := i + 1;
      }
      cache := cache[b := v];
      if i == |lh| {
        LoggedMore(g, lh, b);
        lh := lh + [b];
      } else {
        lh := lh[i := b];
        assert lh == old(lh);
      }
    }

    method EndOp()
      requires Valid() && outstanding >= 1 && !committing
      modifies this
      ensures Valid() && !committing && outstanding == old(outstanding) - 1
      ensures outstanding > 0 ==> lh == old(lh) && cache == old(cache) && disk == old(disk) && writes == old(writes)
      ensures outstanding == 0 ==> lh == [] && cache == map[]
      ensures outstanding == 0 ==>
        var k := if old(lh) == [] then 0 else 2 * |old(lh)| + 2;
        && disk == CommitDisk(g, old(disk), old(lh), old(cache), k)
        && writes == old(writes) + CommitTrace(g, old(disk), old(lh), old(cache), k)
    {
      outstanding := outstanding - 1;
      if outstanding == 0 {
        committing := true;
        Commit();
        committing := false;
      }
    }
  }
}
