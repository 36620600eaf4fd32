/**
 The buffer cache of kernel/bio.c.  Each method is one stretch of code under bcache.lock or under the
 buffer's sleep lock, so the calls in any order are the interleavings.
 */
module Bio {
  import opened Kernel
  import opened BufferList

  type Block = seq<int>

  datatype Buf = Buf(dev: nat, blockno: nat, valid: bool, refcnt: nat, locked: bool, data: Block)

  /** b holds block k of the device. */
  predicate Caches(b: Buf, dev: nat, k: nat) {
    b.dev == dev && b.blockno == k
  }

  /**
   One buffer: its references are those its users hold; while valid it has the latest contents; and only a
   changed buffer that someone still refers to may differ from the disk.
   */
  ghost predicate BufOk(b: Buf, dirty: bool, uses: nat, dev: nat, disk: seq<Block>, latest: seq<Block>) {
    && (b.dev == 0 || (b.dev == dev && b.blockno < |disk|)) && |latest| == |disk|
    && b.refcnt == uses && (b.locked ==> uses > 0) && (b.dev == 0 ==> uses == 0 && !b.valid)
    && (b.valid ==> b.data == latest[b.blockno])
    && (dirty ==> b.valid && uses > 0)
    && (b.dev == dev > 0 && !dirty ==> disk[b.blockno] == latest[b.blockno])
  }

  /** The list by decreasing time of the last release. */
  ghost predicate Recent(order: seq<nat>, stamp: seq<nat>) {
    && (forall i :: 0 <= i < |order| ==> order[i] < |stamp|)
    && (forall i, j :: 0 <= i < j < |order| ==> stamp[order[i]] > stamp[order[j]])
  }

  lemma Moved(order: seq<nat>, k: nat, b: nat, stamp: seq<nat>, clock: nat)
    requires k < |order| && order[k] == b && Recent(order, stamp) && forall c :: 0 <= c < |stamp| ==> stamp[c] < clock
    ensures forall c :: c in order ==> c in [b] + Without(order, k)
    ensures b < |stamp| && Recent([b] + Without(order, k), stamp[b := clock])
  {
    var l := Without(order, k);
    forall c | c in order
      ensures c in [b] + l
    {
      var i :| 0 <= i < |order| && order[i] == c;
      assert i < k ==> l[i] == c;
      assert i > k ==> l[i - 1] == c;
    }
    assert forall i :: 0 <= i < |l| ==> l[i] != b;
  }

  class Cache {
    const n: nat                         // NBUF; the list head is node n
    const dev: nat                       // the one device
    var next: Links
    var prev: Links
    var bufs: seq<Buf>
    var disk: seq<Block>
    ghost var order: seq<nat>            // the list, most recently used first
    ghost var latest: seq<Block>         // what every block was last changed to
    ghost var dirty: seq<bool>           // changed and not yet written
    ghost var users: multiset<nat>       // the references that callers hold, pins included
    ghost var stamp: seq<nat>            // when a brelse last dropped the last reference
    ghost var clock: nat

    ghost predicate Valid()
      reads this
    {
      && dev > 0 && |bufs| == |dirty| == |stamp| == |order| == n
      && Linked(n, order, next, prev) && Distinct(n, order)
      && (forall b: nat :: b < n ==> b in order && stamp[b] < clock)
      && Recent(order, stamp)
      && (forall b: nat :: b < n ==> BufOk(bufs[b], dirty[b], users[b], dev, disk, latest))
      && (forall b: nat, c: nat, k: nat ::
            b < n && c < n && Caches(bufs[b], dev, k) && Caches(bufs[c], dev, k) ==> b == c)
      && (forall k: nat :: k < |disk| && Clean(k) ==> disk[k] == latest[k])
    }

    /** No buffer holds block k. */
    ghost predicate Clean(k: nat)
      reads this
    {
      |latest| == |disk| && forall b: nat :: b < |bufs| ==> !Caches(bufs[b], dev, k)
    }

    /** binit: all buffers unused, the last one first on the list. */
    constructor (n: nat, dev: nat, disk: seq<Block>)
      requires dev > 0
      ensures Valid() && this.n == n && this.dev == dev && this.disk == disk == latest && users == multiset{}
    {
      this.n := n;
      this.dev := dev;
      this.disk := disk;
      latest := disk;
      next, prev := seq(n + 1, i => n), seq(n + 1, i => n);
      bufs := seq(n, i => Buf(0, 0, false, 0, false, []));
      order, dirty, users, stamp, clock := [], seq(n, i => false), multiset{}, seq(n, i => i), n;
      new;
      assert LinkAt(n, [], next, prev, 0);
      for b := 0 to n
        invariant |order| == b && |bufs| == |dirty| == |stamp| == n && bufs == seq(n, i => Buf(0, 0, false, 0, false, []))
        invariant Linked(n, order, next, prev) && Distinct(n, order)
        invariant forall i :: 0 <= i < b ==> order[i] == b - 1 - i
        invariant stamp == seq(n, i => i) && dirty == seq(n, i => false) && clock == n
        invariant this.disk == disk && latest == disk && users == multiset{}
      {
        PushFront(n, order, next, prev, b);
        PushFrontList(b);
        order := [b] + order;
      }
      forall b: nat | b < n
        ensures b in order
      {
        assert order[n - 1 - b] == b;
      }
    }

    /** The four assignments that put b at the front of the list. */
    method PushFrontList(b: nat)
      requires b < n && |next| == |prev| == n + 1 && next[n] <= n
      modifies `next, `prev
      ensures next == SetAt(SetAt(old(next), b, old(next[n])), n, b)
      ensures prev == SetAt(SetAt(old(prev), b, n), old(next[n]), b)
    {
      next := SetAt(next, b, next[n]);
      prev := SetAt(prev, b, n);
      prev := SetAt(prev, next[n], b);
      next := SetAt(next, n, b);
    }

    /** The scan of bget for a cached block, along next. */
    method Find(blk: nat) returns (b: nat)
      requires Valid()
      ensures b <= n && (b < n ==> Caches(bufs[b], dev, blk))
      ensures b == n ==> forall c: nat :: c < n ==> !Caches(bufs[c], dev, blk)
    {
      ghost var i := 1;
      assert LinkAt(n, order, next, prev, 0);
      b := next[n];
      while b != n
        invariant 1 <= i <= n + 1 && b == Node(n, order, i)
        invariant forall j :: 0 <= j < i - 1 ==> !Caches(bufs[order[j]], dev, blk)
        decreases n + 1 - i
      {
        if bufs[b].dev == dev && bufs[b].blockno == blk {
          return;
        }
        assert LinkAt(n, order, next, prev, i);
        b := next[b];
        i := i + 1;
      }
      forall c: nat | c < n
        ensures !Caches(bufs[c], dev, blk)
      {
        var j := PlaceOf(c);
      }
    }

    /** Every buffer has a place on the list. */
    lemma PlaceOf(b: nat) returns (j: nat)
      requires Valid() && b < n
      ensures j < n && order[j] == b
    {
      assert b in order;
      j :| j < |order| && order[j] == b;
    }

    /** The scan of bget for an unused buffer, along prev: the least recently used one. */
    method Victim() returns (b: nat)
      requires Valid()
      ensures b <= n && (b < n ==> bufs[b].refcnt == 0)
      ensures b < n ==> forall c: nat :: c < n && bufs[c].refcnt == 0 ==> stamp[b] <= stamp[c]
      ensures b == n ==> forall c: nat :: c < n ==> bufs[c].refcnt > 0
    {
      ghost var i := n;
      assert LinkAt(n, order, next, prev, n);
      b := prev[n];
      while b != n
        invariant 0 <= i <= n && b == Node(n, order, i)
        invariant forall j :: i <= j < n ==> bufs[order[j]].refcnt > 0
        decreases i
      {
        if bufs[b].refcnt == 0 {
          forall c: nat | c < n && bufs[c].refcnt == 0
            ensures stamp[b] <= stamp[c]
          {
            var j := PlaceOf(c);
          }
          return;
        }
        assert LinkAt(n, order, next, prev, i - 1);
        b := prev[b];
        i := i - 1;
      }
      forall c: nat | c < n
        ensures bufs[c].refcnt > 0
      {
        var j := PlaceOf(c);
      }
    }

    /**
     bget up to the release of bcache.lock: one more reference to the buffer of block blk, or the least
     recently used unused buffer for it.  It panics exactly if the block is not cached and every buffer is
     referenced.
     */
    method Bget(blk: nat) returns (b: nat, panic: bool)
      requires Valid() && blk < |disk|
      modifies `bufs, `users
      ensures Valid()
      ensures panic <==> forall c: nat :: c < n ==> !Caches(old(bufs[c]), dev, blk) && old(bufs[c]).refcnt > 0
      ensures panic ==> bufs == old(bufs) && users == old(users)
      ensures !panic ==> b < n && Caches(bufs[b], dev, blk) && users == old(users) + multiset{b}
      ensures !panic ==> forall c: nat :: c < n && c != b ==> bufs[c] == old(bufs[c])
      ensures !panic && !Caches(old(bufs[b]), dev, blk) ==>
        && old(bufs[b]).refcnt == 0 && !bufs[b].valid
        && forall c: nat :: c < n && old(bufs[c]).refcnt == 0 ==> stamp[b] <= stamp[c]
    {
      panic := false;
      b := Find(blk);
      if b != n {
        Bpin(b);
        return;
      }
      b := Victim();
      if b == n {
        return b, true;
      }
      Recycle(b, blk);
    }

    /** An unused buffer becomes that of block blk, which no buffer holds. */
    method Recycle(b: nat, blk: nat)
      requires Valid() && b < n && bufs[b].refcnt == 0 && blk < |disk| && Clean(blk)
      modifies `bufs, `users
      ensures Valid() && users == old(users) + multiset{b}
      ensures bufs == old(bufs)[b := Buf(dev, blk, false, 1, false, old(bufs[b]).data)]
    {
      ghost var k := bufs[b].blockno;
      assert BufOk(bufs[b], dirty[b], users[b], dev, disk, latest);
      bufs := bufs[b := bufs[b].(dev := dev, blockno := blk, valid := false, refcnt := 1)];
      users := users + multiset{b};
    }

    method Bpin(b: nat)
      requires Valid() && b < n && bufs[b].dev == dev
      modifies `bufs, `users
      ensures Valid() && users == old(users) + multiset{b}
      ensures bufs == old(bufs)[b := old(bufs[b]).(refcnt := old(bufs[b]).refcnt + 1)]
    {
      bufs := bufs[b := bufs[b].(refcnt := bufs[b].refcnt + 1)];
      users := users + multiset{b};
    }

    /** acquiresleep(&b->lock), once the lock is free. */
    method Lock(b: nat)
      requires Valid() && b < n && users[b] > 0 && !bufs[b].locked
      modifies `bufs
      ensures Valid() && bufs == old(bufs)[b := old(bufs[b]).(locked := true)]
    {
      bufs := bufs[b := bufs[b].(locked := true)];
    }

    /** The rest of bread: whoever has the locked buffer has the latest contents of its block. */
    method Fill(b: nat)
      requires Valid() && b < n && bufs[b].locked
      modifies `bufs
      ensures Valid() && bufs == old(bufs)[b := old(bufs[b]).(valid := true, data := latest[old(bufs[b]).blockno])]
    {
      assert BufOk(bufs[b], dirty[b], users[b], dev, disk, latest);
      if !bufs[b].valid {
        bufs := bufs[b := bufs[b].(data := disk[bufs[b].blockno], valid := true)];
      }
    }

    /** The holder of the lock changes the contents. */
    method Change(b: nat, data: Block)
      requires Valid() && b < n && bufs[b].locked && bufs[b].valid
      modifies `bufs, `latest, `dirty
      ensures Valid() && bufs == old(bufs)[b := old(bufs[b]).(data := data)]
      ensures bufs[b].blockno < |old(latest)| && latest == old(latest)[bufs[b].blockno := data]
      ensures dirty == old(dirty)[b := true]
    {
      assert BufOk(bufs[b], dirty[b], users[b], dev, disk, latest) && Caches(bufs[b], dev, bufs[b].blockno);
      assert forall c: nat :: c < n && c != b ==> !Caches(bufs[c], dev, bufs[b].blockno);
      bufs := bufs[b := bufs[b].(data := data)];
      latest := latest[bufs[b].blockno := data];
      dirty := dirty[b := true];
    }

    method Bwrite(b: nat)
      requires Valid() && b < n && bufs[b].locked && bufs[b].valid
      modifies `disk, `dirty
      ensures Valid() && |disk| == |old(disk)| && bufs[b].blockno < |disk|
      ensures disk == old(disk)[bufs[b].blockno := bufs[b].data] && dirty == old(dirty)[b := false]
    {
      assert BufOk(bufs[b], dirty[b], users[b], dev, disk, latest);
      disk := disk[bufs[b].blockno := bufs[b].data];
      dirty := dirty[b := false];
    }

    /** The first part of brelse. */
    method Unlock(b: nat)
      requires Valid() && b < n && bufs[b].locked
      modifies `bufs
      ensures Valid() && bufs == old(bufs)[b := old(bufs[b]).(locked := false)]
    {
      bufs := bufs[b := bufs[b].(locked := false)];
    }

    /** A reference is given up; the last one only when the buffer is unlocked and written. */
    ghost predicate MayDrop(b: nat)
      reads this
    {
      b < n == |bufs| == |dirty| && users[b] > 0 && (users[b] == 1 ==> !dirty[b] && !bufs[b].locked)
    }

    method Bunpin(b: nat)
      requires Valid() && MayDrop(b)
      modifies `bufs, `users
      ensures Valid() && users == old(users) - multiset{b} && old(bufs[b]).refcnt > 0
      ensures bufs == old(bufs)[b := old(bufs[b]).(refcnt := old(bufs[b]).refcnt - 1)]
    {
      assert BufOk(bufs[b], dirty[b], users[b], dev, disk, latest);
      bufs := bufs[b := bufs[b].(refcnt := bufs[b].refcnt - 1)];
      users := users - multiset{b};
    }

    /** The second part of brelse: without the last reference the buffer goes to the front of the list. */
    method Brelse(b: nat)
      requires Valid() && MayDrop(b)
      modifies `bufs, `users, `next, `prev, `order, `stamp, `clock
      ensures Valid() && users == old(users) - multiset{b} && old(bufs[b]).refcnt > 0
      ensures bufs == old(bufs)[b := old(bufs[b]).(refcnt := old(bufs[b]).refcnt - 1)]
      ensures bufs[b].refcnt > 0 ==> order == old(order) && stamp == old(stamp)
      ensures bufs[b].refcnt == 0 ==>
        order[0] == b && stamp == old(stamp)[b := old(clock)] && forall c: nat :: c < n && c != b ==> stamp[c] < stamp[b]
    {
      Bunpin(b);
      if bufs[b].refcnt == 0 {
        ToFront(b);
      }
    }

    /** The six assignments of brelse, and what they do to the list. */
    method ToFront(b: nat)
      requires Valid() && b < n
      modifies `next, `prev, `order, `stamp, `clock
      ensures Valid() && order[0] == b && stamp == old(stamp)[b := old(clock)]
    {
      ghost var k := PlaceOf(b);
      Relink(b, k);
      Moved(order, k, b, stamp, clock);
      order := [b] + Without(order, k);
      stamp := stamp[b := clock];
      clock := clock + 1;
    }

    method Relink(b: nat, ghost k: nat)
      requires Linked(n, order, next, prev) && Distinct(n, order) && k < |order| && order[k] == b
      modifies `next, `prev
      ensures Linked(n, [b] + Without(order, k), next, prev) && Distinct(n, [b] + Without(order, k))
    {
      ghost var l := Without(order, k);
      Unlink(n, order, next, prev, k);
      prev, next := SetAt(prev, next[b], prev[b]), SetAt(next, prev[b], next[b]);
      assert b !in l;
      PushFront(n, l, next, prev, b);
      PushFrontList(b);
    }
  }
}
