/**
 The disk queue of kernel/virtio_disk.c with a device that follows sections 2.6 and 5.2 of VIRTIO 1.1: what
 the descriptor table, the rings and the driver's books are between the driver's critical sections, and
 what one step of the driver or of the device does to them.
 */
module VirtQueue {
  import opened Kernel

  const NUM := 8

  type Block = seq<int>

  /** What a descriptor points at: a request header, a buffer's data, a status byte. */
  datatype Addr = Null | Header(i: nat) | Data(b: nat) | Status(i: nat)

  datatype Desc = Desc(addr: Addr, len: nat, hasNext: bool, deviceWrites: bool, next: nat)

  const CLEAR := Desc(Null, 0, false, false, 0)

  datatype Op = Op(write: bool, sector: nat)

  datatype Buf = Buf(blockno: nat, disk: bool, data: Block)

  /** Where a request is: in the available ring, in the device, in the used ring, or seen by the interrupt. */
  datatype Phase = Posted | Taken | Done | Seen

  /** A request in flight: its second and third descriptors, what it asks for, and its place in a ring. */
  datatype Chain = Chain(mid: nat, tail: nat, buf: nat, write: bool, blockno: nat, phase: Phase, slot: nat)

  /**
   Shared memory and the driver's books, with the ring indices counted without wrap-around; the requests
   in flight, by first descriptor; and the request that each descriptor belongs to.
   */
  datatype Queue = Queue(
    desc: seq<Desc>, ring: seq<nat>, usedRing: seq<nat>, free: seq<bool>, infoB: seq<Option<nat>>, status: seq<nat>,
    ops: seq<Op>, bufs: seq<Buf>, blocks: nat, posted: nat, taken: nat, done: nat, seen: nat,
    chains: map<nat, Chain>, owner: seq<Option<nat>>)

  predicate Sizes(q: Queue) {
    && |q.desc| == |q.ring| == |q.usedRing| == |q.free| == |q.infoB| == |q.status| == |q.ops| == |q.owner| == NUM
    && q.taken <= q.posted && q.seen <= q.done
  }

  /** The memory that the device reads for request h says what was asked for. */
  ghost predicate ChainOk(q: Queue, h: nat)
    requires Sizes(q) && h in q.chains
  {
    var c := q.chains[h];
    && h < NUM && c.mid < NUM && c.tail < NUM && h != c.mid && h != c.tail && c.mid != c.tail
    && q.owner[h] == Some(h) && q.owner[c.mid] == Some(h) && q.owner[c.tail] == Some(h)
    && q.desc[h] == Desc(Header(h), 16, true, false, c.mid)
    && q.desc[c.mid] == Desc(Data(c.buf), 1024, true, !c.write, c.tail)
    && q.desc[c.tail] == Desc(Status(h), 1, false, true, 0)
    && q.ops[h] == Op(c.write, c.blockno * 2) && q.infoB[h] == Some(c.buf)
    && c.buf < |q.bufs| && q.bufs[c.buf].blockno == c.blockno < q.blocks
    && (q.bufs[c.buf].disk <==> !c.phase.Seen?)
    && (c.phase.Done? || c.phase.Seen? ==> q.status[h] == 0)
    && (c.phase.Posted? ==> q.taken <= c.slot < q.posted && q.ring[c.slot % NUM] == h)
    && (c.phase.Done? ==> q.seen <= c.slot < q.done && q.usedRing[c.slot % NUM] == h)
  }

  ghost predicate Part(q: Queue, i: nat, h: nat) {
    h in q.chains && (i == h || i == q.chains[h].mid || i == q.chains[h].tail)
  }

  ghost predicate DescOk(q: Queue, i: nat)
    requires Sizes(q) && i < NUM
  {
    && (q.free[i] <==> q.owner[i].None?) && (q.free[i] ==> q.desc[i] == CLEAR)
    && (q.owner[i].Some? ==> Part(q, i, q.owner[i].value))
  }

  /** Entry k of the available ring is a request that the device has not taken yet. */
  ghost predicate PostedOk(q: Queue, k: nat)
    requires Sizes(q)
  {
    var h := q.ring[k % NUM];
    h in q.chains && q.chains[h].phase.Posted? && q.chains[h].slot == k
  }

  ghost predicate DoneOk(q: Queue, k: nat)
    requires Sizes(q)
  {
    var h := q.usedRing[k % NUM];
    h in q.chains && q.chains[h].phase.Done? && q.chains[h].slot == k
  }

  ghost predicate OneEach(q: Queue) {
    forall g, h :: g in q.chains && h in q.chains && q.chains[g].buf == q.chains[h].buf ==> g == h
  }

  ghost predicate Inv(q: Queue) {
    Sizes(q) && forall key: bool :: InvParts(key, q)
  }

  /** The key keeps Inv from unfolding except where a proof names its parts. */
  ghost predicate InvParts(key: bool, q: Queue) {
    && Sizes(q) && OneEach(q)
    && (forall h :: h in q.chains ==> ChainOk(q, h))
    && (forall i: nat :: i < NUM ==> DescOk(q, i))
    && (forall k: nat :: q.taken <= k < q.posted ==> PostedOk(q, k))
    && (forall k: nat :: q.seen <= k < q.done ==> DoneOk(q, k))
  }

  // ----- at most two requests -----

  lemma {:induction false} Subset(s: set<nat>, t: set<nat>)
    requires s <= t
    ensures |s| <= |t|
  {
    if s != {} {
      var x :| x in s;
      Subset(s - {x}, t - {x});
    }
  }

  lemma Crowd(s: set<nat>)
    requires forall i :: i in s ==> i < NUM
    ensures |s| <= NUM
  {
    var all := {0, 1, 2, 3, 4, 5, 6, 7};
    assert s <= all;
    Subset(s, all);
  }

  function Three(q: Queue, h: nat): set<nat>
    requires h in q.chains
  {
    {h, q.chains[h].mid, q.chains[h].tail}
  }

  lemma ThreeOwned(q: Queue, h: nat)
    requires Inv(q) && h in q.chains
    ensures |Three(q, h)| == 3 && forall i :: i in Three(q, h) ==> i < NUM && q.owner[i] == Some(h)
  {
    assert InvParts(true, q);
    assert ChainOk(q, h);
  }

  lemma NotThree(q: Queue, f: nat, g: nat, h: nat)
    requires Inv(q) && f in q.chains && g in q.chains && h in q.chains
    ensures f == g || g == h || f == h
  {
    if f != g && g != h && f != h {
      ThreeOwned(q, f);
      ThreeOwned(q, g);
      ThreeOwned(q, h);
      var s, t, u := Three(q, f), Three(q, g), Three(q, h);
      assert s !! t && (s + t) !! u;
      assert |s + t| == 6 && |s + t + u| == 9;
      Crowd(s + t + u);
    }
  }

  /** The rings never fill. */
  lemma Short(q: Queue)
    requires Inv(q)
    ensures q.posted - q.taken <= 2 && q.done - q.seen <= 2
  {
    assert InvParts(true, q);
    if q.posted - q.taken > 2 {
      var k := q.taken;
      assert PostedOk(q, k) && PostedOk(q, k + 1) && PostedOk(q, k + 2);
      NotThree(q, q.ring[k % NUM], q.ring[(k + 1) % NUM], q.ring[(k + 2) % NUM]);
    }
    if q.done - q.seen > 2 {
      var k := q.seen;
      assert DoneOk(q, k) && DoneOk(q, k + 1) && DoneOk(q, k + 2);
      NotThree(q, q.usedRing[k % NUM], q.usedRing[(k + 1) % NUM], q.usedRing[(k + 2) % NUM]);
    }
  }

  /** At most two requests are in flight. */
  lemma TwoInFlight(q: Queue)
    requires Inv(q)
    ensures |q.chains.Keys| <= 2
  {
    var s := q.chains.Keys;
    if |s| > 2 {
      var f :| f in s;
      assert |s - {f}| == |s| - 1;
      var g :| g in s - {f};
      assert |s - {f} - {g}| == |s| - 2;
      var h :| h in s - {f} - {g};
      NotThree(q, f, g, h);
    }
  }

  /** Every descriptor is free or belongs to a request. */
  lemma FreeOrPart(q: Queue, i: nat, part: set<nat>)
    requires Inv(q) && i < NUM && forall h :: h in q.chains ==> Three(q, h) <= part
    ensures q.free[i] || i in part
  {
    DescIs(q, i);
  }

  lemma FewParts(q: Queue, part: set<nat>)
    requires Inv(q) && |q.chains.Keys| < 2 && part == (set h, i | h in q.chains && i in Three(q, h) :: i)
    ensures |part| <= 3
  {
    if q.chains.Keys == {} {
      assert part == {};
    } else {
      var h :| h in q.chains;
      assert |q.chains.Keys - {h}| == 0;
      assert q.chains.Keys == {h};
      assert part == Three(q, h);
      ThreeOwned(q, h);
    }
  }

  /** Where at most two descriptors are free, two requests are in flight. */
  lemma FewFree(q: Queue, a: nat, b: nat)
    requires Inv(q) && forall i: nat :: i < NUM && q.free[i] ==> i == a || i == b
    ensures |q.chains.Keys| == 2
  {
    TwoInFlight(q);
    if |q.chains.Keys| < 2 {
      var part := set h, i | h in q.chains && i in Three(q, h) :: i;
      FewParts(q, part);
      var i := Uncovered(part, a, b);
      FreeOrPart(q, i, part);
    }
  }

  lemma Uncovered(part: set<nat>, a: nat, b: nat) returns (i: nat)
    requires |part| <= 3
    ensures i < NUM && i != a && i != b && i !in part
  {
    var all: set<nat> := {0, 1, 2, 3, 4, 5, 6, 7};
    assert |all| == 8;
    var ab: set<nat> := {a, b};
    assert |ab| <= 2 && |all - ab| >= 6;
    if all - ab <= part {
      Subset(all - ab, part);
    }
    i :| i in all - ab && i !in part;
  }

  /** Ring positions that are close do not share an entry. */
  lemma Near(m: nat, n: nat)
    requires m <= n < m + NUM
    ensures m % NUM == n % NUM ==> m == n
  {
  }

  // ----- one part of the invariant at a time -----

  lemma ChainIs(q: Queue, h: nat)
    requires Inv(q) && h in q.chains
    ensures ChainOk(q, h)
  {
    assert InvParts(true, q);
  }

  lemma DescIs(q: Queue, i: nat)
    requires Inv(q) && i < NUM
    ensures DescOk(q, i)
  {
    assert InvParts(true, q);
  }

  lemma PostedIs(q: Queue, k: nat)
    requires Inv(q) && q.taken <= k < q.posted
    ensures PostedOk(q, k)
  {
    assert InvParts(true, q);
  }

  lemma DoneIs(q: Queue, k: nat)
    requires Inv(q) && q.seen <= k < q.done
    ensures DoneOk(q, k)
  {
    assert InvParts(true, q);
  }

  lemma OneIs(q: Queue)
    requires Inv(q)
    ensures OneEach(q)
  {
    assert InvParts(true, q);
  }

  // ----- the steps -----

  ghost predicate Idle(q: Queue, b: nat) {
    b < |q.bufs| && !q.bufs[b].disk && q.bufs[b].blockno < q.blocks && forall h :: h in q.chains ==> q.chains[h].buf != b
  }

  ghost predicate Free3(q: Queue, a: nat, b: nat, c: nat)
    requires Sizes(q)
  {
    a < NUM && b < NUM && c < NUM && a != b && b != c && a != c && q.free[a] && q.free[b] && q.free[c]
  }

  /** A request of buffer x on the free descriptors a, b, c. */
  function Post(q: Queue, a: nat, b: nat, c: nat, x: nat, write: bool): Queue
    requires Sizes(q) && a < NUM && b < NUM && c < NUM && x < |q.bufs|
  {
    q.(desc := q.desc[a := Desc(Header(a), 16, true, false, b)]
                     [b := Desc(Data(x), 1024, true, !write, c)]
                     [c := Desc(Status(a), 1, false, true, 0)],
       free := q.free[a := false][b := false][c := false],
       ops := q.ops[a := Op(write, q.bufs[x].blockno * 2)],
       infoB := q.infoB[a := Some(x)], status := q.status[a := 0xff],
       bufs := q.bufs[x := q.bufs[x].(disk := true)],
       ring := q.ring[q.posted % NUM := a], posted := q.posted + 1,
       chains := q.chains[a := Chain(b, c, x, write, q.bufs[x].blockno, Posted, q.posted)],
       owner := q.owner[a := Some(a)][b := Some(a)][c := Some(a)])
  }

  lemma PostChain(q: Queue, a: nat, b: nat, c: nat, x: nat, write: bool, h: nat)
    requires Sizes(q) && Free3(q, a, b, c) && Idle(q, x) && q.posted < q.taken + NUM
    requires DescOk(q, a) && DescOk(q, b) && DescOk(q, c)
    requires h == a || (h in q.chains && ChainOk(q, h))
    ensures ChainOk(Post(q, a, b, c, x, write), h)
  {
    if h != a && q.chains[h].phase.Posted? {
      Near(q.chains[h].slot, q.posted);
    }
  }

  lemma PostDesc(q: Queue, a: nat, b: nat, c: nat, x: nat, write: bool, i: nat)
    requires Sizes(q) && Free3(q, a, b, c) && x < |q.bufs| && i < NUM && DescOk(q, i) && a !in q.chains
    ensures DescOk(Post(q, a, b, c, x, write), i)
  {
  }

  lemma PostRings(q: Queue, a: nat, b: nat, c: nat, x: nat, write: bool, k: nat)
    requires Sizes(q) && Free3(q, a, b, c) && x < |q.bufs| && a !in q.chains && q.posted < q.taken + NUM
    ensures q.taken <= k <= q.posted && (k < q.posted ==> PostedOk(q, k)) ==> PostedOk(Post(q, a, b, c, x, write), k)
    ensures DoneOk(q, k) ==> DoneOk(Post(q, a, b, c, x, write), k)
  {
    if q.taken <= k <= q.posted {
      Near(k, q.posted);
    }
  }

  lemma PostKeeps(q: Queue, a: nat, b: nat, c: nat, x: nat, write: bool)
    requires Inv(q) && Free3(q, a, b, c) && Idle(q, x)
    ensures Inv(Post(q, a, b, c, x, write)) && a !in q.chains
  {
    OneIs(q);
    var r := Post(q, a, b, c, x, write);
    DescIs(q, a);
    DescIs(q, b);
    DescIs(q, c);
    Short(q);
    if a in q.chains {
      ChainIs(q, a);
    }
    forall h | h in r.chains
      ensures ChainOk(r, h)
    {
      if h != a {
        ChainIs(q, h);
      }
      PostChain(q, a, b, c, x, write, h);
    }
    forall i: nat | i < NUM
      ensures DescOk(r, i)
    {
      DescIs(q, i);
      PostDesc(q, a, b, c, x, write, i);
    }
    forall k: nat | r.taken <= k < r.posted
      ensures PostedOk(r, k)
    {
      if k < q.posted {
        PostedIs(q, k);
      }
      PostRings(q, a, b, c, x, write, k);
    }
    forall k: nat | r.seen <= k < r.done
      ensures DoneOk(r, k)
    {
      DoneIs(q, k);
      PostRings(q, a, b, c, x, write, k);
    }
  }

  /** A request can be posted only while fewer than two are in flight. */
  lemma PostFits(q: Queue, a: nat, b: nat, c: nat, x: nat, write: bool)
    requires Inv(q) && Free3(q, a, b, c) && Idle(q, x)
    ensures |q.chains.Keys| < 2
  {
    PostKeeps(q, a, b, c, x, write);
    var r := Post(q, a, b, c, x, write);
    TwoInFlight(r);
    assert r.chains.Keys == q.chains.Keys + {a};
  }

  /** The device takes the next request from the available ring. */
  function Take(q: Queue): Queue
    requires Sizes(q)
  {
    var h := q.ring[q.taken % NUM];
    if q.taken == q.posted || h !in q.chains then q
    else q.(taken := q.taken + 1, chains := q.chains[h := q.chains[h].(phase := Taken)])
  }

  lemma TakeChain(q: Queue, h: nat)
    requires Sizes(q) && q.taken < q.posted && PostedOk(q, q.taken) && h in q.chains && ChainOk(q, h)
    ensures h in Take(q).chains && ChainOk(Take(q), h)
  {
  }

  lemma TakeKeeps(q: Queue)
    requires Inv(q) && q.taken < q.posted
    ensures Inv(Take(q)) && Take(q).taken == q.taken + 1
  {
    OneIs(q);
    var r := Take(q);
    PostedIs(q, q.taken);
    forall h | h in r.chains
      ensures ChainOk(r, h)
    {
      ChainIs(q, h);
      TakeChain(q, h);
    }
    forall i: nat | i < NUM
      ensures DescOk(r, i)
    {
      DescIs(q, i);
    }
    forall k: nat | r.taken <= k < r.posted
      ensures PostedOk(r, k)
    {
      PostedIs(q, k);
    }
    forall k: nat | r.seen <= k < r.done
      ensures DoneOk(r, k)
    {
      DoneIs(q, k);
    }
  }

  /** The device finishes request h: it has moved the data, clears the status and tells the used ring. */
  function Complete(q: Queue, h: nat, data: Block): Queue
    requires Sizes(q) && h < NUM && h in q.chains && q.chains[h].buf < |q.bufs|
  {
    var x := q.chains[h].buf;
    q.(bufs := q.bufs[x := q.bufs[x].(data := data)], status := q.status[h := 0],
       usedRing := q.usedRing[q.done % NUM := h], done := q.done + 1,
       chains := q.chains[h := q.chains[h].(phase := Done, slot := q.done)])
  }

  lemma CompleteChain(q: Queue, h: nat, data: Block, g: nat)
    requires Sizes(q) && h in q.chains && ChainOk(q, h) && q.chains[h].phase.Taken? && q.done < q.seen + NUM
    requires g in q.chains && ChainOk(q, g)
    ensures ChainOk(Complete(q, h, data), g)
  {
    if q.chains[g].phase.Done? {
      Near(q.chains[g].slot, q.done);
    }
  }

  lemma CompleteRings(q: Queue, h: nat, data: Block, k: nat)
    requires Sizes(q) && h in q.chains && ChainOk(q, h) && q.chains[h].phase.Taken? && q.done < q.seen + NUM
    ensures PostedOk(q, k) ==> PostedOk(Complete(q, h, data), k)
    ensures q.seen <= k <= q.done && (k < q.done ==> DoneOk(q, k)) ==> DoneOk(Complete(q, h, data), k)
  {
    if q.seen <= k <= q.done {
      Near(k, q.done);
    }
  }

  lemma CompleteKeeps(q: Queue, h: nat, data: Block)
    requires Inv(q) && h in q.chains && q.chains[h].phase.Taken?
    ensures h < NUM && q.chains[h].buf < |q.bufs| && Inv(Complete(q, h, data))
  {
    OneIs(q);
    ChainIs(q, h);
    var r := Complete(q, h, data);
    Short(q);
    forall g | g in r.chains
      ensures ChainOk(r, g)
    {
      ChainIs(q, g);
      CompleteChain(q, h, data, g);
    }
    forall i: nat | i < NUM
      ensures DescOk(r, i)
    {
      DescIs(q, i);
    }
    forall k: nat | r.taken <= k < r.posted
      ensures PostedOk(r, k)
    {
      PostedIs(q, k);
      CompleteRings(q, h, data, k);
    }
    forall k: nat | r.seen <= k < r.done
      ensures DoneOk(r, k)
    {
      if k < q.done {
        DoneIs(q, k);
      }
      CompleteRings(q, h, data, k);
    }
  }

  /** The interrupt handler sees the next entry of the used ring: the buffer is no longer the disk's. */
  function See(q: Queue): Queue
    requires Sizes(q)
  {
    var h := q.usedRing[q.seen % NUM];
    if q.seen == q.done || h !in q.chains || q.chains[h].buf >= |q.bufs| then q
    else
      var x := q.chains[h].buf;
      q.(seen := q.seen + 1, bufs := q.bufs[x := q.bufs[x].(disk := false)],
         chains := q.chains[h := q.chains[h].(phase := Seen)])
  }

  lemma SeeChain(q: Queue, h: nat)
    requires Sizes(q) && OneEach(q) && q.seen < q.done && DoneOk(q, q.seen) && h in q.chains && ChainOk(q, h)
    requires ChainOk(q, q.usedRing[q.seen % NUM])
    ensures h in See(q).chains && ChainOk(See(q), h)
  {
  }

  lemma SeeDesc(q: Queue, i: nat)
    requires Sizes(q) && i < NUM && DescOk(q, i)
    ensures DescOk(See(q), i)
  {
  }

  lemma SeeKeeps(q: Queue)
    requires Inv(q) && q.seen < q.done
    ensures Inv(See(q)) && See(q).seen == q.seen + 1
  {
    OneIs(q);
    var r := See(q);
    DoneIs(q, q.seen);
    ChainIs(q, q.usedRing[q.seen % NUM]);
    forall h | h in r.chains
      ensures ChainOk(r, h)
    {
      ChainIs(q, h);
      SeeChain(q, h);
    }
    forall i: nat | i < NUM
      ensures DescOk(r, i)
    {
      DescIs(q, i);
      SeeDesc(q, i);
    }
    forall k: nat | r.taken <= k < r.posted
      ensures PostedOk(r, k)
    {
      PostedIs(q, k);
    }
    forall k: nat | r.seen <= k < r.done
      ensures DoneOk(r, k)
    {
      DoneIs(q, k);
    }
  }

  /** The driver gives back the descriptors of request h. */
  function Retire(q: Queue, h: nat): Queue
    requires Sizes(q) && h < NUM && h in q.chains && q.chains[h].mid < NUM && q.chains[h].tail < NUM
  {
    var c := q.chains[h];
    q.(infoB := q.infoB[h := None], desc := q.desc[h := CLEAR][c.mid := CLEAR][c.tail := CLEAR],
       free := q.free[h := true][c.mid := true][c.tail := true],
       owner := q.owner[h := None][c.mid := None][c.tail := None], chains := q.chains - {h})
  }

  lemma RetireChain(q: Queue, h: nat, g: nat)
    requires Sizes(q) && h in q.chains && ChainOk(q, h) && g in q.chains && ChainOk(q, g) && g != h
    ensures ChainOk(Retire(q, h), g)
  {
  }

  lemma RetireDesc(q: Queue, h: nat, i: nat)
    requires Sizes(q) && h in q.chains && ChainOk(q, h) && i < NUM && DescOk(q, i)
    ensures DescOk(Retire(q, h), i)
  {
  }

  lemma RetireRings(q: Queue, h: nat, k: nat)
    requires Sizes(q) && h in q.chains && ChainOk(q, h) && q.chains[h].phase.Seen?
    ensures PostedOk(q, k) ==> PostedOk(Retire(q, h), k)
    ensures DoneOk(q, k) ==> DoneOk(Retire(q, h), k)
  {
  }

  lemma RetireKeeps(q: Queue, h: nat)
    requires Inv(q) && h in q.chains && q.chains[h].phase.Seen?
    ensures ChainOk(q, h) && Inv(Retire(q, h))
  {
    OneIs(q);
    ChainIs(q, h);
    var r := Retire(q, h);
    forall g | g in r.chains
      ensures ChainOk(r, g)
    {
      ChainIs(q, g);
      RetireChain(q, h, g);
    }
    forall i: nat | i < NUM
      ensures DescOk(r, i)
    {
      DescIs(q, i);
      RetireDesc(q, h, i);
    }
    forall k: nat | r.taken <= k < r.posted
      ensures PostedOk(r, k)
    {
      PostedIs(q, k);
      RetireRings(q, h, k);
    }
    forall k: nat | r.seen <= k < r.done
      ensures DoneOk(r, k)
    {
      DoneIs(q, k);
      RetireRings(q, h, k);
    }
  }

  // ----- what the code relies on -----

  lemma FreeIsClear(q: Queue)
    requires Inv(q)
    ensures forall i: nat :: i < NUM && q.free[i] ==> q.desc[i] == CLEAR
  {
    assert InvParts(true, q);
    forall i: nat | i < NUM
      ensures q.free[i] ==> q.desc[i] == CLEAR
    {
      assert DescOk(q, i);
    }
  }

  /** The descriptors of a request are not free. */
  lemma ChainAt(q: Queue, h: nat)
    requires Inv(q) && h in q.chains
    ensures ChainOk(q, h) && !q.free[h] && !q.free[q.chains[h].mid] && !q.free[q.chains[h].tail]
  {
    assert InvParts(true, q);
    assert ChainOk(q, h);
    assert DescOk(q, h) && DescOk(q, q.chains[h].mid) && DescOk(q, q.chains[h].tail);
  }

  lemma NextPosted(q: Queue)
    requires Inv(q) && q.taken < q.posted
    ensures q.ring[q.taken % NUM] in q.chains && q.chains[q.ring[q.taken % NUM]].phase.Posted?
  {
    assert InvParts(true, q);
    assert PostedOk(q, q.taken);
  }

  lemma NextDone(q: Queue)
    requires Inv(q) && q.seen < q.done
    ensures
      var h := q.usedRing[q.seen % NUM];
      h in q.chains && q.chains[h].phase.Done? && q.chains[h].slot == q.seen && ChainOk(q, h)
  {
    assert InvParts(true, q);
    assert DoneOk(q, q.seen);
  }

  function Rank(p: Phase): nat {
    match p
    case Posted => 0
    case Taken => 1
    case Done => 2
    case Seen => 3
  }

  /** The same request, perhaps further on its way. */
  predicate Later(c: Chain, d: Chain) {
    d.mid == c.mid && d.tail == c.tail && d.buf == c.buf && d.write == c.write && d.blockno == c.blockno
    && Rank(c.phase) <= Rank(d.phase)
  }

  /** From p to q the device and the interrupt handler have moved requests on and done nothing else. */
  ghost predicate Moved(p: Queue, q: Queue) {
    forall key: bool :: MovedParts(key, p, q)
  }

  /** The key keeps Moved from unfolding except where a proof names its parts. */
  ghost predicate MovedParts(key: bool, p: Queue, q: Queue) {
    && q.posted == p.posted && q.chains.Keys == p.chains.Keys && |q.bufs| == |p.bufs|
    && (forall h :: h in p.chains ==> Later(p.chains[h], q.chains[h]))
    && (forall x: nat :: x < |p.bufs| && (forall h :: h in p.chains ==> p.chains[h].buf != x) ==> q.bufs[x] == p.bufs[x])
    && (forall h :: h in p.chains && Rank(p.chains[h].phase) >= 2 && p.chains[h].buf < |p.bufs| ==>
          q.bufs[p.chains[h].buf].data == p.bufs[p.chains[h].buf].data)
  }

  lemma MovedNone(q: Queue)
    ensures Moved(q, q)
  {
  }

  lemma MovedMore(p: Queue, q: Queue, r: Queue)
    requires Moved(p, q) && Moved(q, r)
    ensures Moved(p, r)
  {
    assert MovedParts(true, p, q) && MovedParts(true, q, r);
    forall h | h in p.chains
      ensures Later(p.chains[h], r.chains[h])
    {
      assert Later(p.chains[h], q.chains[h]) && Later(q.chains[h], r.chains[h]);
    }
  }

  lemma TakeMoves(q: Queue)
    requires Inv(q)
    ensures Moved(q, Take(q))
  {
    if q.taken < q.posted {
      NextPosted(q);
    }
  }

  lemma CompleteMoves(q: Queue, h: nat, data: Block)
    requires Inv(q) && h < NUM && h in q.chains && q.chains[h].phase.Taken? && q.chains[h].buf < |q.bufs|
    ensures Moved(q, Complete(q, h, data))
  {
    OneIs(q);
  }

  lemma SeeMoves(q: Queue)
    requires Inv(q)
    ensures Moved(q, See(q))
  {
    if q.seen < q.done {
      NextDone(q);
    }
  }

  /** The requests that the handler has not seen yet. */
  ghost function Unseen(q: Queue): set<nat> {
    set h | h in q.chains && !q.chains[h].phase.Seen?
  }

  lemma SeeFewer(q: Queue)
    requires Inv(q) && q.seen < q.done
    ensures Unseen(See(q)) < Unseen(q)
  {
    NextDone(q);
    var h := q.usedRing[q.seen % NUM];
    assert h in Unseen(q) && h !in Unseen(See(q));
  }

  lemma MovedFewer(p: Queue, q: Queue)
    requires Moved(p, q)
    ensures Unseen(q) <= Unseen(p)
  {
    assert MovedParts(true, p, q);
    forall h | h in Unseen(q)
      ensures h in Unseen(p)
    {
      assert Later(p.chains[h], q.chains[h]);
    }
  }

  /**
   When the handler is done, the buffer of a request has been given back exactly if the device has finished the
   request; a request that was finished before has been seen, and its data is what it was.
   */
  lemma HandledAll(p: Queue, q: Queue, h: nat)
    requires Inv(p) && Inv(q) && Moved(p, q) && q.seen == q.done && h in p.chains
    ensures h in q.chains && Later(p.chains[h], q.chains[h]) && p.chains[h].buf < |p.bufs| == |q.bufs|
    ensures !q.chains[h].phase.Done? && (q.bufs[p.chains[h].buf].disk <==> !q.chains[h].phase.Seen?)
    ensures p.chains[h].phase.Done? ==>
      q.chains[h].phase.Seen? && q.bufs[p.chains[h].buf].data == p.bufs[p.chains[h].buf].data
  {
    assert MovedParts(true, p, q);
    ChainIs(p, h);
    ChainIs(q, h);
  }
}
