/** The driver and the device as code: each method is one critical section of the driver or one device step. */
module Virtio {
  import opened Kernel
  import opened VirtQueue

  const IDX := 0x1_0000                  // ring indices are 16 bits wide

  lemma Wrap(n: nat)
    ensures n % IDX % NUM == n % NUM && (n % IDX + 1) % IDX == (n + 1) % IDX
  {
  }

  lemma Same(m: nat, n: nat)
    requires m <= n <= m + 2
    ensures m % IDX == n % IDX <==> m == n
  {
  }

  class Driver {
    var desc: seq<Desc>
    var ring: seq<nat>                   // avail->ring
    var availIdx: nat                    // avail->idx
    var usedRing: seq<nat>               // used->ring[].id
    var usedIdx: nat                     // used->idx
    var free: seq<bool>
    var seenIdx: nat                     // disk.used_idx
    var infoB: seq<Option<nat>>          // info[].b
    var status: seq<nat>                 // info[].status
    var ops: seq<Op>
    var bufs: seq<Buf>
    var takenIdx: nat                    // the device: how far it has read the available ring
    var held: set<nat>                   // the device: the requests that it has taken and not finished
    var store: seq<Block>                // the device: its blocks
    ghost var chains: map<nat, Chain>
    ghost var owner: seq<Option<nat>>
    ghost var posted: nat
    ghost var taken: nat
    ghost var done: nat
    ghost var seen: nat

    ghost function View(): Queue
      reads this
    {
      Queue(desc, ring, usedRing, free, infoB, status, ops, bufs, |store|, posted, taken, done, seen, chains, owner)
    }

    ghost predicate Valid()
      reads this
    {
      && Inv(View()) && (forall h :: h in held <==> h in chains && chains[h].phase.Taken?)
      && availIdx == posted % IDX && takenIdx == taken % IDX && usedIdx == done % IDX && seenIdx == seen % IDX
    }

    /** virtio_disk_init: empty rings and every descriptor free. */
    constructor (bufs: seq<Buf>, store: seq<Block>)
      ensures Valid() && chains == map[] && this.bufs == bufs && this.store == store
    {
      desc, free := seq(NUM, i => CLEAR), seq(NUM, i => true);
      ring, usedRing, availIdx, usedIdx, seenIdx, takenIdx := seq(NUM, i => 0), seq(NUM, i => 0), 0, 0, 0, 0;
      infoB, status, ops := seq(NUM, i => None), seq(NUM, i => 0), seq(NUM, i => Op(false, 0));
      this.bufs, this.store, held := bufs, store, {};
      chains, owner, posted, taken, done, seen := map[], seq(NUM, i => None), 0, 0, 0, 0;
    }

    // ----- descriptors -----

    /** The first free descriptor, now taken, or NUM if there is none. */
    method AllocDesc() returns (i: nat)
      requires |free| == NUM
      modifies `free
      ensures i <= NUM && (i == NUM ==> free == old(free) && true !in free)
      ensures i < NUM ==> old(free[i]) && free == old(free)[i := false]
    {
      i := 0;
      while i < NUM
        invariant i <= NUM && free == old(free) && forall j :: 0 <= j < i ==> !free[j]
      {
        if free[i] {
          free := free[i := false];
          return;
        }
        i := i + 1;
      }
    }

    /** free_desc panics on a bad index and on a descriptor that is free. */
    method FreeDesc(i: nat)
      requires |free| == |desc| == NUM && i < NUM && !free[i]
      modifies `free, `desc
      ensures free == old(free)[i := true] && desc == old(desc)[i := CLEAR]
    {
      desc := desc[i := CLEAR];
      free := free[i := true];
    }

    /** Three descriptors, or none. */
    method Alloc3Desc() returns (ok: bool, a: nat, b: nat, c: nat)
      requires |free| == |desc| == NUM && forall i: nat :: i < NUM && free[i] ==> desc[i] == CLEAR
      modifies `free, `desc
      ensures desc == old(desc) && (!ok ==> free == old(free))
      ensures !ok ==> forall i: nat :: i < NUM && free[i] ==> i == a || i == b
      ensures ok ==> a < NUM && b < NUM && c < NUM && a != b && b != c && a != c
      ensures ok ==> old(free[a]) && old(free[b]) && old(free[c]) && free == old(free)[a := false][b := false][c := false]
    {
      b, c := NUM, NUM;
      a := AllocDesc();
      if a == NUM {
        return false, a, b, c;
      }
      b := AllocDesc();
      if b == NUM {
        FreeDesc(a);
        return false, a, b, c;
      }
      c := AllocDesc();
      if c == NUM {
        FreeDesc(a);
        FreeDesc(b);
        return false, a, b, c;
      }
      ok := true;
    }

    /** Follows the chain from h: frees just its three descriptors. */
    method FreeChain(h: nat, ghost mid: nat, ghost tail: nat)
      requires |free| == |desc| == NUM && h < NUM && mid < NUM && tail < NUM && h != mid && h != tail && mid != tail
      requires !free[h] && !free[mid] && !free[tail]
      requires desc[h].hasNext && desc[h].next == mid && desc[mid].hasNext && desc[mid].next == tail && !desc[tail].hasNext
      modifies `free, `desc
      ensures free == old(free)[h := true][mid := true][tail := true]
      ensures desc == old(desc)[h := CLEAR][mid := CLEAR][tail := CLEAR]
    {
      var i := h;
      ghost var step := 0;
      while true
        invariant 0 <= step <= 2 && i == (if step == 0 then h else if step == 1 then mid else tail)
        invariant free == (if step == 0 then old(free) else if step == 1 then old(free)[h := true]
                           else old(free)[h := true][mid := true])
        invariant desc == (if step == 0 then old(desc) else if step == 1 then old(desc)[h := CLEAR]
                           else old(desc)[h := CLEAR][mid := CLEAR])
        decreases 2 - step
      {
        var flag, nxt := desc[i].hasNext, desc[i].next;
        FreeDesc(i);
        if !flag {
          return;
        }
        i := nxt;
        step := step + 1;
      }
    }

    // ----- virtio_disk_rw -----

    /** Up to the wait: posts a request for the buffer x, or, while two are in flight, changes nothing and waits. */
    method Submit(x: nat, write: bool) returns (ok: bool, h: nat, ghost mid: nat, ghost tail: nat)
      requires Valid() && Idle(View(), x)
      modifies this
      ensures ok <==> |old(chains).Keys| < 2
      ensures !ok ==> View() == old(View())
      ensures ok ==> h !in old(chains) && Free3(old(View()), h, mid, tail)
      ensures ok ==> View() == Post(old(View()), h, mid, tail, x, write)
      ensures Valid() && store == old(store)
    {
      ghost var q := View();
      FreeIsClear(q);
      var b, c;
      ok, h, b, c := Alloc3Desc();
      mid, tail := b, c;
      if !ok {
        FewFree(q, h, b);
        return;
      }
      PostKeeps(q, h, b, c, x, write);
      PostFits(q, h, b, c, x, write);
      Send(h, b, c, x, write, q);
    }

    /** The descriptors are taken: formats the request and announces it. */
    method Send(h: nat, b: nat, c: nat, x: nat, write: bool, ghost q: Queue)
      requires Sizes(q) && Free3(q, h, b, c) && Idle(q, x) && availIdx == posted % IDX
      requires View() == q.(free := q.free[h := false][b := false][c := false])
      modifies `desc, `ops, `infoB, `status, `bufs, `ring, `availIdx, `chains, `owner, `posted
      ensures View() == Post(q, h, b, c, x, write) && availIdx == posted % IDX
    {
      Format(h, b, c, x, write);
      Announce(h, b, c, x, write);
    }

    /** Fills in the three descriptors and the books of a request. */
    method Format(h: nat, b: nat, c: nat, x: nat, write: bool)
      requires |desc| == |ops| == |infoB| == |status| == NUM && x < |bufs|
      requires h < NUM && b < NUM && c < NUM && h != b && b != c && h != c
      modifies `desc, `ops, `infoB, `status, `bufs
      ensures ops == old(ops)[h := Op(write, old(bufs[x]).blockno * 2)]
      ensures desc == old(desc)[h := Desc(Header(h), 16, true, false, b)]
                               [b := Desc(Data(x), 1024, true, !write, c)]
                               [c := Desc(Status(h), 1, false, true, 0)]
      ensures infoB == old(infoB)[h := Some(x)] && status == old(status)[h := 0xff]
      ensures bufs == old(bufs)[x := old(bufs[x]).(disk := true)]
    {
      ops := ops[h := Op(write, bufs[x].blockno * 2)];
      desc := desc[h := Desc(Header(h), 16, true, false, b)];
      desc := desc[b := Desc(Data(x), 1024, true, !write, c)];
      status := status[h := 0xff];
      desc := desc[c := Desc(Status(h), 1, false, true, 0)];
      bufs := bufs[x := bufs[x].(disk := true)];
      infoB := infoB[h := Some(x)];
    }

    /** Puts a request into the available ring. */
    method Announce(h: nat, ghost b: nat, ghost c: nat, ghost x: nat, ghost write: bool)
      requires |ring| == |owner| == NUM && h < NUM && b < NUM && c < NUM && x < |bufs| && availIdx == posted % IDX
      modifies `ring, `availIdx, `chains, `owner, `posted
      ensures ring == old(ring)[old(posted) % NUM := h] && posted == old(posted) + 1 && availIdx == posted % IDX
      ensures chains == old(chains)[h := Chain(b, c, x, write, bufs[x].blockno, Posted, old(posted))]
      ensures owner == old(owner)[h := Some(h)][b := Some(h)][c := Some(h)]
    {
      Wrap(posted);
      ring := ring[availIdx % NUM := h];
      availIdx := (availIdx + 1) % IDX;
      chains := chains[h := Chain(b, c, x, write, bufs[x].blockno, Posted, posted)];
      owner := owner[h := Some(h)][b := Some(h)][c := Some(h)];
      posted := posted + 1;
    }

    /** After the wait, which ends when b->disk is 0: gives the descriptors back. */
    method Finish(h: nat, x: nat)
      requires Valid() && h in chains && chains[h].buf == x && x < |bufs| && !bufs[x].disk
      modifies `infoB, `desc, `free, `owner, `chains
      ensures Valid() && chains == old(chains) - {h}
    {
      ghost var q := View();
      ChainAt(q, h);
      RetireKeeps(q, h);
      GiveBack(h);
    }

    method GiveBack(h: nat)
      requires Sizes(View()) && h in chains && ChainOk(View(), h)
      requires !free[h] && !free[chains[h].mid] && !free[chains[h].tail]
      modifies `infoB, `desc, `free, `owner, `chains
      ensures View() == Retire(old(View()), h)
    {
      ghost var c := chains[h];
      infoB := infoB[h := None];
      FreeChain(h, c.mid, c.tail);
      owner := owner[h := None][c.mid := None][c.tail := None];
      chains := chains - {h};
    }

    // ----- virtio_disk_intr -----

    /**
     Sees every used entry, also those that the device adds meanwhile, each once; the status check never fails.
     */
    method Intr()
      requires Valid()
      modifies `seenIdx, `bufs, `chains, `seen, `takenIdx, `taken, `held, `store, `status, `usedRing, `usedIdx, `done
      ensures Valid() && seen == done && Moved(old(View()), View())
    {
      MovedNone(View());
      DeviceRuns();
      Short(View());
      Same(seen, done);
      while seenIdx != usedIdx
        invariant Valid() && Moved(old(View()), View()) && (seenIdx == usedIdx <==> seen == done)
        decreases Unseen(View())
      {
        ghost var q := View();
        SeeFewer(q);
        SeeMoves(q);
        HandleOne();
        MovedMore(old(View()), q, View());
        q := View();
        DeviceRuns();
        MovedMore(old(View()), q, View());
        MovedFewer(q, View());
        Short(View());
        Same(seen, done);
      }
    }

    /** The device does some of what there is to do. */
    method DeviceRuns()
      requires Valid()
      modifies `bufs, `chains, `takenIdx, `taken, `held, `store, `status, `usedRing, `usedIdx, `done
      ensures Valid() && Moved(old(View()), View())
    {
      var steps: nat :| true;
      MovedNone(View());
      for i := 0 to steps
        invariant Valid() && Moved(old(View()), View())
      {
        ghost var q := View();
        if * {
          TakeMoves(q);
          DeviceTake();
        } else if h :| h in held {
          DeviceComplete(h);
        }
        MovedMore(old(View()), q, View());
      }
    }

    /** One round of the loop of virtio_disk_intr. */
    method HandleOne()
      requires Valid() && seen < done
      modifies `seenIdx, `bufs, `chains, `seen
      ensures Valid() && View() == See(old(View())) && seen == old(seen) + 1
    {
      ghost var q := View();
      NextDone(q);
      SeeKeeps(q);
      Wrap(seen);
      var id := usedRing[seenIdx % NUM];
      assert status[id] == 0;
      var x := infoB[id].value;
      bufs := bufs[x := bufs[x].(disk := false)];
      seenIdx := (seenIdx + 1) % IDX;
      chains := chains[id := chains[id].(phase := Seen)];
      seen := seen + 1;
      assert View() == See(q);
    }

    // ----- the device -----

    /** The device takes the next request, if there is one. */
    method DeviceTake()
      requires Valid()
      modifies `takenIdx, `chains, `taken, `held
      ensures Valid() && View() == Take(old(View()))
    {
      ghost var q := View();
      Short(q);
      Same(taken, posted);
      if takenIdx != availIdx {
        NextPosted(q);
        TakeKeeps(q);
        TakeNext();
      }
    }

    method TakeNext()
      requires Sizes(View()) && taken < posted && takenIdx == taken % IDX && ring[taken % NUM] in chains
      modifies `takenIdx, `chains, `taken, `held
      ensures View() == Take(old(View())) && takenIdx == taken % IDX && held == old(held) + {old(ring[taken % NUM])}
    {
      Wrap(taken);
      var h := ring[takenIdx % NUM];
      held := held + {h};
      takenIdx := (takenIdx + 1) % IDX;
      chains := chains[h := chains[h].(phase := Taken)];
      taken := taken + 1;
    }

    /**
     The device carries out the request that starts at descriptor h, going by the memory alone.  What it
     does is what was asked for: it moves the block between the buffer and its place on the disk.
     */
    method DeviceComplete(h: nat)
      requires Valid() && h in held
      modifies `store, `bufs, `status, `usedRing, `usedIdx, `chains, `done, `held
      ensures chains == old(chains)[h := old(chains[h]).(phase := Done, slot := old(done))]
      ensures
        var c := old(chains[h]);
        && c.buf < |old(bufs)| && c.blockno < |old(store)| && c.blockno == old(bufs[c.buf]).blockno
        && store == (if c.write then old(store)[c.blockno := old(bufs[c.buf]).data] else old(store))
        && bufs == (if c.write then old(bufs) else old(bufs)[c.buf := old(bufs[c.buf]).(data := old(store)[c.blockno])])
      ensures Valid() && held == old(held) - {h} && Moved(old(View()), View())
    {
      ghost var q := View();
      ChainAt(q, h);
      ghost var data := Carry(h);
      CompleteKeeps(q, h, data);
      CompleteMoves(q, h, data);
      held := held - {h};
    }

    method Carry(h: nat) returns (ghost data: Block)
      requires Sizes(View()) && h in chains && ChainOk(View(), h) && usedIdx == done % IDX
      modifies `store, `bufs, `status, `usedRing, `usedIdx, `chains, `done
      ensures View() == Complete(old(View()), h, data) && usedIdx == done % IDX
      ensures
        var c := old(chains[h]);
        && store == (if c.write then old(store)[c.blockno := old(bufs[c.buf]).data] else old(store))
        && bufs == (if c.write then old(bufs) else old(bufs)[c.buf := old(bufs[c.buf]).(data := old(store)[c.blockno])])
    {
      var op := ops[desc[h].addr.i];
      var d := desc[desc[h].next];
      var x, st := d.addr.b, desc[d.next].addr.i;
      data := if op.write then bufs[x].data else store[op.sector / 2];
      if op.write {
        store := store[op.sector / 2 := bufs[x].data];
      } else {
        bufs := bufs[x := bufs[x].(data := store[op.sector / 2])];
      }
      Report(h, st);
    }

    /** The device clears the status byte and tells the used ring. */
    method Report(h: nat, st: nat)
      requires |status| == |usedRing| == NUM && st < NUM && h in chains && usedIdx == done % IDX
      modifies `status, `usedRing, `usedIdx, `chains, `done
      ensures status == old(status)[st := 0] && usedRing == old(usedRing)[old(done) % NUM := h]
      ensures done == old(done) + 1 && usedIdx == done % IDX
      ensures chains == old(chains)[h := old(chains[h]).(phase := Done, slot := old(done))]
    {
      status := status[st := 0];
      Wrap(done);
      usedRing := usedRing[usedIdx % NUM := h];
      usedIdx := (usedIdx + 1) % IDX;
      chains := chains[h := chains[h].(phase := Done, slot := done)];
      done := done + 1;
    }
  }
}
