/** Each call of pipewrite and piperead by itself: the bytes it moves, and what it returns. */
module PipeCalls {
  import opened Kernel
  import opened Bytes
  import opened Pipes

  function Wanted(n: int): nat {
    if n < 0 then 0 else n
  }

  /** The bytes that the step of p from s to t has stored. */
  function Stored(s: State, t: State): seq<Byte> {
    if |s.buf.stored| <= |t.buf.stored| then t.buf.stored[|s.buf.stored|..] else []
  }

  function Taken(s: State, t: State): seq<Byte> {
    if |s.buf.taken| <= |t.buf.taken| then t.buf.taken[|s.buf.taken|..] else []
  }

  /** The bytes that p has stored from step k on, before step m. */
  function StoredBy(states: seq<State>, evs: seq<Event>, p: nat, k: nat, m: nat): seq<Byte>
    requires |states| == |evs| + 1 && k <= m <= |evs|
  {
    if k == m then [] else
      StoredBy(states, evs, p, k, m - 1) + if evs[m - 1].proc == p then Stored(states[m - 1], states[m]) else []
  }

  function TakenBy(states: seq<State>, evs: seq<Event>, p: nat, k: nat, m: nat): seq<Byte>
    requires |states| == |evs| + 1 && k <= m <= |evs|
  {
    if k == m then [] else
      TakenBy(states, evs, p, k, m - 1) + if evs[m - 1].proc == p then Taken(states[m - 1], states[m]) else []
  }

  /** copyin or copyout has failed for p between the steps k and m. */
  predicate Faulted(evs: seq<Event>, p: nat, k: nat, m: nat)
    requires k <= m <= |evs|
  {
    k < m && (Faulted(evs, p, k, m - 1) || Fault(evs[m - 1], p))
  }

  predicate Fault(e: Event, p: nat) {
    e.proc == p && (e.action == Io(WFault) || e.action == Io(RFault))
  }

  /** p is in the call from step k on, up to step m. */
  predicate During(states: seq<State>, p: nat, k: nat, m: nat)
    requires k < m < |states|
  {
    forall j :: k < j <= m ==> p < |states[j].pc| && !states[j].pc[p].Idle?
  }

  // ----- pipewrite -----

  /** A call pipewrite(pi, addr, n) is at c and has stored x. */
  predicate Writing(c: Pc, n: int, x: seq<Byte>, faulted: bool) {
    match c
    case WTop(i, m, _) => !faulted && m == n && i == |x| && i <= Wanted(n)
    case Scan(_, _, next) => WritingThen(next, n, x, faulted)
    case Have(_, _, next) => WritingThen(next, n, x, faulted)
    case Own(ch, i, m) => !faulted && ch.ToWrite? && m == n && i == |x| && i < n
    case Gone(ch, i, m) => !faulted && ch.ToWrite? && m == n && i == |x| && i < n
    case Set(ch, i, m) => !faulted && ch.ToWrite? && m == n && i == |x| && i < n
    case Asleep(ch, i, m) => !faulted && ch.ToWrite? && m == n && i == |x| && i < n
    case Woken(ch, i, m) => !faulted && ch.ToWrite? && m == n && i == |x| && i < n
    case Again(ch, i, m) => !faulted && ch.ToWrite? && m == n && i == |x| && i < n
    case _ => false
  }

  predicate WritingThen(next: Then, n: int, x: seq<Byte>, faulted: bool) {
    match next
    case GoSleep(i, m) => !faulted && m == n && i == |x| && i < n
    case Finish(r) => r == |x| && if faulted then r < n else r == Wanted(n)
  }

  lemma WriteIo(s: State, p: nat, a: IoStep, n: int, x: seq<Byte>, faulted: bool)
    requires Can(s, p) && IoEnabled(s, p, a) && Writing(s.pc[p], n, x, faulted)
    ensures
      var t := IoNext(s, p, a);
      && (t.pc[p].Idle? || Writing(t.pc[p], n, x + Stored(s, t), faulted || a.WFault?))
      && !a.RFault?
  {
    assert Stored(s, s) == [] && x + [] == x;
  }

  lemma WriteSync(s: State, p: nat, a: SyncStep, n: int, x: seq<Byte>, faulted: bool)
    requires Can(s, p) && SyncEnabled(s, p, a) && Writing(s.pc[p], n, x, faulted)
    ensures
      var t := SyncNext(s, p, a);
      (t.pc[p].Idle? || Writing(t.pc[p], n, x, faulted)) && Stored(s, t) == []
  {
  }

  predicate Untouched(s: State, t: State) {
    t.buf == s.buf && t.writeopen == s.writeopen
  }

  lemma OthersIo(s: State, q: nat, a: IoStep, p: nat)
    requires Can(s, q) && IoEnabled(s, q, a) && p < |s.pc| && p != q
    ensures
      var t := IoNext(s, q, a);
      t.pc[p] == s.pc[p] && (Untouched(s, t) || s.lk.None? || HoldsLk(s.pc[q]))
  {
  }

  /** A step of q moves no other process, and the pipe only while no other process holds pi->lock. */
  lemma OthersStay(s: State, q: nat, a: Action, p: nat)
    requires Enabled(s, q, a) && p < |s.pc| && p != q
    ensures
      var t := Next(s, q, a);
      t.pc[p] == s.pc[p] && (Untouched(s, t) || s.lk.None? || HoldsLk(s.pc[q]))
  {
    match a
    case Io(x) => OthersIo(s, q, x, p);
    case Sync(x) => SyncFrame(s, q, x, p);
  }

  lemma WriteNext(s: State, e: Event, p: nat, n: int, x: seq<Byte>, faulted: bool)
    requires Enabled(s, e.proc, e.action) && p < |s.pc| && Writing(s.pc[p], n, x, faulted)
    requires !Next(s, e.proc, e.action).pc[p].Idle?
    ensures
      var t := Next(s, e.proc, e.action);
      Writing(t.pc[p], n, x + (if e.proc == p then Stored(s, t) else []), faulted || Fault(e, p))
  {
    assert x + [] == x;
    if e.proc != p {
      OthersStay(s, e.proc, e.action, p);
    } else {
      match e.action
      case Io(a) => WriteIo(s, p, a, n, x, faulted);
      case Sync(a) => WriteSync(s, p, a, n, x, faulted);
    }
  }

  lemma {:induction false} WriteSoFar(states: seq<State>, evs: seq<Event>, p: nat, k: nat, n: int, m: nat)
    requires IsRun(states, evs) && k < m < |states| && evs[k] == Event(p, Io(Write(n))) && During(states, p, k, m)
    ensures Writing(states[m].pc[p], n, StoredBy(states, evs, p, k, m), Faulted(evs, p, k, m))
  {
    if m == k + 1 {
      assert StoredBy(states, evs, p, k, k) == [] && Stored(states[k], states[m]) == [];
      assert !Faulted(evs, p, k, k) && !Fault(evs[k], p);
    } else {
      WriteSoFar(states, evs, p, k, n, m - 1);
      WriteNext(states[m - 1], evs[m - 1], p, n, StoredBy(states, evs, p, k, m - 1), Faulted(evs, p, k, m - 1));
    }
  }

  /** What pipewrite returns by the step a. */
  function Result(c: Pc, a: Action): int {
    if a == Sync(ScanEnd) && c.Scan? && c.next.Finish? then c.next.r else -1
  }

  lemma WriteReturn(s: State, p: nat, a: Action, n: int, x: seq<Byte>, faulted: bool)
    requires Enabled(s, p, a) && Writing(s.pc[p], n, x, faulted) && Next(s, p, a).pc[p].Idle?
    ensures
      if Result(s.pc[p], a) == -1 then |x| < n && (!s.readopen || s.killed[p])
      else WritingThen(Finish(Result(s.pc[p], a)), n, x, faulted)
  {
    match a
    case Io(y) => IoReturn(s, p, y);
    case Sync(y) => SyncReturn(s, p, y);
  }

  lemma IoReturn(s: State, p: nat, a: IoStep)
    requires Can(s, p) && IoEnabled(s, p, a) && IoNext(s, p, a).pc[p].Idle?
    ensures a.WFail? || a.RKilled?
  {
  }

  lemma SyncReturn(s: State, p: nat, a: SyncStep)
    requires Can(s, p) && SyncEnabled(s, p, a) && SyncNext(s, p, a).pc[p].Idle?
    ensures a.ScanEnd? || a.KillWake?
  {
  }

  /**
   Whatever other calls do meanwhile: a call pipewrite(pi, addr, n) that returns r >= 0 has stored r bytes, all n of
   them unless copyin has failed before; it returns -1 before the n-th byte, killed or without a reader.
   */
  lemma WriteCall(states: seq<State>, evs: seq<Event>, p: nat, k: nat, n: int, m: nat)
    requires IsRun(states, evs) && k < m < |evs| && evs[k] == Event(p, Io(Write(n))) && During(states, p, k, m)
    requires evs[m].proc == p && states[m + 1].pc[p].Idle?
    ensures
      var x, r := StoredBy(states, evs, p, k, m), Result(states[m].pc[p], evs[m].action);
      if r == -1 then |x| < n && (!states[m].readopen || states[m].killed[p])
      else r == |x| && if Faulted(evs, p, k, m) then r < n else r == Wanted(n)
  {
    WriteSoFar(states, evs, p, k, n, m);
    WriteReturn(states[m], p, evs[m].action, n, StoredBy(states, evs, p, k, m), Faulted(evs, p, k, m));
  }

  // ----- piperead -----

  predicate Ends(taken: seq<Byte>, x: seq<Byte>) {
    |x| <= |taken| && taken[|taken| - |x|..] == x
  }

  /** A call piperead(pi, addr, n) is at c and has taken x. */
  predicate Reading(c: Pc, b: Buffer, open: bool, n: int, x: seq<Byte>, faulted: bool) {
    match c
    case RTop(m) => !faulted && m == n && x == []
    case RCopy(i, m) =>
      !faulted && m == n && i == |x| && i <= Wanted(n) && Ends(b.taken, x) && (x == [] && Empty(b) ==> !open)
    case Scan(_, _, next) => ReadingThen(next, b, open, n, x, faulted)
    case Have(_, _, next) => ReadingThen(next, b, open, n, x, faulted)
    case Own(ch, _, m) => !faulted && ch.ToRead? && m == n && x == []
    case Gone(ch, _, m) => !faulted && ch.ToRead? && m == n && x == []
    case Set(ch, _, m) => !faulted && ch.ToRead? && m == n && x == []
    case Asleep(ch, _, m) => !faulted && ch.ToRead? && m == n && x == []
    case Woken(ch, _, m) => !faulted && ch.ToRead? && m == n && x == []
    case Again(ch, _, m) => !faulted && ch.ToRead? && m == n && x == []
    case _ => false
  }

  predicate ReadingThen(next: Then, b: Buffer, open: bool, n: int, x: seq<Byte>, faulted: bool) {
    next.Finish? && next.r >= 0 && Ends(b.taken, x) && (x == [] && Empty(b) ==> !open) &&
    if faulted then |x| == next.r + 1 <= n else next.r == |x| <= Wanted(n) && (|x| == Wanted(n) || Empty(b))
  }

  lemma ReadIo(s: State, p: nat, a: IoStep, n: int, x: seq<Byte>, faulted: bool)
    requires Can(s, p) && IoEnabled(s, p, a) && Reading(s.pc[p], s.buf, s.writeopen, n, x, faulted) && !a.RTake? && !a.RFault?
    ensures
      var t := IoNext(s, p, a);
      (t.pc[p].Idle? || Reading(t.pc[p], s.buf, s.writeopen, n, x, faulted)) && Untouched(s, t) && !a.WFault?
  {
  }

  lemma ReadSync(s: State, p: nat, a: SyncStep, n: int, x: seq<Byte>, faulted: bool)
    requires Can(s, p) && SyncEnabled(s, p, a) && Reading(s.pc[p], s.buf, s.writeopen, n, x, faulted)
    ensures
      var t := SyncNext(s, p, a);
      (t.pc[p].Idle? || Reading(t.pc[p], s.buf, s.writeopen, n, x, faulted)) && Untouched(s, t)
  {
  }

  lemma ReadTake(s: State, p: nat, a: IoStep, n: int, x: seq<Byte>, faulted: bool)
    requires Can(s, p) && IoEnabled(s, p, a) && Reading(s.pc[p], s.buf, s.writeopen, n, x, faulted) && (a.RTake? || a.RFault?)
    ensures
      var t := IoNext(s, p, a);
      Reading(t.pc[p], t.buf, t.writeopen, n, x + Taken(s, t), faulted || a.RFault?)
  {
    var t := IoNext(s, p, a);
    var b := s.buf.data[s.buf.nread % PIPESIZE];
    EndsMore(s.buf.taken, x, b);
    assert Taken(s, t) == [b];
  }

  /** While p holds pi->lock no other process touches the pipe. */
  lemma OthersRead(s: State, t: State, p: nat, q: nat, n: int, x: seq<Byte>, faulted: bool)
    requires Can(s, p) && Can(t, p) && q < |s.pc| && p != q && PipeLock(s) && Reading(s.pc[p], s.buf, s.writeopen, n, x, faulted)
    requires t.pc[p] == s.pc[p] && (Untouched(s, t) || s.lk.None? || HoldsLk(s.pc[q]))
    ensures Reading(t.pc[p], t.buf, t.writeopen, n, x, faulted)
  {
  }

  lemma EndsMore(taken: seq<Byte>, x: seq<Byte>, b: Byte)
    requires Ends(taken, x)
    ensures Ends(taken + [b], x + [b])
  {
  }

  lemma ReadNext(s: State, e: Event, p: nat, n: int, x: seq<Byte>, faulted: bool)
    requires Enabled(s, e.proc, e.action) && PipeLock(s) && p < |s.pc| && Reading(s.pc[p], s.buf, s.writeopen, n, x, faulted)
    requires !Next(s, e.proc, e.action).pc[p].Idle?
    ensures
      var t := Next(s, e.proc, e.action);
      Reading(t.pc[p], t.buf, t.writeopen, n, x + (if e.proc == p then Taken(s, t) else []), faulted || Fault(e, p))
  {
    var t := Next(s, e.proc, e.action);
    assert x + [] == x;
    if e.proc != p {
      OthersStay(s, e.proc, e.action, p);
      OthersRead(s, t, p, e.proc, n, x, faulted);
    } else if e.action == Io(RTake) || e.action == Io(RFault) {
      ReadTake(s, p, e.action.io, n, x, faulted);
    } else {
      match e.action {
        case Io(a) => ReadIo(s, p, a, n, x, faulted);
        case Sync(a) => ReadSync(s, p, a, n, x, faulted);
      }
      assert Taken(s, t) == [];
    }
  }

  lemma ReadFirst(s: State, p: nat, n: int)
    requires Enabled(s, p, Io(Read(n)))
    ensures Next(s, p, Io(Read(n))).pc[p] == RTop(n) && Taken(s, Next(s, p, Io(Read(n)))) == []
    ensures !Fault(Event(p, Io(Read(n))), p)
  {
  }

  lemma Locked(states: seq<State>, evs: seq<Event>, n: nat)
    requires IsRun(states, evs) && Initial(states[0]) && n < |states|
    ensures Sized(states[n]) && PipeLock(states[n])
  {
    RunInvariant(states, evs, n);
  }

  ghost predicate ReadingAt(states: seq<State>, evs: seq<Event>, p: nat, k: nat, n: int, m: nat)
    requires |states| == |evs| + 1 && k <= m <= |evs|
  {
    p < |states[m].pc| && forall key: bool :: ReadingParts(key, states, evs, p, k, n, m)
  }

  /** The key keeps ReadingAt from unfolding except where a proof names its parts. */
  ghost predicate ReadingParts(key: bool, states: seq<State>, evs: seq<Event>, p: nat, k: nat, n: int, m: nat)
    requires |states| == |evs| + 1 && k <= m <= |evs| && p < |states[m].pc|
  {
    Reading(states[m].pc[p], states[m].buf, states[m].writeopen, n, TakenBy(states, evs, p, k, m), Faulted(evs, p, k, m))
  }

  lemma ReadBegins(states: seq<State>, evs: seq<Event>, p: nat, k: nat, n: int)
    requires |states| == |evs| + 1 && k < |evs| && evs[k] == Event(p, Io(Read(n)))
    requires Enabled(states[k], p, Io(Read(n))) && states[k + 1] == Next(states[k], p, Io(Read(n)))
    ensures ReadingAt(states, evs, p, k, n, k + 1)
  {
    ReadFirst(states[k], p, n);
    assert TakenBy(states, evs, p, k, k) == [] && !Faulted(evs, p, k, k);
  }

  lemma ReadMore(states: seq<State>, evs: seq<Event>, p: nat, k: nat, n: int, j: nat, m: nat)
    requires |states| == |evs| + 1 && k < j < m == j + 1 <= |evs|
    requires Enabled(states[j], evs[j].proc, evs[j].action) && PipeLock(states[j])
    requires states[m] == Next(states[j], evs[j].proc, evs[j].action) && p < |states[m].pc| && !states[m].pc[p].Idle?
    requires ReadingAt(states, evs, p, k, n, j)
    ensures ReadingAt(states, evs, p, k, n, m)
  {
    var s, x, f := states[j], TakenBy(states, evs, p, k, j), Faulted(evs, p, k, j);
    assert ReadingParts(true, states, evs, p, k, n, j);
    ReadNext(s, evs[j], p, n, x, f);
    assert TakenBy(states, evs, p, k, m) == x + if evs[j].proc == p then Taken(s, states[m]) else [];
    assert Faulted(evs, p, k, m) == (f || Fault(evs[j], p));
  }

  lemma {:induction false} ReadSoFar(states: seq<State>, evs: seq<Event>, p: nat, k: nat, n: int, m: nat)
    requires IsRun(states, evs) && Initial(states[0])
    requires k < m < |states| && evs[k] == Event(p, Io(Read(n))) && During(states, p, k, m)
    ensures ReadingAt(states, evs, p, k, n, m)
  {
    if m == k + 1 {
      ReadBegins(states, evs, p, k, n);
    } else {
      ReadSoFar(states, evs, p, k, n, m - 1);
      Locked(states, evs, m - 1);
      ReadMore(states, evs, p, k, n, m - 1, m);
    }
  }

  function Least(a: nat, b: nat): nat {
    if a < b then a else b
  }

  /** What a call piperead(pi, addr, n) has done that has taken x from the ring b and returns r. */
  predicate ReadDone(b: Buffer, open: bool, n: int, x: seq<Byte>, r: int, faulted: bool) {
    && |x| <= |b.taken| <= |b.stored| && b.taken == b.stored[..|b.taken| - |x|] + x
    && var there := |b.stored| - (|b.taken| - |x|);
       && (if faulted then |x| == r + 1 <= Least(Wanted(n), there) else |x| == r == Least(Wanted(n), there))
       && (there == 0 ==> !open)
  }

  lemma ReadEnd(b: Buffer, open: bool, n: int, x: seq<Byte>, r: int, faulted: bool)
    requires Fifo(b) && ReadingThen(Finish(r), b, open, n, x, faulted)
    ensures ReadDone(b, open, n, x, r, faulted)
  {
    Tests(b);
    var k := |b.taken| - |x|;
    assert b.taken == b.taken[..k] + b.taken[k..];
    assert b.taken[..k] == b.stored[..k];
  }

  lemma ReadReturn(s: State, p: nat, a: Action, n: int, x: seq<Byte>, faulted: bool)
    requires Enabled(s, p, a) && Reading(s.pc[p], s.buf, s.writeopen, n, x, faulted) && Next(s, p, a).pc[p].Idle?
    ensures
      if Result(s.pc[p], a) == -1 then x == [] && s.killed[p]
      else ReadingThen(Finish(Result(s.pc[p], a)), s.buf, s.writeopen, n, x, faulted)
  {
    match a
    case Io(y) => IoReturn(s, p, y);
    case Sync(y) => SyncReturn(s, p, y);
  }

  /**
   A call piperead(pi, addr, n) that returns r >= 0 has taken the next bytes of the pipe: as many as there are, but
   no more than n, and r is their number; if copyout fails, the byte it fails for is taken too and not counted.  If
   there are none, no writer is left.  It returns -1 without any byte, and only if killed.
   */
  lemma ReadCall(states: seq<State>, evs: seq<Event>, p: nat, k: nat, n: int, m: nat)
    requires IsRun(states, evs) && Initial(states[0])
    requires k < m < |evs| && evs[k] == Event(p, Io(Read(n))) && During(states, p, k, m)
    requires evs[m].proc == p && states[m + 1].pc[p].Idle?
    ensures
      var x, r := TakenBy(states, evs, p, k, m), Result(states[m].pc[p], evs[m].action);
      if r == -1 then x == [] && states[m].killed[p]
      else ReadDone(states[m].buf, states[m].writeopen, n, x, r, Faulted(evs, p, k, m))
  {
    ReadSoFar(states, evs, p, k, n, m);
    assert ReadingParts(true, states, evs, p, k, n, m);
    RunInvariant(states, evs, m);
    var s, a, x, f := states[m], evs[m].action, TakenBy(states, evs, p, k, m), Faulted(evs, p, k, m);
    ReadReturn(s, p, a, n, x, f);
    if Result(s.pc[p], a) != -1 {
      ReadEnd(s.buf, s.writeopen, n, x, Result(s.pc[p], a), f);
    }
  }

  // ----- no deadlock -----

  /** What a process does next that holds pi->lock or some p->lock. */
  function Onward(s: State, p: nat): (a: Action)
    requires Can(s, p)
  {
    match s.pc[p]
    case WTop(i, n, _) =>
      if i >= n then Io(WDone) else if !s.readopen then Io(WFail) else if Full(s.buf) then Io(WFull) else Io(WStore(0))
    case RTop(_) => if Empty(s.buf) && s.writeopen then Io(RSleep) else Io(RGo)
    case RCopy(i, n) => if i >= n then Io(RDone) else if Empty(s.buf) then Io(REmpty) else Io(RTake)
    case Scan(_, j, next) =>
      if j == p then Sync(ScanSelf) else if j < |s.pc| then Sync(ScanLock)
      else if next.GoSleep? then Sync(ScanSleep) else Sync(ScanEnd)
    case Have(_, _, _) => Sync(ScanWake)
    case Own(_, _, _) => Sync(Unlock)
    case Gone(_, _, _) => Sync(Commit)
    case Set(_, _, _) => Sync(Switch)
    case Woken(_, _, _) => Sync(Tidy)
    case KillHave(_) => Sync(KillWake)
    case _ => Io(Read(0))
  }

  ghost predicate Holds(s: State, p: nat)
    requires Can(s, p)
  {
    s.lk == Some(p) || exists q: nat :: q < |s.pc| && s.plock[q] == Some(p)
  }

  lemma LockHolderGoesOn(s: State, p: nat, q: nat)
    requires Inv(s) && p < |s.pc| && q < |s.pc| && s.plock[q] == Some(p)
    ensures Enabled(s, p, Onward(s, p)) && Holds(s, p)
  {
    assert Local(s, p) && LockOf(s, q);
  }

  lemma PipeHolderGoesOn(s: State, p: nat)
    requires Inv(s) && p < |s.pc| && s.lk == Some(p) && forall q: nat :: q < |s.pc| ==> s.plock[q].None?
    ensures Enabled(s, p, Onward(s, p)) && Holds(s, p)
  {
    assert Local(s, p);
  }

  /** Locks are never held in a circle: while any is held, some holder can take its next step. */
  lemma NoDeadlock(states: seq<State>, evs: seq<Event>, n: nat)
    requires IsRun(states, evs) && Initial(states[0]) && n < |states|
    ensures Sized(states[n])
    ensures (states[n].lk.Some? || exists q: nat :: q < |states[n].pc| && states[n].plock[q].Some?) ==>
      exists p: nat :: p < |states[n].pc| && Holds(states[n], p) && Enabled(states[n], p, Onward(states[n], p))
  {
    RunInvariant(states, evs, n);
    var s := states[n];
    if q: nat :| q < |s.pc| && s.plock[q].Some? {
      assert LockOf(s, q);
      LockHolderGoesOn(s, s.plock[q].value, q);
    } else if s.lk.Some? {
      PipeHolderGoesOn(s, s.lk.value);
    }
  }
}
