/**
 A pipe of kernel/pipe.c among any number of readers and writers: pi->lock, every p->lock, the scan of
 each wakeup, the two sleeps, close and kill, step by step.  What has gone through the pipe is kept beside
 the 32-bit counters and the ring.
 */
module Pipes {
  import opened Kernel
  import opened Bytes

  const UINT := 0x1_0000_0000
  const PIPESIZE := 512

  /** The channels &pi->nread, on which readers sleep, and &pi->nwrite, for writers. */
  datatype Chan = ToRead | ToWrite

  /** What follows a wakeup: the writer's sleep, or release(&pi->lock) and the return of r. */
  datatype Then = GoSleep(i: nat, n: int) | Finish(r: int)

  datatype Pc =
    | Idle                                     // outside pipe.c
    | WTop(i: nat, n: int, unsaid: bool)       // writer at its loop test; unsaid: it has stored since its last wakeup
    | RTop(n: int)                             // reader at its waiting loop
    | RCopy(i: nat, n: int)                    // reader at its copying loop
    | Scan(ch: Chan, j: nat, next: Then)      // wakeup(ch) is at process j
    | Have(ch: Chan, j: nat, next: Then)      // the same, process j locked
    | Own(ch: Chan, i: nat, n: int)            // sleep(ch, &pi->lock): p->lock taken
    | Gone(ch: Chan, i: nat, n: int)           // pi->lock released
    | Set(ch: Chan, i: nat, n: int)            // SLEEPING, still on the CPU
    | Asleep(ch: Chan, i: nat, n: int)         // off the CPU
    | Woken(ch: Chan, i: nat, n: int)          // back from sched, p->lock held
    | Again(ch: Chan, i: nat, n: int)          // before acquire(&pi->lock)
    | KillHave(q: nat)                         // kill: process q locked

  datatype Buffer = Buffer(
    data: seq<Byte>, nread: nat, nwrite: nat,
    stored: seq<Byte>, taken: seq<Byte>)       // every byte stored, every byte taken out

  datatype State = State(
    pc: seq<Pc>, st: seq<ProcState>, chan: seq<Option<Chan>>, killed: seq<bool>, plock: seq<Option<nat>>,
    lk: Option<nat>, buf: Buffer, readopen: bool, writeopen: bool,
    lost: bool)                                // there are bytes since a killed writer left that no wakeup followed

  datatype IoStep =
    | Write(n: int) | WFail | WFull | WStore(b: Byte) | WFault | WDone
    | Read(n: int) | RKilled | RSleep | RGo | RTake | RFault | REmpty | RDone
    | CloseWrite | CloseRead

  datatype SyncStep =
    | ScanLock | ScanSelf | ScanWake | ScanSleep | ScanEnd
    | Unlock | Commit | Switch | Wakened | Tidy | Relock
    | Kill(q: nat) | KillWake

  datatype Action = Io(io: IoStep) | Sync(sync: SyncStep)

  // ----- the ring -----

  predicate Full(b: Buffer) {
    b.nwrite == (b.nread + PIPESIZE) % UINT
  }

  predicate Empty(b: Buffer) {
    b.nread == b.nwrite
  }

  function Put(b: Buffer, x: Byte): Buffer
    requires |b.data| == PIPESIZE
  {
    b.(data := b.data[b.nwrite % PIPESIZE := x], nwrite := (b.nwrite + 1) % UINT, stored := b.stored + [x])
  }

  function Get(b: Buffer): Buffer
    requires |b.data| == PIPESIZE
  {
    b.(nread := (b.nread + 1) % UINT, taken := b.taken + [b.data[b.nread % PIPESIZE]])
  }

  /** The pipe is a queue: the bytes taken are the first ones stored, and the ring holds the others. */
  ghost predicate Fifo(b: Buffer) {
    && |b.data| == PIPESIZE && b.taken <= b.stored && |b.stored| - |b.taken| <= PIPESIZE
    && b.nread == |b.taken| % UINT && b.nwrite == |b.stored| % UINT
    && forall k :: |b.taken| <= k < |b.stored| ==> b.stored[k] == b.data[k % PIPESIZE]
  }

  lemma Wrap(n: nat)
    ensures n % UINT % PIPESIZE == n % PIPESIZE && (n % UINT + 1) % UINT == (n + 1) % UINT
    ensures (n % UINT + PIPESIZE) % UINT == (n + PIPESIZE) % UINT
  {
  }

  lemma Near(m: nat, n: nat)
    requires m <= n <= m + PIPESIZE
    ensures m % UINT == n % UINT ==> m == n
    ensures m < n ==> (m + PIPESIZE) % PIPESIZE == m % PIPESIZE && (n - m < PIPESIZE ==> m % PIPESIZE != n % PIPESIZE)
  {
  }

  lemma Tests(b: Buffer)
    requires Fifo(b)
    ensures Full(b) <==> |b.stored| == |b.taken| + PIPESIZE
    ensures Empty(b) <==> |b.stored| == |b.taken|
  {
    Wrap(|b.taken|);
    Near(|b.taken|, |b.stored|);
    Near(|b.stored|, |b.taken| + PIPESIZE);
  }

  lemma PutKeeps(b: Buffer, x: Byte)
    requires Fifo(b) && !Full(b)
    ensures Fifo(Put(b, x))
  {
    Tests(b);
    Wrap(|b.stored|);
    forall k | |b.taken| <= k < |b.stored|
      ensures k % PIPESIZE != |b.stored| % PIPESIZE
    {
      Near(k, |b.stored|);
    }
  }

  lemma GetKeeps(b: Buffer)
    requires Fifo(b) && !Empty(b)
    ensures Fifo(Get(b))
  {
    Tests(b);
    Wrap(|b.taken|);
    assert b.stored[|b.taken|] == b.data[|b.taken| % PIPESIZE];
    assert b.stored[..|b.taken| + 1] == b.stored[..|b.taken|] + [b.stored[|b.taken|]];
  }

  // ----- steps -----

  predicate Sized(s: State) {
    |s.pc| == |s.st| == |s.chan| == |s.killed| == |s.plock| && |s.buf.data| == PIPESIZE
  }

  predicate Can(s: State, p: nat) {
    Sized(s) && p < |s.pc|
  }

  /** p is in piperead, outside its last wakeup. */
  predicate Reader(c: Pc) {
    c.RTop? || c.RCopy? || ((c.Own? || c.Gone? || c.Set? || c.Asleep? || c.Woken? || c.Again?) && c.ch == ToRead)
  }

  /** p is in pipewrite, outside its last wakeup. */
  predicate Writer(c: Pc) {
    || c.WTop? || ((c.Own? || c.Gone? || c.Set? || c.Asleep? || c.Woken? || c.Again?) && c.ch == ToWrite)
    || ((c.Scan? || c.Have?) && c.next.GoSleep?)
  }

  /**
   pipewrite goes on: the read end is open.  killed(pr) was false some time before, under p->lock, and may
   have become true since; so going on does not ask for it.
   */
  predicate Goes(s: State, p: nat)
    requires Can(s, p)
  {
    s.pc[p].WTop? && s.pc[p].i < s.pc[p].n && s.readopen
  }

  /** An end is closed by the last process that has it open, so no other process uses it then. */
  predicate IoEnabled(s: State, p: nat, a: IoStep)
    requires Can(s, p)
  {
    var c := s.pc[p];
    match a
    case Write(n) => c.Idle? && s.lk.None? && s.writeopen
    case WFail => c.WTop? && c.i < c.n && (!s.readopen || (s.killed[p] && s.plock[p].None?))
    case WFull => Goes(s, p) && Full(s.buf)
    case WStore(b) => Goes(s, p) && !Full(s.buf)
    case WFault => Goes(s, p) && !Full(s.buf)
    case WDone => c.WTop? && c.i >= c.n
    case Read(n) => c.Idle? && s.lk.None? && s.readopen
    case RKilled => c.RTop? && Empty(s.buf) && s.writeopen && s.killed[p] && s.plock[p].None?
    case RSleep => c.RTop? && Empty(s.buf) && s.writeopen && s.plock[p].None?
    case RGo => c.RTop? && !(Empty(s.buf) && s.writeopen)
    case RTake => c.RCopy? && c.i < c.n && !Empty(s.buf)
    case RFault => c.RCopy? && c.i < c.n && !Empty(s.buf)
    case REmpty => c.RCopy? && c.i < c.n && Empty(s.buf)
    case RDone => c.RCopy? && c.i >= c.n
    case CloseWrite => c.Idle? && s.lk.None? && s.writeopen && forall q: nat :: q < |s.pc| ==> !Writer(s.pc[q])
    case CloseRead => c.Idle? && s.lk.None? && s.readopen && forall q: nat :: q < |s.pc| ==> !Reader(s.pc[q])
  }

  predicate SyncEnabled(s: State, p: nat, a: SyncStep)
    requires Can(s, p)
  {
    var c := s.pc[p];
    match a
    case ScanLock => c.Scan? && c.j < |s.pc| && c.j != p && s.plock[c.j].None?
    case ScanSelf => c.Scan? && c.j == p
    case ScanWake => c.Have? && c.j < |s.pc|
    case ScanSleep => c.Scan? && c.j == |s.pc| && c.next.GoSleep? && s.plock[p].None?
    case ScanEnd => c.Scan? && c.j == |s.pc| && c.next.Finish?
    case Unlock => c.Own?
    case Commit => c.Gone?
    case Switch => c.Set?
    case Wakened => c.Asleep? && s.st[p].RUNNABLE? && s.plock[p].None?
    case Tidy => c.Woken?
    case Relock => c.Again? && s.lk.None?
    case Kill(q) => c.Idle? && q < |s.pc| && s.plock[q].None?
    case KillWake => c.KillHave? && c.q < |s.pc|
  }

  predicate Enabled(s: State, p: nat, a: Action) {
    Can(s, p) &&
    match a
    case Io(x) => IoEnabled(s, p, x)
    case Sync(x) => SyncEnabled(s, p, x)
  }

  function To(s: State, p: nat, c: Pc): State
    requires p < |s.pc|
  {
    s.(pc := s.pc[p := c])
  }

  function IoNext(s: State, p: nat, a: IoStep): (t: State)
    requires Can(s, p) && IoEnabled(s, p, a)
    ensures Sized(t) && |t.pc| == |s.pc|
  {
    var c := s.pc[p];
    match a
    case Write(n) => To(s, p, WTop(0, n, false)).(lk := Some(p))
    case WFail => To(s, p, Idle).(lk := None, lost := s.lost || (c.unsaid && s.readopen))
    case WFull => To(s, p, Scan(ToRead, 0, GoSleep(c.i, c.n))).(lost := false)
    case WStore(b) => To(s, p, WTop(c.i + 1, c.n, true)).(buf := Put(s.buf, b))
    case WFault => To(s, p, Scan(ToRead, 0, Finish(c.i))).(lost := false)
    case WDone => To(s, p, Scan(ToRead, 0, Finish(c.i))).(lost := false)
    case Read(n) => To(s, p, RTop(n)).(lk := Some(p))
    case RKilled => To(s, p, Idle).(lk := None)
    case RSleep => To(s, p, Own(ToRead, 0, c.n)).(plock := s.plock[p := Some(p)])
    case RGo => To(s, p, RCopy(0, c.n))
    case RTake => To(s, p, RCopy(c.i + 1, c.n)).(buf := Get(s.buf), lost := s.lost && !Empty(Get(s.buf)))
    case RFault => To(s, p, Scan(ToWrite, 0, Finish(c.i))).(buf := Get(s.buf), lost := s.lost && !Empty(Get(s.buf)))
    case REmpty => To(s, p, Scan(ToWrite, 0, Finish(c.i)))
    case RDone => To(s, p, Scan(ToWrite, 0, Finish(c.i)))
    case CloseWrite => To(s, p, Scan(ToRead, 0, Finish(0))).(lk := Some(p), writeopen := false, lost := false)
    case CloseRead => To(s, p, Scan(ToWrite, 0, Finish(0))).(lk := Some(p), readopen := false)
  }

  function SyncNext(s: State, p: nat, a: SyncStep): (t: State)
    requires Can(s, p) && SyncEnabled(s, p, a)
    ensures Sized(t) && |t.pc| == |s.pc|
  {
    var c := s.pc[p];
    match a
    case ScanLock => To(s, p, Have(c.ch, c.j, c.next)).(plock := s.plock[c.j := Some(p)])
    case ScanSelf => To(s, p, Scan(c.ch, c.j + 1, c.next))
    case ScanWake =>
      To(s, p, Scan(c.ch, c.j + 1, c.next)).(
        plock := s.plock[c.j := None],
        st := if s.st[c.j].SLEEPING? && s.chan[c.j] == Some(c.ch) then s.st[c.j := RUNNABLE] else s.st)
    case ScanSleep => To(s, p, Own(ToWrite, c.next.i, c.next.n)).(plock := s.plock[p := Some(p)])
    case ScanEnd => To(s, p, Idle).(lk := None)
    case Unlock => To(s, p, Gone(c.ch, c.i, c.n)).(lk := None)
    case Commit => To(s, p, Set(c.ch, c.i, c.n)).(st := s.st[p := SLEEPING], chan := s.chan[p := Some(c.ch)])
    case Switch => To(s, p, Asleep(c.ch, c.i, c.n)).(plock := s.plock[p := None])
    case Wakened => To(s, p, Woken(c.ch, c.i, c.n)).(st := s.st[p := RUNNING], plock := s.plock[p := Some(p)])
    case Tidy => To(s, p, Again(c.ch, c.i, c.n)).(chan := s.chan[p := None], plock := s.plock[p := None])
    case Relock => To(s, p, if c.ch.ToRead? then RTop(c.n) else WTop(c.i, c.n, false)).(lk := Some(p))
    case Kill(q) => To(s, p, KillHave(q)).(plock := s.plock[q := Some(p)])
    case KillWake =>
      To(s, p, Idle).(killed := s.killed[c.q := true], plock := s.plock[c.q := None],
                      st := if s.st[c.q].SLEEPING? then s.st[c.q := RUNNABLE] else s.st)
  }

  function Next(s: State, p: nat, a: Action): (t: State)
    requires Enabled(s, p, a)
    ensures Sized(t) && |t.pc| == |s.pc|
  {
    match a
    case Io(x) => IoNext(s, p, x)
    case Sync(x) => SyncNext(s, p, x)
  }

  // ----- the invariant -----

  predicate HoldsLk(c: Pc) {
    c.WTop? || c.RTop? || c.RCopy? || c.Scan? || c.Have? || c.Own?
  }

  predicate HoldsLockOf(c: Pc, p: nat, q: nat) {
    match c
    case Have(_, j, _) => j == q
    case Own(_, _, _) => p == q
    case Gone(_, _, _) => p == q
    case Set(_, _, _) => p == q
    case Woken(_, _, _) => p == q
    case KillHave(r) => r == q
    case _ => false
  }

  ghost predicate PipeLock(s: State)
    requires Sized(s)
  {
    && (s.lk.Some? ==> s.lk.value < |s.pc|)
    && (forall p: nat :: p < |s.pc| ==> (s.lk == Some(p) <==> HoldsLk(s.pc[p])))
  }

  ghost predicate LockOf(s: State, q: nat)
    requires Can(s, q)
  {
    && (s.plock[q].Some? ==> s.plock[q].value < |s.pc|)
    && (forall p: nat :: p < |s.pc| ==> (s.plock[q] == Some(p) <==> HoldsLockOf(s.pc[p], p, q)))
  }

  predicate InRange(c: Pc, p: nat, n: nat) {
    match c
    case Scan(_, j, _) => j <= n
    case Have(_, j, _) => j < n && j != p
    case KillHave(q) => q < n
    case _ => true
  }

  predicate StateAt(s: State, p: nat)
    requires Can(s, p)
  {
    match s.pc[p]
    case Set(ch, _, _) => s.st[p].SLEEPING? && s.chan[p] == Some(ch)
    case Asleep(ch, _, _) => (s.st[p].SLEEPING? || s.st[p].RUNNABLE?) && s.chan[p] == Some(ch)
    case _ => s.st[p].RUNNING?
  }

  /** Who is inside has its end open; a writer about to sleep has seen the pipe full. */
  predicate Inside(s: State, p: nat)
    requires Can(s, p)
  {
    && (Reader(s.pc[p]) ==> s.readopen) && (Writer(s.pc[p]) ==> s.writeopen)
    && ((s.pc[p].Scan? || s.pc[p].Have?) && s.pc[p].next.GoSleep? ==>
          s.pc[p].ch.ToRead? && Full(s.buf) && s.readopen)
  }

  /** p sleeps on ch, or is on its way to with no test left before it does. */
  predicate Committed(s: State, p: nat, ch: Chan)
    requires Can(s, p)
  {
    var c := s.pc[p];
    (c.Own? || c.Gone? || c.Set? || (c.Asleep? && s.st[p].SLEEPING?)) && c.ch == ch
  }

  /** The holder of pi->lock will still get to p in a wakeup(ch). */
  predicate Coming(s: State, p: nat, ch: Chan)
    requires Sized(s)
  {
    s.lk.Some? && s.lk.value < |s.pc| &&
    var c := s.pc[s.lk.value];
    || ((c.Scan? || c.Have?) && c.ch == ch && c.j <= p)
    || (ch.ToRead? && c.WTop? && c.unsaid)
    || (ch.ToWrite? && c.RCopy?)
  }

  predicate Sound(s: State, p: nat)
    requires Can(s, p)
  {
    && (Committed(s, p, ToRead) ==> s.lost || (Empty(s.buf) && s.writeopen) || Coming(s, p, ToRead))
    && (Committed(s, p, ToWrite) ==> (Full(s.buf) && s.readopen) || Coming(s, p, ToWrite))
  }

  /** A writer that has stored, and a writer that left in mid-write, leave bytes in the pipe. */
  predicate Untold(s: State) {
    && (s.lost ==> !Empty(s.buf) && s.writeopen)
    && (s.lk.Some? && s.lk.value < |s.pc| && s.pc[s.lk.value].WTop? && s.pc[s.lk.value].unsaid ==> !Empty(s.buf))
  }

  ghost predicate Local(s: State, p: nat)
    requires Can(s, p)
  {
    InRange(s.pc[p], p, |s.pc|) && StateAt(s, p) && Inside(s, p)
  }

  ghost predicate Inv(s: State) {
    && Sized(s) && Fifo(s.buf) && PipeLock(s) && Untold(s)
    && (forall p: nat :: p < |s.pc| ==> LockOf(s, p))
    && (forall p: nat :: p < |s.pc| ==> Local(s, p))
    && (forall p: nat :: p < |s.pc| ==> Sound(s, p))
  }

  // ----- every step keeps it -----

  lemma FifoIo(s: State, p: nat, a: IoStep)
    requires Can(s, p) && IoEnabled(s, p, a) && Fifo(s.buf)
    ensures Fifo(IoNext(s, p, a).buf)
  {
    match a
    case WStore(b) => PutKeeps(s.buf, b);
    case RTake => GetKeeps(s.buf);
    case RFault => GetKeeps(s.buf);
    case _ =>
  }

  lemma UntoldIo(s: State, p: nat, a: IoStep)
    requires Can(s, p) && IoEnabled(s, p, a) && Fifo(s.buf) && PipeLock(s) && Untold(s) && Local(s, p)
    ensures Untold(IoNext(s, p, a))
  {
    Tests(s.buf);
    if a.WStore? {
      PutKeeps(s.buf, a.b);
      Tests(Put(s.buf, a.b));
    }
  }

  lemma PipeLockIo(s: State, p: nat, a: IoStep)
    requires Can(s, p) && IoEnabled(s, p, a) && PipeLock(s)
    ensures PipeLock(IoNext(s, p, a))
  {
  }

  lemma LockOfIo(s: State, p: nat, a: IoStep, q: nat)
    requires Can(s, p) && IoEnabled(s, p, a) && q < |s.pc| && LockOf(s, q)
    ensures LockOf(IoNext(s, p, a), q)
  {
  }

  lemma LocalIo(s: State, p: nat, a: IoStep, q: nat)
    requires Can(s, p) && IoEnabled(s, p, a) && q < |s.pc| && PipeLock(s) && Local(s, p) && Local(s, q)
    ensures Local(IoNext(s, p, a), q)
  {
    PlaceIo(s, p, a, q);
    InsideIo(s, p, a, q);
  }

  lemma PlaceIo(s: State, p: nat, a: IoStep, q: nat)
    requires Can(s, p) && IoEnabled(s, p, a) && q < |s.pc| && Local(s, p) && Local(s, q)
    ensures InRange(IoNext(s, p, a).pc[q], q, |s.pc|) && StateAt(IoNext(s, p, a), q)
  {
  }

  lemma InsideIo(s: State, p: nat, a: IoStep, q: nat)
    requires Can(s, p) && IoEnabled(s, p, a) && q < |s.pc| && PipeLock(s) && Inside(s, p) && Inside(s, q)
    ensures Inside(IoNext(s, p, a), q)
  {
  }

  lemma SoundIo(s: State, p: nat, a: IoStep, q: nat)
    requires Can(s, p) && IoEnabled(s, p, a) && q < |s.pc| && PipeLock(s) && Local(s, p) && Local(s, q)
    requires Sound(s, q) && Fifo(s.buf) && Untold(s)
    ensures Sound(IoNext(s, p, a), q)
  {
  }

  lemma PipeLockSync(s: State, p: nat, a: SyncStep)
    requires Can(s, p) && SyncEnabled(s, p, a) && PipeLock(s)
    ensures PipeLock(SyncNext(s, p, a))
  {
  }

  lemma LockOfSync(s: State, p: nat, a: SyncStep, q: nat)
    requires Can(s, p) && SyncEnabled(s, p, a) && q < |s.pc| && LockOf(s, q) && Local(s, p)
    ensures LockOf(SyncNext(s, p, a), q)
  {
  }

  lemma InsideSync(s: State, p: nat, a: SyncStep, q: nat)
    requires Can(s, p) && SyncEnabled(s, p, a) && q < |s.pc| && Local(s, p) && Local(s, q)
    ensures InRange(SyncNext(s, p, a).pc[q], q, |s.pc|) && Inside(SyncNext(s, p, a), q)
  {
    if q == p {
      InsideSelf(s, p, a);
    } else {
      SyncFrame(s, p, a, q);
      InsideFrame(s, SyncNext(s, p, a), q);
    }
  }

  lemma SyncFrame(s: State, p: nat, a: SyncStep, q: nat)
    requires Can(s, p) && SyncEnabled(s, p, a) && q < |s.pc| && q != p
    ensures
      var t := SyncNext(s, p, a);
      t.pc[q] == s.pc[q] && t.buf == s.buf && t.readopen == s.readopen && t.writeopen == s.writeopen
  {
  }

  lemma InsideFrame(s: State, t: State, q: nat)
    requires Can(s, q) && Can(t, q) && |t.pc| == |s.pc| && Local(s, q)
    requires t.pc[q] == s.pc[q] && t.buf == s.buf && t.readopen == s.readopen && t.writeopen == s.writeopen
    ensures InRange(t.pc[q], q, |s.pc|) && Inside(t, q)
  {
  }

  lemma InsideSelf(s: State, p: nat, a: SyncStep)
    requires Can(s, p) && SyncEnabled(s, p, a) && Local(s, p)
    ensures InRange(SyncNext(s, p, a).pc[p], p, |s.pc|) && Inside(SyncNext(s, p, a), p)
  {
  }

  lemma StateSync(s: State, p: nat, a: SyncStep, q: nat)
    requires Can(s, p) && SyncEnabled(s, p, a) && q < |s.pc| && Local(s, p) && Local(s, q) && LockOf(s, q)
    ensures StateAt(SyncNext(s, p, a), q)
  {
  }

  lemma SoundSync(s: State, p: nat, a: SyncStep, q: nat)
    requires Can(s, p) && SyncEnabled(s, p, a) && q < |s.pc| && PipeLock(s) && Local(s, p) && Local(s, q) && LockOf(s, q)
    requires Sound(s, q)
    ensures Sound(SyncNext(s, p, a), q)
  {
    if q == p {
      SoundSelf(s, p, a);
    } else {
      SoundOther(s, p, a, q);
    }
  }

  lemma SoundSelf(s: State, p: nat, a: SyncStep)
    requires Can(s, p) && SyncEnabled(s, p, a) && PipeLock(s) && Local(s, p) && Sound(s, p)
    ensures Sound(SyncNext(s, p, a), p)
  {
    LostSync(s, p, a);
    SoundOn(s, p, a, ToRead);
    SoundOn(s, p, a, ToWrite);
  }

  predicate SoundFor(s: State, p: nat, ch: Chan)
    requires Can(s, p)
  {
    Committed(s, p, ch) ==>
      || Coming(s, p, ch)
      || (if ch.ToRead? then s.lost || (Empty(s.buf) && s.writeopen) else Full(s.buf) && s.readopen)
  }

  lemma SoundOn(s: State, p: nat, a: SyncStep, ch: Chan)
    requires Can(s, p) && SyncEnabled(s, p, a) && PipeLock(s) && Local(s, p) && SoundFor(s, p, ch)
    ensures SoundFor(SyncNext(s, p, a), p, ch)
  {
  }

  lemma SoundOther(s: State, p: nat, a: SyncStep, q: nat)
    requires Can(s, p) && SyncEnabled(s, p, a) && q < |s.pc| && q != p && PipeLock(s) && Local(s, p) && Local(s, q)
    requires LockOf(s, q) && Sound(s, q)
    ensures Sound(SyncNext(s, p, a), q)
  {
    SyncFrame(s, p, a, q);
    LostSync(s, p, a);
    CommittedSync(s, p, a, q, ToRead);
    CommittedSync(s, p, a, q, ToWrite);
    if Committed(SyncNext(s, p, a), q, ToRead) {
      ComingSync(s, p, a, q, ToRead);
    }
    if Committed(SyncNext(s, p, a), q, ToWrite) {
      ComingSync(s, p, a, q, ToWrite);
    }
  }

  lemma LostSync(s: State, p: nat, a: SyncStep)
    requires Can(s, p) && SyncEnabled(s, p, a)
    ensures SyncNext(s, p, a).lost == s.lost
  {
  }

  lemma CommittedSync(s: State, p: nat, a: SyncStep, q: nat, ch: Chan)
    requires Can(s, p) && SyncEnabled(s, p, a) && q < |s.pc| && q != p
    ensures Committed(SyncNext(s, p, a), q, ch) ==> Committed(s, q, ch)
  {
  }

  /** A wakeup that has still to come to q comes to it, or has woken it. */
  lemma ComingSync(s: State, p: nat, a: SyncStep, q: nat, ch: Chan)
    requires Can(s, p) && SyncEnabled(s, p, a) && q < |s.pc| && q != p && PipeLock(s) && Local(s, p) && Local(s, q)
    requires LockOf(s, q) && Committed(SyncNext(s, p, a), q, ch)
    ensures Coming(s, q, ch) ==> Coming(SyncNext(s, p, a), q, ch)
  {
    if s.lk == Some(p) {
      if Coming(s, q, ch) {
        ComingOn(s, p, a, q, ch);
      }
    } else if s.lk.Some? {
      HolderStays(s, p, a);
    }
  }

  /** The scan of p itself goes on. */
  lemma ComingOn(s: State, p: nat, a: SyncStep, q: nat, ch: Chan)
    requires Can(s, p) && SyncEnabled(s, p, a) && q < |s.pc| && q != p && s.lk == Some(p) && StateAt(s, q)
    requires s.plock[q] == Some(p) <==> HoldsLockOf(s.pc[p], p, q)
    requires s.plock[q] == Some(q) <==> HoldsLockOf(s.pc[q], q, q)
    requires Coming(s, q, ch) && Committed(SyncNext(s, p, a), q, ch)
    ensures Coming(SyncNext(s, p, a), q, ch)
  {
  }

  lemma HolderStays(s: State, p: nat, a: SyncStep)
    requires Can(s, p) && SyncEnabled(s, p, a) && PipeLock(s) && s.lk.Some? && s.lk != Some(p)
    ensures
      var t := SyncNext(s, p, a);
      t.lk == s.lk && s.lk.value < |s.pc| && t.pc[s.lk.value] == s.pc[s.lk.value]
  {
  }

  lemma IoKeeps(s: State, p: nat, a: IoStep)
    requires Inv(s) && Can(s, p) && IoEnabled(s, p, a)
    ensures Inv(IoNext(s, p, a))
  {
    assert Local(s, p);
    FifoIo(s, p, a);
    UntoldIo(s, p, a);
    PipeLockIo(s, p, a);
    forall q: nat | q < |s.pc|
      ensures LockOf(IoNext(s, p, a), q)
      ensures Local(IoNext(s, p, a), q) && Sound(IoNext(s, p, a), q)
    {
      assert LockOf(s, q) && Local(s, p) && Local(s, q) && Sound(s, q);
      LockOfIo(s, p, a, q);
      LocalIo(s, p, a, q);
      SoundIo(s, p, a, q);
    }
  }

  lemma SyncKeeps(s: State, p: nat, a: SyncStep)
    requires Inv(s) && Can(s, p) && SyncEnabled(s, p, a)
    ensures Inv(SyncNext(s, p, a))
  {
    PipeLockSync(s, p, a);
    forall q: nat | q < |s.pc|
      ensures LockOf(SyncNext(s, p, a), q) && Local(SyncNext(s, p, a), q) && Sound(SyncNext(s, p, a), q)
    {
      assert LockOf(s, q) && Local(s, p) && Local(s, q) && Sound(s, q);
      LockOfSync(s, p, a, q);
      InsideSync(s, p, a, q);
      StateSync(s, p, a, q);
      SoundSync(s, p, a, q);
    }
  }

  // ----- whole runs -----

  datatype Event = Event(proc: nat, action: Action)

  ghost predicate IsRun(states: seq<State>, evs: seq<Event>) {
    |states| == |evs| + 1 &&
    forall i :: 0 <= i < |evs| ==>
      Enabled(states[i], evs[i].proc, evs[i].action) && states[i + 1] == Next(states[i], evs[i].proc, evs[i].action)
  }

  /** pipealloc, with every process outside the pipe. */
  ghost predicate Initial(s: State) {
    && Sized(s) && s.lk.None? && s.readopen && s.writeopen && !s.lost
    && s.buf.nread == s.buf.nwrite == 0 && s.buf.stored == s.buf.taken == []
    && forall p: nat :: p < |s.pc| ==> s.pc[p].Idle? && s.st[p].RUNNING? && s.plock[p].None?
  }

  lemma {:induction false} RunInvariant(states: seq<State>, evs: seq<Event>, n: nat)
    requires IsRun(states, evs) && Initial(states[0]) && n < |states|
    ensures Inv(states[n])
  {
    if n > 0 {
      RunInvariant(states, evs, n - 1);
      match evs[n - 1].action
      case Io(x) => IoKeeps(states[n - 1], evs[n - 1].proc, x);
      case Sync(x) => SyncKeeps(states[n - 1], evs[n - 1].proc, x);
    }
  }

  /** The return of pipewrite that wakes no one: the writer is killed after bytes that it has told no reader of. */
  predicate KilledMidWrite(s: State, e: Event) {
    e.action == Io(WFail) && Enabled(s, e.proc, e.action) && s.pc[e.proc].unsaid && s.readopen
  }

  /** The steps that begin a wakeup(&pi->nread). */
  predicate TellsReaders(a: Action) {
    a.Io? && (a.io.WFull? || a.io.WFault? || a.io.WDone? || a.io.CloseWrite?)
  }

  lemma LostStep(s: State, p: nat, a: Action)
    requires Inv(s) && Enabled(s, p, a)
    ensures
      var t := Next(s, p, a);
      t.lost <==> KilledMidWrite(s, Event(p, a)) || (s.lost && !TellsReaders(a) && !Empty(t.buf))
  {
    Tests(s.buf);
    if a.Io? {
      assert Local(s, p);
      UntoldIo(s, p, a.io);
    }
  }

  /** At step i a killed writer left in mid-write; from then to n no wakeup of readers began and bytes were left. */
  ghost predicate LeftAt(states: seq<State>, evs: seq<Event>, i: nat, n: nat)
    requires |states| == |evs| + 1 && i < n < |states|
  {
    && KilledMidWrite(states[i], evs[i])
    && (forall j :: i < j < n ==> !TellsReaders(evs[j].action))
    && (forall j :: i < j <= n ==> !Empty(states[j].buf))
  }

  lemma LeftMore(states: seq<State>, evs: seq<Event>, i: nat, n: nat)
    requires |states| == |evs| + 1 && i <= n < |evs|
    ensures
      LeftAt(states, evs, i, n + 1) <==>
      && !Empty(states[n + 1].buf)
      && if i == n then KilledMidWrite(states[n], evs[n])
         else LeftAt(states, evs, i, n) && !TellsReaders(evs[n].action)
  {
  }

  lemma LostNext(states: seq<State>, evs: seq<Event>, n: nat)
    requires IsRun(states, evs) && Initial(states[0]) && n < |evs|
    ensures
      && (states[n + 1].lost ==> !Empty(states[n + 1].buf))
      && (states[n + 1].lost <==>
            || KilledMidWrite(states[n], evs[n])
            || (states[n].lost && !TellsReaders(evs[n].action) && !Empty(states[n + 1].buf)))
  {
    RunInvariant(states, evs, n);
    RunInvariant(states, evs, n + 1);
    LostStep(states[n], evs[n].proc, evs[n].action);
    assert evs[n] == Event(evs[n].proc, evs[n].action);
  }

  lemma {:induction false} LostFrom(states: seq<State>, evs: seq<Event>, n: nat) returns (i: nat)
    requires IsRun(states, evs) && Initial(states[0]) && n < |states| && states[n].lost
    ensures i < n && LeftAt(states, evs, i, n)
  {
    LostNext(states, evs, n - 1);
    i := n - 1;
    if !KilledMidWrite(states[n - 1], evs[n - 1]) {
      i := LostFrom(states, evs, n - 1);
    }
    LeftMore(states, evs, i, n - 1);
  }

  lemma {:induction false} LeftIsLost(states: seq<State>, evs: seq<Event>, i: nat, n: nat)
    requires IsRun(states, evs) && Initial(states[0]) && i < n < |states| && LeftAt(states, evs, i, n)
    ensures states[n].lost
  {
    LostNext(states, evs, n - 1);
    LeftMore(states, evs, i, n - 1);
    if i < n - 1 {
      LeftIsLost(states, evs, i, n - 1);
    }
  }

  lemma LostMeans(states: seq<State>, evs: seq<Event>, n: nat)
    requires IsRun(states, evs) && Initial(states[0]) && n < |states|
    ensures states[n].lost <==> exists i: nat :: i < n && LeftAt(states, evs, i, n)
  {
    if states[n].lost {
      var i := LostFrom(states, evs, n);
    }
    forall i: nat | i < n && LeftAt(states, evs, i, n)
      ensures states[n].lost
    {
      LeftIsLost(states, evs, i, n);
    }
  }

  /**
   Whatever the interleaving of readers, writers, close and kill: the bytes taken are the first bytes
   stored, in order, and at most PIPESIZE are on the way, though the counters wrap.
   */
  lemma PipeIsFifo(states: seq<State>, evs: seq<Event>, n: nat)
    requires IsRun(states, evs) && Initial(states[0]) && n < |states|
    ensures
      var b := states[n].buf;
      && b.taken <= b.stored && |b.stored| - |b.taken| <= PIPESIZE
      && (b.nwrite - b.nread) % UINT == |b.stored| - |b.taken|
  {
    RunInvariant(states, evs, n);
    Difference(|states[n].buf.taken|, |states[n].buf.stored|);
  }

  /**
   While pi->lock is free, a writer asleep (or about to be) means that the pipe is full and can be read.  For a
   reader asleep, the pipe has bytes or can no longer be written exactly if a killed writer has left in mid-write
   and since then no wakeup of readers has begun and the pipe has not been empty.
   */
  lemma NoNeedlessSleep(states: seq<State>, evs: seq<Event>, n: nat, p: nat)
    requires IsRun(states, evs) && Initial(states[0]) && n < |states| && p < |states[n].pc|
    ensures Can(states[n], p)
    ensures
      var s := states[n];
      s.lk.None? && Committed(s, p, ToWrite) ==> |s.buf.stored| == |s.buf.taken| + PIPESIZE && s.readopen
    ensures
      var s := states[n];
      s.lk.None? && Committed(s, p, ToRead) ==>
        (s.buf.taken < s.buf.stored || !s.writeopen <==> exists i: nat :: i < n && LeftAt(states, evs, i, n))
  {
    RunInvariant(states, evs, n);
    LostMeans(states, evs, n);
    var s := states[n];
    Tests(s.buf);
    assert |s.buf.taken| == |s.buf.stored| ==> s.buf.taken == s.buf.stored;
    assert Sound(s, p);
  }

  /** So the return of a killed writer in mid-write leaves asleep exactly the readers that were on their way. */
  lemma KilledWriterLeaves(states: seq<State>, evs: seq<Event>, n: nat, p: nat)
    requires IsRun(states, evs) && Initial(states[0]) && n < |evs| && p < |states[n].pc|
    requires KilledMidWrite(states[n], evs[n])
    ensures
      var t := states[n + 1];
      && Can(t, p) && t.lk.None? && t.buf.taken < t.buf.stored
      && (Committed(t, p, ToRead) <==> Committed(states[n], p, ToRead))
  {
    RunInvariant(states, evs, n);
    RunInvariant(states, evs, n + 1);
    var t := states[n + 1];
    LostStep(states[n], evs[n].proc, evs[n].action);
    assert evs[n] == Event(evs[n].proc, evs[n].action);
    Tests(t.buf);
    assert |t.buf.taken| == |t.buf.stored| ==> t.buf.taken == t.buf.stored;
  }

  lemma Difference(m: nat, n: nat)
    requires m <= n <= m + PIPESIZE
    ensures (n % UINT - m % UINT) % UINT == n - m
  {
  }

  lemma Extend(states: seq<State>, evs: seq<Event>, s: State, e: Event)
    returns (states': seq<State>, evs': seq<Event>, t: State)
    requires IsRun(states, evs) && s == states[|evs|] && Enabled(s, e.proc, e.action)
    ensures t == Next(s, e.proc, e.action) && states' == states + [t] && evs' == evs + [e]
    ensures IsRun(states', evs') && states'[0] == states[0]
  {
    t := Next(s, e.proc, e.action);
    states', evs' := states + [t], evs + [e];
  }

  function Start(): State {
    State([Idle, Idle, Idle], [RUNNING, RUNNING, RUNNING], [None, None, None], [false, false, false],
          [None, None, None], None, Buffer(seq(PIPESIZE, i => 0), 0, 0, [], []), true, true, false)
  }

  function Started(): State {
    Start().(pc := [Asleep(ToRead, 0, 1), Idle, Idle], st := [SLEEPING, RUNNING, RUNNING],
             chan := [Some(ToRead), None, None])
  }

  lemma ReaderFallsAsleep() returns (states: seq<State>, evs: seq<Event>)
    ensures IsRun(states, evs) && Initial(states[0]) && |evs| == 5 && states[5] == Started()
  {
    var s := Start();
    states, evs := [s], [];
    states, evs, s := Extend(states, evs, s, Event(0, Io(Read(1))));
    states, evs, s := Extend(states, evs, s, Event(0, Io(RSleep)));
    states, evs, s := Extend(states, evs, s, Event(0, Sync(Unlock)));
    states, evs, s := Extend(states, evs, s, Event(0, Sync(Commit)));
    states, evs, s := Extend(states, evs, s, Event(0, Sync(Switch)));
  }

  /** The exception is real: process 0 sleeps as a reader although process 1, killed by process 2, has left a byte. */
  lemma ReaderLeftAsleep() returns (states: seq<State>, evs: seq<Event>)
    ensures IsRun(states, evs) && Initial(states[0]) && |evs| == 10
    ensures
      var s := states[10];
      && Can(s, 0) && s.lk.None? && s.pc[0].Asleep? && Committed(s, 0, ToRead)
      && s.buf.taken < s.buf.stored && s.readopen && s.writeopen
  {
    var s := Started();
    states, evs := ReaderFallsAsleep();
    states, evs, s := Extend(states, evs, s, Event(1, Io(Write(2))));
    states, evs, s := Extend(states, evs, s, Event(1, Io(WStore(7))));
    states, evs, s := Extend(states, evs, s, Event(2, Sync(Kill(1))));
    states, evs, s := Extend(states, evs, s, Event(2, Sync(KillWake)));
    states, evs, s := Extend(states, evs, s, Event(1, Io(WFail)));
  }
}
