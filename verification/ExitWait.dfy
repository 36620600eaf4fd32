/**
 fork, exit, reparent, wait and kill of kernel/proc.c among any number of process slots: wait_lock,
 every p->lock, the scans of reparent, wakeup and wait, and the sleep of a waiting parent, step by step.
 Slot 0 is initproc.
 */
module ExitWait {
  import opened Kernel

  datatype Pc =
    | NoThread                         // the slot has no kernel thread
    | Idle                             // outside the code below
    | Nap                              // asleep on some other channel
    | ForkHave(np: nat)                // allocproc has returned np, np->lock held
    | ForkGap(np: nat)                 // np->lock released
    | ForkWl(np: nat)                  // wait_lock held
    | ForkSet(np: nat)                 // np->parent written
    | ForkGo(np: nat)                  // wait_lock released
    | Reparent(i: nat)                 // exit: wait_lock held, reparent is at slot i
    | ReScan(i: nat, j: nat)           // slot i passed to init; wakeup(initproc) is at slot j
    | ReHave(i: nat, j: nat)           // the same, slot j locked
    | ExitScan(j: nat)                 // wakeup(p->parent) is at slot j
    | ExitHave(j: nat)                 // the same, slot j locked
    | ExitOwn                          // p->lock held too
    | ExitZombie                       // p->state is ZOMBIE
    | ExitLeave                        // wait_lock released
    | WaitScan(i: nat, have: bool)     // wait: wait_lock held, at slot i
    | WaitHave(i: nat, have: bool)     // slot i is a child and locked
    | WaitKids(have: bool)             // the scan is over
    | WaitSpared                       // there are children, and killed(p) has returned 0
    | WaitOwn                          // sleep: p->lock held too
    | WaitGone                         // wait_lock released
    | WaitSet                          // SLEEPING on channel p, p->lock held through sched
    | Waiting                          // off the CPU
    | WaitWoken                        // back from sched, p->lock held
    | WaitAgain                        // before acquire(&wait_lock)
    | KillHave(q: nat)

  datatype State = State(
    pc: seq<Pc>, st: seq<ProcState>, parent: seq<Option<nat>>, chan: seq<Option<nat>>, killed: seq<bool>,
    plock: seq<Option<nat>>, wl: Option<nat>, exits: seq<nat>, reaps: seq<nat>)

  datatype RunStep = Yield | Dispatch | Doze | Undoze | Resume | Kill(q: nat) | KillWake

  datatype ForkStep = Alloc(np: nat) | ForkFail | ForkUnlock | ForkLock | SetParent | ForkRelease | Start

  datatype ExitStep =
    | Begin | Skip | Move | ReLock | ReSelf | ReWake | ReEnd | Reparented
    | ExLock | ExSelf | ExWake | LockOwn | SetZombie | ExitRelease | ExitSwitch

  datatype WaitStep =
    | Enter | NotMine | LockKid | Reap | CopyFault | NotYet | Scanned | NoKids | WasKilled | Spared
    | GoSleep | Unlock | Commit | Switch | Wakened | Tidy | Relock

  datatype Action = Run(run: RunStep) | Fork(fork: ForkStep) | Exit(exit: ExitStep) | Wait(wait: WaitStep)

  predicate Sized(s: State) {
    |s.pc| == |s.st| == |s.parent| == |s.chan| == |s.killed| == |s.plock| == |s.exits| == |s.reaps| && |s.pc| > 0
  }

  /** Places where the code holds no spinlock, so that a timer interrupt may take the CPU away. */
  predicate Open(c: Pc) {
    c.Idle? || c.ForkGap? || c.ForkGo? || c.WaitAgain?
  }

  predicate Runs(s: State, p: nat)
    requires Sized(s) && p < |s.pc|
  {
    s.pc[p].Idle? && s.st[p].RUNNING?
  }

  predicate Can(s: State, p: nat) {
    Sized(s) && p < |s.pc|
  }

  predicate RunEnabled(s: State, p: nat, a: RunStep)
    requires Can(s, p)
  {
    var c := s.pc[p];
    match a
    case Yield => Open(c) && s.st[p].RUNNING? && s.plock[p].None?
    case Dispatch => Open(c) && s.st[p].RUNNABLE? && s.plock[p].None?
    case Doze => Runs(s, p) && s.plock[p].None?
    case Undoze => c.Nap? && s.st[p].SLEEPING? && s.plock[p].None?
    case Resume => c.Nap? && s.st[p].RUNNABLE? && s.plock[p].None?
    case Kill(q) => Runs(s, p) && q < |s.pc| && s.plock[q].None?
    case KillWake => c.KillHave? && c.q < |s.pc|
  }

  predicate ForkEnabled(s: State, p: nat, a: ForkStep)
    requires Can(s, p)
  {
    var c := s.pc[p];
    match a
    case Alloc(np) => Runs(s, p) && np < |s.pc| && s.st[np].UNUSED? && s.plock[np].None?
    case ForkFail => c.ForkHave? && c.np < |s.pc|
    case ForkUnlock => c.ForkHave? && c.np < |s.pc|
    case ForkLock => c.ForkGap? && s.st[p].RUNNING? && s.wl.None?
    case SetParent => c.ForkWl? && c.np < |s.pc|
    case ForkRelease => c.ForkSet?
    case Start => c.ForkGo? && s.st[p].RUNNING? && c.np < |s.pc| && s.plock[c.np].None?
  }

  predicate ExitEnabled(s: State, p: nat, a: ExitStep)
    requires Can(s, p)
  {
    var c := s.pc[p];
    match a
    case Begin => Runs(s, p) && p != 0 && s.wl.None?
    case Skip => c.Reparent? && c.i < |s.pc| && s.parent[c.i] != Some(p)
    case Move => c.Reparent? && c.i < |s.pc| && s.parent[c.i] == Some(p)
    case ReLock => c.ReScan? && c.j < |s.pc| && c.j != p && s.plock[c.j].None?
    case ReSelf => c.ReScan? && c.j == p
    case ReWake => c.ReHave? && c.j < |s.pc|
    case ReEnd => c.ReScan? && c.j == |s.pc|
    case Reparented => c.Reparent? && c.i == |s.pc|
    case ExLock => c.ExitScan? && c.j < |s.pc| && c.j != p && s.plock[c.j].None?
    case ExSelf => c.ExitScan? && c.j == p
    case ExWake => c.ExitHave? && c.j < |s.pc|
    case LockOwn => c.ExitScan? && c.j == |s.pc| && s.plock[p].None?
    case SetZombie => c.ExitOwn?
    case ExitRelease => c.ExitZombie?
    case ExitSwitch => c.ExitLeave?
  }

  predicate WaitEnabled(s: State, p: nat, a: WaitStep)
    requires Can(s, p)
  {
    var c := s.pc[p];
    match a
    case Enter => Runs(s, p) && s.wl.None?
    case NotMine => c.WaitScan? && c.i < |s.pc| && s.parent[c.i] != Some(p)
    case LockKid => c.WaitScan? && c.i < |s.pc| && s.parent[c.i] == Some(p) && s.plock[c.i].None?
    case Reap => c.WaitHave? && c.i < |s.pc| && s.st[c.i].ZOMBIE?
    case CopyFault => c.WaitHave? && c.i < |s.pc| && s.st[c.i].ZOMBIE?
    case NotYet => c.WaitHave? && c.i < |s.pc| && !s.st[c.i].ZOMBIE?
    case Scanned => c.WaitScan? && c.i == |s.pc|
    case NoKids => c.WaitKids? && !c.have
    case WasKilled => c.WaitKids? && c.have && s.killed[p] && s.plock[p].None?
    case Spared => c.WaitKids? && c.have && !s.killed[p] && s.plock[p].None?
    case GoSleep => c.WaitSpared? && s.plock[p].None?
    case Unlock => c.WaitOwn?
    case Commit => c.WaitGone?
    case Switch => c.WaitSet?
    case Wakened => c.Waiting? && s.st[p].RUNNABLE? && s.plock[p].None?
    case Tidy => c.WaitWoken?
    case Relock => c.WaitAgain? && s.st[p].RUNNING? && s.wl.None?
  }

  predicate Enabled(s: State, p: nat, a: Action) {
    Can(s, p) &&
    match a
    case Run(x) => RunEnabled(s, p, x)
    case Fork(x) => ForkEnabled(s, p, x)
    case Exit(x) => ExitEnabled(s, p, x)
    case Wait(x) => WaitEnabled(s, p, x)
  }

  function To(s: State, p: nat, c: Pc): State
    requires p < |s.pc|
  {
    s.(pc := s.pc[p := c])
  }

  /** wakeup(&proc[ch]) on slot j: the states it leaves. */
  function Woke(s: State, j: nat, ch: nat): (st: seq<ProcState>)
    requires Sized(s) && j < |s.pc|
  {
    if s.st[j].SLEEPING? && s.chan[j] == Some(ch) then s.st[j := RUNNABLE] else s.st
  }

  function ParentOf(s: State, p: nat): nat
    requires Sized(s) && p < |s.pc|
  {
    if s.parent[p].Some? then s.parent[p].value else |s.pc|
  }

  function RunNext(s: State, p: nat, a: RunStep): (t: State)
    requires Can(s, p) && RunEnabled(s, p, a)
    ensures Sized(t) && |t.pc| == |s.pc|
  {
    var c := s.pc[p];
    match a
    case Yield => s.(st := s.st[p := RUNNABLE])
    case Dispatch => s.(st := s.st[p := RUNNING])
    case Doze => To(s, p, Nap).(st := s.st[p := SLEEPING], chan := s.chan[p := None])
    case Undoze => s.(st := s.st[p := RUNNABLE])
    case Resume => To(s, p, Idle).(st := s.st[p := RUNNING])
    case Kill(q) => To(s, p, KillHave(q)).(plock := s.plock[q := Some(p)])
    case KillWake =>
      To(s, p, Idle).(killed := s.killed[c.q := true], plock := s.plock[c.q := None],
                      st := if s.st[c.q].SLEEPING? then s.st[c.q := RUNNABLE] else s.st)
  }

  function ForkNext(s: State, p: nat, a: ForkStep): (t: State)
    requires Can(s, p) && ForkEnabled(s, p, a)
    ensures Sized(t) && |t.pc| == |s.pc|
  {
    var c := s.pc[p];
    match a
    case Alloc(np) => To(s, p, ForkHave(np)).(st := s.st[np := USED], plock := s.plock[np := Some(p)])
    case ForkFail =>
      To(s, p, Idle).(st := s.st[c.np := UNUSED], parent := s.parent[c.np := None], chan := s.chan[c.np := None],
                      killed := s.killed[c.np := false], plock := s.plock[c.np := None])
    case ForkUnlock => To(s, p, ForkGap(c.np)).(plock := s.plock[c.np := None])
    case ForkLock => To(s, p, ForkWl(c.np)).(wl := Some(p))
    case SetParent => To(s, p, ForkSet(c.np)).(parent := s.parent[c.np := Some(p)])
    case ForkRelease => To(s, p, ForkGo(c.np)).(wl := None)
    case Start => s.(pc := s.pc[p := Idle][c.np := Idle], st := s.st[c.np := RUNNABLE])
  }

  function ExitNext(s: State, p: nat, a: ExitStep): (t: State)
    requires Can(s, p) && ExitEnabled(s, p, a)
    ensures Sized(t) && |t.pc| == |s.pc|
  {
    var c := s.pc[p];
    match a
    case Begin => To(s, p, Reparent(0)).(wl := Some(p))
    case Skip => To(s, p, Reparent(c.i + 1))
    case Move => To(s, p, ReScan(c.i, 0)).(parent := s.parent[c.i := Some(0)])
    case ReLock => To(s, p, ReHave(c.i, c.j)).(plock := s.plock[c.j := Some(p)])
    case ReSelf => To(s, p, ReScan(c.i, c.j + 1))
    case ReWake => To(s, p, ReScan(c.i, c.j + 1)).(plock := s.plock[c.j := None], st := Woke(s, c.j, 0))
    case ReEnd => To(s, p, Reparent(c.i + 1))
    case Reparented => To(s, p, ExitScan(0))
    case ExLock => To(s, p, ExitHave(c.j)).(plock := s.plock[c.j := Some(p)])
    case ExSelf => To(s, p, ExitScan(c.j + 1))
    case ExWake =>
      To(s, p, ExitScan(c.j + 1)).(plock := s.plock[c.j := None], st := Woke(s, c.j, ParentOf(s, p)))
    case LockOwn => To(s, p, ExitOwn).(plock := s.plock[p := Some(p)])
    case SetZombie => To(s, p, ExitZombie).(st := s.st[p := ZOMBIE], exits := s.exits[p := s.exits[p] + 1])
    case ExitRelease => To(s, p, ExitLeave).(wl := None)
    case ExitSwitch => To(s, p, NoThread).(plock := s.plock[p := None])
  }

  function WaitNext(s: State, p: nat, a: WaitStep): (t: State)
    requires Can(s, p) && WaitEnabled(s, p, a)
    ensures Sized(t) && |t.pc| == |s.pc|
  {
    var c := s.pc[p];
    match a
    case Enter => To(s, p, WaitScan(0, false)).(wl := Some(p))
    case NotMine => To(s, p, WaitScan(c.i + 1, c.have))
    case LockKid => To(s, p, WaitHave(c.i, c.have)).(plock := s.plock[c.i := Some(p)])
    case Reap =>
      To(s, p, Idle).(st := s.st[c.i := UNUSED], parent := s.parent[c.i := None], chan := s.chan[c.i := None],
                      killed := s.killed[c.i := false], plock := s.plock[c.i := None], wl := None,
                      reaps := s.reaps[c.i := s.reaps[c.i] + 1])
    case CopyFault => To(s, p, Idle).(plock := s.plock[c.i := None], wl := None)
    case NotYet => To(s, p, WaitScan(c.i + 1, true)).(plock := s.plock[c.i := None])
    case Scanned => To(s, p, WaitKids(c.have))
    case NoKids => To(s, p, Idle).(wl := None)
    case WasKilled => To(s, p, Idle).(wl := None)
    case Spared => To(s, p, WaitSpared)
    case GoSleep => To(s, p, WaitOwn).(plock := s.plock[p := Some(p)])
    case Unlock => To(s, p, WaitGone).(wl := None)
    case Commit => To(s, p, WaitSet).(st := s.st[p := SLEEPING], chan := s.chan[p := Some(p)])
    case Switch => To(s, p, Waiting).(plock := s.plock[p := None])
    case Wakened => To(s, p, WaitWoken).(st := s.st[p := RUNNING], plock := s.plock[p := Some(p)])
    case Tidy => To(s, p, WaitAgain).(chan := s.chan[p := None], plock := s.plock[p := None])
    case Relock => To(s, p, WaitScan(0, false)).(wl := Some(p))
  }

  function Next(s: State, p: nat, a: Action): (t: State)
    requires Enabled(s, p, a)
    ensures Sized(t) && |t.pc| == |s.pc|
  {
    match a
    case Run(x) => RunNext(s, p, x)
    case Fork(x) => ForkNext(s, p, x)
    case Exit(x) => ExitNext(s, p, x)
    case Wait(x) => WaitNext(s, p, x)
  }

  // ----- who holds what -----

  predicate HoldsWl(c: Pc) {
    match c
    case ForkWl(_) => true
    case ForkSet(_) => true
    case Reparent(_) => true
    case ReScan(_, _) => true
    case ReHave(_, _) => true
    case ExitScan(_) => true
    case ExitHave(_) => true
    case ExitOwn => true
    case ExitZombie => true
    case WaitScan(_, _) => true
    case WaitHave(_, _) => true
    case WaitKids(_) => true
    case WaitSpared => true
    case WaitOwn => true
    case _ => false
  }

  predicate HoldsLockOf(c: Pc, p: nat, q: nat) {
    match c
    case ForkHave(np) => np == q
    case ReHave(_, j) => j == q
    case ExitHave(j) => j == q
    case ExitOwn => p == q
    case ExitZombie => p == q
    case ExitLeave => p == q
    case WaitHave(i, _) => i == q
    case WaitOwn => p == q
    case WaitGone => p == q
    case WaitSet => p == q
    case WaitWoken => p == q
    case KillHave(r) => r == q
    case _ => false
  }

  /** p is making the process in slot np. */
  predicate Makes(c: Pc, np: nat) {
    match c
    case ForkHave(x) => x == np
    case ForkGap(x) => x == np
    case ForkWl(x) => x == np
    case ForkSet(x) => x == np
    case ForkGo(x) => x == np
    case _ => false
  }

  predicate Alive(st: ProcState) {
    st.SLEEPING? || st.RUNNABLE? || st.RUNNING?
  }

  predicate InRange(c: Pc, p: nat, n: nat) {
    match c
    case ForkHave(np) => np < n && np != p
    case ForkGap(np) => np < n && np != p
    case ForkWl(np) => np < n && np != p
    case ForkSet(np) => np < n && np != p
    case ForkGo(np) => np < n && np != p
    case Reparent(i) => i <= n && p != 0
    case ReScan(i, j) => i < n && j <= n && p != 0
    case ReHave(i, j) => i < n && j < n && j != p && p != 0
    case ExitScan(j) => j <= n && p != 0
    case ExitHave(j) => j < n && j != p && p != 0
    case ExitOwn => p != 0
    case ExitZombie => p != 0
    case ExitLeave => p != 0
    case WaitScan(i, _) => i <= n
    case WaitHave(i, _) => i < n
    case KillHave(q) => q < n
    case _ => true
  }

  /** The states that go with each place in the code. */
  predicate StateAt(s: State, p: nat)
    requires Sized(s) && p < |s.pc|
  {
    match s.pc[p]
    case NoThread => p != 0 && (s.st[p].UNUSED? || s.st[p].USED? || s.st[p].ZOMBIE?)
    case Idle => s.st[p].RUNNABLE? || s.st[p].RUNNING?
    case ForkGap(_) => s.st[p].RUNNABLE? || s.st[p].RUNNING?
    case ForkGo(_) => s.st[p].RUNNABLE? || s.st[p].RUNNING?
    case WaitAgain => s.st[p].RUNNABLE? || s.st[p].RUNNING?
    case Nap => s.st[p].SLEEPING? || s.st[p].RUNNABLE?
    case WaitSet => s.st[p].SLEEPING? && s.chan[p] == Some(p)
    case Waiting => (s.st[p].SLEEPING? || s.st[p].RUNNABLE?) && s.chan[p] == Some(p)
    case ExitZombie => s.st[p].ZOMBIE?
    case ExitLeave => s.st[p].ZOMBIE?
    case _ => s.st[p].RUNNING?
  }

  // ----- the invariant -----

  predicate WaitLock(s: State)
    requires Sized(s)
  {
    && (s.wl.Some? ==> s.wl.value < |s.pc|)
    && (forall p: nat :: p < |s.pc| ==> (s.wl == Some(p) <==> HoldsWl(s.pc[p])))
  }

  predicate LockOf(s: State, q: nat)
    requires Sized(s) && q < |s.pc|
  {
    && (s.plock[q].Some? ==> s.plock[q].value < |s.pc|)
    && (forall p: nat :: p < |s.pc| ==> LockPair(s, q, p))
  }

  predicate LockPair(s: State, q: nat, p: nat)
    requires Sized(s) && q < |s.pc| && p < |s.pc|
  {
    s.plock[q] == Some(p) <==> HoldsLockOf(s.pc[p], p, q)
  }

  predicate Locks(s: State)
    requires Sized(s)
  {
    WaitLock(s) && forall q: nat :: q < |s.pc| ==> LockOf(s, q)
  }

  /** The slot a process is making is USED, has no thread yet, and no one else is making it. */
  predicate Making(s: State, p: nat, q: nat)
    requires Sized(s) && p < |s.pc| && q < |s.pc|
  {
    Makes(s.pc[p], q) ==>
      && s.st[q].USED? && s.pc[q].NoThread?
      && s.parent[q] == (if s.pc[p].ForkSet? || s.pc[p].ForkGo? then Some(p) else None)
      && forall r: nat :: r < |s.pc| && Makes(s.pc[r], q) ==> r == p
  }

  /** A half-made slot is in the hands of a fork. */
  predicate Made(s: State, q: nat)
    requires Sized(s) && q < |s.pc|
  {
    s.st[q].USED? ==> exists p: nat :: p < |s.pc| && Makes(s.pc[p], q)
  }

  /** c is out of q's hands: q's exit has passed slot c in reparent, or q has no thread. */
  predicate Passed(q: Pc, c: nat) {
    match q
    case Reparent(i) => c < i
    case ReScan(i, _) => c <= i
    case ReHave(i, _) => c <= i
    case ExitScan(_) => true
    case ExitHave(_) => true
    case ExitOwn => true
    case ExitZombie => true
    case ExitLeave => true
    case NoThread => true
    case _ => false
  }

  predicate Family(s: State, c: nat)
    requires Sized(s) && c < |s.pc|
  {
    && (s.parent[c].Some? ==> s.parent[c].value < |s.pc| && !Passed(s.pc[s.parent[c].value], c))
    && ((Alive(s.st[c]) || s.st[c].ZOMBIE?) && c != 0 ==> s.parent[c].Some?)
    && (s.st[c].UNUSED? ==> s.parent[c].None?)
  }

  predicate Counts(s: State, p: nat)
    requires Sized(s) && p < |s.pc|
  {
    s.exits[p] == s.reaps[p] + if s.st[p].ZOMBIE? then 1 else 0
  }

  /** p sleeps in wait, or is on its way to with no test left before it does. */
  predicate Committed(s: State, p: nat)
    requires Sized(s) && p < |s.pc|
  {
    s.pc[p].WaitOwn? || s.pc[p].WaitGone? || s.pc[p].WaitSet? || (s.pc[p].Waiting? && s.st[p].SLEEPING?)
  }

  /** An exiting process has given init a child and its wakeup(initproc) has not got to init yet. */
  predicate Rescue(s: State)
    requires Sized(s)
  {
    s.wl.Some? && s.wl.value < |s.pc| &&
    var c := s.pc[s.wl.value];
    (c.ReScan? || c.ReHave?) && c.j == 0
  }

  /** No slot below n holds a dead child of p. */
  predicate NoZombie(s: State, p: nat, n: nat)
    requires Sized(s) && p < |s.pc|
  {
    forall c: nat :: c < n && c < |s.pc| && s.parent[c] == Some(p) ==> !s.st[c].ZOMBIE?
  }

  predicate HasChild(s: State, p: nat, n: nat)
    requires Sized(s) && p < |s.pc|
  {
    exists c: nat :: c < n && c < |s.pc| && s.parent[c] == Some(p)
  }

  predicate Scan(s: State, p: nat)
    requires Sized(s) && p < |s.pc|
  {
    match s.pc[p]
    case WaitScan(i, have) => NoZombie(s, p, i) && (have <==> HasChild(s, p, i))
    case WaitHave(i, have) =>
      NoZombie(s, p, i) && (have <==> HasChild(s, p, i)) && i < |s.pc| && s.parent[i] == Some(p)
    case WaitKids(have) => NoZombie(s, p, |s.pc|) && (have <==> HasChild(s, p, |s.pc|))
    case WaitSpared => NoZombie(s, p, |s.pc|) && HasChild(s, p, |s.pc|)
    case _ => true
  }

  predicate Sound(s: State, p: nat)
    requires Sized(s) && p < |s.pc|
  {
    Committed(s, p) ==> NoZombie(s, p, |s.pc|) || (p == 0 && Rescue(s))
  }

  /** c's wakeup(p->parent) has been to q. */
  predicate Called(c: Pc, q: nat) {
    match c
    case ExitScan(j) => q < j
    case ExitHave(j) => q < j
    case ExitOwn => true
    case ExitZombie => true
    case _ => false
  }

  predicate Warned(s: State, c: nat)
    requires Sized(s) && c < |s.pc|
  {
    s.parent[c].Some? && s.parent[c].value < |s.pc| && Called(s.pc[c], s.parent[c].value) ==>
      !Committed(s, s.parent[c].value)
  }

  predicate Local(s: State, p: nat)
    requires Sized(s) && p < |s.pc|
  {
    InRange(s.pc[p], p, |s.pc|) && StateAt(s, p) && Counts(s, p)
  }

  predicate Waits(s: State, p: nat)
    requires Sized(s) && p < |s.pc|
  {
    Scan(s, p) && Sound(s, p) && Warned(s, p)
  }

  predicate Inv(s: State) {
    && Sized(s) && Locks(s)
    && (forall p: nat :: p < |s.pc| ==> Local(s, p))
    && (forall p: nat, q: nat :: p < |s.pc| && q < |s.pc| ==> Making(s, p, q))
    && (forall p: nat :: p < |s.pc| ==> Made(s, p))
    && (forall p: nat :: p < |s.pc| ==> Family(s, p))
    && (forall p: nat :: p < |s.pc| ==> Waits(s, p))
  }

  // ----- every step keeps it -----

  lemma RunWaitLock(s: State, p: nat, a: RunStep)
    requires Can(s, p) && RunEnabled(s, p, a) && Local(s, p)
    requires WaitLock(s)
    ensures WaitLock(RunNext(s, p, a))
  {
  }

  lemma RunLockOf(s: State, p: nat, a: RunStep, q: nat)
    requires Can(s, p) && RunEnabled(s, p, a) && Local(s, p) && q < |s.pc|
    requires LockOf(s, q)
    ensures LockOf(RunNext(s, p, a), q)
  {
    assert LockPair(s, q, p);
    forall x: nat | x < |s.pc|
      ensures LockPair(RunNext(s, p, a), q, x)
    {
      assert LockPair(s, q, x);
    }
  }

  lemma RunPlace(s: State, p: nat, a: RunStep, q: nat)
    requires Can(s, p) && RunEnabled(s, p, a) && Local(s, p) && q < |s.pc|
    requires Local(s, q)
    ensures InRange(RunNext(s, p, a).pc[q], q, |s.pc|) && Counts(RunNext(s, p, a), q)
  {
  }

  lemma RunState(s: State, p: nat, a: RunStep, q: nat)
    requires Can(s, p) && RunEnabled(s, p, a) && Local(s, p) && q < |s.pc|
    requires Local(s, q) && LockOf(s, q)
    ensures StateAt(RunNext(s, p, a), q)
  {
    assert LockPair(s, q, p) && LockPair(s, q, q);
  }

  lemma RunMaking(s: State, p: nat, a: RunStep, q: nat, r: nat)
    requires Can(s, p) && RunEnabled(s, p, a) && Local(s, p) && q < |s.pc| && r < |s.pc|
    requires Local(s, q) && Local(s, r) && LockOf(s, r)
    requires forall x: nat :: x < |s.pc| ==> Making(s, x, r)
    ensures Making(RunNext(s, p, a), q, r)
  {
    assert Making(s, p, r) && Making(s, q, r);
  }

  lemma RunMade(s: State, p: nat, a: RunStep, q: nat)
    requires Can(s, p) && RunEnabled(s, p, a) && q < |s.pc| && Made(s, q)
    ensures Made(RunNext(s, p, a), q)
  {
    var t := RunNext(s, p, a);
    if t.st[q].USED? && s.st[q].USED? {
      var w: nat :| w < |s.pc| && Makes(s.pc[w], q);
      assert Makes(t.pc[w], q);
    }
  }

  lemma RunFamily(s: State, p: nat, a: RunStep, c: nat)
    requires Can(s, p) && RunEnabled(s, p, a) && Local(s, p) && c < |s.pc|
    requires Local(s, c) && Family(s, c)
    ensures Family(RunNext(s, p, a), c)
  {
  }

  /** A step that moves neither q, nor a parent, nor a zombie leaves q's scan as it was. */
  lemma ScanFrame(s: State, t: State, q: nat)
    requires Can(s, q) && Can(t, q) && |s.pc| == |t.pc| && s.parent == t.parent && s.pc[q] == t.pc[q] && Scan(s, q)
    requires forall c: nat :: c < |s.pc| ==> (s.st[c].ZOMBIE? <==> t.st[c].ZOMBIE?)
    ensures Scan(t, q)
  {
  }

  lemma RunScanning(s: State, p: nat, a: RunStep, q: nat)
    requires Can(s, p) && RunEnabled(s, p, a) && Local(s, p) && q < |s.pc|
    requires WaitLock(s) && Scan(s, q)
    ensures Scan(RunNext(s, p, a), q)
  {
    if p != q {
      ScanFrame(s, RunNext(s, p, a), q);
    }
  }

  lemma RunSound(s: State, p: nat, a: RunStep, q: nat)
    requires Can(s, p) && RunEnabled(s, p, a) && Local(s, p) && q < |s.pc|
    requires WaitLock(s) && Local(s, q) && Sound(s, q) && LockOf(s, q)
    ensures Sound(RunNext(s, p, a), q)
  {
    assert LockPair(s, q, p) && LockPair(s, q, q);
  }

  lemma RunWarned(s: State, p: nat, a: RunStep, c: nat)
    requires Can(s, p) && RunEnabled(s, p, a) && Local(s, p) && c < |s.pc|
    requires WaitLock(s) && Local(s, c) && Warned(s, c) && Family(s, c)
    ensures Warned(RunNext(s, p, a), c)
  {
  }

  lemma ForkWaitLock(s: State, p: nat, a: ForkStep)
    requires Can(s, p) && ForkEnabled(s, p, a) && Local(s, p)
    requires WaitLock(s)
    requires !a.Alloc? ==> Local(s, s.pc[p].np) && Making(s, p, s.pc[p].np)
    ensures WaitLock(ForkNext(s, p, a))
  {
  }

  lemma ForkLockOf(s: State, p: nat, a: ForkStep, q: nat)
    requires Can(s, p) && ForkEnabled(s, p, a) && Local(s, p) && q < |s.pc|
    requires LockOf(s, q)
    requires !a.Alloc? ==> Local(s, s.pc[p].np) && Making(s, p, s.pc[p].np)
    ensures LockOf(ForkNext(s, p, a), q)
  {
    assert LockPair(s, q, p);
    forall x: nat | x < |s.pc|
      ensures LockPair(ForkNext(s, p, a), q, x)
    {
      assert LockPair(s, q, x);
    }
  }

  lemma ForkPlace(s: State, p: nat, a: ForkStep, q: nat)
    requires Can(s, p) && ForkEnabled(s, p, a) && Local(s, p) && q < |s.pc|
    requires Local(s, q)
    requires !a.Alloc? ==> Local(s, s.pc[p].np) && Making(s, p, s.pc[p].np)
    ensures InRange(ForkNext(s, p, a).pc[q], q, |s.pc|) && Counts(ForkNext(s, p, a), q)
  {
  }

  lemma ForkState(s: State, p: nat, a: ForkStep, q: nat)
    requires Can(s, p) && ForkEnabled(s, p, a) && Local(s, p) && q < |s.pc|
    requires Local(s, q) && LockOf(s, q)
    requires !a.Alloc? ==> Local(s, s.pc[p].np) && Making(s, p, s.pc[p].np)
    ensures StateAt(ForkNext(s, p, a), q)
  {
    assert LockPair(s, q, p) && LockPair(s, q, q);
  }

  lemma ForkMaking(s: State, p: nat, a: ForkStep, q: nat, r: nat)
    requires Can(s, p) && ForkEnabled(s, p, a) && Local(s, p) && q < |s.pc| && r < |s.pc|
    requires Local(s, q) && Local(s, r) && LockOf(s, r)
    requires forall x: nat :: x < |s.pc| ==> Making(s, x, r) && Family(s, r)
    requires !a.Alloc? ==> Local(s, s.pc[p].np) && Making(s, p, s.pc[p].np)
    ensures Making(ForkNext(s, p, a), q, r)
  {
    assert Making(s, p, r) && Making(s, q, r);
    if a == Alloc(r) {
      forall x: nat | x < |s.pc|
        ensures !Makes(s.pc[x], r)
      {
        assert Making(s, x, r);
      }
    }
  }

  lemma ForkMade(s: State, p: nat, a: ForkStep, q: nat)
    requires Can(s, p) && ForkEnabled(s, p, a) && Local(s, p) && q < |s.pc| && Made(s, q)
    requires !a.Alloc? ==> Making(s, p, s.pc[p].np)
    ensures Made(ForkNext(s, p, a), q)
  {
    var t := ForkNext(s, p, a);
    if t.st[q].USED? && s.st[q].USED? {
      var w: nat :| w < |s.pc| && Makes(s.pc[w], q);
      assert Makes(t.pc[w], q);
    } else if t.st[q].USED? {
      assert Makes(t.pc[p], q);
    }
  }

  lemma ForkFamily(s: State, p: nat, a: ForkStep, c: nat)
    requires Can(s, p) && ForkEnabled(s, p, a) && Local(s, p) && c < |s.pc|
    requires Local(s, c) && Family(s, c)
    requires !a.Alloc? ==> Local(s, s.pc[p].np) && Making(s, p, s.pc[p].np)
    ensures Family(ForkNext(s, p, a), c)
  {
  }

  lemma ForkScanning(s: State, p: nat, a: ForkStep, q: nat)
    requires Can(s, p) && ForkEnabled(s, p, a) && Local(s, p) && q < |s.pc|
    requires WaitLock(s) && Scan(s, q)
    requires !a.Alloc? ==> Local(s, s.pc[p].np) && Making(s, p, s.pc[p].np)
    ensures Scan(ForkNext(s, p, a), q)
  {
    assert a.ForkFail? ==> ForkNext(s, p, a).parent == s.parent;
  }

  lemma ForkSound(s: State, p: nat, a: ForkStep, q: nat)
    requires Can(s, p) && ForkEnabled(s, p, a) && Local(s, p) && q < |s.pc|
    requires WaitLock(s) && Local(s, q) && Sound(s, q) && LockOf(s, q)
    requires !a.Alloc? ==> Local(s, s.pc[p].np) && Making(s, p, s.pc[p].np)
    ensures Sound(ForkNext(s, p, a), q)
  {
    assert LockPair(s, q, p) && LockPair(s, q, q);
  }

  lemma ForkWarned(s: State, p: nat, a: ForkStep, c: nat)
    requires Can(s, p) && ForkEnabled(s, p, a) && Local(s, p) && c < |s.pc|
    requires WaitLock(s) && Local(s, c) && Warned(s, c) && Family(s, c)
    requires !a.Alloc? ==> Local(s, s.pc[p].np) && Making(s, p, s.pc[p].np)
    ensures Warned(ForkNext(s, p, a), c)
  {
  }

  lemma ExitWaitLock(s: State, p: nat, a: ExitStep)
    requires Can(s, p) && ExitEnabled(s, p, a) && Local(s, p)
    requires WaitLock(s)
    ensures WaitLock(ExitNext(s, p, a))
  {
  }

  lemma ExitLockOf(s: State, p: nat, a: ExitStep, q: nat)
    requires Can(s, p) && ExitEnabled(s, p, a) && Local(s, p) && q < |s.pc|
    requires LockOf(s, q)
    ensures LockOf(ExitNext(s, p, a), q)
  {
    assert LockPair(s, q, p);
    forall x: nat | x < |s.pc|
      ensures LockPair(ExitNext(s, p, a), q, x)
    {
      assert LockPair(s, q, x);
    }
  }

  lemma ExitPlace(s: State, p: nat, a: ExitStep, q: nat)
    requires Can(s, p) && ExitEnabled(s, p, a) && Local(s, p) && q < |s.pc|
    requires Local(s, q)
    ensures InRange(ExitNext(s, p, a).pc[q], q, |s.pc|) && Counts(ExitNext(s, p, a), q)
  {
  }

  lemma ExitStateSelf(s: State, p: nat, a: ExitStep)
    requires Can(s, p) && ExitEnabled(s, p, a) && Local(s, p)
    ensures StateAt(ExitNext(s, p, a), p)
  {
  }

  lemma ExitStateOther(s: State, p: nat, a: ExitStep, q: nat)
    requires Can(s, p) && ExitEnabled(s, p, a) && Local(s, p) && q < |s.pc| && p != q
    requires Local(s, q) && LockOf(s, q)
    ensures StateAt(ExitNext(s, p, a), q)
  {
    assert LockPair(s, q, p) && LockPair(s, q, q);
  }

  lemma ExitMaking(s: State, p: nat, a: ExitStep, q: nat, r: nat)
    requires Can(s, p) && ExitEnabled(s, p, a) && Local(s, p) && q < |s.pc| && r < |s.pc|
    requires Local(s, q) && Local(s, r) && LockOf(s, r)
    requires forall x: nat :: x < |s.pc| ==> Making(s, x, r)
    ensures Making(ExitNext(s, p, a), q, r)
  {
    assert Making(s, p, r) && Making(s, q, r);
  }

  lemma ExitMade(s: State, p: nat, a: ExitStep, q: nat)
    requires Can(s, p) && ExitEnabled(s, p, a) && q < |s.pc| && Made(s, q)
    ensures Made(ExitNext(s, p, a), q)
  {
    var t := ExitNext(s, p, a);
    if t.st[q].USED? && s.st[q].USED? {
      var w: nat :| w < |s.pc| && Makes(s.pc[w], q);
      assert Makes(t.pc[w], q);
    }
  }

  lemma ExitFamily(s: State, p: nat, a: ExitStep, c: nat)
    requires Can(s, p) && ExitEnabled(s, p, a) && Local(s, p) && c < |s.pc|
    requires Local(s, c) && Family(s, c) && Local(s, 0)
    ensures Family(ExitNext(s, p, a), c)
  {
  }

  lemma ExitScanning(s: State, p: nat, a: ExitStep, q: nat)
    requires Can(s, p) && ExitEnabled(s, p, a) && Local(s, p) && q < |s.pc|
    requires WaitLock(s) && Scan(s, q)
    ensures Scan(ExitNext(s, p, a), q)
  {
    ExitMoves(s, p, a);
    if q != p && HoldsWl(s.pc[q]) {
      ExitQuiet(s, p, a);
      ScanFrame(s, ExitNext(s, p, a), q);
    }
  }

  lemma ExitMoves(s: State, p: nat, a: ExitStep)
    requires Can(s, p) && ExitEnabled(s, p, a)
    ensures forall x: nat :: x < |s.pc| && x != p ==> ExitNext(s, p, a).pc[x] == s.pc[x]
    ensures var c := ExitNext(s, p, a).pc[p]; !c.WaitScan? && !c.WaitHave? && !c.WaitKids? && !c.WaitSpared?
  {
  }

  /** While another process holds wait_lock, exit changes no parent and no zombie. */
  lemma ExitQuiet(s: State, p: nat, a: ExitStep)
    requires Can(s, p) && ExitEnabled(s, p, a) && s.wl.Some? && !HoldsWl(s.pc[p])
    ensures ExitNext(s, p, a).parent == s.parent && ExitNext(s, p, a).st == s.st
  {
  }

  lemma ExitSound(s: State, p: nat, a: ExitStep, q: nat)
    requires Can(s, p) && ExitEnabled(s, p, a) && Local(s, p) && q < |s.pc|
    requires WaitLock(s) && Local(s, q) && Sound(s, q) && LockOf(s, q) && Family(s, p) && Warned(s, p)
    ensures Sound(ExitNext(s, p, a), q)
  {
    assert LockPair(s, q, p) && LockPair(s, q, q);
    if a.Move? {
      MoveSound(s, p, q);
    } else if a.SetZombie? {
      ZombieSound(s, p, q);
    } else {
      RestSound(s, p, a, q);
    }
  }

  /** A dead child that comes to init comes with a wakeup of init. */
  lemma MoveSound(s: State, p: nat, q: nat)
    requires Can(s, p) && ExitEnabled(s, p, Move) && q < |s.pc| && Sound(s, q)
    requires s.wl == Some(p)
    ensures Sound(ExitNext(s, p, Move), q)
  {
  }

  /** Who becomes a zombie has woken its parent. */
  lemma ZombieSound(s: State, p: nat, q: nat)
    requires Can(s, p) && ExitEnabled(s, p, SetZombie) && q < |s.pc| && Sound(s, q) && Family(s, p) && Warned(s, p)
    requires s.wl == Some(p) && Local(s, p)
    ensures Sound(ExitNext(s, p, SetZombie), q)
  {
  }

  lemma RestSound(s: State, p: nat, a: ExitStep, q: nat)
    requires Can(s, p) && ExitEnabled(s, p, a) && q < |s.pc| && !a.Move? && !a.SetZombie? && Local(s, p) && Local(s, q)
    requires LockPair(s, q, p) && LockPair(s, q, q) && Sound(s, q)
    requires s.wl == Some(p) <==> HoldsWl(s.pc[p])
    ensures Sound(ExitNext(s, p, a), q)
  {
  }

  lemma ExitWarned(s: State, p: nat, a: ExitStep, c: nat)
    requires Can(s, p) && ExitEnabled(s, p, a) && Local(s, p) && c < |s.pc|
    requires WaitLock(s) && Local(s, c) && Warned(s, c) && Family(s, c)
    requires a.ExWake? ==> LockOf(s, s.pc[p].j) && Local(s, s.pc[p].j)
    ensures Warned(ExitNext(s, p, a), c)
  {
    if a.ExWake? {
      assert LockPair(s, s.pc[p].j, p) && LockPair(s, s.pc[p].j, s.pc[p].j);
    }
  }

  lemma WaitWaitLock(s: State, p: nat, a: WaitStep)
    requires Can(s, p) && WaitEnabled(s, p, a) && Local(s, p)
    requires WaitLock(s)
    ensures WaitLock(WaitNext(s, p, a))
  {
    WaitTakes(s, p, a);
    WaitMoves(s, p, a);
  }

  /** A step of p moves wait_lock only to p or from p. */
  lemma WaitTakes(s: State, p: nat, a: WaitStep)
    requires Can(s, p) && WaitEnabled(s, p, a) && (s.wl == Some(p) <==> HoldsWl(s.pc[p]))
    ensures
      var t := WaitNext(s, p, a);
      && (t.wl == s.wl || (s.wl.None? && t.wl == Some(p)) || (s.wl == Some(p) && t.wl.None?))
      && (t.wl == Some(p) <==> HoldsWl(t.pc[p]))
  {
  }

  lemma WaitLockPair(s: State, p: nat, a: WaitStep, q: nat, x: nat)
    requires Can(s, p) && WaitEnabled(s, p, a) && Local(s, p) && q < |s.pc| && x < |s.pc|
    requires LockPair(s, q, p) && LockPair(s, q, x)
    ensures LockPair(WaitNext(s, p, a), q, x)
  {
  }

  lemma WaitLockOf(s: State, p: nat, a: WaitStep, q: nat)
    requires Can(s, p) && WaitEnabled(s, p, a) && Local(s, p) && q < |s.pc|
    requires LockOf(s, q)
    ensures LockOf(WaitNext(s, p, a), q)
  {
    assert LockPair(s, q, p);
    forall x: nat | x < |s.pc|
      ensures LockPair(WaitNext(s, p, a), q, x)
    {
      assert LockPair(s, q, x);
      WaitLockPair(s, p, a, q, x);
    }
  }

  lemma WaitPlace(s: State, p: nat, a: WaitStep, q: nat)
    requires Can(s, p) && WaitEnabled(s, p, a) && Local(s, p) && q < |s.pc|
    requires Local(s, q)
    ensures InRange(WaitNext(s, p, a).pc[q], q, |s.pc|) && Counts(WaitNext(s, p, a), q)
  {
  }

  lemma WaitStateSelf(s: State, p: nat, a: WaitStep)
    requires Can(s, p) && WaitEnabled(s, p, a) && Local(s, p)
    ensures StateAt(WaitNext(s, p, a), p)
  {
  }

  lemma WaitStateOther(s: State, p: nat, a: WaitStep, q: nat)
    requires Can(s, p) && WaitEnabled(s, p, a) && Local(s, p) && q < |s.pc| && p != q
    requires Local(s, q) && LockOf(s, q)
    ensures StateAt(WaitNext(s, p, a), q)
  {
    WaitMoves(s, p, a);
    if a.Reap? && s.pc[p].i == q {
      assert LockPair(s, q, p) && LockPair(s, q, q);
    } else {
      WaitSpares(s, p, a, q);
      StateFrame(s, WaitNext(s, p, a), q);
    }
  }

  lemma WaitSpares(s: State, p: nat, a: WaitStep, q: nat)
    requires Can(s, p) && WaitEnabled(s, p, a) && q < |s.pc| && p != q && !(a.Reap? && s.pc[p].i == q)
    ensures WaitNext(s, p, a).st[q] == s.st[q] && WaitNext(s, p, a).chan[q] == s.chan[q]
  {
  }

  lemma StateFrame(s: State, t: State, q: nat)
    requires Can(s, q) && Can(t, q) && t.pc[q] == s.pc[q] && t.st[q] == s.st[q] && t.chan[q] == s.chan[q] && StateAt(s, q)
    ensures StateAt(t, q)
  {
  }

  lemma WaitMaking(s: State, p: nat, a: WaitStep, q: nat, r: nat)
    requires Can(s, p) && WaitEnabled(s, p, a) && Local(s, p) && q < |s.pc| && r < |s.pc|
    requires Local(s, q) && Local(s, r) && LockOf(s, r)
    requires Scan(s, p) && Making(s, p, r) && Making(s, q, r)
    ensures Making(WaitNext(s, p, a), q, r)
  {
    if q == p {
      WaitMakesNone(s, p, a);
    } else {
      WaitMakingOther(s, p, a, q, r);
    }
  }

  lemma WaitMakesNone(s: State, p: nat, a: WaitStep)
    requires Can(s, p) && WaitEnabled(s, p, a)
    ensures forall r: nat :: !Makes(WaitNext(s, p, a).pc[p], r)
  {
  }

  lemma WaitUsed(s: State, p: nat, a: WaitStep, r: nat)
    requires Can(s, p) && WaitEnabled(s, p, a) && Local(s, p) && Scan(s, p) && r < |s.pc|
    requires s.st[r].USED? && s.pc[r].NoThread?
    ensures
      var t := WaitNext(s, p, a);
      t.st[r].USED? && t.pc[r].NoThread? && t.parent[r] == s.parent[r]
  {
  }

  lemma MakingFrame(s: State, t: State, p: nat, q: nat, r: nat)
    requires Sized(s) && Sized(t) && |t.pc| == |s.pc| && p < |s.pc| && q < |s.pc| && r < |s.pc| && q != p
    requires Making(s, q, r) && !Makes(t.pc[p], r) && forall x: nat :: x < |s.pc| && x != p ==> t.pc[x] == s.pc[x]
    requires Makes(s.pc[q], r) ==> t.st[r].USED? && t.pc[r].NoThread? && t.parent[r] == s.parent[r]
    ensures Making(t, q, r)
  {
  }

  lemma WaitMakingOther(s: State, p: nat, a: WaitStep, q: nat, r: nat)
    requires Can(s, p) && WaitEnabled(s, p, a) && Local(s, p) && q < |s.pc| && r < |s.pc| && q != p
    requires Scan(s, p) && Making(s, q, r)
    ensures Making(WaitNext(s, p, a), q, r)
  {
    WaitMakesNone(s, p, a);
    WaitMoves(s, p, a);
    if Makes(s.pc[q], r) {
      WaitUsed(s, p, a, r);
    }
    MakingFrame(s, WaitNext(s, p, a), p, q, r);
  }

  lemma WaitMoves(s: State, p: nat, a: WaitStep)
    requires Can(s, p) && WaitEnabled(s, p, a)
    ensures forall x: nat :: x < |s.pc| && x != p ==> WaitNext(s, p, a).pc[x] == s.pc[x]
  {
  }

  lemma WaitMade(s: State, p: nat, a: WaitStep, q: nat)
    requires Can(s, p) && WaitEnabled(s, p, a) && q < |s.pc| && Made(s, q)
    ensures Made(WaitNext(s, p, a), q)
  {
    var t := WaitNext(s, p, a);
    if t.st[q].USED? && s.st[q].USED? {
      var w: nat :| w < |s.pc| && Makes(s.pc[w], q);
      assert Makes(t.pc[w], q);
    }
  }

  lemma WaitFamily(s: State, p: nat, a: WaitStep, c: nat)
    requires Can(s, p) && WaitEnabled(s, p, a) && Local(s, p) && c < |s.pc|
    requires Local(s, c) && Family(s, c)
    ensures Family(WaitNext(s, p, a), c)
  {
  }

  lemma WaitScanSelf(s: State, p: nat, a: WaitStep)
    requires Can(s, p) && WaitEnabled(s, p, a) && Local(s, p)
    requires Scan(s, p)
    ensures Scan(WaitNext(s, p, a), p)
  {
  }

  lemma WaitScanOther(s: State, p: nat, a: WaitStep, q: nat)
    requires Can(s, p) && WaitEnabled(s, p, a) && Local(s, p) && q < |s.pc| && p != q
    requires WaitLock(s) && Scan(s, q)
    ensures Scan(WaitNext(s, p, a), q)
  {
    WaitMoves(s, p, a);
    if HoldsWl(s.pc[q]) {
      WaitQuiet(s, p, a);
      ScanFrame(s, WaitNext(s, p, a), q);
    }
  }

  /** While another process holds wait_lock, wait changes no parent and no zombie. */
  lemma WaitQuiet(s: State, p: nat, a: WaitStep)
    requires Can(s, p) && WaitEnabled(s, p, a) && StateAt(s, p) && s.wl.Some? && !HoldsWl(s.pc[p])
    ensures
      var t := WaitNext(s, p, a);
      t.parent == s.parent && forall c: nat :: c < |s.pc| ==> (s.st[c].ZOMBIE? <==> t.st[c].ZOMBIE?)
  {
  }

  lemma WaitSound(s: State, p: nat, a: WaitStep, q: nat)
    requires Can(s, p) && WaitEnabled(s, p, a) && Local(s, p) && q < |s.pc|
    requires WaitLock(s) && Local(s, q) && Sound(s, q) && LockOf(s, q) && Scan(s, p)
    ensures Sound(WaitNext(s, p, a), q)
  {
    if q == p {
      WaitSoundSelf(s, p, a);
    } else {
      assert LockPair(s, q, p) && LockPair(s, q, q);
      WaitSoundOther(s, p, a, q);
    }
  }

  lemma WaitSoundSelf(s: State, p: nat, a: WaitStep)
    requires Can(s, p) && WaitEnabled(s, p, a) && Local(s, p) && WaitLock(s) && Sound(s, p) && Scan(s, p)
    ensures Sound(WaitNext(s, p, a), p)
  {
  }

  lemma WaitSoundOther(s: State, p: nat, a: WaitStep, q: nat)
    requires Can(s, p) && WaitEnabled(s, p, a) && Local(s, p) && q < |s.pc| && q != p
    requires WaitLock(s) && Local(s, q) && Sound(s, q) && LockPair(s, q, p) && LockPair(s, q, q)
    ensures Sound(WaitNext(s, p, a), q)
  {
  }

  lemma WaitWarned(s: State, p: nat, a: WaitStep, c: nat)
    requires Can(s, p) && WaitEnabled(s, p, a) && Local(s, p) && c < |s.pc|
    requires WaitLock(s) && Local(s, c) && Warned(s, c) && Family(s, c)
    ensures Warned(WaitNext(s, p, a), c)
  {
  }

  lemma RunKeeps(s: State, p: nat, a: RunStep)
    requires Inv(s) && Can(s, p) && RunEnabled(s, p, a)
    ensures Inv(RunNext(s, p, a))
  {
    var t := RunNext(s, p, a);
    assert Local(s, p) && Family(s, p) && Waits(s, p);
    RunWaitLock(s, p, a);
    forall q: nat | q < |s.pc|
      ensures LockOf(t, q) && Local(t, q)
    {
      assert Local(s, q) && LockOf(s, q);
      RunLockOf(s, p, a, q);
      RunPlace(s, p, a, q);
      RunState(s, p, a, q);
    }
    forall q: nat, r: nat | q < |s.pc| && r < |s.pc|
      ensures Making(t, q, r)
    {
      assert Local(s, q) && Local(s, r) && LockOf(s, r) && Family(s, r);
      RunMaking(s, p, a, q, r);
    }
    forall q: nat | q < |s.pc|
      ensures Made(t, q) && Family(t, q) && Waits(t, q)
    {
      assert Local(s, q) && LockOf(s, q) && Family(s, q) && Waits(s, q) && Made(s, q);
      RunMade(s, p, a, q);
      RunFamily(s, p, a, q);
      RunScanning(s, p, a, q);
      RunSound(s, p, a, q);
      RunWarned(s, p, a, q);
    }
  }

  lemma ForkKeeps(s: State, p: nat, a: ForkStep)
    requires Inv(s) && Can(s, p) && ForkEnabled(s, p, a)
    ensures Inv(ForkNext(s, p, a))
  {
    var t := ForkNext(s, p, a);
    assert Local(s, p) && Family(s, p) && Waits(s, p);
    if !a.Alloc? {
      assert Local(s, s.pc[p].np) && Making(s, p, s.pc[p].np);
    }
    ForkWaitLock(s, p, a);
    forall q: nat | q < |s.pc|
      ensures LockOf(t, q) && Local(t, q)
    {
      assert Local(s, q) && LockOf(s, q);
      ForkLockOf(s, p, a, q);
      ForkPlace(s, p, a, q);
      ForkState(s, p, a, q);
    }
    forall q: nat, r: nat | q < |s.pc| && r < |s.pc|
      ensures Making(t, q, r)
    {
      assert Local(s, q) && Local(s, r) && LockOf(s, r) && Family(s, r);
      ForkMaking(s, p, a, q, r);
    }
    forall q: nat | q < |s.pc|
      ensures Made(t, q) && Family(t, q) && Waits(t, q)
    {
      assert Local(s, q) && LockOf(s, q) && Family(s, q) && Waits(s, q) && Made(s, q);
      ForkMade(s, p, a, q);
      ForkFamily(s, p, a, q);
      ForkScanning(s, p, a, q);
      ForkSound(s, p, a, q);
      ForkWarned(s, p, a, q);
    }
  }

  lemma ExitKeeps(s: State, p: nat, a: ExitStep)
    requires Inv(s) && Can(s, p) && ExitEnabled(s, p, a)
    ensures Inv(ExitNext(s, p, a))
  {
    var t := ExitNext(s, p, a);
    assert Local(s, p) && Family(s, p) && Waits(s, p);
    assert Local(s, 0);
    if a.ExWake? {
      assert LockOf(s, s.pc[p].j) && Local(s, s.pc[p].j);
    }
    ExitWaitLock(s, p, a);
    forall q: nat | q < |s.pc|
      ensures LockOf(t, q) && Local(t, q)
    {
      assert Local(s, q) && LockOf(s, q);
      ExitLockOf(s, p, a, q);
      ExitPlace(s, p, a, q);
      if p == q {
        ExitStateSelf(s, p, a);
      } else {
        ExitStateOther(s, p, a, q);
      }
    }
    forall q: nat, r: nat | q < |s.pc| && r < |s.pc|
      ensures Making(t, q, r)
    {
      assert Local(s, q) && Local(s, r) && LockOf(s, r) && Family(s, r);
      ExitMaking(s, p, a, q, r);
    }
    forall q: nat | q < |s.pc|
      ensures Made(t, q) && Family(t, q) && Waits(t, q)
    {
      assert Local(s, q) && LockOf(s, q) && Family(s, q) && Waits(s, q) && Made(s, q);
      ExitMade(s, p, a, q);
      ExitFamily(s, p, a, q);
      ExitScanning(s, p, a, q);
      ExitSound(s, p, a, q);
      ExitWarned(s, p, a, q);
    }
  }

  lemma WaitKeeps(s: State, p: nat, a: WaitStep)
    requires Inv(s) && Can(s, p) && WaitEnabled(s, p, a)
    ensures Inv(WaitNext(s, p, a))
  {
    var t := WaitNext(s, p, a);
    assert Local(s, p) && Family(s, p) && Waits(s, p);
    WaitWaitLock(s, p, a);
    forall q: nat | q < |s.pc|
      ensures LockOf(t, q) && Local(t, q)
    {
      assert Local(s, q) && LockOf(s, q);
      WaitLockOf(s, p, a, q);
      WaitPlace(s, p, a, q);
      if p == q {
        WaitStateSelf(s, p, a);
      } else {
        WaitStateOther(s, p, a, q);
      }
    }
    forall q: nat, r: nat | q < |s.pc| && r < |s.pc|
      ensures Making(t, q, r)
    {
      assert Local(s, q) && Local(s, r) && LockOf(s, r) && Family(s, r);
      WaitMaking(s, p, a, q, r);
    }
    forall q: nat | q < |s.pc|
      ensures Made(t, q) && Family(t, q) && Waits(t, q)
    {
      assert Local(s, q) && LockOf(s, q) && Family(s, q) && Waits(s, q) && Made(s, q);
      WaitMade(s, p, a, q);
      WaitFamily(s, p, a, q);
      if p == q {
        WaitScanSelf(s, p, a);
      } else {
        WaitScanOther(s, p, a, q);
      }
      WaitSound(s, p, a, q);
      WaitWarned(s, p, a, q);
    }
  }

  lemma StepKeeps(s: State, p: nat, a: Action)
    requires Inv(s) && Enabled(s, p, a)
    ensures Inv(Next(s, p, a))
  {
    match a
    case Run(x) => RunKeeps(s, p, x);
    case Fork(x) => ForkKeeps(s, p, x);
    case Exit(x) => ExitKeeps(s, p, x);
    case Wait(x) => WaitKeeps(s, p, x);
  }

  // ----- whole runs -----

  datatype Event = Event(proc: nat, action: Action)

  ghost predicate IsRun(states: seq<State>, evs: seq<Event>) {
    |states| == |evs| + 1 &&
    forall i :: 0 <= i < |evs| ==>
      Enabled(states[i], evs[i].proc, evs[i].action) && states[i + 1] == Next(states[i], evs[i].proc, evs[i].action)
  }

  /** userinit: init in slot 0, every other slot free. */
  ghost predicate Initial(s: State) {
    && Sized(s) && s.wl.None? && s.pc[0].Idle? && s.st[0].RUNNABLE?
    && (forall p: nat :: p < |s.pc| ==> Fresh(s, p))
    && (forall p: nat :: 0 < p < |s.pc| ==> s.pc[p].NoThread? && s.st[p].UNUSED?)
  }

  ghost predicate Fresh(s: State, p: nat)
    requires Sized(s) && p < |s.pc|
  {
    s.parent[p].None? && s.plock[p].None? && s.exits[p] == s.reaps[p] == 0
  }

  lemma InitialHolds(s: State)
    requires Initial(s)
    ensures Inv(s)
  {
    forall p: nat | p < |s.pc|
      ensures Local(s, p) && LockOf(s, p) && Family(s, p) && Waits(s, p)
    {
      assert Fresh(s, p);
    }
  }

  lemma {:induction false} RunInvariant(states: seq<State>, evs: seq<Event>, n: nat)
    requires IsRun(states, evs) && Initial(states[0]) && n < |states|
    ensures Inv(states[n])
  {
    if n == 0 {
      InitialHolds(states[0]);
    } else {
      RunInvariant(states, evs, n - 1);
      StepKeeps(states[n - 1], evs[n - 1].proc, evs[n - 1].action);
    }
  }

  /** Whatever the interleaving: while wait_lock is free, no process that sleeps in wait, or is about to, has a dead child. */
  lemma NoMissedExit(states: seq<State>, evs: seq<Event>, n: nat, p: nat, c: nat)
    requires IsRun(states, evs) && Initial(states[0]) && n < |states|
    requires p < |states[n].pc| && c < |states[n].pc|
    ensures Can(states[n], p) && Can(states[n], c)
    ensures states[n].wl.None? && Committed(states[n], p) && states[n].parent[c] == Some(p) ==>
      !states[n].st[c].ZOMBIE?
  {
    RunInvariant(states, evs, n);
    assert Waits(states[n], p);
  }

  /** At every moment every parent pointer names a live process, and only init and free or half-made slots lack one. */
  lemma ParentsLive(states: seq<State>, evs: seq<Event>, n: nat, c: nat)
    requires IsRun(states, evs) && Initial(states[0]) && n < |states| && c < |states[n].pc|
    ensures Can(states[n], c)
    ensures states[n].parent[c].Some? ==>
      states[n].parent[c].value < |states[n].pc| && Alive(states[n].st[states[n].parent[c].value])
    ensures c != 0 && (Alive(states[n].st[c]) || states[n].st[c].ZOMBIE?) ==> states[n].parent[c].Some?
    ensures states[n].st[c].UNUSED? ==> states[n].parent[c].None?
  {
    RunInvariant(states, evs, n);
    var s := states[n];
    assert Family(s, c);
    if s.parent[c].Some? {
      assert Local(s, s.parent[c].value);
    }
  }

  /**
   A slot's exits and reaps alternate, exit first; and wait frees a slot only for its parent, after the
   dead process has left its stack for good.
   */
  lemma ReapedOnce(states: seq<State>, evs: seq<Event>, n: nat, p: nat)
    requires IsRun(states, evs) && Initial(states[0]) && n < |states| && p < |states[n].pc|
    ensures Can(states[n], p)
    ensures states[n].exits[p] == states[n].reaps[p] + if states[n].st[p].ZOMBIE? then 1 else 0
    ensures WaitEnabled(states[n], p, Reap) ==>
      states[n].parent[states[n].pc[p].i] == Some(p) && states[n].pc[states[n].pc[p].i].NoThread?
  {
    RunInvariant(states, evs, n);
    var s := states[n];
    assert Local(s, p) && Waits(s, p);
    if WaitEnabled(s, p, Reap) {
      assert Local(s, s.pc[p].i) && LockOf(s, s.pc[p].i);
      assert LockPair(s, s.pc[p].i, p) && LockPair(s, s.pc[p].i, s.pc[p].i);
    }
  }

  /** wait gives up for want of children exactly when the caller has none. */
  lemma NoChildren(states: seq<State>, evs: seq<Event>, n: nat, p: nat)
    requires IsRun(states, evs) && Initial(states[0]) && n < |states| && p < |states[n].pc|
    requires states[n].pc[p].WaitKids?
    ensures Can(states[n], p)
    ensures WaitEnabled(states[n], p, NoKids) <==> !HasChild(states[n], p, |states[n].pc|)
  {
    RunInvariant(states, evs, n);
    assert Waits(states[n], p);
  }

  predicate InWait(c: Pc) {
    match c
    case WaitScan(_, _) => true
    case WaitHave(_, _) => true
    case WaitKids(_) => true
    case WaitSpared => true
    case WaitOwn => true
    case WaitGone => true
    case WaitSet => true
    case Waiting => true
    case WaitWoken => true
    case WaitAgain => true
    case _ => false
  }

  /** From s to t the slot c, a dead child of p, has been freed. */
  ghost predicate Collects(s: State, t: State, p: nat, c: nat)
    requires Sized(s) && Sized(t) && |t.pc| == |s.pc|
  {
    && c < |s.pc| && s.st[c].ZOMBIE? && s.parent[c] == Some(p)
    && t.st == s.st[c := UNUSED] && t.parent == s.parent[c := None] && t.reaps == s.reaps[c := s.reaps[c] + 1]
    && t.chan[c].None? && !t.killed[c]
  }

  /** From s to t nothing has been freed: p has no child, has been killed, or a status could not be copied out. */
  ghost predicate Leaves(s: State, t: State, p: nat, a: Action)
    requires Can(s, p)
  {
    && t.st == s.st && t.parent == s.parent && t.reaps == s.reaps
    && (|| !HasChild(s, p, |s.pc|)
        || (s.killed[p] && NoZombie(s, p, |s.pc|))
        || (a == Wait(CopyFault) && !NoZombie(s, p, |s.pc|)))
  }

  lemma OthersStay(s: State, p: nat, a: Action)
    requires Enabled(s, p, a) && InWait(s.pc[p]) && !a.Wait?
    ensures InWait(Next(s, p, a).pc[p])
  {
  }

  lemma ReturnStep(s: State, p: nat, a: WaitStep)
    requires Can(s, p) && WaitEnabled(s, p, a) && Scan(s, p) && !InWait(WaitNext(s, p, a).pc[p])
    ensures
      var t := WaitNext(s, p, a);
      if a.Reap? then Collects(s, t, p, s.pc[p].i) else Leaves(s, t, p, Wait(a))
  {
    assert a.Reap? || a.CopyFault? || a.NoKids? || a.WasKilled?;
  }

  /**
   wait returns with a dead child of the caller, whose slot is free from then on; without one it returns only
   if the caller has no child, has been killed, or the child's status could not be copied out.
   */
  lemma WaitReturns(states: seq<State>, evs: seq<Event>, n: nat)
    requires IsRun(states, evs) && Initial(states[0]) && n < |evs|
    ensures
      var s, t, p := states[n], states[n + 1], evs[n].proc;
      && Can(s, p) && Sized(t) && |t.pc| == |s.pc|
      && (InWait(s.pc[p]) && !InWait(t.pc[p]) ==>
            (exists c: nat :: Collects(s, t, p, c)) || Leaves(s, t, p, evs[n].action))
  {
    RunInvariant(states, evs, n);
    var s, t, p, a := states[n], states[n + 1], evs[n].proc, evs[n].action;
    assert Waits(s, p);
    if InWait(s.pc[p]) && !InWait(t.pc[p]) {
      match a
      case Wait(x) => ReturnStep(s, p, x);
      case _ => OthersStay(s, p, a);
    }
  }

  /** A half-made process is always in the hands of one live parent, so no slot is lost. */
  lemma NoSlotLost(states: seq<State>, evs: seq<Event>, n: nat, q: nat)
    requires IsRun(states, evs) && Initial(states[0]) && n < |states| && q < |states[n].pc|
    ensures Can(states[n], q)
    ensures states[n].st[q].USED? ==>
      exists p: nat :: p < |states[n].pc| && Makes(states[n].pc[p], q) && Alive(states[n].st[p])
  {
    RunInvariant(states, evs, n);
    var s := states[n];
    assert Made(s, q);
    if s.st[q].USED? {
      var p: nat :| p < |s.pc| && Makes(s.pc[p], q);
      assert Local(s, p);
    }
  }

  // ----- no deadlock -----

  ghost predicate Holding(s: State, p: nat)
    requires Sized(s) && p < |s.pc|
  {
    HoldsWl(s.pc[p]) || exists q: nat :: q < |s.pc| && HoldsLockOf(s.pc[p], p, q)
  }

  /** What a process does next that holds some p->lock. */
  function Onward(s: State, p: nat): (a: Action)
    requires Sized(s) && p < |s.pc|
  {
    match s.pc[p]
    case ForkHave(_) => Fork(ForkUnlock)
    case ReHave(_, _) => Exit(ReWake)
    case ExitHave(_) => Exit(ExWake)
    case ExitOwn => Exit(SetZombie)
    case ExitZombie => Exit(ExitRelease)
    case ExitLeave => Exit(ExitSwitch)
    case WaitHave(i, _) => if i < |s.pc| && s.st[i].ZOMBIE? then Wait(Reap) else Wait(NotYet)
    case WaitOwn => Wait(Unlock)
    case WaitGone => Wait(Commit)
    case WaitSet => Wait(Switch)
    case WaitWoken => Wait(Tidy)
    case KillHave(_) => Run(KillWake)
    case ForkWl(_) => Fork(SetParent)
    case ForkSet(_) => Fork(ForkRelease)
    case Reparent(i) =>
      if i >= |s.pc| then Exit(Reparented) else if s.parent[i] == Some(p) then Exit(Move) else Exit(Skip)
    case ReScan(_, j) => if j >= |s.pc| then Exit(ReEnd) else if j == p then Exit(ReSelf) else Exit(ReLock)
    case ExitScan(j) => if j >= |s.pc| then Exit(LockOwn) else if j == p then Exit(ExSelf) else Exit(ExLock)
    case WaitScan(i, _) =>
      if i >= |s.pc| then Wait(Scanned) else if s.parent[i] == Some(p) then Wait(LockKid) else Wait(NotMine)
    case WaitKids(have) => if !have then Wait(NoKids) else if s.killed[p] then Wait(WasKilled) else Wait(Spared)
    case WaitSpared => Wait(GoSleep)
    case _ => Run(Dispatch)
  }

  lemma LockHolderGoesOn(s: State, p: nat, q: nat)
    requires Inv(s) && p < |s.pc| && q < |s.pc| && s.plock[q] == Some(p)
    ensures Enabled(s, p, Onward(s, p)) && Holding(s, p)
  {
    assert Local(s, p) && LockOf(s, q);
    assert LockPair(s, q, p);
  }

  lemma WaitLockHolderGoesOn(s: State, p: nat)
    requires Inv(s) && p < |s.pc| && s.wl == Some(p) && forall q: nat :: q < |s.pc| ==> s.plock[q].None?
    ensures Enabled(s, p, Onward(s, p)) && Holding(s, p)
  {
    assert Local(s, p) && Waits(s, p);
    forall q: nat | q < |s.pc|
      ensures !HoldsLockOf(s.pc[p], p, q)
    {
      assert LockOf(s, q) && LockPair(s, q, p);
    }
  }

  /** Locks are never held in a circle: while any is held, some holder can take its next step. */
  lemma NoDeadlock(states: seq<State>, evs: seq<Event>, n: nat)
    requires IsRun(states, evs) && Initial(states[0]) && n < |states|
    ensures Sized(states[n])
    ensures (states[n].wl.Some? || exists q: nat :: q < |states[n].pc| && states[n].plock[q].Some?) ==>
      exists p: nat :: p < |states[n].pc| && Holding(states[n], p) && Enabled(states[n], p, Onward(states[n], p))
  {
    RunInvariant(states, evs, n);
    var s := states[n];
    if q: nat :| q < |s.pc| && s.plock[q].Some? {
      assert LockOf(s, q);
      LockHolderGoesOn(s, s.plock[q].value, q);
    } else if s.wl.Some? {
      WaitLockHolderGoesOn(s, s.wl.value);
    }
  }

  // ----- kill and wait -----

  predicate Deaf(s: State, p: nat)
    requires Can(s, p)
  {
    s.killed[p] && Committed(s, p)
  }

  lemma RunDeaf(s: State, q: nat, a: RunStep, p: nat)
    requires Can(s, q) && RunEnabled(s, q, a) && p < |s.pc| && Local(s, q) && LockPair(s, p, q) && LockPair(s, p, p)
    ensures Deaf(RunNext(s, q, a), p) ==> Deaf(s, p)
  {
  }

  lemma ForkDeaf(s: State, q: nat, a: ForkStep, p: nat)
    requires Can(s, q) && ForkEnabled(s, q, a) && p < |s.pc| && Local(s, q) && Local(s, p)
    requires !a.Alloc? ==> Making(s, q, s.pc[q].np)
    ensures Deaf(ForkNext(s, q, a), p) ==> Deaf(s, p)
  {
  }

  lemma ExitDeaf(s: State, q: nat, a: ExitStep, p: nat)
    requires Can(s, q) && ExitEnabled(s, q, a) && p < |s.pc| && Local(s, q)
    ensures Deaf(ExitNext(s, q, a), p) ==> Deaf(s, p)
  {
  }

  lemma WaitDeaf(s: State, q: nat, a: WaitStep, p: nat)
    requires Can(s, q) && WaitEnabled(s, q, a) && p < |s.pc| && Local(s, q)
    ensures Deaf(WaitNext(s, q, a), p) && !Deaf(s, p) <==> q == p && a.GoSleep? && s.killed[p]
  {
  }

  /**
   A process that has been killed goes to sleep in wait exactly if the kill has fallen between its test of
   p->killed and the acquisition of p->lock in sleep.
   */
  lemma KillMissed(states: seq<State>, evs: seq<Event>, n: nat, p: nat)
    requires IsRun(states, evs) && Initial(states[0]) && n < |evs| && p < |states[n].pc|
    ensures Can(states[n], p) && Can(states[n + 1], p)
    ensures Deaf(states[n + 1], p) && !Deaf(states[n], p) <==>
      evs[n] == Event(p, Wait(GoSleep)) && states[n].killed[p]
  {
    RunInvariant(states, evs, n);
    var s, q, a := states[n], evs[n].proc, evs[n].action;
    assert Local(s, p) && Local(s, q) && LockOf(s, p);
    assert LockPair(s, p, q) && LockPair(s, p, p);
    match a
    case Run(x) => RunDeaf(s, q, x, p);
    case Fork(x) =>
      if !x.Alloc? {
        assert Making(s, q, s.pc[q].np);
      }
      ForkDeaf(s, q, x, p);
    case Exit(x) => ExitDeaf(s, q, x, p);
    case Wait(x) => WaitDeaf(s, q, x, p);
  }

  ghost predicate Reachable(s: State) {
    forall key: bool :: Reached(key, s)
  }

  /** The key keeps Reachable from unfolding except where a proof names its parts. */
  ghost predicate Reached(key: bool, s: State) {
    exists states, evs :: IsRun(states, evs) && Initial(states[0]) && s == states[|evs|]
  }

  lemma RunMore(states: seq<State>, evs: seq<Event>, p: nat, a: Action)
    requires IsRun(states, evs) && Enabled(states[|evs|], p, a)
    ensures IsRun(states + [Next(states[|evs|], p, a)], evs + [Event(p, a)])
  {
    var more, steps := states + [Next(states[|evs|], p, a)], evs + [Event(p, a)];
    forall i | 0 <= i < |steps|
      ensures Enabled(more[i], steps[i].proc, steps[i].action) && more[i + 1] == Next(more[i], steps[i].proc, steps[i].action)
    {
      if i < |evs| {
        assert more[i] == states[i] && more[i + 1] == states[i + 1] && steps[i] == evs[i];
      }
    }
  }

  lemma Leads(s: State, p: nat, a: Action, t: State)
    requires Reachable(s) && Enabled(s, p, a) && t == Next(s, p, a)
    ensures Reachable(t)
  {
    assert Reached(true, s);
    var states, evs :| IsRun(states, evs) && Initial(states[0]) && s == states[|evs|];
    RunMore(states, evs, p, a);
    var more, steps := states + [t], evs + [Event(p, a)];
    assert IsRun(more, steps) && Initial(more[0]) && t == more[|steps|];
  }

  /** init, and the process it has forked or is forking. */
  function Two(init: Pc, child: Pc, state: ProcState, other: ProcState, parent: Option<nat>, killed: bool,
               locks: (Option<nat>, Option<nat>), wl: Option<nat>): State
  {
    State([init, child], [state, other], [None, parent], [if state.SLEEPING? then Some(0) else None, None],
          [killed, false], [locks.0, locks.1], wl, [0, 0], [0, 0])
  }

  const FREE: (Option<nat>, Option<nat>) := (None, None)

  lemma ForkOne()
    ensures Reachable(Two(ForkGo(1), NoThread, RUNNING, USED, Some(0), false, FREE, None))
  {
    var s0 := Two(Idle, NoThread, RUNNABLE, UNUSED, None, false, FREE, None);
    assert Initial(s0) && IsRun([s0], []);
    var s1 := Two(Idle, NoThread, RUNNING, UNUSED, None, false, FREE, None);
    Leads(s0, 0, Run(Dispatch), s1);
    var s2 := Two(ForkHave(1), NoThread, RUNNING, USED, None, false, (None, Some(0)), None);
    Leads(s1, 0, Fork(Alloc(1)), s2);
    var s3 := Two(ForkGap(1), NoThread, RUNNING, USED, None, false, FREE, None);
    Leads(s2, 0, Fork(ForkUnlock), s3);
    var s4 := Two(ForkWl(1), NoThread, RUNNING, USED, None, false, FREE, Some(0));
    Leads(s3, 0, Fork(ForkLock), s4);
    var s5 := Two(ForkSet(1), NoThread, RUNNING, USED, Some(0), false, FREE, Some(0));
    Leads(s4, 0, Fork(SetParent), s5);
    Leads(s5, 0, Fork(ForkRelease), Two(ForkGo(1), NoThread, RUNNING, USED, Some(0), false, FREE, None));
  }

  lemma ScanOne()
    ensures Reachable(Two(WaitScan(1, false), Idle, RUNNING, RUNNING, Some(0), false, FREE, Some(0)))
  {
    ForkOne();
    var s0 := Two(ForkGo(1), NoThread, RUNNING, USED, Some(0), false, FREE, None);
    var s1 := Two(Idle, Idle, RUNNING, RUNNABLE, Some(0), false, FREE, None);
    Leads(s0, 0, Fork(Start), s1);
    var s2 := Two(Idle, Idle, RUNNING, RUNNING, Some(0), false, FREE, None);
    Leads(s1, 1, Run(Dispatch), s2);
    var s3 := Two(WaitScan(0, false), Idle, RUNNING, RUNNING, Some(0), false, FREE, Some(0));
    Leads(s2, 0, Wait(Enter), s3);
    Leads(s3, 0, Wait(NotMine), Two(WaitScan(1, false), Idle, RUNNING, RUNNING, Some(0), false, FREE, Some(0)));
  }

  lemma SpareOne()
    ensures Reachable(Two(WaitSpared, Idle, RUNNING, RUNNING, Some(0), false, FREE, Some(0)))
  {
    ScanOne();
    var s0 := Two(WaitScan(1, false), Idle, RUNNING, RUNNING, Some(0), false, FREE, Some(0));
    var s1 := Two(WaitHave(1, false), Idle, RUNNING, RUNNING, Some(0), false, (None, Some(0)), Some(0));
    Leads(s0, 0, Wait(LockKid), s1);
    var s2 := Two(WaitScan(2, true), Idle, RUNNING, RUNNING, Some(0), false, FREE, Some(0));
    Leads(s1, 0, Wait(NotYet), s2);
    var s3 := Two(WaitKids(true), Idle, RUNNING, RUNNING, Some(0), false, FREE, Some(0));
    Leads(s2, 0, Wait(Scanned), s3);
    Leads(s3, 0, Wait(Spared), Two(WaitSpared, Idle, RUNNING, RUNNING, Some(0), false, FREE, Some(0)));
  }

  lemma KillOne()
    ensures Reachable(Two(WaitOwn, Idle, RUNNING, RUNNING, Some(0), true, (Some(0), None), Some(0)))
  {
    SpareOne();
    var s0 := Two(WaitSpared, Idle, RUNNING, RUNNING, Some(0), false, FREE, Some(0));
    var s1 := Two(WaitSpared, KillHave(0), RUNNING, RUNNING, Some(0), false, (Some(1), None), Some(0));
    Leads(s0, 1, Run(Kill(0)), s1);
    var s2 := Two(WaitSpared, Idle, RUNNING, RUNNING, Some(0), true, FREE, Some(0));
    Leads(s1, 1, Run(KillWake), s2);
    Leads(s2, 0, Wait(GoSleep), Two(WaitOwn, Idle, RUNNING, RUNNING, Some(0), true, (Some(0), None), Some(0)));
  }

  /** It does happen: a killed process that sleeps in wait. */
  lemma KillCanBeMissed()
    ensures Reachable(Two(Waiting, Idle, SLEEPING, RUNNING, Some(0), true, FREE, None))
  {
    KillOne();
    var s0 := Two(WaitOwn, Idle, RUNNING, RUNNING, Some(0), true, (Some(0), None), Some(0));
    var s1 := Two(WaitGone, Idle, RUNNING, RUNNING, Some(0), true, (Some(0), None), None);
    Leads(s0, 0, Wait(Unlock), s1);
    var s2 := Two(WaitSet, Idle, SLEEPING, RUNNING, Some(0), true, (Some(0), None), None);
    Leads(s1, 0, Wait(Commit), s2);
    Leads(s2, 0, Wait(Switch), Two(Waiting, Idle, SLEEPING, RUNNING, Some(0), true, FREE, None));
  }
}
