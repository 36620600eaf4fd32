/**
 One sleep lock of kernel/sleeplock.c among any number of processes, with sleep and wakeup of
 kernel/proc.c taken step by step: the inner spinlock, every p->lock, the scan of wakeup, and kill,
 which may wake a sleeper at any time.
 */
module SleepLocks {
  import opened Kernel

  datatype Pc =
    | Idle
    | AcqWant          // acquiresleep: before acquire(&lk->lk)
    | AcqTest          // at the test of lk->locked
    | SleepWant        // sleep: lk->locked was seen set; before acquire(&p->lock)
    | SleepBoth        // both locks held
    | SleepOwn         // lk->lk released
    | SleepSet         // p->chan and p->state written; p->lock held through sched
    | Asleep           // off the CPU, p->lock released by the scheduler
    | Woken            // back from sched, p->lock held
    | Took             // lk->locked set, lk->lk still held
    | Holding          // acquiresleep has returned
    | RelWant          // releasesleep: before acquire(&lk->lk)
    | RelHave          // before lk->locked = 0
    | Scan(i: nat)     // wakeup is about to look at process i
    | ScanHave(i: nat) // wakeup holds the lock of process i
    | Query            // holdingsleep holds lk->lk
    | KillHave(q: nat) // kill holds the lock of process q

  datatype State = State(
    pc: seq<Pc>, st: seq<ProcState>, chan: seq<bool>,  // chan[p]: p->chan is this sleep lock
    plock: seq<Option<nat>>,                          // the holder of each p->lock
    lk: Option<nat>,                                  // the holder of lk->lk
    locked: bool, pid: int)

  datatype Action =
    | Call | AcqLock | Sleep | Take | TakeDone
    | LockOwn | UnlockInner | Commit | Switch | Resume | Tidy
    | CallRelease | RelLock | Clear | ScanLock | ScanSelf | ScanWake | ScanEnd
    | Ask | AskDone | Kill(q: nat) | KillWake

  predicate Sized(s: State) {
    |s.pc| == |s.st| == |s.chan| == |s.plock|
  }

  /** Processes are named by their index; myproc()->pid of process p is Pid(p). */
  function Pid(p: nat): int {
    p + 1
  }

  predicate Enabled(s: State, p: nat, a: Action) {
    Sized(s) && p < |s.pc| &&
    match a
    case Call => s.pc[p].Idle?
    case AcqLock => s.pc[p].AcqWant? && s.lk.None?
    case Sleep => s.pc[p].AcqTest? && s.locked
    case Take => s.pc[p].AcqTest? && !s.locked
    case TakeDone => s.pc[p].Took?
    case LockOwn => s.pc[p].SleepWant? && s.plock[p].None?
    case UnlockInner => s.pc[p].SleepBoth?
    case Commit => s.pc[p].SleepOwn?
    case Switch => s.pc[p].SleepSet?
    case Resume => s.pc[p].Asleep? && s.st[p].RUNNABLE? && s.plock[p].None?
    case Tidy => s.pc[p].Woken?
    case CallRelease => s.pc[p].Holding?
    case RelLock => s.pc[p].RelWant? && s.lk.None?
    case Clear => s.pc[p].RelHave?
    case ScanLock => s.pc[p].Scan? && s.pc[p].i < |s.pc| && s.pc[p].i != p && s.plock[s.pc[p].i].None?
    case ScanSelf => s.pc[p].Scan? && s.pc[p].i == p
    case ScanWake => s.pc[p].ScanHave? && s.pc[p].i < |s.pc|
    case ScanEnd => s.pc[p].Scan? && s.pc[p].i == |s.pc|
    case Ask => s.pc[p].Idle? && s.lk.None?
    case AskDone => s.pc[p].Query?
    case Kill(q) => s.pc[p].Idle? && q < |s.pc| && s.plock[q].None?
    case KillWake => s.pc[p].KillHave? && s.pc[p].q < |s.pc|
  }

  function To(s: State, p: nat, c: Pc): State
    requires p < |s.pc|
  {
    s.(pc := s.pc[p := c])
  }

  function Next(s: State, p: nat, a: Action): (t: State)
    requires Enabled(s, p, a)
    ensures Sized(t) && |t.pc| == |s.pc| && (forall q: nat :: q < |s.pc| && q != p ==> t.pc[q] == s.pc[q])
  {
    match a
    case Call => To(s, p, AcqWant)
    case AcqLock => To(s, p, AcqTest).(lk := Some(p))
    case Sleep => To(s, p, SleepWant)
    case Take => To(s, p, Took).(locked := true, pid := Pid(p))
    case TakeDone => To(s, p, Holding).(lk := None)
    case LockOwn => To(s, p, SleepBoth).(plock := s.plock[p := Some(p)])
    case UnlockInner => To(s, p, SleepOwn).(lk := None)
    case Commit => To(s, p, SleepSet).(chan := s.chan[p := true], st := s.st[p := SLEEPING])
    case Switch => To(s, p, Asleep).(plock := s.plock[p := None])
    case Resume => To(s, p, Woken).(st := s.st[p := RUNNING], plock := s.plock[p := Some(p)])
    case Tidy => To(s, p, AcqWant).(chan := s.chan[p := false], plock := s.plock[p := None])
    case CallRelease => To(s, p, RelWant)
    case RelLock => To(s, p, RelHave).(lk := Some(p))
    case Clear => To(s, p, Scan(0)).(locked := false, pid := 0)
    case ScanLock => To(s, p, ScanHave(s.pc[p].i)).(plock := s.plock[s.pc[p].i := Some(p)])
    case ScanSelf => To(s, p, Scan(p + 1))
    case ScanWake =>
      var q := s.pc[p].i;
      To(s, p, Scan(q + 1))
        .(plock := s.plock[q := None],
          st := if s.st[q].SLEEPING? && s.chan[q] then s.st[q := RUNNABLE] else s.st)
    case ScanEnd => To(s, p, Idle).(lk := None)
    case Ask => To(s, p, Query).(lk := Some(p))
    case AskDone => To(s, p, Idle).(lk := None)
    case Kill(q) => To(s, p, KillHave(q)).(plock := s.plock[q := Some(p)])
    case KillWake =>
      var q := s.pc[p].q;
      To(s, p, Idle)
        .(plock := s.plock[q := None], st := if s.st[q].SLEEPING? then s.st[q := RUNNABLE] else s.st)
  }

  // ----- the invariant -----

  predicate HoldsInner(c: Pc) {
    c.AcqTest? || c.SleepWant? || c.SleepBoth? || c.Took? || c.RelHave? || c.Scan? || c.ScanHave? || c.Query?
  }

  /** Process p, at c, holds the lock of process q. */
  predicate HoldsLockOf(c: Pc, p: nat, q: nat) {
    match c
    case SleepBoth => p == q
    case SleepOwn => p == q
    case SleepSet => p == q
    case Woken => p == q
    case ScanHave(i) => i == q
    case KillHave(i) => i == q
    case _ => false
  }

  /** From the store of lk->locked = 1 to the store of lk->locked = 0. */
  predicate Owns(c: Pc) {
    c.Took? || c.Holding? || c.RelWant? || c.RelHave?
  }

  /** Asleep on the lock, or on the way there after having seen it locked. */
  predicate Committed(s: State, p: nat)
    requires Sized(s) && p < |s.pc|
  {
    match s.pc[p]
    case SleepWant => true
    case SleepBoth => true
    case SleepOwn => true
    case SleepSet => true
    case Asleep => s.st[p].SLEEPING?
    case _ => false
  }

  /** Whoever is committed will be woken: the lock is held, or a wakeup scan has still to come to it. */
  ghost predicate WillWake(s: State, q: nat)
    requires Sized(s) && q < |s.pc|
  {
    Committed(s, q) ==>
      s.locked || (s.lk.Some? && s.lk.value < |s.pc| && Pending(s.pc[s.lk.value], q))
  }

  predicate Pending(c: Pc, q: nat) {
    (c.Scan? && c.i <= q) || (c.ScanHave? && c.i <= q)
  }

  ghost predicate LocalInv(s: State, p: nat)
    requires Sized(s) && p < |s.pc|
  {
    && (s.lk == Some(p) <==> HoldsInner(s.pc[p]))
    && (s.pc[p].ScanHave? ==> s.pc[p].i < |s.pc| && s.pc[p].i != p)
    && (s.pc[p].Scan? ==> s.pc[p].i <= |s.pc|)
    && (s.pc[p].KillHave? ==> s.pc[p].q < |s.pc|)
    && (Owns(s.pc[p]) ==> s.locked && s.pid == Pid(p))
    && (s.pc[p].Scan? || s.pc[p].ScanHave? ==> !s.locked)
  }

  ghost predicate RunInv(s: State, p: nat)
    requires Sized(s) && p < |s.pc|
  {
    match s.pc[p]
    case SleepSet => s.chan[p] && s.st[p].SLEEPING?
    case Asleep => s.chan[p] && !s.st[p].RUNNING?
    case _ => s.st[p].RUNNING?
  }

  ghost predicate LockInv(s: State)
    requires Sized(s)
  {
    && (forall p: nat, q: nat :: p < |s.pc| && q < |s.pc| ==> (s.plock[q] == Some(p) <==> HoldsLockOf(s.pc[p], p, q)))
    && (forall q: nat :: q < |s.pc| && s.plock[q].Some? ==> s.plock[q].value < |s.pc|)
    && (s.lk.Some? ==> s.lk.value < |s.pc|)
  }

  /** The process whose pid is recorded is the one that owns a locked lock. */
  ghost predicate OwnerInv(s: State)
    requires Sized(s)
  {
    s.locked ==> 1 <= s.pid <= |s.pc| && Owns(s.pc[s.pid - 1])
  }

  ghost predicate Inv(s: State) {
    Sized(s) && LockInv(s) && OwnerInv(s) && forall p: nat :: p < |s.pc| ==> EachInv(s, p)
  }

  ghost predicate EachInv(s: State, p: nat)
    requires Sized(s) && p < |s.pc|
  {
    LocalInv(s, p) && RunInv(s, p) && WillWake(s, p)
  }

  lemma LockSelf(s: State, p: nat, a: Action, q: nat)
    requires Inv(s) && Enabled(s, p, a) && q < |s.pc|
    ensures var t := Next(s, p, a); t.plock[q] == Some(p) <==> HoldsLockOf(t.pc[p], p, q)
  {
    assert EachInv(s, p);
    assert s.plock[q] == Some(p) <==> HoldsLockOf(s.pc[p], p, q);
  }

  lemma LockOther(s: State, p: nat, a: Action, q: nat, r: nat)
    requires Inv(s) && Enabled(s, p, a) && q < |s.pc| && r < |s.pc| && r != p
    ensures var t := Next(s, p, a); t.plock[q] == Some(r) <==> s.plock[q] == Some(r)
  {
    assert EachInv(s, p);
    assert s.plock[q] == Some(p) <==> HoldsLockOf(s.pc[p], p, q);
  }

  lemma LockKeeps(s: State, p: nat, a: Action)
    requires Inv(s) && Enabled(s, p, a)
    ensures LockInv(Next(s, p, a))
  {
    var t := Next(s, p, a);
    forall r: nat, q: nat | r < |t.pc| && q < |t.pc|
      ensures t.plock[q] == Some(r) <==> HoldsLockOf(t.pc[r], r, q)
    {
      if r == p {
        LockSelf(s, p, a, q);
      } else {
        LockOther(s, p, a, q, r);
        assert t.pc[r] == s.pc[r];
      }
    }
  }

  lemma LocalSelf(s: State, p: nat, a: Action)
    requires Enabled(s, p, a) && LocalInv(s, p)
    ensures LocalInv(Next(s, p, a), p)
  {
  }

  lemma RunSelf(s: State, p: nat, a: Action)
    requires Enabled(s, p, a) && RunInv(s, p) && LocalInv(s, p)
    ensures RunInv(Next(s, p, a), p)
  {
  }

  lemma LocalOther(s: State, p: nat, a: Action, q: nat)
    requires Enabled(s, p, a) && q < |s.pc| && q != p && LocalInv(s, p) && LocalInv(s, q)
    ensures LocalInv(Next(s, p, a), q)
  {
  }

  lemma RunOther(s: State, p: nat, a: Action, q: nat)
    requires Enabled(s, p, a) && q < |s.pc| && q != p && RunInv(s, q)
    requires s.plock[q] == Some(p) <==> HoldsLockOf(s.pc[p], p, q)
    requires s.plock[q] == Some(q) <==> HoldsLockOf(s.pc[q], q, q)
    ensures RunInv(Next(s, p, a), q)
  {
  }

  lemma OwnerKeeps(s: State, p: nat, a: Action)
    requires Inv(s) && Enabled(s, p, a)
    ensures OwnerInv(Next(s, p, a))
  {
    assert EachInv(s, p);
  }

  lemma WakeKeeps(s: State, p: nat, a: Action, q: nat)
    requires Inv(s) && Enabled(s, p, a) && q < |s.pc|
    ensures WillWake(Next(s, p, a), q)
  {
    assert EachInv(s, p) && EachInv(s, q);
    assert s.plock[q] == Some(p) <==> HoldsLockOf(s.pc[p], p, q);
    assert s.plock[q] == Some(q) <==> HoldsLockOf(s.pc[q], q, q);
  }

  lemma EachKeeps(s: State, p: nat, a: Action, q: nat)
    requires Inv(s) && Enabled(s, p, a) && q < |s.pc|
    ensures EachInv(Next(s, p, a), q)
  {
    WakeKeeps(s, p, a, q);
    assert EachInv(s, p) && EachInv(s, q);
    if q == p {
      LocalSelf(s, p, a);
      RunSelf(s, p, a);
    } else {
      LocalOther(s, p, a, q);
      assert s.plock[q] == Some(p) <==> HoldsLockOf(s.pc[p], p, q);
      RunOther(s, p, a, q);
    }
  }

  lemma StepKeeps(s: State, p: nat, a: Action)
    requires Inv(s) && Enabled(s, p, a)
    ensures Inv(Next(s, p, a))
  {
    LockKeeps(s, p, a);
    OwnerKeeps(s, p, a);
    forall q: nat | q < |s.pc|
      ensures EachInv(Next(s, p, a), q)
    {
      EachKeeps(s, p, a, q);
    }
  }

  // ----- whole runs -----

  datatype Event = Event(proc: nat, action: Action)

  ghost predicate IsRun(states: seq<State>, evs: seq<Event>) {
    |states| == |evs| + 1 &&
    forall i :: 0 <= i < |evs| ==>
      Enabled(states[i], evs[i].proc, evs[i].action) && states[i + 1] == Next(states[i], evs[i].proc, evs[i].action)
  }

  /** initsleeplock, with every process running outside the lock. */
  ghost predicate Initial(s: State) {
    && Sized(s) && s.lk.None? && !s.locked
    && forall p: nat :: p < |s.pc| ==> s.pc[p].Idle? && s.st[p].RUNNING? && s.plock[p].None?
  }

  lemma {:induction false} RunInvariant(states: seq<State>, evs: seq<Event>, n: nat)
    requires IsRun(states, evs) && Initial(states[0]) && n < |states|
    ensures Inv(states[n])
  {
    if n > 0 {
      RunInvariant(states, evs, n - 1);
      StepKeeps(states[n - 1], evs[n - 1].proc, evs[n - 1].action);
    }
  }

  /**
   Whatever the interleaving: while the sleep lock is free and its spinlock too, no process sleeps on
   it or is about to; and at most one process owns it, the one whose pid it records.
   */
  lemma NoLostWakeup(states: seq<State>, evs: seq<Event>, n: nat)
    requires IsRun(states, evs) && Initial(states[0]) && n < |states|
    ensures Sized(states[n])
    ensures !states[n].locked && states[n].lk.None? ==>
      forall p: nat :: p < |states[n].pc| ==> !Committed(states[n], p)
    ensures forall p: nat, q: nat :: p < |states[n].pc| && q < |states[n].pc| ==>
      Owns(states[n].pc[p]) && Owns(states[n].pc[q]) ==> p == q
    ensures forall p: nat :: p < |states[n].pc| && Owns(states[n].pc[p]) ==>
      states[n].locked && states[n].pid == Pid(p)
  {
    RunInvariant(states, evs, n);
    var s := states[n];
    forall p: nat | p < |s.pc|
      ensures !s.locked && s.lk.None? ==> !Committed(s, p)
      ensures Owns(s.pc[p]) ==> s.locked && s.pid == Pid(p)
    {
      assert EachInv(s, p);
    }
  }

  /** holdingsleep answers for the caller: the lock is locked with the caller's pid exactly if the caller owns it. */
  lemma HoldingSleep(states: seq<State>, evs: seq<Event>, n: nat, p: nat)
    requires IsRun(states, evs) && Initial(states[0]) && n < |states| && p < |states[n].pc|
    ensures (states[n].locked && states[n].pid == Pid(p)) <==> Owns(states[n].pc[p])
  {
    RunInvariant(states, evs, n);
    assert EachInv(states[n], p);
  }

  // ----- each call -----

  predicate Acquiring(c: Pc) {
    match c
    case AcqWant => true
    case AcqTest => true
    case SleepWant => true
    case SleepBoth => true
    case SleepOwn => true
    case SleepSet => true
    case Asleep => true
    case Woken => true
    case Took => true
    case _ => false
  }

  predicate Releasing(c: Pc) {
    c.RelWant? || c.RelHave? || c.Scan? || c.ScanHave?
  }

  lemma CallStep(s: State, p: nat, a: Action)
    requires Inv(s) && Enabled(s, p, a)
    ensures
      var t := Next(s, p, a);
      && (Acquiring(s.pc[p]) ==> Acquiring(t.pc[p]) || t.pc[p].Holding?)
      && (Releasing(s.pc[p]) ==> Releasing(t.pc[p]) || (a.ScanEnd? && t.pc[p].Idle? && s.pc[p] == Scan(|s.pc|)))
      && (Owns(s.pc[p]) && !Owns(t.pc[p]) ==> Releasing(t.pc[p]) && !t.locked)
  {
  }

  /**
   acquiresleep returns only to an owner, whatever woke it; an owner stays one until it stores lk->locked = 0 itself;
   and when releasesleep returns, every process that slept on the lock has been woken.
   */
  lemma CallsReturn(states: seq<State>, evs: seq<Event>, n: nat, p: nat)
    requires IsRun(states, evs) && Initial(states[0]) && n < |evs| && p < |states[n].pc|
    ensures Sized(states[n]) && Sized(states[n + 1]) && |states[n + 1].pc| == |states[n].pc|
    ensures
      var s, t := states[n], states[n + 1];
      && (Acquiring(s.pc[p]) && !Acquiring(t.pc[p]) ==> t.pc[p].Holding? && t.locked && t.pid == Pid(p))
      && (Owns(s.pc[p]) && !Owns(t.pc[p]) ==> evs[n].proc == p && Releasing(t.pc[p]) && !t.locked)
      && (Releasing(s.pc[p]) && !Releasing(t.pc[p]) ==>
            t.pc[p].Idle? && forall q: nat :: q < |t.pc| ==> !Committed(t, q))
  {
    RunInvariant(states, evs, n);
    RunInvariant(states, evs, n + 1);
    var s, t, e := states[n], states[n + 1], evs[n];
    assert EachInv(t, p) && EachInv(s, p);
    if e.proc == p {
      CallStep(s, p, e.action);
      forall q: nat | q < |t.pc| && e.action.ScanEnd?
        ensures !Committed(t, q)
      {
        assert EachInv(t, q);
      }
    }
  }

  // ----- no deadlock -----

  /** What a process does next that holds lk->lk or some p->lock. */
  function Onward(s: State, p: nat): (a: Action)
    requires Sized(s) && p < |s.pc|
  {
    match s.pc[p]
    case AcqTest => if s.locked then Sleep else Take
    case SleepWant => LockOwn
    case SleepBoth => UnlockInner
    case SleepOwn => Commit
    case SleepSet => Switch
    case Woken => Tidy
    case Took => TakeDone
    case RelHave => Clear
    case Scan(i) => if i == p then ScanSelf else if i < |s.pc| then ScanLock else ScanEnd
    case ScanHave(_) => ScanWake
    case Query => AskDone
    case KillHave(_) => KillWake
    case _ => Call
  }

  ghost predicate Holds(s: State, p: nat)
    requires Sized(s) && p < |s.pc|
  {
    s.lk == Some(p) || exists q: nat :: q < |s.pc| && s.plock[q] == Some(p)
  }

  /** Locks are never held in a circle: while any spinlock is held, some holder can take its next step. */
  lemma NoDeadlock(states: seq<State>, evs: seq<Event>, n: nat)
    requires IsRun(states, evs) && Initial(states[0]) && n < |states|
    ensures Sized(states[n])
    ensures (states[n].lk.Some? || exists q: nat :: q < |states[n].pc| && states[n].plock[q].Some?) ==>
      exists p: nat :: p < |states[n].pc| && Holds(states[n], p) && Enabled(states[n], p, Onward(states[n], p))
  {
    RunInvariant(states, evs, n);
    var s := states[n];
    if q: nat :| q < |s.pc| && s.plock[q].Some? {
      var p := s.plock[q].value;
      assert EachInv(s, p) && HoldsLockOf(s.pc[p], p, q);
      assert Holds(s, p) && Enabled(s, p, Onward(s, p));
    } else if s.lk.Some? {
      var p := s.lk.value;
      assert EachInv(s, p);
      assert Holds(s, p) && Enabled(s, p, Onward(s, p));
    }
  }
}
