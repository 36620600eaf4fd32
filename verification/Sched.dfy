/**
 The handoff between processes and the per-CPU scheduler of kernel/proc.c, with the lock and
 interrupt bookkeeping of kernel/spinlock.c and the traps of kernel/trap.c: scheduler, sched, yield, sleep,
 exit, and the visits that other processes and interrupt handlers pay to a process under its lock (wakeup,
 kill, wait, allocproc, fork).  Every step is one atomic action of one CPU; swtch is one step, together with
 the assignments of intena around it.
 */
module Scheduling {
  import opened Kernel

  /** The three ways into sched. */
  datatype Call = Yield | Sleep | Exit

  /** Where the thread of a process stands with respect to its own p->lock. */
  datatype Pc =
    | User                            // in user space
    | Out(others: nat)                // in the kernel outside of sched and its callers, with so many spinlocks
    | Visiting(q: nat, others: nat)   // also holds q->lock
    | Begun(call: Call, others: nat)  // yield, sleep or exit has acquired p->lock; lk or wait_lock is among the others
    | Released(others: nat)           // sleep has released lk
    | Dead(others: nat)               // exit has set ZOMBIE; wait_lock is among the others
    | Leaving(call: Call, others: nat)  // about to call sched, or inside it before swtch
    | Resumed                         // swtch has come back to the process, p->lock held

  /** What a CPU is doing. */
  datatype Mode =
    | Idle                           // scheduler(), no process lock held
    | Serving(others: nat)           // an interrupt of scheduler()
    | ServingVisit(q: nat, others: nat)  // the same, with q->lock held
    | Picking(p: nat)                // scheduler() has acquired p->lock
    | InProc(p: nat, pc: Pc)
    | Back(p: nat)                   // swtch has come back to scheduler(), c->proc still set
    | Done(p: nat)                   // c->proc cleared, p->lock still held

  /** The trap that the thread of a process is handling; one from the kernel found it with `others` spinlocks. */
  datatype Trap = NoTrap | FromUser | FromKernel(others: nat)

  datatype State = State(
    mode: seq<Mode>,               // per CPU
    cur: seq<Option<nat>>,         // per CPU: c->proc
    noff: seq<int>,                // per CPU: depth of push_off
    intr: seq<bool>,               // per CPU: interrupts are on
    intena: seq<bool>,             // per CPU: c->intena
    st: seq<ProcState>,            // per process
    lock: seq<Option<nat>>,        // per process: the CPU that holds p->lock
    stack: seq<Option<nat>>,       // per process: the CPU that executes on its kernel stack
    trap: seq<Trap>,               // per process
    saved: seq<Option<bool>>)      // per process: intena as sched has saved it; none before the first run

  /** What a visitor may do to q under q->lock. */
  datatype Visit = Wake | Allocate | Start | Free | Look

  datatype Action =
    | IntrOn | Pick(p: nat) | Run | Skip | Clear | Drop          // scheduler()
    | IdleTrap | IdleTrapReturn                                   // interrupts of scheduler()
    | UserTrap | Syscall | UserReturn                             // usertrap, its intr_on, usertrapret
    | KernelTrap | KernelTrapReturn                               // kerneltrap
    | Acquire | Release                                           // other spinlocks
    | Enter(q: nat) | Touch(v: Visit) | Leave                     // visits
    | Begin(call: Call)                                           // yield, sleep or exit acquires p->lock
    | SleepUnlock | SetZombie | ExitUnlock
    | SetState                                                    // yield or sleep writes p->state
    | Swtch                                                       // sched()
    | Return                                                      // release(&p->lock) after sched, or in forkret

  function Holds(m: Mode, p: nat): bool {
    match m
    case Idle => false
    case Serving(_) => false
    case ServingVisit(q, _) => p == q
    case Picking(q) => p == q
    case Back(q) => p == q
    case Done(q) => p == q
    case InProc(q, pc) =>
      match pc
      case User => false
      case Out(_) => false
      case Visiting(r, _) => p == r
      case _ => p == q
  }

  /** The number of spinlocks that the CPU holds, process locks included. */
  function Locks(m: Mode): nat {
    match m
    case Idle => 0
    case Serving(k) => k
    case ServingVisit(_, k) => k + 1
    case Picking(_) => 1
    case Back(_) => 1
    case Done(_) => 1
    case InProc(_, pc) =>
      match pc
      case User => 0
      case Out(k) => k
      case Resumed => 1
      case _ => pc.others + 1
  }

  predicate Sized(s: State) {
    && |s.cur| == |s.mode| == |s.noff| == |s.intr| == |s.intena|
    && |s.lock| == |s.st| == |s.stack| == |s.trap| == |s.saved|
  }

  /** The CPU runs the thread of a process. */
  predicate InThread(s: State, c: nat)
    requires Sized(s) && c < |s.mode|
  {
    s.mode[c].InProc? && s.mode[c].p < |s.st|
  }

  /** A handler that has given back the locks it took: the timer interrupt may now call yield, or it returns. */
  predicate HandlerDone(s: State, c: nat)
    requires Sized(s) && c < |s.mode| && InThread(s, c)
  {
    match s.trap[s.mode[c].p]
    case NoTrap => false
    case FromUser => s.mode[c].pc == Out(0)
    case FromKernel(k) => s.mode[c].pc == Out(k)
  }

  /** The CPU has come to this point of the code; it may still have to spin for the lock that it acquires. */
  predicate Ready(s: State, c: nat, a: Action) {
    Sized(s) && c < |s.mode| &&
    var m := s.mode[c];
    match a
    case IntrOn => m.Idle?
    case Pick(p) => m.Idle? && p < |s.st|
    case Run => m.Picking? && m.p < |s.st| && s.st[m.p].RUNNABLE?
    case Skip => m.Picking? && m.p < |s.st| && !s.st[m.p].RUNNABLE?
    case Clear => m.Back?
    case Drop => m.Done? && m.p < |s.st|
    case IdleTrap => m.Idle? && s.intr[c]
    case IdleTrapReturn => m == Serving(0)
    case UserTrap => InThread(s, c) && m.pc.User?
    case Syscall => InThread(s, c) && s.trap[m.p].FromUser? && m.pc == Out(0)
    case UserReturn => InThread(s, c) && !s.trap[m.p].FromKernel? && m.pc == Out(0)
    case KernelTrap => InThread(s, c) && m.pc.Out? && s.intr[c]
    case KernelTrapReturn => InThread(s, c) && s.trap[m.p].FromKernel? && HandlerDone(s, c)
    case Acquire => (m.InProc? && m.pc.Out?) || m.Serving?
    case Release => (m.InProc? && m.pc.Out? && m.pc.others > 0) || (m.Serving? && m.others > 0)
    case Enter(q) => ((m.InProc? && m.pc.Out?) || m.Serving?) && q < |s.st|
    case Touch(v) => VisitsSome(s, c) && Allowed(v, s.st[VisitedBy(m)])
    case Leave => VisitsSome(s, c)
    case Begin(call) =>
      InThread(s, c) && m.pc.Out? && if call.Yield? then HandlerDone(s, c) else m.pc.others > 0
    case SleepUnlock => InThread(s, c) && m.pc.Begun? && m.pc.call.Sleep? && m.pc.others > 0
    case SetZombie => InThread(s, c) && m.pc.Begun? && m.pc.call.Exit?
    case ExitUnlock => InThread(s, c) && m.pc.Dead? && m.pc.others > 0
    case SetState => InThread(s, c) && ((m.pc.Begun? && m.pc.call.Yield?) || m.pc.Released?)
    case Swtch => InThread(s, c) && m.pc.Leaving?
    case Return => InThread(s, c) && m.pc.Resumed?
  }

  predicate VisitsSome(s: State, c: nat)
    requires Sized(s) && c < |s.mode|
  {
    var m := s.mode[c];
    ((m.InProc? && m.pc.Visiting?) || m.ServingVisit?) && VisitedBy(m) < |s.st|
  }

  function VisitedBy(m: Mode): nat
    requires (m.InProc? && m.pc.Visiting?) || m.ServingVisit?
  {
    if m.InProc? then m.pc.q else m.q
  }

  /** The process lock that the step acquires. */
  function Wants(m: Mode, a: Action): Option<nat> {
    match a
    case Pick(p) => Some(p)
    case Enter(q) => Some(q)
    case Begin(_) => if m.InProc? then Some(m.p) else None
    case _ => None
  }

  /** The process lock that the step releases. */
  function Gives(m: Mode, a: Action): Option<nat> {
    match a
    case Skip => if m.Picking? then Some(m.p) else None
    case Drop => if m.Done? then Some(m.p) else None
    case Leave => if (m.InProc? && m.pc.Visiting?) || m.ServingVisit? then Some(VisitedBy(m)) else None
    case Return => if m.InProc? then Some(m.p) else None
    case _ => None
  }

  /** The step can be taken: the lock it acquires is free, and sched does not panic. */
  predicate Enabled(s: State, c: nat, a: Action) {
    && Ready(s, c, a)
    && (match Wants(s.mode[c], a) case Some(p) => p < |s.st| && s.lock[p].None? case None => true)
    && (a.Swtch? ==> !SchedPanics(s, c))
  }

  /** The states in which wakeup and kill, allocproc, fork and wait change a process. */
  predicate Allowed(v: Visit, st: ProcState) {
    match v
    case Wake => st.SLEEPING?
    case Allocate => st.UNUSED?
    case Start => st.USED?
    case Free => st.ZOMBIE? || st.USED?
    case Look => true
  }

  function Visited(v: Visit, st: ProcState): ProcState {
    match v
    case Wake => RUNNABLE
    case Allocate => USED
    case Start => RUNNABLE
    case Free => UNUSED
    case Look => st
  }

  function Go(s: State, c: nat, m: Mode): State
    requires Sized(s) && c < |s.mode|
  {
    s.(mode := s.mode[c := m])
  }

  /** A step with push_off. */
  function Push(s: State, c: nat, m: Mode): State
    requires Sized(s) && c < |s.mode|
  {
    s.(mode := s.mode[c := m], noff := s.noff[c := s.noff[c] + 1], intr := s.intr[c := false],
       intena := if s.noff[c] == 0 then s.intena[c := s.intr[c]] else s.intena)
  }

  /** A step with pop_off. */
  function Pop(s: State, c: nat, m: Mode): State
    requires Sized(s) && c < |s.mode|
  {
    s.(mode := s.mode[c := m], noff := s.noff[c := s.noff[c] - 1],
       intr := if s.noff[c] == 1 && s.intena[c] then s.intr[c := true] else s.intr)
  }

  /** A step that turns interrupts on or off, by itself or by way of a trap or the return from one. */
  function Turn(s: State, c: nat, m: Mode, on: bool): State
    requires Sized(s) && c < |s.mode|
  {
    s.(mode := s.mode[c := m], intr := s.intr[c := on])
  }

  function More(m: Mode): Mode
    requires (m.InProc? && m.pc.Out?) || m.Serving?
  {
    if m.InProc? then InProc(m.p, Out(m.pc.others + 1)) else Serving(m.others + 1)
  }

  function Fewer(m: Mode): Mode
    requires (m.InProc? && m.pc.Out? && m.pc.others > 0) || (m.Serving? && m.others > 0)
  {
    if m.InProc? then InProc(m.p, Out(m.pc.others - 1)) else Serving(m.others - 1)
  }

  predicate InScheduler(a: Action) {
    a.IntrOn? || a.Pick? || a.Run? || a.Skip? || a.Clear? || a.Drop?
  }

  /** The steps of scheduler(). */
  function SchedulerNext(s: State, c: nat, a: Action): (t: State)
    requires Enabled(s, c, a) && InScheduler(a)
    ensures Sized(t) && |t.mode| == |s.mode| && |t.st| == |s.st|
  {
    var m := s.mode[c];
    match a
    case IntrOn => Turn(s, c, Idle, true)
    case Pick(p) => Push(s, c, Picking(p)).(lock := s.lock[p := Some(c)])
    case Run =>
      Go(s, c, InProc(m.p, Resumed))
        .(st := s.st[m.p := RUNNING], cur := s.cur[c := Some(m.p)], stack := s.stack[m.p := Some(c)],
          intena := if s.saved[m.p].Some? then s.intena[c := s.saved[m.p].value] else s.intena)
    case Skip => Pop(s, c, Idle).(lock := s.lock[m.p := None])
    case Clear => Go(s, c, Done(m.p)).(cur := s.cur[c := None])
    case Drop => Pop(s, c, Idle).(lock := s.lock[m.p := None])
  }

  predicate InTrap(a: Action) {
    a.IdleTrap? || a.IdleTrapReturn? || a.UserTrap? || a.Syscall? || a.UserReturn? || a.KernelTrap? || a.KernelTrapReturn?
  }

  /** The steps of traps and the returns from them. */
  function TrapNext(s: State, c: nat, a: Action): (t: State)
    requires Enabled(s, c, a) && InTrap(a)
    ensures Sized(t) && |t.mode| == |s.mode| && |t.st| == |s.st|
  {
    var m := s.mode[c];
    match a
    case IdleTrap => Turn(s, c, Serving(0), false)
    case IdleTrapReturn => Turn(s, c, Idle, true)
    case UserTrap => Turn(s, c, InProc(m.p, Out(0)), false).(trap := s.trap[m.p := FromUser])
    case Syscall => Turn(s, c, m, true).(trap := s.trap[m.p := NoTrap])
    case UserReturn => Turn(s, c, InProc(m.p, User), true).(trap := s.trap[m.p := NoTrap])
    case KernelTrap => Turn(s, c, m, false).(trap := s.trap[m.p := FromKernel(m.pc.others)])
    case KernelTrapReturn => Turn(s, c, m, true).(trap := s.trap[m.p := NoTrap])
  }

  predicate InVisit(a: Action) {
    a.Acquire? || a.Release? || a.Enter? || a.Touch? || a.Leave?
  }

  /** The steps of other spinlocks and visits. */
  function VisitNext(s: State, c: nat, a: Action): (t: State)
    requires Enabled(s, c, a) && InVisit(a)
    ensures Sized(t) && |t.mode| == |s.mode| && |t.st| == |s.st|
  {
    var m := s.mode[c];
    match a
    case Acquire => Push(s, c, More(m))
    case Release => Pop(s, c, Fewer(m))
    case Enter(q) =>
      Push(s, c, if m.InProc? then InProc(m.p, Visiting(q, m.pc.others)) else ServingVisit(q, m.others))
        .(lock := s.lock[q := Some(c)])
    case Touch(v) =>
      var q := VisitedBy(m);
      var t := s.(st := s.st[q := Visited(v, s.st[q])]);
      if v.Allocate? then t.(trap := s.trap[q := NoTrap], saved := s.saved[q := None]) else t
    case Leave =>
      Pop(s, c, if m.InProc? then InProc(m.p, Out(m.pc.others)) else Serving(m.others))
        .(lock := s.lock[VisitedBy(m) := None])
  }

  predicate InSched(a: Action) {
    a.Begin? || a.SleepUnlock? || a.SetZombie? || a.ExitUnlock? || a.SetState? || a.Swtch? || a.Return?
  }

  /** The steps of the ways through sched. */
  function LeaveNext(s: State, c: nat, a: Action): (t: State)
    requires Enabled(s, c, a) && InSched(a)
    ensures Sized(t) && |t.mode| == |s.mode| && |t.st| == |s.st|
  {
    var m := s.mode[c];
    match a
    case Begin(call) => Push(s, c, InProc(m.p, Begun(call, m.pc.others))).(lock := s.lock[m.p := Some(c)])
    case SleepUnlock => Pop(s, c, InProc(m.p, Released(m.pc.others - 1)))
    case SetZombie => Go(s, c, InProc(m.p, Dead(m.pc.others))).(st := s.st[m.p := ZOMBIE])
    case ExitUnlock => Pop(s, c, InProc(m.p, Leaving(Exit, m.pc.others - 1)))
    case SetState =>
      var call := if m.pc.Begun? then Yield else Sleep;
      Go(s, c, InProc(m.p, Leaving(call, m.pc.others)))
        .(st := s.st[m.p := if call.Yield? then RUNNABLE else SLEEPING])
    case Swtch => Go(s, c, Back(m.p)).(stack := s.stack[m.p := None], saved := s.saved[m.p := Some(s.intena[c])])
    case Return => Pop(s, c, InProc(m.p, Out(0))).(lock := s.lock[m.p := None])
  }

  function Next(s: State, c: nat, a: Action): (t: State)
    requires Enabled(s, c, a)
    ensures Sized(t) && |t.mode| == |s.mode| && |t.st| == |s.st|
  {
    if InScheduler(a) then SchedulerNext(s, c, a)
    else if InTrap(a) then TrapNext(s, c, a)
    else if InVisit(a) then VisitNext(s, c, a)
    else LeaveNext(s, c, a)
  }

  /** The panics of sched(). */
  predicate SchedPanics(s: State, c: nat)
    requires Ready(s, c, Swtch)
  {
    var p := s.mode[c].p;
    s.lock[p] != Some(c) || s.noff[c] != 1 || s.st[p].RUNNING? || s.intr[c]
  }

  /** The panic of acquire on a process lock, of release on a process lock, and those of pop_off on any lock. */
  predicate LockPanics(s: State, c: nat, a: Action)
    requires Ready(s, c, a)
  {
    var m := s.mode[c];
    || (Wants(m, a).Some? && Wants(m, a).value < |s.st| && s.lock[Wants(m, a).value] == Some(c))
    || (Gives(m, a).Some? && Gives(m, a).value < |s.st| && s.lock[Gives(m, a).value] != Some(c))
    || ((Gives(m, a).Some? || a.Release? || a.SleepUnlock? || a.ExitUnlock?) && (s.intr[c] || s.noff[c] < 1))
  }

  // ----- the invariant -----

  ghost predicate LockInv(s: State)
    requires Sized(s)
  {
    && (forall p, c {:trigger Holds(s.mode[c], p)} :: 0 <= p < |s.st| && 0 <= c < |s.mode| ==>
          (s.lock[p] == Some(c) <==> Holds(s.mode[c], p)))
    && (forall p :: 0 <= p < |s.st| && s.lock[p].Some? ==> s.lock[p].value < |s.mode|)
  }

  /** The process whose kernel stack the CPU is on. */
  function On(m: Mode): Option<nat> {
    if m.InProc? then Some(m.p) else None
  }

  ghost predicate StackInv(s: State)
    requires Sized(s)
  {
    && (forall p, c {:trigger s.stack[p], s.mode[c]} :: 0 <= p < |s.st| && 0 <= c < |s.mode| ==>
          (s.stack[p] == Some(c) <==> On(s.mode[c]) == Some(p)))
    && (forall p :: 0 <= p < |s.st| && s.stack[p].Some? ==> s.stack[p].value < |s.mode|)
  }

  /** The books of CPU c: noff counts its locks, and interrupts are on only without any. */
  ghost predicate CpuOk(s: State, c: nat)
    requires Sized(s) && c < |s.mode|
  {
    var m := s.mode[c];
    && s.noff[c] == Locks(m)
    && (s.intr[c] ==> Locks(m) == 0 && !m.Serving?)
    && (m.Serving? || m.ServingVisit? ==> s.noff[c] > 0 ==> !s.intena[c])
    && s.cur[c] == (if m.InProc? || m.Back? then Some(m.p) else None)
    && (m.Picking? || m.InProc? || m.Back? || m.Done? ==> m.p < |s.st|)
    && (m.ServingVisit? ==> m.q < |s.st|)
    && (m.InProc? && m.pc.Visiting? ==> m.pc.q < |s.st|)
    && (m.InProc? && (m.pc.Begun? || m.pc.Leaving?) && m.pc.call.Yield? ==> m.pc.others == 0)
    && (m.InProc? && m.pc.Begun? && !m.pc.call.Yield? ==> m.pc.others > 0)
    && (m.InProc? && m.pc.Dead? ==> m.pc.others > 0)
  }

  ghost predicate CpuInv(s: State)
    requires Sized(s)
  {
    forall c: nat :: c < |s.mode| ==> CpuOk(s, c)
  }

  /** The thread that CPU c runs handles a trap only with interrupts off, and no pop_off will turn them on. */
  ghost predicate QuietOn(s: State, c: nat)
    requires Sized(s) && c < |s.mode|
  {
    InThread(s, c) && !s.trap[s.mode[c].p].NoTrap? ==> !s.intr[c] && (s.noff[c] > 0 ==> !s.intena[c])
  }

  /** So it stays when the thread comes back from sched, since sched keeps intena for it. */
  ghost predicate QuietOff(s: State, p: nat)
    requires Sized(s) && p < |s.st|
  {
    && (!s.trap[p].NoTrap? && s.stack[p].None? ==> s.saved[p] == Some(false))
    && (s.trap[p].FromKernel? ==> s.trap[p].others == 0)
  }

  ghost predicate TrapInv(s: State)
    requires Sized(s)
  {
    && (forall c: nat :: c < |s.mode| ==> QuietOn(s, c))
    && (forall p: nat :: p < |s.st| ==> QuietOff(s, p))
  }

  /** The state in which yield, sleep and exit leave the process. */
  function LeftAs(call: Call): ProcState {
    match call
    case Yield => RUNNABLE
    case Sleep => SLEEPING
    case Exit => ZOMBIE
  }

  /** Which states go with a process that is on CPU d, or that is leaving it. */
  ghost predicate StateOn(s: State, d: nat)
    requires Sized(s) && d < |s.mode|
  {
    match s.mode[d]
    case InProc(p, pc) =>
      p < |s.st| &&
      if pc.Leaving? then s.st[p] == LeftAs(pc.call)
      else if pc.Dead? then s.st[p].ZOMBIE?
      else s.st[p].RUNNING?
    case Back(p) => p < |s.st| && !s.st[p].RUNNING?
    case Done(p) => p < |s.st| && !s.st[p].RUNNING?
    case _ => true
  }

  ghost predicate StateInv(s: State)
    requires Sized(s)
  {
    && (forall d: nat :: d < |s.mode| ==> StateOn(s, d))
    && (forall p :: 0 <= p < |s.st| && s.st[p].RUNNING? ==> s.stack[p].Some?)
  }

  ghost predicate Inv(s: State) {
    Sized(s) && LockInv(s) && StackInv(s) && CpuInv(s) && StateInv(s) && TrapInv(s)
  }

  /** A CPU that holds p->lock is the only one that does. */
  lemma OneHolder(s: State, c: nat, d: nat, p: nat)
    requires Sized(s) && LockInv(s) && c < |s.mode| && d < |s.mode| && p < |s.st|
    requires Holds(s.mode[c], p) && Holds(s.mode[d], p)
    ensures c == d
  {
  }

  /** A process that is neither RUNNING nor under its own lock on this CPU has left its kernel stack. */
  lemma OffStack(s: State, c: nat, p: nat)
    requires Inv(s) && c < |s.mode| && p < |s.st| && Holds(s.mode[c], p) && !s.st[p].RUNNING?
    requires On(s.mode[c]) != Some(p)
    ensures s.stack[p].None?
  {
    if s.stack[p].Some? {
      var d := s.stack[p].value;
      assert On(s.mode[d]) == Some(p) && StateOn(s, d);
      assert Holds(s.mode[d], p);
      OneHolder(s, c, d, p);
    }
  }

  lemma LockKeeps(s: State, c: nat, a: Action)
    requires Inv(s) && Enabled(s, c, a)
    ensures LockInv(Next(s, c, a))
  {
    var t := Next(s, c, a);
    forall p, d | 0 <= p < |t.st| && 0 <= d < |t.mode|
      ensures t.lock[p] == Some(d) <==> Holds(t.mode[d], p)
    {
      assert s.lock[p] == Some(d) <==> Holds(s.mode[d], p);
      assert s.lock[p] == Some(c) <==> Holds(s.mode[c], p);
    }
  }

  lemma StackKeeps(s: State, c: nat, a: Action)
    requires Inv(s) && Enabled(s, c, a)
    ensures StackInv(Next(s, c, a))
  {
    var t := Next(s, c, a);
    if a.Run? {
      assert Holds(s.mode[c], s.mode[c].p);
      OffStack(s, c, s.mode[c].p);
    }
    forall p, d | 0 <= p < |t.st| && 0 <= d < |t.mode|
      ensures t.stack[p] == Some(d) <==> On(t.mode[d]) == Some(p)
    {
      assert s.stack[p] == Some(d) <==> On(s.mode[d]) == Some(p);
      assert s.stack[p] == Some(c) <==> On(s.mode[c]) == Some(p);
    }
  }

  /** The process whose state the step writes. */
  function Writes(m: Mode, a: Action): Option<nat> {
    if (a.Run? && m.Picking?) || ((a.SetState? || a.SetZombie?) && m.InProc?) then Some(m.p)
    else if a.Touch? && ((m.InProc? && m.pc.Visiting?) || m.ServingVisit?) then Some(VisitedBy(m))
    else None
  }

  lemma StateOf(s: State, c: nat, a: Action, p: nat)
    requires Enabled(s, c, a) && p < |s.st| && Writes(s.mode[c], a) != Some(p)
    ensures Next(s, c, a).st[p] == s.st[p]
  {
  }

  /** The state of a process on CPU d, or leaving it, does not change under the feet of d. */
  lemma Undisturbed(s: State, c: nat, a: Action, d: nat)
    requires Inv(s) && Enabled(s, c, a) && d < |s.mode| && d != c
    requires (s.mode[d].InProc? || s.mode[d].Back? || s.mode[d].Done?) && s.mode[d].p < |s.st|
    ensures Next(s, c, a).st[s.mode[d].p] == s.st[s.mode[d].p]
  {
    var p := s.mode[d].p;
    if Writes(s.mode[c], a) == Some(p) {
      WritesOwn(s, c, a, d);
    } else {
      StateOf(s, c, a, p);
    }
  }

  /** A process on CPU d, or leaving it, is written from another CPU only by a visitor who changes nothing. */
  lemma WritesOwn(s: State, c: nat, a: Action, d: nat)
    requires Inv(s) && Enabled(s, c, a) && d < |s.mode| && d != c
    requires (s.mode[d].InProc? || s.mode[d].Back? || s.mode[d].Done?) && s.mode[d].p < |s.st|
    requires Writes(s.mode[c], a) == Some(s.mode[d].p)
    ensures a == Touch(Look)
  {
    var m := s.mode[c];
    var p := s.mode[d].p;
    assert Holds(m, p);
    assert !Holds(s.mode[d], p) && s.stack[p] == Some(d) by {
      if Holds(s.mode[d], p) {
        OneHolder(s, c, d, p);
      }
      assert StateOn(s, d);
    }
    assert s.st[p].RUNNING? by {
      assert StateOn(s, d);
    }
    assert s.stack[p] == Some(c) <==> On(m) == Some(p);
  }

  lemma StateFrame(s: State, t: State, d: nat)
    requires Sized(s) && Sized(t) && d < |s.mode| == |t.mode| && |t.st| == |s.st| && StateOn(s, d)
    requires t.mode[d] == s.mode[d]
    requires
      var m := s.mode[d];
      (m.InProc? || m.Back? || m.Done?) && m.p < |s.st| ==> t.st[m.p] == s.st[m.p]
    ensures StateOn(t, d)
  {
  }

  lemma StateOnKeeps(s: State, c: nat, a: Action, d: nat)
    requires Inv(s) && Enabled(s, c, a) && d < |s.mode|
    ensures StateOn(Next(s, c, a), d)
  {
    assert StateOn(s, d);
    if d == c {
      StateOnSelf(s, c, a);
    } else {
      Elsewhere(s, c, a, d);
      if (s.mode[d].InProc? || s.mode[d].Back? || s.mode[d].Done?) {
        Undisturbed(s, c, a, d);
      }
      StateFrame(s, Next(s, c, a), d);
    }
  }

  lemma StateOnSelf(s: State, c: nat, a: Action)
    requires Sized(s) && Enabled(s, c, a) && StateOn(s, c)
    ensures StateOn(Next(s, c, a), c)
  {
  }

  lemma StateKeeps(s: State, c: nat, a: Action)
    requires Inv(s) && Enabled(s, c, a)
    ensures StateInv(Next(s, c, a))
  {
    forall d: nat | d < |s.mode|
      ensures StateOn(Next(s, c, a), d)
    {
      StateOnKeeps(s, c, a, d);
    }
    RunningOnStack(s, c, a);
  }

  lemma RunningOnStack(s: State, c: nat, a: Action)
    requires Inv(s) && Enabled(s, c, a)
    ensures var t := Next(s, c, a); forall p :: 0 <= p < |t.st| && t.st[p].RUNNING? ==> t.stack[p].Some?
  {
    assert StateOn(s, c);
  }

  /** CPU d has not moved from s to t. */
  ghost predicate Still(s: State, t: State, d: nat) {
    && Sized(s) && Sized(t) && |t.mode| == |s.mode| && |t.st| == |s.st| && d < |s.mode|
    && t.mode[d] == s.mode[d] && t.cur[d] == s.cur[d] && t.noff[d] == s.noff[d]
    && t.intr[d] == s.intr[d] && t.intena[d] == s.intena[d]
  }

  lemma Elsewhere(s: State, c: nat, a: Action, d: nat)
    requires Enabled(s, c, a) && d < |s.mode| && d != c
    ensures Still(s, Next(s, c, a), d)
  {
  }

  /** A step begins a trap only for the thread of its own CPU. */
  lemma TrapOf(s: State, c: nat, a: Action, p: nat)
    requires Enabled(s, c, a) && p < |s.st| && On(s.mode[c]) != Some(p)
    ensures Next(s, c, a).trap[p] in {s.trap[p], NoTrap}
  {
  }

  lemma CpuFrame(s: State, t: State, d: nat)
    requires Still(s, t, d) && CpuOk(s, d)
    ensures CpuOk(t, d)
  {
  }

  lemma QuietFrame(s: State, t: State, d: nat)
    requires Still(s, t, d) && QuietOn(s, d)
    requires InThread(s, d) ==> t.trap[s.mode[d].p] in {s.trap[s.mode[d].p], NoTrap}
    ensures QuietOn(t, d)
  {
  }

  lemma OtherCpu(s: State, c: nat, a: Action, d: nat)
    requires Inv(s) && Enabled(s, c, a) && d < |s.mode| && d != c
    ensures CpuOk(Next(s, c, a), d) && QuietOn(Next(s, c, a), d)
  {
    Elsewhere(s, c, a, d);
    CpuFrame(s, Next(s, c, a), d);
    if InThread(s, d) {
      var p := s.mode[d].p;
      assert s.stack[p] == Some(d);
      assert On(s.mode[c]) != Some(p);
      TrapOf(s, c, a, p);
    }
    QuietFrame(s, Next(s, c, a), d);
  }

  lemma CpuKeeps(s: State, c: nat, a: Action)
    requires Sized(s) && Enabled(s, c, a) && CpuOk(s, c) && QuietOn(s, c)
    requires InThread(s, c) ==> QuietOff(s, s.mode[c].p)
    ensures CpuOk(Next(s, c, a), c)
  {
    if InScheduler(a) || InTrap(a) {
      CpuMoves(s, c, a);
    } else if InVisit(a) {
      CpuVisits(s, c, a);
    } else {
      CpuLeaves(s, c, a);
    }
  }

  lemma CpuMoves(s: State, c: nat, a: Action)
    requires Enabled(s, c, a) && CpuOk(s, c) && (InScheduler(a) || InTrap(a))
    requires InThread(s, c) ==> QuietOff(s, s.mode[c].p)
    ensures CpuOk(Next(s, c, a), c)
  {
  }

  lemma CpuVisits(s: State, c: nat, a: Action)
    requires Enabled(s, c, a) && CpuOk(s, c) && InVisit(a)
    ensures CpuOk(Next(s, c, a), c)
  {
  }

  lemma CpuLeaves(s: State, c: nat, a: Action)
    requires Enabled(s, c, a) && CpuOk(s, c) && InSched(a)
    requires InThread(s, c) ==> QuietOff(s, s.mode[c].p)
    ensures CpuOk(Next(s, c, a), c)
  {
  }

  /** Interrupts stay off in a trap handler, also across yield. */
  lemma QuietKeeps(s: State, c: nat, a: Action)
    requires Inv(s) && Enabled(s, c, a)
    ensures QuietOn(Next(s, c, a), c)
  {
    assert CpuOk(s, c) && QuietOn(s, c);
    if a.Run? {
      assert Holds(s.mode[c], s.mode[c].p);
      OffStack(s, c, s.mode[c].p);
      assert QuietOff(s, s.mode[c].p);
    }
  }

  lemma SavedKeeps(s: State, c: nat, a: Action, p: nat)
    requires Enabled(s, c, a) && p < |s.st| && CpuOk(s, c) && QuietOn(s, c) && QuietOff(s, p)
    requires s.stack[p] == Some(c) <==> On(s.mode[c]) == Some(p)
    ensures QuietOff(Next(s, c, a), p)
  {
  }

  lemma StepKeeps(s: State, c: nat, a: Action)
    requires Inv(s) && Enabled(s, c, a)
    ensures Inv(Next(s, c, a))
  {
    var t := Next(s, c, a);
    LockKeeps(s, c, a);
    StackKeeps(s, c, a);
    StateKeeps(s, c, a);
    forall d: nat | d < |s.mode|
      ensures CpuOk(t, d) && QuietOn(t, d)
    {
      if d == c {
        assert CpuOk(s, c) && QuietOn(s, c);
        assert InThread(s, c) ==> QuietOff(s, s.mode[c].p);
        CpuKeeps(s, c, a);
        QuietKeeps(s, c, a);
      } else {
        OtherCpu(s, c, a, d);
      }
    }
    forall p: nat | p < |s.st|
      ensures QuietOff(t, p)
    {
      assert CpuOk(s, c) && QuietOn(s, c) && QuietOff(s, p);
      SavedKeeps(s, c, a, p);
    }
  }

  /** No panic of acquire or release on a process lock and none of pop_off is reachable. */
  lemma LocksSafe(s: State, c: nat, a: Action)
    requires Inv(s) && Ready(s, c, a)
    ensures !LockPanics(s, c, a)
  {
    assert CpuOk(s, c);
    var m := s.mode[c];
    if Wants(m, a).Some? {
      assert !Holds(m, Wants(m, a).value);
    }
    if Gives(m, a).Some? {
      assert Holds(m, Gives(m, a).value);
    }
  }

  /** sched panics exactly if a spinlock beside p->lock is held; yield, from any interrupt, never leads to that. */
  lemma SchedSafe(s: State, c: nat)
    requires Inv(s) && Ready(s, c, Swtch)
    ensures SchedPanics(s, c) <==> s.mode[c].pc.others > 0
    ensures SchedPanics(s, c) ==> !s.mode[c].pc.call.Yield?
  {
    assert CpuOk(s, c) && StateOn(s, c);
    assert Holds(s.mode[c], s.mode[c].p);
  }

  // ----- whole runs -----

  datatype Event = Event(cpu: nat, action: Action)

  ghost predicate IsRun(states: seq<State>, evs: seq<Event>) {
    |states| == |evs| + 1 &&
    forall i :: 0 <= i < |evs| ==>
      Enabled(states[i], evs[i].cpu, evs[i].action) && states[i + 1] == Next(states[i], evs[i].cpu, evs[i].action)
  }

  /** All CPUs are in scheduler(), nothing is locked, no process has run. */
  ghost predicate Initial(s: State) {
    && Sized(s)
    && (forall c :: 0 <= c < |s.mode| ==> s.mode[c].Idle? && s.cur[c].None? && s.noff[c] == 0)
    && (forall p :: 0 <= p < |s.st| ==>
          s.lock[p].None? && s.stack[p].None? && !s.st[p].RUNNING? && s.trap[p].NoTrap?)
  }

  lemma {:induction false} RunKeeps(states: seq<State>, evs: seq<Event>, n: nat)
    requires IsRun(states, evs) && Initial(states[0]) && n < |states|
    ensures Inv(states[n])
  {
    if n > 0 {
      RunKeeps(states, evs, n - 1);
      StepKeeps(states[n - 1], evs[n - 1].cpu, evs[n - 1].action);
    }
  }

  /** A process is current on at most one CPU. */
  lemma CurrentOnce(s: State, c: nat, d: nat)
    requires Inv(s) && c < |s.mode| && d < |s.mode| && s.cur[c].Some? && s.cur[c] == s.cur[d]
    ensures c == d
  {
    var p := s.cur[c].value;
    assert StateOn(s, c) && StateOn(s, d) && CpuOk(s, c) && CpuOk(s, d);
    if s.mode[c].InProc? && s.mode[d].InProc? {
      assert s.stack[p] == Some(c) && s.stack[p] == Some(d);
    } else {
      assert Holds(s.mode[c], p) && Holds(s.mode[d], p);
    }
  }

  /**
   In every state of every run: a process is current on at most one CPU; while its lock is free it is
   RUNNING exactly if it is current on some CPU; and a ZOMBIE that wait frees has left its kernel stack.
   */
  lemma Handoff(states: seq<State>, evs: seq<Event>, n: nat)
    requires IsRun(states, evs) && Initial(states[0]) && n < |states|
    ensures
      var s := states[n];
      && Sized(s)
      && (forall c, d :: 0 <= c < |s.mode| && 0 <= d < |s.mode| && s.cur[c].Some? && s.cur[c] == s.cur[d] ==> c == d)
      && (forall p :: 0 <= p < |s.st| && s.lock[p].None? ==>
            (s.st[p].RUNNING? <==> exists c :: 0 <= c < |s.mode| && s.cur[c] == Some(p)))
    ensures n < |evs| && evs[n].action == Touch(Free) ==>
      var q := VisitedBy(states[n].mode[evs[n].cpu]);
      states[n].st[q].ZOMBIE? ==> states[n].stack[q].None?
  {
    RunKeeps(states, evs, n);
    var s := states[n];
    forall c, d | 0 <= c < |s.mode| && 0 <= d < |s.mode| && s.cur[c].Some? && s.cur[c] == s.cur[d]
      ensures c == d
    {
      CurrentOnce(s, c, d);
    }
    forall p | 0 <= p < |s.st| && s.lock[p].None?
      ensures s.st[p].RUNNING? <==> exists c :: 0 <= c < |s.mode| && s.cur[c] == Some(p)
    {
      RunningIsCurrent(s, p);
    }
    if n < |evs| && evs[n].action == Touch(Free) {
      var c := evs[n].cpu;
      var q := VisitedBy(s.mode[c]);
      assert StateOn(s, c);
      if s.st[q].ZOMBIE? {
        OffStack(s, c, q);
      }
    }
  }

  /**
   In every state of every run, for every CPU and every step that it has come to: interrupts are on only where
   the CPU holds no spinlock, so only in user space, in kernel code between locks and in the scheduler; a thread
   that handles a trap has them off; acquire and release of process locks and pop_off do not panic; and the four
   tests of sched hold, unless a spinlock beside p->lock is held, which CallPanics traces to the call.
   */
  lemma SchedEntered(states: seq<State>, evs: seq<Event>, n: nat, c: nat)
    requires IsRun(states, evs) && Initial(states[0]) && n < |states| && Sized(states[n]) && c < |states[n].mode|
    ensures
      var s := states[n];
      && (s.intr[c] ==> s.mode[c].Idle? || (s.mode[c].InProc? && (s.mode[c].pc.User? || s.mode[c].pc == Out(0))))
      && (InThread(s, c) && !s.trap[s.mode[c].p].NoTrap? ==> !s.intr[c])
      && (forall a :: Ready(s, c, a) ==> !LockPanics(s, c, a))
      && (Ready(s, c, Swtch) ==>
            && (SchedPanics(s, c) <==> s.mode[c].pc.others > 0)
            && (s.mode[c].pc.call.Yield? ==> !SchedPanics(s, c)))
  {
    RunKeeps(states, evs, n);
    var s := states[n];
    assert CpuOk(s, c) && QuietOn(s, c);
    forall a | Ready(s, c, a)
      ensures !LockPanics(s, c, a)
    {
      LocksSafe(s, c, a);
    }
    if Ready(s, c, Swtch) {
      SchedSafe(s, c);
    }
  }

  // ----- the life of a process -----

  /** Who may take a process from one state to another: a step of CPU c that is at m. */
  predicate Moves(m: Mode, a: Action, p: nat, before: ProcState, after: ProcState) {
    match before
    case UNUSED => a == Touch(Allocate) && Writes(m, a) == Some(p) && after.USED?
    case USED =>
      || (a == Touch(Start) && Writes(m, a) == Some(p) && after.RUNNABLE?)
      || (a == Touch(Free) && Writes(m, a) == Some(p) && after.UNUSED?)
    case SLEEPING => a == Touch(Wake) && Writes(m, a) == Some(p) && after.RUNNABLE?
    case RUNNABLE => a == Run && m == Picking(p) && after.RUNNING?
    case RUNNING =>
      && m.InProc? && m.p == p
      && (|| (a == SetState && m.pc.Begun? && m.pc.call.Yield? && after.RUNNABLE?)
          || (a == SetState && m.pc.Released? && after.SLEEPING?)
          || (a == SetZombie && m.pc.Begun? && m.pc.call.Exit? && after.ZOMBIE?))
    case ZOMBIE => a == Touch(Free) && Writes(m, a) == Some(p) && after.UNUSED?
  }

  lemma StateMoves(s: State, c: nat, a: Action, p: nat)
    requires Inv(s) && Enabled(s, c, a) && p < |s.st| && Next(s, c, a).st[p] != s.st[p]
    ensures Moves(s.mode[c], a, p, s.st[p], Next(s, c, a).st[p])
  {
    if Writes(s.mode[c], a) != Some(p) {
      StateOf(s, c, a, p);
    }
    assert StateOn(s, c);
  }

  /**
   The whole life of a process, on every run.  It changes its state only as Moves says, and what is meant to change
   it does: a picked RUNNABLE process runs; at swtch it is RUNNABLE after yield, SLEEPING after sleep and ZOMBIE after
   exit; and whom wakeup or kill wakes, and whom fork starts, is RUNNABLE.
   */
  lemma Life(states: seq<State>, evs: seq<Event>, n: nat)
    requires IsRun(states, evs) && Initial(states[0]) && n < |evs|
    ensures
      var s, t, m := states[n], states[n + 1], states[n].mode[evs[n].cpu];
      && |t.st| == |s.st|
      && (forall p: nat :: p < |s.st| && t.st[p] != s.st[p] ==> Moves(m, evs[n].action, p, s.st[p], t.st[p]))
      && (evs[n].action.Run? ==> t.st[m.p].RUNNING? && t.cur[evs[n].cpu] == Some(m.p))
      && (evs[n].action.Swtch? ==> s.st[m.p] == t.st[m.p] == LeftAs(m.pc.call))
      && (evs[n].action == Touch(Wake) || evs[n].action == Touch(Start) ==> t.st[VisitedBy(m)].RUNNABLE?)
      && (evs[n].action == Touch(Allocate) ==> t.st[VisitedBy(m)].USED?)
      && (evs[n].action == Touch(Free) ==> t.st[VisitedBy(m)].UNUSED?)
  {
    RunKeeps(states, evs, n);
    var s, e := states[n], evs[n];
    forall p: nat | p < |s.st| && states[n + 1].st[p] != s.st[p]
      ensures Moves(s.mode[e.cpu], e.action, p, s.st[p], states[n + 1].st[p])
    {
      StateMoves(s, e.cpu, e.action, p);
    }
    assert StateOn(s, e.cpu);
  }

  /** No CPU is ever stuck: it has a way on, to give back what it holds and to return; only sched may panic. */
  lemma NeverStuck(states: seq<State>, evs: seq<Event>, n: nat, c: nat) returns (a: Action)
    requires IsRun(states, evs) && Initial(states[0]) && n < |states| && Sized(states[n]) && c < |states[n].mode|
    ensures Ready(states[n], c, a)
    ensures Enabled(states[n], c, a) || (a.Swtch? && SchedPanics(states[n], c))
    ensures !a.Acquire? && !a.Pick? && !a.Enter? && !a.Begin?
  {
    RunKeeps(states, evs, n);
    var s := states[n];
    assert CpuOk(s, c);
    match s.mode[c]
    case Idle => a := IntrOn;
    case Serving(k) => a := if k > 0 then Release else IdleTrapReturn;
    case ServingVisit(q, k) => a := Leave;
    case Picking(p) => a := if s.st[p].RUNNABLE? then Run else Skip;
    case Back(p) => a := Clear;
    case Done(p) => a := Drop;
    case InProc(p, pc) =>
      match pc
      case User => a := UserTrap;
      case Out(k) =>
        assert QuietOff(s, p);
        a := if k > 0 then Release else if s.trap[p].FromKernel? then KernelTrapReturn else UserReturn;
      case Visiting(q, k) => a := Leave;
      case Begun(call, k) => a := if call.Yield? then SetState else if call.Sleep? then SleepUnlock else SetZombie;
      case Released(k) => a := SetState;
      case Dead(k) => a := ExitUnlock;
      case Leaving(call, k) => a := Swtch;
      case Resumed => a := Return;
  }

  /** The CPU is in yield, sleep or exit, from the acquire of p->lock up to swtch. */
  predicate InCall(m: Mode) {
    m.InProc? && (m.pc.Begun? || m.pc.Released? || m.pc.Dead? || m.pc.Leaving?)
  }

  function CallOf(m: Mode): Call
    requires InCall(m)
  {
    if m.pc.Released? then Sleep else if m.pc.Dead? then Exit else m.pc.call
  }

  /** The spinlocks that were held when p->lock was acquired. */
  function HeldAtCall(m: Mode): nat
    requires InCall(m)
  {
    if m.pc.Released? || (m.pc.Leaving? && !m.pc.call.Yield?) then m.pc.others + 1 else m.pc.others
  }

  lemma CallGoesOn(s: State, d: nat, a: Action, c: nat)
    requires Enabled(s, d, a) && c < |s.mode| && InCall(s.mode[c]) && !(d == c && a.Swtch?)
    ensures
      var m := Next(s, d, a).mode[c];
      InCall(m) && CallOf(m) == CallOf(s.mode[c]) && HeldAtCall(m) == HeldAtCall(s.mode[c])
  {
    if d != c {
      Elsewhere(s, d, a, c);
    }
  }

  lemma {:induction false} CallSince(states: seq<State>, evs: seq<Event>, i: nat, n: nat, c: nat, call: Call)
    requires IsRun(states, evs) && i < n < |states| && evs[i] == Event(c, Begin(call))
    requires forall j :: i < j < n ==> evs[j] != Event(c, Swtch)
    ensures c < |states[i].mode| && states[i].mode[c].InProc? && states[i].mode[c].pc.Out?
    ensures
      && Sized(states[n]) && c < |states[n].mode| && InCall(states[n].mode[c]) && CallOf(states[n].mode[c]) == call
      && HeldAtCall(states[n].mode[c]) == states[i].mode[c].pc.others
  {
    assert Enabled(states[i], evs[i].cpu, evs[i].action);
    if i + 1 < n {
      CallSince(states, evs, i, n - 1, c, call);
      var e := evs[n - 1];
      assert e == Event(e.cpu, e.action);
      CallGoesOn(states[n - 1], e.cpu, e.action, c);
    }
  }

  /**
   When a call of yield, sleep or exit comes to sched, sched panics exactly if the call was made with a lock too
   many: sleep with one beside lk, exit with one beside wait_lock, which it takes itself.  yield never comes so far
   with a lock.
   */
  lemma CallPanics(states: seq<State>, evs: seq<Event>, i: nat, n: nat, c: nat, call: Call)
    requires IsRun(states, evs) && Initial(states[0]) && i < n < |states| && evs[i] == Event(c, Begin(call))
    requires (forall j :: i < j < n ==> evs[j] != Event(c, Swtch)) && Ready(states[n], c, Swtch)
    ensures c < |states[i].mode| && states[i].mode[c].InProc? && states[i].mode[c].pc.Out?
    ensures
      var held := states[i].mode[c].pc.others;
      && (SchedPanics(states[n], c) <==> held > if call.Yield? then 0 else 1)
      && (call.Yield? ==> held == 0)
  {
    RunKeeps(states, evs, n);
    CallSince(states, evs, i, n, c, call);
    SchedSafe(states[n], c);
    assert CpuOk(states[n], c);
  }

  lemma Extend(states: seq<State>, evs: seq<Event>, s: State, a: Action)
    returns (states': seq<State>, evs': seq<Event>, t: State)
    requires IsRun(states, evs) && s == states[|evs|] && Enabled(s, 0, a)
    ensures t == Next(s, 0, a) && states' == states + [t] && evs' == evs + [Event(0, a)]
    ensures IsRun(states', evs') && states'[0] == states[0]
  {
    t := Next(s, 0, a);
    states', evs' := states + [t], evs + [Event(0, a)];
  }

  /** One CPU and one process that has come back from the scheduler with interrupts on. */
  function Alone(): State {
    State([InProc(0, Out(0))], [Some(0)], [0], [true], [true], [RUNNING], [None], [Some(0)], [NoTrap], [None])
  }

  lemma ComesUp() returns (states: seq<State>, evs: seq<Event>)
    ensures IsRun(states, evs) && Initial(states[0]) && |evs| == 3 && states[3] == Alone()
  {
    var s := State([Idle], [None], [0], [true], [false], [RUNNABLE], [None], [None], [NoTrap], [None]);
    states, evs := [s], [];
    states, evs, s := Extend(states, evs, s, Pick(0));
    states, evs, s := Extend(states, evs, s, Run);
    states, evs, s := Extend(states, evs, s, Return);
  }

  /** The process of Alone with interrupts off, at pc and with so many push_offs. */
  function Deep(pc: Pc, noff: int, st: ProcState, lock: Option<nat>): State {
    State([InProc(0, pc)], [Some(0)], [noff], [false], [true], [st], [lock], [Some(0)], [NoTrap], [None])
  }

  lemma TakesTwo() returns (states: seq<State>, evs: seq<Event>)
    ensures IsRun(states, evs) && Initial(states[0]) && |evs| == 5
    ensures states[5] == Deep(Out(2), 2, RUNNING, None)
  {
    var s := Alone();
    states, evs := ComesUp();
    states, evs, s := Extend(states, evs, s, Acquire);
    states, evs, s := Extend(states, evs, s, Acquire);
  }

  lemma DeepBegin()
    ensures
      var s, t := Deep(Out(2), 2, RUNNING, None), Deep(Begun(Sleep, 2), 3, RUNNING, Some(0));
      Enabled(s, 0, Begin(Sleep)) && Next(s, 0, Begin(Sleep)) == t
  {
  }

  lemma DeepUnlock()
    ensures
      var s, t := Deep(Begun(Sleep, 2), 3, RUNNING, Some(0)), Deep(Released(1), 2, RUNNING, Some(0));
      Enabled(s, 0, SleepUnlock) && Next(s, 0, SleepUnlock) == t
  {
  }

  lemma DeepState()
    ensures
      var s, t := Deep(Released(1), 2, RUNNING, Some(0)), Deep(Leaving(Sleep, 1), 2, SLEEPING, Some(0));
      Enabled(s, 0, SetState) && Next(s, 0, SetState) == t && Ready(t, 0, Swtch) && SchedPanics(t, 0)
  {
  }

  /** A process that calls sleep with two spinlocks held comes to a panic of sched. */
  lemma TwoLocksPanic() returns (states: seq<State>, evs: seq<Event>)
    ensures IsRun(states, evs) && Initial(states[0]) && |evs| == 8 && evs[5] == Event(0, Begin(Sleep))
    ensures Ready(states[8], 0, Swtch) && SchedPanics(states[8], 0)
  {
    var s := Deep(Out(2), 2, RUNNING, None);
    states, evs := TakesTwo();
    DeepBegin();
    states, evs, s := Extend(states, evs, s, Begin(Sleep));
    DeepUnlock();
    states, evs, s := Extend(states, evs, s, SleepUnlock);
    DeepState();
    states, evs, s := Extend(states, evs, s, SetState);
  }

  lemma RunningIsCurrent(s: State, p: nat)
    requires Inv(s) && p < |s.st| && s.lock[p].None?
    ensures s.st[p].RUNNING? <==> exists c :: 0 <= c < |s.mode| && s.cur[c] == Some(p)
  {
    if s.st[p].RUNNING? {
      var c := s.stack[p].value;
      assert On(s.mode[c]) == Some(p) && CpuOk(s, c);
      assert s.cur[c] == Some(p);
    }
    forall c | 0 <= c < |s.mode| && s.cur[c] == Some(p)
      ensures s.st[p].RUNNING?
    {
      assert !Holds(s.mode[c], p) && StateOn(s, c) && CpuOk(s, c);
    }
  }
}
