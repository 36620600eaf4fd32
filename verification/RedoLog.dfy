/**
 The crash-recovery log of kernel/log.c as a transition system.

 The disk is a sequence of blocks that are written one at a time.  The steps are the critical sections of
 begin_op, log_write and end_op, every single block write of commit and of recover_from_log, and a power
 failure, which may come between any two of them.
 */
module RedoLog {

  const MAXOPBLOCKS: nat := 10
  const LOGSIZE: nat := MAXOPBLOCKS * 3
  const WORDS: nat := 256  // BSIZE / sizeof(int)

  type Block = b: seq<int> | |b| == WORDS witness seq(WORDS, i => 0)
  type Disk = seq<Block>

  /** Where the log lies: the header block at `start`, then the copies of the logged blocks. */
  datatype Geometry = Geometry(nblocks: nat, start: nat, size: nat) {
    predicate Valid() {
      LOGSIZE < size && start + size <= nblocks
    }

    predicate Home(b: int) {
      0 <= b < nblocks && !(start <= b < start + size)
    }
  }

  predicate Distinct(s: seq<int>) {
    forall i, j :: 0 <= i < j < |s| ==> s[i] != s[j]
  }

  predicate Logged(g: Geometry, lh: seq<int>) {
    |lh| <= LOGSIZE && Distinct(lh) && forall i :: 0 <= i < |lh| ==> g.Home(lh[i])
  }

  /** The last position of b in lh, or -1. */
  function Slot(lh: seq<int>, b: int): (i: int)
    ensures -1 <= i < |lh|
    ensures i >= 0 ==> lh[i] == b
    ensures i < 0 ==> b !in lh
  {
    if lh == [] then -1
    else if lh[|lh| - 1] == b then |lh| - 1
    else Slot(lh[..|lh| - 1], b)
  }

  // ----- the on-disk header -----

  /** write_head: n and the first n numbers are stored over the old contents of the header block. */
  function Encode(old_: Block, lh: seq<int>): (h: Block)
    requires |lh| <= LOGSIZE
    ensures Decode(h) == lh
  {
    [|lh|] + lh + old_[1 + |lh|..]
  }

  /** read_head. */
  function Decode(h: Block): seq<int> {
    if 0 <= h[0] <= LOGSIZE then h[1..1 + h[0]] else []
  }

  predicate Recoverable(g: Geometry, d: Disk) {
    g.Valid() && |d| == g.nblocks && 0 <= d[g.start][0] <= LOGSIZE && Logged(g, Decode(d[g.start]))
  }

  function Header(g: Geometry, d: Disk): seq<int>
    requires Recoverable(g, d)
  {
    Decode(d[g.start])
  }

  /** What every home block will hold once recovery has run on d. */
  function AfterRecovery(g: Geometry, d: Disk): map<int, Block>
    requires Recoverable(g, d)
  {
    map b | 0 <= b < g.nblocks && g.Home(b) :: Recovered(g, d, b)
  }

  function Recovered(g: Geometry, d: Disk, b: int): Block
    requires Recoverable(g, d) && g.Home(b)
  {
    var i := Slot(Header(g, d), b);
    if i >= 0 then d[g.start + 1 + i] else d[b]
  }

  /** The home blocks as they are on the disk now. */
  function HomeBlocks(g: Geometry, d: Disk): map<int, Block>
    requires |d| == g.nblocks
  {
    map b | 0 <= b < g.nblocks && g.Home(b) :: d[b]
  }

  // ----- block writes -----

  /** One iteration of install_trans. */
  function Install(g: Geometry, d: Disk, lh: seq<int>, j: nat): (r: Disk)
    requires g.Valid() && |d| == g.nblocks && Logged(g, lh) && j < |lh|
    ensures |r| == |d|
  {
    d[lh[j] := d[g.start + 1 + j]]
  }

  function WriteHead(g: Geometry, d: Disk, lh: seq<int>): (r: Disk)
    requires g.Valid() && |d| == g.nblocks && |lh| <= LOGSIZE
    ensures |r| == |d|
  {
    d[g.start := Encode(d[g.start], lh)]
  }

  /** The k-th block write of recover_from_log when the header lists lh. */
  function RecoverWrite(g: Geometry, d: Disk, lh: seq<int>, k: nat): (r: Disk)
    requires g.Valid() && |d| == g.nblocks && Logged(g, lh) && k <= |lh|
    ensures |r| == |d|
  {
    if k < |lh| then Install(g, d, lh, k) else WriteHead(g, d, [])
  }

  ghost predicate Cached(lh: seq<int>, cache: map<int, Block>) {
    forall b :: b in lh <==> b in cache
  }

  /** The k-th block write of commit: the copies, the header, the installs, the empty header. */
  function CommitWrite(g: Geometry, d: Disk, lh: seq<int>, cache: map<int, Block>, k: nat): (r: Disk)
    requires g.Valid() && |d| == g.nblocks && Logged(g, lh) && Cached(lh, cache) && k <= 2 * |lh| + 1
    ensures |r| == |d|
  {
    if k < |lh| then d[g.start + 1 + k := cache[lh[k]]]
    else if k == |lh| then WriteHead(g, d, lh)
    else RecoverWrite(g, d, lh, k - |lh| - 1)
  }

  // ----- the transition system -----

  /** One process: outside any operation, or inside one that has called log_write `used` times. */
  datatype Op = Idle | Active(used: nat)

  datatype Phase =
    | Down                  // no power
    | Recovering(k: nat)    // recover_from_log has issued k writes
    | Up
    | Committing(k: nat)    // end_op is in commit, k writes issued; log.committing is set

  datatype State = State(disk: Disk, phase: Phase, outstanding: int, lh: seq<int>,
                         cache: map<int, Block>, ops: seq<Op>)

  datatype Action =
    | BeginOp(p: nat)
    | LogWrite(p: nat, b: int, v: Block)
    | EndOp(p: nat)
    | DiskWrite           // the next block write of commit or of recover_from_log
    | CommitDone
    | RecoverDone
    | Crash
    | Boot                // read_head

  /** The test that makes begin_op sleep. */
  predicate MustWait(s: State) {
    s.phase.Committing? || |s.lh| + (s.outstanding + 1) * MAXOPBLOCKS > LOGSIZE
  }

  /**
   When an action can be taken.  Operations obey the two rules of the module: they stay within
   MAXOPBLOCKS calls of log_write, and those calls come between begin_op and end_op.
   */
  predicate Enabled(g: Geometry, s: State, a: Action) {
    var running := s.phase.Up? || s.phase.Committing?;
    match a
    case BeginOp(p) => running && p < |s.ops| && s.ops[p].Idle? && !MustWait(s)
    case LogWrite(p, b, v) =>
      running && p < |s.ops| && s.ops[p].Active? && s.ops[p].used < MAXOPBLOCKS && g.Home(b)
    case EndOp(p) => running && p < |s.ops| && s.ops[p].Active?
    case DiskWrite =>
      || (s.phase.Committing? && s.phase.k < 2 * |s.lh| + 2 && |s.lh| > 0)
      || (s.phase.Recovering? && s.phase.k <= |s.lh|)
    case CommitDone => s.phase.Committing? && (|s.lh| == 0 || s.phase.k == 2 * |s.lh| + 2)
    case RecoverDone => s.phase.Recovering? && s.phase.k == |s.lh| + 1
    case Crash => true
    case Boot => s.phase.Down?
  }

  /** The panics of log_write and end_op. */
  predicate Panics(g: Geometry, s: State, a: Action) {
    match a
    case LogWrite(_, _, _) => |s.lh| >= LOGSIZE || |s.lh| >= g.size - 1 || s.outstanding < 1
    case EndOp(_) => s.phase.Committing?
    case _ => false
  }

  ghost predicate Typed(g: Geometry, s: State) {
    g.Valid() && Recoverable(g, s.disk) && Logged(g, s.lh) &&
    (s.phase.Up? || s.phase.Committing? ==> Cached(s.lh, s.cache))
  }

  function Next(g: Geometry, s: State, a: Action): State
    requires Typed(g, s) && Enabled(g, s, a)
  {
    match a
    case BeginOp(p) => s.(outstanding := s.outstanding + 1, ops := s.ops[p := Active(0)])
    case LogWrite(p, b, v) =>
      s.(lh := if b in s.lh then s.lh else s.lh + [b],  // log absorption
         cache := s.cache[b := v],
         ops := s.ops[p := Active(s.ops[p].used + 1)])
    case EndOp(p) =>
      s.(outstanding := s.outstanding - 1, ops := s.ops[p := Idle],
         phase := if s.outstanding == 1 then Committing(0) else s.phase)
    case DiskWrite =>
      if s.phase.Committing? then
        s.(disk := CommitWrite(g, s.disk, s.lh, s.cache, s.phase.k), phase := Committing(s.phase.k + 1))
      else
        s.(disk := RecoverWrite(g, s.disk, s.lh, s.phase.k), phase := Recovering(s.phase.k + 1))
    case CommitDone => s.(phase := Up, lh := [], cache := map[])
    case RecoverDone => s.(phase := Up, lh := [], cache := map[])
    case Crash => Fallen(s)
    case Boot => s.(phase := Recovering(0), lh := Header(g, s.disk))
  }

  /** A power failure keeps the disk and nothing else. */
  function Fallen(s: State): State {
    State(s.disk, Down, 0, [], map[], seq(|s.ops|, i => Idle))
  }

  // ----- what the log promises -----

  /** The committed contents of the home blocks, and the writes of the open transaction. */
  datatype Promise = Promise(committed: map<int, Block>, pending: map<int, Block>)

  /** The open transaction is committed by one block write only: the first write_head of commit. */
  function Promised(s: State, a: Action, p: Promise): Promise {
    match a
    case LogWrite(_, b, v) => p.(pending := p.pending[b := v])
    case DiskWrite =>
      if s.phase.Committing? && s.phase.k == |s.lh| then Promise(p.committed + p.pending, map[]) else p
    case Crash => p.(pending := map[])
    case _ => p
  }

  function Credit(o: Op): nat {
    match o
    case Idle => 0
    case Active(used) => if used < MAXOPBLOCKS then MAXOPBLOCKS - used else 0
  }

  function Reserved(ops: seq<Op>): nat {
    if ops == [] then 0 else Reserved(ops[..|ops| - 1]) + Credit(ops[|ops| - 1])
  }

  function ActiveCount(ops: seq<Op>): nat {
    if ops == [] then 0 else ActiveCount(ops[..|ops| - 1]) + if ops[|ops| - 1].Active? then 1 else 0
  }

  ghost predicate CopiesWritten(g: Geometry, s: State, n: nat)
    requires Typed(g, s) && Cached(s.lh, s.cache) && n <= |s.lh|
  {
    forall i :: 0 <= i < n ==> s.disk[g.start + 1 + i] == s.cache[s.lh[i]]
  }

  ghost predicate PhaseInv(g: Geometry, s: State, p: Promise)
    requires Typed(g, s)
  {
    match s.phase
    case Down => p.pending == map[]
    case Recovering(k) =>
      && p.pending == map[]
      && k <= |s.lh| + 1
      && (k <= |s.lh| ==> Header(g, s.disk) == s.lh && Installed(g, s.disk, s.lh, k))
      && (k == |s.lh| + 1 ==> Header(g, s.disk) == [])
    case Up => Header(g, s.disk) == [] && p.pending == s.cache
    case Committing(k) =>
      && s.outstanding == 0
      && k <= 2 * |s.lh| + 2
      && (|s.lh| == 0 ==> k == 0)
      && (k <= |s.lh| ==> Header(g, s.disk) == [] && p.pending == s.cache && CopiesWritten(g, s, k))
      && (k > |s.lh| ==> p.pending == map[] && CopiesWritten(g, s, |s.lh|))
      && (|s.lh| < k <= 2 * |s.lh| + 1 ==>
            Header(g, s.disk) == s.lh && Installed(g, s.disk, s.lh, k - |s.lh| - 1))
      && (k == 2 * |s.lh| + 2 ==> Header(g, s.disk) == [] && Installed(g, s.disk, s.lh, |s.lh|))
  }

  predicate Installed(g: Geometry, d: Disk, lh: seq<int>, n: nat)
    requires g.Valid() && |d| == g.nblocks && Logged(g, lh) && n <= |lh|
  {
    forall i :: 0 <= i < n ==> d[lh[i]] == d[g.start + 1 + i]
  }

  ghost predicate Inv(g: Geometry, s: State, p: Promise) {
    && Typed(g, s)
    && AfterRecovery(g, s.disk) == p.committed
    && s.outstanding == ActiveCount(s.ops)
    && (s.phase.Up? || s.phase.Committing? ==> |s.lh| + Reserved(s.ops) <= LOGSIZE)
    && (s.phase.Down? || s.phase.Recovering? ==> s.outstanding == 0)
    && (s.phase.Up? && s.outstanding == 0 ==> s.lh == [])
    && PhaseInv(g, s, p)
  }

  // ----- facts about the sums -----

  lemma {:induction false} SumsUpdate(ops: seq<Op>, p: nat, o: Op)
    requires p < |ops|
    ensures Reserved(ops[p := o]) == Reserved(ops) - Credit(ops[p]) + Credit(o)
    ensures ActiveCount(ops[p := o])
         == ActiveCount(ops) - (if ops[p].Active? then 1 else 0) + (if o.Active? then 1 else 0)
  {
    var n := |ops| - 1;
    var t := ops[p := o];
    if p == n {
      assert t[..n] == ops[..n];
    } else {
      SumsUpdate(ops[..n], p, o);
      assert t[..n] == ops[..n][p := o];
    }
  }

  lemma {:induction false} SumsBound(ops: seq<Op>)
    ensures Reserved(ops) <= MAXOPBLOCKS * ActiveCount(ops)
    ensures (forall i :: 0 <= i < |ops| ==> ops[i].Idle?) ==> Reserved(ops) == 0 && ActiveCount(ops) == 0
  {
    if ops != [] {
      SumsBound(ops[..|ops| - 1]);
    }
  }

  lemma {:induction false} CreditAt(ops: seq<Op>, p: nat)
    requires p < |ops|
    ensures Credit(ops[p]) <= Reserved(ops)
    ensures ops[p].Active? ==> ActiveCount(ops) >= 1
  {
    var n := |ops| - 1;
    if p < n {
      CreditAt(ops[..n], p);
    }
  }

  // ----- every step keeps the promise -----

  lemma BeginKeeps(g: Geometry, s: State, a: Action, p: Promise)
    requires Inv(g, s, p) && Enabled(g, s, a) && a.BeginOp?
    ensures Inv(g, Next(g, s, a), p)
  {
    SumsUpdate(s.ops, a.p, Active(0));
    SumsBound(s.ops);
  }

  lemma LoggedMore(g: Geometry, lh: seq<int>, b: int)
    requires Logged(g, lh) && b !in lh && g.Home(b) && |lh| < LOGSIZE
    ensures Logged(g, lh + [b])
  {
  }

  lemma LogWriteKeeps(g: Geometry, s: State, a: Action, p: Promise)
    requires Inv(g, s, p) && Enabled(g, s, a) && a.LogWrite?
    ensures !Panics(g, s, a)
    ensures Inv(g, Next(g, s, a), Promised(s, a, p))
  {
    CreditAt(s.ops, a.p);
    SumsUpdate(s.ops, a.p, Active(s.ops[a.p].used + 1));
    assert s.phase.Up?;
    if a.b !in s.lh {
      LoggedMore(g, s.lh, a.b);
    }
  }

  lemma EndKeeps(g: Geometry, s: State, a: Action, p: Promise)
    requires Inv(g, s, p) && Enabled(g, s, a) && a.EndOp?
    ensures !Panics(g, s, a)
    ensures Inv(g, Next(g, s, a), p)
  {
    CreditAt(s.ops, a.p);
    SumsUpdate(s.ops, a.p, Idle);
  }

  /** A block of the log area that the header does not list can be overwritten freely. */
  lemma CopyKeeps(g: Geometry, s: State, p: Promise)
    requires Inv(g, s, p) && s.phase.Committing? && s.phase.k < |s.lh|
    ensures Inv(g, Next(g, s, DiskWrite), p)
  {
    var t := Next(g, s, DiskWrite);
    assert t.disk[g.start] == s.disk[g.start];
    assert AfterRecovery(g, t.disk) == AfterRecovery(g, s.disk);
  }

  /** Once the copies are written, the header alone decides what recovery yields. */
  lemma HeadCommits(g: Geometry, d: Disk, lh: seq<int>, cache: map<int, Block>)
    requires Recoverable(g, d) && Header(g, d) == [] && Logged(g, lh) && Cached(lh, cache)
    requires forall i :: 0 <= i < |lh| ==> d[g.start + 1 + i] == cache[lh[i]]
    ensures var r := WriteHead(g, d, lh);
      Recoverable(g, r) && Header(g, r) == lh && AfterRecovery(g, r) == AfterRecovery(g, d) + cache
  {
    var r := WriteHead(g, d, lh);
    assert Header(g, r) == lh;
    forall b | g.Home(b)
      ensures Recovered(g, r, b) == if b in cache then cache[b] else Recovered(g, d, b)
    {
      var i := Slot(lh, b);
    }
  }

  /** The commit point: one block write moves every pending block into the committed state. */
  lemma HeadKeeps(g: Geometry, s: State, p: Promise)
    requires Inv(g, s, p) && s.phase.Committing? && s.phase.k == |s.lh| > 0
    ensures Inv(g, Next(g, s, DiskWrite), Promise(p.committed + p.pending, map[]))
  {
    HeadCommits(g, s.disk, s.lh, s.cache);
  }

  lemma InstallSame(g: Geometry, d: Disk, lh: seq<int>, j: nat)
    requires Recoverable(g, d) && Header(g, d) == lh && j < |lh| && Installed(g, d, lh, j)
    ensures var r := Install(g, d, lh, j);
      Recoverable(g, r) && Header(g, r) == lh && Installed(g, r, lh, j + 1) &&
      AfterRecovery(g, r) == AfterRecovery(g, d)
  {
    var r := Install(g, d, lh, j);
    assert r[g.start] == d[g.start];
    forall b | g.Home(b)
      ensures Recovered(g, r, b) == Recovered(g, d, b)
    {
    }
  }

  lemma ClearSame(g: Geometry, d: Disk, lh: seq<int>)
    requires Recoverable(g, d) && Header(g, d) == lh && Installed(g, d, lh, |lh|)
    ensures var r := WriteHead(g, d, []);
      Recoverable(g, r) && Header(g, r) == [] && AfterRecovery(g, r) == AfterRecovery(g, d)
  {
    var r := WriteHead(g, d, []);
    assert Header(g, r) == [];
    forall b | g.Home(b)
      ensures Recovered(g, r, b) == Recovered(g, d, b)
    {
    }
  }

  /** The recorded copies are outside of the home blocks and of the header. */
  lemma CopiesStay(g: Geometry, d: Disk, lh: seq<int>, j: nat, i: nat)
    requires Recoverable(g, d) && Logged(g, lh) && j <= |lh| && i < |lh|
    ensures RecoverWrite(g, d, lh, j)[g.start + 1 + i] == d[g.start + 1 + i]
    ensures j == |lh| ==> RecoverWrite(g, d, lh, j)[lh[i]] == d[lh[i]]
  {
    if j < |lh| {
      assert g.Home(lh[j]);
    } else {
      assert g.Home(lh[i]);
    }
  }

  /** The writes of commit after the header. */
  lemma TailKeeps(g: Geometry, s: State, p: Promise)
    requires Inv(g, s, p) && s.phase.Committing? && |s.lh| < s.phase.k <= 2 * |s.lh| + 1
    ensures Inv(g, Next(g, s, DiskWrite), p)
  {
    var j := s.phase.k - |s.lh| - 1;
    TailSame(g, s.disk, s.lh, j);
    TailCopies(g, s, j);
    TailInv(g, s, s.(disk := RecoverWrite(g, s.disk, s.lh, j), phase := Committing(|s.lh| + 2 + j)), p, j);
    NextWrite(g, s);
  }

  lemma TailCopies(g: Geometry, s: State, j: nat)
    requires Typed(g, s) && Cached(s.lh, s.cache) && j <= |s.lh| && CopiesWritten(g, s, |s.lh|)
    ensures forall i :: 0 <= i < |s.lh| ==> RecoverWrite(g, s.disk, s.lh, j)[g.start + 1 + i] == s.cache[s.lh[i]]
  {
    forall i | 0 <= i < |s.lh|
      ensures RecoverWrite(g, s.disk, s.lh, j)[g.start + 1 + i] == s.cache[s.lh[i]]
    {
      CopiesStay(g, s.disk, s.lh, j, i);
    }
  }

  lemma TailInv(g: Geometry, s: State, t: State, p: Promise, j: nat)
    requires Inv(g, s, p) && s.phase == Committing(|s.lh| + 1 + j) && j <= |s.lh|
    requires t == s.(disk := t.disk, phase := Committing(|s.lh| + 2 + j))
    requires Recoverable(g, t.disk) && AfterRecovery(g, t.disk) == p.committed
    requires Header(g, t.disk) == (if j < |s.lh| then s.lh else [])
    requires Installed(g, t.disk, s.lh, if j < |s.lh| then j + 1 else j)
    requires forall i :: 0 <= i < |s.lh| ==> t.disk[g.start + 1 + i] == s.cache[s.lh[i]]
    ensures Inv(g, t, p)
  {
  }

  lemma TailSame(g: Geometry, d: Disk, lh: seq<int>, j: nat)
    requires Recoverable(g, d) && Header(g, d) == lh && j <= |lh| && Installed(g, d, lh, j)
    ensures
      var r := RecoverWrite(g, d, lh, j);
      && Recoverable(g, r) && AfterRecovery(g, r) == AfterRecovery(g, d)
      && Header(g, r) == (if j < |lh| then lh else []) && Installed(g, r, lh, if j < |lh| then j + 1 else j)
  {
    if j < |lh| {
      InstallSame(g, d, lh, j);
    } else {
      ClearSame(g, d, lh);
      forall i | 0 <= i < |lh|
        ensures RecoverWrite(g, d, lh, j)[lh[i]] == RecoverWrite(g, d, lh, j)[g.start + 1 + i]
      {
        CopiesStay(g, d, lh, j, i);
      }
    }
  }

  lemma RecoverKeeps(g: Geometry, s: State, p: Promise)
    requires Inv(g, s, p) && s.phase.Recovering? && s.phase.k <= |s.lh|
    ensures Inv(g, Next(g, s, DiskWrite), p)
  {
    var t := s.(disk := RecoverWrite(g, s.disk, s.lh, s.phase.k), phase := Recovering(s.phase.k + 1));
    TailSame(g, s.disk, s.lh, s.phase.k);
    RecoverInv(g, s, t, p, s.phase.k);
    NextWrite(g, s);
  }

  lemma NextWrite(g: Geometry, s: State)
    requires Typed(g, s) && (s.phase.Recovering? || s.phase.Committing?) && Enabled(g, s, DiskWrite)
    ensures
      var t := Next(g, s, DiskWrite);
      if s.phase.Recovering? then
        t == s.(disk := RecoverWrite(g, s.disk, s.lh, s.phase.k), phase := Recovering(s.phase.k + 1))
      else
        t == s.(disk := CommitWrite(g, s.disk, s.lh, s.cache, s.phase.k), phase := Committing(s.phase.k + 1))
  {
  }

  lemma RecoverInv(g: Geometry, s: State, t: State, p: Promise, j: nat)
    requires Inv(g, s, p) && s.phase == Recovering(j) && j <= |s.lh|
    requires t == s.(disk := t.disk, phase := Recovering(j + 1))
    requires Recoverable(g, t.disk) && AfterRecovery(g, t.disk) == p.committed
    requires Header(g, t.disk) == (if j < |s.lh| then s.lh else [])
    requires Installed(g, t.disk, s.lh, if j < |s.lh| then j + 1 else j)
    ensures Inv(g, t, p)
  {
  }

  lemma DiskWriteKeeps(g: Geometry, s: State, p: Promise)
    requires Inv(g, s, p) && Enabled(g, s, DiskWrite)
    ensures Inv(g, Next(g, s, DiskWrite), Promised(s, DiskWrite, p))
  {
    if s.phase.Recovering? {
      RecoverKeeps(g, s, p);
    } else if s.phase.k < |s.lh| {
      CopyKeeps(g, s, p);
    } else if s.phase.k == |s.lh| {
      HeadKeeps(g, s, p);
    } else {
      TailKeeps(g, s, p);
    }
  }

  lemma OtherKeeps(g: Geometry, s: State, a: Action, p: Promise)
    requires Inv(g, s, p) && Enabled(g, s, a)
    requires a.CommitDone? || a.RecoverDone? || a.Crash? || a.Boot?
    ensures Inv(g, Next(g, s, a), Promised(s, a, p))
  {
    var t := Next(g, s, a);
    SumsBound(t.ops);
    if a.CommitDone? && s.lh == [] {
      forall b ensures b !in s.cache { assert b !in s.lh; }
      assert s.cache == map[];
    }
  }

  lemma StepKeeps(g: Geometry, s: State, a: Action, p: Promise)
    requires Inv(g, s, p) && Enabled(g, s, a)
    ensures !Panics(g, s, a)
    ensures Inv(g, Next(g, s, a), Promised(s, a, p))
  {
    match a
    case BeginOp(_) => BeginKeeps(g, s, a, p);
    case LogWrite(_, _, _) => LogWriteKeeps(g, s, a, p);
    case EndOp(_) => EndKeeps(g, s, a, p);
    case DiskWrite => DiskWriteKeeps(g, s, p);
    case _ => OtherKeeps(g, s, a, p);
  }

  // ----- whole runs -----

  ghost predicate IsStep(g: Geometry, s: State, a: Action, t: State) {
    Enabled(g, s, a) && (Typed(g, s) ==> t == Next(g, s, a))
  }

  /** acts takes states[0] through states[1], states[2], ... */
  ghost predicate IsRun(g: Geometry, states: seq<State>, acts: seq<Action>) {
    |states| == |acts| + 1 && forall i :: 0 <= i < |acts| ==> IsStep(g, states[i], acts[i], states[i + 1])
  }

  /** A machine without power, on any disk whose header block is well formed. */
  ghost predicate Initial(g: Geometry, s: State) {
    Typed(g, s) && s.phase.Down? && s.outstanding == 0 && forall i :: 0 <= i < |s.ops| ==> s.ops[i].Idle?
  }

  function PromiseAfter(g: Geometry, states: seq<State>, acts: seq<Action>, n: nat): Promise
    requires |states| == |acts| + 1 && n <= |acts| && Recoverable(g, states[0].disk)
  {
    if n == 0 then Promise(AfterRecovery(g, states[0].disk), map[])
    else Promised(states[n - 1], acts[n - 1], PromiseAfter(g, states, acts, n - 1))
  }

  lemma {:induction false} RunKeeps(g: Geometry, states: seq<State>, acts: seq<Action>, n: nat)
    requires IsRun(g, states, acts) && Initial(g, states[0]) && n <= |acts|
    ensures Inv(g, states[n], PromiseAfter(g, states, acts, n))
  {
    if n == 0 {
      SumsBound(states[0].ops);
    } else {
      RunKeeps(g, states, acts, n - 1);
      assert IsStep(g, states[n - 1], acts[n - 1], states[n]);
      StepKeeps(g, states[n - 1], acts[n - 1], PromiseAfter(g, states, acts, n - 1));
    }
  }

  /** bread of a home block: the cached copy if there is one, else the disk. */
  function Bread(g: Geometry, s: State, b: int): Block
    requires |s.disk| == g.nblocks && g.Home(b)
  {
    if b in s.cache then s.cache[b] else s.disk[b]
  }

  /**
   In every state of every run, whatever the interleaving and wherever the power failed, recovery
   yields exactly the transactions whose first write_head was issued; while the system runs, also in the
   midst of a commit, reads see those transactions and the open one; and outside of commits the home blocks
   are those transactions.
   */
  lemma CrashAtomicity(g: Geometry, states: seq<State>, acts: seq<Action>, n: nat)
    requires IsRun(g, states, acts) && Initial(g, states[0]) && n <= |acts|
    ensures Recoverable(g, states[n].disk)
    ensures AfterRecovery(g, states[n].disk) == PromiseAfter(g, states, acts, n).committed
    ensures states[n].phase.Up? ==> HomeBlocks(g, states[n].disk) == PromiseAfter(g, states, acts, n).committed
    ensures states[n].phase.Up? || states[n].phase.Committing? ==>
      var p := PromiseAfter(g, states, acts, n);
      forall b :: g.Home(b) ==> b in p.committed && Bread(g, states[n], b) == (p.committed + p.pending)[b]
  {
    RunKeeps(g, states, acts, n);
    var s := states[n];
    var p := PromiseAfter(g, states, acts, n);
    if s.phase.Up? {
      assert HomeBlocks(g, s.disk) == AfterRecovery(g, s.disk);
    }
    if s.phase.Up? || s.phase.Committing? {
      forall b | g.Home(b)
        ensures b in p.committed && Bread(g, s, b) == (p.committed + p.pending)[b]
      {
        BreadSees(g, s, p, b);
      }
    }
  }

  /**
   What an operation has written is durable once no operation is open and no commit is running: nothing is pending,
   so recovery after a power failure at that moment yields every write so far of the operations since the last one.
   */
  lemma Durability(g: Geometry, states: seq<State>, acts: seq<Action>, n: nat)
    requires IsRun(g, states, acts) && Initial(g, states[0]) && n <= |acts|
    ensures states[n].phase.Up? && states[n].outstanding == 0 ==>
      var p := PromiseAfter(g, states, acts, n);
      && p.pending == map[] && Recoverable(g, states[n].disk)
      && forall b :: g.Home(b) ==> b in p.committed && Bread(g, states[n], b) == Recovered(g, states[n].disk, b)
  {
    RunKeeps(g, states, acts, n);
    var s := states[n];
    if s.phase.Up? && s.outstanding == 0 {
      forall b ensures b !in s.cache { assert b !in s.lh; }
      assert s.cache == map[];
      forall b | g.Home(b)
        ensures b in AfterRecovery(g, s.disk) && Bread(g, s, b) == Recovered(g, s.disk, b)
      {
        BreadSees(g, s, PromiseAfter(g, states, acts, n), b);
      }
    }
  }

  /** The log is never stuck: a commit or a recovery that has not ended has a next step, and so has a halted system. */
  lemma LogGoesOn(g: Geometry, states: seq<State>, acts: seq<Action>, n: nat)
    requires IsRun(g, states, acts) && Initial(g, states[0]) && n <= |acts|
    ensures
      match states[n].phase
      case Down => Enabled(g, states[n], Boot)
      case Recovering(_) => Enabled(g, states[n], DiskWrite) || Enabled(g, states[n], RecoverDone)
      case Up => true
      case Committing(_) => Enabled(g, states[n], DiskWrite) || Enabled(g, states[n], CommitDone)
  {
    RunKeeps(g, states, acts, n);
  }

  lemma BreadSees(g: Geometry, s: State, p: Promise, b: int)
    requires Inv(g, s, p) && (s.phase.Up? || s.phase.Committing?) && g.Home(b)
    ensures b in p.committed && Bread(g, s, b) == (p.committed + p.pending)[b]
  {
    assert b in AfterRecovery(g, s.disk) && p.committed[b] == Recovered(g, s.disk, b);
    if s.phase.Committing? && s.phase.k > |s.lh| {
      assert CopiesWritten(g, s, |s.lh|);
      CommittedIsCached(g, s.disk, s.lh, s.cache, b, s.phase.k == 2 * |s.lh| + 2);
    }
  }

  /** After the header write the recorded blocks, and only these, are the cached ones. */
  lemma CommittedIsCached(g: Geometry, d: Disk, lh: seq<int>, cache: map<int, Block>, b: int, cleared: bool)
    requires Recoverable(g, d) && Logged(g, lh) && Cached(lh, cache) && g.Home(b)
    requires forall i :: 0 <= i < |lh| ==> d[g.start + 1 + i] == cache[lh[i]]
    requires Header(g, d) == if cleared then [] else lh
    requires cleared ==> Installed(g, d, lh, |lh|)
    ensures Recovered(g, d, b) == if b in cache then cache[b] else d[b]
  {
    var i := Slot(lh, b);
  }

  lemma {:induction false} NoneActive(ops: seq<Op>, p: nat)
    requires ActiveCount(ops) == 0 && p < |ops|
    ensures ops[p].Idle?
  {
    CreditAt(ops, p);
  }

  /**
   No panic of the log is reachable, the recorded blocks stay distinct and fit the log, and a
   commit runs only when no operation is inside begin_op and end_op.
   */
  lemma Reservation(g: Geometry, states: seq<State>, acts: seq<Action>, n: nat)
    requires IsRun(g, states, acts) && Initial(g, states[0]) && n <= |acts|
    ensures n < |acts| ==> !Panics(g, states[n], acts[n])
    ensures Distinct(states[n].lh) && |states[n].lh| <= LOGSIZE < g.size
    ensures states[n].phase.Committing? ==> forall p :: 0 <= p < |states[n].ops| ==> states[n].ops[p].Idle?
  {
    RunKeeps(g, states, acts, n);
    var s := states[n];
    if n < |acts| {
      assert IsStep(g, s, acts[n], states[n + 1]);
      StepKeeps(g, s, acts[n], PromiseAfter(g, states, acts, n));
    }
    if s.phase.Committing? {
      forall p | 0 <= p < |s.ops| ensures s.ops[p].Idle? { NoneActive(s.ops, p); }
    }
  }
}
