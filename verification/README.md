# A verified model of the xv6 RISC-V kernel with ext2

Dafny models of the parts of the system whose correctness spans several functions or a whole run, each
proved against a simple abstract object:

| part | source | abstract object | modules |
|---|---|---|---|
| crash-recovery log | kernel/log.c | the committed contents of the home blocks | RedoLog, LogCode |
| Sv39 page tables, physical pages, user memory | kernel/vm.c, kernel/kalloc.c, kernel/riscv.h | a map from page number to PTE, a partition of RAM, a flat array of bytes | RiscV, PageTree, PageNeed, UserPages, PageFree, UserBytes, Vm |
| user heap | user/umalloc.c | blocks that tile the memory from sbrk | HeapModel, UserHeap |
| scheduler, sleep locks, exit and wait | kernel/proc.c, kernel/sleeplock.c, kernel/spinlock.c, kernel/trap.c | invariants of transition systems over any number of CPUs and processes | Kernel, Scheduling, SleepLocks, ExitWait |
| block tree and file contents | kernel/fs.c, kernel/fs.h | a map from file block to disk block, a byte sequence | Bytes, BlockTree, Files |
| buffer cache | kernel/bio.c | the latest contents of every block | BufferList, Bio |
| disk queue | kernel/virtio_disk.c | requests in flight | VirtQueue, Virtio |
| shell parser | user/sh.c | a grammar of lines, and the command tree each line means | ShellSyntax, ShellGrammar, ShellLines, Shell |
| grep | user/grep.c | decompositions of text along a pattern | Grep, GrepPatterns |
| pipe | kernel/pipe.c | a queue of bytes | Pipes, PipeCalls |

How the code is rendered:

- Code under one lock, or of one process, that changes things in place is a class whose methods have the
  source's loops and branches. Where several processes or CPUs interleave, the state machine's steps are the
  code's own steps between two lock operations: every `acquire` and `release` of a contended lock, every turn of
  the loop of `wakeup`, every single block write is a step, and the theorems are about all runs.
- `panic` is a precondition where callers must avoid it, and the theorems about runs show that it is not
  reached; the shell's `panic` and running out of buffers are results.
- Callers of `sleep` must hold the lock they pass and no other spinlock, callers of `exit` none; this is what
  `sched` tests, and it panics exactly if it is not so (`Scheduling.CallPanics`, with a run that panics in
  `Scheduling.TwoLocksPanic`).
- Hardware and the environment are nondeterministic steps: the disk device of `Virtio` carries out requests
  from the descriptors in memory, `sbrk` may fail, `read` may deliver any piece, power may fail between any two
  block writes.
- Integers are unbounded except where width matters: the 16-bit ring indices of the disk queue, the 32-bit
  counters of pipes, the unsigned offsets of `readi` and `writei`, and the `int` argument of `sbrk` wrap as in
  the source.
- A predicate whose body is `forall key: bool :: ...Parts(key, ...)` says the same as its parts. The key only
  keeps the verifier from unfolding the parts where a proof does not name them.

What does not hold of the code, each with the input that shows it and the exact condition:

- malloc of nearly 2^31 bytes or more: the size is converted to `int` on its way to `sbrk`, and the heap grows past
  the process's memory (`UserHeap.BreakPassed`, `UserHeap.BreakHolds`, `UserHeap.Allocator.Malloc`).
- grep on lines of more than 1022 characters: it stops at the first one (`Grep.LongLineLost`,
  `Grep.PrintedIsSelected`).
- A reader may sleep on a pipe that has bytes in it: a writer that is killed after storing bytes returns without
  a wakeup (`Pipes.ReaderLeftAsleep`, `Pipes.NoNeedlessSleep`, `Pipes.KilledWriterLeaves`).
- A process that has been killed may go to sleep in wait: the kill falls between its test of `p->killed` and the
  `acquire` in sleep (`ExitWait.KillCanBeMissed`, `ExitWait.KillMissed`).

Where the code and its comments or constants disagree the model follows the code: `balloc` panics instead of
returning 0 when the disk is full; `writei` limits a file to the old MAXFILE of 268 blocks although `bmap` can
map EXT2_MAXFILE blocks; `readi` allocates a block for a hole that it reads.

## Model

| member | source | states |
|---|---|---|
| RedoLog.Encode | kernel/log.c:102-114 | read_head gets back from a written header block the list of block numbers, whatever the block held before |
| RedoLog.StepKeeps | kernel/log.c:68-235 | one step of any process, of commit, of recovery or a power failure keeps the log's invariant and hits no panic |
| RedoLog.CrashAtomicity | kernel/log.c:68-203 | in every state of every run, with power failures anywhere and repeated ones during recovery, recovery yields exactly the transactions whose first write_head was issued; while the system runs, also in the midst of a commit, reads see these and the open transaction |
| RedoLog.Reservation | kernel/log.c:126-235 | on every run no log panic is reachable, the recorded blocks are distinct and at most LOGSIZE, and while a commit runs no operation is open |
| RedoLog.Durability | kernel/log.c:146-203 | on every run, whenever the system is up and no operation is open and no commit runs, nothing is pending: what every operation so far has written, reads see it and recovery after a power failure yields it |
| RedoLog.LogGoesOn | kernel/log.c:116-203 | on every run a commit or a recovery that has not ended has a next step |
| RedoLog.HeadCommits | kernel/log.c:102-114 | once the copies are written, the single header write turns what recovery yields from the old contents into the old contents overridden by the whole transaction |
| RedoLog.InstallSame | kernel/log.c:68-83 | installing the next block changes nothing of what recovery yields, and one block more is in its home |
| RedoLog.ClearSame | kernel/log.c:116-123 | erasing the header after all blocks are installed changes nothing of what recovery yields |
| LogCode.CopyPrefix | kernel/log.c:178-191 | after any number of the copy writes of commit, recovery yields none of the transaction |
| LogCode.InstallPrefix | kernel/log.c:193-203 | after the header write and any number of further writes of commit, recovery yields all of the transaction |
| LogCode.RecoverPrefix | kernel/log.c:116-123 | recovery stopped after any number of writes can be started again with the same result; when it ends, the home blocks are that result and the header is empty |
| LogCode.CommitTail | kernel/log.c:193-203 | after its header write commit issues the block writes that recovery from that header would issue |
| LogCode.Log.StoreHead | kernel/log.c:102-114 | the loop writes the header block that Encode describes, and this is one disk write |
| LogCode.Log.LoadHead | kernel/log.c:86-97 | the loop reads the list in the on-disk header |
| LogCode.Log.WriteLog | kernel/log.c:178-191 | issues exactly the copy writes of commit, in order |
| LogCode.Log.InstallTrans | kernel/log.c:68-83 | issues exactly the install writes, in order |
| LogCode.Log.Commit | kernel/log.c:193-203 | issues exactly the writes of the transition system's commit, in order, and none for an empty transaction; leaves an empty transaction |
| LogCode.Log.RecoverFromLog | kernel/log.c:116-123 | issues exactly the writes of the transition system's recovery, in order |
| LogCode.Log.LogWrite | kernel/log.c:214-235 | records a block once, however often it is written, and keeps the newest contents |
| LogCode.Log.EndOp | kernel/log.c:146-175 | the last operation commits everything; an earlier one issues no disk write |
| RiscV.PGROUNDUP | kernel/riscv.h:357-357 | the least page boundary at or above the size |
| RiscV.PGROUNDDOWN | kernel/riscv.h:358-358 | the greatest page boundary at or below the address |
| RiscV.MakePte | kernel/riscv.h:367-371 | the PTE that mappages builds: PTE2PA and PTE_FLAGS get the page and the flags with the valid bit back |
| RiscV.IndicesDetermine | kernel/riscv.h:374-382 | below MAXVA the three indices of walk determine the page number |
| RiscV.BelowRoundUp | kernel/riscv.h:357-357 | a page boundary is below a size exactly if its page number is below that of the rounded size |
| PageTree.SlotsDistinct | kernel/vm.c:85-103 | on a well-formed tree two page numbers never share a PTE slot |
| PageTree.HangAt | kernel/vm.c:91-99 | hanging a cleared table into an empty entry keeps the tree well formed and changes no translation |
| PageTree.StoreOne | kernel/vm.c:143-199 | storing one leaf PTE changes the translation of that page only |
| PageTree.SamePagesIsEquality | kernel/vm.c:85-103 | having the same translations is equality of the maps from page number to PTE |
| PageTree.OtherTree | kernel/vm.c:312-340 | while one tree grows, every other tree in memory keeps its shape and its translations |
| PageNeed.EnoughIs | kernel/vm.c:85-103 | what the conditions for success in walk, mappages, uvmalloc and uvmcopy mean: the free pages cover the frames and those tables on the ways to the pages that the tree lacks, each counted once |
| PageNeed.SpentMore | kernel/vm.c:143-172 | page after page, what has been spent is the need of the whole range so far, also where pages share their missing tables |
| PageNeed.SpentOut | kernel/vm.c:143-172 | when the free pages do not reach for the next page, they were short for every range that has it |
| PageNeed.EnoughPages | kernel/vm.c:232-256 | no more pages than are free can be had |
| Vm.Memory.constructor | kernel/kalloc.c:26-40 | kinit: exactly the whole pages of the range are free, each once, and none is in use |
| Vm.Memory.Kalloc | kernel/kalloc.c:68-82 | takes the first page of the free list, or returns 0 exactly if there is none; RAM stays partitioned |
| Vm.Memory.Kfree | kernel/kalloc.c:46-63 | moves one page in use to the free list and touches no other; RAM stays partitioned |
| Vm.Memory.Walk | kernel/vm.c:85-103 | finds the table that holds the PTE; may add tables but changes no translation and no other tree; with alloc it fails exactly if fewer pages are free than tables are missing, and takes exactly these; without alloc it fails only where there is no table |
| Vm.Memory.Mappages | kernel/vm.c:143-172 | maps exactly its range, or exactly a prefix of it when it returns -1, with every other translation unchanged; returns -1 exactly if the free pages are fewer than the missing tables |
| Vm.Memory.Uvmunmap | kernel/vm.c:177-199 | unmaps exactly its range and frees exactly the frames of the range if asked to |
| Vm.Memory.Uvmalloc | kernel/vm.c:232-256 | grows with zeroed frames that were free before, or on failure, and always above MAXVA, restores the mapping and every data page; fails exactly if the free pages are fewer than the frames and the missing tables together |
| Vm.Memory.Uvmdealloc | kernel/vm.c:262-274 | removes exactly the pages above the new size and frees their frames |
| Vm.Memory.Uvmcopy | kernel/vm.c:312-340 | the child gets the parent's flags and bytes on frames that were free before, or on failure the child's mapping and every data page are restored; the parent is unchanged; fails exactly if the free pages are fewer than the frames and the missing tables together |
| Vm.Memory.Freewalk | kernel/vm.c:278-294 | frees every table below, each once, and no other page; its panic is not reached |
| Vm.Memory.Uvmfree | kernel/vm.c:298-304 | gives back every data page and every table of the address space and no other page |
| UserPages.FilledUndone | kernel/vm.c:232-274 | taking freshly filled pages away again restores the mapping and the data pages |
| UserPages.CopyIsApart | kernel/vm.c:312-340 | after uvmcopy parent and child have equal flags and bytes on frames that neither shares with the other |
| Vm.Memory.Copyout | kernel/vm.c:358-383 | stores exactly the bytes up to the first address that is not writable, across pages, and changes no other user byte and no other data page |
| Vm.Memory.Copyin | kernel/vm.c:388-408 | returns exactly the user's bytes, up to the first unreadable address if it fails |
| Vm.Memory.Copyinstr | kernel/vm.c:414-451 | on success the user's bytes up to and including the first NUL, at most max of them; on failure there is no NUL among max bytes or none before an unreadable address |
| Vm.Memory.CopyThere | kernel/vm.c:358-408 | copyin after copyout returns the same bytes, and this succeeds exactly if the whole range is writable |
| UserBytes.WriteChunk | kernel/vm.c:358-383 | one memmove into a page changes exactly the bytes it names in the flat user memory |
| UserBytes.Isolation | kernel/vm.c:358-383 | a store through one address space never shows in another that shares no frame with it, and they go on sharing none |
| UserBytes.CopyIsSeparate | kernel/vm.c:312-340 | after uvmcopy every user page of parent and child has a data page of its own, shared neither within nor between them |
| UserBytes.CopyIsSame | kernel/vm.c:312-340 | after uvmcopy every byte of the child, and of the parent, reads as the parent's did |
| Vm.Memory.CopyThenStore | kernel/vm.c:312-383 | uvmcopy and then any copyouts into child and parent, in any order: each reads to the byte as the parent did at the start with only the stores into itself applied |
| HeapModel.Apart | user/umalloc.c:24-90 | two blocks of the heap never overlap |
| HeapModel.StopsOnce | user/umalloc.c:24-44 | the test that ends free's search is true at exactly one place of the circular list |
| HeapModel.FreedKeeps | user/umalloc.c:24-44 | inserting a block and merging it with its neighbours keeps the tiling, the address order and that no two free blocks touch |
| HeapModel.ServedKeeps | user/umalloc.c:63-90 | taking or splitting a block keeps the same; the new live block lies in what was free, and no live block changes |
| HeapModel.ExtendKeeps | user/umalloc.c:46-61 | new memory from sbrk enters the tiling as one block |
| UserHeap.Units | user/umalloc.c:63-90 | the least number of headers that holds a header and the bytes asked for |
| UserHeap.BreakHolds | user/umalloc.c:46-61 | after morecore for nu units the heap ends below the break exactly if nu * 16 fits an int |
| UserHeap.BreakPassed | user/umalloc.c:46-61 | after morecore for the largest request 2^28 units of the heap lie above the break |
| UserHeap.Allocator.constructor | user/umalloc.c:20-21 | before the first malloc there is no free list and no live block |
| UserHeap.Allocator.FindPlace | user/umalloc.c:24-44 | the search ends, at the free block after which the freed one belongs |
| HeapModel.FreesOnly | user/umalloc.c:24-44 | exactly the units of the freed block become free |
| UserHeap.Allocator.Free | user/umalloc.c:24-44 | exactly the units of a live block become free: the heap stays tiled by free and live blocks, the list one address-ordered cycle without touching blocks, and no other live block changes |
| UserHeap.Allocator.Morecore | user/umalloc.c:46-61 | asks sbrk once, for at least 4096 units; adds a free block that is large enough, or, exactly if sbrk refuses, changes nothing; the heap stays within the process's memory exactly if fewer than 2^27 units are asked for |
| UserHeap.Allocator.Serve | user/umalloc.c:63-90 | hands out a block of exactly the size asked for, from the chosen free block |
| UserHeap.Allocator.Malloc | user/umalloc.c:63-90 | for every unsigned size, a new live block of exactly the size asked for, disjoint from all live ones, or 0, exactly if sbrk was asked once and refused; sbrk is asked only if every free block is too small; the search ends; the blocks still tile the heap, and the heap is within the process's memory exactly if it did not grow or at most 2^31 - 32 bytes were asked for |
| Scheduling.StepKeeps | kernel/proc.c:390-574 | every step of a CPU, of traps and interrupt handlers too, keeps the invariant about locks, interrupts, kernel stacks, c->proc and process states |
| Scheduling.QuietKeeps | kernel/spinlock.c:88-110 | a thread that handles a trap keeps interrupts off, also across yield, because sched keeps intena for the thread |
| Scheduling.Handoff | kernel/proc.c:444-574 | on every run a process is current on at most one CPU; while p->lock is free it is RUNNING exactly if it is current; wait frees only a ZOMBIE that has left its stack |
| Scheduling.SchedEntered | kernel/proc.c:491-519 | on every run, with timer interrupts wherever interrupts are on: they are on only where no spinlock is held; acquire and release of process locks and pop_off of any lock do not panic; the four tests of sched hold for yield always, and for sleep and exit exactly if p->lock is the only spinlock held |
| Scheduling.LocksSafe | kernel/spinlock.c:21-110 | the panics of acquire and release on process locks and of pop_off on any lock are not reachable |
| Scheduling.SchedSafe | kernel/proc.c:491-508 | sched panics exactly if a spinlock beside p->lock is held when it is entered, which never comes from yield |
| Scheduling.CallPanics | kernel/proc.c:347-574 | on every run a call of sleep that comes to sched panics there exactly if it was made with a spinlock beside lk, a call of exit exactly if with one beside its wait_lock, a call of yield never |
| Scheduling.TwoLocksPanic | kernel/proc.c:548-574 | a run in which a call of sleep with two spinlocks comes to the panic |
| Scheduling.CurrentOnce | kernel/proc.c:444-508 | no process is current on two CPUs |
| Scheduling.RunningIsCurrent | kernel/proc.c:444-519 | with its lock free a process is RUNNING exactly if it is current on a CPU |
| Scheduling.Life | kernel/proc.c:444-616 | on every run a process changes its state only along UNUSED, USED, RUNNABLE, RUNNING, SLEEPING, ZOMBIE as the calls say, and it does: at swtch it is RUNNABLE after yield, SLEEPING after sleep, ZOMBIE after exit, and whom wakeup, kill or fork starts is RUNNABLE |
| Scheduling.StateMoves | kernel/proc.c:444-616 | the same for a single step of a CPU |
| Scheduling.NeverStuck | kernel/proc.c:444-574 | on every run every CPU has a way on that takes no lock, to give back what it holds and return; only sched may panic |
| SleepLocks.StepKeeps | kernel/sleeplock.c:21-52 | every step of acquiresleep, releasesleep, sleep, wakeup and kill keeps the invariant |
| SleepLocks.NoLostWakeup | kernel/sleeplock.c:21-41 | on every run, while the sleep lock and its spinlock are free no process sleeps on it or is about to; at most one process owns it |
| SleepLocks.HoldingSleep | kernel/sleeplock.c:43-52 | holdingsleep is true for exactly the owner |
| SleepLocks.CallsReturn | kernel/sleeplock.c:21-41 | on every run acquiresleep returns only to the owner, whatever woke it; an owner stays one until it releases; when releasesleep returns no process is left asleep on the lock |
| SleepLocks.NoDeadlock | kernel/sleeplock.c:21-52 | on every run, while any spinlock is held, some holder can take its next step |
| ExitWait.StepKeeps | kernel/proc.c:279-435 | every step of fork, exit, reparent, wait, kill and the scheduler keeps the invariant about locks, parents and zombies |
| ExitWait.NoMissedExit | kernel/proc.c:330-435 | on every run, while wait_lock is free no process that sleeps in wait, or is about to, has a ZOMBIE child |
| ExitWait.ParentsLive | kernel/proc.c:155-386 | at every moment every parent pointer names a live process that is no zombie, every process but init has one, and a free slot has none |
| ExitWait.ReapedOnce | kernel/proc.c:346-435 | of each slot the exits and the reaps alternate, and wait frees only a child of the caller whose thread is gone |
| ExitWait.NoChildren | kernel/proc.c:390-435 | wait gives up for want of children exactly if the caller has none |
| ExitWait.WaitReturns | kernel/proc.c:391-435 | on every run wait returns with a dead child of the caller, whose slot is then free, or without one because the caller has no child, or has been killed and has no dead one, or because the status of a dead one could not be copied out |
| ExitWait.NoSlotLost | kernel/proc.c:280-323 | on every run a half-made process is in the hands of a live process in fork |
| ExitWait.NoDeadlock | kernel/proc.c:280-435 | on every run, while wait_lock or any p->lock is held, some holder can take its next step |
| ExitWait.KillMissed | kernel/proc.c:427-433 | on every run a process that has been killed goes to sleep in wait exactly if the kill has fallen between its test of p->killed and the acquisition of p->lock in sleep |
| ExitWait.KillCanBeMissed | kernel/proc.c:427-433 | a run in which this happens |
| BlockTree.PathRoundTrip | kernel/fs.c:670-734 | the index arithmetic of the four regimes of bmap sends every block number below EXT2_MAXFILE to a path from which it can be told |
| BlockTree.BlockRoundTrip | kernel/fs.c:670-734 | and every path to a data block is the path of a block number |
| BlockTree.AddKeeps | kernel/fs.c:670-734 | storing a fresh zeroed block in an empty slot keeps the tree: all index and data blocks distinct, every slot as recorded |
| BlockTree.CutKeeps | kernel/fs.c:833-922 | freeing a block with nothing below it and clearing its slot keeps the tree |
| BlockTree.GrownMap | kernel/fs.c:670-734 | bmap is insert-if-absent on the map from file block to disk block |
| BlockTree.GrownBytes | kernel/fs.c:670-734 | bmap changes no byte of the file |
| BlockTree.StoreBytes | kernel/fs.c:988-1023 | one copy into a block changes exactly the bytes it names in the file |
| BlockTree.WroteContents | kernel/fs.c:988-1023 | changing exactly the bytes from off on is splicing the source into the contents |
| BlockTree.TookMore | kernel/fs.c:940-1023 | block after block, the file gets the blocks that it lacked of the bytes so far and no more, and no other file's block changes |
| BlockTree.TrimmedAll | kernel/fs.c:833-922 | when the tree is empty, exactly its blocks are no longer in use |
| Files.Inode.constructor | kernel/file.h:17-30 | a new file has no blocks and no contents |
| Files.Inode.Balloc | kernel/fs.c:125-148 | a block that was not in use, zeroed |
| Files.Inode.Bmap | kernel/fs.c:670-734 | the block of bn, found or freshly allocated with the index blocks on its way; every other bn, data block and file is unchanged |
| Files.Inode.FreeTable | kernel/fs.c:848-861 | the loop over an index block of data blocks frees exactly these |
| Files.Inode.FreeDouble | kernel/fs.c:863-885 | the nested loops free exactly what is below a double-indirect block |
| Files.Inode.FreeTriple | kernel/fs.c:887-918 | the nested loops free exactly what is below a triple-indirect block |
| Files.Inode.Itrunc | kernel/fs.c:833-922 | frees every block of the file, each once, and no other; leaves the empty file |
| Files.Inode.Readi | kernel/fs.c:940-979 | returns the slice asked for, clipped to the size, and its length as an int, or -1 past the end or on wrap-around; the contents stay the same, and so do other files; takes blocks for exactly the holes it reads |
| Files.Inode.Writei | kernel/fs.c:988-1023 | replaces exactly the bytes from off on, as far as the source can be read, extends the size accordingly, refuses exactly the three error cases; with a readable source the contents are spliced; other files are unchanged; takes exactly the blocks that were missing for these bytes |
| BufferList.Unlink | kernel/bio.c:116-137 | the two assignments take the buffer out of the doubly linked ring |
| BufferList.PushFront | kernel/bio.c:36-53 | the four assignments put a buffer first in the doubly linked ring |
| Bio.Cache.constructor | kernel/bio.c:36-53 | binit links all buffers into the ring, unused, and the cache agrees with the disk |
| Bio.Cache.Find | kernel/bio.c:65-73 | the scan finds the buffer of the block exactly if there is one |
| Bio.Cache.Victim | kernel/bio.c:75-88 | the backward scan finds the least recently used unreferenced buffer |
| Bio.Cache.Bget | kernel/bio.c:58-89 | a reference to the buffer of the block, or to the least recently used unused one; panics exactly if the block is not cached and all buffers are referenced; no block ever has two buffers |
| Bio.Cache.Fill | kernel/bio.c:92-103 | bread: whoever holds the buffer has the latest contents of the block |
| Bio.Cache.Change | kernel/bio.c:9-15 | a holder's change becomes the latest contents of the block and of no other |
| Bio.Cache.Bwrite | kernel/bio.c:106-112 | the disk gets the latest contents of the block |
| Bio.Cache.Brelse | kernel/bio.c:116-137 | gives up one reference; with the last one the buffer becomes the first of the list, which stays ordered by the time of the last release |
| Bio.Cache.Bpin | kernel/bio.c:139-144 | one more reference |
| Bio.Cache.Bunpin | kernel/bio.c:146-151 | one reference less, and the place on the list stays |
| VirtQueue.TwoInFlight | kernel/virtio_disk.c:201-213 | at most two requests are in flight |
| VirtQueue.FewFree | kernel/virtio_disk.c:201-213 | where at most two descriptors are free, two requests are in flight |
| VirtQueue.Short | kernel/virtio_disk.c:256-262 | at most two entries of either ring are unread, so none is overwritten |
| VirtQueue.PostKeeps | kernel/virtio_disk.c:215-265 | posting a request on three free descriptors keeps the invariant of table, rings and books |
| VirtQueue.CompleteKeeps | kernel/virtio_disk.c:294-327 | a completion by the device keeps it |
| VirtQueue.SeeKeeps | kernel/virtio_disk.c:310-324 | handling a completion keeps it |
| VirtQueue.RetireKeeps | kernel/virtio_disk.c:185-197 | giving the three descriptors back keeps it |
| VirtQueue.HandledAll | kernel/virtio_disk.c:294-327 | when the handler is done, a buffer has been given back exactly if the device has finished its request by then, and what was finished before has its data unchanged |
| Virtio.Driver.constructor | kernel/virtio_disk.c:61-153 | empty rings, every descriptor free, no request in flight |
| Virtio.Driver.AllocDesc | kernel/virtio_disk.c:156-166 | takes a free descriptor, or reports that there is none |
| Virtio.Driver.Alloc3Desc | kernel/virtio_disk.c:201-213 | three different descriptors, or, exactly if fewer are free, nothing changed |
| Virtio.Driver.FreeChain | kernel/virtio_disk.c:185-197 | following the chain frees exactly its three descriptors, and free_desc does not panic |
| Virtio.Driver.Submit | kernel/virtio_disk.c:215-268 | posts the request in memory as the abstract step says, or, exactly if two are in flight, changes nothing |
| Virtio.Driver.Finish | kernel/virtio_disk.c:285-292 | once the buffer is given back its request is gone and its descriptors are free |
| Virtio.Driver.Intr | kernel/virtio_disk.c:294-327 | with 16-bit indices that wrap and a device that goes on between rounds, ends, sees every used entry once, and the status panic is not reached |
| Virtio.Driver.DeviceComplete | kernel/virtio_disk.c:232-262 | a device that goes by the descriptors alone moves the right block between the right buffer and the right place on the disk |
| ShellSyntax.GetToken | user/sh.c:268-311 | a token that is not the end moves the cursor on; a word is a longest stretch of plain characters |
| ShellSyntax.ParseLine | user/sh.c:347-362 | the mutually recursive parser ends on every line, with the cursor on the line |
| ShellGrammar.LineRead | user/sh.c:347-449 | every sentence of the grammar - words and redirections in any order, any number of redirections, pipelines, groups, &, ; - is read as the command it means, whatever may follow a line |
| ShellGrammar.LineIs | user/sh.c:347-449 | whatever is read from a sequence of tokens is a sentence of the grammar and its meaning |
| ShellGrammar.SimpleRead | user/sh.c:418-449 | a simple command is read with its words in order and its redirections in order around them, or refused exactly if it has MAXARGS words |
| ShellGrammar.ReadsSentences | user/sh.c:330-345 | tokens are read to their end exactly if they are a sentence |
| ShellLines.SameLine | user/sh.c:347-449 | the parser on characters does on every line what the parser on tokens does on its tokens |
| ShellLines.Accepts | user/sh.c:330-345 | a line is accepted exactly if its tokens are a sentence, and the command is what the sentence means |
| ShellLines.PanicsExactly | user/sh.c:330-345 | parsecmd panics exactly on the other lines |
| ShellLines.Refuses | user/sh.c:377-416 | among these are all with parentheses that do not match in number and all with a redirection without a file |
| ShellLines.WordLimit | user/sh.c:434-445 | a simple command panics exactly if it has MAXARGS words or more, else the words and redirections typed come back |
| ShellLines.SpelledLexes | user/sh.c:268-311 | a line falls into the tokens that were typed, with any blanks |
| ShellLines.TypedLine | user/sh.c:330-449 | whoever types the tokens of a sentence, with any blanks, gets the command it means |
| ShellLines.RoundTrip | user/sh.c:330-345 | every command tree is what some line means: typed in parentheses, with any blanks, it comes back |
| ShellLines.PrintBack | user/sh.c:330-345 | the line that Print gives for a command tree parses to that tree |
| Shell.Parser.Token | user/sh.c:268-311 | the loops of gettoken compute GetToken and move the cursor behind the token |
| Shell.Parser.Sees | user/sh.c:313-323 | peek skips blanks and tells whether one of the characters is next |
| Shell.Parser.Redirections | user/sh.c:377-400 | the loop of parseredirs collects what ParseRedirs says |
| Shell.Parser.Line | user/sh.c:347-362 | parseline with its loop and its recursion computes ParseLine and leaves the cursor there |
| Shell.Parser.Piped | user/sh.c:364-375 | parsepipe computes ParsePipe |
| Shell.Parser.Block | user/sh.c:402-416 | parseblock computes ParseBlock |
| Shell.Parser.Simple | user/sh.c:418-449 | parseexec computes ParseExec |
| Shell.Parser.Words | user/sh.c:430-448 | the loop of parseexec computes ParseArgs, with its limit on the number of words |
| Shell.LineOfLine | user/sh.c:347-449 | every word of a parsed command is a longest stretch of plain characters of the line |
| Shell.CutWord | user/sh.c:452-496 | cutting behind words of the line damages no word |
| Shell.NulTerminate | user/sh.c:452-496 | puts a NUL behind every word of the command and changes nothing else |
| Shell.Parsecmd | user/sh.c:330-345 | the parsed command, or a panic also for leftovers; every word of it stands in the buffer as a C string |
| Grep.Items | user/grep.c:84-96 | how matchhere reads a pattern: only the last item can be the end mark |
| Grep.FirstOne | user/grep.c:84-96 | a decomposition that begins with a character item is a first character and a decomposition of the rest |
| Grep.FirstStar | user/grep.c:98-106 | a decomposition that begins with a starred item is a run of accepted characters and a decomposition of the rest |
| Grep.Matchhere | user/grep.c:84-96 | true exactly if some decomposition of a beginning of the text fits the pattern's items, all of the text under a trailing $ |
| Grep.Matchstar | user/grep.c:98-106 | true exactly if some run of the starred character, however long, is followed by such a decomposition |
| Grep.Match | user/grep.c:72-82 | true exactly if such a decomposition exists from some position, from the first only under ^ |
| GrepPatterns.ReadAsWritten | user/grep.c:84-96 | a pattern is read as the one legal sequence of items that is written like it: a character before * is repeated, a last $ is the end, and nothing else is special |
| GrepPatterns.PlainMatches | user/grep.c:72-96 | a word without . and * matches as itself: anywhere, at the beginning after ^, at the end before $, as the whole line between them |
| Grep.PrintedIsSelected | user/grep.c:11-35 | what grep leaves out is what it would have selected from the first line of more than 1022 characters on; it is all the matching lines exactly if nothing would have been selected from there |
| Grep.LongLineLost | user/grep.c:11-35 | a matching line of 1023 characters is not printed |
| Grep.Lines | user/grep.c:20-29 | the inner loop prints the matching lines in the buffer and finds where the unfinished one begins |
| Grep.Grep | user/grep.c:11-35 | for every NUL-free input and every chunking of it, prints exactly the matching newline-terminated lines before the first over-long one |
| Pipes.Tests | kernel/pipe.c:76-130 | the comparisons of the wrapped counters tell exactly whether the ring is full or empty |
| Pipes.PutKeeps | kernel/pipe.c:76-103 | storing a byte appends it to the queue |
| Pipes.GetKeeps | kernel/pipe.c:105-130 | taking a byte removes the oldest of the queue |
| Pipes.PipeIsFifo | kernel/pipe.c:58-130 | on every run the bytes taken are the first bytes stored, in order, and the counters differ by 0 to PIPESIZE modulo 2^32 |
| Pipes.NoNeedlessSleep | kernel/pipe.c:58-130 | on every run, while the lock is free a sleeping writer means full and readable; a reader sleeps although there are bytes, or no writer, exactly if a killed writer left in mid-write and since then no wakeup of readers began and the pipe was not empty |
| Pipes.KilledWriterLeaves | kernel/pipe.c:82-87 | the return of a killed writer in mid-write leaves asleep, with bytes in the pipe, exactly the readers that were asleep or about to be |
| Pipes.LostMeans | kernel/pipe.c:82-87 | the flag that the invariant carries for the exception means what that condition says about the run |
| Pipes.ReaderLeftAsleep | kernel/pipe.c:82-87 | a run in which a reader is left asleep although the pipe has a byte and both ends are open |
| PipeCalls.WriteCall | kernel/pipe.c:76-103 | whatever other calls do meanwhile, a write of n bytes returns the number of bytes it has stored, and this is n unless copyin failed; or -1 before the last byte, killed or without a reader |
| PipeCalls.ReadCall | kernel/pipe.c:105-130 | a read of n bytes takes the next bytes of the pipe, as many as there are but no more than n, and returns their number; one more is taken and lost where copyout fails; none only if no writer is left; -1 only if killed |
| PipeCalls.NoDeadlock | kernel/pipe.c:58-130 | on every run, while pi->lock or any p->lock is held, some holder can take its next step |

## Left out

- UserHeap.Allocator.Malloc: when the heap has grown past the process's memory the model goes on, while the program may fault at the first store there; header sizes are natural numbers, not `uint`.
- Files.Inode.Readi: assumes that copying to the destination succeeds, because the code ignores the result of either_copyout.
- Files.Inode.Balloc: never runs out of blocks, because the code panics then; which block it picks is open.
- Files.Inode.FreeTriple: the nested loops of itrunc are three methods, each calling the next inside its loop.
- Shell.Parser.Simple: redirections are put around the command at the end, while the code wraps the node first and goes on filling its argv in place; allocation of the nodes is not modelled.
- Grep.Grep: says nothing about input with NUL characters, on which strchr and match stop early, nor about read errors.
- Virtio.Driver.constructor: feature negotiation and device registers are not modelled.
- Virtio.Driver.Submit: waiting for descriptors and for completion is not a step of its own; the caller tries again.
- Bio.Cache.Bget: one device with a number other than 0, because unused buffers carry device 0; reference counts do not overflow.
- LogCode.Log.EndOp: runs to its end in one call; the interleavings during a commit are those of the transition system.
- SleepLocks.NoLostWakeup: safety only; that a woken process is scheduled in the end is not stated; a process that has lost the CPU to a timer interrupt counts as RUNNING, here and in Pipes, and takes no step.
- ExitWait.NoMissedExit: safety only, likewise.
- Pipes.NoNeedlessSleep: safety only, likewise; a call that has been killed may go on in the model past a test of killed() that would stop it, so there are more runs than the code has.
- Assumptions of the transition systems: log operations stay within MAXOPBLOCKS calls of log_write; an end of a pipe is closed only when no process is inside a call on it, which the file table's reference counts provide; init, slot 0, never exits, on which exit panics; interrupt handlers have given back their spinlocks when they return or yield, and system calls when they return.
- Block and inode bitmaps, directories, iupdate, durability of file data and the path from the file system to the log: the allocator and the store are abstract.
- fork's copying of registers and files, pid allocation, exit's closing of files, process page tables with trampoline and trapframe.
- Memory fences and weak memory: steps are sequentially consistent.
- uvmcreate, uvmfirst, uvmclear, the kernel page table, walkaddr as a function of its own (it is part of copyin and copyout).
- pipealloc's failure paths and freeing the pipe when both ends are closed.
- runcmd, the reading of command lines, and the user programs other than the shell's parser, malloc and grep.
- mkfs, trap frames and the trampoline, exceptions other than system calls and interrupts, devices other than the disk, the console, system call arguments, file tables.
