# A verified model of xv6

This project models the parts of xv6 for RISC-V that are hardest to get right and proves what they promise: the
crash-safe log, the buffer cache, the blocks, contents and directories of the file system and the image it starts
from, page tables and user memory, sleep and wakeup, the process tree, the disk driver's rings, and four compact
algorithms with strong specifications (the heap allocator, the shell parser, grep, the pipe).

`dafny verify dfyconfig.toml` checks everything.

## How the model is built

Code that changes things in place is a class whose methods have the loops of the C code; a struct's arrays are `seq`
or `map` fields, pointers are indices. Protocols are step systems (`Scheduling`, `ProcTree`, `LogRuns`) whose steps
are single accesses to shared state under the lock that guards it, or, for the buffer cache, the pipe and the disk
driver, classes whose methods are whole sections under one lock, so that every interleaving is a sequence of calls.
The step systems are proved in both directions: what every run keeps, and that the calls can run to their end with the
effect they should have. A C `panic` is a precondition that every caller in the model is proved to meet, or an outcome
whose exact condition is stated. What a method relies on for its proof but the C code does not store (who owns a
block, in which order things happened) is ghost state.

Where a proof writes `P(..) == true`, the verifier is to take the predicate as a whole and leave its parts to the lemmas
about it.

| files | models |
|---|---|
| `RedoLog`, `KernelLog`, `LogRuns`, `LogCalls`, `LogSpace` | `kernel/log.c`: disks between any two block writes, the functions, whole runs with crashes, the functions as steps of runs, the reservation of log space |
| `LruList`, `BufferCache` | `kernel/bio.c` |
| `FileBlocks`, `FileBytes`, `FileLog`, `FileImage`, `FileSystem`, `Mkfs` | bitmap, block map, contents, truncation, what they log and how it lies on disk, in `kernel/fs.c`, `filewrite` in `kernel/file.c`, `mkfs/mkfs.c` |
| `Links`, `SysFile` | directory entries and link counts in `kernel/sysfile.c` and `kernel/fs.c` |
| `PageTable`, `UserBytes`, `UserMemory` | `kernel/vm.c` and `kernel/kalloc.c` |
| `Scheduling`, `SleepWakeup`, `SleepReturns`, `ProcTree` | `kernel/proc.c`, `kernel/sleeplock.c`, with the locks and interrupts of `kernel/spinlock.c` and `kernel/trap.c` as far as they need them |
| `VirtioRing`, `VirtioDisk` | `kernel/virtio_disk.c` |
| `UserHeap` | `user/umalloc.c` |
| `ShellGrammar`, `ShellDerivation`, `ShellWords`, `Shell` | the parser of `user/sh.c`, and the grammar it is for |
| `Grep`, `Pipe` | `user/grep.c`, `kernel/pipe.c` |

## What turned out differently from what one would expect

- `mkfs` makes the log LOGSIZE blocks long, one of which is the header.  `begin_op()` admits operations for LOGSIZE
  blocks, so the second test of `log_write()` can fail: `LogSpace.ReservationSuffices` says exactly when it cannot.
- That test comes before the search for an earlier entry, so even a block already in the log can run into it
  (`LogSpace.AbsorptionPanics`).
- `binit()` names all buffers block 0 of device 0; that is the one block that can have several (`BufferCache.OneBufferIff`).
- A failing `either_copyin()` in `writei()` may leave a cached block changed and not logged; `FileLog.TornIff` says
  exactly when, and `FileLog.ExampleNotLogged` gives such a write.
- `mkfs` rounds the root directory up by a whole block when its size is a multiple of the block size already
  (`Mkfs.RootRounding`, and `Mkfs.RootOf64` for 64 entries).
- Nothing keeps `create()` and `link()` from a directory that has been removed while it is some process's current
  directory; exactly then the link counts go wrong (`Links.LinkDoneIff`, `Links.NewDirIff`, `Links.LinkInRemoved`).
- A `kill()` that comes between `killed()` and `sleep()` in `wait()` does not keep the process from sleeping:
  `ProcTree.SleeperHasChild` says that this is the only way, `ProcTree.KillComesLate` is a run.
- A failing `copyout()` in `piperead()` loses one byte (`Pipe.Pipe.Read`, `Pipe.LostByte`).
- The comment at `uvmdealloc()` says that oldsz can be larger than the process.  The code panics at an unmapped page:
  `PageTable.DeallocIff` says exactly when, and `PageTable.DeallocTooFar` is a call that does.
- `grep` drops a last line without newline, and everything from the first line on that does not fit its buffer:
  `Grep.PrintsAllIff`, `Grep.LastLineDropped`.

## Assumptions

Sequential consistency at lock granularity; atomic writes of disk blocks; `swtch` is one step.  In `Scheduling` the
scheduler may pick any runnable process; interrupts can come wherever they are on, which with pop_off() is only where
no spin lock is held; the timer interrupt and the yield it leads to are one step, and so are kill, fork and the reaping
of a child, each under p->lock.  Process ids and the number of transactions are unbounded.  There are fewer
physical frames than user pages in an address space, which holds for PHYSTOP.  Requests to `malloc` are such that the
byte count passed to `sbrk` fits its `int`.  The free list of frames is a sequence rather than links in the pages, page
table entries are records rather than bits.

## Model

| member | source | states |
|---|---|---|
| `RedoLog.HeadRoundTrip` | kernel/log.c:80-104 | read_head() returns what write_head() wrote, and the header write touches no other block |
| `RedoLog.InstallSealed` | kernel/log.c:65-78 | copying the log of a sealed disk any number of blocks far, from any mixture of copied and uncopied blocks, ends with the same home blocks |
| `RedoLog.RecoverySteps` | kernel/log.c:65-111 | at every write of recover_from_log() a later recovery has the same result, and the complete one equals it |
| `RedoLog.RestartsAreHarmless` | kernel/log.c:106-111 | recovery cut short at any write, any number of times in a row, and then completed is one recovery |
| `RedoLog.CommitSteps` | kernel/log.c:161-182 | at every write of commit() recovery would give the old home blocks before the header write at line 177, and the new ones from then on |
| `RedoLog.CrashAtomicity` | kernel/log.c:64-111 | stop at any write of commit(), any number of stopped recoveries, one that completes: the home blocks are all as before or all as after, and the switch is the header write |
| `KernelLog.CommitInvisible` | kernel/log.c:161-182 | what the file system sees of the disk after a commit is what it saw in its cache before |
| `KernelLog.CommitTraceAt` | kernel/log.c:161-182 | the disks that commit() passes through, write by write, are the states of RedoLog.CommitSteps |
| `KernelLog.RecoverTraceAt` | kernel/log.c:106-111 | the disks that recovery passes through are the states of RedoLog.RecoverySteps |
| `KernelLog.Log.WriteLog` | kernel/log.c:161-172 | the loop writes exactly the cached blocks to the log, in order, every disk it passes through being the recorded trace |
| `KernelLog.Log.InstallTrans` | kernel/log.c:65-78 | the loop copies the logged blocks home and unpins each once when not recovering |
| `KernelLog.Log.RecoverFromLog` | kernel/log.c:106-111 | passes through exactly the disks of the recovery trace and ends with an empty log |
| `KernelLog.Log.Commit` | kernel/log.c:174-182 | passes through exactly the disks of the commit trace and leaves the file system's view unchanged |
| `KernelLog.Log.LogWrite` | kernel/log.c:193-210 | finds the slot of a block already logged (absorption) or appends and pins it; panics exactly in the two cases of lines 197-198, the space test first |
| `KernelLog.Log.EndOp` | kernel/log.c:132-158 | commits exactly when the last open operation ends |
| `LogRuns.StepKeepsDiskInv` | kernel/log.c:114-210 | every step of operations, commits, single disk writes, crashes and recoveries keeps: recovering the disk now gives the committed state |
| `LogRuns.CrashSafety` | kernel/log.c:64-182 | in every run with any crashes, completing recovery gives the file system after a prefix of the committed transactions' writes, each operation whole or absent |
| `LogRuns.CommitIsDurable` | kernel/log.c:132-182 | once a commit has returned, whatever happens then and however recoveries are stopped, the next one that completes gives the transactions committed by then, those of the return first, with all records of every operation written since the last stop before it |
| `LogCalls.EndOpCommits` | kernel/log.c:132-182 | end_op() of the last open operation can run its commit to the end, and then every logged block is in place on the disk, the log is empty and the transaction is committed; end_op() of another one writes nothing and keeps the log |
| `LogCalls.RebootRecovers` | kernel/log.c:54-111 | after a stop at any time a recovery can run to its end: the committed transactions are in place, the log is empty, and begin_op() admits an operation |
| `LogCalls.TraceIsRun` | kernel/log.c:161-182 | the disks of a commit in a run are, write by write, those that commit() passes through |
| `LogCalls.Kernel.constructor` | kernel/log.c:54-62 | booting on a disk with an empty log is a run that recovers |
| `LogCalls.Kernel.Reboot` | kernel/log.c:54-111 | a stop between two calls and the recovery after it are the steps of a run |
| `LogCalls.Kernel.BeginOp` | kernel/log.c:114-128 | admits exactly if the run can go on with the operation, and then fields and run agree |
| `LogCalls.Kernel.LogWrite` | kernel/log.c:193-210 | panics exactly if the run cannot go on with the write, and otherwise fields and run agree |
| `LogCalls.Kernel.EndOp` | kernel/log.c:132-158 | goes on with the run as it must: with the whole commit if it is the last open operation, else with the end only; fields and run agree |
| `LogSpace.StepKeepsReserved` | kernel/log.c:114-128 | logged blocks plus the unspent budgets of open operations never exceed LOGSIZE |
| `LogSpace.AdmitsIffRoom` | kernel/log.c:114-128 | begin_op() admits an operation if and only if, however little the open ones have taken so far, the log has room for all that they and one more may take |
| `LogSpace.CommitIsAlone` | kernel/log.c:132-158 | while a commit runs no operation is open, so no commit holds part of an operation |
| `LogSpace.NoPanic` | kernel/log.c:193-210 | an operation that stays within MAXOPBLOCKS passes both tests of log_write() if the log has more than LOGSIZE blocks |
| `LogSpace.ThriftyNoPanic` | kernel/log.c:193-210 | the same for operations that have written fewer than MAXOPBLOCKS different blocks before each log_write(), as the chunks of filewrite() have |
| `LogSpace.ReservationSuffices` | mkfs/mkfs.c:25 | all such operations pass log_write() in every reachable state if and only if the log has more than LOGSIZE blocks; with mkfs's nlog = LOGSIZE there is a run that panics |
| `LogSpace.AbsorptionPanics` | kernel/log.c:193-210 | the space test comes before absorption: a concrete state where writing a block already in the log panics |
| `Scheduling.StepKeepsBase` | kernel/proc.c:397-529 | every step of sleep, wakeup, sched, scheduler, yield, kill, fork, exit and wait, and of interrupt handlers on any CPU, keeps the discipline of locks, CPUs and interrupts |
| `SleepWakeup.LockedIsVisible` | kernel/proc.c:488-529 | when wakeup() holds p->lock, a process in sleep() on that channel that is due is awake or visibly SLEEPING |
| `SleepWakeup.NoLostWakeup` | kernel/proc.c:488-529 | in every interleaving, a process that called sleep() under lk before a wakeup() that a process or an interrupt handler began while holding lk is never again pending in that sleep once the wakeup is over |
| `SleepWakeup.OneCpuEach` | kernel/proc.c:397-454 | each RUNNING process is the current process of exactly one CPU |
| `SleepWakeup.SchedChecks` | kernel/proc.c:441-454 | at swtch(), p->lock is held, p is not RUNNING and interrupts are off; noff is 1 if and only if the process held no spin lock but the one that sleep() releases, when it called sleep() or exit() |
| `SleepWakeup.SleepLockDoesNotStall` | kernel/sleeplock.c:19-35 | no process stays asleep on a sleep lock that is free, unless its wakeup is under way |
| `SleepReturns.SleepReturnsLocked` | kernel/proc.c:488-514 | after a call of sleep(_, lk) the process is inside that call in every continuation, whatever else happens, until it acquires lk, and the step that takes it out is that acquire |
| `SleepReturns.SleepGoesDown` | kernel/proc.c:488-514 | sleep() can run down to the switch: the process is SLEEPING on its channel, its CPU is in the scheduler, p->lock and lk are free, nothing else has changed |
| `SleepReturns.WokenComesBack` | kernel/proc.c:397-431 | any CPU in its scheduler can run a RUNNABLE process out of sleep(), which then holds lk |
| `SleepReturns.WakeupWakes` | kernel/proc.c:517-529 | wakeup(chan) can run to its end: every other process SLEEPING on chan is RUNNABLE and no other process has changed |
| `SleepReturns.HandlerWakes` | kernel/proc.c:517-529 | the same for an interrupt handler, which looks at all processes but the one it interrupted |
| `SleepReturns.KilledComesBack` | kernel/proc.c:534-550 | a sleeping process that is killed can be run out of sleep() |
| `SleepReturns.YieldGivesWay` | kernel/proc.c:456-462 | yield() leaves the process RUNNABLE where it was and the CPU in its scheduler |
| `SleepReturns.ExitGoesDown` | kernel/proc.c:333-343 | exit() ends with a ZOMBIE that no CPU runs and whose lock is free |
| `SleepReturns.ForkedRuns` | kernel/proc.c:278-284 | a process that fork() made can be run by any CPU in its scheduler |
| `SleepReturns.SpinLockExcludes` | kernel/spinlock.c:19-63 | from acquire() to release() of a spin lock, in every interleaving, its holder stays on its CPU, no handler runs there, and nobody else can acquire the lock |
| `SleepReturns.HandlerLockExcludes` | kernel/spinlock.c:19-63 | the same for an interrupt handler, which does not return before it has released the lock |
| `SleepReturns.LocksComeBack` | kernel/spinlock.c:19-63 | acquire() and release() leave all spin locks as they were |
| `SleepReturns.InterruptComesAndGoes` | kernel/spinlock.c:77-91 | a CPU that holds no lock can be interrupted, and goes on as before, with interrupts on |
| `SleepReturns.SleepLockExcludes` | kernel/sleeplock.c:19-35 | from acquiresleep() to releasesleep(), in every interleaving, nobody else can take or drop the sleep lock |
| `ProcTree.StepKeepsInv` | kernel/proc.c:243-388 | every step of fork, exit, reparent, wait and kill keeps the process-table invariant |
| `ProcTree.ParentsAreAlive` | kernel/proc.c:243-388 | in every reachable state a published process other than init has a parent that is neither ZOMBIE nor UNUSED and has a smaller pid |
| `ProcTree.InitIsRoot` | kernel/proc.c:291-343 | parent links form a tree rooted at initproc |
| `ProcTree.NoParentSleepsOnZombie` | kernel/proc.c:305-388 | whenever wait_lock is free, no parent is asleep in wait() while it has a ZOMBIE child |
| `ProcTree.ReapedOnce` | kernel/proc.c:346-388 | wait() never returns a pid it has returned before |
| `ProcTree.WaitDecides` | kernel/proc.c:353-383 | while wait() scans, havekids says if one of the processes seen is a child; it reaps exactly at a zombie child; at the end of the table it fails if and only if the process is killed or has no child, and goes on to sleep if and only if it has one, none of them a zombie |
| `ProcTree.SleeperHasChild` | kernel/proc.c:380-385 | a process asleep in wait() has a child, and has been killed if and only if that happened between killed() and sleep() |
| `ProcTree.KillComesLate` | kernel/proc.c:380-385 | a concrete run in which a killed process sleeps in wait() |
| `ProcTree.ParentIsForker` | kernel/proc.c:243-303 | a process is the child of the one that forked it, or of init once that one is in exit() |
| `ProcTree.ForkMakesChild` | kernel/proc.c:243-287 | fork() can run to its end: a new process with a new pid and the caller as its parent, and nothing else has changed |
| `ProcTree.ExitEnds` | kernel/proc.c:291-343 | exit() can run to its end: the process is a ZOMBIE, exactly its children have init as their parent instead, wait_lock is free |
| `ProcTree.WaitReaps` | kernel/proc.c:346-388 | wait() with a zombie child can run to its end: it frees the first such child, returns its pid and changes nothing else |
| `ProcTree.CallsGoOn` | kernel/proc.c:243-388 | a process leaves wait() only with a child's pid, a failed copyout(), no children or killed; leaves fork() only failed or with a new process; and never returns from exit(), its entry being freed only by a wait() that returns its pid |
| `LruList.MoveToFront` | kernel/bio.c:106-124 | the six pointer assignments of brelse() move the buffer to the front and keep a circular doubly linked list of all buffers |
| `LruList.AddNode` | kernel/bio.c:35-50 | each round of binit() adds a buffer in front of a well-linked list |
| `BufferCache.OneBufferEach` | kernel/bio.c:55-84 | at most one buffer for a block, other than block 0 of device 0 |
| `BufferCache.OneBufferIff` | kernel/bio.c:35-84 | a block has at most one buffer in every valid cache if and only if it is not block 0 of device 0 |
| `BufferCache.RecycleInv` | kernel/bio.c:70-80 | recycling an unreferenced buffer changes what no block seems to contain |
| `BufferCache.Cache.constructor` | kernel/bio.c:35-50 | binit() gives a valid cache of unused buffers, all named block 0 of device 0, in a well-linked list |
| `BufferCache.Cache.Oldest` | kernel/bio.c:70-82 | the backward loop finds the least recently released of the unreferenced buffers, or none exactly if all are referenced |
| `BufferCache.Cache.Bget` | kernel/bio.c:55-84 | returns the buffer of the block or recycles the least recently released unreferenced one; panics exactly if neither exists; no referenced buffer is touched and no block seems to change |
| `BufferCache.Cache.Load` | kernel/bio.c:87-96 | bread() returns the latest contents of the block |
| `BufferCache.Cache.Modify` | kernel/bio.c:87-96 | a change by the lock holder is a change of that block for all users and of no other |
| `BufferCache.Cache.Bwrite` | kernel/bio.c:99-102 | after bwrite() disk and buffer agree, and no block seems to change |
| `BufferCache.Cache.Unlock` | kernel/bio.c:106-109 | releasesleep() of a buffer that is written or pinned changes no block |
| `BufferCache.Cache.Brelse` | kernel/bio.c:106-124 | after releasesleep(), in whatever state other processes have left the buffer, giving up the reference changes no block; the last one makes the buffer the most recently released |
| `BufferCache.Cache.Bunpin` | kernel/bio.c:132-136 | dropping a pin of a buffer that is written, locked or pinned again changes no block |
| `FileBlocks.GetPut32` | kernel/fs.c:364-378 | an entry of an indirect block reads back as written, and the other entries do not change |
| `FileBlocks.BitmapIsExact` | kernel/fs.c:59-94 | the bitmap bits set are exactly those of the metadata blocks and of blocks held by some inode slot or indirect entry, each held once |
| `FileBlocks.AttachInv` | kernel/fs.c:349-384 | putting a newly allocated block into an empty slot keeps the bitmap exact |
| `FileBlocks.AttachBytes` | kernel/fs.c:349-384 | mapping a new block changes no byte of any file |
| `FileBlocks.WithBlockBytes` | kernel/fs.c:458-486 | writing a data block changes the bytes of that block of that file and of no other |
| `FileBlocks.TruncatedInv` | kernel/fs.c:388-413 | freeing the blocks of all slots of an inode leaves the bitmap exact |
| `FileBlocks.TruncatedBytes` | kernel/fs.c:388-413 | a truncated file reads as zeros, and no byte of any other file changes |
| `FileBytes.WriteThenRead` | kernel/fs.c:429-486 | what was written is read back at every offset across the direct and indirect blocks, and all other bytes of all files are as before |
| `FileBytes.WithinBudget` | kernel/file.c:125-148 | 4 data, 4 bitmap and 1 indirect block are at most 9, and the inode block is the last one logged |
| `FileLog.WriteBudget` | kernel/file.c:125-148 | a write of at most three blocks to a file without holes logs at most 9 distinct blocks before the inode block |
| `FileLog.TornIff` | kernel/fs.c:466-483 | all that writei() changed (data, indirect blocks, bitmap, inode) is in the log unless the readable part of the source ends inside a block that the file had, that was not logged yet and whose bytes it changes, free blocks sufficing for the holes before it; and exactly then it is not |
| `FileLog.ExampleNotLogged` | kernel/fs.c:466-483 | a concrete write of two bytes of which one can be read: block 2 has changed and is not logged |
| `FileImage.AllLoggedIff` | kernel/log.c:161-182 | all that changed from one state to another is logged if and only if putting the logged blocks, and no others, in place turns every disk that holds the first state into one that holds the second |
| `FileImage.InodeWritten` | kernel/fs.c:210-224 | iupdate() of inode i turns a disk into one that holds that inode and otherwise what it held |
| `FileImage.BitWritten` | kernel/fs.c:59-94 | the bit that balloc() or bfree() changes is that of the block and of no other |
| `FileImage.ReadWriteInode` | kernel/fs.c:210-224 | an inode reads back from its block as it was written, and the other inodes of the block as they were |
| `FileSystem.FileSystem.Balloc` | kernel/fs.c:59-80 | the nested scan finds the first free block, marks and zeroes it, and logs bitmap block and block; 0 exactly if none is free |
| `FileSystem.FileSystem.Bmap` | kernel/fs.c:349-384 | returns the block of the slot, allocating data and indirect block as needed, with the bitmap exact, every changed block and bit logged, a free block taken for each new one, and no byte of any file changed |
| `FileSystem.FileSystem.Itrunc` | kernel/fs.c:388-413 | frees exactly the blocks of the inode, each with its bit still set, so "freeing free block" is not reached; every changed bit and the inode are logged |
| `FileSystem.FileSystem.Writei` | kernel/fs.c:458-486 | fails exactly on the range checks; otherwise bytes off to off+ret equal the source, bytes outside off to off+n are unchanged, the size is max(old, off+ret); it falls short only at a failing copy or a full disk; every change of data, bitmap and inode is logged if and only if the arguments do not tear a block, as in FileLog.TornIff |
| `FileSystem.FileSystem.Readi` | kernel/fs.c:429-452 | returns exactly the bytes of the file, short only at its end when the file has no holes, and then changes nothing |
| `FileSystem.FileSystem.FileWrite` | kernel/file.c:125-148 | every chunk of a write logs fewer than MAXOPBLOCKS blocks before the inode block, and together they log all that changes in data, bitmap and inode but a torn block; the bytes and the size are those of one contiguous write; it falls short only at the range checks, a failing copy or a full disk |
| `Mkfs.RootRounding` | mkfs/mkfs.c:165-170 | rounding the root directory size up leaves no hole if and only if the size is not a multiple of BSIZE |
| `Mkfs.RootOf64` | mkfs/mkfs.c:165-170 | a root directory of 64 entries gets a hole |
| `Mkfs.ExactIsWhole` | mkfs/mkfs.c:255-296 | an image whose files have exactly the blocks below their sizes has no holes, as FileWrite asks for |
| `Mkfs.Image.IAppend` | mkfs/mkfs.c:255-296 | appends the bytes at the end of the file, with the image's blocks exactly those below the file sizes and owned once, and takes exactly the blocks that the bytes and the indirect block need |
| `Mkfs.Image.constructor` | mkfs/mkfs.c:93-112 | the empty image satisfies the file-system invariant |
| `Links.NamedHasLink` | kernel/sysfile.c:157-204 | an inode that an entry of a linked directory names has nlink at least 1, so the panic of sys_unlink() is not reached |
| `Links.LinkedIffCounted` | kernel/sysfile.c:207-258 | adding an entry makes the link count right if and only if the directory is still linked; the code does not check that |
| `Links.LinkDoneIff` | kernel/sysfile.c:100-130 | sys_link() keeps nlink equal to the number of counted entries plus links under way for all inodes, and the directory structure, if and only if the directory it adds to is linked |
| `Links.LinkInRemoved` | kernel/sysfile.c:122-128 | a concrete state in which a link into a removed directory leaves a file with nlink 1 that no linked directory names |
| `Links.NewDirIff` | kernel/sysfile.c:207-258 | making a directory keeps the invariant if and only if the directory it is made in is linked |
| `Links.RelinkInv` | kernel/sysfile.c:132-143 | raising nlink first, and taking it back at label bad, keeps it too |
| `Links.EmptyDirLinks` | kernel/sysfile.c:146-183 | an empty directory has exactly one link, its parent at least two |
| `Links.UnlinkDirInv` | kernel/sysfile.c:157-204 | removing an empty directory, with dp->nlink-- for its "..", keeps all link counts and the directory structure |
| `Links.UnlinkFileInv` | kernel/sysfile.c:157-204 | removing a file's entry keeps all link counts |
| `Links.NewDirInv` | kernel/sysfile.c:207-258 | making a directory, with dp->nlink++ for its "..", keeps all link counts and the directory structure |
| `Links.ReclaimedInv` | kernel/fs.c:307-331 | freeing an inode without links leaves no entry of a linked directory that names it |
| `Links.ResolvesOnce` | kernel/fs.c:494-538 | a name in a directory leads to one inode only, also in a removed directory |
| `Links.FirstTreeInv` | mkfs/mkfs.c:114-128 | the tree mkfs starts from satisfies the invariant |
| `SysFile.Directories.DirLookup` | kernel/fs.c:494-512 | finds an entry with that name up to DIRSIZ characters, or none exactly if there is none |
| `SysFile.Directories.LinkBegin` | kernel/sysfile.c:100-120 | fails exactly on directories; otherwise one link is under way |
| `SysFile.Directories.LinkEnd` | kernel/sysfile.c:122-143 | succeeds exactly if the name is not there and there is room; adds exactly that name, or undoes the link count; all counts are right afterwards if and only if it failed or the directory is linked |
| `SysFile.Directories.Unlink` | kernel/sysfile.c:157-204 | succeeds exactly if the name is there, is not a dot name and names a file or an empty directory; then removes exactly that name and keeps all link counts; otherwise changes nothing |
| `SysFile.Directories.Create` | kernel/sysfile.c:207-258 | returns an inode exactly if the name is a file that may be opened, or is new and there are a free inode and room; adds exactly one name for a new inode with nlink 1, or on every failure leaves everything as it was; the invariant holds afterwards if and only if nothing was made in a removed directory |
| `SysFile.Directories.Iput` | kernel/fs.c:307-331 | the last reference to an inode without links frees it |
| `PageTable.IndicesArePlace` | kernel/riscv.h:256-266 | below MAXVA the three 9-bit indices identify a page uniquely, and every index triple is some page's |
| `PageTable.AddTableKeepsLeaf` | kernel/vm.c:77-91 | adding a page-table page changes no translation in any address space |
| `PageTable.SetLeafMaps` | kernel/vm.c:122-143 | writing the entry walk() found maps exactly that page |
| `PageTable.ClearLeafUnmaps` | kernel/vm.c:148-164 | clearing it unmaps exactly that page |
| `PageTable.PagesFit` | kernel/vm.c:191-212 | an address space cannot have more pages than there are frames |
| `PageTable.GrownUndone` | kernel/vm.c:191-212 | growing and then deallocating the new pages restores every translation and page of every address space |
| `PageTable.DeallocIff` | kernel/vm.c:214-227 | for a process with n pages, uvmdealloc() does not panic if and only if oldsz takes at most n pages or gives up none |
| `PageTable.DeallocTooFar` | kernel/vm.c:214-227 | uvmdealloc(pagetable, 1, 0) on a new address space panics |
| `PageTable.ReleasedAll` | kernel/vm.c:231-252 | unmapping all pages and freeing all tables frees every frame of the address space and changes no other |
| `UserMemory.Kernel.Walk` | kernel/vm.c:77-91 | finds the entry of a page; with alloc it changes no translation and loses no frame |
| `UserMemory.Kernel.constructor` | kernel/kalloc.c:26-35 | kinit() puts every frame on the free list once |
| `UserMemory.Kernel.MapPages` | kernel/vm.c:122-143 | maps exactly the requested pages; when memory runs out, exactly a prefix of them |
| `UserMemory.Kernel.UvmUnmap` | kernel/vm.c:148-164 | panics exactly if one of the pages is not mapped, with those before it unmapped; otherwise unmaps exactly the requested pages and frees each frame once |
| `UserMemory.Kernel.UvmAlloc` | kernel/vm.c:191-212 | grows by pages whose every byte is zero, readable by the user, and writable or executable as xperm says, or on any failure restores every translation; every other byte of every address space is as before; no frame is lost; three free frames for each new page are enough to succeed |
| `UserMemory.Kernel.UvmDealloc` | kernel/vm.c:218-227 | panics exactly if a page between the two sizes is not mapped; otherwise removes exactly the pages beyond the new size |
| `UserMemory.Kernel.UvmCopy` | kernel/vm.c:260-283 | every byte of the child up to the size is that of the parent with the same access, in fresh frames, or nothing is mapped; every other byte of every address space is as before; three free frames for each page are enough to succeed |
| `UserMemory.Kernel.Freewalk` | kernel/vm.c:231-245 | frees every table below and including the given one, never meets a leaf, and touches nothing else |
| `UserMemory.Kernel.UvmFree` | kernel/vm.c:249-252 | returns every frame of the address space to the free list once and leaves the others as they were |
| `UserMemory.Kernel.UvmCreate` | kernel/vm.c:168-174 | a new empty address space, or failure exactly if no frame is free |
| `UserMemory.Kernel.CopyOut` | kernel/vm.c:298-317 | succeeds exactly if every byte lies on a user-writable page; stores the bytes up to the first that does not and changes no other byte of any address space |
| `UserMemory.Kernel.CopyIn` | kernel/vm.c:322-338 | succeeds exactly if every byte lies on a user page; returns the bytes up to the first that does not |
| `UserBytes.StoreChunk` | kernel/vm.c:298-317 | storing up to a page boundary changes exactly those bytes, since no frame is mapped twice |
| `UserBytes.CopyRoundTrip` | kernel/vm.c:298-338 | a successful copyout() followed by copyin() at the same address succeeds and returns the same bytes, whatever page boundaries are crossed |
| `UserBytes.CopyFrame` | kernel/vm.c:298-338 | what copyin() returns from elsewhere, or in another address space, is not affected by copyout() |
| `VirtioRing.AtMostTwo` | kernel/virtio_disk.c:182-191 | at most two requests are outstanding |
| `VirtioRing.Wraps` | kernel/virtio_disk.c:243-300 | 16-bit ring indices select the slots of, and tell apart, the unbounded counts |
| `VirtioRing.SubmitInv` | kernel/virtio_disk.c:193-258 | a new request keeps the partition of the descriptors and overwrites no ring entry that is still needed |
| `VirtioRing.ReportInv` | kernel/virtio_disk.c:270-300 | a completion, in any order, overwrites no used-ring entry the handler has not seen |
| `VirtioRing.ReleaseInv` | kernel/virtio_disk.c:168-180 | freeing a finished chain keeps the partition of the descriptors |
| `VirtioDisk.Disk.constructor` | kernel/virtio_disk.c:61-140 | after virtio_disk_init() all descriptors are free, no request has been made and the invariant holds |
| `VirtioDisk.Disk.Start` | kernel/virtio_disk.c:193-258 | publishes one new request, or takes nothing when fewer than three descriptors are free |
| `VirtioDisk.Disk.Interrupt` | kernel/virtio_disk.c:270-300 | handles reports until none is left, across index wraparound, and panics exactly at a report of a status other than 0 |
| `VirtioDisk.Disk.Finish` | kernel/virtio_disk.c:260-268 | virtio_disk_rw() returns only after the device completed that very request with status 0; the chain is freed without reaching a panic |
| `UserHeap.AllFreeIsOneBlock` | user/umalloc.c:24-41 | when everything is free and the arena contiguous, the free list is one block: freeing coalesces fully |
| `UserHeap.FreeKeepsRing` | user/umalloc.c:24-41 | free() keeps the list circular and address-ordered with one wrap, its blocks never touching |
| `UserHeap.FreeKeepsTiles` | user/umalloc.c:24-41 | free() keeps every unit of the arena in exactly one free or live block |
| `UserHeap.TilesDisjoint` | user/umalloc.c:24-80 | two different blocks never overlap |
| `UserHeap.Heap.FindPlace` | user/umalloc.c:28-30 | free()'s search loop terminates at the two free blocks around the freed one |
| `UserHeap.Heap.Free` | user/umalloc.c:24-41 | the block becomes free, merged with its neighbours; all other live blocks are untouched |
| `UserHeap.Heap.FindFit` | user/umalloc.c:66-79 | malloc()'s scan goes around the ring at most once and finds a block that is large enough if there is one |
| `UserHeap.Heap.Malloc` | user/umalloc.c:56-80 | returns a live block of the smallest number of units that holds the bytes, in units that were free; calls morecore() exactly if no free block is large enough, and fails exactly if that fails |
| `Pipe.Counters` | kernel/pipe.c:67-114 | the 32-bit counters select the same bytes and detect full and empty like unbounded ones |
| `Pipe.Pipe.Write` | kernel/pipe.c:67-91 | accepts the next bytes of the source until done, full or a bad address, or fails exactly if the read end is closed or the process killed; never exceeds PIPESIZE |
| `Pipe.Pipe.Read` | kernel/pipe.c:93-114 | delivers the next accepted bytes in order; exactly when copyout() fails one byte more is taken and lost |
| `Pipe.LostByte` | kernel/pipe.c:93-114 | one byte written and read to a bad address: nobody gets it and the pipe is empty |
| `Grep.MatchHere` | user/grep.c:77-83 | true exactly if a prefix of the text is in the language of the pattern (all of it with a trailing $) |
| `Grep.MatchStar` | user/grep.c:86-91 | true exactly if some run of fitting characters is followed by a match |
| `Grep.Match` | user/grep.c:68-74 | agrees with the meaning of the pattern for all patterns and texts |
| `Grep.StarPattern` | user/grep.c:77-91 | a starred character means any number of fitting characters |
| `Grep.StopsOnce` | user/grep.c:11-33 | the place where grep stops reading lines is determined by the input alone |
| `Grep.Grep` | user/grep.c:11-33 | for NUL-free input the output is that of the matching lines up to that place, however read() splits the input; all lines if each fits in 1023 bytes |
| `Grep.PrintsAllIff` | user/grep.c:11-33 | grep prints every line that matches if and only if none does from that place on, the unfinished last line included |
| `Grep.LastLineDropped` | user/grep.c:11-33 | the pattern a and a file that is the letter a without a newline: nothing is printed |
| `ShellGrammar.RoundTrip` | user/sh.c:290-390 | on tokens, parsing the fully parenthesised printing of any command with at most 9 arguments per exec gives the command back |
| `ShellGrammar.ExecBack` | user/sh.c:365-390 | the loop of parseexec() collects the arguments and puts the redirections around the command |
| `ShellGrammar.BlockBack` | user/sh.c:353-363 | parseblock() gives back a parenthesised command with its redirections |
| `ShellWords.LineMap` | user/sh.c:305-390 | the parser commutes with any change of words, and every word of its result is a word of its input |
| `ShellDerivation.ParsesIff` | user/sh.c:305-390 | for all tokens, the parser gives a command and uses up the line if and only if the line is derived as that command in the grammar, which does not mention the parser |
| `ShellDerivation.Unambiguous` | user/sh.c:305-390 | a line stands for at most one command |
| `Shell.LexIff` | user/sh.c:238-274 | gettoken() reads exactly the tokens that the text consists of, each as long as it can be, with any white space around them |
| `Shell.Parser.GetToken` | user/sh.c:238-274 | the next token of the line, the cursor moved behind it |
| `Shell.Parser.ParseRedirs` | user/sh.c:331-351 | collects all redirections; panics exactly if a file name is missing |
| `Shell.Parser.ParseLine` | user/sh.c:305-318 | agrees with the grammar on the tokens from the cursor on, and terminates |
| `Shell.Parser.ParseExec` | user/sh.c:365-390 | agrees with the grammar, including the panics |
| `Shell.Parser.NulTerminate` | user/sh.c:393-433 | clears exactly the characters after the words of the command |
| `Shell.Parser.ParseCmd` | user/sh.c:290-303 | returns a command exactly if the line, as tokens, stands for it in the grammar, else panics; afterwards every argument and file name is, as a C string, exactly its word |
| `Shell.StringsAreWords` | user/sh.c:393-433 | no terminator lands inside another word, for every line |
| `Shell.TextRoundTrip` | user/sh.c:238-390 | for every command of printable words, parsing its printed text gives the command back |

## Left out

- Boot, traps, assembly, device registers, console, UART, printf, exec's ELF loading and system-call argument fetching: hardware or glue.
- Fences and weak memory; the acquire loop of a spin lock, which is one step once the lock is free.
- Path names (skipelem, namex), the inode table (iget, reference counts), file descriptors, copyinstr: they would add easier members only.
- RedoLog.CrashAtomicity: torn block writes are not modelled, since the code relies on atomic ones.
- UserMemory.Kernel.UvmAlloc: after a failure, page-table pages made on the way stay in the tree, as in the code; they are counted but not given back until uvmfree(). How many tables a growth needs is bounded by two for each page, not counted exactly.
- BufferCache.Cache.Load: nothing is claimed for block 0 of device 0, which can have several buffers.
- FileSystem.FileSystem.Itrunc: how many bitmap blocks it logs is not bounded.
- FileSystem.FileSystem.Writei: the inode in memory and the one on disk are one; iupdate() is the logging of the inode block.
- ProcTree.NoParentSleepsOnZombie: wakeup's loop over the table is one step here; the loop itself is in Scheduling.
- VirtioDisk.Disk.Finish: what the device transfers is not modelled, only that it has completed the request.
- SysFile.Directories.Iput: the reference count of the inode table is a parameter.
- SysFile.Directories.Create: directory contents are entries, not bytes; whether a directory can grow is a parameter.
- Shell.Parser.ParseExec: the exec command that parseexec() fills in while it is already inside redirections is built at the end.
- Grep.Grep: the buffer is a sequence, so memmove() is a slice.
