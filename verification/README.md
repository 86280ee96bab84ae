# A verified model of the xv6 kernel and its user library

This project models the hard parts of xv6 for RISC-V in Dafny and proves what
they promise. Code that updates things in place is a class whose methods follow
the C code's loops and assignments; concurrent protocols are step systems over
which theorems quantify all runs.

| module | what it models |
|---|---|
| `Fold` | a marker that keeps a definition folded in a proof until it is needed |
| `Base` | constants and the arithmetic of wrapping counters that several modules share |
| `Log`, `LogDevice` | the write-ahead log: crash atomicity over every run; the code of log.c as a refinement of the step system |
| `Bits` | bytes, bits and little-endian words of a disk block |
| `Fs`, `FsImage`, `FsTrunc`, `FsCode` | bitmap, block map, readi, writei, itrunc and filewrite over a disk image |
| `FsDisk`, `FsCrash` | the file system as blocks of the log, and its system calls on a machine that may lose power at any step |
| `FsBudget`, `FsMake` | how many blocks a write logs, to the block; images, among them one for the worst write |
| `Vm`, `VmSpace`, `VmOps`, `VmCopy`, `VmFree`, `VmCode` | Sv39 page tables over a pool of physical pages, from walk to fork, sbrk, copyin and uvmfree |
| `VmWorld`, `VmRun` | many processes over one pool: any run of their operations, with pages allocated lazily or eagerly |
| `Proc` | sleep, wakeup, the scheduler, fork, exit, wait and kill |
| `Umalloc` | the Kernighan and Ritchie allocator |
| `Links` | link counts under link, unlink, create and iput |
| `Bio` | the buffer cache |
| `Pipe`, `Virtio` | the two rings with wrapping counters |
| `Shell`, `ShellGrammar`, `ShellCode` | the shell's scanner and parser against the grammar they read |
| `Grep` | the pattern matcher against what a pattern means |

Conventions:

* A panic of the C code that no caller may provoke is a `requires` (an unaligned
  mappages), and one that can be reached is a result (`panic`: a walk beyond
  MAXVA, a remapped page; `halted`: a full log); the point of many contracts is
  that a panic is unreachable ("freeing free block", "freewalk: leaf",
  "free_desc 2", "unlink: nlink < 1").
* Ghost state is history or an inverse map: which slot owns a disk block, what a
  physical page is used for, which block a heap unit belongs to. Invariants say
  that the inverse agrees with the real data, so no two owners can share.
* Memory that the environment decides (whether a user copy succeeds, whether
  sbrk has more, whether a process is killed) comes in as a parameter.
* A step of a step system that is not enabled leaves the state alone, so every
  sequence of steps is a run.

Where the code does not do what its comments or its callers would like:

* `log_write` tests for a full log before it looks for the block in the log.
  Three calls with ten distinct blocks each fill the log, and logging one of
  those blocks again panics although nothing would be appended
  (`Log.DistinctBudgetCanPanic`). `Log.PanicExactlyWhenFull` says when it
  happens, and `Log.NoPanicWithFewCalls` that it does not when log_write calls,
  not distinct blocks, are counted.
* `copyinstr` does not call `vmfault`, so a string in a page that sbrk granted
  lazily is refused. `VmCode.Machine.Copyinstr` says that it reads exactly the
  strings that the page table alone shows, `VmCopy.StringIfPresent` that these
  are the strings the process sees whose pages are all present, and
  `VmWorld.LazyStringRefused` gives a memory where the process sees an empty
  string and copyinstr finds none.
* `sbrk` takes an `int`, so `malloc` of more than 2^31 - 32 bytes asks it for the
  wrong amount (`Umalloc.SbrkArgWhole`, `Umalloc.SbrkArgWraps`); the model of
  malloc reports such a request and stops there.
* A full chunk of filewrite that is not block-aligned need not log ten blocks:
  `FsBudget.ChunkCostsTen` says exactly which writes do.
* `growproc` and lazy `sys_sbrk` do not check the new size against TRAPFRAME. Lazy
  sbrk takes any size below 2^64 (`VmCode.Machine.Sbrk`), so a process can be
  larger than MAXVA, and then a copyin there panics in walk
  (`VmCode.Machine.OutgrowAndPanic`). `Vmfault` and `Copyin` panic exactly for an
  address below sz and past MAXVA, `Uvmfree` and `ProcFreepagetable` exactly for
  a size past MAXVA, and `Copyout`, which tests for MAXVA, never. Eager growth
  into the trapframe or past it panics, unless memory runs out before
  (`VmCode.Machine.Uvmalloc`, `Growproc`).
* `sbrk` of a negative amount larger than the process wraps round and does
  nothing (`VmCode.Machine.Growproc`).

## Model

| member | source | states |
|---|---|---|
| `Log.HeadRoundTrip` | kernel/log.c:88-115 | read_head finds exactly the list that write_head wrote, whatever was in the header block before |
| `Log.ApplyKeeps` | kernel/log.c:66-236 | every step of every call, commit, crash and recovery keeps the log invariant |
| `Log.RunInv` | kernel/log.c:66-236 | the invariant holds after any sequence of steps and crashes |
| `Log.InstalledIs` | kernel/log.c:66-84 | installing a good log gives the wanted blocks however much of it was installed before a crash |
| `Log.CrashAtomicity` | kernel/log.c:66-124 | at any crash point of any run, recovery leaves the home blocks as after a whole number of commit groups, all committed ones included |
| `Log.Durability` | kernel/log.c:117-204 | whatever steps and crashes follow, recovery of the disk gives the contents that were durable before with the later committed groups replayed over them; no group is lost |
| `Log.CommitPoint` | kernel/log.c:194-204 | what recovery would leave on the disk is the same before and after any step but the write_head of commit, and after that one it is all that the calls have written |
| `Log.RecoveryRestores` | kernel/log.c:117-124 | a crash and one uninterrupted recovery reach a running system whose disk and cache both hold the committed contents |
| `Log.LogReservation` | kernel/log.c:127-236 | over every run logged numbers are distinct and no call is outstanding during a commit; if every call keeps to its budget, logged blocks plus unspent budgets fit in the log |
| `Log.PanicExactlyWhenFull` | kernel/log.c:215-236 | log_write panics exactly when the log holds LOGBLOCKS blocks, and for a call within its budget that is only for a block the log already holds |
| `Log.NoPanicWithFewCalls` | kernel/log.c:127-236 | if every call makes at most MAXOPBLOCKS log_write calls, no run panics |
| `Log.DistinctBudgetCanPanic` | kernel/log.c:215-236 | a run of three calls within their distinct-block budget that does panic |
| `Log.SystemCallsAtomic` | kernel/log.c:127-236 | over every run, the log_writes of one call are all in one committed group or none of them is in any; those of a call under way are all pending |
| `LogDevice.Device.constructor` | kernel/log.c:53-63 | a fresh device is a state that some run of the step system reaches |
| `LogDevice.Device.WriteHead` | kernel/log.c:104-115 | one write of the header block, which decodes to the list in memory |
| `LogDevice.Device.ReadHead` | kernel/log.c:87-98 | copies as many numbers as the header counts, and they are the list on disk |
| `LogDevice.Device.InstallTrans` | kernel/log.c:66-84 | copies log blocks home one write at a time, each a step of the step system |
| `LogDevice.Device.WriteLog` | kernel/log.c:179-192 | copies cached blocks to the log one write at a time, each a step of the step system |
| `LogDevice.Device.CommitHead` | kernel/log.c:194-198 | the header write of commit is the commit step |
| `LogDevice.Device.EraseHead` | kernel/log.c:117-124 | the header write with an empty list ends a commit or a recovery and commits nothing |
| `LogDevice.Device.Commit` | kernel/log.c:194-204 | write_log, write_head, install_trans and the erasing write_head, in that order, as steps |
| `LogDevice.Device.RecoverFromLog` | kernel/log.c:117-124 | recovery is a run of the step system that leaves an empty log |
| `LogDevice.Device.BeginOp` | kernel/log.c:127-143 | admits a call exactly when there is no commit and room for one more budget |
| `LogDevice.Device.LogWrite` | kernel/log.c:215-236 | absorbs or appends, or panics exactly on a full log, as the step does; any call, within its budget or not |
| `LogDevice.Device.EndOp` | kernel/log.c:147-176 | the last call out commits, and the state reached is that of a run |
| `LogDevice.Device.Crash` | kernel/log.c:53-63 | losing power is a step that leaves the disk and nothing else |
| `LogDevice.Device.CommitCut` | kernel/log.c:179-204 | commit cut short after any number of its bwrites, and recovery: the home blocks have the whole group if its header was written, and nothing of it otherwise |
| `LogDevice.Device.EndOpCut` | kernel/log.c:147-204 | the same from the end_op that commits |
| `FsCode.FileSystem.Balloc` | kernel/fs.c:66-89 | the first free block, marked and zeroed, or 0 exactly when none is free; no other bit or block changes |
| `FsCode.FileSystem.Bfree` | kernel/fs.c:92-106 | clears the bit of an owned block; "freeing free block" is not reached |
| `FsCode.FileSystem.Bmap` | kernel/fs.c:405-444 | the block of file block bn, allocating at most data and indirect block; every other slot of every file and every file's bytes are kept |
| `FsCode.FileSystem.Readi` | kernel/fs.c:494-519 | exactly the requested bytes of the file clipped to its size, with nothing allocated |
| `FsCode.FileSystem.Writei` | kernel/fs.c:528-562 | a result of n replaces exactly bytes off..off+n and extends the size to match; no other file changes; no holes; one owner per block, short writes included; only logged blocks change, and a whole write logs exactly `ExactCost` of them |
| `FsCode.FileSystem.Itrunc` | kernel/fs.c:449-476 | the file is empty, exactly its blocks are free again, and no other file changes; only logged blocks change, the inode block and bitmap blocks |
| `FsCode.FileSystem.WriteChunk` | kernel/file.c:156-163 | one transaction of filewrite logs at most MAXOPBLOCKS distinct blocks, and a whole one exactly that many if and only if it meets `Worst`; it stops short only past the end or the largest size, on a full disk or at a failed copy; no block changes that is not logged |
| `FsCode.FileSystem.FileWrite` | kernel/file.c:148-173 | chunk by chunk the file's bytes become the old ones with what was written spliced in; every chunk keeps its budget; it returns -1 only for a refused place, a full disk or the failed copy at which it stopped, and always for a refused place |
| `FsCode.FileSystem.Truncate` | kernel/sysfile.c:363-368 | the transaction of a truncating open: no block changes that is not logged, and it logs no more than the bitmap blocks and one |
| `FsBudget.ChunkCostsTen` | kernel/file.c:149-159 | the blocks that a write of at most a chunk logs are at most ten, and ten exactly when it starts inside block 9, 10 or 11, counting from 0, of a file with nothing after it, spans four blocks, needs the indirect block, and its four new blocks lie under four different bitmap blocks |
| `FsMake.TenReached` | kernel/file.c:149-159 | a good image and an offset where a full chunk logs ten |
| `FsImage.GoodIsTidy` | kernel/fs.c:66-106 | an image has an owner map that makes it good exactly when no two slots of any inodes hold the same block, a bit is set exactly for metadata and for blocks in a slot, and every block below a file's size is mapped |
| `FsMake.EmptyGood` | kernel/fs.h:8-23 | a disk with the bits of its metadata set and no files is good, for every super block |
| `FsCode.FileSystem.constructor` | kernel/fs.h:8-23 | such a file system, where every file is empty |
| `FsTrunc.TruncDone` | kernel/fs.c:449-476 | when itrunc's loops have been through all slots, exactly the blocks of the file have lost their owner |
| `FsDisk.InodeBack` | kernel/fs.c:226-243 | an inode read from the disk is the one that iupdate wrote there, size and block numbers |
| `FsDisk.DiskHolds` | kernel/fs.c:226-243 | the inodes and all blocks from the bitmap on can be read back from the disk of a good file system |
| `FsDisk.HoldsGood` | kernel/fs.c:294-320 | a disk from which a good file system can be read is one, with the same files |
| `FsCrash.UnloggedSame` | kernel/log.c:215-236 | a block that a call does not log is the same on disk, inode blocks included |
| `FsCrash.Journal.constructor` | kernel/fs.h:8-23 | an empty file system on a disk with an empty log |
| `FsCrash.Journal.Write` | kernel/file.c:156-163 | a chunk of filewrite between begin_op and end_op: one more moment of history, with the bytes spliced in, unless writei refuses it |
| `FsCrash.Journal.Truncate` | kernel/sysfile.c:363-368 | a truncating open between begin_op and end_op: one more moment of history |
| `FsCrash.Journal.CrashConsistent` | kernel/log.c:66-204 | wherever power fails in any sequence of such calls, and however often recovery itself is cut short, recovery leaves a good file system on the disk, with the files as after a whole number of calls, and after all of them if all had returned |
| `Vm.LeafStoreEntry` | kernel/vm.c:96-115 | a store in a level-0 table changes the entry of exactly one virtual page of one tree |
| `Vm.AddSane` | kernel/vm.c:103-113 | a new table below an empty entry keeps all trees apart and changes no leaf entry of any tree |
| `Vm.SetLeafSane` | kernel/vm.c:161-173 | mapping a page keeps the invariant that each page has one owner |
| `Vm.ClearLeafSane` | kernel/vm.c:201-211 | unmapping a page keeps it, and the page is the caller's again |
| `Vm.NewRootSane` | kernel/vm.c:176-187 | a new root is a tree of its own |
| `VmSpace.NearHolds` | kernel/vm.c:96-240 | an operation that hands no page over leaves the caller holding exactly the pages it held: none leaks, and none that was free is lost |
| `VmCode.Machine.constructor` | kernel/kalloc.c:27-43 | after kinit every page of the range is free, once |
| `VmCode.Machine.Kalloc` | kernel/kalloc.c:68-82 | the head of the free list, or 0 exactly when it is empty |
| `VmCode.Machine.Kfree` | kernel/kalloc.c:46-63 | the page is the head of the free list |
| `VmCode.Machine.Walk` | kernel/vm.c:96-115 | the leaf table of va; with alloc it fails only with at most one page free; no leaf entry of any tree changes, and a free page is still free or a table of this tree |
| `VmCode.Machine.Mappages` | kernel/vm.c:145-174 | maps exactly the pages asked for, in order, and a failure leaves the first of them mapped and the rest as they were; it panics exactly at a page that is past MAXVA or mapped |
| `VmCode.Machine.Uvmunmap` | kernel/vm.c:192-212 | none of the pages is mapped, exactly their memory is freed, or the caller's again without do_free, and no other page or address space changes; it panics exactly for a page past MAXVA |
| `VmCode.Machine.Uvmdealloc` | kernel/vm.c:246-258 | exactly the pages past the new size are gone and free |
| `VmCode.Machine.Uvmalloc` | kernel/vm.c:216-240 | zeroed pages between the sizes, or 0 with the address space as it was and no page lost; it fails only with fewer than three free pages per new page; new pages that run into the fixed pages at the top end in a panic there or in that failure |
| `VmCode.Machine.Walkaddr` | kernel/vm.c:117-138 | the page of va exactly when it is valid and for the user |
| `VmCode.Machine.Ismapped` | kernel/vm.c:475-486 | whether the leaf entry is valid, and a panic exactly past MAXVA |
| `VmCode.Machine.Vmfault` | kernel/vm.c:448-473 | maps a zeroed page below sz, and the process sees no difference; it fails only beyond sz, for a mapped page, or with fewer than three pages free, and panics exactly for an address below sz and past MAXVA |
| `VmCode.Machine.Copyin` | kernel/vm.c:377-403 | the bytes the process sees, up to the first page it may not read or for which memory was short beforehand; it panics exactly if the first address is below sz and past MAXVA |
| `VmCode.Machine.Copyinstr` | kernel/vm.c:405-446 | the string that the page table shows, up to its NUL; it fails exactly when there is none shorter than max |
| `VmCode.Machine.Copyout` | kernel/vm.c:339-375 | what the process sees has the bytes written at dstva and is otherwise the same, up to the first page it may not write or for which memory was short beforehand; at any size and address, without a panic |
| `VmCode.Machine.Uvmcopy` | kernel/vm.c:290-324 | the new tree has a copy of every mapped page below sz; it fails only with fewer than three free pages per page, and then the tree has none of them and no page is lost |
| `VmCode.Machine.Growproc` | kernel/proc.c:236-252 | the size changes and the process sees zeroed pages come or pages go; a failure changes nothing it sees, loses no page and means that memory was short; growth into the fixed pages never succeeds, and panics unless memory is short |
| `VmCode.Machine.Sbrk` | kernel/sysproc.c:39-63 | eager and lazy growth make the same change to what the process sees; lazy growth succeeds exactly up to 2^64; eager growth fails only for lack of memory and panics only into the fixed pages |
| `VmCode.Machine.OutgrowAndPanic` | kernel/sysproc.c:53-60 | any process that calls lazy sbrk often enough is larger than MAXVA with no memory used, and then a copyin from MAXVA panics |
| `VmCode.Machine.Uvmcreate` | kernel/vm.c:176-187 | a tree with no pages, made of one free page |
| `VmCode.Machine.Freewalk` | kernel/vm.c:260-278 | frees exactly the tables at and below a table of a tree with nothing mapped; it never meets a leaf |
| `VmCode.Machine.Uvmfree` | kernel/vm.c:280-288 | every table and page of the address space is free, and every other page of memory is used as before; it panics exactly for a size past MAXVA |
| `VmCode.Machine.ProcFreepagetable` | kernel/proc.c:210-216 | the same for a process's tree with its trampoline and trapframe, at any size |
| `VmOps.FaultUnseen` | kernel/vm.c:448-473 | the page that vmfault maps is the page the process saw there before |
| `VmCopy.ReadBack` | kernel/vm.c:339-403 | copyin of what copyout wrote gives the same bytes, across page boundaries |
| `VmCopy.ForkedView` | kernel/vm.c:290-324 | a child sees what its parent sees, mapped or not, and the parent sees no change |
| `VmCopy.SeenIfPresent` | kernel/vm.c:405-446 | reading the page table alone agrees with what the process sees exactly where all pages are present |
| `VmCopy.StringIfPresent` | kernel/vm.c:405-446 | the strings the page table shows are exactly those the process sees whose pages are all present |
| `VmWorld.LazyStringRefused` | kernel/vm.c:405-446 | a process with one page granted lazily: it sees an empty string at 0, where the page table shows none |
| `VmWorld.SameStep` | kernel/vm.c:290-473 | from worlds whose processes see the same, the same operation returns the same bytes and result and leads to such worlds again |
| `VmWorld.LazyRefinesEager` | kernel/sysproc.c:39-63 | two runs of the same creates, exits, sbrks, faults, copies and forks, each lazy or eager at each step as it likes, read the same bytes, return the same results and look the same throughout |
| `VmWorld.AllFree` | kernel/kalloc.c:46-82 | when no process is left and the caller holds nothing, every page of the pool is on the free list, once |
| `VmRun.Kernel.constructor` | kernel/kalloc.c:27-43 | a kernel without processes over a free pool |
| `VmRun.Kernel.DoCreate` | kernel/vm.c:176-187 | uvmcreate as an operation: a process that sees nothing; it fails only with no page free |
| `VmRun.Kernel.DoExit` | kernel/vm.c:280-288 | uvmfree as an operation: the others see no change |
| `VmRun.Kernel.DoGrow` | kernel/sysproc.c:39-63 | sbrk as an operation, lazy or eager |
| `VmRun.Kernel.DoFault` | kernel/vm.c:448-473 | vmfault as an operation that nobody sees, whether it succeeds or not |
| `VmRun.Kernel.DoCopyIn` | kernel/vm.c:377-403 | copyin as an operation: the bytes the process sees, and nobody sees a change |
| `VmRun.Kernel.DoCopyOut` | kernel/vm.c:339-375 | copyout as an operation: the other processes see no change |
| `VmRun.Kernel.DoFork` | kernel/proc.c:256-272 | uvmcreate and uvmcopy as an operation: a child that sees what its parent sees, or nothing left of it |
| `VmRun.Kernel.Do` | kernel/vm.c:176-473 | any operation keeps all address spaces apart, loses no page, and does what `VmWorld.Does` says unless memory was short |
| `VmRun.Kernel.Run` | kernel/vm.c:176-473 | any sequence of operations, failures included, keeps all address spaces apart and loses no page; it is a run in the sense of `VmWorld.LazyRefinesEager` unless memory was short |
| `VmRun.LazyBesideEager` | kernel/sysproc.c:39-63 | two kernels whose processes see the same run the same operations, one all lazily and one all eagerly: unless memory runs out all results are the same and the processes see the same afterwards |
| `Proc.NextKeeps` | kernel/proc.c:256-627 | every step of every process and CPU keeps the invariant |
| `Proc.RunInv` | kernel/proc.c:256-627 | the invariant holds after every run from boot, for any number of CPUs and slots |
| `Proc.WakeLeavesNone` | kernel/proc.c:570-584 | the slot that wakeup has been through holds no sleeper on its channel, asleep or on its way |
| `Proc.SleepReleases` | kernel/proc.c:539-566 | when sleep releases lk the process counts as asleep, nobody is in a wakeup under lk, and a waiting parent has no zombie among its children |
| `Proc.SleepCommits` | kernel/proc.c:539-566 | when sleep releases lk, no wakeup has passed over the new sleeper and no parent sleeps over a zombie child: the invariants of every two processes are kept |
| `Proc.NoLostWakeup` | kernel/proc.c:539-584 | when wakeup has been through all slots, no process that released the lock to sleep on the channel is still asleep |
| `Proc.NoZombieOverlooked` | kernel/proc.c:323-412 | whenever wait_lock is free, no process sleeps in kwait with a zombie child |
| `Proc.NoChildrenIsTrue` | kernel/proc.c:367-412 | kwait gives up for lack of children only when it has none |
| `Proc.ParentsAlive` | kernel/proc.c:307-363 | a parent is never an unused slot, a process being made, or a zombie |
| `Proc.ParentsKnown` | kernel/proc.c:256-303 | every process but init has a parent from before it runs until it is reaped |
| `Proc.ReapedOnce` | kernel/proc.c:367-412 | no pid is reaped twice, and only exited pids are reaped |
| `Proc.OneCpuEach` | kernel/proc.c:421-460 | no process is on two CPUs, and a RUNNING one is on one |
| `Proc.ReapedIsOff` | kernel/proc.c:379-397 | when kwait frees a zombie no CPU runs it or is still switching away from it |
| `Umalloc.Disjoint` | user/umalloc.c:24-90 | two blocks, free or live, have no unit in common |
| `Umalloc.InsertedValid` | user/umalloc.c:33-43 | linking a block in, with or without joining its neighbours, keeps the list circular, in address order and fully coalesced, and loses no unit |
| `Umalloc.TakenWholeValid` | user/umalloc.c:76-77 | unlinking a block that fits exactly keeps all that |
| `Umalloc.TakenTailValid` | user/umalloc.c:78-82 | so does cutting the tail off a larger block |
| `Umalloc.Allocator.FindSpot` | user/umalloc.c:29-32 | the search ends, at the last free block below the freed one |
| `Umalloc.Allocator.Free` | user/umalloc.c:24-44 | the block is no longer live and every unit still belongs to one block |
| `Umalloc.Allocator.Morecore` | user/umalloc.c:46-61 | what sbrk gave becomes free and is enough |
| `Umalloc.Allocator.Malloc` | user/umalloc.c:63-90 | a block of the right size that belonged to nobody, for every request; sbrk is asked at most once, and only when no free block is large enough; the request it is asked wrongly for is reported |
| `Umalloc.SbrkArgWhole` | user/umalloc.c:51-54 | with the minimum of 4096 units, sbrk is asked for what is needed exactly for requests of at most 2^31 - 32 bytes |
| `Umalloc.SbrkArgWraps` | user/umalloc.c:51-54 | a request for which sbrk is asked for 0 bytes |
| `Links.EmptyRoot` | mkfs/mkfs.c:222-235 | a file system with nothing but an empty root directory meets the invariant |
| `Links.StepInv` | kernel/sysfile.c:123-302 | every step of link, unlink, create and iput keeps nlink at least the names, subdirectories and calls under way |
| `Links.RunInv` | kernel/sysfile.c:123-302 | so does every run |
| `Links.FreedUnnamed` | kernel/fs.c:337-363 | iput frees an inode only when no entry names it and it has no subdirectory |
| `Links.NoDanglingName` | kernel/sysfile.c:188-243 | after any run an entry names an inode in use with nlink at least 1, so unlink does not panic |
| `Links.NamedIsKept` | kernel/fs.c:337-363 | after any run iput leaves a named inode alone |
| `Links.LinksCover` | kernel/sysfile.c:123-302 | after any run nlink is at least the entries that name the inode plus the subdirectories it holds |
| `Bio.Cache.constructor` | kernel/bio.c:36-53 | the list holds every buffer, none with a block |
| `Bio.Cache.Bget` | kernel/bio.c:55-89 | the buffer of the block; on a miss the unreferenced buffer released longest ago; cache and disk together hold the same blocks |
| `Bio.Cache.Bread` | kernel/bio.c:91-103 | a referenced buffer with the contents of the store |
| `Bio.Cache.Change` | kernel/bio.c:91-112 | writing a held buffer changes the store at its block alone |
| `Bio.Cache.Bwrite` | kernel/bio.c:105-112 | the disk gets the block and the store is the same |
| `Bio.Cache.Brelse` | kernel/bio.c:114-137 | the last release makes the buffer the most recent of the list; the list stays a permutation in release order |
| `Bio.Cache.Bpin` | kernel/bio.c:139-144 | one more reference and nothing else |
| `Bio.Cache.Bunpin` | kernel/bio.c:146-151 | one reference less and nothing else; the store is kept, the last reference of a buffer that agrees with the disk included |
| `Bio.Unlinked` | kernel/bio.c:128-129 | the two stores that take a buffer out leave a doubly linked list of the others |
| `Bio.Fronted` | kernel/bio.c:130-133 | the four stores that put it in front give a doubly linked list again |
| `Pipe.Ring.Store` | kernel/pipe.c:94-95 | one more byte written, none in transit overwritten, with counters that wrap |
| `Pipe.Ring.Take` | kernel/pipe.c:122-123 | the next byte written is the next consumed |
| `Pipe.Ring.WriteSection` | kernel/pipe.c:76-103 | stores the bytes in order until full, failed, killed at any byte or done, and says which; full and empty are told apart under wrap-around |
| `Pipe.Ring.ReadSection` | kernel/pipe.c:105-130 | consumes the next bytes in order, so that what is consumed is a prefix of what is written; it sleeps exactly on an empty ring with a writer left, unless killed |
| `Pipe.Ring.Close` | kernel/pipe.c:58-74 | the last close is the one that closes the second end |
| `Virtio.Disk.constructor` | kernel/virtio_disk.c:146-150 | all descriptors are free and nothing is under way |
| `Virtio.Disk.AllocDesc` | kernel/virtio_disk.c:156-166 | the first free descriptor, or -1 exactly when there is none |
| `Virtio.Disk.Alloc3` | kernel/virtio_disk.c:201-213 | three different free descriptors, or none taken exactly if fewer than three are free |
| `Virtio.Disk.Post` | kernel/virtio_disk.c:215-281 | a new chain of three descriptors of its own, posted without overwriting an unconsumed entry, exactly if three are free |
| `Virtio.Disk.DeviceTakes` | kernel/virtio_disk.c:271-281 | the device gets the posted requests in order, under 16-bit wrap-around |
| `Virtio.Disk.DeviceCompletes` | kernel/virtio_disk.c:309-324 | a completed request is added to used without overwriting one not yet seen |
| `Virtio.Disk.IntrTurn` | kernel/virtio_disk.c:312-324 | releases the buffer of the next completed request, which was marked, and no other |
| `Virtio.Disk.Intr` | kernel/virtio_disk.c:294-327 | every completed request is seen, and no other changes |
| `Virtio.Disk.FreeChain` | kernel/virtio_disk.c:185-197 | exactly the three descriptors of the request are free; none was free before |
| `Virtio.Disk.Finish` | kernel/virtio_disk.c:283-292 | after its completion has been seen, the request is gone and its descriptors are nobody's |
| `Shell.PrintSpells` | user/sh.c:271-314 | printed tokens are a spelling of themselves |
| `Shell.SpellsTokens` | user/sh.c:271-314 | a text spells exactly one list of tokens, with any white space between them, and it is the one that scanning finds |
| `ShellGrammar.ParserIsGrammar` | user/sh.c:333-452 | the parser takes a list of tokens as a whole exactly if it is a line of the grammar, redirections standing anywhere among the words, and gives the tree the grammar gives |
| `ShellGrammar.Unambiguous` | user/sh.c:333-452 | a list of tokens means at most one tree |
| `ShellGrammar.PrintedMeans` | user/sh.c:333-452 | every tree with proper words can be written, and its text means it |
| `ShellCode.Parser.GetToken` | user/sh.c:271-314 | the first of the tokens that stand at the cursor, a word being as long as it can be; the others stand there afterwards |
| `ShellCode.Parser.Peek` | user/sh.c:316-326 | whether the next token begins with one of these characters; the tokens are untouched |
| `ShellCode.Parser.ParseRedirs` | user/sh.c:380-403 | reads exactly the redirections that stand at the cursor, and fails exactly when one has no file name |
| `ShellCode.Parser.ParseArgs` | user/sh.c:434-450 | reads exactly the words and redirections, in any order, up to the end of the command; fails exactly for an opening bracket among them, a missing file name or a tenth word |
| `ShellCode.Parser.ParseExec` | user/sh.c:421-452 | accepts exactly what the parser on tokens accepts as a command, with the tree it means and the same tokens left |
| `ShellCode.Parser.ParseBlock` | user/sh.c:405-419 | the same for a command in parentheses, a missing bracket being refused |
| `ShellCode.Parser.ParsePipe` | user/sh.c:367-378 | the same for a pipeline |
| `ShellCode.Parser.ParseLine` | user/sh.c:350-365 | the same for a line |
| `ShellCode.Parser.ParseCmd` | user/sh.c:333-348 | a line is accepted if and only if the grammar has it, and then it is read as the tree it means; every stored word is a whole word of the line |
| `ShellCode.ParsePrinted` | user/sh.c:333-348 | parsing the written form of a tree gives the tree back |
| `ShellCode.Nulterminate` | user/sh.c:455-499 | puts a NUL at the end of every stored word and changes nothing else |
| `ShellCode.StoredWords` | user/sh.c:455-499 | afterwards the C string at every stored word is exactly that word |
| `Grep.Match` | user/grep.c:72-82 | finds a match exactly when some part of the text is a word of the pattern |
| `Grep.Matchhere` | user/grep.c:84-96 | finds a match exactly when some prefix of the text is |
| `Grep.Matchstar` | user/grep.c:98-106 | the same for a starred character followed by a pattern |

## Left out

- Type, device numbers and link count of an inode on disk: `FsDisk` lays out its size and block numbers.
- Calls under way at the same time in `FsCrash`, and the order of their log_writes: a call's blocks are logged as it leaves them. `Log` has all interleavings of calls, without their meaning.
- Truncating a file whose bitmap blocks do not fit in the log budget.
- User copies inside readi and writei succeed or fail before they touch the buffer.
- Directories as file contents: dirlookup, dirlink, skipelem and namex; `Links` takes entries as a map from directory and offset.
- iget, ilock and the inode table: reference counts appear in `Links` only as calls that hold an inode.
- The ".." entry of a directory that is unlinked but still open, whose count unlink has already dropped.
- The order of kfree and the clearing of the page-table entry in uvmunmap: the model clears first.
- proc_pagetable and exec: plumbing over mappages, uvmalloc and copyout. The address spaces of `VmRun` have no trampoline and no trapframe.
- What a process of `VmRun` sees when an operation runs out of memory: the operation is undone or cut short as its own contract says, and no page is lost, but lazy and eager runs may differ from there on.
- vmfault for a page table other than the running process's own.
- VmCode.Machine.Growproc: asks for a size up to TRAPFRAME when it shrinks, because uvmdealloc would free the trapframe and the trampoline of a larger process; nothing is promised about that.
- VmCode.Machine.Sbrk: the same for a negative amount.
- VmCode.Machine.Uvmdealloc: the same.
- VmCode.Machine.Uvmcopy: asks for a size up to TRAPFRAME; fork of a larger process meets the fixed pages of the child.
- Eager growth to within a page of 2^64, where PGROUNDUP wraps round.
- wakeup from an interrupt on a CPU that runs no process; an interrupt in a process's kernel thread is a step of that thread.
- pid numbers are unbounded in `Proc`, and the order in which a scheduler scans the slots is arbitrary.
- Memory, files and the working directory of a process in kfork and kexit.
- VmCode.Machine.Kfree: does not say what the freed page is filled with, because nothing may read it.
- Umalloc.Allocator.Malloc: does not say what becomes of the memory that sbrk grants for a request beyond 2^31 - 32 bytes, because it is not what was needed and the list is no heap afterwards.
- The words of an ExecCmd are collected and put in their node at the end, where the C code fills the node as it goes.
- A disk status other than success, which the driver treats as a panic.
- Delivery of a byte whose copyout fails inside piperead, which is consumed all the same, and whether readers and writers make progress.
- Boot, traps, assembly, UART, PLIC, console, string and print functions, sleep-locks and spinlocks as code, mkfs and the small user programs.
