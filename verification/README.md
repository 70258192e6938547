# xv6 with EEVDF scheduling, mmap and lazy sbrk: a verified model

This project models the hard parts of an xv6-riscv kernel that schedules with EEVDF, shares
mmap pages by reference count and grows the heap lazily, together with the user-level
allocator, shell parser and grep matcher, and proves what they promise.

* **Log and buffer cache.** `LogCore`, `LogMachine` and `LogSpace` treat the write-ahead log as a
  state machine in which any operation may begin, log a block or end between any two disk
  writes, and a crash may come at any moment, also during recovery. `LogRuns` proves that commits
  happen and end, over whole runs. `LogImpl` is the code of `kernel/log.c` with its loops, and
  records every disk a crash could find; `LogKernel` proves that its calls are runs of the
  machine. `BioRing` and `Bio` are the buffer cache with its doubly linked ring.
* **Files.** `FsDisk` is the on-disk layout, `FsVol` the volume with its invariant (every block
  has at most one owner, the bitmap marks exactly the owned blocks, files have no holes), `FsImpl`
  the operations of `kernel/fs.c` and `filewrite`.
* **Memory.** `Kalloc` is the page allocator; `PageTable` and `VmMem` give three-level Sv39 trees
  (section 4.4 of the RISC-V Privileged Architecture, version 20211203) as a flat map together
  with the ownership of every page; `Vm`, `VmUser` and `VmProc` are the page-table operations;
  `VmView`, `VmSys`, `VmMmap`, `VmLife` and `VmFork` put processes on top. There an *image* gives
  every process the page it sees at every address, whether the page is mapped or not.
* **Scheduling and processes.** `Eevdf` has the arithmetic, `EevdfImpl` the process-table loops,
  `EevdfFair` fairness over runs. `SleepWake` and `ExitWait` are protocols whose steps are what
  happens under one acquisition of a lock; `WaitResult` says what wait returns and when it sleeps,
  `ExitProgress` that the locks of exit and wait cannot deadlock.
* **Disk driver.** `Virtio` is the driver against a device that completes in any order (sections
  2.6 and 5.2 of VIRTIO 1.1), `VirtioRun` the life of a request over whole runs.
* **User programs.** `Umalloc` and `UmallocImpl` are the K&R allocator (section 8.7 of *The C
  Programming Language*, second edition), `ShellParse`, `ShellPrint` and `Shell` the shell's
  parser, `ShellGrammar` and `ShellTokens` the grammar and the tokens it is measured against, `Grep`
  the matcher; `Pipe` is the kernel's pipe.

A panic is a halt: a method returns `panicked`, or `Panic`. Disk errors, clocks and the contents
of files that back an mmap area are parameters. Large predicates are kept folded in proofs: they
hold at every `Gate` (or `Latch`, `VmMem.Look`, `VmView.LookView`), and a proof unfolds one by
mentioning it. Those with a first argument `ok` say exactly when a call succeeds. `Common` has what
several models share. The counts and lists of `Kalloc.Kmem` and of `Vm.Memory` follow the same
functions on `Frames`; the memory of page tables is stated over these and not over the class `Kmem`.

Some promises turned out not to hold as they stand, and are stated with the exact condition:

* `log_write` tests for a full log before it looks for the block, so it also panics on a block that
  is already logged (`LogSpace.PanicExactly`, `LogSpace.FullLogPanics`).
* Heap that is given back and grown again reads as zero only beyond the last page that was kept
  (`VmSys.Machine.Regrow`, `VmSys.Machine.RegrowShowsOld`).
* `kmmap` with MAP_POPULATE returns 0 and leaves the area installed exactly when a page of the area
  is mapped already (areas may overlap), a page of the file cannot be read, or there is no memory
  for the pages and their tables (`VmMmap.Kmmap`, `VmMmap.MmapTwice`).
* `mmapfork`, and with it fork, succeeds only when no mapped page is in two areas of the parent, and
  panics only otherwise (`VmFork.Mmapfork`, `VmFork.KforkMemory`, `VmFork.ForkAfterTwice`).

## Model

| member | source | states |
|---|---|---|
| `LogMachine.CrashAtomicity` | kernel/log.c:66-204 | after any run, a crash, and a recovery with any further crashes in it, the home blocks are the initial ones with exactly the committed groups applied; each operation's writes are all in one group or in none, and acknowledged ones are in one |
| `LogMachine.AcknowledgedSurvives` | kernel/log.c:147-176 | once acknowledged, an operation's writes stay in the same group, and the disk recovers to a history containing it, in every later state across crashes; that every operation which ended is acknowledged is `LogRuns.EndedIsDurable` |
| `LogMachine.RecoveryCommitsNothing` | kernel/log.c:117-124 | recovery and crashes during it add no group |
| `LogMachine.HistoryGrows` | kernel/log.c:147-204 | committed groups only ever get more, in order, and acknowledged operations stay acknowledged |
| `LogMachine.EndedWritesNothing` | kernel/log.c:147-176 | an operation that ended logs nothing afterwards |
| `LogMachine.ReadsSeeAllWrites` | kernel/log.c:215-236 | outside recovery, reads through the pinned buffers give all committed groups and the open one applied |
| `LogMachine.StepInv` | kernel/log.c:66-236 | every step of every operation, of commit, of recovery and every crash keeps disk, lock and history invariant |
| `LogMachine.RunInv` | kernel/log.c:66-236 | so the invariant holds in every state of every run |
| `LogRuns.NothingLeft` | kernel/log.c:147-176 | in every state of every run without an operation or a commit under way the list is empty, no ended operation waits, the home blocks are the committed ones and the next operation is admitted |
| `LogRuns.EndedIsDurable` | kernel/log.c:147-176 | after an operation's end_op, without a crash since, it waits for a commit that is due or is acknowledged; once nothing is under way it is acknowledged and all its writes are in a group |
| `LogRuns.IssuedIsLogged` | kernel/log.c:215-236 | the writes that the history records for an operation are the ones it made, in order |
| `LogRuns.CommitEnds` | kernel/log.c:194-204 | a commit in any reachable state ends after exactly the disk writes it has left: what was logged is then a group and every ended operation is acknowledged |
| `LogRuns.RecoveryEnds` | kernel/log.c:117-124 | so does a recovery: the home blocks are then the committed ones and the header is empty |
| `LogCore.InstallAgree` | kernel/log.c:66-84 | installing again repairs any partial install: home areas that agree outside the list become equal |
| `LogCore.StepKeepsInv` | kernel/log.c:66-204 | at every disk write of commit and recovery the disk recovers to the old contents before the header write and to the new ones after it |
| `LogSpace.NoPanic` | kernel/log.c:127-176 | if every operation adds fewer than MAXOPBLOCKS block numbers, no panic of the log is reachable, the header never overflows, its numbers are distinct, and committing means nothing is outstanding |
| `LogSpace.PanicExactly` | kernel/log.c:215-236 | with the full allowance, log_write panics exactly when the header is full, and then on a block already in it |
| `LogSpace.FullLogPanics` | kernel/log.c:215-236 | a run within the full allowance in which it does panic |
| `LogImpl.Log.WriteLog` | kernel/log.c:179-192 | its writes are the log-copy steps of the machine, home blocks untouched |
| `LogImpl.Log.InstallTrans` | kernel/log.c:66-84 | its writes are the install steps, unpinning only on commit |
| `LogImpl.Log.WriteHead` | kernel/log.c:103-115 | one disk write that makes the header list exactly the logged numbers |
| `LogImpl.Log.ReadHead` | kernel/log.c:87-98 | the list in memory is the one in the header |
| `LogImpl.Log.Commit` | kernel/log.c:194-204 | 2n+2 disk writes; a crash at one of the first n finds the old contents, at any later one the new; on return the new contents are home |
| `LogImpl.Log.RecoverFromLog` | kernel/log.c:117-124 | every disk on the way recovers to the same contents, which are home at the end |
| `LogImpl.Log.LogWrite` | kernel/log.c:215-236 | panics exactly on a full header or outside a transaction; otherwise the number is listed once and the buffer pinned |
| `LogImpl.Log.BeginOp` | kernel/log.c:127-143 | admits exactly when no commit runs and the log has room for one more full operation |
| `LogImpl.Log.EndOp` | kernel/log.c:147-176 | the last one out commits, with commit's crash guarantee, its disk writes being the commit steps of the machine, and committing is clear again; others change nothing on disk |
| `LogKernel.Kernel.constructor` | kernel/log.c:53-64 | boot on an empty log is a run of the machine |
| `LogKernel.Kernel.BeginOp` | kernel/log.c:127-143 | the code admits an operation exactly when the machine does, and is where the machine is |
| `LogKernel.Kernel.LogWrite` | kernel/log.c:215-236 | the code panics exactly when the machine does, else it is where the machine is |
| `LogKernel.Kernel.EndOp` | kernel/log.c:147-176 | the last end_op is the machine's end of the operation, a whole commit and its finish: the operation is acknowledged and the committed groups are home on disk; any other one only ends; no panic |
| `LogKernel.Kernel.CrashAndBoot` | kernel/log.c:53-124 | a crash and the recovery of the code are a crash and the recovery steps of the machine: no group is gained or lost, and the committed ones are home |
| `Bio.Cache.constructor` | kernel/bio.c:36-53 | a valid, empty cache over the device |
| `Bio.Cache.Binit` | kernel/bio.c:36-53 | the ring holds every buffer once, the last one first |
| `Bio.Cache.Bget` | kernel/bio.c:58-89 | the block's only buffer, else the unused buffer nearest the tail; panics exactly when the block is not cached and all are in use |
| `Bio.Cache.Bread` | kernel/bio.c:92-103 | a locked buffer holding the latest contents of the block; buffers in use by others are untouched |
| `Bio.Cache.LockAndFill` | kernel/bio.c:92-103 | whatever happened while waiting for the lock, the buffer then holds the latest contents |
| `Bio.Cache.Bwrite` | kernel/bio.c:106-112 | device and latest contents become the buffer's |
| `Bio.Cache.LogWrite` | kernel/log.c:215-236 | the buffer is pinned and its contents become the latest, without touching the device |
| `Bio.Cache.Bunpin` | kernel/bio.c:146-151 | an installed block's buffer may be recycled again |
| `Bio.Cache.Brelse` | kernel/bio.c:115-137 | the last user moves the buffer to the front of the ring; all contents stay |
| `FsDisk.BitUpdates` | kernel/fs.c:66-106 | setting or clearing one bit of a bitmap block changes that bit only |
| `FsDisk.PutU32At` | kernel/fs.c:405-444 | a block number stored in an indirect block is read back, the others unchanged |
| `FsDisk.InodeRoundTrip` | kernel/fs.c:226-242 | an inode written and read back is the same, its neighbours in the block untouched |
| `FsDisk.InodeLayout` | kernel/fs.h:32-39 | every field of an inode is the little-endian value at its offset in the 64 bytes of its slot |
| `FsImpl.Fs.Balloc` | kernel/fs.c:66-89 | the lowest free block, marked, zeroed and owned by the caller; 0 exactly when every block is marked; no file changes; every block changed since the start of the transaction is logged |
| `FsImpl.Fs.Bfree` | kernel/fs.c:92-106 | panics exactly on a block that is not marked |
| `FsImpl.Fs.Bmap` | kernel/fs.c:405-444 | the block of a file block, allocated if absent; a present one is found without any change; 0 only on a full disk |
| `FsImpl.Fs.Iupdate` | kernel/fs.c:226-242 | the inode on disk is the one in memory, nothing else changes; the changed block is logged |
| `FsImpl.Fs.Itrunc` | kernel/fs.c:448-476 | the file is empty in memory and on disk, exactly its blocks are free, no panic, every other file reads as before; every changed block is logged |
| `FsImpl.Fs.Readi` | kernel/fs.c:494-519 | exactly the requested slice cut off at the end of the file, and nothing on the volume or in the log changes |
| `FsImpl.Fs.Writei` | kernel/fs.c:528-562 | the bytes written are spliced into the contents; -1 exactly for an offset beyond the end or a size beyond the limits; short only on a full disk or unreadable source, and never more than can be read; every other file reads as before; every changed block is logged, and at most 7 blocks are for three blocks of data and one bitmap block |
| `FsImpl.LoggedCount` | kernel/file.c:148-156 | the bound of 7 logged blocks, for any offset |
| `FsImpl.Fs.Filewrite` | kernel/file.c:134-179 | transactions together splice in what the new offset tells, each logging every block it changes and at most 7; -1 unless all was written, and then the offset was beyond the file, the file would be too long, the disk is full or the source unreadable; the volume between any two transactions is valid and has some first part of the bytes |
| `Kalloc.Kmem.constructor` | kernel/kalloc.c:36-52 | every page from the end of the kernel is free, once |
| `Kalloc.Kmem.Kalloc` | kernel/kalloc.c:111-127 | the first free page with one reference; null exactly when none is free |
| `Kalloc.Kmem.KfreeDrop` | kernel/kalloc.c:58-78 | panics exactly on a bad address or an unreferenced page; otherwise one reference less |
| `Kalloc.Kmem.KfreePush` | kernel/kalloc.c:80-88 | the page that lost its last reference is pushed, once |
| `Kalloc.Kmem.Kfree` | kernel/kalloc.c:58-88 | panics exactly on a bad address or an unreferenced page; otherwise a reference less, and the page free exactly when it was the last |
| `Kalloc.AllocFree` | kernel/kalloc.c:58-127 | kfree undoes kalloc: list and counts are as before |
| `Kalloc.Kmem.Kaddref` | kernel/kalloc.c:90-106 | panics exactly on a bad address or an unreferenced page; otherwise one reference more |
| `Kalloc.Kmem.FreememPages` | kernel/kalloc.c:135-147 | the number of free pages |
| `PageTable.PxRoundTrip` | kernel/vm.c:98-128 | the three indices of a page number give it back |
| `VmMem.MapStep` | kernel/vm.c:158-187 | writing a leaf hands the caller's reference to the mapping; the ownership count of every page stays exact |
| `VmMem.UnmapStep` | kernel/vm.c:205-225 | unmapping one page returns its reference, ownership stays exact |
| `Vm.Memory.Walk` | kernel/vm.c:110-128 | changes no translation; without alloc changes nothing and finds the entry exactly when the lowest table is there; with alloc succeeds exactly when there is a free page for each table that is missing, and takes those |
| `Vm.Memory.MapPage` | kernel/vm.c:158-187 | exactly one translation is added, exactly when there is a free page for each missing table |
| `Vm.Memory.Uvmunmap` | kernel/vm.c:205-225 | exactly the translations of the range go, mapped or not |
| `Vm.Memory.PagetableEmpty` | kernel/vm.c:227-235 | true exactly for a table without a valid entry |
| `Vm.Memory.FreeEmptyL0` | kernel/vm.c:250-272 | the lowest table over an address goes exactly when empty |
| `Vm.Memory.FreeEmptyL1` | kernel/vm.c:274-289 | likewise for the middle table |
| `Vm.Memory.FreeEmptyPagetables` | kernel/vm.c:291-307 | no translation changes, and no empty lower table over the range is left, for any start and length |
| `Vm.Memory.Uvmcreate` | kernel/vm.c:191-200 | a new root without translations exactly when a page is free, else no change |
| `Vm.Memory.Freewalk` | kernel/vm.c:357-373 | panics exactly when a leaf is left, else every table of the address space is returned |
| `VmUser.MapNew` | kernel/vm.c:311-335 | one new private page with given contents, exactly when there is memory for it and its missing tables, else no change; the page is not leaked when no table can be had |
| `VmUser.Uvmalloc` | kernel/vm.c:311-335 | zero pages for the whole growth or none; all exactly when there is memory for the pages and the tables over them that are missing |
| `VmUser.Uvmdealloc` | kernel/vm.c:341-353 | exactly the pages between the rounded sizes go |
| `VmUser.Uvmcopy` | kernel/vm.c:391-419 | every present page below the size is copied, absent ones stay absent, exactly when there is memory for the pages and missing tables, which is what it takes; on failure nothing is left behind |
| `VmUser.TablesBoth` | kernel/vm.c:98-128 | pages mapped one set after the other need the tables that they need together |
| `VmProc.ProcPagetable` | kernel/proc.c:237-267 | a space with the two top pages only, exactly with three free pages; else no trace of one |
| `VmProc.Uvmfree` | kernel/vm.c:377-383 | panics exactly when a leaf above the size is left |
| `VmProc.ProcFreepagetable` | kernel/proc.c:271-277 | with leaves in the heap and top pages only, no panic and no table or translation of the space left |
| `VmView.FaultKeepsImage` | kernel/vm.c:866-904 | mapping absent pages with what they counted as changes no process's memory |
| `VmView.NoAreaNoTables` | kernel/vm.c:243-307 | without areas, a process's tables over the mmap zone are the two above the trapframe, and its leaves are heap and top pages |
| `VmSys.Machine.MmapLookup` | kernel/vm.c:568-586 | the first slot of the process that covers the page |
| `VmSys.Machine.MmapMapPage` | kernel/vm.c:673-715 | the page is filled from its backing and mapped readable by the user, writable exactly if the area is and never executable, exactly when it is absent and readable and there is memory for it and its tables; else no translation changes |
| `VmSys.Machine.Vmfault` | kernel/vm.c:866-904 | on success the page is mapped and accessible as asked, with the permissions of its area or read and write in the heap; no process's memory changes either way; succeeds exactly for an absent page of the heap or of a readable area that allows the access, with memory for it and its tables |
| `VmSys.Machine.Growproc` | kernel/proc.c:297-316 | growth changes nobody's memory, adds exactly the new pages, readable and writable by the user, and succeeds exactly below the limit with memory for pages and tables; shrinking clears exactly the pages beyond the new size |
| `VmSys.Machine.SysSbrk` | kernel/sysproc.c:39-65 | lazy and eager growth have the same effect on what processes see; returns the old size; lazy growth maps nothing and fails exactly above the limit, eager growth maps exactly the new pages and fails exactly above it or without memory for pages and tables |
| `VmSys.RegrownByte` | kernel/proc.c:297-316 | after giving pages back, a byte of the old heap is zero if and only if it is beyond the last page kept or was zero before |
| `VmSys.Machine.Regrow` | kernel/sysproc.c:39-65 | sbrk(-n) and sbrk(n), lazy or eager, for any n: every byte of the old heap beyond the last page kept reads as zero, every other as before |
| `VmSys.Machine.RegrowShowsOld` | kernel/sysproc.c:39-65 | two bytes of heap, a 7 copied out to the second, sbrk(-1), sbrk(1): copyin reads the 7 |
| `VmSys.Machine.Copyin` | kernel/vm.c:477-502 | exactly the bytes the process sees, across pages; succeeds exactly when every page of the range is mapped for the user or can be faulted in, and there is memory for the absent ones and their tables; failure stops at such a page; nobody's memory changes |
| `VmSys.Machine.Copyout` | kernel/vm.c:437-472 | exactly the given bytes are written up to where it stops; succeeds exactly when every page of the range is writable or can be faulted in for writing, and there is memory for the absent ones; others see a change only through a page shared at the same address |
| `VmMmap.FreeSlot` | kernel/vm.c:643-659 | the first free slot |
| `VmMmap.Populate` | kernel/vm.c:760-765 | pages come in one by one, in order, up to the first that is mapped already, cannot be read or lacks memory for itself and its tables; all of them exactly when there is no such page |
| `VmMmap.PopulatesAll` | kernel/vm.c:760-765 | stopping at the end of the area is the same as: no page mapped, all readable, and memory for pages and missing tables |
| `VmMmap.Kmmap` | kernel/vm.c:717-768 | refused exactly for the arguments that the checks name or a full table, and then nothing changes; otherwise the lowest free slot holds an area of the caller with the given pages, writable exactly for PROT_WRITE and backed by the given file and offset or by nothing; without MAP_POPULATE no memory changes, with it exactly a prefix is populated, and the area stays when that fails; returns 0 then, exactly when a page is mapped already, cannot be read or lacks memory |
| `VmMmap.StoreMapped` | kernel/vm.c:717-768 | kmmap, copyout of a byte and copyin, anywhere in a new anonymous mapping, populated or not: the store succeeds exactly when PROT_WRITE was asked for, and the byte comes back |
| `VmMmap.MappedByte` | kernel/vm.c:673-715 | at an address of an area not yet mapped the process sees the byte of the file at the same distance from the offset, zero past its end, and zero in an anonymous area |
| `VmMmap.MmapTwice` | kernel/vm.c:717-768 | an anonymous populated page mapped twice at the same address: the second call returns 0 and leaves its area over the first |
| `VmMmap.TakeStart` | kernel/vm.c:588-606 | the first area of the process that starts there |
| `VmMmap.TakeAny` | kernel/vm.c:608-626 | the first area of the process |
| `VmMmap.Kmunmap` | kernel/vm.c:770-789 | 0 unaligned, -1 no such area, else exactly that area's pages go and only its owner's memory there changes |
| `VmMmap.Mmapfreeproc` | kernel/vm.c:791-806 | no area of the process is left, exactly its areas' pages are gone, other slots, processes and the heap are untouched |
| `VmLife.AllocProcMemory` | kernel/proc.c:150-203 | a fresh process without memory of its own, exactly with four free pages; else no change at all |
| `VmLife.FreeProcMemory` | kernel/proc.c:208-233 | freewalk meets no leaf; exactly the slots and translations of the process go, and no table of it is left; no other process notices |
| `VmLife.AllOwned` | kernel/proc.c:208-233 | every translation and every table belongs to a live process |
| `VmLife.AllReturned` | kernel/proc.c:208-233 | with no process left every page has no reference and is on the free list |
| `VmFork.MmapCopyPages` | kernel/vm.c:808-833 | the child maps exactly the parent's pages of the area, shared at the same addresses; it fails only without memory for the tables of all areas, and panics only on a page that is in an area copied before |
| `VmFork.Mmapfork` | kernel/vm.c:835-864 | every area and mapped page of the parent is the child's too, exactly when no mapped page is in two areas, there is a free slot for each area and memory for the missing tables; it panics only on such a double page; on failure the child has no area and other slots are as before; nobody else notices |
| `VmFork.ForkImage` | kernel/vm.c:835-864 | in the mmap zone the child sees what the parent sees, absent pages and overlapping areas included |
| `VmFork.FirstArea` | kernel/vm.c:643-659 | copies stand in the order of their originals, so the first area over a page is the same for parent and child |
| `VmFork.CopySight` | kernel/vm.c:391-419 | in the heap the child sees what the parent sees, absent pages included |
| `VmFork.KforkMemory` | kernel/proc.c:320-343 | succeeds exactly when no mapped page is in two of the parent's areas, there are slots for the areas, and memory for trapframe, root, heap copies and tables; the child then has the parent's areas and pages with the same permissions, heap copied and areas shared, sees everything the parent sees, and both can fork again; on failure slots and translations are as before; nobody else notices |
| `VmFork.PathSize` | kernel/vm.c:98-128 | how many tables a set of pages needs does not depend on the address space |
| `VmFork.ForkAfterTwice` | kernel/vm.c:158-187 | after an address was mapped twice, fork never succeeds |
| `Eevdf.EligibleExactly` | kernel/proc.c:1072-1091 | within a spread of 2^41 the unsigned test is the exact one: at or below the weighted average |
| `Eevdf.NoWrap` | kernel/proc.c:1044-1091 | within that spread none of the 64-bit computations wraps |
| `Eevdf.LeastIsEligible` | kernel/proc.c:1072-1091 | some process on a non-empty queue is eligible, whatever wraps |
| `Eevdf.FiveTicks` | kernel/proc.c:988-1014 | truncated ticks never exceed the truncated slice |
| `Eevdf.TickKeeps` | kernel/trap.c:86-96 | a timer tick keeps the deadline between remaining ticks and one slice ahead |
| `Eevdf.WakeKeeps` | kernel/proc.c:647-681 | so do wakeup and kill |
| `Eevdf.ReniceKeeps` | kernel/proc.c:787-801 | so does changing the nice value |
| `Eevdf.ForkKeeps` | kernel/proc.c:344-351 | so does fork |
| `EevdfImpl.ProcTable.FindMinVruntime` | kernel/proc.c:1022-1041 | the count of queued processes and their least virtual time |
| `EevdfImpl.ProcTable.CalcRqStats` | kernel/proc.c:1044-1063 | the weight and weighted-lead sums modulo 2^64 |
| `EevdfImpl.ProcTable.CollectRqStats` | kernel/proc.c:1065-1070 | the statistics of the whole queue |
| `EevdfImpl.ProcTable.Schedule` | kernel/proc.c:493-537 | dispatches the eligible runnable process of least deadline, lowest slot on ties; finds one whenever something is runnable and nothing runs; besides its state only the eligible marks change, which say exactly which runnable processes are eligible |
| `EevdfImpl.ProcTable.TimerTick` | kernel/trap.c:86-96 | exactly the running process is charged: one tick of runtime and of its slice, virtual time by its weight; at the end of the slice it is runnable again with a new slice and deadline |
| `EevdfImpl.ProcTable.Wakeup` | kernel/proc.c:647-663 | exactly the sleepers on the channel, but not the caller, become runnable, each with a full slice and the deadline one slice of its own ahead; every other field, and everybody else, stays |
| `EevdfImpl.ProcTable.Kill` | kernel/proc.c:668-689 | the first slot with the pid, in any state, is marked killed, and made runnable with a full slice and a new deadline if it slept; nothing else changes |
| `EevdfImpl.ProcTable.SetNice` | kernel/proc.c:787-807 | succeeds exactly for a nice value in range and a used slot with the pid, the first one; nice value, weight and deadline follow, the rest stays |
| `EevdfImpl.ProcTable.Fork` | kernel/proc.c:344-378 | the child takes the first unused slot: runnable, with the parent's nice value, weight and virtual time, a full slice, no runtime, and not killed |
| `EevdfFair.LeadsBalance` | kernel/proc.c:1044-1091 | weighted by the weights, leads and lags over the average add up to nothing |
| `EevdfFair.TwoSidedFairness` | kernel/proc.c:493-537 | in every state of every run each process is at most one slice of its own ticks ahead of the average, and at most n-1 slices of the others behind it |
| `EevdfFair.FairSpread` | kernel/proc.c:1072-1091 | in every such state the arithmetic does not wrap |
| `EevdfFair.RunsAgain` | kernel/proc.c:493-537 | a process that does not run for N ticks has N bounded by the count and the weights, so it runs again |
| `SleepWake.StepInv` | kernel/proc.c:616-663 | every step of sleep, wakeup, kill and the scheduler keeps the invariant |
| `SleepWake.RunInv` | kernel/proc.c:616-663 | so it holds in every state of every run |
| `SleepWake.NoLostWakeup` | kernel/proc.c:616-663 | when wakeup ends with the condition lock held, nobody who tested under that lock is asleep on the channel |
| `SleepWake.SleepsUntilRoused` | kernel/proc.c:616-643 | in every run a process that went to sleep stays asleep on its channel, without the condition lock, until a kill or a wakeup on that channel |
| `SleepWake.Roused` | kernel/proc.c:647-689 | a kill or a wakeup reaching a sleeper makes it runnable, and nobody else |
| `SleepWake.SleepKeepsLock` | kernel/proc.c:616-643 | sleep is entered with the condition lock, gives up exactly that lock before it sleeps, and returns with it |
| `ExitWait.StepInv` | kernel/proc.c:384-491 | every step of fork, exit, reparent, wait, waitpid, sleep and the scheduler keeps the invariant; what the scan of wait knows about children is `WaitResult.StepFound` |
| `ExitWait.RunInv` | kernel/proc.c:384-491 | so it holds in every state of every run |
| `ExitWait.NoLostExit` | kernel/proc.c:446-491 | while wait_lock is free nobody sleeps in wait or waitpid with a zombie child they wait for |
| `ExitWait.NoOrphan` | kernel/proc.c:384-395 | every process past fork but init has a parent that is neither unused nor a zombie |
| `ExitWait.Reparent` | kernel/proc.c:384-395 | giving a child, zombie or not, to init keeps the invariant until init is woken |
| `ExitWait.ReapStep` | kernel/proc.c:459-477 | a wait that finds a zombie frees its own child, which is off its stack |
| `ExitWait.OnlyReaped` | kernel/proc.c:942-986 | nothing but a parent's scan takes a process out of ZOMBIE |
| `ExitWait.FreedOnceSwitched` | kernel/proc.c:400-491 | a zombie's slot is freed once, by its parent holding wait_lock, after it switched off its stack |
| `WaitResult.StepFound` | kernel/proc.c:456-486 | every step keeps: the scan has found a child exactly when one that the call waits for is among the slots passed |
| `WaitResult.RunFound` | kernel/proc.c:456-486 | so it holds in every state of every run |
| `WaitResult.WaitReturns` | kernel/proc.c:446-491 | a wait that returns, in any run, has freed a zombie child it waited for, or changed nothing; the latter only if the caller is killed, has no such child, or the status of a zombie cannot be copied out |
| `WaitResult.ZombieIsReaped` | kernel/proc.c:459-477 | a scan that comes to a zombie it waits for frees it and returns |
| `WaitResult.WaitSleeps` | kernel/proc.c:482-489 | after a scan no zombie is waited for, and the caller sleeps exactly when it has a child that it waits for and is not killed |
| `WaitResult.SleeperHasChild` | kernel/proc.c:942-986 | whoever sleeps in wait or waitpid has a child that they wait for |
| `WaitResult.KillMarks` | kernel/proc.c:668-689 | kill marks its victim, which then does not sleep, and nobody else |
| `WaitResult.OnlyKilled` | kernel/proc.c:668-689 | a process in use is marked killed exactly when a kill reached it since, whatever the step |
| `ExitProgress.NoDeadlock` | kernel/proc.c:384-491 | in every state of every run, a process on a processor in the middle of fork, exit or wait can go on, or spins on a lock whose holder can, or whose holder spins on the lock of one that can |
| `ExitProgress.LockIsGivenBack` | kernel/proc.c:384-491 | in every run wait_lock is held for at most NPROC(NPROC+2)+NPROC+4 steps of its holder: one scan with a wakeup for each child |
| `Virtio.AtMostTwo` | kernel/virtio_disk.c:200-213 | three requests cannot be in flight with eight descriptors |
| `Virtio.FewEntries` | kernel/virtio_disk.c:271-327 | so neither ring holds more than two entries that were not taken |
| `Virtio.AddEntry` | kernel/virtio_disk.c:271-277 | a new entry overwrites none that was not taken, also when the 16-bit index wraps |
| `Virtio.NextEntry` | kernel/virtio_disk.c:294-327 | the indices differ exactly when an entry is left, and then the head leads to the oldest |
| `Virtio.Disk.constructor` | kernel/virtio_disk.c:144-146 | every descriptor free, nothing in flight |
| `Virtio.Disk.AllocDesc` | kernel/virtio_disk.c:156-166 | a free descriptor, -1 exactly when there is none |
| `Virtio.Disk.FreeDesc` | kernel/virtio_disk.c:169-182 | a held descriptor becomes free without panic |
| `Virtio.Disk.Alloc3Desc` | kernel/virtio_disk.c:200-213 | three descriptors or none, and none only when fewer than three are free |
| `Virtio.Disk.Submit` | kernel/virtio_disk.c:235-277 | the chain is linked and entered, every other request and ring entry intact |
| `Virtio.Disk.DeviceTake` | kernel/virtio_disk.c:271-281 | the device gets the oldest request not yet taken |
| `Virtio.Disk.DeviceComplete` | kernel/virtio_disk.c:294-327 | any taken request may complete, with its status, without overwriting an unhandled completion |
| `Virtio.Disk.IntrStep` | kernel/virtio_disk.c:312-324 | the oldest completion is handled and its buffer released; panics exactly when the device reported an error for that request |
| `Virtio.Disk.Intr` | kernel/virtio_disk.c:294-327 | completions are handled oldest first, each once, and exactly their buffers are released, all of them or up to the first failed one, which panics |
| `Virtio.Disk.FreeChain` | kernel/virtio_disk.c:185-197 | exactly the three descriptors of the chain, without panic |
| `Virtio.Disk.Finish` | kernel/virtio_disk.c:283-292 | once b->disk is clear the request was handled, and exactly its descriptors are freed |
| `VirtioRun.Lifecycle` | kernel/virtio_disk.c:215-327 | between entering a request and freeing its chain, in any run, it was taken, completed with status 0 and handled, in this order and once each |
| `Pipe.Pipe.constructor` | kernel/pipe.c:22-56 | empty, both ends open |
| `Pipe.Pipe.Pipeclose` | kernel/pipe.c:58-74 | exactly one end closes, no byte is lost; the page is freed exactly when both ends are closed |
| `Pipe.Pipe.Pipewrite` | kernel/pipe.c:76-103 | accepts exactly a prefix of the bytes in order, never more than PIPESIZE undelivered, and says which of the four ways it stopped |
| `Pipe.Pipe.Piperead` | kernel/pipe.c:105-134 | delivers exactly the oldest undelivered bytes; one that cannot be copied out stays |
| `Pipe.Distance` | kernel/pipe.c:76-134 | the comparisons of the 32-bit counters are right, also after they wrapped |
| `UmallocHeap.Disjoint` | user/umalloc.c:24-90 | two blocks never overlap |
| `UmallocHeap.Maximal` | user/umalloc.c:24-44 | next to a free block there is no free unit |
| `UmallocHeap.FreeListUnique` | user/umalloc.c:24-90 | live blocks and obtained units determine the whole free list |
| `UmallocHeap.FreeStep` | user/umalloc.c:24-44 | inserting and joining with both neighbours keeps ring and tiling |
| `UmallocImpl.Allocator.FindPlace` | user/umalloc.c:30-33 | the walk ends, at the place in address order where the block belongs |
| `UmallocImpl.Allocator.Free` | user/umalloc.c:24-44 | exactly the block stops being live, fully coalesced |
| `UmallocImpl.Allocator.Morecore` | user/umalloc.c:46-61 | the new units are free afterwards in one piece large enough, or nothing changed |
| `UmallocImpl.Allocator.Search` | user/umalloc.c:74-89 | ends after at most one morecore, at the first fit after freep |
| `UmallocImpl.Allocator.TakeBlock` | user/umalloc.c:76-84 | hands out the tail of the block and keeps the rest |
| `UmallocImpl.Allocator.Malloc` | user/umalloc.c:63-90 | null exactly when nothing fits and sbrk fails; else one new live block, of the fewest units that hold its header and the bytes, cut from the first fit |
| `Grep.MatchHere` | user/grep.c:84-96 | true exactly when a prefix of the text is in the language of the pattern |
| `Grep.MatchStar` | user/grep.c:98-106 | the same for a leading star |
| `Grep.Match` | user/grep.c:72-82 | true exactly when a substring, anchored as the pattern says, is in the language |
| `Grep.PrefixJoin` | user/grep.c:84-106 | a piece for the first item and a match of the rest make a match |
| `Grep.PrefixSplit` | user/grep.c:84-106 | and every match splits so |
| `ShellPrint.RoundTrip` | user/sh.c:333-452 | parsing the parenthesised print of any command tree with words and at most MAXARGS-1 arguments gives the tree back |
| `ShellGrammar.ParseExactly` | user/sh.c:333-452 | the parser accepts exactly the lines with a derivation in the grammar of lists, pipelines, blocks, arguments and redirections, bare or parenthesised, and gives the tree of the derivation |
| `ShellTokens.ToksLexed` | user/sh.c:271-314 | the tokens of a line are its maximal words and its symbols in order, with only blanks besides |
| `ShellTokens.LexUnique` | user/sh.c:271-314 | a line can be read so in one way only |
| `ShellTokens.NothingLost` | user/sh.c:333-452 | the words of the parsed commands are exactly the maximal words of the line, and its redirections exactly the signs <, > and >> with the word behind each |
| `ShellTokens.EchoHi` | user/sh.c:421-452 | `echo hi > out` is the command of two arguments with its output in the file |
| `Shell.LineOk` | user/sh.c:350-452 | every argument and file name of a parsed command is a maximal word of the line, and arguments fit their array |
| `Shell.WordsRead` | user/sh.c:455-499 | NULs behind a command's words leave every word reading as itself |
| `Shell.Parser.constructor` | user/sh.c:333-339 | the line is the buffer up to its first NUL |
| `Shell.Parser.Gettoken` | user/sh.c:271-314 | the token of the grammar, and the cursor behind it and its blanks |
| `Shell.Parser.PeekAt` | user/sh.c:316-326 | whether the next character is one of these, and the cursor on it |
| `Shell.Parser.Parseredirs` | user/sh.c:380-403 | the redirections of the grammar, panicking exactly without a file name |
| `Shell.Parser.Parseblock` | user/sh.c:405-419 | the parenthesised command of the grammar |
| `Shell.Parser.Parseexec` | user/sh.c:421-452 | the simple or parenthesised command of the recursive-descent functions, panicking exactly where they do; what these lose or make up is measured by `ShellTokens.NothingLost` and `ShellGrammar.ParseExactly` |
| `Shell.Parser.Parsepipe` | user/sh.c:367-378 | the pipeline of the grammar |
| `Shell.Parser.Parseline` | user/sh.c:350-365 | the line of the grammar; terminates on every input |
| `Shell.Parser.Nulterminate` | user/sh.c:455-499 | exactly the positions behind the command's words become NUL |
| `Shell.Parser.Parsecmd` | user/sh.c:333-348 | succeeds exactly on the sentences of the grammar, with the tree of any derivation; arguments and file names are exactly the maximal words of the line, redirections exactly its signs with the word behind each; afterwards every word is a string that reads as itself; on a panic the buffer is untouched |

## Left out

Standing assumptions:

- mmap areas lie in [MMAPBASE, TRAPFRAME); `kmmap` does not check it, so `VmMmap.Kmmap` requires it.
- One hart for the scheduler; the statistics count a RUNNING process, so finding one needs that nothing runs during the scan.
- FsImpl.Fs.Filewrite: no other writer comes between its transactions, and recovery to one of the volumes between them is not linked to LogMachine.CrashAtomicity, which speaks of blocks; that a disk is full is not counted in advance.
- UmallocImpl.Allocator.Malloc: requires that the request fits the int that sbrk takes, and that sbrk hands out memory above what it handed out before; free is called on live blocks only.
- LogKernel.Kernel: the code runs one call at a time; calls that interleave inside a commit, and crashes inside a call, are steps of LogMachine.
- VmMmap.StoreMapped: requires three free pages, enough to fault the page in, and no area over the address before.
- Bio.Cache.Brelse: requires that changed contents were written or logged; Bio.Cache.Bread stands for the turn in which the sleep lock is free.
- Virtio.Disk.Submit: requires that no request for the same buffer is in flight, which the buffer's sleep lock gives.
- Shell.Parser.Parseredirs: returns the redirections as a list that is wrapped around the command at the end; pointers between command nodes are not modelled.
- Pipe.Pipe.Pipewrite: models one stretch of the loop between two sleeps; a sleeping writer is resumed by calling it again from the byte it reached.

Not modelled:

- Boot, assembly, trap entry, context switch, memory-mapped registers, TLB flushes and the kernel's own page table.
- The bodies of spinlocks and sleep locks, memory fences, and races on unlocked fields between harts.
- exec, uvmclear, copyinstr, argument fetching, and reference counts of open files (also those that mmap areas hold).
- Inode allocation, the inode table, directories, path names and link counts; pipes and devices in filewrite.
- A user buffer that writei or a pipe reads is its bytes and how many of them can be read.
- Freedom from "bget: no buffers": a full log can pin every buffer.
- The data a disk request carries, and which of reading and writing it is.
- Which processes are woken or asleep while a virtio request or a pipe waits; the sleep protocol is modelled once, in SleepWake.
- Running the shell's commands, and reading lines.
