# A verified model of the xv6 kernel with copy-on-write fork

The project models the parts of this xv6 (RISC-V) kernel and its user programs whose correctness is an
argument about many functions or many interleavings, and proves that argument.  `dafny verify
dfyconfig.toml` checks all of it.

Code that updates fields in place is a class whose methods are proved against a specification state; code
that runs concurrently is a state machine whose steps are the code's own atomic sections, with lemmas over
every run; pure code is functions.  Error exits are results, not preconditions: a `requires` is either
an invariant of the object, what the callers in the kernel establish, or the negation of a `panic()`, and
in the last case another member shows that the callers meet it.

## What is proved

**Copy-on-write fork refines eager fork** (Sv39, Frames, Teardown, Kalloc, Vm, AddressSpace, Grow, Cow,
UserCopy, Fork, Eager, Procs, TableCount).  Page tables are real three-level trees of table pages in physical
frames.  The invariant `Frames.Ok` says that tables form trees, that the free list holds exactly the frames
whose reference count is 0, that every count equals the number of level-0 entries naming the frame plus the
references held in kernel variables, and that a frame with two references is writable nowhere.  Every
operation keeps it on every exit.  `Procs.Machine.Run` is the result: over any sequence of create, fork,
store, load, copyout, sbrk and exit, failing wherever memory runs out, what each process sees is what it
would see in a machine that copies memory at fork, each operation having there exactly its own effect on
what every address of every process holds (`Eager.Effect`); an operation is refused only for a stated reason, fork
exactly when the free frames do not suffice for the table pages its size needs (TableCount); and the
references left behind are counted: one for each fork refused inside `uvmcopy()`, none otherwise.
`KallocRace` then removes the sequential assumption from the allocator: `kfree()` drops the lock between the
decrement and the scrub, and no interleaving lets two CPUs free one page or scrubs a page in use.

**Crash recovery** (Blocks, LogSpec, LogCrash, Log, LogSpace).  The methods of `Log.Log` produce exactly
the disk writes `CommitWrites` and `RecoverWrites`; `LogCrash.RunRecovers` shows that with a crash after
any single write of any commit or any recovery, as often as one likes, the recovered disk is exactly the
commits whose header was written, in order.  `LogSpace` runs operations concurrently, with the commit
outside the lock: nothing enters the log while a commit is in progress.

**Buffer cache** (Ring, BioSpec, Bio, BioRun, BioLog).  One buffer per block, the LRU ring stays a ring, and
over every interleaving of the cache's critical sections a valid buffer holds the last value stored.
`BioLog` runs the log on top: a block is pinned when it enters the log, a further write of it is absorbed,
and the pins are exactly the blocks of the log on every run.

**Files** (Bitmap, Dinode, DiskFormat, FsSpec, FsSteps, FsMap, FsRoom, FsFree, FsIo, FsLoop, FsChain, Fs).  The on-disk
bitmap is exact, no block is in two places, and any sequence of `writei`, `readi` and `itrunc` calls does to
flat byte sequences what the abstract file system allows; how much a write stores and reports is determined
by its arguments and the free blocks before the call.  The number of blocks a `filewrite()` chunk logs is
bounded by 10 at every offset, which is what the log reserves for it.

**Files over a crash** (FsCrash).  `FsCrash.FilewriteCrash` puts the two together: the disk recovered after a
crash at any disk write of a `filewrite()`, or of the recovery after it, is a consistent file system in which
a prefix of the chunks is written, namely all whose commit returned and at most one more.  The chunks are
3072 bytes each, the last one what remains (`FsChain.Cut`), so a write of up to 3072 bytes survives a crash
as a whole or not at all (`FsCrash.SmallWriteCrash`).

**Inode table** (ItableSpec, Itable), **sleep and wakeup with the scheduler** (SleepWakeup, Sleeplock, RoundRobin),
**fork, exit and wait** (ExitWait, WaitRuns), **the virtio disk queue** (VirtioSpec, Virtio), **pipes** (Pipe), **malloc**
(FreeList, Umalloc), **the shell's parser** (ShellLex, ShellSpec, ShellParse, ShellTrip, ShellGrammar) and
**grep** (Grep, GrepPattern) each have an invariant over all runs or an exact functional specification, listed below.

### Where the code does not do what one would expect

Each of these is part of the model, with the exact condition proved.

- `uvmcopy()` raises a page's count before it maps the page, and its error exit does not lower it again.  It
  fails, and leaks one reference to one page of the parent, if and only if there are fewer free frames than
  table pages to make, one per 512 pages and one per 262144, rounded up (`Fork.Uvmcopy`).  A fork leaks
  exactly when the parent exists, the slot is free, a frame is left for the root, and the rest is too little
  (`Procs.Machine.Fork`); `Procs.Machine.Run` counts these and `Procs.LeakingFork` reaches one.  Such a page
  never reaches the free list again (`Procs.AllReturned`, `KallocRace.ForgottenStays`).
- `cowfault()` copies the page even when its count is 1, and gives every page it touches read, write and
  execute permission; `copyout()` calls it for every page, so it fails without a free frame even on a page
  that is writable already (`UserCopy.CopyoutPage`, an if-and-only-if).
- `growproc()` by a negative amount larger than the process wraps around and is ignored
  (`Procs.Machine.Sbrk`).
- `log_write()`'s panic is out of reach of every permitted run exactly when `log.size > LOGSIZE`
  (`LogSpace.LogLargeEnough`); `mkfs` makes a log of `LOGSIZE` blocks, header included, one too few
  (`LogSpace.MkfsLogTooSmall`).  With the log full, even a block already in it panics; a run within its
  reservation gets there (`LogSpace.RelogPanics`).
- When `either_copyin()` fails inside a block, `writei()` leaves bytes in a buffer it does not log: exactly
  when the readable bytes are at least one and fewer than asked for, end inside a block, and the disk has
  room for them
  (`FsIo.TornExactly`, carried by `Fs.Disk.Writei`).  The bytes are visible exactly where they overwrite
  different bytes of the old file (`FsIo.ExactWrite`, reached by `Fs.TornWrite`), lost if the buffer is
  recycled before anything else logs it (`Bio.UnloggedChangeLost`), and never part of a file that recovery
  finds after a crash (`FsLoop.EndedLasting`).
- `iput()` drops its reference after the window in which it freed the inode without looking again.  If the
  inode was allocated, opened and given up again meanwhile, it stays typed, without links and without
  references on disk, and nobody frees it: exactly when the entry is once more the last reference to an
  unlinked inode at that moment (`ItableSpec.TailOrphansExactly`, reached by `ItableSpec.OrphaningRun`).
- `itrunc()` logs one block per bitmap block its file touches and the inode's: within MAXOPBLOCKS on every
  disk of up to 73728 blocks (`FsFree.MapBlocksFew`); on a larger one a file can lie under more bitmap blocks
  than that (`FsFree.MapBlocksMany`).
- A writer killed after it stored bytes returns from `pipewrite()` without the final wakeup; a reader asleep
  then stays asleep over a non-empty pipe.  `Pipe.Ring.Write` states the exact condition on the arguments and
  the pipe before the call, and `Pipe.KilledWriterStrandsReader` gives the run.  `piperead()` drops the byte
  that `copyout()` refuses.
- `wait()` tests `p->killed` before it calls `sleep()`, which takes `p->lock`; a `kill()` in between wakes
  nobody.  A killed process is asleep in `wait()` only if that happened (`WaitRuns.KilledAsleep`), and every
  `kill()` at that point can lead there (`WaitRuns.SleepsKilled`).
- `malloc()` passes its request to `sbrk()` as an `int`: it arrives unchanged exactly up to 0x7FFFFFE0 bytes
  (`Umalloc.SbrkArgument`), and just above it is negative (`Umalloc.SbrkNegative`).
- `grep` stops at the first line that does not fit its buffer, whatever follows, and drops a last line
  without a newline, both independently of how `read()` cuts the input.  Its output is all matching lines if
  and only if no line from there on matches (`Grep.GrepFile`); `Grep.LongLineLost` is a case where one does.

## Model

| member | source | states |
|---|---|---|
| Sv39.VpnRoundTrip | kernel/riscv.h:355-363 | Any three table indices below MAXVA are the indices of one page number. |
| Sv39.PxInjective | kernel/riscv.h:355-363 | Different page numbers differ in one of their three table indices. |
| Sv39.UniquePath | kernel/vm.c:71-105 | A page table is a tree: two table pages of it with the same index path are the same frame. |
| Sv39.WalkArrives | kernel/vm.c:84-105 | If the walk finds a level-0 table, it is one of this page table and its path is the upper indices of the page number. |
| Sv39.WalkFinds | kernel/vm.c:84-105 | Conversely, every level-0 table on the path of a page number is what the walk from its root finds. |
| Sv39.SetLeafWellFormed | kernel/vm.c:143-166 | Storing one level-0 entry for a data frame keeps every page table a tree. |
| Sv39.SetLeafIsolated | kernel/vm.c:143-166 | Storing one level-0 entry changes one translation of one page table and no other translation of any page table. |
| Sv39.LinkWellFormed | kernel/vm.c:84-105 | Hanging a fresh zeroed table page below an invalid entry keeps every page table a tree. |
| Sv39.LinkIsolated | kernel/vm.c:84-105 | Hanging in a fresh table page changes no translation of any page table. |
| Sv39.SlotsAfterSetLeaf | kernel/vm.c:143-194 | Rewriting an entry moves exactly one reference, from the frame it named to the frame it names. |
| Frames.TakeOk | kernel/kalloc.c:98-118 | Taking the head of the free list keeps all counts, trees and the copy-on-write invariant. |
| Frames.DropOk | kernel/kalloc.c:63-92 | Giving up a held reference finds the count at least 1, and keeps the invariant whether or not it was the last. |
| Frames.RaiseOk | kernel/kalloc.c:46-57 | Raising a count keeps the invariant when no entry for the frame is writable, which is why uvmcopy() write-protects first. |
| Frames.Unreferenced | kernel/kalloc.c:63-118 | A frame whose count is only held references is named by no entry of any page table. |
| Frames.SetLeafOk | kernel/vm.c:143-166 | Turning a held reference into an entry, or back, keeps counts exact and shared frames read-only. |
| Frames.LinkOk | kernel/vm.c:84-105 | A fresh frame may become a table page below an invalid entry without any count going wrong. |
| Frames.ClearWriteOk | kernel/vm.c:312-343 | Write-protecting any entry keeps the invariant. |
| Teardown.FreeTableOk | kernel/vm.c:276-295 | A table page without valid entries is referred to once, and freeing it keeps the invariant except at the entry that named it. |
| Teardown.ClearEntryOk | kernel/vm.c:276-295 | Clearing the entry of a freed child closes that exception. |
| Teardown.RoundValid | kernel/vm.c:276-295 | A valid entry met by the loop is never a leaf (the panic is unreachable) and its target may be freed recursively. |
| Teardown.RoundDone | kernel/vm.c:276-295 | After a child was freed and its entry cleared, exactly the pages below the entries seen so far are gone. |
| Teardown.LastRound | kernel/vm.c:276-295 | After the last entry only the page itself is left of its subtree, with no valid entry. |
| Teardown.WalkEnds | kernel/vm.c:276-295 | Freeing it completes the walk: exactly the subtree became free, everything else is as before. |
| Kalloc.Kmem.constructor | kernel/kalloc.c:28-44 | Every frame of the range is on the free list exactly once, with count 0. |
| Kalloc.Kmem.Increse | kernel/kalloc.c:46-57 | One count goes up by one; nothing else changes. |
| Kalloc.Kmem.Kfree | kernel/kalloc.c:63-92 | The count drops by one; only the last reference scrubs the frame and puts it at the head of the free list, which stays duplicate-free and exactly the frames of count 0. |
| Kalloc.Kmem.Kalloc | kernel/kalloc.c:98-118 | 0 exactly when the list is empty; otherwise its head, which nobody refers to, with count 1. |
| KallocRace.StepKeeps | kernel/kalloc.c:46-118 | No allocator panic is reachable in any state of any interleaving, and each page is on the list once, or being scrubbed by one CPU, or referenced. |
| KallocRace.RunKeeps | kernel/kalloc.c:46-118 | Over every interleaving of lock sections the accounting holds; with no forgotten reference each count is the number of references. |
| KallocRace.ScrubbedIsUnreferenced | kernel/kalloc.c:63-92 | In the window where kfree() has dropped the lock, the page being scrubbed is referenced by nobody, free nowhere, and scrubbed by one CPU. |
| KallocRace.ForgottenStays | kernel/kalloc.c:46-92 | A page with a forgotten reference is never free again, on any run. |
| Vm.Mmu.constructor | kernel/kalloc.c:28-44 | With every frame free and no page table, the invariant holds and nothing is held. |
| Vm.Mmu.TakeFrame | kernel/kalloc.c:98-118 | kalloc() as the virtual memory code sees it: the frame is held by the caller until it is mapped or freed. |
| Vm.Mmu.DropFrame | kernel/kalloc.c:63-92 | kfree() of a held reference, to the state that Frames.DropOk is about. |
| Vm.Mmu.Walk | kernel/vm.c:84-105 | No translation changes; without alloc nothing changes. The result is the level-0 table of the page; 0 means there is none. With alloc it fails exactly when fewer frames are free than tables are missing on the path, and otherwise takes exactly those. |
| Vm.Mmu.MapPage | kernel/vm.c:155-163 | One round: one more page is mapped with exactly the tables missing for it, or there were too few frames for these and no translation changed. |
| Vm.Mmu.Mappages | kernel/vm.c:143-166 | On success exactly the pages of the range map to consecutive frames; on -1 exactly the first `done` of them do and memory is exhausted. No other translation changes. For one page, the frames taken are exactly the tables missing. |
| Vm.Mmu.Uvmunmap | kernel/vm.c:171-194 | Exactly the given pages become unmapped, in this page table only; with do_free each frame loses one reference, otherwise the caller holds it. |
| Vm.Mmu.UnmapPage | kernel/vm.c:181-192 | One page becomes unmapped; its frame loses the reference or the caller holds it. None of the panics is reached. |
| Vm.Mmu.Freewalk | kernel/vm.c:276-295 | Exactly the table pages of the subtree return to the free list, each once. |
| Vm.Mmu.FreeSelf | kernel/vm.c:294-295 | The final kfree() completes the walk: exactly the subtree is free. |
| AddressSpace.Uvmcreate | kernel/vm.c:199-207 | 0 exactly when memory is exhausted; otherwise a new page table that maps nothing, all others unchanged. |
| AddressSpace.Uvmfree | kernel/vm.c:299-304 | The page table is gone, its frames and table pages returned; no other page table changes a translation or a byte, and nothing is left held. |
| AddressSpace.LeafIsMapped | kernel/vm.c:84-105 | Every valid level-0 entry is the translation of one page, so unmapping all pages leaves no leaf for freewalk() to panic on. |
| Grow.FewerPagesThanFrames | kernel/vm.c:227-253 | While a frame is free, an address space without aliases has fewer pages than there are frames, so growing cannot pass the address limit. |
| Grow.Uvmdealloc | kernel/vm.c:260-272 | The pages between the two sizes, and only those, are unmapped; a larger size changes nothing. |
| Grow.GrowPage | kernel/vm.c:238-251 | One zeroed page is added, or every translation and byte is as before; it fails only with at most three frames free. |
| Grow.Uvmalloc | kernel/vm.c:227-253 | The grown space has zeroed pages and the old ones unchanged; on failure everything any process sees is restored, and at most three frames per page to add were free. |
| Grow.Shrink | kernel/vm.c:241-249 | The undo on the error exits restores what every process sees. |
| Cow.RecopiedOk | kernel/trap.c:39-50 | Replacing an entry by a private copy and dropping the old reference keeps the invariant, also when it was the only reference. |
| Cow.RecopiedSees | kernel/trap.c:39-50 | It changes one translation, and no byte that any process sees. |
| Cow.Recopy | kernel/trap.c:39-50 | Succeeds exactly when a frame is free, with the state of RecopiedOk; otherwise nothing changes. |
| Cow.Cowfault | kernel/trap.c:30-51 | 0 exactly for a mapped user page below MAXVA with a frame free; then the page is private and writable. In every case nobody sees a different byte and no reference is lost. |
| UserCopy.WriteAlone | kernel/vm.c:360-386 | New bytes in the frame of a writable page show in that page of that process and nowhere else. |
| UserCopy.WrittenReads | kernel/vm.c:360-386 | After a write, an address reads as a given byte if and only if that is the byte written there, or nothing was written there and it read so before. |
| UserCopy.WrittenAllRead | kernel/vm.c:360-386 | A write to addresses in user pages is read back whole. |
| UserCopy.UserStore | kernel/trap.c:72-78 | A store of a user program, with the fault and retry: afterwards the address reads as the byte and every other address of every process as before; it works exactly for a user page that is writable, and then takes no memory, or with a frame free; otherwise nothing is seen to change. |
| UserCopy.StoreBytes | kernel/vm.c:376-379 | Bytes stored into a writable page are what a user page then reads at those addresses, and show nowhere else. |
| UserCopy.CopyoutPage | kernel/vm.c:366-383 | Works exactly for a user page with a frame free; then the addresses read as the chunk and nothing else changes. Otherwise nothing changes. |
| UserCopy.Copyout | kernel/vm.c:360-386 | A prefix of the source is stored, and is what those addresses, all in user pages, then read; it is all of the source exactly on 0. On -1 the prefix ends at a page boundary before a page that is not a user page or for which no frame was left. |
| UserCopy.Copyin | kernel/vm.c:391-411 | Delivers a prefix of what the process sees, all of it exactly on 0; on -1 it ends at a page that is not a user page. Nothing changes. |
| Fork.SharedStep | kernel/vm.c:312-343 | One more page is shared: child and parent map the same frame, neither writable, and see the same bytes. |
| Fork.ShareFailed | kernel/vm.c:325-336 | A failed round leaves exactly one reference raised and changes what nobody sees. |
| Fork.SharePage | kernel/vm.c:318-337 | One round of the loop: shared, or the failure of ShareFailed with memory exhausted. |
| Fork.Unshare | kernel/vm.c:340-342 | The error exit unmaps what was shared, so the child is empty again and the parent sees what it saw. |
| Fork.Uvmcopy | kernel/vm.c:312-343 | On 0 the child sees byte for byte what the parent sees, through shared read-only frames; on -1 nobody sees a difference, and exactly one reference to one page of the parent is leaked. Into a page table without table pages, -1 if and only if fewer frames are free than the table pages for that many pages. |
| TableCount.ValidHas | kernel/vm.c:84-105 | An upper-level entry is valid exactly when the table page below it exists. |
| TableCount.NextMissing | kernel/vm.c:84-105 | After the first n pages, the next one needs a level-0 table exactly when it is the first of 512, and one above it exactly when it is the first of 262144. |
| TableCount.CoversNext | kernel/vm.c:84-105 | Walking one more page adds exactly the tables on its path. |
| Eager.StepEffect | kernel/proc.c:273-407 | The step of the eager machine has, address by address, the effect one expects of each operation: a fork duplicates every byte, a write shows where it was made, sbrk() moves the end, exit() takes one process away, and nothing else changes. |
| Eager.StoreEffect | kernel/trap.c:72-78 | One store changes what one address of one process holds. |
| Eager.WriteStores | kernel/vm.c:360-386 | Several bytes stored are held by exactly their addresses. |
| Eager.ResizeLoads | kernel/proc.c:273-292 | After a change of size the bytes below both sizes stay, new pages hold 0, and there is nothing beyond. |
| Procs.Machine.constructor | kernel/proc.c:53-65 | No process and no page table: the two machines agree. |
| Procs.Machine.Create | kernel/proc.c:192-223 | A new empty address space, refused exactly when the slot is taken or memory exhausted. |
| Procs.Machine.Store | kernel/trap.c:72-78 | After a store the address holds the byte, and every other address of every process holds what it held; it is refused only for an address outside the process or without memory. |
| Procs.Machine.Load | kernel/vm.c:391-411 | A load delivers the byte of the eager machine, and nothing at all exactly where that has none. |
| Procs.Machine.Copyout | kernel/vm.c:360-386 | After copyout() the stored prefix is what its addresses hold, all of which the process had, and everything else is as before; refused exactly for a missing process, and cut short only by an address outside it or short memory. |
| Procs.Machine.Fork | kernel/proc.c:296-344 | Succeeds exactly when the slot is free, the parent exists and the free frames suffice for the root and the table pages of its size; then the child is a copy of the parent in the eager machine. Otherwise nobody sees a difference, and a reference to a page of the parent is left behind exactly when only the table pages were too many. |
| Procs.Machine.CopyInto | kernel/proc.c:309-314 | Into an empty child, the copy succeeds exactly with enough frames for its table pages; else the child is gone again and one reference to a page of the parent is left. |
| Procs.Machine.Abandon | kernel/proc.c:309-314 | The error exit of fork() takes the child away again. |
| Procs.Machine.Remove | kernel/proc.c:171-187 | An address space goes away without a trace in the others. |
| Procs.Machine.Exit | kernel/proc.c:365-407 | The exiting process disappears in both machines; no reference is lost. |
| Procs.Machine.Sbrk | kernel/proc.c:273-292 | The size changes by exactly n: addresses below both sizes keep their bytes, new pages hold 0, pages above the new size are gone, and no other process changes. Shrinking below 0 does nothing; refused only for lack of memory. |
| Procs.Machine.Extend | kernel/proc.c:279-285 | Zero bytes are added up to the new size, or nothing changes and memory was short. |
| Procs.Machine.Reduce | kernel/proc.c:286-289 | The pages above the new size are gone, everything below is kept. |
| Procs.Machine.DoProcess | kernel/proc.c:192-407 | Create, fork and exit are refused exactly when the process or slot is not as needed or memory is short; a reference is lost exactly by a fork refused inside uvmcopy(). |
| Procs.Machine.DoMemory | kernel/proc.c:273-292 | A store, copyout() or sbrk() falls short only for an address outside the process or for short memory, and loses no reference. |
| Procs.Machine.Do | kernel/proc.c:273-407 | Any one operation has its own effect on what every address of every process holds, is refused only for a missing process, a taken slot, a bad address or short memory, and loses one reference exactly when it is a fork refused inside uvmcopy(). |
| Procs.FollowsIntro | kernel/proc.c:273-407 | A justified step of the eager machine is one whose effect on every address is that of its operation. |
| Procs.StoryRuns | kernel/proc.c:273-407 | A record in which each step is the eager one and each refusal is justified describes the eager run of all of them. |
| Procs.Machine.Run | kernel/proc.c:273-407 | Over every sequence of operations and failures, each step has its own effect on what every address of every process holds, which is what it has with eager copying; every refusal has its stated reason in the state before it; and the references lost are as many as forks were refused inside uvmcopy(). |
| Procs.AllReturned | kernel/vm.c:299-304 | When all processes have exited, a frame is free again if and only if no reference to it was lost. |
| Procs.LeakingFork | kernel/vm.c:325-342 | A fork in too little memory, from boot on: afterwards the count of a page of the parent is above the number of its mappings. |
| Procs.LeakCounted | kernel/vm.c:325-342 | A reference nobody drops keeps the count above the number of mappings. |
| Blocks.WordSet | kernel/log.c:103-114 | A 32-bit word stored in a block is read back and leaves every other word alone. |
| LogSpec.HeaderRoundTrip | kernel/log.c:87-114 | The log header read from a block is the header that was written into it. |
| LogSpec.InstallRedo | kernel/log.c:69-83 | Redoing a partly done installation gives what one complete installation gives. |
| LogCrash.CommitPrefix | kernel/log.c:194-203 | After a crash behind any write of commit(), recovery yields all of the transaction if the header was written and none of it otherwise. |
| LogCrash.CommitDone | kernel/log.c:194-203 | A completed commit has the transaction in the home blocks and an empty log. |
| LogCrash.RecoverPrefix | kernel/log.c:117-123 | A crash behind any write of recovery changes nothing about what recovery will yield. |
| LogCrash.RecoverDone | kernel/log.c:117-123 | A completed recovery has the recovered content in the home blocks and an empty log. |
| LogCrash.StepRecovers | kernel/log.c:117-203 | One event: the recoverable content changes only by a commit whose header reached the disk, and then by exactly that transaction. |
| LogCrash.RunRecovers | kernel/log.c:117-203 | Over every run of commits, recoveries and crashes at any write, the recoverable content is the durable commits in order; whenever the system is up the home blocks already are that. |
| LogCrash.RunGoesOn | kernel/log.c:117-203 | Every run goes on with any commit after a return and with a recovery after a crash, either cut short after any of its disk writes: no order of events is left out of RunRecovers. |
| Log.Log.constructor | kernel/log.c:55-65 | initlog() on whatever a crash left yields the recovered home blocks and an empty log. |
| Log.Log.BeginOp | kernel/log.c:127-142 | Goes on exactly when no commit is in progress and every outstanding operation including this one has MAXOPBLOCKS blocks reserved. |
| Log.Log.LogWrite | kernel/log.c:215-235 | The block joins the transaction once however often it is logged, with its latest content; nothing reaches the disk. |
| Log.Log.EndOp | kernel/log.c:147-165 | One operation less; a commit is announced exactly by the last one, and no other was in progress: the panic is unreachable. |
| Log.Log.FinishCommit | kernel/log.c:166-174 | The commit outside the lock and its end: the whole group is in the home blocks, the log is empty, and what readers see has not changed. |
| Log.Log.Bwrite | kernel/bio.c:107-112 | One atomic write of one block. |
| Log.Log.CopyAndWrite | kernel/log.c:179-191 | One block copied through the cache is one atomic write of its content. |
| Log.Log.WriteLog | kernel/log.c:179-191 | Writes exactly the data part of the commit, in order, although the cache changes under it. |
| Log.Log.WriteHead | kernel/log.c:103-114 | The single write that commits: the encoded header. |
| Log.Log.InstallTrans | kernel/log.c:69-83 | Writes exactly the logged contents to their home blocks, in order. |
| Log.Log.ReadHead | kernel/log.c:87-97 | The block numbers that write_head() stored. |
| Log.Log.RecoverFromLog | kernel/log.c:117-123 | Its disk writes are exactly RecoverWrites, the sequence the crash lemmas are about. |
| Log.Log.Commit | kernel/log.c:194-203 | Its disk writes are exactly CommitWrites; afterwards cache and home blocks agree and readers see no change. |
| LogSpace.StepKeeps | kernel/log.c:127-235 | In a log of more than LOGSIZE blocks no permitted step panics, the unused reservations always fit, and a commit in progress is alone; commit and its end are steps of their own. |
| LogSpace.OnlyCommitter | kernel/log.c:147-175 | While a commit is in progress begin_op() sleeps, no operation is open, and the only other steps are those of the committing process. |
| LogSpace.CommitUndisturbed | kernel/log.c:147-203 | Over any stretch of a run during which a commit is in progress, nobody begins or logs anything, and the log changes only when commit() itself empties it. |
| LogSpace.RunKeeps | kernel/log.c:127-235 | Over every run of concurrent operations in a log of more than LOGSIZE blocks, the reservations fit. |
| LogSpace.LogLargeEnough | kernel/log.c:215-235 | The panic "too big a transaction" is unreachable on all permitted runs if and only if log.size > LOGSIZE. |
| LogSpace.MkfsLogTooSmall | mkfs/mkfs.c:25-25 | With the log that mkfs makes, some permitted run panics. |
| LogSpace.RelogPanics | kernel/log.c:215-235 | For every log of more than LOGSIZE blocks there is a permitted run to a full log, where logging once more a block that is already in it panics. |
| Ring.Unlink | kernel/bio.c:128-129 | Taking a buffer out by relinking its neighbours leaves a ring of the others in the same order. |
| Ring.PushFront | kernel/bio.c:130-133 | Putting it behind the head gives a ring with it first. |
| BioSpec.HitOk | kernel/bio.c:66-73 | A further user of a cached block keeps the invariant: one buffer per block, exact counts, cache and disk together hold every last value. |
| BioSpec.LockOk | kernel/bio.c:70-84 | Only a process with a reference holds a buffer's lock. |
| BioSpec.PinOk | kernel/bio.c:140-144 | A pinned buffer may be unlocked with its change not yet on disk: the pin keeps it from being recycled. |
| BioSpec.AbsorbOk | kernel/log.c:225-233 | A buffer already pinned by the log may be changed and logged again without a second pin. |
| BioSpec.UnpinOk | kernel/bio.c:147-151 | A pin may be given up once the disk has the data; the count was positive. |
| BioSpec.UnlockOk | kernel/bio.c:117-122 | A buffer may be unlocked when its change is logged or written. |
| BioSpec.UnrefOk | kernel/bio.c:124-136 | A user's reference accounts for a positive count. |
| BioSpec.FillOk | kernel/bio.c:93-103 | Reading a block into a fresh buffer delivers the last value stored in it. |
| BioSpec.ChangeOk | kernel/bio.c:93-112 | The lock holder may change the data; that is then the block's last value. |
| BioSpec.FlushOk | kernel/bio.c:107-112 | Writing the buffer makes disk and cache agree. |
| BioSpec.RecycleOk | kernel/bio.c:77-87 | A buffer with count 0 has no user, pin or lock and holds nothing the disk does not, so recycling it loses nothing. |
| BioSpec.ShownIsLogical | kernel/bio.c:59-112 | What a read of a block delivers is the last value stored in it. |
| Bio.MoveToFront | kernel/bio.c:117-137 | The pointer updates of brelse() move one buffer to the front of the ring and keep the order of the rest. |
| Bio.Bcache.constructor | kernel/bio.c:37-53 | All buffers on the ring, none valid, the last one inserted first. |
| Bio.Bcache.Insert | kernel/bio.c:46-52 | One round of building the ring: the buffers inserted so far form a ring, the newest first. |
| Bio.Bcache.Bget | kernel/bio.c:59-89 | Finds a buffer exactly when one holds the block or one is unused (else it panics); the result is the only buffer for the block, and a recycled one is the least recently used. |
| Bio.Bcache.RecycleLru | kernel/bio.c:77-87 | Recycles the least recently used buffer: of all unused ones the one that brelse() gave up longest ago; its data is on disk. |
| Bio.Bcache.Acquire | kernel/bio.c:70-84 | A process with a reference becomes the holder of the free sleep lock. |
| Bio.Bcache.ReadIn | kernel/bio.c:93-103 | bread() leaves a valid buffer with the last value stored in its block. |
| Bio.Bcache.Modify | kernel/bio.c:93-103 | The holder's store becomes the block's last value. |
| Bio.Bcache.Bwrite | kernel/bio.c:107-112 | The disk then has the buffer's data. |
| Bio.Bcache.Bpin | kernel/bio.c:140-144 | The buffer cannot be recycled until unpinned. |
| Bio.Bcache.Absorb | kernel/log.c:225-233 | log_write() of a block already in the log: the change now belongs to the transaction, the pin count stays. |
| Bio.Bcache.Bunpin | kernel/bio.c:147-151 | One pin is given up for a block already written home; the count does not underflow. |
| Bio.Bcache.Release | kernel/bio.c:117-122 | The lock is free and the buffer holds nothing that is neither logged nor on disk. |
| Bio.Bcache.Brelse | kernel/bio.c:124-136 | The count does not underflow, and a buffer nobody uses becomes the most recently used one, all others in their order; the ring stays in the order in which buffers were given up. |
| Bio.Bcache.ToFront | kernel/bio.c:126-133 | The pointer assignments leave a ring of the same buffers, this one first. |
| Bio.OldestHere | kernel/bio.c:77-87 | In a ring ordered by the time of the last brelse(), the first unused buffer from the end is the one given up longest ago. |
| Bio.RecencyMoved | kernel/bio.c:124-136 | Moving a buffer given up now to the front keeps that order. |
| Bio.UnloggedChangeLost | kernel/bio.c:117-137 | A change released without logging and then recycled is what readers get if and only if the disk happened to hold the same. |
| BioRun.StepKeeps | kernel/bio.c:59-151 | Every critical section keeps the invariant and changes a block's last value only by a store into it. |
| BioRun.RunRefinesMap | kernel/bio.c:59-151 | Over every run, cache and disk together are a map from blocks to the last value stored. |
| BioRun.RunReadsLast | kernel/bio.c:93-103 | Over every run, a valid buffer holds its block's last stored value and is the only buffer for it. |
| BioRun.PinnedSurvives | kernel/bio.c:140-151 | A pinned block stays in its buffer until it is unpinned, whatever runs in between. |
| BioLog.PinsReady | kernel/log.c:69-83 | What log_write() and install_trans() ask of the cache it can do: a block new in the log has no pin, one in it has exactly one, and its buffer is in use. |
| BioLog.StepKeeps | kernel/log.c:69-235 | Every step of cache and log keeps one pin for each block of the log and none for any other. |
| BioLog.RunKeeps | kernel/log.c:69-235 | Over every run of cache and log together the pins are the log, and reads deliver the last value stored. |
| BioLog.CommittedIsOnDisk | kernel/log.c:194-203 | When a commit ends, no pin is left and the disk has the last value of every block nobody is changing. |
| BioLog.LogWrite | kernel/log.c:215-235 | On the buffer cache: pins the buffer if its block is new in the log and absorbs the change otherwise; afterwards the pins are the new log. |
| BioLog.AbsorbKeeps | kernel/log.c:225-233 | Absorption changes no pin, and needs one. |
| Bitmap.AddMask | kernel/fs.c:66-88 | Adding the mask of a clear bit sets that bit and no other, for numbers of any width. |
| Bitmap.SubMask | kernel/fs.c:92-105 | Subtracting the mask of a set bit clears that bit and no other. |
| Bitmap.AddFits | kernel/fs.c:66-88 | Setting a clear bit of a byte gives a byte. |
| Bitmap.MarkBits | kernel/fs.c:66-88 | Marking a block in use changes the bit of that block and of no other. |
| Bitmap.UnmarkBits | kernel/fs.c:92-105 | Marking a block free changes the bit of that block and of no other. |
| Dinode.GetPut | kernel/fs.c:226-241 | An inode written into its block is read back, and the other inodes of the block are unchanged. |
| DiskFormat.WordPlace | kernel/fs.h:32-39 | A word is stored with its least significant byte first, and is two shorts. |
| DiskFormat.DinodePlace | kernel/fs.h:32-45 | Every field of struct dinode is at its byte offset in the inode block. |
| DiskFormat.HeaderPlace | kernel/log.c:35-38 | The log header is the count and then the block numbers, four bytes each; entries beyond the count stay. |
| DiskFormat.BitValue | kernel/fs.c:66-105 | Bit k of a byte is the k-th binary digit. |
| DiskFormat.BitmapPlace | kernel/fs.h:47-51 | Block n has bit n % 8 of byte n / 8 of the bitmap, counted through its blocks. |
| FsSpec.SameContents | kernel/fs.c:472-496 | A file whose blocks and size are the same has the same content. |
| FsSpec.Apart | kernel/fs.c:383-421 | Two different block slots of any files never name the same block. |
| FsSteps.AllocOk | kernel/fs.c:66-88 | Allocating a free block keeps the invariant and every file. |
| FsSteps.PlaceDirectOk | kernel/fs.c:388-396 | Making it a direct block of a file keeps the invariant and every file's content. |
| FsSteps.PlaceTableOk | kernel/fs.c:401-406 | Making a fresh block the indirect table keeps the invariant and every file's content. |
| FsSteps.PlaceEntryOk | kernel/fs.c:407-416 | Making a fresh block an entry of the table keeps the invariant and every file's content. |
| FsSteps.StoreOk | kernel/fs.c:506-539 | Storing into a block of a file keeps the invariant and touches no metadata. |
| FsSteps.ResizeOk | kernel/fs.c:530-531 | Setting a size keeps every block number. |
| FsSteps.SaveOk | kernel/fs.c:226-241 | iupdate() stores this inode and changes no other inode on disk and no file. |
| FsSteps.ReleaseOk | kernel/fs.c:92-105 | Freeing a block in use makes exactly its own slot stale. |
| FsSteps.ClearDirectOk | kernel/fs.c:432-437 | Clearing a stale direct slot restores the invariant. |
| FsSteps.ClearTableOk | kernel/fs.c:447-448 | Clearing the table slot is right once the table and all blocks in it are freed. |
| FsSteps.FreshOk | kernel/fs.c:31-47 | A fresh disk, with only metadata marked, satisfies the invariant. |
| FsMap.TableThenEntry | kernel/fs.c:399-418 | Allocating the table and then the block is one correct bmap() with the two costs added. |
| FsFree.DirectFreed | kernel/fs.c:432-437 | One round of the first loop frees exactly the block of one direct slot. |
| FsFree.EntryFreed | kernel/fs.c:442-445 | One round of the second loop frees exactly the block of one table entry. |
| FsFree.TableFreed | kernel/fs.c:447-448 | After the second loop the table is freed and no slot is left stale. |
| FsFree.FreedOther | kernel/fs.c:426-453 | Truncating one file leaves every other file its blocks and content. |
| FsIo.MidStore | kernel/fs.c:516-528 | Storing a piece in the block under the current position appends it to what was written so far, over all files. |
| FsIo.MidFinish | kernel/fs.c:530-536 | Setting the size gives exactly the old content overwritten, cut at the size the caller is told about. |
| FsIo.ReadPiece | kernel/fs.c:483-493 | A piece of one block is the corresponding slice of the file. |
| FsIo.ChunkFits | kernel/file.c:155-160 | A chunk of three blocks at any offset costs at most 10 log blocks. |
| FsIo.TallyBound | kernel/fs.c:506-539 | The blocks one write logs are at most the cost computed from its offset and length. |
| FsRoom.DirectGains | kernel/fs.c:388-396 | Allocating a direct block takes one free block for one missing block of the file. |
| FsRoom.TableGains | kernel/fs.c:401-406 | Allocating the table takes one free block for the missing table. |
| FsRoom.EntryGains | kernel/fs.c:407-416 | Allocating an entry takes one free block for one missing block of the file. |
| FsRoom.GainsTrans | kernel/fs.c:506-539 | Free blocks lost and missing blocks filled balance over any number of steps. |
| FsIo.TornExactly | kernel/fs.c:516-528 | All bytes are reported if and only if that many are readable and the free blocks before the call suffice; bytes are stored beyond those reported if and only if the readable ones are fewer than asked for, at least one, end inside a block, and the free blocks suffice for them. |
| FsLoop.LoopRound | kernel/fs.c:516-528 | One more full round: the bytes, the blocks taken and the blocks logged so far. |
| FsLoop.LoopFail | kernel/fs.c:516-528 | A round that fails ends the loop with the count and the tear that the state before the call determines. |
| FsLoop.HeldBack | kernel/fs.c:516-528 | For the log, a torn block that it does not hold is as before the round; if it holds it, the torn bytes lie beyond the end of the file. |
| FsLoop.EndedLasting | kernel/fs.c:506-539 | What the log holds when writei() returns is a consistent file system in which exactly the bytes reported are written. |
| FsFree.MapBlocksFew | kernel/fs.c:426-453 | The bitmap blocks itrunc() logs are no more than the disk has, so with the inode block they are within MAXOPBLOCKS on a disk of up to 9 * 8192 blocks. |
| FsFree.MapBlocksMany | kernel/fs.c:426-453 | A file with blocks under n bitmap blocks makes itrunc() log n of them, so on a larger disk the bound can be exceeded. |
| FsIo.ExactWrite | kernel/fs.c:506-539 | The bytes stored beyond those reported are invisible if and only if they equal the old file where they lie inside it. |
| FsIo.OverOver | kernel/fs.c:506-539 | Overwriting a file with two adjacent pieces is overwriting it with both at once. |
| FsIo.WrittenOn | kernel/file.c:157-174 | A write continued where a complete one ended is one longer write. |
| FsIo.BitmapExact | kernel/fs.c:66-105 | A bit is set if and only if its block is metadata or named by some file. |
| FsIo.OneSlot | kernel/fs.c:383-421 | No block is named twice, as data or as a table, and none that is named is metadata. |
| Fs.Disk.constructor | kernel/fs.c:31-47 | A freshly made disk is valid. |
| Fs.Disk.FindClear | kernel/fs.c:74-83 | Everything below the bit found is in use, and it is free. |
| Fs.Disk.Claim | kernel/fs.c:75-81 | The block is marked and zeroed, both changes logged; every file keeps its content. |
| Fs.Disk.Balloc | kernel/fs.c:66-88 | The lowest free block, zeroed; 0 exactly when there is none. |
| Fs.Disk.Bfree | kernel/fs.c:92-105 | An owned block is freed; the panic on freeing a free block cannot happen. |
| Fs.Disk.Iupdate | kernel/fs.c:226-241 | The inode on disk is the one in memory, all others unchanged. |
| Fs.Disk.BmapDirect | kernel/fs.c:388-396 | The direct block of the file, allocated if missing, without a change to any content; 0 exactly when the disk is full. |
| Fs.Disk.LoadTable | kernel/fs.c:401-406 | The indirect table, allocated if it was missing; 0 exactly when the disk is full. |
| Fs.Disk.SetEntry | kernel/fs.c:412-413 | The entry of the table names the block, and the table is logged. |
| Fs.Disk.BmapEntry | kernel/fs.c:407-417 | The block an entry of the indirect table names, allocated if missing, without a change to any content; 0 exactly when the disk is full. |
| Fs.Disk.Bmap | kernel/fs.c:383-421 | The block of the file, allocated if it was missing, without a change to any file's content; 0 exactly when the disk is full. A block already there costs and changes nothing. |
| Fs.Disk.WriteBlock | kernel/fs.c:517-527 | One round: a piece is written and logged, or the disk is full, or the source ended inside the piece and that part is stored unlogged. |
| Fs.Disk.StoreBlock | kernel/fs.c:521-527 | The copy and log_write() of one round; unlogged exactly when the copy failed. |
| Fs.Disk.WriteLoop | kernel/fs.c:516-528 | The bytes written are a prefix of the source; how many, and whether the last block is torn, is what the free blocks before the call and the readable bytes determine. |
| Fs.Disk.WriteEnd | kernel/fs.c:530-536 | Size and inode are brought up to date in memory and on disk. |
| Fs.Disk.Writei | kernel/fs.c:506-539 | -1 exactly for an offset beyond the file, an overflow or a file too large; otherwise the file is the old one overwritten with a prefix of the source, no other file changes, the inode on disk agrees, the log cost is bounded, everything is reported exactly when source and free blocks suffice, and what the log holds is a consistent disk with just the reported bytes. |
| Fs.Disk.WriteAll | kernel/fs.c:516-538 | The same for arguments that were accepted. |
| Fs.Disk.ReadBlock | kernel/fs.c:483-487 | The file's bytes at a position. |
| Fs.Disk.Readi | kernel/fs.c:472-496 | Delivers exactly the slice of the file that offset, length and file size give, or -1 when the destination refuses, and changes nothing. |
| Fs.Disk.FreeDirect | kernel/fs.c:432-437 | Exactly the direct blocks are freed. |
| Fs.Disk.FreeTable | kernel/fs.c:439-449 | Exactly the blocks of the table and the table are freed. |
| Fs.Disk.Itrunc | kernel/fs.c:426-453 | The file is empty, exactly its blocks are free, and every other file and inode is unchanged in memory and on disk; the blocks logged are exactly the bitmap blocks of those freed and the inode block. |
| Fs.Disk.Filewrite | kernel/file.c:135-181 | The file is the old one overwritten with a prefix of the source; n if and only if the file is writable, offset and size are in range, the source is readable and the free blocks before the call suffice. No operation ever has 10 blocks logged when it calls log_write(). The chunks are 3072 bytes, the last what remains, so n bytes take n / 3072 commits, rounded up; commit by commit the disk goes through consistent states with one more chunk each. |
| Fs.Disk.WriteChunk | kernel/file.c:158-174 | One operation: at most MAXOPBLOCKS blocks logged, and the write continued. |
| Fs.Disk.WriteOp | kernel/file.c:162-167 | One log operation: at most MAXOPBLOCKS blocks logged, and what a commit of them makes of the disk is a consistent state with the reported bytes written. |
| Fs.Disk.Do | kernel/fs.c:426-539 | One call is a step that the flat file system allows, and a write reports less than asked for exactly when source or free blocks do not suffice. |
| Fs.Disk.Run | kernel/fs.c:426-539 | Over any sequence of calls the files behave as flat byte sequences, with every write as long as the state before it and its source determine. |
| Fs.TornWrite | kernel/fs.c:516-536 | On any fresh disk with a free block: after two bytes were written, a write of two of which one is readable reports 0, and the file has changed. |
| FsChain.StageOf | kernel/file.c:162-167 | The blocks one operation logged, committed, turn one consistent disk into the next. |
| FsChain.CutAt | kernel/file.c:157-174 | Chunk k starts 3072 * k bytes into the source. |
| FsChain.CutCount | kernel/file.c:157-174 | A complete write has n / 3072 chunks, rounded up. |
| FsChain.CutSmall | kernel/file.c:157-174 | Only a write of more than 3072 bytes has more than one chunk. |
| FsCrash.InstallAllHolds | kernel/log.c:69-83 | Installing the commits of any sequence of operations gives the disk after the last of them. |
| FsCrash.CommitExists | kernel/log.c:177-203 | What an operation logs always makes a group commit that the log can hold. |
| FsCrash.DurablePrefix | kernel/log.c:194-203 | Of commits made in order up to a crash, those that survive are a prefix: all that returned and at most one more. |
| FsCrash.MountOk | kernel/fs.c:31-47 | A disk that holds a consistent state outside the log is read back as that state, with the same files. |
| FsCrash.ChainWritten | kernel/file.c:157-174 | The first k chunks together wrote one prefix of the source. |
| FsCrash.FilewriteCrash | kernel/log.c:117-203 | After a crash at any disk write of filewrite() or of the recovery after it, the recovered disk is a consistent file system in which exactly a prefix of the chunks is written, all returned ones included. |
| FsCrash.SmallWriteCrash | kernel/log.c:117-203 | A write of at most 3072 bytes is atomic: after a crash at any disk write, the recovered file is the old one or has the whole of what was written. |
| ItableSpec.LastIsUnlocked | kernel/fs.c:341-346 | When iput() finds the last reference, nobody else can hold the inode's lock: taking it there does not block. |
| ItableSpec.StepKeeps | kernel/fs.c:199-362 | Every step under itable.lock, under an inode lock or in iput()'s window keeps the invariant. |
| ItableSpec.RunKeeps | kernel/fs.c:199-362 | The inode table invariant holds in every state of every interleaving. |
| ItableSpec.Coherent | kernel/fs.c:247-362 | Over every run there is one entry per inode in use, and a valid entry that nobody is changing equals the inode on disk. |
| ItableSpec.ReallocatedIsReread | kernel/fs.c:199-362 | Once ialloc() has given out an inode, a valid entry for it was read from disk after that, or still belongs to the holder in iput() that is about to make it invalid: nobody sees the old inode. |
| ItableSpec.OrphanedExactly | kernel/fs.c:199-362 | A step makes an inode typed, without links and without references on disk exactly in the listed cases. |
| ItableSpec.NoOrphans | kernel/fs.c:199-362 | Over every run, without such a step there is no such inode. |
| ItableSpec.TailOrphansExactly | kernel/fs.c:357-361 | The final ref-- of iput() orphans an inode if and only if the entry is once more the last reference to an unlinked inode. |
| ItableSpec.OrphaningRun | kernel/fs.c:337-362 | A run that does: the inode is freed in the window, allocated, opened and given up again before the first iput() goes on. |
| Itable.Table.constructor | kernel/fs.c:182-190 | All entries free. |
| Itable.Table.Iget | kernel/fs.c:247-277 | The entry of the inode if it has one, else the first free one; it panics exactly when there is neither. One reference more. |
| Itable.Table.Ialloc | kernel/fs.c:199-219 | The lowest free inode, none exactly when there is none. |
| Itable.Table.Ilock | kernel/fs.c:293-317 | Afterwards the holder sees the inode on disk; it panics exactly on a free inode. |
| Itable.Table.Iput | kernel/fs.c:337-362 | Drops one reference, or for the last one to an unlinked inode takes its lock, which is free. |
| Itable.Table.Window | kernel/fs.c:346-355 | The inode is free on disk, not valid in memory, and unlocked. |
| Itable.Table.Leave | kernel/fs.c:357-361 | The final ref--, whatever happened in the window: it orphans the inode if and only if the entry is the last reference to an unlinked inode again. |
| SleepWakeup.LocalKeeps | kernel/proc.c:513-670 | A step of one process that is right about itself and endangers no sleeper keeps the whole invariant. |
| SleepWakeup.ClearSafe | kernel/sleeplock.c:34-41 | From the moment the lock is cleared, the scan has every sleeper still before it. |
| SleepWakeup.PokeSafe | kernel/proc.c:628-644 | The scan passes a slot only when its process was woken or its lock shows that it is not going to sleep. |
| SleepWakeup.StepKeeps | kernel/proc.c:513-670 | Every atomic step of acquiresleep, releasesleep, sleep, wakeup, yield, sched, kill and the scheduler loop, on any CPU, keeps the invariant. |
| SleepWakeup.RunKeeps | kernel/proc.c:513-670 | The invariant holds over every interleaving of any number of CPUs and processes. |
| SleepWakeup.NoLostWakeup | kernel/proc.c:598-644 | A process asleep on a free sleeplock always has a releaser in wakeup() that has not passed its slot: no wakeup is lost. |
| SleepWakeup.OneCpu | kernel/proc.c:513-537 | No process runs on two CPUs, and a RUNNING process is on one. |
| RoundRobin.EverySlot | kernel/proc.c:513-537 | Over every run, when a CPU comes back to a process it has looked at every other in between: the loop passes over none. |
| SleepWakeup.SchedGuards | kernel/proc.c:546-563 | The panics of sched() about locks and state are unreachable: at the switch the CPU holds p->lock and no other, and the process is not RUNNING. |
| SleepWakeup.HolderIsOwner | kernel/sleeplock.c:22-41 | The flag is set just while the sleeplock has an owner, and whoever is releasing it is the owner. |
| Sleeplock.OwnedUntilCleared | kernel/sleeplock.c:22-41 | From its acquisition until it clears the flag a process owns the sleeplock, whatever runs in between. |
| Sleeplock.Exclusion | kernel/sleeplock.c:22-41 | Over every run, between two acquisitions of the sleeplock the first process has released it. |
| Sleeplock.HolderIsFree | kernel/proc.c:598-644 | A CPU that holds some p->lock waits for no other lock. |
| Sleeplock.NoDeadlock | kernel/proc.c:513-670 | In every reachable state each CPU can take a step, or waits for one that can, or for one that waits for one that can. |
| ExitWait.StepKeeps | kernel/proc.c:296-461 | Every step of fork, reparent, exit, wait and kill keeps the invariant; wait() gives up exactly when it saw no child or is killed, and the test of killed, the release of wait_lock, the marking and the switch in sleep() are steps of their own. |
| ExitWait.RunKeeps | kernel/proc.c:296-461 | The invariant holds in every state of every interleaving. |
| ExitWait.ParentLives | kernel/proc.c:348-407 | Every started process other than init always has a living parent. |
| ExitWait.NoMissedZombie | kernel/proc.c:365-461 | Once wait_lock is free, no parent is asleep in wait(), or on its way there past the release of wait_lock, with a zombie child. |
| ExitWait.ReapsGone | kernel/proc.c:411-461 | wait() frees only its own child, only once it has left its CPU and kernel stack for good, and never one that is still somebody's parent. |
| ExitWait.ReapedOnce | kernel/proc.c:411-461 | No process incarnation is reaped twice. |
| ExitWait.KidKept | kernel/proc.c:296-461 | A process that wait() found to have a child keeps one until it is woken. |
| ExitWait.SleeperHasChild | kernel/proc.c:411-461 | Over every run, a process asleep in wait(), or on its way there, has a child. |
| ExitWait.ReturnsEmpty | kernel/proc.c:411-461 | Over every run, wait() returns without having freed a child only if there is no child, the caller is killed, or the copyout() of a zombie failed. |
| WaitRuns.WaitLockMoves | kernel/proc.c:348-461 | In every reachable state the holder of wait_lock can go on, or waits for the p->lock of a process that can. |
| WaitRuns.StepKill | kernel/proc.c:411-670 | A killed process gets to be asleep in wait() only by a kill() after its test of p->killed and before sleep() has p->lock. |
| WaitRuns.KilledAsleep | kernel/proc.c:411-670 | Over every run, a killed process is asleep in wait() only if such a kill() happened. |
| WaitRuns.SleepsKilled | kernel/proc.c:411-670 | Every run that reaches that point has a continuation in which a kill() leaves the process asleep. |
| VirtioSpec.AtMostTwo | kernel/virtio_disk.c:202-213 | At most two requests are in progress, so neither ring can overrun. |
| VirtioSpec.TakeOk | kernel/virtio_disk.c:271-281 | The device fetches from the avail ring exactly the chain that was announced at that position. |
| VirtioSpec.CompleteOk | kernel/virtio_disk.c:295-327 | The chain of a request that was taken is still intact when it completes. |
| VirtioSpec.DeliverOk | kernel/virtio_disk.c:312-324 | The next used entry names the request whose buffer, status 0, is waiting: the panic on status is unreachable. |
| VirtioSpec.SubmitOk | kernel/virtio_disk.c:216-281 | A new request disturbs none in progress. |
| VirtioSpec.DoneRests | kernel/virtio_disk.c:288-289 | A buffer marked done belongs to a request that was delivered: its chain may be freed. |
| VirtioSpec.RetireOk | kernel/virtio_disk.c:288-289 | Freeing a delivered request's chain disturbs no other. |
| Virtio.Index | kernel/virtio_disk.c:272-323 | The 16-bit ring counters, wrapping for ever, still name the right slots. |
| Virtio.SameIndex | kernel/virtio_disk.c:312-312 | Equality of the 16-bit indices means that nothing is outstanding, for ever. |
| Virtio.FreePlusThree | kernel/virtio_disk.c:157-213 | Free descriptors plus three per request in progress are all there are. |
| Virtio.Queue.constructor | kernel/virtio_disk.c:62-153 | All descriptors free and both rings empty. |
| Virtio.Queue.AllocDesc | kernel/virtio_disk.c:157-166 | The lowest free descriptor; -1 exactly when there is none. |
| Virtio.Queue.FreeDesc | kernel/virtio_disk.c:170-182 | One descriptor is free and cleared. |
| Virtio.Queue.Alloc3 | kernel/virtio_disk.c:202-213 | Three different free descriptors, or none are taken and fewer than three were free. |
| Virtio.Queue.GiveBack | kernel/virtio_disk.c:206-210 | What was taken before the failure is free again. |
| Virtio.Queue.Start | kernel/virtio_disk.c:216-281 | Starts exactly when three descriptors are free; the request is announced with its own header, buffer and status. |
| Virtio.Queue.Format | kernel/virtio_disk.c:238-277 | The three descriptors, header and ring entry of the request. |
| Virtio.Queue.DeviceTake | kernel/virtio_disk.c:271-281 | The device gets the head of the next announced request. |
| Virtio.Queue.DeviceComplete | kernel/virtio_disk.c:238-269 | Following the chain transfers exactly the block of the request to or from exactly its buffer. |
| Virtio.Queue.Report | kernel/virtio_disk.c:295-327 | The completion is entered in the used ring. |
| Virtio.Queue.Transfer | kernel/virtio_disk.c:238-265 | Following the three descriptors, exactly the request's block moves to or from exactly its buffer, and its status becomes 0. |
| Virtio.Queue.Intr | kernel/virtio_disk.c:295-327 | Exactly the requests completed and not yet seen are delivered, each to its own buffer. |
| Virtio.Queue.IntrOne | kernel/virtio_disk.c:313-323 | One completion is delivered to the buffer of its own request; the status panic is not reached. |
| Virtio.Queue.Finish | kernel/virtio_disk.c:284-289 | Once the code finds its buffer done, exactly the three descriptors of the request become free. |
| Virtio.Queue.FreeChain | kernel/virtio_disk.c:186-197 | Follows the chain and frees each of its descriptors once. |
| Pipe.Tests | kernel/pipe.c:77-130 | The full and empty tests on 32-bit counters that wrap are right for ever. |
| Pipe.Ring.constructor | kernel/pipe.c:23-56 | An empty pipe, open at both ends, nobody asleep. |
| Pipe.Ring.Put | kernel/pipe.c:95-96 | One byte is appended to the stream. |
| Pipe.Ring.Take | kernel/pipe.c:121-123 | The oldest byte not yet removed. |
| Pipe.Ring.Write | kernel/pipe.c:77-103 | The stream grows by exactly the next bytes of the source; it sleeps only over a full pipe, and dies exactly when the read end is closed or the process killed. It leaves a reader asleep over data if and only if one was asleep, the read end is open, and it is killed after some bytes, at most a pipe full, with more to come. Reader and writer never sleep at the same time. |
| Pipe.Ring.Read | kernel/pipe.c:106-130 | Delivers the next bytes in order, losing at most the one copyout() refuses; it sleeps exactly when the pipe is empty, open and the process not killed. |
| Pipe.Ring.Close | kernel/pipe.c:59-74 | Closing an end wakes whoever waits for it; nobody is left asleep who should not be. |
| Pipe.Ring.Stray | kernel/pipe.c:113-119 | A stray wakeup does no harm: whoever wakes tests again. |
| Pipe.KilledWriterStrandsReader | kernel/pipe.c:83-87 | A run that ends with a reader asleep over a byte. |
| FreeList.Disjoint | user/umalloc.c:25-90 | Two blocks, live or free, never overlap. |
| FreeList.FreedOk | user/umalloc.c:25-44 | free() returns exactly the block's units, joined with every free neighbour; no live block changes. |
| FreeList.CarvedOk | user/umalloc.c:75-85 | malloc() takes exactly the units asked for out of one free block; no live block changes and no other unit stops being free. |
| FreeList.GrownOk | user/umalloc.c:47-61 | Memory from sbrk() joins as one more block. |
| FreeList.Canonical | user/umalloc.c:25-44 | The free list is determined by which units are free: order, boundaries and sizes, whatever calls led there. |
| Umalloc.RelinkedOk | user/umalloc.c:25-44 | The pointers that free() writes form the new ring. |
| Umalloc.UnlinkOk | user/umalloc.c:76-77 | The pointer that malloc() writes when it takes a block whole leaves a ring of the others. |
| Umalloc.SbrkArgument | user/umalloc.c:47-61 | The request reaches sbrk() unchanged if and only if it is at most 0x7FFFFFE0 bytes. |
| Umalloc.SbrkNegative | user/umalloc.c:47-61 | A request one byte above that limit asks sbrk() for a negative amount. |
| Umalloc.Allocator.constructor | user/umalloc.c:21-22 | No block, list not yet set up. |
| Umalloc.Allocator.FindPlace | user/umalloc.c:30-32 | The search ends, at the free block after which the freed one belongs. |
| Umalloc.Allocator.Free | user/umalloc.c:25-44 | The block is free and joined with its free neighbours; all other live blocks and their sizes stay. |
| Umalloc.Allocator.Morecore | user/umalloc.c:47-61 | On success at least the units asked for are free in one block; on failure nothing changes. |
| Umalloc.Allocator.FindFit | user/umalloc.c:74-89 | Next fit: the first free block after the last place that is large enough; none only when no block is. |
| Umalloc.Allocator.Carve | user/umalloc.c:75-85 | Takes exactly the last n units of the block, and the block itself out of the ring if that is all of it; no live block changes and no other unit stops being free. |
| Umalloc.Allocator.Begin | user/umalloc.c:70-73 | The first call sets up an empty list. |
| Umalloc.Allocator.Malloc | user/umalloc.c:64-90 | A new block of exactly the units needed, disjoint from all live ones, or 0; sbrk() is called exactly when no free block is large enough, and 0 is returned exactly when it then fails. What it asks sbrk() for is what it counts as its own if and only if the request is at most 0x7FFFFFE0 bytes. |
| ShellLex.Skip | user/sh.c:272-274 | Stops at the first character that is not white. |
| ShellLex.Gettoken | user/sh.c:267-309 | Returns the first token of the rest of the line and where it lies, and leaves the tokens behind it. |
| ShellLex.Peek | user/sh.c:312-321 | Tells whether the next token is one of the symbols, and consumes only white space. |
| ShellLex.LexWords | user/sh.c:296-300 | Every word token is a maximal stretch of ordinary characters. |
| ShellLex.LexRender | user/sh.c:267-309 | A rendered token sequence is read back as itself. |
| ShellLex.NoTokens | user/sh.c:263-274 | A line has no tokens if and only if it is all blanks, tabs, returns, newlines and vertical tabs. |
| ShellLex.OneWord | user/sh.c:263-300 | A line is one word if and only if it is not empty and has neither white space nor one of the seven symbols. |
| ShellSpec.PrintGood | user/sh.c:329-447 | Printing a tree uses only tokens that can be read back. |
| ShellTrip.RedirsPrinted | user/sh.c:376-398 | Printed redirections parse back to themselves. |
| ShellTrip.ArgsPrinted | user/sh.c:417-447 | Printed words followed by redirections parse back to the command with those arguments and redirections. |
| ShellTrip.ExecPrinted | user/sh.c:401-447 | A printed simple or parenthesised command parses back to itself. |
| ShellTrip.PipePrinted | user/sh.c:363-373 | A printed pipeline parses back to itself. |
| ShellTrip.BacksPrinted | user/sh.c:350-354 | A printed command with any number of & parses back to itself. |
| ShellTrip.LinePrinted | user/sh.c:346-360 | A printed list parses back to itself. |
| ShellTrip.RoundTrip | user/sh.c:329-447 | Every command tree with fewer than MAXARGS words per command, printed, parses to itself: no tree is out of reach of the parser. |
| ShellGrammar.LineSound | user/sh.c:346-360 | What is parsed off the front of a line has a derivation in the grammar, with the tree built from it. |
| ShellGrammar.LineComplete | user/sh.c:346-360 | Every derivation, followed by the end or a closing parenthesis, is parsed to its tree. |
| ShellGrammar.Language | user/sh.c:329-447 | A command line parses to a tree if and only if it has a derivation with that tree. |
| ShellGrammar.FailsExactly | user/sh.c:329-447 | The parser panics if and only if the line has no derivation. |
| ShellGrammar.Unambiguous | user/sh.c:329-447 | Two derivations of one line give the same tree. |
| ShellParse.Parseredirs | user/sh.c:376-398 | Parses exactly the redirections of the grammar and fails exactly where it does, leaving the rest of the line. |
| ShellParse.Parseexec | user/sh.c:417-447 | Parses exactly the simple or parenthesised command of the grammar, arguments and redirections in order, and fails exactly where it does, in particular at MAXARGS words. |
| ShellParse.Parseblock | user/sh.c:401-414 | Parses exactly the parenthesised command of the grammar and fails exactly where it does. |
| ShellParse.Parsepipe | user/sh.c:363-373 | Parses exactly the pipeline of the grammar and fails exactly where it does. |
| ShellParse.Parseline | user/sh.c:346-360 | Parses exactly the line of the grammar and fails exactly where it does. |
| ShellParse.Strlen | user/sh.c:334-334 | The length of the line in the buffer. |
| ShellParse.LineWords | user/sh.c:346-447 | Every word in a parsed tree is a maximal word of the line. |
| ShellParse.Untouched | user/sh.c:451-494 | No word ends inside another, so no terminator lands in a word. |
| ShellParse.Nulterminate | user/sh.c:451-494 | A NUL behind every word of the tree, and no other byte changes. |
| ShellParse.Parsecmd | user/sh.c:329-343 | The grammar's tree for the whole line, or failure exactly where the grammar fails; each word is a NUL-terminated string in place with its own characters. |
| Grep.HereOne | user/grep.c:84-95 | A literal or dot matches one character, then the rest. |
| Grep.HereEnd | user/grep.c:84-95 | A final $ matches exactly the end. |
| Grep.HereStar | user/grep.c:98-105 | A starred item matches any number of characters, then the rest. |
| Grep.Match | user/grep.c:72-81 | True exactly when the pattern, cut into items, matches some stretch of the text (the beginning for ^); GrepPattern says what the items and the matches are. |
| Grep.Matchhere | user/grep.c:84-95 | True exactly when the items match a beginning of the text. |
| Grep.Matchstar | user/grep.c:98-105 | True exactly when c*, then the items, match a beginning. |
| GrepPattern.PrintItems | user/grep.c:84-105 | Cutting a pattern into items loses nothing: spelled out again, the items are the pattern. |
| GrepPattern.ItemsPrint | user/grep.c:84-105 | Every sequence of items that can be spelled is what its spelling is cut into. |
| GrepPattern.EndExactly | user/grep.c:84-95 | A pattern asks for the end of the text if and only if its last character is $. |
| GrepPattern.PlainMatches | user/grep.c:72-95 | A pattern without special characters matches exactly the texts that contain it. |
| GrepPattern.PlainBegins | user/grep.c:72-81 | With ^ in front, exactly those that begin with it. |
| GrepPattern.PlainEnds | user/grep.c:84-95 | With $ behind, exactly those that end in it. |
| GrepPattern.PlainWhole | user/grep.c:72-95 | With both, exactly that text. |
| GrepPattern.StarWhole | user/grep.c:84-105 | ^c*$ matches exactly the texts of that character only, and any text for a dot. |
| GrepPattern.DotWhole | user/grep.c:84-95 | ^.$ matches exactly the texts of one character. |
| GrepPattern.SelectedCons | user/grep.c:11-34 | The selected lines are, line by line, those that match, each with its newline. |
| GrepPattern.SelectedAll | user/grep.c:11-34 | With a pattern that every text matches, the selected lines and the unfinished one are the input. |
| Grep.SelectedAppend | user/grep.c:11-34 | Selecting lines from input read in two parts needs only the unfinished line of the first part. |
| Grep.ShownAll | user/grep.c:11-34 | If every line fits the buffer, all matching lines are shown. |
| Grep.ShownExactly | user/grep.c:11-34 | The lines shown are all matching lines if and only if none matches from the first that does not fit the buffer on. |
| Grep.LongLineLost | user/grep.c:17-33 | A first line of buffer length is not shown though it matches, whatever follows it. |
| Grep.Stops | user/grep.c:17-33 | Where read() returns nothing, no further line would be shown. |
| Grep.Strchr | user/grep.c:21-21 | The next newline, if any. |
| Grep.Cstring | user/grep.c:21-24 | The characters up to the first NUL, as match() reads them. |
| Grep.Line | user/grep.c:22-27 | The line, ended by a NUL in place of its newline, is shown with its newline exactly if it matches; the rest of the buffer is as it was. |
| Grep.Lines | user/grep.c:20-28 | Exactly the matching complete lines of the buffer, in order. |
| Grep.Fill | user/grep.c:17-19 | The bytes read follow the unfinished line. |
| Grep.Move | user/grep.c:30-31 | The unfinished line moves to the front of the buffer. |
| Grep.Round | user/grep.c:17-33 | One read: the output grows by the matching lines it completed, and the buffer holds the unfinished line. |
| Grep.GrepFile | user/grep.c:11-34 | The output is the matching lines up to the first that does not fit the buffer, however read() cuts the input, and all matching lines if and only if none matches from there on. |

## Left out

- Vm.Mmu: trampoline and trapframe pages (kernel/proc.c:192-232) are not mapped in the modelled page tables, and a page-table entry is a record of its bits, not a 64-bit word.
- Vm.Mmu.Mappages: the panic on remapping and on size 0 is a precondition; the callers modelled here establish it.
- Vm.Mmu.Uvmunmap: its panics on an unaligned or unmapped page are preconditions; the callers modelled here establish them.
- Grow.Uvmalloc: physical memory is assumed to have no more frames than the address space has pages, as on this machine.
- Procs.Machine.Create: stands for the empty page table of a new process; exec(), uvmfirst() and copyinstr() are not modelled, so programs start with an empty address space and grow by sbrk.
- Procs.Machine.Run: operations run one after the other; the interleaving of two CPUs inside one operation is modelled for the allocator only (KallocRace).
- Procs.Machine.Load: what a process sees is the bytes of its user pages; the execute permission is kept per page but not part of what it sees.
- Kalloc.Kmem.Kfree: its panics, and those of increse(), are preconditions; KallocRace.StepKeeps shows that they are unreachable.
- KallocRace.RunKeeps: lock sections are the atomic steps; the spin lock itself (kernel/spinlock.c) is not modelled.
- LogCrash.RunRecovers: a block write is atomic and writes reach the disk in order, as the commit protocol assumes.
- Log.Log.LogWrite: the two panics are its preconditions; LogSpace.LogLargeEnough says exactly when the first cannot happen.
- Log.Log.constructor: the header on disk must hold a count of at most LOGSIZE, as every header written by write_head() does; initlog() does not test it.
- Log.Log.FinishCommit: runs in one piece; that nothing else touches the log meanwhile is LogSpace.CommitUndisturbed.
- Log.Log.BeginOp: sleeping is the result false; that a sleeper is eventually admitted is not stated.
- LogSpace.RunKeeps: each operation is given at most MAXOPBLOCKS different blocks; that the code keeps to it is proved for filewrite() (Fs.Disk.Filewrite) and itrunc() (FsFree.MapBlocksFew), not for directory operations.
- Bio.Bcache.Bget: a reference is a token that its user does not hold already; a process that takes the same buffer twice would wait for itself.
- Bio.Bcache.Release: the caller must have logged or written what it changed; Bio.UnloggedChangeLost says what happens otherwise.
- FsCrash.FilewriteCrash: one filewrite() at a time, so that its chunks are the group commits; the cache starts as the disk, with no block changed and not logged.
- Fs.Disk.Do: one process at a time, with the inode locked and inside a transaction; the cache and the log below it are the modules Bio and Log.
- Fs.Disk.Bmap: the panic for a block number beyond MAXFILE is a precondition, met by Writei and Readi.
- Fs.Disk.Filewrite: for an inode file only (devices and pipes dispatch elsewhere), and no other process writes the file between its chunks.
- Fs.Disk.constructor: a fresh disk as mkfs would leave it, except that mkfs also writes the root directory and programs.
- ItableSpec.Coherent: one device; the directory code that decides link counts is not modelled.
- Itable.Table.Ialloc: the search and the marking; the iget() that follows is the separate method Iget.
- Itable.Table.Iget: each reference is a fresh token, so a process may hold many.
- Itable.Table.Window: its steps run one after the other here, as do those of Iput and Leave; ItableSpec interleaves them.
- SleepWakeup.RunKeeps: one sleeplock and its channel, with every other use of sleep() left out (wait() has its own in ExitWait); the panics of sched() about noff and interrupts are covered as "holds p->lock and no other lock".
- SleepWakeup.OneCpu: the round-robin loop only; the branch under `#ifdef FCFS` (kernel/proc.c:476-511) is not modelled.
- SleepWakeup.NoLostWakeup: a safety statement; RoundRobin.EverySlot says that the scheduler loop passes over no process, not that a CPU keeps running it.
- Sleeplock.NoDeadlock: says that a step is enabled, not that it is taken.
- ExitWait.RunKeeps: RUNNABLE and RUNNING are one state; exit status values and waitx() timing are left out; kill() of a process that sleeps elsewhere than in wait() is in SleepWakeup.
- WaitRuns.WaitLockMoves: says that a step is enabled, not that it is taken.
- Virtio.Queue.constructor: the device handshake of virtio_disk_init() is not modelled; the device is the two methods DeviceTake and DeviceComplete, which may complete requests in any order.
- Virtio.Queue.DeviceComplete: the device succeeds; a device that reports an error would reach the panic in virtio_disk_intr().
- Virtio.Queue.Start: block numbers are below 2^31, so that the sector number does not wrap; sleeping for descriptors, and for completion, is left to the caller; memory barriers are not modelled.
- Pipe.Ring.Close: freeing the page when both ends are closed is not modelled.
- Pipe.Ring.Read: bytes are delivered as a sequence; the addresses they go to are the subject of UserCopy.
- Umalloc.Allocator.Malloc: for a request above 0x7FFFFFE0 bytes it describes what malloc() takes for its own, not what sbrk() gave it; a heap of 2^32 units or more, which 32-bit sizes could not describe, is not modelled.
- Umalloc.Allocator.Free: the pointer must be one that malloc() returned and that was not freed since, as the C library demands.
- ShellParse.Parsecmd: panic() is the result false; running the commands (runcmd) is not modelled.
- ShellTrip.RoundTrip: a tree with MAXARGS or more words in a command is refused by the parser, which ShellParse.Parseexec states.
- Grep.GrepFile: input with a NUL byte, on which the C string functions stop early, is excluded; the pattern is a string without NUL.
- Directories, path lookup, exec, signals and alarms, process statistics (cps, chpr, waitx), system-call tracing, console, UART and interrupt controllers, assembly and boot code, mkfs and the other user programs are not modelled.
