# Verified models of the xv6-64 kernel and its user programs

This project models the parts of xv6-64 that carry state across steps, crashes, processes and
address spaces, and proves what they promise. Every operation the kernel performs in place is a
class with methods that update fields, proved against functions and predicates over plain
values; what the system promises is then proved of those values for every input, every run or
every reachable state. Concurrency is a step machine: any number of processes, any interleaving.

`dafny verify dfyconfig.toml` covers all files.

## What is modelled

- **Write-ahead log** (`WriteAheadLog`, `GroupCommit`, `GroupCommitResults`, `GroupCommitCrash`,
  `GroupCommitBuffers`). The block writes of `commit` and `recover_from_log` in order; crashes after
  any of them and inside recovery any number of times; and the protocol of `begin_op`, `log_write`,
  `end_op` over which operations commit together, with the buffers that logged blocks pin.
- **Buffer cache** (`BufferCache`, `BufferRecency`, `BufferList`, `LogManager`, `LogOperation`). The
  cache as a value with a plain map of blocks beside it, the order in which it recycles buffers, the
  doubly linked LRU list of `bio.c`, the log code running on it, and one file-system operation through
  both.
- **Files** (`FileContent`, `FileWrites`, `FileTruncate`, `FileLogging`, `Bitmap`, `FileSystem`).
  Direct and indirect blocks, the free-block bitmap, `readi`, `writei`, `itrunc` and `filewrite`,
  against a file as a sequence of bytes, and which disk blocks a write passes to `log_write`.
- **Page tables** (`PageTree`, `PageTable`, `AddressSpace`, `AddressSpaceCopy`,
  `AddressSpaceFree`, `PageBytes`, `UserBytes`, `UserPages`, `PageWalk`). Frames, the `kalloc` list and
  four-level tables in frames, against a flat map from user pages to entries, and the bytes that a
  program reads through them. A 64-bit word is written as its frame number and its low
  twelve bits, and `PageWalk` translates an address from the words in memory alone, with the bits of
  every level, as in 4-level paging (sections 4.5 and 4.6 of the Intel SDM, volume 3A).
- **Processes** (`SleepWakeup`, `SleepLock`, `ProcTable`, `ExitWait`, `ZombieReaping`, `KilledFlag`,
  `ProcFrames`, `ProcLoops`).
  `sleep` and `wakeup` step by step, sleep locks on top of them, and `fork`, `exit`, `wait`, `kill`
  with the kernel stacks and page tables they and `exec` allocate and free.
- **Shell** (`ShellSyntax`, `ShellParser`, `ShellWords`, `ShellSource`, `ShellRoundTrip`,
  `ShellComplete`, `ShellLayout`). The recursive-descent parser of `sh.c`, against a grammar whose
  trees keep every word, redirection, parenthesis and blank of a line, and say what the line means.
- **Disk driver** (`IdeQueue`, `IdeDriver`), **pipes** (`PipeRing`, `PipeProtocol`, `PipeCalls`),
  **exec's stack** (`ExecStack`), the **user allocator** (`FreeList`, `Umalloc`) and **grep's matcher**
  (`Grep`).
- `Optional`, `Counting` and `Sealing` hold what several of these share.

Where a result speaks of what happened in a run, such as which bytes a call stored or when a buffer was
released, an observer beside the machine collects it from the events and the states; the steps of the
machine do not keep the record themselves.

Clocks, devices and code outside the model enter as parameters: what `sbrk` returns, whether the
drive reports an error, which buffer a process changes. A panic is an outcome of its own.

## Where the code does not keep what it seems to promise

Each item names the member with the exact condition and, except for the last, one with a concrete
run or input or a proof that there is one.

- `log_write` checks the size of the transaction before it takes the log's lock, and `begin_op`
  lets a second operation in while the first may still add ten blocks. A transaction can reach
  10 + 2k blocks when an operation adds at most k, so with `LOGSIZE` 30 and the 30-block log that
  mkfs makes, operations that use their full allowance of `MAXOPBLOCKS` can panic and can outgrow
  the 29 slots of the log region; k up to 9 is safe (`TooBigPanicIff`, `LogOverflowIff`). In a region
  of fewer than `NBUF` blocks a commit that outgrew it writes over the block after it, and a crash
  then leaves a disk that recovery does not bring back to whole operations. From `NBUF` blocks on,
  and mkfs makes just that many, such a transaction has every buffer pinned and `commit` panics
  before its first write (`CrashSafeIff`, `OverrunLosesBlock`).
- `NBUF` equals `LOGSIZE`, so a transaction of 30 blocks pins every buffer and leaves `commit`
  without one for its first log block. Operations of `MAXOPBLOCKS` get there in the 30-block region of
  mkfs: three callers can pass the size test together. It cannot happen when operations add at most 9
  blocks, or when the region has at most `NBUF` - 2 (`NoBuffersIff`, `PinsAll`).
- `MAXOPBLOCKS` is said to bound what any file-system call writes, but `filewrite` computes the length
  of its pieces from `LOGSIZE`: an operation of it that writes a full piece of 6656 bytes always logs
  at least 13 blocks, and up to 17 on a disk of at most 4096 (`FileSystem.OpenFile.FileWrite`). An
  operation keeps to what it reserved as long as its data blocks, the table, the bitmap and the inode
  do (`LoggedCount`). `TooBigPanicIff`, `LogOverflowIff`, `CrashSafeIff` and `NoBuffersIff` hold for
  operations of any number of blocks; from 10 on the panic of `log_write` is within reach whatever
  the size of the log.
- `pipewrite` returns on a full pipe without waking readers when its process was killed. A reader
  that slept before the bytes came stays asleep with 512 of them to read (`ReadersOkIff`,
  `StrandedReader`).
- `kill` does not look at the state of the entry whose pid it matches, and neither `allocproc` nor a
  `fork` that fails clears the flag. `kill(0)`, or a kill of a child whose `fork` then fails, leaves an
  unused entry marked, and the next process there is born killed (`UnusedCleanIff`, `BornUnmarked`,
  `BornMarked`).
- `ideintr` marks a buffer valid and clean although the drive reported an error, so `iderw` then
  returns bytes that are not the disk's, or drops a write (`ServiceIsMemRwIff`, `FailedRead`,
  `FailedWrite`). memide has no such case.
- `kalloc` panics when no frame is left, although its comment and its callers speak of 0. The
  model follows the code (`PageTable.Machine.Kalloc`).

## Model

| member | source | states |
|---|---|---|
| `WriteAheadLog.PutHeader` | log.c:102-113 | the header `write_head` leaves reads back as the same list, whatever older words stay behind it |
| `WriteAheadLog.RecoveryPrefix` | log.c:70-82 | after any number of recovery's writes the disk still stands for the same home blocks, and after the last one the log is empty |
| `WriteAheadLog.Recovered` | log.c:116-122 | a finished recovery leaves in every home block the last logged copy of it, or what it held |
| `WriteAheadLog.InterruptedKeepsMeaning` | log.c:116-122 | recovery cut short any number of times at any points changes nothing about what the disk stands for |
| `WriteAheadLog.CommitPrefix` | log.c:176-200 | after k block writes of a commit the disk stands for the old home blocks up to the header write and for the updated ones from it on |
| `WriteAheadLog.CommitComplete` | log.c:191-200 | a finished commit leaves the updated home blocks and an empty log |
| `WriteAheadLog.CrashAtomicity` | log.c:69-122 | crash after any write of a commit, then anywhere inside recovery any number of times, then one full recovery: all logged blocks are updated or none is |
| `GroupCommit.StepKeepsInv` | log.c:125-172 | every step of any process, of a commit, of a crash or of recovery keeps the log invariant |
| `GroupCommit.RunKeepsInv` | log.c:125-231 | so does every run, where the log region has room for what is admitted or at least NBUF blocks |
| `GroupCommitResults.CrashKeepsWholeOperations` | log.c:125-172 | stop any run anywhere and recover with interruptions: the disk is a history that holds each file-system operation whole or not at all |
| `GroupCommit.RunKeepsBooks` | log.c:125-172 | for a log region of any size and operations of any number of blocks, every run keeps the counts of operations, logged blocks, buffers and reservations in step with the phase of the log |
| `GroupCommitResults.CommitsAreQuiescent` | log.c:125-172 | for a log region of any size and operations of any number of blocks, a commit runs with no operation in progress and admits none; with none in progress every update is among those whose header was written (what the disk then holds is CrashKeepsWholeOperations); at most three operations are in progress, each logged block once and with a buffer of its own; operations of at most MAXOPBLOCKS stay within what they reserved |
| `GroupCommitResults.NoCommittingPanic` | log.c:146-172 | for a log region of any size and operations of any number of blocks, the panic of `end_op` is unreachable and the in-memory block list is never overrun |
| `GroupCommitResults.TooBigPanicIff` | log.c:212-220 | for operations of up to k blocks, k any positive number, `log_write`'s panic is unreachable exactly when 10 + 2k is below both LOGSIZE and the log size minus one |
| `GroupCommitResults.LogOverflowIff` | log.c:212-231 | a transaction never outgrows the slots of the log region exactly when 10 + 2k is below its size or the region is larger than the cache, because two callers can pass the size test together |
| `GroupCommitCrash.CrashSafeIff` | log.c:125-231 | crashes keep operations whole in every run exactly when 10 + 2k is below the size of the log region or the region has at least NBUF blocks, where commit panics for want of a buffer before it writes |
| `GroupCommitCrash.OverrunLosesBlock` | log.c:212-231 | otherwise there is a run that overruns the region and whose crash in the commit leaves a disk that recovery does not bring to the durable operations |
| `GroupCommitBuffers.NoBuffersIff` | bio.c:78-93 | over all runs, every commit finds a buffer exactly when 10 + 2k is below NBUF or the log region has at most NBUF - 2 blocks; the same condition decides whether a bread of any operation or commit can meet the panic of bget |
| `GroupCommitBuffers.PinsAll` | param.h:10-12 | otherwise there is a run in which three operations that pass the size test together reach a commit with every buffer pinned |
| `BufferCache.StepInv` | bio.c:62-141 | every step of bget, lock, fill, modify, log_write, bwrite, brelse keeps the list a permutation, each block in at most one buffer, and valid buffers equal to the plain map |
| `BufferCache.RunInv` | bio.c:39-141 | so does every run from binit |
| `BufferCache.CacheIsTransparent` | bio.c:97-107 | in every run whoever holds a buffer sees, after bread's fill, what a plain map of blocks would hold, and no other buffer caches the block |
| `BufferCache.DirtyIsPinned` | bio.c:62-93 | bget never changes a dirty or referenced buffer, and panics exactly when no buffer caches the block and none is reusable |
| `BufferRecency.RecyclesOldest` | bio.c:78-141 | in every run a bget that recycles takes, among the clean buffers not in use, the one released longest ago |
| `BufferCache.BreadSucceeds` | bio.c:97-107 | with nobody holding the block, bread succeeds exactly when the block exists and a buffer is cached for it or reusable |
| `BufferList.UnlinkKeepsLinks` | bio.c:132-133 | the two assignments that unlink a buffer leave a doubly linked list of the others in order |
| `BufferList.PushFrontKeepsLinks` | bio.c:134-137 | the four assignments that link a buffer in at the head leave it first, the others after it |
| `BufferList.BufCache.constructor` | bio.c:39-57 | binit's loop builds the list of all buffers and the empty cache |
| `BufferList.BufCache.FindBlock` | bio.c:69-76 | the search from the head returns the first buffer for the block, or the head sentinel |
| `BufferList.BufCache.FindReusable` | bio.c:81-91 | the search from the tail returns the last unreferenced clean buffer, or the sentinel |
| `BufferList.BufCache.BgetRef` | bio.c:62-93 | bget up to its sleep lock is the cache's Get step, or its panic |
| `BufferList.BufCache.Iderw` | memide.c:39-60 | a dirty buffer is written, a clean invalid one is read, and it ends valid and clean |
| `BufferList.BufCache.Bread` | bio.c:97-107 | bread waits exactly if another process holds the block, with its reference taken; otherwise it does Get, Lock and Fill, and fails exactly when the block does not exist or no buffer is to be had |
| `BufferList.BufCache.Bwrite` | bio.c:110-116 | bwrite is the cache's Bwrite step |
| `BufferList.BufCache.MoveToFront` | bio.c:131-138 | the six pointer assignments move one buffer to the front and keep the order of the rest |
| `BufferList.BufCache.Brelse` | bio.c:121-141 | brelse is the cache's unlock and Put steps |
| `LogManager.Log.CopyBlock` | log.c:75-80 | one round of the copying loops writes exactly one block with the cached contents of the other, and succeeds when buffers are to be had |
| `LogManager.CleanIff` | bio.c:78-93 | a buffer is left to recycle exactly as long as fewer than NBUF blocks are pinned |
| `LogManager.Log.WriteLog` | log.c:176-188 | write_log's writes are the slot writes of the commit, in order; with the logged blocks pinned it completes exactly if they are fewer than NBUF |
| `LogManager.Log.InstallTrans` | log.c:70-82 | install_trans's writes are the home-block writes, in order, and it leaves nothing pinned |
| `LogManager.Log.ReadHead` | log.c:86-97 | the in-memory list becomes the list on disk |
| `LogManager.Log.WriteHead` | log.c:102-113 | the header block on disk and in the cache records the in-memory list |
| `LogManager.Log.Commit` | log.c:191-200 | commit's block writes are exactly those CrashAtomicity speaks of, and a transaction of pinned blocks commits exactly if it has fewer than NBUF of them |
| `LogManager.Log.RecoverFromLog` | log.c:116-122 | recovery's block writes are exactly those of the model and leave the recovered disk |
| `LogManager.Log.LogWrite` | log.c:212-231 | a block is absorbed or appended, its buffer is pinned, and it refuses exactly by its size and outstanding tests |
| `LogManager.Log.Update` | log.c:206-211 | bread, change, log_write, brelse: the block is logged, pinned and as written in the cache, the disk is untouched, and it fails exactly by log_write's tests, never for want of a buffer |
| `LogOperation.Operation` | log.c:125-231 | a whole operation completes exactly if log_write accepts its blocks and they are fewer than NBUF; all its writes are then in their home blocks, the log is empty and nothing is pinned |
| `FileContent.PtrStored` | fs.c:364-370 | storing one little-endian block pointer in a table changes that entry and no other |
| `FileContent.OwnedMeaning` | fs.c:52-89 | a bitmap bit is set iff the block is metadata or some direct, indirect or table slot refers to it, and no two slots refer to one block |
| `FileContent.GiveDirectOwned` | fs.c:353-357 | a fresh block given to a direct slot keeps that discipline |
| `FileContent.GiveIndirectOwned` | fs.c:361-371 | and so does one given to an entry of the indirect table |
| `FileWrites.SpliceAt` | fs.c:471-476 | every byte of a spliced file is the new one inside the range and the old one outside it |
| `FileWrites.SpliceChunks` | fs.c:471-476 | writing two adjacent chunks is writing their concatenation once |
| `FileWrites.WriteDone` | fs.c:471-482 | when all chunks are in place and the size is set the file is the old one with the buffer spliced in, without holes, and other files are as they were |
| `FileWrites.OtherContent` | fs.c:471-482 | a write that keeps the blocks of another file keeps its bytes |
| `FileWrites.SplicedTrans` | file.c:131-150 | two adjacent successful writes are one |
| `Bitmap.SetBitBits` | fs.c:62-64 | setting a block's bit through byte and mask sets that bit and no other |
| `Bitmap.ClearBitBits` | fs.c:82-87 | clearing it clears that bit and no other |
| `Bitmap.FindFree` | fs.c:58-72 | balloc's double loop finds the first clear bit, or there is none |
| `Bitmap.MaskShifts` | fs.c:61 | bit 0 of a byte is its lowest, and each mask is the one before it shifted by one |
| `FileTruncate.FreeNext` | fs.c:390-404 | every block itrunc frees has its bit set at that moment, so bfree's panic is unreachable |
| `FileTruncate.TruncatedOwned` | fs.c:384-411 | truncation frees exactly the file's blocks, empties it, and leaves every other file alone |
| `FileLogging.LoggedCount` | file.c:127-133 | a write logs every data block it touches, all different, and beside them at most the table, the bitmap and, exactly if the file grew, the block of its inode: how many disk blocks that is, from below and from above |
| `FileLogging.BitmapBlocks` | fs.h:44-48 | the bitmap has as few blocks as give every disk block a bit |
| `FileSystem.FileSystem.Balloc` | fs.c:53-72 | the first free block is taken, marked and zeroed, its bitmap block and the block itself are logged, and it fails only when none is free |
| `FileSystem.FileSystem.Bmap` | fs.c:349-376 | an allocated block is returned, nothing changes and nothing is logged; at the end of the file one block, and the table if needed, is allocated, and what is logged lies among the block, the table and the bitmap |
| `FileSystem.FileSystem.Writei` | fs.c:455-484 | writei splices the buffer into the file's bytes, keeps other files, refuses exactly an offset past the end or a write beyond the largest file, leaves the inode on disk as in memory although it writes it only when the file grew, and logs what LoggedCount counts |
| `FileSystem.FileSystem.Readi` | fs.c:427-451 | readi returns exactly the slice of the file's bytes, refuses exactly an offset past the end or a range that reaches 2^32, changes nothing and allocates nothing though it goes through bmap |
| `FileSystem.FileSystem.Bfree` | fs.c:76-89 | the block's bit is cleared, and it panics exactly when the bit was clear |
| `FileSystem.FileSystem.Itrunc` | fs.c:384-411 | itrunc never panics and leaves the truncated file system, on disk too |
| `FileSystem.OpenFile.FileWrite` | file.c:118-154 | a successful filewrite is one splice of the whole buffer although it writes in pieces, one operation each; it fails exactly when the file is not writable, the position is past the end or the file would be too large; each operation logs at most 16 blocks beside the bitmap, and all but the last at least 13 |
| `FreeList.FreedOk` | umalloc.c:25-44 | freeing a block gives one cycle of disjoint free blocks in address order, no two adjacent, and units are conserved |
| `FreeList.WholeOk` | umalloc.c:76-77 | handing out a whole free block keeps all that |
| `FreeList.TailOk` | umalloc.c:79-83 | and so does handing out the tail of one |
| `FreeList.GrownOk` | umalloc.c:54-58 | and so does adding memory from sbrk |
| `FreeList.SizesFit` | umalloc.c:10-16 | no size field exceeds the units obtained, so 32-bit sizes do not wrap when blocks are coalesced |
| `Umalloc.Allocator.FindPlace` | umalloc.c:30-32 | free's search terminates and stops at the free block right before the freed one |
| `Umalloc.Allocator.Free` | umalloc.c:25-44 | the block leaves the blocks in use and the list is coalesced around it |
| `Umalloc.Allocator.Morecore` | umalloc.c:47-61 | at least 4096 units join the list and some free block is then large enough, or nothing changes |
| `Umalloc.Allocator.Search` | umalloc.c:73-90 | one round of malloc's search returns the first block that fits and the one before it, or no free block fits |
| `Umalloc.Allocator.Malloc` | umalloc.c:64-90 | a block of exactly the needed units that overlaps no other is handed out, sbrk is asked at most once and only when no free block fits, and malloc fails only when that request fails |
| `PageTree.AttachSound` | vm.c:170-199 | a frame in hand attached at a vacant slot keeps tables, paths and frames in correspondence |
| `PageTree.DetachSound` | vm.c:321-331 | unmapping a page and freeing its frame keeps it |
| `PageTree.NewSpaceSound` | vm.c:103-109 | a new top-level table with the kernel's slot keeps it |
| `PageTree.TableOfInjective` | mmu.h:136-143 | no two pages share an entry |
| `PageTree.AttachTableFlat` | vm.c:174-197 | creating a table changes no mapping of any address space |
| `PageTree.AttachPageFlat` | vm.c:222-225 | writing an entry changes the mapping of its own page and of no other |
| `PageTree.DetachPageFlat` | vm.c:324-330 | clearing an entry changes the mapping of its own page and of no other |
| `PageTable.IndexSplit` | mmu.h:136-143 | the four indices of a user address name the entry of its page |
| `PageTable.SameEntryIff` | mmu.h:136-143 | two addresses use the same entry exactly when their pages agree in 36 bits |
| `PageTable.UserEntryIff` | mmu.h:136-143 | two user addresses use the same entry exactly when they lie in the same page |
| `PageTable.Machine.constructor` | kalloc.c:41-47 | freerange makes every frame of its range free once |
| `PageTable.Machine.Kalloc` | kalloc.c:77-93 | the head of the list is handed out, and it panics exactly when the list is empty |
| `PageTable.Machine.Kfree` | kalloc.c:54-72 | the frame goes to the head of the list filled with junk, and it panics exactly outside the managed range |
| `PageTable.Machine.Walk` | vm.c:161-200 | the place of the page's entry is found or created, in tables that every level lets the user through (what the processor makes of them is WalkReaches); no mapping changes, no frame is lost, and without alloc nothing changes |
| `PageTable.Machine.MapPages` | vm.c:213-232 | exactly the pages of the range are mapped, each to its frame; none of them was mapped when it succeeds, and one was when it panics with remap |
| `AddressSpace.SetupKvm` | vm.c:103-109 | a new space has no user mapping, shares the kernel's table and changes no other space |
| `AddressSpace.PagesApart` | vm.c:213-232 | two mapped pages of a space have different frames |
| `AddressSpace.SizeFits` | vm.c:279-306 | a space whose pages are mapped from the second one to its size is, with the free frames, no larger than physical memory, so it ends far below 2^47 |
| `AddressSpace.AllocUvm` | vm.c:279-306 | a page is added exactly if it begins at the old size or after it and below the new size; the new pages are zeroed and user-writable and none of them was mapped; free and used frames are the same frames as before; it never succeeds with more pages than free frames, nor with a size above 2^47 |
| `AddressSpace.DeallocUvm` | vm.c:313-334 | a page is removed exactly if it begins at the new size or after it and below the old size, exactly the frames of those are freed, and kfree's panic is unreachable |
| `AddressSpace.ShrinkUndoesGrow` | vm.c:279-334 | growing and shrinking back gives the same mappings and the same frames |
| `UserPages.ClearPteu` | vm.c:388-397 | the page loses PTE_U, no other mapping, table, page or free frame changes, and it panics exactly without a table for the page |
| `UserPages.Uva2ka` | vm.c:432-443 | the frame is returned exactly if the page is mapped with PTE_U, for user addresses and for addresses that wrapped around below 2^64, and nothing changes |
| `UserPages.StackPages` | exec.c:63-68 | the first two pages that begin at the end of the image or after it are added; the upper one is writable by the user and reads as zeros, the lower one is not the user's, and every other mapping and every byte outside the two is as it was |
| `PageWalk.WalkReaches` | vm.c:161-232 | the processor's walk from the root, over the words in memory and with the present, user and write bits of all four levels, ends at the entry of the page with that entry's own bits, or misses exactly if the page is not mapped |
| `PageWalk.ProgramSees` | vm.c:213-232 | a load by the program yields the byte of the flat map exactly where the page is mapped for the user, and a store is allowed exactly where it is writable too |
| `PageWalk.ProgramSeesNoKernel` | vm.c:103-109 | no address from 2^47 on can be loaded or stored to by a program, the kernel's shared table included |
| `PageWalk.GrownIsUsable` | vm.c:279-306 | the program loads zeros from the pages allocuvm added, and may store to them |
| `PageWalk.SizeIsUsable` | vm.c:279-306 | a program that can store to all its memory up to the old size can store to all of it up to the new one |
| `AddressSpaceCopy.CopyUvm` | vm.c:402-429 | the child gets its own copy of a page exactly if the page begins above 0 and below the size, with the same words and flags, the parent is unchanged, and the panics happen exactly for a missing page or a missing frame |
| `AddressSpaceCopy.CopiesDisjoint` | vm.c:417-423 | no frame of the child is a frame of the parent |
| `AddressSpaceFree.FreeLevel` | vm.c:350-381 | one of the four nested loops frees everything below a table, then the table, and nothing else |
| `AddressSpaceFree.FreeVm` | vm.c:339-384 | exactly the frames of the space return to the free list, each once; other spaces and the shared kernel table stay |
| `PageBytes.PutByteAt` | vm.c:463 | storing one byte in a frame changes that byte of its words and no other |
| `PageBytes.MoveIn` | vm.c:463 | the memmove into a frame puts the bytes in place and keeps every other byte of the frame |
| `PageBytes.JunkBytes` | kalloc.c:62 | every byte of a frame that kfree fills is 1 |
| `PageBytes.DigitsSum` | exec.c:79-88 | the bytes of a word, weighted by powers of 256, sum up to it |
| `UserBytes.FramesApart` | vm.c:213-232 | two mapped pages, of one space or of two, have different frames |
| `UserBytes.PieceStored` | vm.c:456-466 | one round of copyout puts its piece where the program reads it through its page tables, and every other byte of every space stays |
| `SleepWakeup.RunKeepsInv` | proc.c:370-424 | in every interleaving a process inside sleep or wakeup holds the locks its place in the code says |
| `SleepWakeup.NoLostWakeup` | proc.c:370-424 | once a process holding lk has scanned for chan, everyone who called sleep(chan, lk) before is runnable |
| `SleepWakeup.OnlyWakesEndWaiting` | proc.c:408-448 | a sleeper stops waiting only by a scan for its channel or by kill |
| `SleepWakeup.SleepReturnsWithLock` | proc.c:396-403 | sleep returns with lk held |
| `SleepLock.StepKeepsInv` | sleeplock.c:23-41 | every step of acquiresleep and releasesleep, and of other code beside them, keeps the sleep-lock invariant |
| `SleepLock.MutualExclusion` | sleeplock.c:23-41 | in every run a sleep lock has at most one owner, and locked is set exactly while it has one |
| `SleepLock.NoStuckSleeper` | sleeplock.c:23-41 | in every run whoever sleeps for a lock does so while it is held or its releaser is on the way to wake it |
| `SleepLock.TestDecides` | sleeplock.c:23-33 | in every run a process that tests the lock goes on to take it exactly if nobody owns it, and sleeps exactly if somebody does |
| `ExitWait.StepKeepsInv` | proc.c:133-259 | every step of fork, exec, exit, wait, sleep, wakeup, kill and the scheduler, interrupts among them, keeps the process-table invariant |
| `ExitWait.WaitedOnce` | proc.c:176-259 | in every run an exited process is a zombie or was returned by wait, not both, and by only one wait, of the parent it was born to or of init |
| `ExitWait.NoParentAsleep` | proc.c:198-258 | in every run nobody sleeps in wait who has a zombie child |
| `ExitWait.ZombieHasParent` | proc.c:200-208 | in every run a zombie has a live parent to wait for it |
| `ExitWait.WaitDecides` | proc.c:226-258 | whoever scans for its children in wait does exactly one of three things: it reaps, it fails or it goes to sleep |
| `ExitWait.SleepersStayAsleep` | proc.c:195-212 | in every run a step wakes a sleeper exactly if it is a wakeup of its channel, a kill of it, or an exit that leaves a zombie to it while it is in wait |
| `ExitWait.WhoRuns` | proc.c:262-345 | in every run a process that runs goes on until it exits, sleeps or yields, and only the one the scheduler picks begins to |
| `ZombieReaping.OnlySleepersOnChannels` | proc.c:389-403 | in every run whoever sleeps is on a channel and whoever runs is on none |
| `ZombieReaping.EveryZombieCanBeReaped` | proc.c:176-259 | every run that leaves a zombie can go on to a wait that returns it: its parent can be woken and scheduled, can finish the fork or exec it is in, and reaches it after the zombies before it |
| `KilledFlag.FlagChanges` | proc.c:235-244 | kill of an entry sets its flag, the wait that reaps it clears it, and nothing else changes it |
| `KilledFlag.UnusedCleanIff` | proc.c:430-447 | a step leaves an unused entry marked exactly if it is a kill that finds an unused entry or a fork that gives back a killed child |
| `KilledFlag.BornUnmarked` | proc.c:42-59 | in every run without such a step each process is born unmarked |
| `KilledFlag.BornMarked` | proc.c:434-443 | a run from boot in which the first child is born marked: init calls kill(0) and forks |
| `ProcFrames.StepKeepsFrames` | proc.c:56-59 | every step keeps each frame free once or in one use as a stack or page table, and none lost |
| `ProcFrames.FramesConserved` | proc.c:133-243 | in every run each process has a stack and a page table, no two uses share a frame, no frame in use is free, none was freed twice and none is lost, through failing forks and execs |
| `ProcFrames.HeldUntilReaped` | exec.c:98-104 | from any reachable state on, until wait returns a process its stack stays the same frame and its page table too unless it calls exec, and neither is free |
| `ProcFrames.FreedByWait` | proc.c:235-243 | the wait that returns a process frees its stack and its page table, two frames in use until then, once each, and no other frame |
| `ProcLoops.Table.Wakeup1` | proc.c:408-415 | the loop makes runnable exactly the processes asleep on the channel |
| `ProcLoops.Table.ExitCore` | proc.c:195-212 | exit wakes the parent, hands all children to init, wakes init iff one of them is a zombie, and leaves a zombie |
| `ProcLoops.Table.WaitScan` | proc.c:226-258 | one scan reaps the first zombie child and frees its stack and page table, and otherwise fails or sleeps exactly as children and killed say |
| `ProcLoops.Table.Kill` | proc.c:430-448 | the first process with the pid is marked and woken, or there is none |
| `ProcLoops.Table.AllocProc` | proc.c:40-55 | the first unused entry becomes an embryo with the new pid, or there is none |
| `ShellRoundTrip.RoundTrip` | sh.c:331-449 | every line of the grammar, with any words, redirections before, between and behind them, parentheses and white space, parses to the tree it means |
| `ShellRoundTrip.LineOf` | sh.c:348-449 | the same for a line inside a longer one, before its end or a closing parenthesis |
| `ShellRoundTrip.AddArgWords` | sh.c:436-441 | an argument goes behind the words of the command whatever redirections are around it |
| `ShellComplete.Complete` | sh.c:331-449 | every line that parses is a line of the grammar, and the parse is what it means |
| `ShellComplete.ParsesIff` | sh.c:331-345 | parsecmd accepts exactly the lines of the grammar |
| `ShellLayout.TreeRoundTrip` | sh.c:331-449 | every tree with legal words and at most nine arguments, written with only the parentheses that precedence and associativity need or with any others beside them, and parsed, comes back |
| `ShellSyntax.Characters` | sh.c:265-266 | which characters separate words, and which of them are white space |
| `ShellParser.Parser.GetToken` | sh.c:269-311 | the scanning loops return the token and cursor of the specification |
| `ShellParser.Parser.ParseRedirs` | sh.c:378-400 | the loop returns the command inside its redirections, or the missing-file panic |
| `ShellParser.Parser.ParseExec` | sh.c:419-449 | parseexec returns what the grammar functions say, with its panics; what they mean is RoundTrip's and Complete's result |
| `ShellParser.Parser.ParseBlock` | sh.c:403-416 | parseblock returns what the grammar says, with its panics |
| `ShellParser.Parser.ParsePipe` | sh.c:365-375 | parsepipe returns what the grammar says, right-associated |
| `ShellParser.Parser.ParseLine` | sh.c:348-362 | parseline returns what the grammar says, one Back for each ampersand |
| `ShellParser.Parser.ParseCmd` | sh.c:331-342 | parsecmd accepts exactly lines the grammar takes whole |
| `ShellParser.ParseAndTerminate` | sh.c:331-345 | parsing a line in place ends with every word a C string equal to its token |
| `ShellWords.LineWhole` | sh.c:269-449 | every span the parser makes is a whole word of the line |
| `ShellWords.WordsAreCStrings` | sh.c:453-496 | cutting a parsed line at its word ends leaves each word a C string equal to its token |
| `ShellWords.NulTerminate` | sh.c:453-496 | nulterminate overwrites exactly the characters after the words |
| `Grep.HereOne` | grep.c:93-94 | a pattern that begins with a character or a dot matches here iff the first character fits and the rest matches after it |
| `Grep.HereStar` | grep.c:99-106 | a starred character matches here iff the rest matches after some run of fitting characters |
| `Grep.MatchHere` | grep.c:85-96 | returns 1 iff a beginning of the text, the whole of it after a final dollar, is in the language of the pattern |
| `Grep.MatchStar` | grep.c:99-106 | returns 1 iff the rest of the pattern matches after some run of fitting characters |
| `Grep.Match` | grep.c:73-82 | returns 1 iff some part of the text, a beginning of it after a caret, is in the language of the pattern |
| `PipeRing.SlotWraps` | pipe.c:91-115 | a counter that wraps around keeps its place in the ring, because the ring size divides the word size |
| `PipeRing.Ring.IsFull` | pipe.c:85 | the test of the wrapping counters holds exactly when 512 bytes are in the pipe |
| `PipeRing.Ring.Fill` | pipe.c:84-92 | the writing loop appends as many bytes as fit, in order |
| `PipeRing.Ring.Drain` | pipe.c:113-117 | the reading loop takes as many bytes as asked for and there are, oldest first |
| `PipeCalls.FirstInFirstOut` | pipe.c:79-121 | in every run of readers and writers the bytes that reads returned, joined in order, are the first bytes stored, the pipe holds the others, and it never overflows |
| `PipeCalls.CallsWhole` | pipe.c:79-121 | in every run what a write call stored, followed by what it has left, is what it was passed: it returns n exactly with all of it stored, -1 only with a part of it and killed or with the read end closed; a read call returns at most what it asked for, nothing only if it asked for none or the write end is closed, and -1 only if it was killed |
| `PipeCalls.WriteOutcome` | pipe.c:79-95 | a write call gives up exactly if its bytes do not fit and it was killed or nobody can read, sleeps exactly if they do not fit otherwise, and fills the pipe either way |
| `PipeCalls.ReadOutcome` | pipe.c:100-121 | a read call returns what it asked for or all there is, unless the pipe is empty with its write end open; then it sleeps exactly if it was not killed |
| `PipeCalls.PipeCarriesAll` | pipe.c:79-121 | with one writer that is not killed while the read end is open, what reads returned, what the pipe holds and what the call in progress has left is exactly what the writer passed, in order |
| `PipeProtocol.NoWriterStuck` | pipe.c:79-121 | in every run a writer sleeps only on a full pipe whose read end is open |
| `PipeProtocol.NoReaderStuck` | pipe.c:79-121 | in every run without an abandoned write a reader sleeps only on an empty pipe whose write end is open |
| `PipeProtocol.ReadersOkIff` | pipe.c:85-89 | a step leaves a sleeping reader with bytes to read exactly when a killed writer fills the pipe and gives up |
| `PipeProtocol.StrandedReader` | pipe.c:85-89 | a run that does so |
| `IdeQueue.Queue.Append` | ide.c:150-157 | the pointer loop appends the buffer behind all others, and it is the head iff the queue was empty |
| `IdeQueue.Queue.TakeHead` | ide.c:107-113 | the head is taken off, or the queue was empty |
| `IdeDriver.StepKeepsInv` | ide.c:71-165 | every step of a caller, of the drive and of ideintr keeps queue, drive, signals and buffers in step |
| `IdeDriver.DriveServesHead` | ide.c:122-157 | in every run the drive is never given a command while it works or before its signal was taken; it is occupied exactly while something is queued, and always with the command of the head of the queue |
| `IdeDriver.NobodySleepsOnFinished` | ide.c:117-162 | in every run whoever sleeps in iderw has an unfinished request in the queue, and the drive or its interrupt has a step to take |
| `IdeDriver.FifoOnce` | ide.c:102-165 | in every run requests finish in the order they were made, each once, and no buffer is queued twice |
| `IdeDriver.DiskIsMemDisk` | memide.c:38-60 | in every run the disk is what memide makes of the requests as they were made, in order, up to the last one the drive performed and without those that failed |
| `IdeDriver.FaultlessIsMemDisk` | memide.c:38-60 | in every run without an error whose requests are all finished, the disk is what memide makes of all of them in order |
| `IdeDriver.ServiceIsMemRwIff` | ide.c:115-121 | the drive's work on a request and its interrupt do what memide's iderw does exactly if the drive reported no error or disk and buffer agreed already |
| `IdeDriver.OnlyDriverActs` | ide.c:136-165 | nothing but the drive changes the disk, and nothing but its own interrupt a buffer that is in a call |
| `IdeDriver.ReturnedBuffer` | ide.c:160-165 | in every run a caller that looks again returns exactly if its request is finished, with a valid clean buffer that holds the disk's bytes if the request went well |
| `IdeDriver.SleepsUntil` | ide.c:159-162 | in every run a caller sleeps exactly from its request, or from a look before the end of it, to the end of it or to a kill |
| `IdeDriver.FailedRead` | ide.c:116-120 | a run in which a failed read hands out other bytes than the disk's |
| `IdeDriver.FailedWrite` | ide.c:119-120 | a run in which a failed write leaves a clean buffer whose bytes are not on the disk |
| `ExecStack.CopyOut` | vm.c:449-469 | the program reads the data at va exactly when every page it touches is accessible, and otherwise only a beginning of it; every other byte of every space stays; a start that wrapped around faults before anything is stored |
| `ExecStack.PointersRead` | exec.c:77-88 | an array of pointers in memory reads back pointer by pointer, lowest byte first |
| `ExecStack.PushInStackPage` | exec.c:63-78 | a push that ends in the stack page succeeds exactly if it begins there, because below it would touch the guard page |
| `ExecStack.PushOne` | exec.c:71-76 | the next argument is in place exactly if it fits into the stack page, and an argument longer than all memory below sp, whose address wraps around, faults |
| `ExecStack.PushStrings` | exec.c:69-78 | the loop succeeds exactly if there are at most MAXARG strings and they fit into the stack page; the program then reads them whole, aligned and apart from one another |
| `ExecStack.PushArguments` | exec.c:69-89 | it succeeds exactly if the pointers fit below them too: the eight bytes at sp read as the fake return address, those at argv + 8k as the address of the k-th string, and those behind the last one as 0, with argv right above sp |
| `ExecStack.BuildStack` | exec.c:63-89 | from the two pages of allocuvm and clearpteu on, the stack is ready exactly if the arguments fit into the upper one; with loads of its own, through the page tables in memory, the program finds at argv + 8k the address of the k-th argument, there its bytes and a 0, a null pointer behind the last and 2^64 - 1 at sp, and zeros below; outside the two pages every byte is as it was |

## Left out

- WriteAheadLog: the disk is a sequence of 512-byte blocks written atomically; a torn block write is not modelled.
- GroupCommit: operations are bracketed by begin_op and end_op, and one of them holds one buffer at a time beside those it logged; a caller that holds more needs more buffers than NoBuffersIff counts.
- BufferList.BufCache.Bread: ends where it has to wait for the buffer's holder; going on after the wait is an event of the cache's step machine.
- LogManager.Log.Commit: runs the log code with the cache to itself, as a commit with no operation in progress does.
- FileSystem.FileSystem.Writei: device inodes (fs.c:435-438, fs.c:461-464) are left out; the inode table, locking and reference counts of inodes too.
- FileSystem.FileSystem.Itrunc: says what the bitmap and inode are after the call; that the blocks go through the log is the business of the log model.
- Umalloc.Allocator.Malloc: assumes that sbrk returns memory above all memory obtained before and that fewer than 2^32 units are obtained in all, as 224 MB of physical memory ensure.
- PageTable.Machine.MapPages: takes frame numbers, so an unaligned physical address is not modelled; size 0, which no caller passes, is excluded.
- AddressSpace.AllocUvm: a new size between 2^47 and KERNBASE is covered for every old size that leaves the free frames' worth of pages below 2^47, as every address space does (SizeFits); an old size beyond that belongs to no address space.
- AddressSpaceFree.FreeLevel: the four nested loops of freevm are one method called at four levels.
- SleepWakeup.NoLostWakeup: interrupts, pushcli and the scheduler's choice are not modelled; any process may take the next step.
- ExitWait.WaitedOnce: the stores fork makes without ptable.lock are steps of their own; open files and the working directory are left out; pids are unbounded.
- ProcFrames.FramesConserved: a page table stands for its root frame; that freevm returns all its other frames is FreeVm's result.
- PipeCalls.FirstInFirstOut: an end of the pipe is closed only when no process is inside a call on that end, as reference counts of open files ensure.
- IdeDriver.ReturnedBuffer: port input and output and the block-number panic of idestart are left out; BSIZE bytes are one value; the drive raises one interrupt for each command, so an interrupt before its end is not modelled.
- ExecStack.PushArguments: assumes that each argument has at most 2^39 bytes, far more than physical memory, so that a stack pointer that wraps around ends above the user addresses; reading the program from its file is left out.
- ZombieReaping.EveryZombieCanBeReaped: says that the wait can happen, not that the parent's program will call it.
- FileSystem.OpenFile.FileWrite: the blocks an operation logs are recorded beside the file system, whose methods change its blocks at once; that a transaction of them commits whole is the log model's result.
- Grep.Match: the buffered reading loop of grep is left out; it drops a partial line when a read holds no newline, so its output depends on read sizes.
- Directories, path names, system-call argument fetching, the console, traps, spin-lock hardware, boot code and the other user programs would only add easy members or have no core to prove.
