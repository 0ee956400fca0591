# xv6, modelled in Dafny

A model of the parts of the xv6 kernel and user programs under `mmap/xv6` in which the hard
properties lie, with proofs. `dafny verify dfyconfig.toml` checks everything.

| component | files |
|---|---|
| write-ahead log, its crash safety and admission control | `RedoLog`, `LogTransfer`, `Log`, `LogRuns`, `LogContent`, `LogLimits` |
| buffer cache: refinement of a block map, LRU ring | `CacheModel`, `Ring`, `BufferCache` |
| block ownership, file contents, truncation, mkfs | `Blocks`, `FsModel`, `FreeBlocks`, `FileSystem`, `FileIO`, `FileWrite`, `Truncate`, `FsRuns`, `Mkfs` |
| directories, link counts, inode references, path lookup | `LinkModel`, `Directories`, `InodeRefs`, `InodeCache` |
| pages, page tables, address spaces, lazy mmap | `PageTables`, `VirtualMemory`, `AddressSpaces`, `CopyUvm`, `LazyMmap` |
| sleep locks, process table, pipes | `SleepLock`, `Processes`, `ProcTable`, `Pipe` |
| heap allocator | `HeapModel`, `Malloc` |
| shell parser | `ShellGrammar`, `ShellLexer`, `ShellForms`, `ShellParser` |
| grep's matcher | `Grep` |

How it is laid out:

- State that the source updates in place is a class with the same fields; its methods keep the
  loops of the source. A value of the class (`State()`, `Model()`) is the state of a pure model,
  each method is proved to be a transition of that model, and the invariants and theorems are
  about the model. Several of these models carry ownership that the code does not store (who has
  a block, a page, a reference): it is ghost in the classes.
- Code that several processes run at once (log and cache, blocks and inodes, inode references, sleep
  locks, process table, pipes, links) is a state machine whose steps are the stretches of
  code between lock operations, and the theorems are about every state of every run.
- Every invariant is established before it is kept: by `BufferCaches.BufferCache.constructor`,
  `Logs.Log.RecoverFromLog`, `Mkfs.Image.constructor`, `LinkModel.MadeInv`, `InodeRefs.FreshCache`,
  `VirtualMemory.Memory.constructor`, `LazyMmap.SetupAccounts`, `ProcTables.ProcTable.constructor`,
  `Pipes.Pipe.constructor`, `Malloc.Allocator.constructor`, `FsRuns.BootGood`, and the
  initial states of the runs.
- A `panic` is an outcome of the method (a result that says so), or shown not to happen.
- Where a promise does not hold of the code as it is, there is the exact condition under which
  it does, and an input or a run that shows it fail:
  - `log_write` tests the size of the log before it takes the lock. Two of them at once overrun a small
    log (`LogLimits.SmallLogOverrun`, `LogLimits.CrashSafeIff`); with the 30 buffers and the log of 30
    blocks that xv6 has, bget panics first (`LogRuns.StuckStays`, `LogLimits.FullCacheReached`).
  - On the log that `mkfs.c:25` makes, `log_write` panics for operations within their reservations
    (`LogLimits.SmallLogPanics`); on a larger one only when the list is full, but then for blocks
    that are listed already, too (`LogRuns.ChecksIff`, `LogLimits.FullListPanics`).
  - `iput` looks at the count in one step and lowers it in another. Two of them at once leave an
    inode allocated that nobody uses (`InodeRefs.LowerIff`, `InodeRefs.UnlinkedFileLost`).
  - `fileread` reads outside any operation, and panics in a hole (`FileIO.Readi`,
    `Mkfs.RootReadPanics`). `mkfs` rounds the size of the root up and can leave such a hole
    (`Mkfs.RootSizeIff`, `Mkfs.MakeImage`); what is written into it is lost (`FileIO.InodeAlone`,
    `Mkfs.RootEntryLost`).
  - Links, files, directories and lookups in a removed directory (`LinkModel.LinkIffLive`,
    `LinkModel.CreateIffLive`, `Directories.MkdirBreaks`, `InodeRefs.GetIff`,
    `InodeRefs.RemovedParentFreed`).
  - The killed writer of a pipe (`Pipes.NextStuckIff`), `mmap` past the kernel and faults above the
    process size (`LazyMmap.MmapAccounts`, `LazyMmap.FaultAccounts`) or in the kernel half
    (`AddressSpaces.AstrayIsLost`), large requests to `malloc` (`Malloc.RequestIff`).

The parameters are those of `param.h`, `fs.h` and `mmu.h` (BSIZE 512, LOGSIZE 30, MAXOPBLOCKS 10,
NDIRECT 12, PIPESIZE 512, PGSIZE 4096); the numbers of buffers, processes, CPUs, inodes, locks
and blocks are arbitrary.

## Model

| member | source | states |
|---|---|---|
| RedoLog.HeadRoundTrip | mmap/xv6/log.c:85-113 | What write_head stores in the header block is what read_head loads, for every list of at most LOGSIZE block numbers. |
| RedoLog.RecoveryPrefix | mmap/xv6/log.c:69-122 | A recovery cut off after any of its block writes leaves an image that replays to the same home blocks; a completed one has them in place and the log empty. |
| RedoLog.CrashedCommit | mmap/xv6/log.c:177-202 | What a commit cut off after k writes will replay to: the new blocks from the header write on, the old ones before it. |
| RedoLog.CrashAtomicity | mmap/xv6/log.c:69-122 | Crash a commit after any k of its writes and recovery any number of times anywhere: a completed recovery leaves every home block as after the transaction if the header write at line 197 got through, as before it if not. |
| RedoLog.RunAtomicity | mmap/xv6/log.c:177-202 | Cut the writes of any number of commits anywhere: what is recovered is exactly the transactions whose header write got through, each whole and in order. |
| LogTransfer.CopyBlock | mmap/xv6/log.c:177-190 | One turn of the loops of write_log and install_trans: one disk write, of the newest value of the source block; nothing else of the block map changes; it fails only when bget finds no buffer for one of the two blocks. Other processes may use buffers that the commit does not need. |
| LogTransfer.WriteLog | mmap/xv6/log.c:177-190 | The disk writes are a prefix of the copies of the listed blocks into the log: all of them if one buffer is idle, none if none is. |
| LogTransfer.WriteHead | mmap/xv6/log.c:101-113 | One disk write, of the encoded header; every other block keeps its content; it fails, without any change, only when the header is not cached and no buffer is idle. |
| LogTransfer.InstallTrans | mmap/xv6/log.c:69-82 | The disk writes are a prefix of the copies from the log to the home locations, all of them if there is room in the cache; the newest contents do not change. |
| LogTransfer.LogAndDecide | mmap/xv6/log.c:192-197 | write_log then write_head, in that order: all of their writes if one buffer is idle, none if none is. |
| LogTransfer.InstallAndErase | mmap/xv6/log.c:198-202 | install_trans then the empty header, in that order, all of their writes if there is room in the cache. |
| Logs.Admit | mmap/xv6/log.c:125-141 | Admission keeps the listed blocks plus all unspent reservations within LOGSIZE. |
| Logs.Finish | mmap/xv6/log.c:145-163 | An operation that ends gives its reservation back; committing starts exactly when none is outstanding. |
| Logs.Spend | mmap/xv6/log.c:213-233 | An operation with part of its reservation left passes the LOGSIZE check and keeps the bound. |
| Logs.Log.Edit | mmap/xv6/log.c:204-212 | A change of a held buffer inside an operation keeps the log: its block is listed or marked as being changed by that operation. |
| Logs.Log.BeginOp | mmap/xv6/log.c:125-141 | One turn of the wait loop: admitted exactly when no commit runs and the worst case of all outstanding operations fits. |
| Logs.Log.EndOp | mmap/xv6/log.c:145-163 | By an operation that has logged what it changed: the panic "log.committing" cannot happen; the last operation out, and only that one, commits. |
| Logs.Log.NoneOutstanding | mmap/xv6/log.c:145-163 | While a commit runs no operation is outstanding, so no buffer holds a change that has not been logged. |
| Logs.Log.FinishCommit | mmap/xv6/log.c:165-174 | After the commit the log takes operations again. |
| Logs.Log.LogTest | mmap/xv6/log.c:218-221 | The tests, without log.lock: they fail exactly at LOGSIZE listed blocks or with the log full, and for an operation with reservation left never on a log of more than LOGSIZE blocks. |
| Logs.Log.LogAppend | mmap/xv6/log.c:223-233 | Pins the buffer, with its content, and lists its block once (absorption), behind those listed, whatever others have logged since the tests; the list stays one that commit can write if and only if the block was listed or there is still room. |
| Logs.Log.LogWrite | mmap/xv6/log.c:213-233 | Both with nobody in between: it panics exactly when one of the two size checks fails, and otherwise the block is listed, once, its buffer is pinned, no content changes and the list stays legal. |
| Logs.Log.Commit | mmap/xv6/log.c:192-202 | Completes if and only if nothing is listed or some buffer is idle, and then its disk writes are exactly CommitWrites for the newest contents of the listed blocks, no buffer is pinned and the newest contents are unchanged; otherwise it stops before the first write. |
| Logs.Log.ReadHead | mmap/xv6/log.c:85-96 | The loop over the header gives the decoded list. |
| Logs.Log.LoadHead | mmap/xv6/log.c:85-96 | read_head through the cache: the list on disk, with every buffer idle again; it fails exactly without a buffer. |
| Logs.Log.RecoverFromLog | mmap/xv6/log.c:115-122 | Completes if and only if there is one buffer, or two when there is something to install; then its disk writes are exactly RecoverWrites, the disk is the recovered one and the log is ready for use; otherwise it stops before the first write. |
| Logs.TransactionIsContent | mmap/xv6/log.c:177-233 | The disk plus the listed blocks is the newest content of the cache. |
| Logs.CommitCrashSafe | mmap/xv6/log.c:192-202 | Crash safety of the running system: after any crash of a commit and any crashes of recovery the home blocks are the old disk, or from the header write on the newest content of the cache. |
| Logs.FullCacheStuck | mmap/xv6/log.c:177-190 | While nobody uses a buffer, a commit of a legal list finds no idle one if and only if every buffer is pinned by a listed block. |
| Logs.SmallLogLeavesRoom | mmap/xv6/mkfs.c:25-25 | With a log of no more blocks than there are buffers, as mkfs makes it, an undisturbed commit of a list shorter than the log always has its idle buffer. |
| LogRuns.StepSound | mmap/xv6/log.c:125-233 | Every step of every process (bget, locks, bread, brelse, begin_op, changes of held buffers, the tests of log_write and its append as two steps, end_op, each single block write of a commit) and every crash keeps the invariant of cache, log and disk, except an append, which does so if and only if the block is listed or list and log still have room. |
| LogRuns.RoomUnlessLast | mmap/xv6/log.c:213-233 | Where the log is larger than LOGSIZE, or not smaller than the cache, an append always has room whatever has been logged since its tests, except for the last buffer of a cache that is exactly as large as the log. |
| LogRuns.StuckStays | mmap/xv6/log.c:177-190 | In that case every buffer is pinned: until the machine is rebooted the commit makes no write at all. |
| LogRuns.EveryRunCrashSafe | mmap/xv6/log.c:1-22 | For every run from boot on such a log (xv6 has 30 buffers and 30 log blocks), with operations, readers, tests and appends of log_write and commit writes interleaved in any way and crashes anywhere: after one more crash, and any crashes of its recovery, the home blocks are those the cache held at a moment when no operation was under way. Every operation is there as a whole or not at all. Operations have to keep to their reservations only if there are more than LOGSIZE buffers. |
| LogRuns.CommittedStays | mmap/xv6/log.c:98-113 | What the cache held at a header write is never lost: every later crash leaves that, or what the cache held at a later such moment. |
| LogContent.ContentChanges | mmap/xv6/log.c:204-233 | In every such run the newest value of a home block changes only when an operation changes the block, to what it put there, and in a crash, to the durable value; no step of a commit changes it. |
| LogContent.EndCommits | mmap/xv6/log.c:145-163 | The last operation out, and only that one, starts a commit, and its transaction is what the cache holds of every home block. |
| LogContent.FinishDurable | mmap/xv6/log.c:192-202 | When a commit is through, every home block is on disk and durable with its newest value, and the log is empty. |
| LogContent.EditLasts | mmap/xv6/log.c:192-233 | So in every run what an operation has put into a block, and no later one has changed, is what the disk has and what a crash leaves when the next commit is through. |
| LogRuns.StepDurable | mmap/xv6/log.c:192-202 | Only the header write changes what a crash would leave, and only while no operation is under way. |
| LogRuns.HomeChanges | mmap/xv6/log.c:69-82 | On such a log a home block on disk changes only when a commit whose header has been written installs it, or in a recovery: a pinned block never reaches its home location before. |
| LogRuns.SafeRecoverable | mmap/xv6/log.c:115-122 | In every state of every such run the disk has a well-formed log that replays to the durable home blocks. |
| LogRuns.StepThrifty | mmap/xv6/log.c:125-141 | Steps within the reservations keep listed blocks plus unspent reservations within LOGSIZE, in every interleaving. |
| LogRuns.ChecksIff | mmap/xv6/log.c:213-219 | With operations within their reservations and a log of more than LOGSIZE blocks, log_write panics if and only if LOGSIZE blocks are listed; then nobody has any reservation left, so it is an operation that logs a listed block once more, or one that overspends. |
| LogLimits.TraceThrifty | mmap/xv6/log.c:125-141 | In every run, whatever order operations begin, log and end in, listed blocks plus unspent reservations stay within LOGSIZE. |
| LogLimits.FullListPanics | mmap/xv6/log.c:213-219 | A run from boot, within the reservations and on a large log, that fills the list: logging a listed block again then panics. |
| LogLimits.SmallLogPanics | mmap/xv6/mkfs.c:25-25 | For every log of at most LOGSIZE blocks (mkfs makes it exactly LOGSIZE) a run from boot, within the reservations, in which an operation with part of its reservation left fails the tests of log_write. |
| LogLimits.FullCacheReached | mmap/xv6/param.h:11-12 | For every cache of at most LOGSIZE buffers with a log of as many blocks or more (NBUF, LOGSIZE and the log of mkfs all are 30) a run from boot, within the reservations, that pins every buffer: its commit finds none and panics before the first write. |
| LogLimits.RaceFills | mmap/xv6/log.c:218-230 | Two log_writes at once both pass the tests and then both append: the list gets as long as the log, which has one block less for data. |
| LogLimits.SmallLogOverrun | mmap/xv6/log.c:177-190 | For every log of 2 to LOGSIZE blocks and every cache with more buffers than that, a run from boot, within the reservations, in which such a commit writes the block behind the log before its header: after a crash a home block is not what it was, though nobody has changed it. |
| LogLimits.CrashSafeIff | mmap/xv6/log.c:1-22 | Every run of operations within their reservations leaves the durable home blocks after a crash if and only if the log is larger than LOGSIZE, or has at least as many blocks as there are buffers (as in xv6), or has one block only. |
| CacheModel.CacheRefinesMap | mmap/xv6/bio.c:61-141 | Cache and disk together are one block map: what a lookup finds is the newest value of the block. |
| CacheModel.HitKeeps | mmap/xv6/bio.c:69-79 | Taking a cached buffer keeps the cache invariant: counts right, no block of the disk in two buffers, every valid buffer current, pinned buffers kept. |
| CacheModel.RecycleKeeps | mmap/xv6/bio.c:81-91 | Recycling an idle clean buffer keeps it: no pinned block is thrown away. |
| CacheModel.LockKeeps | mmap/xv6/bio.c:61-93 | Taking a buffer lock keeps it. |
| CacheModel.UnlockKeeps | mmap/xv6/bio.c:120-126 | Releasing the lock keeps it, when every change was passed to log_write or bwrite. |
| CacheModel.FillKeeps | mmap/xv6/bio.c:96-106 | Reading from disk keeps it. |
| CacheModel.ModifyKeeps | mmap/xv6/log.c:204-212 | Changing the data of a held buffer keeps it. |
| CacheModel.WriteThroughKeeps | mmap/xv6/memide.c:39-60 | bwrite keeps it; it is the only step that changes the disk. |
| CacheModel.PinKeeps | mmap/xv6/log.c:213-233 | log_write keeps it: the block stays in its buffer and off its home location. |
| CacheModel.DropKeeps | mmap/xv6/bio.c:128-141 | Dropping a reference keeps it, and the count was positive. |
| LruRing.Ring.constructor | mmap/xv6/bio.c:38-56 | binit links every buffer exactly once. |
| LruRing.Ring.MoveToFront | mmap/xv6/bio.c:128-138 | The relinking of brelse moves exactly that buffer to the front of the doubly linked ring and keeps the order of the rest. |
| BufferCaches.ReleasedLast | mmap/xv6/bio.c:120-141 | Moving a released buffer to the front keeps the ring in order of most recent release. |
| BufferCaches.BufferCache.constructor | mmap/xv6/bio.c:38-56 | An empty cache of n buffers. |
| BufferCaches.BufferCache.Get | mmap/xv6/bio.c:61-93 | bget: one more reference to the buffer of the block, or else to the clean idle buffer that has been idle longest, which is then not valid; no other buffer and no content changes; it panics exactly when there is neither. |
| BufferCaches.BufferCache.FindCached | mmap/xv6/bio.c:69-79 | The first scan finds the buffer of the block if there is one. |
| BufferCaches.BufferCache.FindIdle | mmap/xv6/bio.c:81-91 | The second scan, from the end, finds the least recently released buffer that is idle and clean. |
| BufferCaches.BufferCache.Load | mmap/xv6/bio.c:96-106 | After bread the data is the newest value of the block; the failing cases are the panics of iderw. |
| BufferCaches.BufferCache.Store | mmap/xv6/log.c:204-212 | A change of the data of a held buffer changes the newest value of its block, and of no other. |
| BufferCaches.BufferCache.Bwrite | mmap/xv6/bio.c:109-116 | Exactly one disk write, of the data of the buffer at its block; the buffer is clean and the newest contents do not change. |
| BufferCaches.BufferCache.SetDirty | mmap/xv6/log.c:213-233 | B_DIRTY pins the buffer; nothing else changes, the disk least of all. |
| BufferCaches.BufferCache.Release | mmap/xv6/bio.c:128-141 | One reference less; the last one makes the buffer the most recently released one. |
| BufferCaches.BufferCache.Bread | mmap/xv6/bio.c:96-106 | bread by a process that need not wait: a locked buffer with the newest value of the block; it fails exactly when no buffer is free. |
| BufferCaches.BufferCache.Brelse | mmap/xv6/bio.c:120-141 | brelse gives back the lock and the reference and changes no content. |
| FsModel.UsedStore | mmap/xv6/fs.c:56-95 | Setting or clearing one bit of the free map changes no other bit. |
| FsModel.AllocKeeps | mmap/xv6/fs.c:56-78 | balloc keeps block ownership: the block was nobody's, and no inode changes. |
| FsModel.FreeKeeps | mmap/xv6/fs.c:81-95 | bfree of an owned block keeps ownership; its bit is set, so "freeing free block" cannot happen. |
| FsModel.AttachKeeps | mmap/xv6/fs.c:372-400 | Storing a new block number in an inode or an indirect block keeps ownership. |
| FsModel.PutKeeps | mmap/xv6/fs.c:481-511 | A write to a data block changes the bytes of that block of that file and nothing else. |
| FsModel.AttachFills | mmap/xv6/fs.c:372-400 | Filling an empty slot of any inode changes no byte of any file (a missing block reads as zeros, and so does a new one), no other slot and no other inode. |
| FsModel.MappedExtends | mmap/xv6/fs.c:372-400 | On a file without holes bmap finds the block and changes nothing, or adds exactly the next one. |
| FsRuns.StepGood | mmap/xv6/fs.c:56-95 | A step of any process (balloc, entering a block in an inode or indirect block, a write, a change of size, taking a block out, bfree) keeps the ownership of blocks, and changes no inode but the locked one it is on. |
| FsRuns.RunBlocks | mmap/xv6/fs.c:56-95 | In every interleaving of such steps a data block is marked used if and only if it is in a slot of an inode or with a process, never both, and no block is in two slots. |
| FsRuns.OthersKeep | mmap/xv6/fs.c:287-313 | In every interleaving in which a process takes no step, the inodes it has locked keep size, blocks and content, and the blocks that balloc gave it stay its own and zero. |
| FileSystems.FileSystem.Balloc | mmap/xv6/fs.c:56-78 | The first free block, marked and zeroed; it panics exactly when every bit is set; the bitmap block and the new block are logged, and nothing else. |
| FileSystems.FileSystem.Bfree | mmap/xv6/fs.c:81-95 | Clears exactly the bit of the block and logs its bitmap block; panics exactly when it is clear already. |
| FileSystems.FileSystem.AddBlock | mmap/xv6/fs.c:372-400 | balloc and the store of its result, in the inode or the indirect block; every data block and every bit of the free map that is not as before is in a block that has been logged, and no more than the blocks named are. |
| FileSystems.FileSystem.Bmap | mmap/xv6/fs.c:372-400 | For any block of any inode, holes included: the block it has, without any change, or a new zero block (and indirect block); ownership is kept and no byte of any file changes; it panics if and only if the block is out of range or fewer blocks are free than it takes, one or two; whatever has changed is logged, and only that. |
| FreeBlocks.AllocCount | mmap/xv6/fs.c:56-78 | balloc takes one of the free blocks. |
| FreeBlocks.SpentMore | mmap/xv6/fs.c:372-400 | bmap over a range of blocks takes as many free blocks as the range has holes, and one more for the indirect block if it needs one that is not there. |
| FreeBlocks.NeedsThen | mmap/xv6/fs.c:372-400 | What two ranges lack one after the other, overlapping or not, is what the whole range lacks. |
| FileIO.NeededIsFresh | mmap/xv6/fs.c:372-400 | In a file without holes that number follows from the size of the file and the range alone. |
| FileIO.Readi | mmap/xv6/fs.c:452-476 | Reads exactly the bytes of the content, clipped at the end; refuses exactly the requests past the end or that overflow; no byte of any file changes, and on a file without holes nothing changes at all. In a hole it allocates: it panics if and only if it meets one while no operation is outstanding (fileread, file.c:105-110, starts none), or fewer blocks are free than the range lacks. |
| FileIO.ReadPart | mmap/xv6/fs.c:469-474 | One turn of the loop of readi: the bytes up to the end of the block. |
| FileIO.WriteStep | mmap/xv6/fs.c:498-504 | One turn of the loop of writei overwrites exactly its bytes, holes included; other bytes and other files keep theirs; exactly the missing slots it needs are filled. |
| FileIO.WritePart | mmap/xv6/fs.c:498-504 | The turn as code: whatever has changed is logged, and the blocks it logs. |
| FileIO.Writei | mmap/xv6/fs.c:481-511 | The content becomes the old one overwritten by src from off on, other inodes are untouched; refuses exactly the requests past the end, overflowing or too long; panics if and only if it does not refuse and fewer blocks are free than the range lacks. Every block, bit and inode on disk that has changed is logged. The inode on disk is the one in memory if and only if the file grew or lacked no slot; a file without holes stays one. |
| FileIO.InodeAlone | mmap/xv6/fs.c:498-509 | The loop of writei leaves the inode alone if and only if the bytes needed no slot that was missing: what fills a hole is lost unless the file grows. |
| FileWrites.LastWriteWins | mmap/xv6/fs.c:481-511 | In every run of writes by any processes to any files, refused ones included, each byte of each file is what the latest write that was taken and reaches it put there, or what was there from the start; and the file has that byte exactly in those cases. |
| FileWrites.ReadsLatest | mmap/xv6/fs.c:452-476 | So what a later readi returns is, byte by byte, what the latest write put there. |
| FileWrites.ChunkFits | mmap/xv6/file.c:117-156 | A chunk of filewrite logs at most MAXOPBLOCKS distinct blocks, on a disk of any size and with any alignment. |
| FileWrites.WriteChunk | mmap/xv6/file.c:136-147 | One transaction of filewrite: the bytes are written, every block, bit of the free map and inode that has changed is in the log, and on a file without holes at most MAXOPBLOCKS blocks are; it panics if and only if fewer blocks are free than it needs. |
| FileWrites.FileWrite | mmap/xv6/file.c:117-156 | Succeeds exactly when the whole range fits, and then has replaced exactly that range; otherwise stops after exactly the chunks that fit; panics if and only if fewer blocks are free than these lack; "short filewrite" cannot happen. |
| Truncate.FreeDirect | mmap/xv6/fs.c:414-419 | The first loop frees exactly the direct blocks, without a panic. |
| Truncate.FreeIndirect | mmap/xv6/fs.c:421-431 | The second loop frees exactly the blocks the indirect block lists, then that block, without a panic. |
| Truncate.Itrunc | mmap/xv6/fs.c:407-435 | Releases exactly the blocks the inode owned, each once; the panic "freeing free block" cannot happen; the file is empty and every other file and owner is unchanged; what has changed is logged. |
| Truncate.TruncStep | mmap/xv6/fs.c:414-419 | Freeing one direct block keeps the ownership invariant. |
| Truncate.IndirectStep | mmap/xv6/fs.c:421-431 | Freeing one block of the indirect block keeps it. |
| Mkfs.PrefixUsed | mmap/xv6/mkfs.c:237-252 | The free map that balloc writes has exactly the bits below `used` set. |
| Mkfs.OwnedBlocks | mmap/xv6/mkfs.c:237-297 | On the image the owned blocks are exactly those from the metadata to freeblock. |
| Mkfs.Image.constructor | mmap/xv6/mkfs.c:94-110 | The empty image satisfies the ownership invariant. |
| Mkfs.Image.NewBlock | mmap/xv6/mkfs.c:271-286 | freeblock++ takes an unowned zero block and keeps the invariant. |
| Mkfs.Image.BlockFor | mmap/xv6/mkfs.c:269-286 | The same for the loop of iappend: the block it has or a new one, with ownership kept and no byte changed; it fails exactly when the image has too few blocks left. |
| Mkfs.Image.Append | mmap/xv6/mkfs.c:255-297 | iappend puts the bytes at the end of the file, in blocks of its own, and changes no other file; it succeeds if and only if the file is not too long and the image has the blocks for it. |
| Mkfs.Image.WriteMap | mmap/xv6/mkfs.c:237-252 | balloc writes exactly that free map; it gives up exactly when the used blocks do not fit into one bitmap block. |
| Mkfs.RootSizeIff | mmap/xv6/mkfs.c:158-163 | After the rounding of the root size every block below the size is there if and only if the directory did not end at a block boundary. |
| Mkfs.AppendFile | mmap/xv6/mkfs.c:152-153 | The read and iappend loop gives the file its content; it succeeds if and only if the file is not too long and the image has the blocks for it. |
| Mkfs.MakeImage | mmap/xv6/mkfs.c:68-168 | main, for up to 198 files: it succeeds if and only if all files and entries fit; then every file has its content without holes, the root has the entries, the ownership invariant holds, and the root has a hole if and only if its entries, "." and ".." included, are a multiple of 32. |
| Mkfs.BootThirty | mmap/xv6/mkfs.c:68-168 | Such an image: 30 empty files; the root has its 32 entries, is two blocks long and has one block. |
| Mkfs.RootReadPanics | mmap/xv6/file.c:105-110 | On every such image a read of the root past the entries, as ls makes it, meets the exact condition under which readi panics. |
| Mkfs.RootEntryLost | mmap/xv6/fs.c:551-578 | On such an image the next entry that dirlink makes in the root is written, but in a block that the inode on disk does not have; it panics if and only if no block is free. |
| LinkModel.LinkBeginKeeps | mmap/xv6/sysfile.c:127-143 | Raising the count first keeps: count = entries other than "." in live directories + links under way. |
| LinkModel.LinkDoneKeeps | mmap/xv6/fs.c:551-578 | The new entry keeps it. |
| LinkModel.LinkUndoKeeps | mmap/xv6/sysfile.c:157-165 | The failure path keeps it. |
| LinkModel.EntryLinks | mmap/xv6/sysfile.c:205-213 | What an entry names has a positive count: "unlink: nlink < 1" cannot happen. |
| LinkModel.UnlinkFileKeeps | mmap/xv6/sysfile.c:184-239 | Unlinking a file keeps counts and tree shape. |
| LinkModel.EmptyOneLink | mmap/xv6/sysfile.c:167-181 | An empty directory has exactly one link, its parent entry, and count 1. |
| LinkModel.UnlinkDirKeeps | mmap/xv6/sysfile.c:184-239 | Removing an empty directory, with the count of its parent, keeps counts and tree shape. |
| LinkModel.CreateFileKeeps | mmap/xv6/sysfile.c:241-283 | create of a file keeps them. |
| LinkModel.CreateDirKeeps | mmap/xv6/sysfile.c:241-283 | create of a directory with "." and ".." keeps them. |
| LinkModel.DropKeeps | mmap/xv6/fs.c:331-358 | Freeing an inode without links keeps them. |
| LinkModel.MadeInv | mmap/xv6/mkfs.c:117-163 | The tree that mkfs makes, with the unused entries of the rounded root, satisfies them, when the names are distinct. |
| LinkModel.CountsAreLinks | mmap/xv6/sysfile.c:118-283 | In every run, once no link is under way, every count is the number of entries other than "." in live directories that name the inode. |
| LinkModel.OneParent | mmap/xv6/sysfile.c:118-283 | In every run every live directory but the root has exactly one parent entry, in the directory its ".." names. |
| LinkModel.CreateIffLive | mmap/xv6/sysfile.c:241-283 | The count of a file made in a directory is right if and only if that directory has not been removed. |
| LinkModel.LinkIffLive | mmap/xv6/sysfile.c:118-165 | After a link the tree is as it should be if and only if the directory has not been removed. |
| LinkModel.UnlinkBreaks | mmap/xv6/sysfile.c:184-239 | An unlink in a removed directory leaves a wrong count. |
| Directories.DirLookup | mmap/xv6/fs.c:524-548 | Finds the first entry in use with the name; none if and only if there is none. |
| Directories.FileTree.DirLink | mmap/xv6/fs.c:551-578 | Refuses exactly a name that is there; panics exactly when the directory has every entry in use and cannot grow; else writes the first unused entry, or a new one at the end. |
| Directories.FileTree.IsDirEmpty | mmap/xv6/sysfile.c:167-181 | True exactly when no entry after the first two is in use. |
| Directories.FileTree.Link | mmap/xv6/sysfile.c:118-165 | Succeeds exactly when the inode is no directory and the name is free, and panics exactly when the directory is then full; on failure everything is as before; on success the directory has one entry more, which names the inode, the count is one more and nothing else has changed; the counts are right if and only if nobody has removed the directory. |
| Directories.FileTree.EnterLink | mmap/xv6/sysfile.c:145-152 | The dirlink of sys_link, with the link no longer under way. |
| Directories.FileTree.UnlinkName | mmap/xv6/sysfile.c:184-239 | Takes out the first entry with the name, and no other, lowers the count of what it named (and of the directory itself, if that was a directory), and fails exactly on ".", "..", a name that is not there, and a directory that is not empty; "nlink < 1" panics exactly at a count below 1, which only a removed directory can name; on failure nothing changes. The counts stay right if and only if the directory had not been removed. |
| Directories.FileTree.Ialloc | mmap/xv6/fs.c:194-214 | The first free inode, if there is one. |
| Directories.FileTree.CreateName | mmap/xv6/sysfile.c:241-283 | A name that is there: its inode if a file was asked for and it is one, else 0, without any change. A new name: the first free inode, with count 1 and "." and ".." for a directory, entered in one entry; nothing else changes. Panics exactly when the name is new and there is no free inode or no place in the directory; the counts are right afterwards if and only if nobody has removed the directory, for files and directories alike. |
| Directories.MkdirBreaks | mmap/xv6/sysfile.c:269-278 | mkdir in a removed directory makes that one live again though nothing names it: the counts are then wrong. |
| InodeRefs.GetKeeps | mmap/xv6/fs.c:241-270 | iget of an inode that has a link or a reference keeps: slot counts are the references, one slot per inode, allocated if and only if linked or referred to. |
| InodeRefs.GetIff | mmap/xv6/fs.c:241-270 | iget keeps it if and only if the inode has a link or a reference; otherwise it refers to a free inode. |
| InodeRefs.LockKeeps | mmap/xv6/fs.c:287-313 | ilock keeps it, and finds an allocated inode. |
| InodeRefs.FreeSound | mmap/xv6/fs.c:334-347 | What iput frees has no link, and the only reference is its own, whatever other processes do between its test and the freeing. |
| InodeRefs.LowerIff | mmap/xv6/fs.c:349-351 | The decrement leaves an inode allocated for nobody if and only if it drops the last reference to an inode without links that this iput has not freed: its test came too early. |
| InodeRefs.PutKeeps | mmap/xv6/fs.c:331-353 | iput with nobody in between keeps all of it: the inode is freed exactly with the last reference to an inode without links. |
| InodeRefs.ChangeSound | mmap/xv6/sysfile.c:118-283 | link, unlink and create by processes that hold the inodes keep it. |
| InodeRefs.UsedIsAllocated | mmap/xv6/fs.c:331-353 | In every interleaving, with the test, the freeing and the decrement of iput as three steps, no inode is freed while it has a link, or while somebody refers to it who is not just dropping the reference. |
| InodeRefs.LostIffLeaked | mmap/xv6/fs.c:331-353 | In every run an inode stays allocated for nobody if and only if some iput has leaked it. |
| InodeRefs.AllocatedIffUsed | mmap/xv6/fs.c:331-353 | In every state of every run an inode is allocated if and only if it has a link, or somebody refers to it (but for the iput that has just freed it), or an iput has leaked it. |
| InodeRefs.UnlinkedFileLost | mmap/xv6/fs.c:331-353 | A run from the tree that mkfs makes: two processes have a removed file open and close it at once, each reads the count before the other lowers it, and nobody frees the inode. |
| InodeRefs.OneCopy | mmap/xv6/fs.c:241-270 | In every run an inode is in at most one slot, whose count is the number of references. |
| InodeRefs.FreshCache | mmap/xv6/mkfs.c:117-153 | The tree that mkfs makes, with an empty cache, satisfies the invariant. |
| InodeRefs.RemovedParentFreed | mmap/xv6/fs.c:524-548 | A run from the tree that mkfs makes (mkdir a, mkdir a/b, hold b, remove b and a) at whose end the ".." of the held directory names a freed inode: lookups are safe only in directories that are part of the tree. |
| InodeCache.Icache.Iget | mmap/xv6/fs.c:241-270 | The scan finds the slot of the inode and counts one more reference, or takes the first free slot, not yet valid; no other slot changes; panics exactly when there is neither; the cache stays sound if and only if the inode has a link or a reference already. |
| InodeCache.Icache.Idup | mmap/xv6/fs.c:274-283 | One more reference in that slot. |
| InodeCache.Icache.Ilock | mmap/xv6/fs.c:287-313 | The slot becomes valid; the panic "ilock: no type" cannot happen. |
| InodeCache.Icache.IputTest | mmap/xv6/fs.c:334-338 | The test under the sleep lock: it sees the last reference to an inode without links exactly when there is no other at that moment. |
| InodeCache.Icache.IputFree | mmap/xv6/fs.c:339-346 | The freeing keeps the cache and the tree sound. |
| InodeCache.Icache.IputDrop | mmap/xv6/fs.c:349-351 | The decrement keeps them sound, and leaves no inode allocated for nobody if and only if it does not leak one. |
| InodeCache.Icache.Iput | mmap/xv6/fs.c:331-353 | With nobody in between: one reference less in that slot, and the inode is freed, and the slot no longer valid, exactly when it was the last one and there is no link; nothing else changes. |
| InodeCache.Icache.Namex | mmap/xv6/fs.c:624-657 | namei and nameiparent: the caller gets exactly one more reference, to the inode that the names lead to; or none, exactly when they lead nowhere (for nameiparent: not to a directory). It panics ("iget: no inodes") if and only if at the start, or after some of the names, the next inode is in no slot and no slot is free; so never while two slots are free. |
| InodeCache.OneNamed | mmap/xv6/fs.c:551-578 | In a directory of the tree a name names one inode. |
| InodeCache.LeadsOne | mmap/xv6/fs.c:624-657 | So a path leads to one inode at most. |
| InodeCache.TwoAreEnough | mmap/xv6/fs.c:624-657 | With two free slots no path, however long, finds the cache full. |
| PageTables.PteFields | mmap/xv6/vm.c:60-80 | A stored entry gives back its frame and flags. |
| PageTables.TakeKeeps | mmap/xv6/kalloc.c:82-95 | kalloc keeps: free list, user pages, page tables and directories are disjoint and together all pages; every page table is reached through an entry that is writable and open to the user; free pages are full of junk but for the link of the list. |
| PageTables.GiveKeeps | mmap/xv6/kalloc.c:59-77 | kfree keeps it. |
| PageTables.LinkKeeps | mmap/xv6/vm.c:35-55 | Linking a page table keeps it. |
| PageTables.MapUserKeeps | mmap/xv6/vm.c:60-80 | Mapping a user page keeps it. |
| PageTables.MapKernelKeeps | mmap/xv6/vm.c:60-80 | Mapping a kernel page keeps it. |
| PageTables.UnmapKeeps | mmap/xv6/vm.c:255-279 | Unmapping a user page keeps it. |
| PageTables.RetireKeeps | mmap/xv6/vm.c:283-298 | Taking an emptied directory apart keeps it. |
| VirtualMemory.OthersUnchanged | mmap/xv6/vm.c:35-80 | No operation on one address space is seen by another. |
| VirtualMemory.ClearedJump | mmap/xv6/vm.c:255-279 | The jump of deallocuvm over an absent page table is the page-by-page scan of its pages. |
| VirtualMemory.Memory.constructor | mmap/xv6/kalloc.c:31-53 | freerange makes exactly the pages of the range free, the last one first. |
| VirtualMemory.Memory.Kalloc | mmap/xv6/kalloc.c:82-95 | Takes the first page off the free list and changes no content; fails exactly when there is none. |
| VirtualMemory.Memory.Kfree | mmap/xv6/kalloc.c:59-77 | The page goes to the front of the free list; no other page changes. |
| VirtualMemory.Memory.Walk | mmap/xv6/vm.c:35-55 | Finds the page table, or adds one exactly when asked and possible, for one page; no mapping changes. |
| VirtualMemory.Memory.MapPages | mmap/xv6/vm.c:60-80 | Maps exactly the first n pages of the range, all of them on success. It runs out of memory if and only if fewer pages are free than page tables are missing up to the first page that is mapped already, and otherwise panics if and only if there is such a page. |
| VirtualMemory.Memory.DeallocUvm | mmap/xv6/vm.c:255-279 | Unmaps and frees exactly the mapped pages of the range; terminates; every other page keeps its owner and its content. |
| AddressSpaces.AddPage | mmap/xv6/vm.c:234-246 | One page more, zeroed and mapped; out of memory exactly when the page and the page table it lacks cannot be paid for. |
| AddressSpaces.AllocUvm | mmap/xv6/vm.c:221-249 | Grows by exactly the missing pages if as many pages are free as the range and its missing page tables need, and otherwise takes back every page of the range, with all other pages and contents as before; panics if and only if a page of the range is mapped already and the pages up to the first such one, and one more, can be paid for. |
| AddressSpaces.PageFault | mmap/xv6/vm.c:396-412 | One page more at the address exactly when it can be paid for, else nothing; panics exactly on a mapped page; in the kernel half it maps a page that no address space owns. |
| AddressSpaces.AstrayIsLost | mmap/xv6/vm.c:283-298 | Such a page is not given back by freevm: it is lost for good. |
| AddressSpaces.FreeVm | mmap/xv6/vm.c:283-298 | Every page of the address space goes back to the free list exactly once; every other page stays. |
| AddressSpaces.KmapIsGood | mmap/xv6/vm.c:105-115 | The kernel ranges of kmap are page-aligned, in order and disjoint. |
| AddressSpaces.KernelHalf | mmap/xv6/vm.c:105-115 | The kernel half, page by page: physical memory from KERNBASE on, writable but for the text, the devices at their own addresses, nothing between. |
| AddressSpaces.SetupKvm | mmap/xv6/vm.c:118-136 | A directory with exactly the kernel mappings if 65 pages are free, and otherwise nothing, with nothing lost; "remap" does not happen. |
| AddressSpaces.SetupNeverRemaps | mmap/xv6/vm.c:118-136 | The panic "remap" cannot happen in setupkvm: the ranges are disjoint. |
| AddressSpaces.FreedNewSpace | mmap/xv6/vm.c:118-136 | Freeing a half-built space restores the state before. |
| CopySpace.CopyPage | mmap/xv6/vm.c:330-338 | One page copied with its flags into a fresh frame, exactly when it can be paid for. |
| CopySpace.CopyUvm | mmap/xv6/vm.c:315-345 | Equal contents and flags on fresh frames and the kernel mappings, parent and everything else untouched. It runs out of memory if and only if the pages up to the first absent one cannot be paid for, losing nothing; otherwise it panics if and only if a page below sz is absent. |
| CopySpace.CopiesShareNothing | mmap/xv6/vm.c:315-345 | Parent and child share no frame. |
| LazyMmap.PhysicalIsPresent | mmap/xv6/proc.c:606-622 | numpp counts exactly the mapped user pages if and only if the process ends at the kernel or below it; never more than numvp. |
| LazyMmap.MmapAccounts | mmap/xv6/proc.c:624-630 | mmap adds size/PGSIZE to numvp; numpp is right afterwards if and only if the process still ends at the kernel or below it, and is then unchanged. |
| LazyMmap.MmapMiscounts | mmap/xv6/proc.c:606-630 | A process without any user page whose size mmap has raised past KERNBASE: numpp says one. |
| LazyMmap.NumPpLoops | mmap/xv6/proc.c:617-619 | The loop of numpp never ends if and only if the process reaches into the last page of the address space. |
| LazyMmap.SetupAccounts | mmap/xv6/vm.c:118-136 | A new address space satisfies the accounting invariant. |
| LazyMmap.CopyAccounts | mmap/xv6/vm.c:315-345 | So does the copy made by fork. |
| LazyMmap.FaultAccounts | mmap/xv6/vm.c:396-412 | A handled fault adds one to numpp only; the accounting survives if and only if the fault was below the process size. |
| LazyMmap.Process.Mmap | mmap/xv6/sysproc.c:135-144 | Refuses exactly negative and unaligned sizes; otherwise grows the size only, modulo 2^32; numpp is right afterwards if and only if the size is at most KERNBASE. |
| LazyMmap.Process.Fault | mmap/xv6/trap.c:80-83 | A fault on any address: one zeroed page more, there and only there, exactly when it can be paid for, and otherwise nothing; panics exactly on a mapped page; the accounting survives if and only if no page was added, or below the process size, or in the kernel half. |
| LazyMmap.Process.Grow | mmap/xv6/proc.c:158-175 | growproc keeps the accounting; "remap" cannot happen; it succeeds exactly when the new size is below the kernel and the pages can be paid for, and otherwise changes no count and no content; a size that wraps around succeeds without growing. |
| LazyMmap.Process.Shrink | mmap/xv6/proc.c:158-175 | Shrinking keeps it and every page that stays; shrinking to 0 frees every page and reports failure. |
| LazyMmap.Process.NumVp | mmap/xv6/proc.c:592-603 | numvp is the size in pages, rounded up. |
| LazyMmap.Process.NumPp | mmap/xv6/proc.c:606-622 | The loop counts every mapped user page, and nothing else if and only if the process ends at the kernel or below it. |
| SleepLocks.NextKeeps | mmap/xv6/sleeplock.c:22-42 | Every step of acquiresleep, releasesleep, sleep and wakeup by any process keeps the invariant: spinlocks have one owner, a sleep lock is locked exactly while the process it records holds it, and nobody sleeps on a free one. |
| SleepLocks.KilledKeeps | mmap/xv6/proc.c:479-497 | So does a kill of a sleeper. |
| SleepLocks.RunKeeps | mmap/xv6/proc.c:417-474 | The invariant holds in every state of every interleaving of any number of processes and locks. |
| SleepLocks.MutualExclusion | mmap/xv6/sleeplock.c:22-42 | A sleep lock has at most one holder: the one it records. |
| SleepLocks.NoLostWakeup | mmap/xv6/proc.c:417-474 | Whenever the inner spinlock is free, a lock that somebody sleeps on is locked and held. |
| SleepLocks.AcquireReturns | mmap/xv6/sleeplock.c:22-32 | In every interleaving, however often it has slept, a process returns from acquiresleep with exactly that lock more, and the lock is locked and records it. |
| SleepLocks.ReleaseReturns | mmap/xv6/sleeplock.c:34-42 | It returns from releasesleep with exactly that lock less; the lock is then free, and nobody sleeps on it. |
| SleepLocks.StepAdvances | mmap/xv6/sleeplock.c:22-42 | Each step brings a call nearer to its return, except the test that finds the lock taken. |
| Processes.StepKeeps | mmap/xv6/proc.c:180-392 | Every event of fork, exit, wait, kill, sleep, yield and the scheduler keeps the invariant of the process table. |
| Processes.RunKeeps | mmap/xv6/proc.c:180-392 | It holds in every state of every run. |
| Processes.WaitersWoken | mmap/xv6/proc.c:227-312 | No process sleeps in wait while a child of it has exited, and every parent is alive (not UNUSED, EMBRYO or ZOMBIE). |
| Processes.NobodyOrphaned | mmap/xv6/proc.c:227-268 | Every process but init that is alive or has exited has a parent. |
| Processes.RunningIffOneCpu | mmap/xv6/proc.c:322-392 | A process is RUNNING if and only if exactly one CPU runs it. |
| Processes.StateDiagram | mmap/xv6/proc.h:35-35 | A process changes its state only along the nine arrows of its life cycle, each by its own event; a sleeper on the channel of a wakeup, or that is killed, does become RUNNABLE. |
| Processes.StateReached | mmap/xv6/proc.c:180-415 | And each event of fork, exit, wait, yield and the scheduler takes the process it is about to its new state. |
| Processes.WakeupWakes | mmap/xv6/proc.c:457-474 | After wakeup(x) nobody sleeps on x: those who did are RUNNABLE, and nothing else has changed. |
| Processes.SleepSleeps | mmap/xv6/proc.c:417-452 | sleep puts the process to sleep on the channel and frees its CPU; nothing else changes. |
| Processes.SleepsUntil | mmap/xv6/proc.c:417-474 | In every run a process that has gone to sleep on x stays asleep until the next wakeup(x), or until it is killed. |
| Processes.WokenThen | mmap/xv6/proc.c:457-497 | And that event makes it RUNNABLE. |
| Processes.KillMarks | mmap/xv6/proc.c:479-497 | kill marks the process and does not leave it asleep; nothing else changes. |
| Processes.KilledIff | mmap/xv6/proc.c:479-497 | In every run an entry is marked as killed if and only if a kill has found it since it was last reaped; kill does not look at the state, so one that finds an unused entry (kill(0)) marks the next process there. |
| Processes.ForkedChild | mmap/xv6/proc.c:180-222 | In every run what fork has made is RUNNABLE, a child of the caller, with a pid that no process had and that wait had never returned. |
| Processes.ReturnedToParent | mmap/xv6/proc.c:227-312 | In every run each pid that wait has returned is that of a process that had called exit before, and it went to the process that was its parent then. |
| Processes.ReturnedOnce | mmap/xv6/proc.c:272-312 | No pid is returned twice, and no entry in use ever has a returned pid again. |
| Processes.ZombieStays | mmap/xv6/proc.c:227-312 | In every run an exited process is still there, with its pid, at any later moment, or its parent has found it and wait has returned that pid. |
| ProcTables.ProcTable.constructor | mmap/xv6/proc.c:119-154 | The table after userinit. |
| ProcTables.ProcTable.Wakeup1 | mmap/xv6/proc.c:457-465 | Every sleeper on the channel becomes RUNNABLE; every other entry, and every other field, is as before. |
| ProcTables.ProcTable.AllocProc | mmap/xv6/proc.c:73-93 | Takes the first unused entry, EMBRYO, with the next pid; fails exactly when there is none; no other process changes. |
| ProcTables.ProcTable.ExitProc | mmap/xv6/proc.c:250-267 | The loop of exit gives every child, and only those, to init; of the sleepers it wakes exactly the parent, and init if it got an exited child, if they are in wait; the process is a ZOMBIE, nothing else changes, and the invariant is kept. |
| ProcTables.ProcTable.WaitProc | mmap/xv6/proc.c:279-311 | The scan of wait takes out the first exited child if there is one; otherwise it returns -1 exactly without children or when killed, and else sleeps; no other entry changes; keeps the invariant. |
| ProcTables.ProcTable.KillProc | mmap/xv6/proc.c:479-497 | The first entry with the pid is marked and not SLEEPING afterwards; every other entry is as before; -1 exactly when no entry has the pid. |
| Pipes.NextOrdered | mmap/xv6/pipe.c:59-121 | Every turn keeps: delivered is a prefix of accepted, with at most PIPESIZE bytes between. |
| Pipes.NextStuckIff | mmap/xv6/pipe.c:59-121 | A turn leaves a process asleep that could go on if and only if it is the turn in which a killed writer fills the buffer and gives up while a reader sleeps. |
| Pipes.RunOrdered | mmap/xv6/pipe.c:59-121 | In every run the bytes delivered are a prefix of the bytes accepted, at most PIPESIZE in flight. |
| Pipes.StoredBehind | mmap/xv6/pipe.c:59-121 | Only a turn of a writer stores bytes, behind those that are there; only one of a reader copies bytes out, the next ones. |
| Pipes.WriteUnderWay | mmap/xv6/pipe.c:78-98 | In every run, whatever others do, what a write has stored so far is a prefix of its buffer, in order. |
| Pipes.WriteReturns | mmap/xv6/pipe.c:78-98 | When it returns n that is the whole buffer, each byte once; when it returns -1 it is less. |
| Pipes.ReadReturns | mmap/xv6/pipe.c:100-121 | In every run a read returns the number of bytes it copied, at most n, which are the next ones of all that was written; 0 only at the end of a closed pipe; -1 only when killed, with nothing taken. |
| Pipes.RunNoneStuck | mmap/xv6/pipe.c:59-121 | In every run without such a turn no reader sleeps with data there or the write end closed, and no writer with space there or the read end closed. |
| Pipes.NoKillNoneStuck | mmap/xv6/pipe.c:59-121 | In particular in every run in which nobody is killed. |
| Pipes.KilledWriterLoses | mmap/xv6/pipe.c:84-92 | A run with a kill in which a reader sleeps with the buffer full. |
| Pipes.WrappedCounters | mmap/xv6/pipe.c:78-121 | Comparing and indexing by the counters modulo 2^32 is the same as by the true counts. |
| Pipes.Pipe.constructor | mmap/xv6/pipe.c:22-46 | An empty pipe, both ends open. |
| Pipes.Pipe.Put | mmap/xv6/pipe.c:93-94 | A byte goes to the end of the queue. |
| Pipes.Pipe.Get | mmap/xv6/pipe.c:116-116 | A byte comes from the front of the queue. |
| Pipes.Pipe.WriteFrom | mmap/xv6/pipe.c:78-98 | A turn of pipewrite on the ring appends the next k bytes of the buffer to what was accepted; it stops short only with PIPESIZE bytes in flight, then fails exactly if the read end is closed or the writer killed, and else sleeps; it returns |addr| exactly when all are stored. The turn of the model is the same. |
| Pipes.Pipe.ReadUpTo | mmap/xv6/pipe.c:100-121 | A turn of piperead copies the next bytes in order, as many as are there up to n; with none there and the write end open it sleeps, or fails if killed. The turn of the model is the same. |
| HeapModel.InsertKeeps | mmap/xv6/umalloc.c:29-43 | Linking a block in at its place keeps one ring in address order, disjoint from all blocks handed out. |
| HeapModel.MergeKeeps | mmap/xv6/umalloc.c:33-42 | Joining two touching blocks keeps it. |
| HeapModel.TakeAllKeeps | mmap/xv6/umalloc.c:75-77 | Handing out a whole block keeps it. |
| HeapModel.TailKeeps | mmap/xv6/umalloc.c:78-82 | Handing out the tail of a block keeps it. |
| HeapModel.GrowKeeps | mmap/xv6/umalloc.c:46-61 | New memory from sbrk keeps it. |
| HeapModel.UnitsConserved | mmap/xv6/umalloc.c:24-90 | The units obtained from sbrk are exactly the free ones and, disjoint from them, those handed out. |
| Malloc.FreedKeeps | mmap/xv6/umalloc.c:24-44 | free keeps a ring in address order in which no two blocks overlap or touch. |
| Malloc.FreedMem | mmap/xv6/umalloc.c:33-43 | The stores of free are those of linking in and joining on both sides. |
| Malloc.StopsAtPlace | mmap/xv6/umalloc.c:30-32 | The search loop of free stops exactly at the place where the block belongs. |
| Malloc.FreeUntouched | mmap/xv6/umalloc.c:24-44 | free writes into no other block handed out. |
| Malloc.RequestIff | mmap/xv6/umalloc.c:46-69 | The 32-bit sizes are right (the units hold the bytes, sbrk is asked for what the header will say) if and only if the request is at most 2^31 - 16 bytes. |
| Malloc.HugeRequestWraps | mmap/xv6/umalloc.c:69-69 | A request of 2^32 - 1 bytes wraps to one unit. |
| Malloc.Allocator.constructor | mmap/xv6/umalloc.c:21-22 | No free list yet. |
| Malloc.Allocator.Free | mmap/xv6/umalloc.c:24-44 | free terminates, keeps the invariant, removes exactly that block from those handed out and touches no other; freep is then the last free block below it. |
| Malloc.Allocator.Morecore | mmap/xv6/umalloc.c:46-61 | The new units, at least as many as asked for, end up in one free block; on failure nothing changes. |
| Malloc.Allocator.Alloc | mmap/xv6/umalloc.c:63-90 | malloc terminates. If a free block is big enough it hands out the end of the first such block after freep, moves freep to the block before it and does not call sbrk; otherwise it calls sbrk once, and fails if and only if sbrk refuses. What it hands out was not handed out and holds nbytes; it keeps the invariant and touches no other block. |
| Malloc.Allocator.TakeBlock | mmap/xv6/umalloc.c:75-85 | Unlinking or splitting hands out exactly the units asked for, from the end of the block, and moves freep to the block before. |
| ShellGrammar.RenderedParsesIff | mmap/xv6/sh.c:327-446 | A command tree is read back from its tokens if and only if no command in it has more than MAXARGS-1 arguments. |
| ShellGrammar.LineParses | mmap/xv6/sh.c:344-359 | The tokens of a line, followed by the end or ")", are parsed to that line, and the rest is left. |
| ShellGrammar.PipeParses | mmap/xv6/sh.c:361-372 | The same for a pipe. |
| ShellGrammar.ExecParses | mmap/xv6/sh.c:399-446 | The same for a simple command or a block, with redirections. |
| ShellGrammar.LineFits | mmap/xv6/sh.c:415-446 | What the parser accepts has at most MAXARGS-1 arguments per command. |
| ShellLexer.LexChars | mmap/xv6/sh.c:265-308 | Written tokens are read back, for every list of legal tokens. |
| ShellLexer.RoundTripIff | mmap/xv6/sh.c:265-446 | Parsing the canonical text of a command tree with legal words gives that tree if and only if no part of it has too many arguments. |
| ShellLexer.AcceptedRoundTrips | mmap/xv6/sh.c:327-342 | Every line that is accepted stands for a tree with legal words that fits, and writing that tree and parsing it again gives the same tree. |
| ShellForms.FormLine | mmap/xv6/sh.c:344-446 | The concrete syntax of the shell (redirections before, among and behind the arguments, ">>", blocks, trailing "&" and ";"), written as tokens, is parsed to its meaning if and only if no simple command has more than MAXARGS-1 arguments, and panics otherwise. |
| ShellForms.LineForm | mmap/xv6/sh.c:344-446 | Conversely, whatever the parser accepts is written in that syntax. |
| ShellForms.AcceptsIff | mmap/xv6/sh.c:327-342 | So parsecmd accepts a list of tokens if and only if it is that of such a form, and no list of tokens has two meanings. |
| ShellForms.TextParsesIff | mmap/xv6/sh.c:265-446 | The same from the characters of the line on, for legal words. |
| ShellParser.Parser.GetToken | mmap/xv6/sh.c:265-308 | Takes exactly the next token and gives its kind, start and end. |
| ShellParser.Parser.Peek | mmap/xv6/sh.c:310-320 | Tells whether the next token starts with one of the symbols, and takes nothing. |
| ShellParser.Parser.Redirections | mmap/xv6/sh.c:374-397 | The loop agrees with the grammar, panics included. |
| ShellParser.Parser.Arguments | mmap/xv6/sh.c:427-445 | The argument loop agrees with the grammar, panics included. |
| ShellParser.Parser.SimpleCommand | mmap/xv6/sh.c:415-446 | parseexec agrees with the grammar and terminates. |
| ShellParser.Parser.Block | mmap/xv6/sh.c:399-413 | parseblock agrees with the grammar and terminates. |
| ShellParser.Parser.Pipeline | mmap/xv6/sh.c:361-372 | parsepipe agrees with the grammar and terminates. |
| ShellParser.Parser.Line | mmap/xv6/sh.c:344-359 | parseline agrees with the grammar and terminates. |
| ShellParser.EndsOutside | mmap/xv6/sh.c:449-493 | nulterminate writes inside no word of the line. |
| ShellParser.NulTerminate | mmap/xv6/sh.c:449-493 | Writes NULs exactly at the ends of the words of the tree. |
| ShellParser.SeenIsNamed | mmap/xv6/sh.c:449-493 | Every word of the tree, read as a C string from its start, is its original token. |
| ShellParser.ParseCommand | mmap/xv6/sh.c:327-342 | parsecmd terminates on every line, panics exactly when the grammar says so, and otherwise the tree as runcmd will see it is that of the grammar. |
| Grep.PrintParse | mmap/xv6/grep.c:85-96 | Every text is a pattern, and reading it as one loses nothing. |
| Grep.MatchHere | mmap/xv6/grep.c:85-96 | True if and only if some prefix of the text from there is in the language of the pattern; terminates. |
| Grep.MatchStar | mmap/xv6/grep.c:99-106 | True if and only if c* followed by the rest matches some prefix; terminates. |
| Grep.Match | mmap/xv6/grep.c:72-82 | True if and only if some substring is in the language of the pattern, or a prefix when it starts with ^. |

## Left out

- Logs.Log.Commit: the buffers of the log and of the listed blocks are unlocked when it starts; waiting for a reader of one of them is a matter of LogRuns, where every block write of a commit is a step of its own. The same holds for LogTransfer.CopyBlock, LogTransfer.WriteLog, LogTransfer.WriteHead and LogTransfer.InstallTrans.
- LogRuns.EveryRunCrashSafe: a block write is atomic, and the copy into a buffer held by the committing process and its bwrite are one step.
- Logs.Log.RecoverFromLog: readsb, which gives the place of the log, is not modelled.
- BufferCaches.BufferCache.Bread: the caller does not have to sleep for the buffer lock; the steps of a caller that does are those of LogRuns and SleepLocks.
- FileSystems.FileSystem.Bmap: the byte layout of the inode blocks is not modelled; an inode on disk is a value.
- FileIO.Writei: files only; the T_DEV branches of readi and writei are not modelled. That it panics exactly when too few blocks are free holds if no other process calls balloc or bfree in between; the same holds for FileIO.Readi and FileWrites.FileWrite.
- FileWrites.FileWrite: a descriptor of a file open for writing; no other process writes the file between two chunks (FileWrites.LastWriteWins covers chunks that interleave).
- Mkfs.Image.Append: a file that gets too long is refused before its bytes are written; mkfs stops either way.
- LinkModel.CountsAreLinks: counts are unbounded integers (the field has 16 bits), and the runs work in directories that have not been removed (LinkModel.LinkIffLive, LinkModel.UnlinkBreaks and LinkModel.CreateIffLive say what happens otherwise).
- Mkfs.MakeImage: at most 198 files; mkfs does not check the number of inodes. The bytes of the entries are given.
- Directories.FileTree.Link: one device; path lookup (namei, nameiparent) is a parameter.
- Directories.FileTree.DirLink: that no block is free for a longer directory is an outcome of FileIO.Writei, and is not one here.
- FsRuns.RunBlocks: itrunc clears the block number after the bfree, under the lock of the inode (Truncate.FreedThenCleared); here the block leaves its slot before.
- AddressSpaces.AllocUvm: the exact cost in pages holds if no other process calls kalloc or kfree in between. The same holds for AddressSpaces.SetupKvm.
- VirtualMemory.Memory.MapPages: a range of user pages is one page, as in every call of mappages; it is static in vm.c.
- CopySpace.CopyUvm: the exact cost in pages holds if no other process calls kalloc or kfree in between. A process that reaches past KERNBASE lacks some page below it; with all of them it would have more memory than the machine.
- LazyMmap.Process.Shrink: sizes up to KERNBASE; beyond, deallocuvm would free pages of the kernel.
- LazyMmap.Process.NumPp: sizes up to 2^32 - PGSIZE; beyond, it does not end (LazyMmap.NumPpLoops).
- SleepLocks.NoLostWakeup: spinlocks are owner fields taken in one step.
- Processes.ReturnedOnce: pids are unbounded integers, not 32-bit ones.
- Processes.WaitersWoken: what exit does before it takes ptable.lock (closing files, dropping the working directory) is not modelled.
- Pipes.RunNoneStuck: an end is closed only when no process is in a call on it, as the reference counts of file.c guarantee; pipealloc's failures and freeing the pipe's page are not modelled.
- Malloc.Allocator.Alloc: requests above 2^31 - 16 bytes, for which the sizes are wrong (Malloc.RequestIff); nobody returns memory with a negative sbrk.
- ShellParser.Parser.Arguments: the redirections wrap the command after its last argument instead of while it is still being filled in; the tree is the same.
- InodeCache.Icache.Namex: given the elements of the path (skipelem is not modelled), from a directory that is part of the tree (from a removed one it may come to a freed inode, InodeRefs.RemovedParentFreed), with no other process in between.
- exec, the system call layer, file descriptors, console, interrupts, boot code, device drivers, context switching: hardware access or plumbing.
- runcmd of the shell and the line loop of grep: process creation and input.
- The rest of the repository (ROOT macros, numerics, notebooks, microcontroller code): floating point over libraries that are not part of it.
