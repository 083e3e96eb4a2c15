# xv6 with per-process swap: a verified model

Dafny models of the parts of this xv6 variant whose correctness is least
obvious from reading one function, with proofs of what they promise over all
inputs and all runs. `dafny verify dfyconfig.toml` checks everything.

| files | what they model |
|---|---|
| `RedoLog`, `GroupCommit`, `Log` | the redo log of log.c: disks and crashes, interleaved operations, and the code in place |
| `BufferCache`, `CachedLog`, `Recency` | the buffer cache of bio.c over a block store; the log working through it: one machine of processes, cache, commit and disk; and which buffer that machine recycles |
| `Paging`, `PteWords`, `Scfifo`, `Ageing` | demand paging of vm.c: the swap model, page table words, the second-chance queue with the fault handler and growth, and the ageing policies |
| `Blocks`, `Files`, `Contents`, `BlockMap`, `Writes`, `Journal`, `Volume` | the file layer of fs.c and file.c: bytes, bits and words of a block; slots and ownership; what a disk stands for; bmap; writei, itrunc and their log bill; the block writes of an operation; and the code in place |
| `Mkfs`, `FileCrash` | mkfs's layout and its root directory, and what a crash during filewrite leaves of the file |
| `Heap` | malloc and free of umalloc.c over sbrk |
| `SleepLock`, `WaitExit`, `Pipe`, `PipeCalls` | sleep and wakeup protocols of sleeplock.c, proc.c and pipe.c as state machines over their steps, and what each pipe call does to the stream |
| `Shell`, `Grammar`, `ShellLine` | the parser of sh.c: recursive descent with a printer, the language it accepts, and the code moving along the line |
| `Regex` | the matcher of grep.c |

Code that changes things in place is a class or a method with loops, proved
against functions of values; state machines have one step per atomic section of
the code, and their theorems speak of every run. The layers are joined:
`CachedLog` runs the log's commit on the buffer cache, `Volume` proves that each
chunk of a write keeps within what the log reserves for an operation and that
its block writes lead from one volume at rest to the next, and `FileCrash` puts
these together: a chunk never runs out of the budget it was admitted with
(`ChunkInBudget`), and a crash keeps whole chunks (`FilewriteCrash`).

## Conventions

- A kernel `panic` stops the machine. Where the code cannot rule one out it is a
  result (`ok` false, -1, or an error value); where it can, a precondition of the
  method states what the code demands and every caller in the model proves it.
- The file layer's disk stands for one byte sequence per inode
  (`Contents.AtRest`): that is what `writei`, `readi` and `itrunc` are stated
  against, for all inodes at once, so "no other file changes" is part of each
  statement. The block map has no holes: every block below the size is mapped.
- `Volume` keeps in `puts` the block writes given to log_write since begin_op,
  and in `logged` their blocks; every change to the disk goes through them.
- In `CachedLog` a holder's change to a buffer and the bwrite or log_write that
  follows are one step: the buffer is locked, so nobody looks in between.
- `Heap` has the break as sbrk and deallocuvm move it; whether the kernel has
  frames to grow by is a parameter.
- User pages are numbered; a page number stands for its page-aligned address.
- 32-bit arithmetic is written out where it can wrap: pipe counters, the age
  words, the bounds of readi and writei, malloc's rounding and sbrk's argument.

## Findings

- log_write tests the list against LOGSIZE and `log.size - 1` before it looks for
  the block in the list. While an operation runs it panics exactly when the list
  is that long (`PanicsExactly`). The reservation of begin_op keeps *new* blocks
  of operations within their budgets from it if and only if the region has more
  than LOGSIZE blocks (`NewBlocksSafe`, `RoomForNewBlock`); mkfs makes it exactly
  LOGSIZE, and a run meets the panic (`PanicReachable`). Blocks already in the
  list are not protected even in a larger region (`AbsorbedPanics`).
- The cache has as many buffers as the log has blocks, and reads take buffers
  while a commit runs. Commit's bget finds none exactly when the log block is not
  cached and every buffer is pinned or held (`StarvedExactly`). With at most r
  buffers held by others no run gets there if and only if the longest list
  log_write allows leaves more than r buffers (`CommitsSafe`). In the region mkfs
  makes one reader is enough for the panic; in a larger one the commit needs no
  help (`CommitStarves`).
- A killed writer that fills the pipe returns without waking readers
  (`KilledWriterStrandsReader`). That is the only way a reader's wakeup is lost,
  and a writer's never is: `ReadersNext`, `WritersNext`, `Pipe.NoLostWakeup`.
- malloc's rounding wraps for the seven largest sizes (`UnitsCover`, `UnitsWrap`).
  From 2^28 units on sbrk is asked to keep or lower the break (`SbrkAsked`), and
  malloc then hands out what is not memory or loses what was: the heap stays
  sound if and only if no request reaches 2^28 units (`MoreOk`, `MoreUnbacked`,
  `RunKeepsHeap`, `Malloc`).
- mkfs rounds the root directory's size up past a full last block, so a directory
  whose entries are a multiple of 32 gets a block that is not mapped (`RootFix`).
- filewrite's answer -1 does not mean that nothing was written: the chunks before
  the one refused are in the file (`Filewrite`, with `Accepted` saying how many
  bytes).

## Model

| member | source | states |
|---|---|---|
| RedoLog.PutHeadReads | log.c:98-113 | the header block written by write_head reads back as exactly the list of home blocks, for every list that fits the log |
| RedoLog.InstalledAt | log.c:69-82 | install_trans cut off after any number of writes: the installed home blocks hold their log blocks, all other blocks are untouched |
| RedoLog.InstallAgain | log.c:69-82 | installing part of a transaction and then all of it gives the same disk as installing all of it once |
| RedoLog.RecoveredIsClean | log.c:115-122 | after a complete recovery the header on disk says n = 0 |
| RedoLog.RecoverCleanDisk | log.c:115-122 | recovery of a disk with an empty header leaves every home block alone |
| RedoLog.RecoverAfterCrash | log.c:115-122 | a recovery that crashes after any of its writes, followed by a complete one, ends like one undisturbed recovery |
| RedoLog.RecoverAfterCrashes | log.c:115-122 | the same for any number of crashed recoveries in a row, and the header ends with n = 0 |
| RedoLog.CrashAfterHead | log.c:192-202 | a crash anywhere after the header write recovers to the whole transaction |
| RedoLog.CommitCrash | log.c:177-202 | a commit cut off after any single disk write recovers to all of the transaction or to none of it |
| RedoLog.CrashAtomicity | log.c:69-202 | a commit cut off after any write, any number of crashed recoveries, one complete recovery: all home blocks are those before the transaction or those after it, and n = 0 |
| RedoLog.CommitComplete | log.c:192-202 | a commit that runs to its end has every logged block at home and an empty header |
| GroupCommit.Absorb | log.c:224-230 | log absorption: the list only grows, holds the block, and stays free of duplicates |
| GroupCommit.LogInvNext | log.c:125-174 | every begin_op, log_write, end_op and commit step keeps the reservation, the counters and the list in order |
| GroupCommit.InvNext | log.c:125-233 | every step of every interleaving keeps the whole invariant of log, disk and operations |
| GroupCommit.CrashConsistency | log.c:125-233 | at every point of every run, a crash and recovery give the replay of a prefix of the writes made; that prefix holds only finished operations, each all in or all out |
| GroupCommit.HomeWaitsForHeader | log.c:192-202 | until the header write no logged block has reached its home |
| GroupCommit.ReadsSeeLastWrite | log.c:204-233 | at every point of every run, a commit under way or not, the pinned or else the disk copy of a home block is its last written contents |
| GroupCommit.HomeOnDisk | log.c:68-82 | what each home block holds on disk after any number of commit's writes: the transaction's block once its own install write is done, the old one before |
| GroupCommit.LogOnDisk | log.c:177-190 | while blocks are being installed the log region holds the transaction |
| GroupCommit.CommitGoesOn | log.c:192-202 | in every run a commit can always make its next write, until it is done |
| GroupCommit.LogSafety | log.c:125-174 | committing implies no operation is outstanding (so end_op cannot panic); list length plus unspent budgets never exceed LOGSIZE; recorded blocks are distinct and all log writes stay in the log region |
| GroupCommit.SpentNext | log.c:213-233 | every step keeps it that a running operation's blocks are all in the list and that it has spent no more of its budget than it has distinct blocks |
| GroupCommit.BudgetSuffices | log.c:132-139 | so an operation that keeps to MAXOPBLOCKS blocks never exceeds its budget |
| GroupCommit.RoomForNewBlock | log.c:218-219 | with a log region larger than LOGSIZE blocks, an operation within its budget never meets the panic in log_write on a block that is not yet in the list |
| GroupCommit.PanicsExactly | log.c:218-221 | in every run, while an operation is active, log_write panics exactly when the list has as many blocks as the smaller of LOGSIZE and log.size - 1, be the block new or in the list |
| GroupCommit.PanicReachable | mkfs.c:25 | with LOGSIZE blocks or fewer, as mkfs makes it, a run of operations within their budgets reaches that panic on a new block |
| GroupCommit.NewBlocksSafe | log.c:132-139 | over all runs, new blocks of operations within their budgets never meet the panic if and only if the region has more than LOGSIZE blocks |
| GroupCommit.AbsorbedPanics | log.c:218-227 | at every such region size, operations within their budgets reach a state in which logging a block already in the list panics: the test comes before the absorption loop |
| Log.Drive.Write | memide.c:38-59 | one block write reaches the disk as a whole and is remembered in order |
| Log.Log.constructor | log.c:53-66 | initlog leaves a log with an empty list over the recovered disk |
| Log.Log.BeginOp | log.c:125-141 | one pass of begin_op: an operation is admitted exactly when no commit runs and the reservation has room |
| Log.Log.LogWrite | log.c:213-233 | the block is recorded once, in place or at the end |
| Log.Log.EndOp | log.c:145-163 | one operation fewer; the panic exactly when a commit is running, and exactly the last operation out starts the commit |
| Log.Log.WriteLog | log.c:177-190 | the loop copies the cached blocks to the log region in order and touches nothing else |
| Log.Log.WriteHead | log.c:98-113 | the header on disk becomes the list in memory |
| Log.Log.ReadHead | log.c:84-96 | the list in memory becomes the one in the header |
| Log.Log.InstallTrans | log.c:68-82 | the loop copies every log block home |
| Log.Log.Commit | log.c:192-202 | the disk passes through exactly the commit steps whose crashes are proved harmless |
| Log.Log.RecoverFromLog | log.c:115-122 | recovery ends in the recovered disk |
| BufferCache.UnlinkRing | bio.c:132-133 | unlinking a buffer keeps prev and next one ring |
| BufferCache.FrontRing | bio.c:134-137 | linking a buffer in front keeps prev and next one ring |
| BufferCache.GotOk | bio.c:61-93 | bget gives a buffer that holds the block and loses no cached write, whether the block was cached or a buffer recycled |
| BufferCache.FilledOk | bio.c:95-106 | a block read from disk into its buffer is its last written contents |
| BufferCache.LoggedOk | log.c:231-232 | a logged change is the block's contents from then on, and the buffer is pinned |
| BufferCache.WrittenOk | bio.c:108-116 | a written buffer agrees with the disk |
| BufferCache.ReleasedOk | bio.c:118-141 | brelse changes no contents |
| BufferCache.BCache.constructor | bio.c:38-56 | binit builds one ring through all buffers |
| BufferCache.BCache.InsertFront | bio.c:134-137 | the four assignments put the buffer first on the ring |
| BufferCache.BCache.FindCached | bio.c:68-76 | the first loop finds the first buffer in list order with the block, or comes back to the head |
| BufferCache.BCache.FindIdle | bio.c:78-91 | the second loop finds the last idle, clean buffer in list order, or comes back to the head |
| BufferCache.BCache.Bget | bio.c:61-93 | a buffer holding the block counts one user more; if none does, an idle one is the block's, not valid and with one user; if none is idle, the panic; no other buffer, the list nor the disk changes |
| BufferCache.BCache.Bread | bio.c:95-106 | bread returns the store's block in a buffer of its own |
| BufferCache.BCache.LogWrite | log.c:231-232 | the change is in the buffer and the buffer is dirty |
| BufferCache.BCache.Bwrite | bio.c:108-116 | the change is in the buffer and on disk |
| BufferCache.BCache.Unlink | bio.c:132-133 | the buffer is off the ring |
| BufferCache.BCache.Brelse | bio.c:118-141 | one user fewer; after the last the list is the buffer followed by all others in the order they had, otherwise it stays; nothing else changes |
| CachedLog.GetInv | bio.c:61-93 | bget by any process, with or without recycling a buffer, keeps the invariant of cache, log, disk and holders |
| CachedLog.LogInv | log.c:213-233 | so does a change logged by an operation: the block is recorded and pinned |
| CachedLog.InstallPut | log.c:69-82 | commit's install write, through its two buffers, writes what the log machine writes next, and that is already the home block's contents |
| CachedLog.LogPut | log.c:177-190 | commit's log write, through its two buffers, writes the pinned contents to the log block |
| CachedLog.HeadPut | log.c:98-113 | commit's header writes edit the header block in its buffer and write what the log machine writes |
| CachedLog.InvNext | log.c:177-202 | every step keeps the invariant: bread, release, log_write, begin_op and end_op by processes, and each bget, disk read, bwrite and brelse of commit |
| CachedLog.SeenIsLastWrite | bio.c:95-106 | over every run of processes and commit together, a bread of a home block gives the last data logged for it, mid-commit included |
| CachedLog.ReadsLastWrite | bio.c:38-141 | in every state of every run each readable buffer holds its block's last write, no other buffer holds that block, and the list still visits all NBUF buffers once |
| CachedLog.OnlyLogChanges | log.c:204-233 | no step but log_write on the block itself changes what a bread of it gives: not eviction, not any step of commit |
| CachedLog.PinnedUntilInstalled | bio.c:78-91 | in every state of every run the pinned blocks are exactly those recorded and not yet installed, every other home block is up to date on disk, and no block is in two buffers |
| CachedLog.RefsCount | bio.c:118-141 | reference counts are the number of holders, commit included |
| CachedLog.CrashConsistency | log.c:115-202 | stopping that machine at any point and recovering from the disk under the cache gives a prefix of the logged writes, of finished operations, each all in or all out |
| CachedLog.CommitNeverStuck | log.c:192-202 | in every run a commit has a step to make unless bget finds no buffer for it |
| CachedLog.SecondIsCached | log.c:180-185 | the home block commit reads is always still cached, so only the log block's bget can find no buffer |
| CachedLog.StarvedExactly | bio.c:78-92 | whoever else holds buffers, commit's bget panics exactly in its first bread, when no buffer holds the log block and every buffer is pinned or in another process's hands |
| CachedLog.CommitStarves | param.h:10-12 | for every region of two blocks or more, a run in which three operations within their budgets fill the log, readers hold the buffers that leaves, and the commit panics in its first bread: one reader in a region of LOGSIZE blocks as mkfs makes it, none in a larger one |
| CachedLog.CommitsSafe | param.h:10-12 | over all runs, while other processes hold at most r buffers, commit never runs out of them if and only if the smaller of LOGSIZE and log.size - 1, plus r, is less than NBUF; for every r |
| CachedLog.RunSpent | log.c:125-233 | over every run of processes and commit together, running operations have spent no more than they have distinct blocks |
| Recency.RunSorted | bio.c:118-141 | in every state of every run of processes and commit, the list has the buffers in the order in which their last users gave them up, latest first |
| Recency.RecyclesLeastRecent | bio.c:78-91 | at any point of any run, bget of a block not in the cache takes the idle buffer given up longest ago, and panics exactly if none is idle |
| Paging.OccupiedIsCard | vm.c:61-96 | a table's counter is the number of pages it holds |
| Paging.FirstFitWritable | vm.c:80-99 | the first free swap slot starts no later than the end of the swap file and ends within the largest file |
| Paging.VacatedWritable | vm.c:121-125 | so does the slot the victim gets after the faulting page left its own |
| Paging.MarkedOk | vm.c:722-738 | access bits do not change memory |
| Paging.StoredOk | vm.c:57-138 | a user store changes its page and no other |
| Paging.PageInOk | vm.c:131-136 | a fault with room in RAM brings the page in and changes no page |
| Paging.PageSwapOk | vm.c:114-130 | a fault with RAM full swaps two pages and changes none, also when the victim takes the very slot just vacated |
| Paging.EvictOk | vm.c:809-834 | moving a page to swap for growth changes no page |
| Paging.GrowOk | vm.c:888-922 | a new page reads as zeros and every old page keeps its contents |
| Paging.DropOk | vm.c:943-1021 | a turn of deallocuvm, for a policy that keeps no list: the page's frame or swap slot is free again, its entry gone, no other page changed, and no frame lost |
| Paging.ShrunkOk | vm.c:930-1023 | deallocuvm removes exactly the pages of the range, from memory and from swap, changes no other, and neither loses nor duplicates a frame |
| Paging.Accounting | vm.c:905-911 | both counters count their tables, their sum is the page count, and below the process limit swap is never full, so the panic at vm.c:910 cannot happen |
| Paging.RunsExtend | vm.c:105-138 | a run starts from every pool of frames, and in every state a run reaches each fault, growth, shrinking, store or access that the process may make leads on: none is excluded |
| Paging.SwapRefinesFlat | vm.c:57-138 | over every run of growth, shrinking, faults, loads and stores, memory is the flat memory the user programmed against; counters sum to the page count, at most 32 |
| Paging.HappenedConserves | vm.c:105-138 | every fault, growth, shrinking, store and access keeps the set of frames that are free or mapped by a present page, and the number of free frames and present pages together |
| Paging.FramesConserved | vm.c:105-138 | over every run the frames free or mapped are exactly those of the free list at the start, and free frames and present pages together are always as many |
| Paging.GrowthUndone | vm.c:888-895 | for such a policy, an allocuvm that fails after any number of pages and the deallocuvm that follows leave memory as it was |
| PteWords.MappedDecodes | vm.c:207 | the word mappages writes means present, writable, user, that frame |
| PteWords.PagedInDecodes | vm.c:176-187 | fixPagedInPTE's three updates of a swapped-out word give a present page at the new frame |
| PteWords.PagedOutDecodes | vm.c:252-262 | fixPagedOutPTE's updates give a swapped-out page with no frame bits left |
| PteWords.EvictedDecodes | vm.c:830 | the word insert_to_disk writes is a swapped-out page |
| PteWords.UnaccessedDecodes | vm.c:722-738 | clearing PTE_A changes only the access bit |
| Scfifo.VictimIsTextbook | vm.c:750-807 | the victim and the queue left are those of textbook second chance: first clear bit, or the old head if all were set, with the skipped entries behind in order |
| Scfifo.PolicyIsSecondChance | vm.c:750-807 | seen as a queue of pages with their bits, the policy takes the first page whose bit is clear, sends those before it to the back with their bits cleared, and leaves the others and their bits alone |
| Scfifo.ClearedIs | vm.c:722-738 | bit by bit: cleared for the pages passed, as it was for every other |
| Scfifo.ClearedOk | vm.c:722-738 | clearing the bits passed changes no page's contents |
| Scfifo.Proc.constructor | proc.c:126-143 | a new process has empty tables and an empty queue |
| Scfifo.Proc.Rotate | vm.c:766-775 | the head moves to the tail and the links stay one chain |
| Scfifo.Proc.Unlink | vm.c:790-805 | the victim is taken off the chain |
| Scfifo.Proc.UpdateAccessBit | vm.c:722-738 | returns the page's access bit, which is clear afterwards; no other entry changes |
| Scfifo.Proc.Scan | vm.c:758-787 | the loop ends within one rotation, having skipped exactly the leading set bits; also for a lone page whose bit is clear |
| Scfifo.Proc.ScfifoAlg | vm.c:750-807 | takes the second-chance victim and leaves the second-chance queue; exactly the bits of the pages passed are cleared and no other bit changes; also for a lone page whose bit is clear |
| Scfifo.Proc.UpdateMemory | vm.c:369-413 | the page takes the first free slot and joins the tail; the chain visits exactly the occupied slots; none of the three panics on the links is met |
| Scfifo.Proc.ReadPageFromFile | vm.c:57-78 | the page's slot is read and freed, the page entered in RAM |
| Scfifo.Proc.WritePageToFile | vm.c:80-99 | the page goes to the first free swap slot |
| Scfifo.Proc.SwapOver | vm.c:116-129 | the branch with RAM full, as one step of the paging model |
| Scfifo.Proc.PageOut | vm.c:123-128 | the victim's frame is written out, unmapped and freed |
| Scfifo.Proc.BringIn | vm.c:131-136 | the branch with room, as one step of the paging model |
| Scfifo.Proc.GetPageFromFile | vm.c:105-138 | the page is present afterwards, no page changed, no frame is lost, no panic is met on the way, and the queue with its bits is that of second chance: the page last with its own bit, a victim gone if RAM was full |
| Scfifo.Proc.Load | vm.c:105-138 | a load sees flat memory; the page's bit is set and the queue is otherwise as the fault left it; no frame is lost; a free frame is needed only for a page in swap |
| Scfifo.Proc.Store | vm.c:105-138 | a store changes flat memory at its page only; the page's bit is set and the queue is otherwise as the fault left it; no frame is lost; a free frame is needed only for a page in swap |
| Scfifo.Proc.InsertToDisk | vm.c:809-834 | the slot's page is in the swap slot, its frame free, its entry swapped out |
| Scfifo.Proc.MoveRamToDisk | vm.c:836-862 | a policy victim leaves RAM and no page changes |
| Scfifo.Proc.PrepareSlot | vm.c:905-921 | a slot is free for the new page and the panic at vm.c:910 is not reached |
| Scfifo.Proc.AllocPage | vm.c:888-922 | one more page of zeros, the others as before, no frame lost; the page joins the second-chance queue unused, a victim gone if RAM was full |
| Scfifo.Proc.AllocUvm | vm.c:866-924 | its result in every case, and flat memory extended with zeros or left alone; the frames free or mapped are those that were; the queue with its bits is that of second chance brought each new page in turn; when kalloc fails, every page up to the one refused is in place, no frame is free, and the process asked for more than it had frames |
| Scfifo.ZeroExtendedAt | vm.c:885-922 | page by page: the new pages read as zeros, the old ones as before |
| Ageing.AgeOrder | vm.c:463-488 | comparing age words is comparing access histories, newest first |
| Ageing.TickShifts | proc.c:524-527 | a tick shifts the word right and puts the access bit on top |
| Ageing.AgeEncodesHistory | proc.c:518-530 | after any run of ticks the word is the last 32 access bits, newest at bit 31, above the default fill |
| Ageing.DefaultFill | vm.c:15-20 | the default words are all zeros or all ones |
| Ageing.Pages.Tick | proc.c:518-530 | every mapped page's word is ticked with its access bit, which is cleared |
| Ageing.NfuAlg | vm.c:463-488 | the lowest-index page of least history, or none |
| Ageing.CountOnes | vm.c:491-503 | the number of set bits |
| Ageing.LapaAlg | vm.c:505-543 | the lowest-index page least by set-bit count, then by history, or none |
| Blocks.PutBitReads | fs.c:66-93 | one bitmap bit changes and no other |
| Blocks.PutWordReads | fs.c:391-394 | one word of the indirect block changes and no other |
| Files.OwnershipExact | fs.c:42-96 | a bitmap bit is set exactly for metadata blocks and blocks some slot refers to; no two slots refer to one block; every reference is a data block |
| Files.AllocMapped | fs.c:56-78 | balloc marks its block and no other |
| Files.FreedMapped | fs.c:81-96 | bfree unmarks its block and no other |
| Files.SetIndirectTabled | fs.c:388-389 | a newly allocated indirect block has no entries: only its own slot changes |
| Files.SetDirectTabled | fs.c:379-382 | filling a direct slot changes that slot of that inode only |
| Files.SetEntryTabled | fs.c:390-395 | filling an indirect entry changes that slot of that inode only |
| Files.OwnedFill | fs.c:373-401 | giving an empty slot an unused block keeps ownership exact |
| Files.OwnedClear | fs.c:415-420 | freeing a slot's block and emptying the slot keeps ownership exact |
| Files.OwnedNoIndirect | fs.c:422-432 | freeing the entries one by one and then the indirect block keeps ownership exact |
| Contents.SpliceTwice | fs.c:499-505 | two writes in a row are one write of both |
| Contents.HoldsWrite | fs.c:500-503 | bytes copied into one block of a file are spliced into the file |
| Contents.FilledMeans | fs.c:373-401 | allocating for an empty slot keeps tables, bitmap and ownership in order and changes no file, of any inode |
| Contents.WrittenMeans | fs.c:499-505 | a write inside one block changes that file by exactly those bytes and no other file |
| Contents.UpdatedSynced | fs.c:221-237 | after iupdate the dinode on disk says what the inode in memory says |
| Contents.UpdatedOther | fs.c:221-237 | iupdate leaves the other dinodes of the block alone |
| Contents.UpdatedMeans | fs.c:221-237 | iupdate changes no file, no ownership, no size |
| Contents.FreedFacts | fs.c:91-92 | a block in a slot is marked in use, so the panic on freeing a free block is unreachable from itrunc |
| Contents.LockedMeans | fs.c:289-313 | what the disk stands for does not depend on which inode is locked, so the invariant carries over from one operation to the next on any other inode |
| BlockMap.BmappedMeans | fs.c:373-401 | bmap's one or two allocations together: the block is mapped, all else that was mapped stays, no file changes |
| BlockMap.MapLogFits | fs.c:373-401 | bmap logs no block but the new one, the indirect block and their bitmap blocks |
| Writes.WroteMore | fs.c:499-505 | one more turn of writei's loop extends the bytes written and the blocks accounted for |
| Writes.GrewDone | fs.c:507-510 | a write past the end leaves size, block map and dinode in agreement |
| Writes.UpdatedInodes | fs.c:221-237 | iupdate of an inode whose type, device and link count are those on disk leaves them so, and every other dinode as it was |
| Writes.WithinDone | fs.c:507-510 | a write inside the file allocates nothing, so the dinode it does not rewrite is still right |
| Writes.ChunkSpan | file.c:133 | a chunk touches at most four blocks, at most three of them new |
| Writes.ChunkBound | file.c:133-152 | a chunk logs at most MAXOPBLOCKS distinct blocks, for every offset, length and size and any number of bitmap blocks |
| Writes.ChunkAdmissible | file.c:133-152 | what a chunk logs are home blocks, at most MAXOPBLOCKS of them |
| Writes.TruncAdmissible | fs.c:408-436 | what itrunc may log is within an operation's budget exactly on volumes of at most nine bitmap blocks |
| Writes.FreedExactly | fs.c:408-436 | the blocks itrunc gave back are exactly those the file's slots referred to |
| Volume.Volume.FindFree | fs.c:62-67 | the first clear bit over all bitmap blocks, or none |
| Volume.Volume.Balloc | fs.c:56-78 | the first free block, marked and zeroed; none left is the panic |
| Volume.Volume.Bfree | fs.c:81-96 | the block is unmarked |
| Volume.Volume.AddrSlot | fs.c:379-389 | an address slot is used as it is or filled with a new block |
| Volume.Volume.EntrySlot | fs.c:390-396 | so is an entry of the indirect block |
| Volume.Volume.Bmap | fs.c:373-401 | the block's address; nothing changes if it was mapped, and no file changes if it was not |
| Volume.Volume.Iupdate | fs.c:221-237 | the dinode's sixteen words, over its place in the inode block |
| Volume.Volume.WriteChunk | fs.c:500-504 | one turn of writei's loop |
| Volume.Volume.Writei | fs.c:482-512 | -1 and no change at all when refused; otherwise the file is spliced with exactly the bytes given, all other files are as before, ownership is exact, the dinode agrees with the inode, its type, device numbers and link count are as before and so is every other dinode |
| Volume.Volume.Readi | fs.c:453-477 | -1 or the clamped slice of the file; nothing is allocated, logged or changed |
| Volume.Volume.TruncDirects | fs.c:415-420 | the direct blocks are freed and their slots empty |
| Volume.Volume.TruncEntries | fs.c:423-428 | the indirect entries' blocks are freed |
| Volume.Volume.Itrunc | fs.c:408-436 | the file is empty, exactly its blocks are free again, every other file is as before, type, device numbers and link count stay and so does every other dinode; no block but bitmap blocks and the inode's was logged |
| Volume.Volume.Ilock | fs.c:289-313 | the inode read from disk may be worked on next |
| Volume.Volume.WriteOp | file.c:140-145 | a chunk is one transaction: what changed on disk is what it logged, at most MAXOPBLOCKS blocks, none of them in the log region; dinodes change in size and addresses only, and only this file's |
| Volume.Volume.Filewrite | file.c:117-154 | the bytes that fit in whole chunks are written in order and the offset advanced by them; the result is n exactly when all fitted; the chunks are operations one after the other, each from one volume at rest to the next; types, device numbers, link counts and other files' dinodes stay |
| Volume.Volume.LogPut | log.c:204-233 | a logged change to one block, remembered in order |
| FileCrash.WholeOps | file.c:135-152 | a prefix of the writes that holds ended operations and splits none is a number of whole operations |
| FileCrash.ReplayChunks | file.c:135-152 | replaying the writes of the first k chunks gives the volume after k chunks |
| FileCrash.AtRestHome | fs.h:8-12 | what the volume stands for depends on no block of the log region |
| FileCrash.FilewriteCrash | file.c:117-154 | stop cache, log and disk at any point of a filewrite, mid-chunk or mid-commit: recovery gives a volume in order, whichever inode is read first, whose file is spliced with a whole number of chunks and whose other files are as before; the chunks kept are exactly those whose writes are durable, and all that have ended once the commit's header is written |
| FileCrash.ChunkInBudget | file.c:127-145 | in every run, whatever else is in the transaction, each block a chunk logs is a home block and is in the list or within the operation's budget: what begin_op reserves is enough for a chunk |
| Mkfs.Balloc | mkfs.c:238-251 | the first bits of the bitmap block are set and no others |
| Mkfs.EmptyAtRest | mkfs.c:238-251 | a volume of mkfs's layout with no inode made, and the bitmap balloc writes for it, is in order: every file empty, exactly the metadata blocks in use |
| Mkfs.DefaultMakeable | mkfs.c:94-103 | the superblock written for FSSIZE and NINODES is one of those |
| Mkfs.RootFix | mkfs.c:158-163 | mkfs's rounding up of the root directory's size leaves a volume in order if and only if its entries are not a multiple of 32; otherwise the directory's last block is a hole |
| Mkfs.EmptyRootHole | mkfs.c:158-163 | a directory with no entries is one it leaves with a hole |
| Heap.InsertedFree | umalloc.c:33-42 | after free's joins the list is in address order and no two blocks touch |
| Heap.InsertedSum | umalloc.c:33-42 | free returns exactly the block's units |
| Heap.TakenOk | umalloc.c:75-83 | the block taken is disjoint from the list left, and the list stays in order |
| Heap.TakenSum | umalloc.c:75-83 | malloc takes exactly the units asked for |
| Heap.InsertedCovers | umalloc.c:33-42 | after free the free bytes are those that were free and the block's, and no others |
| Heap.TakenCovers | umalloc.c:75-83 | before malloc the free bytes are those left free and the new block's |
| Heap.SearchStops | umalloc.c:30-32 | free's two tests stop the search at the one place the block belongs |
| Heap.WiredLinked | umalloc.c:33-42 | free's header writes leave one ring through base and the joined list |
| Heap.FreedOk | umalloc.c:24-44 | free keeps the heap in order |
| Heap.GrownOk | umalloc.c:46-61 | a block above all others joins the list in order, adding its units |
| Heap.MovedOk | proc.c:185-202 | sbrk's answer to morecore is the old break, and the memory there is what was asked for exactly below 2^28 units |
| Heap.MoreOk | umalloc.c:46-61 | after morecore every block of the heap is memory of the process, and its units are the bytes obtained, if and only if fewer than 2^28 units were asked for |
| Heap.MoreUnbacked | umalloc.c:54 | a request of 2 GB does not raise the break and leaves a heap that is not memory |
| Heap.TookOk | umalloc.c:74-85 | malloc keeps the heap in order |
| Heap.RunKeepsHeap | umalloc.c:24-90 | from the first call on: one address-ordered ring of disjoint, non-adjacent free blocks, live blocks that overlap nothing, all of it memory of the process, and free plus live units equal to the bytes sbrk gave; for exactly as long as no morecore asks for 2^28 units or more |
| Heap.UnitsCover | umalloc.c:69 | the block has room for the request exactly when the request is at most 0xFFFFFFF8 bytes |
| Heap.UnitsWrap | umalloc.c:69 | the largest request gets a header and no payload |
| Heap.SbrkAsked | umalloc.c:54 | morecore asks sbrk for the units needed exactly when they are fewer than 2^28, and otherwise for nothing or less |
| Heap.Heap.constructor | umalloc.c:21-22 | no list yet, and the break where exec left it |
| Heap.Heap.FindPlace | umalloc.c:30-32 | the search loop ends at the node the block goes after |
| Heap.Heap.Free | umalloc.c:24-44 | exactly the block's bytes become free, joined to its neighbours, and freep is the last header on the list below it |
| Heap.Heap.FreeLive | umalloc.c:24-44 | freeing a block malloc gave keeps the heap in order; that block and no other stops being live and its bytes become free |
| Heap.Heap.SysSbrk | sysproc.c:53-64 | answer, break and memory in every case: growing, refused, nothing asked, shrinking, shrinking to zero and past it |
| Heap.Heap.Start | umalloc.c:70-73 | the first call sets up base |
| Heap.Heap.Morecore | umalloc.c:46-61 | at least 4096 units more, or none if sbrk failed; the heap is memory afterwards exactly when fewer than 2^28 units were asked for |
| Heap.Heap.Search | umalloc.c:74-86 | one lap ends, with the first block after freep that is big enough, all between being too small, or with none on the list |
| Heap.Heap.Refill | umalloc.c:86-88 | after morecore the next lap finds a block, so it is called once at most |
| Heap.Heap.Take | umalloc.c:75-83 | the block, or the tail of it, is live: its bytes and no others stop being free, and freep is the header before it |
| Heap.Heap.Malloc | umalloc.c:63-90 | a new live block of the units asked for, overlapping nothing, from the first free block after freep that is big enough, if need be after one morecore, no units lost; or none, only if no free block was big enough and sbrk failed; the heap stays sound if and only if the request comes to fewer than 2^28 units |
| SleepLock.MutualExclusion | sleeplock.c:22-42 | over every interleaving at most one process holds the lock |
| SleepLock.NoLostWakeup | sleeplock.c:22-42 | whenever the spinlock is free, a process asleep on the lock implies it is locked and somebody will release it |
| SleepLock.WaitNext | proc.c:641-698 | every step of sleep and wakeup keeps the wakeup that is due |
| WaitExit.ExitKeeps | proc.c:358-375 | exit, with its reparenting to init, leaves no waiter asleep over a zombie child |
| WaitExit.WaitOnceKeeps | proc.c:381-421 | neither does a pass of wait |
| WaitExit.WaiterHasNoZombie | proc.c:358-421 | over every interleaving, a process asleep in wait has no zombie child, children inherited by init included |
| WaitExit.ExitedIs | proc.c:358-372 | exit slot by slot: every child is init's and no other parent changes; the caller is a zombie; a sleeper is runnable if it slept on the parent's channel, or on init's and some child is a zombie, and nobody else's state changes; pids, channels and kill marks stay |
| WaitExit.WaitOnceIs | proc.c:381-421 | a pass of wait slot by slot: the pid returned is the first zombie child's, whose slot and no other is free; -1 without zombies, and without children or killed; asleep otherwise |
| WaitExit.FamilyNext | proc.c:358-421 | every step keeps parents alive |
| WaitExit.ParentsAlive | proc.c:358-421 | over every interleaving, every process but init that has run, zombies included, has a parent that is neither a zombie nor a free slot, so it can be reaped; and no process is ever the child of such a slot |
| WaitExit.PTable.Wakeup1 | proc.c:681-689 | every sleeper on the channel becomes runnable and nobody else changes |
| WaitExit.PTable.Exit | proc.c:358-372 | every child is init's and no other parent changes; the caller is a zombie; sleepers on the parent's channel, and on init's if a child is a zombie, are runnable; nothing else changes |
| WaitExit.PTable.Wait | proc.c:381-421 | one pass: the first zombie child's pid is returned and its slot, no other, is free; or -1 and no change; or the caller alone is asleep on its own channel |
| WaitExit.PTable.Kill | proc.c:703-721 | the first process with the pid is marked and, if asleep, runnable, and no other slot changes; if none has it nothing does |
| Pipe.FullIsFull | pipe.c:85 | the wrapping tests mean what they say: full is 512 bytes buffered, empty is none |
| Pipe.PutAppends | pipe.c:93 | a byte put is the last of the queue, also when the counters wrap |
| Pipe.GotRemoves | pipe.c:116 | a byte got is the first of the queue, also when the counters wrap |
| Pipe.PipeBuf.Fill | pipe.c:84-94 | the write loop up to a full ring appends a prefix of the bytes |
| Pipe.PipeBuf.Drain | pipe.c:113-117 | the read loop takes bytes off the front until empty or satisfied |
| Pipe.PipeIsFifo | pipe.c:78-121 | over every interleaving the bytes read are a prefix of the bytes put in, the rest are in the ring, at most 512; PipeCalls says whose bytes they are |
| Pipe.WritersNext | pipe.c:59-121 | every step keeps the writers' half, kills included |
| Pipe.ReadersNext | pipe.c:85-89 | a step keeps the readers' half if and only if it is not a killed writer filling the pipe and leaving while a reader sleeps |
| Pipe.NoLostWakeup | pipe.c:59-121 | over every run, kills included, a sleeping writer implies a full pipe with an open reader; a sleeping reader implies an empty pipe with an open writer up to a step exactly when no step so far had a killed writer leave with the pipe full and a reader asleep |
| Pipe.KilledWriterStrandsReader | pipe.c:85-89 | a run with such a step: a killed writer returns without a wakeup and leaves a reader asleep beside a full pipe |
| PipeCalls.WritesInterleave | pipe.c:78-98 | over every interleaving the bytes put in are an interleaving of the arguments of the write calls, each in its own order: a call in progress has put its argument but for what it still has to do, one that returned has put all of it, or its beginning if its process was killed or the read end closed |
| PipeCalls.WriteReturns | pipe.c:84-97 | a write returns when its last byte is in, and with more to put than there is room for exactly if its process was killed or the read end closed; otherwise it sleeps, over a full ring |
| PipeCalls.ReadReturns | pipe.c:100-121 | a read returns the first bytes there are, as many as its call asked for or all, and they leave the ring; over an empty pipe with an open write end it sleeps, or returns nothing if killed |
| Shell.WordToken | sh.c:265-308 | gettoken takes the whole word and the space after it |
| Shell.PrintParse | sh.c:327-446 | parsing the parenthesised print of any well-formed command gives the command back |
| Shell.ParsePrintParse | sh.c:327-446 | every successful parse is a well-formed command, and printing and parsing it again changes nothing |
| Shell.ArgsGood | sh.c:429-442 | at most nine words per command, each non-empty |
| Grammar.LexToken | sh.c:265-308 | gettoken gives the first of the line's tokens, read character by character, and leaves the others |
| Grammar.PipelineComplete | sh.c:361-372 | an element, or elements joined by bars, before anything but a bar is parsed to pipes nested to the right |
| Grammar.LineComplete | sh.c:344-359 | a pipeline with any number of ampersands, and after a semicolon another line, is parsed to lists nested to the right, the ampersands applying to their pipeline |
| Grammar.ElementComplete | sh.c:399-446 | words and redirections in any order are parsed to the words in order beneath the redirections, the last outermost; a line in parentheses to its meaning beneath the redirections after it |
| Grammar.ParsesLanguage | sh.c:327-446 | a line parses to a command if and only if the grammar derives the line's tokens with that meaning: at most nine words per simple command, no parenthesis inside one, every redirection with its file; every other line is a panic |
| ShellLine.Gettoken | sh.c:265-308 | the token at the position, where it lies, and where to go on; a word is maximal |
| ShellLine.PeekAt | sh.c:310-320 | spaces are skipped and the next character compared, at the end of the line too |
| ShellLine.Parseredirs | sh.c:374-397 | the loop along the line agrees with the grammar, errors included |
| ShellLine.Arguments | sh.c:429-445 | so does the argument loop |
| ShellLine.Parseexec | sh.c:415-446 | so does parseexec, and where it succeeds it has read one element of the grammar |
| ShellLine.Parseblock | sh.c:399-413 | so does parseblock |
| ShellLine.Parsepipe | sh.c:361-372 | so does parsepipe, and where it succeeds it has read one pipeline of the grammar, all bars included |
| ShellLine.Parseline | sh.c:344-359 | so does parseline, and where it succeeds it has read one line of the grammar; all of them terminate on every line |
| ShellLine.NulledAt | sh.c:448-493 | only the characters just after words become NUL |
| ShellLine.WordsRead | sh.c:448-493 | nulterminate writes inside no word, so each word reads back as a C string equal to its token, whatever follows the line in the buffer |
| ShellLine.Nulterminate | sh.c:448-493 | the buffer afterwards, as a function of buffer and command |
| ShellLine.Parsecmd | sh.c:327-342 | the meaning the grammar gives the whole line, with readable words, or the panic, exactly if it gives none, leaving the buffer alone; nothing from the line's NUL on changes |
| Regex.HereMany | grep.c:98-105 | c* matches as many characters as some split of the text allows |
| Regex.MatchHere | grep.c:84-95 | true exactly when the text starts with a string of the pattern's language |
| Regex.MatchStar | grep.c:98-105 | the same behind a starred character |
| Regex.Match | grep.c:72-82 | true exactly when some position, or position 0 under a caret, starts such a string |

## Left out

- Hardware, boot code, interrupts, the disk driver: a block write is atomic.
- Spinlocks and kalloc internals: a locked section is one step, a frame comes from a free list.
- fork, exec and freevm acting on the swap tables, and the swap buffer shared between processes.
- SCFIFO shrinking through deallocuvm, and the AQ policy: their links are not kept in both directions. Paging has shrinking for the policies without a list.
- getPageFromFile when kalloc fails, which the source does not test for: a free frame is a precondition there.
- Devices in readi and writei, directories, path names, ialloc and iput's reference counting.
- The inode cache: one inode is in memory at a time, and Ilock switches to another between operations.
- bget for device 0: all buffers start with that key, so uniqueness is stated for the root device.
- grep's line buffering, the console, printf, system call plumbing and the user test programs.
- Running parsed commands: only parsing and printing are modelled; >> and > give the same tree, as in the source.
- The shell's command nodes are values, not heap objects; a word added after a redirection is added at the bottom of the tree, where the source reaches it through a second pointer.
- Liveness: no lost wakeup is proved, not that a woken process is ever scheduled.
- Log.Log.BeginOp: one pass of the waiting loop; the passes of waiting operations are the repeated begin steps of GroupCommit.
- Scfifo.Proc.ScfifoAlg: not stated for an empty queue or for a lone page whose bit is set, where the source follows a null pointer; every caller has at least two pages.
- Scfifo.Proc.AllocUvm: ends where a failed kalloc calls deallocuvm; what that undoes is left out with the rest of SCFIFO shrinking, and is Paging.GrowthUndone for the other policies.
- Heap.Heap.Malloc: the loop is laid out as a lap, a morecore and a second lap.
- Heap.Heap.SysSbrk: the break moves byte by byte; that memory comes and goes in whole pages is not modelled.
- Ageing.CountOnes: shifts the word right by one each turn instead of shifting a mask left.
- Volume.Volume.Iupdate: writes the dinode as words, the four shorts two to a word.
- WaitExit.PTable.Wait: one pass between sleeps; freeing the child's memory is not modelled.
- A fork that fails after allocproc, which puts its slot back before it has a parent.
- FileCrash.FilewriteCrash: speaks of a filewrite that is alone in writing; operations of other processes in the same transactions are covered by CachedLog.CrashConsistency, not by what they do to files.
- CachedLog.CommitNeverStuck: does not model the sleep locks of buffers, so it does not speak of waiting for a buffer another process has locked; SleepLock has their protocol.
- Recovery at boot is in Log, not in the machine of CachedLog.
- Mkfs.EmptyAtRest: mkfs makes inodes before it writes the bitmap; appending to files on the host is not modelled.
