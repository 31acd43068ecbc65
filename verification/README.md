# xv6: kernel and user library, modelled and proved

This project models the hard parts of an xv6 kernel with demand paging, of its user library
and of a scheduler patch, and proves what they promise. `dafny verify dfyconfig.toml` checks
everything. One file holds one component:

| file | component |
|---|---|
| LogFormat, LogMachine, LogData, LogLive, LogCode, LogFull | the redo log over the buffer cache over the disk, with crashes |
| FsBlocks, FileSystem, TenBlocks | bitmap, block tree, file contents, the chunks of filewrite |
| PageTable, FrameCount, VirtualMemory, PageLeak | Sv39 page tables and the frame pool |
| Malloc | the heap allocator of section 8.7 of The C Programming Language, 2nd edition |
| ExitWait, ExitLive | fork, exit, wait, sleep and wakeup |
| Pipe | pipes |
| Virtio | the disk driver against a virtio device (sections 2.6 and 5.2 of Virtio 1.1) |
| Cfs | the CFS scheduler of the patch |
| LazyLoad, LazyProcess, LazyLoss, Swap | loading programs on demand, across faults, evictions and forks; swap slots and FIFO records |
| ShellGrammar, ShellSyntax, ShellLexer, Shell | the shell's parser and the grammar it accepts |
| Regex, Grep | grep's matcher and line filter |

## How it is modelled

Code that updates state in place is a class whose methods are proved against a description of
the new state; pure code is functions; protocols are state machines or classes of which every
method is one critical section, so that any sequence of calls is an interleaving.

* **Log.** `LogMachine` runs any number of processes, the committer and recovery, one block
  write or one critical section at a time, with a crash possible between any two steps. Its
  abstract counterpart is a transactional disk: a current content, a durable content, and a
  commit that makes the one into the other. `LogCode` has the loops as written, with the disk
  after every block write recorded. `cache` there is what bread returns.
* **Files.** A ghost table says which block every slot of every inode refers to. The content of
  a file is a byte sequence; the block tree implements it. The bitmap is bytes, updated through
  masks; a ghost flag per block says what they mean. What was passed to log_write is recorded, so
  that contracts can say that nothing changes without being logged.
* **Pages on demand.** What a process has in a page is what is mapped, or else what a fault would
  map: the swapped contents or the loaded ones, as the record that the page shares with every
  512th other page says.
* **Memory.** A ghost field says what every frame is for: free, table n of page table p, user
  page v of page table p, or other. The flat map from pages to entries is what the tree means.
* **Processes.** `ExitWait` keeps wait_lock and every p->lock across steps where the code does;
  a process between releasing wait_lock and being asleep is a state of its own.
* **Languages.** The regular language of a pattern is defined by splitting a string into pieces;
  the shell's grammar by concrete syntax trees, the tokens they stand for and what they mean.
* **CFS.** A fork is two steps, the allocation of the child's slot, which fixes its vruntime, and
  its start; the parent can lose the CPU in between.

Findings, each with a member that shows it at a concrete input or run:

* log_write tests for a full log before it looks for the block, so it panics on a full log even
  for a block that would be absorbed (`LogFull.FullLogRefusesAbsorption`).
* The cache has as many buffers as the log has blocks. A full log pins all of them, and commit
  finds no buffer to read a block of the log into, so bget panics (`LogFull.FullLogNeverCommits`;
  exactly then: `LogLive.SettlesIff`).
* malloc of more than 2^31 - 32 bytes is truncated by sbrk's int (`Malloc.RequestReachesSbrk`).
* uvmfree leaks the frames of pages mapped at or above sz, because freewalk only warns about them
  (`PageLeak.UvmfreeLeavesPage`; the exact condition is in `VirtualMemory.Memory.Uvmfree`).
* A pipe writer that is killed after adding bytes returns without waking the readers
  (`Pipe.KilledWriterLosesWakeup`; the exact condition is in `Pipe.PipeBuffer.Write`).
* Under CFS a negative nice value makes the increment 1024 / weight zero, and the process can keep
  the CPU for ever (`Cfs.FastIsNotPrompt`; exactly then: `Cfs.PromptIff`). A fork whose parent
  loses the CPU between allocating the child and making it runnable can leave any gap between
  vruntimes (`Cfs.InterruptedForkUnbounded`; exactly when: `Cfs.StartKeepsFairIff`). With at most
  n dispatches and no exits in between the gap stays within n + 1 slices, and one dispatch leaves
  no room for an exit; but two dispatches with an exit are enough for any gap
  (`Cfs.ForksAndExitsUnbounded`).
* The swap bitmap is an array of 32-bit ints used with 64-bit masks: half of the slots can never
  be handed out, but no live slot is ever handed out twice (`Swap.Pager.AllocSwapSlot`). kexec
  forgets slots of the old program without freeing them (`Swap.Pager.ExecPage`).
* A program page at or above the rounded end of the data segments, or at file offset 0, is given
  zeros instead of its bytes; a program without a data segment is not loaded at all
  (`LazyLoad.TextAloneExample`, `LazyLoad.OffsetZeroExample`; exactly when:
  `LazyLoad.LazyEqualsEagerIff`). A child does not see what its parent had swapped out
  (`LazyProcess.ChildSeesParentIff`): num_pages is never anything but 0, so kfork copies no record.
* An eviction unmaps 4096 pages instead of one, and saves one: the page whose address the victim's
  record carries. kexec does not set the address of the stack's record, which is the first victim.
  So stores are lost, the stack turns into another page (`LazyLoss.EvictLosesStore`), and even a
  page that was never stored to can be lost (`LazyLoss.UnstoredPageLost`); exactly when:
  `LazyProcess.EvictKeepsIff` and `LazyProcess.ActKeepsSeenIff`.
* grep stops for good at a line with a NUL or of more than 1023 bytes (`Grep.NulHidesLaterLine`;
  exactly when: `Grep.NoLineLostIff`).

## Model

| member | source | states |
|---|---|---|
| `LogFormat.RecoveredIsRepresented` | xv6 using on-demand allocation and FIFO swapping/kernel/log.c:66-98 | a log header without duplicate block numbers makes the disk represent exactly what replaying the log onto it computes |
| `LogFormat.RepresentsUnique` | xv6 using on-demand allocation and FIFO swapping/kernel/log.c:66-98 | a disk and its header determine the home blocks they represent: no two different contents fit |
| `LogFormat.ReplayAt` | xv6 using on-demand allocation and FIFO swapping/kernel/log.c:66-84 | replay leaves blocks not named in the header alone and fills named ones from one of their log copies |
| `LogFormat.EncodedHeaderOk` | xv6 using on-demand allocation and FIFO swapping/kernel/log.c:87-115 | round trip of the header block: what write_head encodes, read_head decodes |
| `LogFormat.HeaderUntouched` | xv6 using on-demand allocation and FIFO swapping/kernel/log.c:71-83 | writing any block but the header leaves the header readable as before |
| `LogMachine.StepKeepsInv` | xv6 using on-demand allocation and FIFO swapping/kernel/log.c:126-236 | every step of begin_op, end_op, log_write, commit, recovery, of the buffer cache and every crash keeps the invariant of log, cache and disk |
| `LogMachine.PowerOnInv` | xv6 using on-demand allocation and FIFO swapping/kernel/log.c:53-63 | a machine switched on with any readable log satisfies the invariant |
| `LogMachine.ReachableInv` | xv6 using on-demand allocation and FIFO swapping/kernel/log.c:126-236 | the invariant holds in every state of every run |
| `LogMachine.StepRefines` | xv6 using on-demand allocation and FIFO swapping/kernel/log.c:179-204 | every kernel step is one atomic step, or no step, of a transactional disk with a current and a durable content |
| `LogMachine.RunRefines` | xv6 using on-demand allocation and FIFO swapping/kernel/log.c:117-204 | whole runs from power-on, with any interleaving and any crashes, are runs of the transactional disk |
| `LogMachine.RecoveryRestoresDurable` | xv6 using on-demand allocation and FIFO swapping/kernel/log.c:117-124 | crash atomicity: crash in any reachable state, let recovery crash any number of times; what the disk represents stays the durable content of the first crash, and a recovery that completes leaves exactly it on the home blocks |
| `LogFull.FullLogRefusesAbsorption` | xv6 using on-demand allocation and FIFO swapping/kernel/log.c:221-229 | a run from power-on that fills the log, after which log_write of a block the log already holds is refused |
| `LogFull.FullLogNeverCommits` | xv6 using on-demand allocation and FIFO swapping/kernel/log.c:179-192 | a run from power-on, within all limits, that fills the log; after it no commit ever ends, whatever happens short of a crash |
| `LogLive.SettlesIff` | xv6 using on-demand allocation and FIFO swapping/kernel/log.c:148-204 | once all operations have logged what they changed, they can end and commit can put all of it on disk, whoever holds buffers and wherever the commit is, if and only if fewer than NBUF blocks are pinned |
| `LogLive.FullNeverCommits` | xv6 using on-demand allocation and FIFO swapping/kernel/log.c:179-192 | with NBUF blocks pinned nothing becomes durable any more in any crash-free continuation, because write_log finds no buffer for a block of the log |
| `LogLive.RecoveryFinishes` | xv6 using on-demand allocation and FIFO swapping/kernel/log.c:117-124 | after a crash in any state recovery can run to its end, and then the home blocks hold what was durable |
| `LogLive.RoomIff` | xv6 using on-demand allocation and FIFO swapping/kernel/bio.c:58-88 | bget can recycle some buffer if and only if fewer than NBUF blocks are pinned |
| `LogData.ModifiedIsLogged` | xv6 using on-demand allocation and FIFO swapping/kernel/log.c:215-236 | in every run log_write makes current what its process last put into the buffer, whatever others did in between |
| `LogData.DataBecomesDurable` | xv6 using on-demand allocation and FIFO swapping/kernel/log.c:194-204 | and the commit makes it durable, unless the block is logged again before |
| `LogMachine.OnlyCommitIsDurable` | xv6 using on-demand allocation and FIFO swapping/kernel/log.c:194-204 | all-old before the first write_head of commit, all-new after it: no other step changes what a recovery would produce |
| `LogMachine.QuiescentIsDurable` | xv6 using on-demand allocation and FIFO swapping/kernel/log.c:148-176 | once the last end_op has finished committing, everything written is durable |
| `LogMachine.DurableIsCommitted` | xv6 using on-demand allocation and FIFO swapping/kernel/log.c:117-124 | the durable content is what recovery computes from the bytes on disk |
| `LogMachine.ReadSeesCurrent` | xv6 using on-demand allocation and FIFO swapping/kernel/bio.c:91-103 | a process that holds a buffer it has not modified sees the latest logged or written contents of the block |
| `LogMachine.LoggedBlockStaysCached` | xv6 using on-demand allocation and FIFO swapping/kernel/bio.c:58-88 | a logged block keeps its buffer, pinned, until install_trans has written it home |
| `LogMachine.LogNeverOverflows` | xv6 using on-demand allocation and FIFO swapping/kernel/log.c:128-143 | an operation that has logged fewer than MAXOPBLOCKS new blocks never finds the log full |
| `LogMachine.CreditBound` | xv6 using on-demand allocation and FIFO swapping/kernel/log.c:134-138 | the reservations of all outstanding operations together fit what begin_op set aside |
| `LogMachine.CommitOk` | xv6 using on-demand allocation and FIFO swapping/kernel/log.c:194-204 | the header write moves from the old contents to the new in one step |
| `LogMachine.InstallOneOk` | xv6 using on-demand allocation and FIFO swapping/kernel/log.c:66-84 | each installed block changes neither what recovery would produce nor what readers see, and gives up one pin |
| `LogMachine.RecoverOneOk` | xv6 using on-demand allocation and FIFO swapping/kernel/log.c:66-84 | each block installed by recovery leaves what the log represents unchanged: recovery is idempotent |
| `LogMachine.RecordOk` | xv6 using on-demand allocation and FIFO swapping/kernel/log.c:215-236 | log_write keeps the logged block numbers distinct and pins exactly the logged blocks |
| `LogMachine.BlockUpdateKeepsCache` | xv6 using on-demand allocation and FIFO swapping/kernel/bio.c:58-151 | changing a block in its one buffer and in the view keeps one buffer per block and refcnt equal to holders plus pin |
| `LogMachine.BufferStepKeepsInv` | xv6 using on-demand allocation and FIFO swapping/kernel/bio.c:58-151 | bget (hit and recycling), the disk read, brelse and modification keep the invariant |
| `LogCode.InstalledPrefixKeepsView` | xv6 using on-demand allocation and FIFO swapping/kernel/log.c:66-84 | whatever prefix of the log has been installed, a crash still recovers the same contents |
| `LogCode.InstalledAll` | xv6 using on-demand allocation and FIFO swapping/kernel/log.c:66-84 | after the whole log has been installed its contents are in place |
| `LogCode.RedoLog.LogWrite` | xv6 using on-demand allocation and FIFO swapping/kernel/log.c:215-236 | the header keeps distinct numbers; a repeated block is absorbed; a full log panics even for a block it already holds |
| `LogCode.RedoLog.WriteLog` | xv6 using on-demand allocation and FIFO swapping/kernel/log.c:179-192 | the cached contents end in the log area, and a crash at any write still finds the old contents |
| `LogCode.RedoLog.WriteHead` | xv6 using on-demand allocation and FIFO swapping/kernel/log.c:103-115 | the header block decodes to the in-memory header; nothing else on disk changes |
| `LogCode.RedoLog.InstallTrans` | xv6 using on-demand allocation and FIFO swapping/kernel/log.c:66-84 | disk and cache become the replay of the log, one block write at a time |
| `LogCode.RedoLog.ReadHead` | xv6 using on-demand allocation and FIFO swapping/kernel/log.c:87-98 | the in-memory header becomes the one on disk |
| `LogCode.RedoLog.InstallAndClear` | xv6 using on-demand allocation and FIFO swapping/kernel/log.c:66-84 | every crash on the way finds the same contents, and they are in place with an empty log at the end |
| `LogCode.RedoLog.RecoverFromLog` | xv6 using on-demand allocation and FIFO swapping/kernel/log.c:117-124 | recovery leaves exactly the contents the log represented, and so does every crash within it |
| `LogCode.RedoLog.Commit` | xv6 using on-demand allocation and FIFO swapping/kernel/log.c:194-204 | every crash before the first header write finds the old contents, every crash from it on the new ones |
| `FileSystem.Fs.Balloc` | xv6 using on-demand allocation and FIFO swapping/kernel/fs.c:66-89 | the first free block, zeroed and marked; 0 exactly if every block is in use; nothing else changes |
| `FileSystem.Fs.Bfree` | xv6 using on-demand allocation and FIFO swapping/kernel/fs.c:92-106 | the block becomes free; panics exactly if it already is |
| `FileSystem.Fs.Bmap` | xv6 using on-demand allocation and FIFO swapping/kernel/fs.c:405-444 | the block of content block bn, allocating it and the indirect block as needed; 0 exactly if the disk ran full; mapped blocks keep place and contents; every block stays owned by one slot; every block and bitmap block it changes is logged |
| `FileSystem.Fs.Readi` | xv6 using on-demand allocation and FIFO swapping/kernel/fs.c:495-523 | returns exactly the bytes off .. min(off + n, size) of the content and changes nothing |
| `FileSystem.Fs.Writei` | xv6 using on-demand allocation and FIFO swapping/kernel/fs.c:529-562 | -1 on a bad offset or past the maximum size; otherwise the bytes written are spliced into the content, short only when the disk is full; every other file keeps its content; every block and bitmap block that changes is passed to log_write, and three blocks' worth of bytes log at most MAXOPBLOCKS blocks; mapped blocks keep their place |
| `FileSystem.Fs.Itrunc` | xv6 using on-demand allocation and FIFO swapping/kernel/fs.c:448-476 | frees exactly the inode's blocks, each once, so bfree never panics; the inode is empty; other files keep their content; every bitmap block that changes is logged |
| `FileSystem.Fs.WriteChunk` | xv6 using on-demand allocation and FIFO swapping/kernel/file.c:155-172 | one transaction of filewrite logs everything it changes, stays within MAXOPBLOCKS logged blocks and splices what it wrote |
| `FileSystem.Fs.FileWrite` | xv6 using on-demand allocation and FIFO swapping/kernel/file.c:148-173 | the bytes by which the offset advances are a prefix of the source, spliced in at the offset; the result is n exactly if all were written; no chunk logs more than MAXOPBLOCKS blocks |
| `FsBlocks.AssignKeepsOwn` | xv6 using on-demand allocation and FIFO swapping/kernel/fs.c:405-444 | giving a free block to an empty slot keeps every block owned by at most one slot and marked exactly if owned |
| `FsBlocks.DropKeepsOwn` | xv6 using on-demand allocation and FIFO swapping/kernel/fs.c:448-476 | emptying a slot and clearing its block's bit keeps the same ownership |
| `FileSystem.Fs.Mark` | xv6 using on-demand allocation and FIFO swapping/kernel/fs.c:75-79 | the mask update of one bitmap byte changes the flag of one block and no other |
| `FsBlocks.PutBit` | xv6 using on-demand allocation and FIFO swapping/kernel/fs.c:75-79 | the bytes of the bitmap keep saying which blocks are in use when one bit is set or cleared through its mask |
| `TenBlocks.WriteTen` | xv6 using on-demand allocation and FIFO swapping/kernel/file.c:149-153 | on any disk whose free blocks, five or more, lie in different bitmap blocks, writing three blocks' worth of bytes across the end of a file of twelve blocks succeeds and logs exactly MAXOPBLOCKS blocks: the bound on a chunk cannot be better |
| `TenBlocks.WriteiLogsTen` | xv6 using on-demand allocation and FIFO swapping/kernel/fs.c:529-562 | such a disk, and such a call of writei: the bitmap is marked block by block, the inodes are assigned, 2047 of them holding blocks beyond their size 0 |
| `FsBlocks.WordPut` | xv6 using on-demand allocation and FIFO swapping/kernel/fs.c:430-438 | an entry written into an indirect block is read back, and the other entries are unchanged |
| `FsBlocks.WriteBytes` | xv6 using on-demand allocation and FIFO swapping/kernel/fs.c:541-552 | writing into one block changes exactly those bytes of one file |
| `FsBlocks.WroteContent` | xv6 using on-demand allocation and FIFO swapping/kernel/fs.c:529-562 | bytes written over the block tree appear as a splice of the abstract content, in this file only |
| `FsBlocks.LogAcctBound` | xv6 using on-demand allocation and FIFO swapping/kernel/file.c:149-153 | data blocks, bitmap blocks, indirect block and inode of one chunk come to at most MAXOPBLOCKS distinct logged blocks |
| `FsBlocks.TruncatedUsed` | xv6 using on-demand allocation and FIFO swapping/kernel/fs.c:448-476 | after truncation exactly the blocks the inode held have become free |
| `PageTable.PteRoundTrip` | xv6 using on-demand allocation and FIFO swapping/kernel/riscv.h:365-369 | PA2PTE and PTE2PA are inverse and keep the flags apart from the frame number |
| `PageTable.PxInjective` | xv6 using on-demand allocation and FIFO swapping/kernel/riscv.h:371-374 | the three indices of a virtual page identify it |
| `PageTable.AddTable` | xv6 using on-demand allocation and FIFO swapping/kernel/vm.c:103-113 | linking in a new table page keeps the tree of distinct frames and every mapping |
| `PageTable.SetLeaf` | xv6 using on-demand allocation and FIFO swapping/kernel/vm.c:161-172 | writing one leaf entry updates the flat map at that page and nowhere else |
| `PageTable.OtherFramesIrrelevant` | xv6 using on-demand allocation and FIFO swapping/kernel/vm.c:97-116 | frames that are not tables of a page table cannot affect its mappings |
| `VirtualMemory.Memory.Kalloc` | xv6 using on-demand allocation and FIFO swapping/kernel/kalloc.c:68-82 | hands out the first free frame, or 0 exactly if there is none; the free list stays exactly the set of free frames, each once |
| `VirtualMemory.Memory.Kfree` | xv6 using on-demand allocation and FIFO swapping/kernel/kalloc.c:46-63 | the frame joins the free list, filled with junk; no other frame changes |
| `VirtualMemory.Memory.constructor` | xv6 using on-demand allocation and FIFO swapping/kernel/kalloc.c:26-40 | after kinit the free list is exactly the frames from the end of the kernel on |
| `VirtualMemory.Memory.Uvmcreate` | xv6 using on-demand allocation and FIFO swapping/kernel/vm.c:178-187 | an empty page table in one new frame, or 0 exactly if memory is exhausted |
| `VirtualMemory.Memory.Walk` | xv6 using on-demand allocation and FIFO swapping/kernel/vm.c:97-116 | returns the lowest-level table of the address; allocates only tables, changes no mapping, and fails only when memory is exhausted |
| `VirtualMemory.Memory.Walkaddr` | xv6 using on-demand allocation and FIFO swapping/kernel/vm.c:120-138 | the frame of the flat map if the page is valid and user-accessible, else 0 |
| `VirtualMemory.Memory.MapPages` | xv6 using on-demand allocation and FIFO swapping/kernel/vm.c:145-174 | acts on the flat map as the update of a range to consecutive frames with the given permissions, up to the page where memory ran out or a page was mapped already; every other page is unchanged |
| `VirtualMemory.Memory.Uvmunmap` | xv6 using on-demand allocation and FIFO swapping/kernel/vm.c:208-228 | removes exactly the given range from the flat map; the frames of its pages, and no others, are freed or handed back |
| `VirtualMemory.Memory.Uvmdealloc` | xv6 using on-demand allocation and FIFO swapping/kernel/vm.c:262-275 | unmaps and frees exactly the pages between the two sizes; returns the smaller size |
| `VirtualMemory.Memory.Uvmalloc` | xv6 using on-demand allocation and FIFO swapping/kernel/vm.c:232-257 | on success the new pages are zeroed frames of their own with the given permissions and nothing else changed; on failure no mapping changed and every leaf frame is back in the pool; it succeeds exactly if there are as many free frames as new pages and missing tables, and uses exactly so many |
| `VirtualMemory.Memory.Uvmcopy` | xv6 using on-demand allocation and FIFO swapping/kernel/vm.c:315-343 | on success the child has equal contents and flags on frames of its own; on failure it maps what it did before and every leaf frame is back; the parent is unchanged either way; it succeeds exactly if there are as many free frames as valid pages of the parent below sz and tables the child lacks for them, and uses exactly so many |
| `FrameCount.FramesGone` | xv6 using on-demand allocation and FIFO swapping/kernel/kalloc.c:68-82 | conservation: the frames that left the free list are as many as the new pages and the new tables of the page table |
| `FrameCount.TooFew` | xv6 using on-demand allocation and FIFO swapping/kernel/vm.c:323-343 | giving up at a page with no frame left for it or for its table means that there were fewer frames than pages and missing tables up to it |
| `FrameCount.JustEnough` | xv6 using on-demand allocation and FIFO swapping/kernel/vm.c:323-338 | mapping a set of pages takes exactly one frame for each page and for each table that was missing |
| `VirtualMemory.Memory.FreeWalk` | xv6 using on-demand allocation and FIFO swapping/kernel/vm.c:278-297 | frees every table at or below the given one exactly once and nothing else |
| `VirtualMemory.Memory.Uvmfree` | xv6 using on-demand allocation and FIFO swapping/kernel/vm.c:301-307 | every table and every page below sz is freed exactly once, other frames are untouched; nothing of the page table stays behind if and only if no page is mapped at or above sz |
| `PageLeak.UvmfreeLeavesPage` | xv6 using on-demand allocation and FIFO swapping/kernel/vm.c:278-307 | a page table whose page 5 survives uvmfree with a size of one page, while all its tables are freed |
| `VirtualMemory.Bystander` | xv6 using on-demand allocation and FIFO swapping/kernel/vm.c:316-343 | whatever happens to one page table leaves the mappings of another as they were |
| `VirtualMemory.Undone` | xv6 using on-demand allocation and FIFO swapping/kernel/vm.c:242-254 | claiming pages, failing and unmapping them again changes nothing but the number of table pages |
| `Malloc.Heap.Malloc` | xv6 using on-demand allocation and FIFO swapping/user/umalloc.c:63-90 | returns a block of the right number of units that overlaps nothing allocated, or NULL only if no free block is large enough; sbrk is asked exactly if no free block fits, once, for max(units, 4096) units, and NULL means it refused |
| `Malloc.Heap.Free` | xv6 using on-demand allocation and FIFO swapping/user/umalloc.c:24-44 | the block leaves the allocated set; the list stays circular, ordered, disjoint and without adjacent neighbours |
| `Malloc.Heap.FindSlot` | xv6 using on-demand allocation and FIFO swapping/user/umalloc.c:29-32 | the search ends at the one place in address order where the block belongs |
| `Malloc.Heap.Morecore` | xv6 using on-demand allocation and FIFO swapping/user/umalloc.c:46-61 | asks sbrk once for max(units, 4096) units; on success they are in the free list and some free block holds the request; on refusal, and only then, it returns NULL and nothing else changed |
| `Malloc.Heap.TakeWhole` | xv6 using on-demand allocation and FIFO swapping/user/umalloc.c:75-84 | an exact fit is unlinked and becomes allocated |
| `Malloc.Heap.TakeTail` | xv6 using on-demand allocation and FIFO swapping/user/umalloc.c:78-84 | the tail of a larger block becomes allocated and its header says so |
| `Malloc.Heap.Round` | xv6 using on-demand allocation and FIFO swapping/user/umalloc.c:74-89 | one round of the search finds a block that fits or shows that none does |
| `Malloc.Heap.Scan` | xv6 using on-demand allocation and FIFO swapping/user/umalloc.c:74-89 | the search succeeds without growth exactly if some free block fits, else after one growth, or sbrk has refused |
| `Malloc.FreeOk` | xv6 using on-demand allocation and FIFO swapping/user/umalloc.c:24-44 | linking in and coalescing on both sides keeps order, disjointness, non-adjacency and the total number of units |
| `Malloc.InsertOk` | xv6 using on-demand allocation and FIFO swapping/user/umalloc.c:33-42 | linking a block in without merging keeps the list and conserves units |
| `Malloc.MergeOk` | xv6 using on-demand allocation and FIFO swapping/user/umalloc.c:33-42 | merging two adjacent blocks keeps the list and conserves units |
| `Malloc.TakeWholeOk` | xv6 using on-demand allocation and FIFO swapping/user/umalloc.c:75-78 | handing a block out moves its units from free to allocated |
| `Malloc.TakeTailOk` | xv6 using on-demand allocation and FIFO swapping/user/umalloc.c:78-83 | splitting moves exactly the requested units from free to allocated |
| `Malloc.NewCoreOk` | xv6 using on-demand allocation and FIFO swapping/user/umalloc.c:46-61 | units obtained from sbrk are added once |
| `Malloc.EveryBlockOnTheRing` | xv6 using on-demand allocation and FIFO swapping/user/umalloc.c:74-89 | following the pointers from any free block reaches every free block |
| `Malloc.RequestReachesSbrk` | xv6 using on-demand allocation and FIFO swapping/user/umalloc.c:46-61 | a request reaches sbrk's int unchanged if and only if it is at most 2^31 - 32 bytes; larger ones are truncated |
| `ExitWait.StepKeepsInv` | xv6 using on-demand allocation and FIFO swapping/kernel/proc.c:287-484 | every step of fork (with its error exit), exit, reparent, wakeup, wait, sleep and kill, in any interleaving, keeps the invariant |
| `ExitWait.ReachableInv` | xv6 using on-demand allocation and FIFO swapping/kernel/proc.c:351-484 | the invariant holds in every state of every run from a machine with init alone |
| `ExitWait.NoLostWakeup` | xv6 using on-demand allocation and FIFO swapping/kernel/proc.c:612-656 | whenever wait_lock is free no process sleeps in kwait while it has a zombie child |
| `ExitWait.ParentsAlive` | xv6 using on-demand allocation and FIFO swapping/kernel/proc.c:365-375 | at every moment every process but init that runs, sleeps or is a zombie has a parent that is alive |
| `ExitWait.ReapedOnce` | xv6 using on-demand allocation and FIFO swapping/kernel/proc.c:457-470 | no pid exits or is reaped twice, and kwait reports the status that kexit was given |
| `ExitWait.ScanFindsChildren` | xv6 using on-demand allocation and FIFO swapping/kernel/proc.c:450-482 | kwait returns -1 for want of children, or goes to sleep, only if that is so |
| `ExitWait.KeepZombie` | xv6 using on-demand allocation and FIFO swapping/kernel/proc.c:425-430 | becoming a zombie under wait_lock, after the parent's wakeup, cannot be missed |
| `ExitWait.WokenSlot` | xv6 using on-demand allocation and FIFO swapping/kernel/proc.c:642-656 | after wakeup has passed a slot nobody is asleep there on the channel |
| `ExitWait.KeepGiveAway` | xv6 using on-demand allocation and FIFO swapping/kernel/proc.c:365-375 | handing a child, possibly a zombie, to init keeps the invariant while init's wakeup is pending |
| `ExitWait.KeepReap` | xv6 using on-demand allocation and FIFO swapping/kernel/proc.c:457-470 | reaping frees the slot and records the pid once |
| `ExitLive.WaitReturns` | xv6 using on-demand allocation and FIFO swapping/kernel/proc.c:448-482 | in every run kwait's scan returns in one of four ways: exactly one zombie child is freed and its pid and the status its kexit was given are reported; copyout failed for a zombie child; there is no child; or the caller is killed and no child is a zombie |
| `ExitLive.StatusCalled` | xv6 using on-demand allocation and FIFO swapping/kernel/proc.c:379-430 | in every run the status an exiting process or zombie carries is the one kexit was called with for it |
| `ExitLive.ZombieReaped` | xv6 using on-demand allocation and FIFO swapping/kernel/proc.c:448-482 | from every reachable state some continuation reaps a given zombie and reports its pid and status, if its parent is running and calls kwait, whoever holds wait_lock or a p->lock at first |
| `ExitLive.FreeLock` | xv6 using on-demand allocation and FIFO swapping/kernel/proc.c:365-484 | whoever holds wait_lock can always go on until it is free, without freeing or starting anybody |
| `ExitLive.ParentChanges` | xv6 using on-demand allocation and FIFO swapping/kernel/proc.c:365-375 | parents change in three ways only: kfork sets the forker, reparent hands a child of the exiting process to init, kwait clears its reaped child's |
| `ExitLive.GoMoves` | xv6 using on-demand allocation and FIFO swapping/kernel/proc.c:287-484 | a process inside kfork, kexit or kwait whose locks are free moves on |
| `Cfs.Weight` | xv6 FCFS AND CFS/xv6_modifications.patch:388-408 | the weight table: positive, and at most 1024 exactly for nice values that are not negative |
| `Cfs.Scheduler.Schedule` | xv6 FCFS AND CFS/xv6_modifications.patch:228-305 | dispatches the first process of least vruntime, and gives every runnable process its slice: 48 ticks times its part of the total weight, rounded down, at least 3 and at most 24; reports whether there was one |
| `Cfs.Scheduler.Runnable` | xv6 FCFS AND CFS/xv6_modifications.patch:230-240 | the first pass: the total weight of the runnable processes, and whether there are any |
| `Cfs.Scheduler.Slices` | xv6 FCFS AND CFS/xv6_modifications.patch:242-255 | the second pass: every runnable process gets its part of 48 ticks by weight, rounded down and kept within 3 and 24; others keep theirs |
| `Cfs.SlicesShareLatency` | xv6 FCFS AND CFS/xv6_modifications.patch:242-255 | after a dispatch every runnable process has its part of 48 ticks by weight, rounded down, within 3 and 24, and the slices above 3 come to at most 48 together |
| `Cfs.WeightSteps` | xv6 FCFS AND CFS/xv6_modifications.patch:388-408 | each nice level changes the weight by a factor between 1.2 and 1.3, and nice 0 weighs 1024 |
| `Cfs.Scheduler.Pick` | xv6 FCFS AND CFS/xv6_modifications.patch:272-287 | the fourth pass: the first runnable process with the least vruntime, if there is one |
| `Cfs.Scheduler.Timer` | xv6 FCFS AND CFS/xv6_modifications.patch:582-592 | charges one tick to the running process and takes the CPU away exactly when the slice is used up |
| `Cfs.Scheduler.AllocProc` | xv6 FCFS AND CFS/xv6_modifications.patch:108-121 | the child's slot gets the least vruntime of the runnable and running processes |
| `Cfs.Scheduler.MakeRunnable` | xv6 using on-demand allocation and FIFO swapping/kernel/proc.c:355-357 | the child becomes runnable, with the vruntime it was given when its slot was allocated |
| `Cfs.Scheduler.Userinit` | xv6 FCFS AND CFS/xv6_modifications.patch:108-121 | the first process starts at vruntime 0 in a fair state |
| `Cfs.StepKeepsFair` | xv6 FCFS AND CFS/xv6_modifications.patch:228-305 | dispatch, tick, allocating a child, nice and exit keep all vruntimes within any bound of at least 24 * 68 |
| `Cfs.StartKeepsFairIff` | xv6 FCFS AND CFS/xv6_modifications.patch:108-121 | a child becoming runnable keeps the bound if and only if nobody is, or can get within the current slice, further ahead of it than the bound |
| `Cfs.GapBounded` | xv6 FCFS AND CFS/xv6_modifications.patch:410-416 | in every run whose children start in time the gap between any two vruntimes stays within the bound |
| `Cfs.PromptForksKeepGap` | xv6 FCFS AND CFS/xv6_modifications.patch:108-121 | children start in time for 24 * 68 if no dispatch comes between their allocation and their start, so such runs keep that gap for ever |
| `Cfs.InterruptedForkUnbounded` | xv6 using on-demand allocation and FIFO swapping/kernel/proc.c:294-357 | otherwise no bound holds: for every n there is a run in which an interrupted fork leaves a gap of n |
| `Cfs.QuietForksKeepGap` | xv6 using on-demand allocation and FIFO swapping/kernel/proc.c:294-357 | if at most n dispatches, and no exits, come between a child's allocation and its start, the gap stays within (n + 1) * 24 * 68 for ever |
| `Cfs.OneDispatchKeepsGap` | xv6 using on-demand allocation and FIFO swapping/kernel/proc.c:294-357 | with at most one dispatch the gap stays within 2 * 24 * 68 whatever exits, because nobody can exit in between |
| `Cfs.ForksAndExitsUnbounded` | xv6 using on-demand allocation and FIFO swapping/kernel/proc.c:294-357 | two dispatches are too many: for every n a run whose forks all take at most two dispatches and which ends with a gap of n, because children run and exit between their parent's slices |
| `Cfs.BoundedWaiting` | xv6 FCFS AND CFS/xv6_modifications.patch:272-305 | with no negative nice value, a present process runs again before the others have had 3264 ticks each |
| `Cfs.SharesProportional` | xv6 FCFS AND CFS/xv6_modifications.patch:410-416 | over any stretch two processes' ticks times their increment differ by at most 3264 |
| `Cfs.VruntimeIsRuntime` | xv6 FCFS AND CFS/xv6_modifications.patch:410-416 | vruntime grows by exactly the ticks run times 1024 / weight |
| `Cfs.StarvesForever` | xv6 FCFS AND CFS/xv6_modifications.patch:410-416 | a process with negative nice value that is ahead is dispatched for ever, since its increment is 0 |
| `Cfs.PromptIff` | xv6 FCFS AND CFS/xv6_modifications.patch:228-305 | among two or more processes waiting is bounded in every run if and only if no nice value is negative |
| `Pipe.PipeBuffer.Write` | xv6 using on-demand allocation and FIFO swapping/kernel/pipe.c:76-103 | appends a prefix of the remaining bytes in order and never overfills; sleeps only on a full pipe with the read end open; readers are left asleep over bytes exactly if they slept and a kill is seen after bytes were added, before the pipe is full or a copy fails |
| `Pipe.PipeBuffer.Read` | xv6 using on-demand allocation and FIFO swapping/kernel/pipe.c:105-130 | delivers the oldest bytes not yet consumed; sleeps only on an empty pipe with the write end open; wakes the writers and leaves no reader asleep that was not |
| `Pipe.PipeBuffer.Close` | xv6 using on-demand allocation and FIFO swapping/kernel/pipe.c:58-74 | wakes those who can now return |
| `Pipe.PipeBuffer.Kill` | xv6 using on-demand allocation and FIFO swapping/kernel/proc.c:661-676 | a killed sleeper wakes up; nobody else changes |
| `Pipe.KilledWriterLosesWakeup` | xv6 using on-demand allocation and FIFO swapping/kernel/pipe.c:83-87 | a reader asleep over a byte, after a writer was killed between two bytes |
| `Pipe.RingIndex` | xv6 using on-demand allocation and FIFO swapping/kernel/pipe.c:88-95 | indexing the ring by the 32-bit counters agrees with the unbounded counts |
| `Pipe.CountersDecide` | xv6 using on-demand allocation and FIFO swapping/kernel/pipe.c:88-113 | equal counters mean empty and a distance of PIPESIZE means full, also after the counters have wrapped |
| `Virtio.Disk.Submit` | xv6 using on-demand allocation and FIFO swapping/kernel/virtio_disk.c:204-281 | allocates a chain of three free descriptors disjoint from all others and posts it, exactly if three are free; else changes nothing that matters |
| `Virtio.Disk.Alloc3` | xv6 using on-demand allocation and FIFO swapping/kernel/virtio_disk.c:199-213 | three distinct free descriptors exactly if there are three, else none is taken |
| `Virtio.RoomIff` | xv6 using on-demand allocation and FIFO swapping/kernel/virtio_disk.c:204-212 | three descriptors are free if and only if at most one request is in flight |
| `Virtio.Disk.FreeChain` | xv6 using on-demand allocation and FIFO swapping/kernel/virtio_disk.c:184-197 | frees exactly the three descriptors of the chain, none of which was free |
| `Virtio.Disk.DeviceTake` | xv6 using on-demand allocation and FIFO swapping/kernel/virtio_disk.c:271-277 | the device reads the posted heads in order, whatever the 16-bit index has wrapped to |
| `Virtio.Disk.DeviceComplete` | xv6 using on-demand allocation and FIFO swapping/kernel/virtio_disk.c:235-269 | following the chain, the device performs exactly the requested transfer |
| `Virtio.Disk.Interrupt` | xv6 using on-demand allocation and FIFO swapping/kernel/virtio_disk.c:294-327 | each used entry is seen once, its status is 0, and exactly its requester's buffer is released |
| `Virtio.Disk.Finish` | xv6 using on-demand allocation and FIFO swapping/kernel/virtio_disk.c:283-291 | a chain is freed only after its own completion was seen; then exactly its descriptors are free |
| `Virtio.RingAppend` | xv6 using on-demand allocation and FIFO swapping/kernel/virtio_disk.c:271-277 | a new ring entry never overwrites one still to be read, also after the index has wrapped |
| `Virtio.LinkOk` | xv6 using on-demand allocation and FIFO swapping/kernel/virtio_disk.c:235-269 | formatting a chain keeps chains disjoint and a descriptor free exactly if it is in none |
| `Virtio.UnlinkOk` | xv6 using on-demand allocation and FIFO swapping/kernel/virtio_disk.c:168-197 | freeing a chain keeps the same |
| `LazyLoad.ScanHeaders` | xv6 using on-demand allocation and FIFO swapping/kernel/exec.c:77-133 | rejects exactly the headers the code rejects; otherwise records offset and length of every page and the bounds of text and data |
| `LazyLoad.RecordPages` | xv6 using on-demand allocation and FIFO swapping/kernel/exec.c:108-128 | each table entry describes the last page of the segment that uses it; other entries are unchanged |
| `LazyLoad.FaultPage` | xv6 using on-demand allocation and FIFO swapping/kernel/lazy.c:166-224 | fails exactly outside all regions; otherwise the page holds the recorded bytes of the file, then zeros |
| `LazyLoad.LazyEqualsEagerIff` | xv6 using on-demand allocation and FIFO swapping/kernel/lazy.c:169-224 | a page of the program faulted in equals the eagerly loaded one if and only if its address lies below the heap start and its file offset is positive, or its bytes are all zero anyway |
| `LazyLoad.LazyEqualsEager` | xv6 using on-demand allocation and FIFO swapping/kernel/lazy.c:169-224 | in particular for a program whose highest segment is data and whose segments do not start at file offset 0 |
| `LazyLoad.NoDataNothingLoaded` | xv6 using on-demand allocation and FIFO swapping/kernel/lazy.c:169-224 | every page of a program without a data segment is faulted in as zeros |
| `LazyLoad.OffsetZeroNotLoaded` | xv6 using on-demand allocation and FIFO swapping/kernel/lazy.c:213-224 | a page whose bytes start the file is faulted in as zeros |
| `LazyLoad.TextAloneExample` | xv6 using on-demand allocation and FIFO swapping/kernel/lazy.c:169-224 | a program of one text page that is not loaded |
| `LazyLoad.OffsetZeroExample` | xv6 using on-demand allocation and FIFO swapping/kernel/lazy.c:213-224 | a program of one data page at file offset 0 that is not loaded |
| `LazyProcess.StartedOk` | xv6 using on-demand allocation and FIFO swapping/kernel/exec.c:145-179 | after kexec only the stack page is mapped, so the process starts as an eager loader's would, whatever its page records say |
| `LazyProcess.ActKeepsOk` | xv6 using on-demand allocation and FIFO swapping/kernel/lazy.c:89-262 | a fault, with or without an eviction, or a store keeps every mapped program page that was neither written nor read back from swap as an eager loader would have left it, even if page records are shared or carry stale addresses |
| `LazyProcess.ForkKeepsOk` | xv6 using on-demand allocation and FIFO swapping/kernel/proc.c:299-331 | so does a fork, for parent and child |
| `LazyProcess.UntouchedPagesEager` | xv6 using on-demand allocation and FIFO swapping/kernel/lazy.c:169-224 | in every run of faults, stores, evictions and forks, in any order, a program page that any process has mapped and neither written nor read back from swap holds exactly the bytes of the file, then zeros |
| `LazyProcess.UnstoredPagesEager` | xv6 using on-demand allocation and FIFO swapping/kernel/lazy.c:89-262 | in every run from kexec, with any faults, stores, evictions and forks, a process that has not stored to a program page has exactly the bytes of the file, then zeros, in it, be it mapped, swapped out or not yet loaded, as long as no eviction takes the page away |
| `LazyProcess.ActKeepsSeenIff` | xv6 using on-demand allocation and FIFO swapping/kernel/lazy.c:89-262 | a fault takes the loaded contents of a program page away if and only if its eviction does (the condition of EvictKeepsIff) and the page does not share the record of the faulting one |
| `LazyProcess.EnoughMemoryEager` | xv6 using on-demand allocation and FIFO swapping/kernel/lazy.c:164-224 | in particular in every run in which no fault has to evict, every page that was never stored to is as an eager loader would have left it, in parent and child |
| `LazyLoss.UnstoredPageLost` | xv6 using on-demand allocation and FIFO swapping/kernel/lazy.c:388-459 | with evictions it is not: a run from kexec, with the oldest page evicted each time, after which a data page that was never stored to is mapped and zero, and the stack page holds its bytes |
| `LazyProcess.FaultShows` | xv6 using on-demand allocation and FIFO swapping/kernel/lazy.c:89-262 | a fault maps exactly what the process had in the page: its swapped contents if its record says so, else what the loader gives; pages with other records, mapped or not, stay as they were |
| `LazyProcess.EvictKeepsIff` | xv6 using on-demand allocation and FIFO swapping/kernel/lazy.c:388-459 | in every process, an eviction leaves what the process has in a page as it was if and only if the page is neither unmapped by it nor a user of the victim's record, or is replaced by the same contents: those of the page whose address the record carries, those of a swap slot, or the loaded ones |
| `LazyLoss.EvictLosesStore` | xv6 using on-demand allocation and FIFO swapping/kernel/lazy.c:407-454 | from kexec, two data pages are loaded and one is stored to; the next fault evicts the stack's record, which carries address 0: the store is lost, and the stack page becomes page 0 |
| `LazyProcess.ChildSeesParentIff` | xv6 using on-demand allocation and FIFO swapping/kernel/proc.c:316-331 | a forked child that touches a program page finds what the parent finds when it touches it, if and only if the page is mapped or its record is not that of a page swapped out with contents other than the file's, since no page record is copied |
| `LazyProcess.ForkSeesIff` | xv6 using on-demand allocation and FIFO swapping/kernel/proc.c:299-331 | the child has exactly the parent's pages mapped below sz, program, heap or stack, with their contents; in any other page it has what the parent has if and only if that is what would be loaded |
| `LazyLoad.CompactApart` | xv6 using on-demand allocation and FIFO swapping/kernel/lazy.c:80-87 | a program of at most 512 contiguous pages without shared pages has no clashes in the page tables |
| `Swap.Pager.AllocSwapSlot` | xv6 using on-demand allocation and FIFO swapping/kernel/lazy.c:264-287 | never returns a live slot, only slots with slot % 64 < 32, and fails exactly when 512 slots are live or the count has reached 1024 |
| `Swap.Pager.FreeSwapSlot` | xv6 using on-demand allocation and FIFO swapping/kernel/lazy.c:289-300 | the slot, and no other, is free again |
| `Swap.Pager.BecomeResident` | xv6 using on-demand allocation and FIFO swapping/kernel/lazy.c:249-259 | the entry gets the next sequence number; others keep theirs |
| `Swap.Pager.SwapIn` | xv6 using on-demand allocation and FIFO swapping/kernel/lazy.c:147-157 | the entry is resident with the next sequence number and its slot is released |
| `Swap.Pager.ExecPage` | xv6 using on-demand allocation and FIFO swapping/kernel/exec.c:108-114 | kexec marks the entry unmapped; a slot it held stays live |
| `Swap.Pager.ExecStack` | xv6 using on-demand allocation and FIFO swapping/kernel/exec.c:173-179 | the first stack page is resident with the next sequence number |
| `Swap.Pager.ChooseVictim` | xv6 using on-demand allocation and FIFO swapping/kernel/lazy.c:391-405 | the resident entry with the least sequence number, which is the one resident longest; -1 exactly if none is resident |
| `Swap.Pager.Evict` | xv6 using on-demand allocation and FIFO swapping/kernel/lazy.c:388-452 | the oldest resident page gets a slot nobody else has, or is dropped if it is clean text; fails exactly if nothing is resident or a slot is needed and 512 are live; records change only on success |
| `Swap.FullIff` | xv6 using on-demand allocation and FIFO swapping/kernel/lazy.c:273-286 | all slots that can ever be handed out are live exactly if 512 slots are |
| `Swap.Arrived` | xv6 using on-demand allocation and FIFO swapping/kernel/lazy.c:249-259 | sequence numbers are positions in the history of arrivals |
| `ShellSyntax.ParsesIff` | xv6 using on-demand allocation and FIFO swapping/user/sh.c:350-452 | the parser accepts a token sequence, with a given tree, if and only if the grammar derives it with that tree: simple commands that mix at most nine words with redirections, groups with redirections behind them, pipelines, background markers and lists; a later redirection stands outside an earlier one |
| `ShellSyntax.LineParsed` | xv6 using on-demand allocation and FIFO swapping/user/sh.c:350-365 | every derivation is parsed to its meaning, before the end of the input or a closing parenthesis |
| `ShellSyntax.LineDerived` | xv6 using on-demand allocation and FIFO swapping/user/sh.c:350-365 | whatever the parser reads as a line has a derivation with that meaning |
| `ShellSyntax.ItemsParsed` | xv6 using on-demand allocation and FIFO swapping/user/sh.c:421-452 | the loop of parseexec reads words and redirections in any mix, at most nine words, and keeps the words in order and the last redirection outermost |
| `ShellSyntax.WrapsAround` | xv6 using on-demand allocation and FIFO swapping/user/sh.c:380-403 | wrapping redirections one by one around a command puts the last one outermost |
| `ShellSyntax.Unambiguous` | xv6 using on-demand allocation and FIFO swapping/user/sh.c:350-452 | no line has two meanings |
| `ShellSyntax.RoundTrip` | xv6 using on-demand allocation and FIFO swapping/user/sh.c:350-452 | every tree with at most nine words to a command is what the parser makes of its parenthesised rendering |
| `ShellSyntax.LineRoundTrip` | xv6 using on-demand allocation and FIFO swapping/user/sh.c:350-365 | the same inside a longer input, up to the closing parenthesis |
| `ShellLexer.LexSpelled` | xv6 using on-demand allocation and FIFO swapping/user/sh.c:271-314 | the tokens of a spelled line are read back, wherever blanks stand, as long as no two tokens run together |
| `Shell.SpelledRoundTrip` | xv6 using on-demand allocation and FIFO swapping/user/sh.c:271-452 | from the characters: parsing any spacing of a tree's rendering gives the tree back |
| `Shell.GetToken` | xv6 using on-demand allocation and FIFO swapping/user/sh.c:271-314 | returns the next token and leaves the following ones |
| `Shell.Peek` | xv6 using on-demand allocation and FIFO swapping/user/sh.c:316-326 | tells whether the next token is one of the given symbols and consumes only blanks |
| `Shell.ReadRedirs` | xv6 using on-demand allocation and FIFO swapping/user/sh.c:380-403 | the redirections at the head of the input, or the error of a missing file |
| `Shell.ReadArgs` | xv6 using on-demand allocation and FIFO swapping/user/sh.c:435-451 | the words and redirections of a command, with the errors of the code |
| `Shell.ReadExec` | xv6 using on-demand allocation and FIFO swapping/user/sh.c:421-452 | a simple command or a block, as the grammar says; terminates on every input |
| `Shell.ReadBlock` | xv6 using on-demand allocation and FIFO swapping/user/sh.c:405-419 | a parenthesised line with its redirections |
| `Shell.ReadPipe` | xv6 using on-demand allocation and FIFO swapping/user/sh.c:367-378 | a pipeline |
| `Shell.ReadLine` | xv6 using on-demand allocation and FIFO swapping/user/sh.c:350-365 | a list of pipelines, with background markers |
| `Shell.ParseCmd` | xv6 using on-demand allocation and FIFO swapping/user/sh.c:333-348 | accepts exactly what the grammar accepts, with its tree; afterwards every word pointed to is, as a C string, exactly its token |
| `Shell.NulTerminate` | xv6 using on-demand allocation and FIFO swapping/user/sh.c:454-499 | writes a NUL after every word and none into a word |
| `Shell.TextSurvives` | xv6 using on-demand allocation and FIFO swapping/user/sh.c:454-499 | with those NULs every word reads as its token |
| `Regex.Match` | xv6 using on-demand allocation and FIFO swapping/user/grep.c:72-82 | true if and only if some substring, anchored by ^ and $ where present, is in the language of the pattern |
| `Regex.MatchHere` | xv6 using on-demand allocation and FIFO swapping/user/grep.c:84-96 | the same for substrings that start here; terminates on every pattern and text |
| `Regex.MatchStar` | xv6 using on-demand allocation and FIFO swapping/user/grep.c:98-106 | the same for a starred item followed by a pattern |
| `Regex.WriteParsed` | xv6 using on-demand allocation and FIFO swapping/user/grep.c:84-96 | every pattern is read as a sequence of items and an end anchor that, written down, is the pattern |
| `Regex.ParseWrittenIff` | xv6 using on-demand allocation and FIFO swapping/user/grep.c:84-96 | items and anchor, written down, are read back if and only if the notation can say them |
| `Regex.ConsHere` | xv6 using on-demand allocation and FIFO swapping/user/grep.c:84-106 | an occurrence is a piece that fits the first item followed by an occurrence of the rest |
| `Grep.Grep` | xv6 using on-demand allocation and FIFO swapping/user/grep.c:11-35 | however read cuts the input, the output is exactly the selected lines, up to the first line that contains NUL, lacks a newline or exceeds 1023 bytes with it |
| `Grep.NoLineLostIff` | xv6 using on-demand allocation and FIFO swapping/user/grep.c:11-35 | no newline-terminated line is lost if and only if each of them is free of NUL and at most 1023 bytes long |
| `Grep.NulHidesLaterLine` | xv6 using on-demand allocation and FIFO swapping/user/grep.c:11-35 | an input whose second line matches and is not printed, because the first holds a NUL |
| `Grep.FilterBuffer` | xv6 using on-demand allocation and FIFO swapping/user/grep.c:21-29 | deals with every complete line in the buffer and stops at the first position from which strchr finds none |
| `Grep.RanAll` | xv6 using on-demand allocation and FIFO swapping/user/grep.c:17-34 | a run of the filter that can go no further has seen all good lines |
| `Grep.Strchr` | xv6 using on-demand allocation and FIFO swapping/user/ulib.c:60-67 | the first occurrence before the terminating NUL, or -1 |
| `Grep.Memmove` | xv6 using on-demand allocation and FIFO swapping/user/ulib.c:112-130 | the bytes end up at the front, also when source and destination overlap |

## Left out

- Malloc.Heap.Malloc: requests must be at most 2^31 - 32 bytes; `RequestReachesSbrk` shows that exactly these reach sbrk unchanged.
- Malloc.Heap.Scan: requests must fit sbrk's int, as for malloc.
- Malloc.Heap.Morecore: requests must fit sbrk's int, as for malloc.
- FileSystem.Fs.Readi: copies to user memory always succeed, so partial transfers after a failing copy are not modelled; the same holds for writei.
- FileSystem.Fs.Writei: the write to the on-disk inode (iupdate) is counted as one logged block, its bytes are not modelled.
- VirtualMemory.Memory.Uvmunmap: freeing is limited to addresses below the trapframe, where pages have frames of their own; the trapframe and trampoline can only be unmapped without freeing, as the callers do.
- VirtualMemory.Memory.FreeWalk: leaf entries must have one of R, W and X set, as Sv39 leaves do; the warning printed for them is not modelled.
- Virtio.Disk.DeviceComplete: the device always succeeds; a failing status, which makes the driver panic, is not modelled.
- Cfs.Scheduler.Schedule: one CPU; a process that has started never sleeps, so the stale vruntime of a process that wakes up is not modelled; vruntime does not wrap.
- Grep.Grep: read either delivers a positive number of bytes or ends the input; write always succeeds.
- Shell.ReadRedirs: redirections are collected in a list and wrapped around the command once its words are known, where the code wraps nodes around a command whose words are still being added.
- LazyLoad.ScanHeaders: segment ends close enough to 2^64 for the page loop to wrap around are treated as unbounded numbers; reading the headers from the file is left out.
- Swap.Pager.BecomeResident: sequence numbers must not have overflowed 31 bits.
- Swap.Pager.SwapIn: sequence numbers must not have overflowed 31 bits.
- Swap.Pager.ExecStack: sequence numbers must not have overflowed 31 bits.
- Swap.Pager.Evict: the records only; a failing creation of the swap file and the unmapping of the page are not modelled there.
- LazyProcess.FaultShows: the swap file keeps what was written to a slot; failing reads and writes of it, and that they happen outside a transaction, are not modelled.
- Buffer cache: the LRU choice of a victim is generalised to any buffer with refcnt 0; a single device.
- Exit and wait: sleeping on other channels, and closing files on exit, happen within one state of the model; RUNNING and RUNNABLE are one state.
- Directories, path names, inode allocation and reference counts, file descriptors and devices.
- Spinlocks, sleep-locks, memory barriers, interrupts, traps and context switches; a critical section is one atomic step, split where it sleeps.
- The MLFQ, FCFS and round-robin schedulers and the read counter: easier than CFS.
- User programs other than sh and grep; running parsed commands.
- Logging, console, boot code, mkfs and the tests.
