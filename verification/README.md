# xv6 in Dafny

Models of the parts of xv6 that are hardest to get right, with proofs about every input, every run or
every reachable state. Each module is a file of the same name (`RedoLog` is in `Log.dfy`, `Process` in
`Proc.dfy`; `Machine` holds the types they share). Code that works in place is a class or a method with loops, proved against a specification;
protocols are step machines over their critical sections, for any number of processes and any run length.

| module | what it models | main results |
|---|---|---|
| `RedoLog` | commit and recovery as single-block disk writes | `CrashAtomicity`, `RunIsSerial` |
| `LogReservation` | `begin_op`, `log_write`, `end_op` | `ReservationSafe`, `LogHoldsIff`, `PanicFreeIff` |
| `Bio` | the buffer cache, its LRU list and the log's pin | `CacheTransparent`, `CacheCoherent`, `RecyclesOldest` |
| `Bitmap`, `Words`, `Files` | bitmap, indirect blocks, file contents, `filewrite` | `Conservation`, `FileSystem.Writei`, `FileSystem.Itrunc`, `ChunkFits`, `ChunkIff` |
| `Links` | directories and link counts | `LinksSafe`, `NamesStep`, `AttachedIff` |
| `Path` | `skipelem` | `ElementsSpelled` |
| `Refs` | inode cache, file table, descriptors and current directories of all processes | `ReferencesSafe`, `BetweenCalls` |
| `Freeing` | `iput`'s free against lookups by other processes | `FreeingIff`, `LinkedLookupsSafe`, `SoundIff` |
| `RefCalls` | the file system calls of one process while the others run | `StepRely`, the methods of `Caller` |
| `Process` | the process table | `LifecycleSafe`, `StacksSafe`, `LockReleased`, `KilledIff`, `StartsKilledIff` |
| `Sleep` | `sleep`, `wakeup`, sleep locks | `NoLostWakeup`, `WakeupsKeptIff`, `SleepLockSafe`, `ExclusionIff` |
| `Ring`, `Pipe`, `Console` | ring buffers across the 2^32 wrap | `PipeSafe`, `StuckReaderIff`, `ConsoleSafe` |
| `Heap` | the user-level allocator of Kernighan and Ritchie, section 8.7 | `Allocator.Free`, `Allocator.Malloc` |
| `Vm` | page tables over the page supply | `Kernel.Deallocuvm`, `Kernel.Allocuvm`, `Kernel.Freevm`, `Kernel.Copyuvm` |
| `Shell` | the shell's parser | `ParseInverts`, `Terminated`, `WordsKept`, `SymbolsKept` |
| `Grep` | the matcher of The Practice of Programming, chapter 9 | `Match` |

Where the code does not do what one would first claim, the claim is proved exactly when it holds:

- `log_write` can panic in an admitted run on mkfs's layout exactly when an operation may add MAXOPBLOCKS
  blocks (`LogReservation.PanicFreeIff`).
- `filewrite`'s chunk limit is the largest for which the count of blocks a chunk may log (data blocks touched,
  bitmap blocks, indirect block, inode) is within MAXOPBLOCKS at every place of every file, once there are five bitmap blocks (`Files.ChunkIff`).
  On a disk with one bitmap block, as mkfs makes them, a chunk logs at most 7 (`Files.ChunkOneMap`).
- `iput` frees an inode as its last holder exactly when no `iget` of that inode comes between its look at `ref`
  and the free (`Freeing.FreeingIff`). Such an `iget` exists: the ".." of an unlinked directory still names its
  unlinked parent (`Links.DotDotRun`), and a process whose current directory that is can look it up at that
  moment (`Freeing.DotDotUnsound`). Frees by the last holder, and locks of allocated inodes only, are there in
  every run exactly when lookups are confined to inodes with links (`Freeing.SoundIff`).
- `namex` succeeds, when nobody else runs, exactly when every element is looked up in a directory and found, and
  with linked inodes and free entries it never stops (`RefCalls.Caller.Namex`); `open`, `chdir`, `mknod`, `link` and
  `unlink` have their exact conditions from it. `link` then hangs exactly when the new name is found to be its own
  directory, as for ".": `dirlink` gives back a reference whose lock it holds (`RefCalls.Caller.Link`).
- Names entered into an unlinked directory break the link counts or the tree, and nothing else does
  (`Links.AttachedIff`, with the run `Links.StrayRun`).
- `copyuvm` loses one frame exactly when the supply ends between a page's frame and its new table
  (`Vm.Kernel.Copyuvm` with `Vm.Leaks`; `Vm.LoseFrame` is a run from boot that loses one).
- Wakeups are never lost, and sleep locks exclude each other, exactly when `sleep` is given a real lock
  (`Sleep.WakeupsKeptIff`, `Sleep.ExclusionIff`).
- A pipe reader is left asleep over data exactly by a killed writer that stores some of its bytes and not all of
  them while another process sleeps for data (`Pipe.StuckReaderIff`, `Pipe.KilledWriterStrandsReader`).
- A new process starts killed exactly when, since its table entry was last allocated, a `kill` found that entry
  free as its first match, or a failed `fork` gave the entry back marked (`Process.StartsKilledIff`). The first
  match is free exactly when a free entry has that pid and no entry in use has (`Process.KillHitsFreeIff`), as
  for `kill(0)` (`Process.KillZeroRun`) and for the pid of a failed `fork` (`Process.StalePidRun`).
- `allocuvm` fails exactly when the supply is smaller than its pages and missing tables (`Vm.Kernel.Allocuvm`
  with `Vm.Spent`), `writei` panics only on a full disk (`Files.FileSystem.Writei`).

Assumptions: one-block disk writes are atomic; memory is sequentially consistent between critical
sections; `panic` stops the machine (results that a panic would give are flagged and claim nothing
further). Clocks, device answers, what a directory lookup finds (`Refs`, `RefCalls`), what the other processes
do meanwhile (`RefCalls`) and what sbrk grants (`Heap`) are arguments.

## Model

| member | source | states |
|---|---|---|
| RedoLog.WriteLoggedAt | log.c:177-190 | copying k blocks into the log changes exactly the first k log slots, to the transaction's data |
| RedoLog.InstalledLog | log.c:69-82 | installing changes no log block and no block outside the list |
| RedoLog.InstalledHome | log.c:69-82 | after installing, each home block holds its log block |
| RedoLog.InstallAgain | log.c:69-82 | installing again after a partial install gives what one install gives |
| RedoLog.PutHeadRead | log.c:101-113 | a header that is written reads back as the same block list |
| RedoLog.RecoveryRestartable | log.c:115-122 | recovery cut short at any write and started again reaches the same home blocks and an empty log |
| RedoLog.ChainRecovers | log.c:115-122 | the same after any number of recoveries cut short |
| RedoLog.BeforeHeader | log.c:192-202 | a crash before the header write recovers to the old home blocks |
| RedoLog.AtHeader | log.c:192-202 | from the header write on, recovery gives exactly the committed update |
| RedoLog.AfterHeader | log.c:192-202 | the same at every write after the header |
| RedoLog.FromCommitted | log.c:115-122 | every state of a recovery that starts from a committed log still recovers to the update |
| RedoLog.CrashAtomicity | log.c:69-122 | for every prefix of commit's writes and every chain of interrupted recoveries, the completed recovery is all-old (before the header write) or all-new (after it) |
| RedoLog.EventEffect | log.c:192-202 | one commit, completed or crashed and recovered, is the whole update or nothing |
| RedoLog.RunIsSerial | log.c:145-202 | after any run of commits, crashes and recoveries each block holds its contents from the last effective transaction |
| RedoLog.TracesAreStates | log.c:177-202 | the crash states considered are exactly the disks after each write commit and recovery issue |
| RedoLog.LogDevice.constructor | log.c:53-66 | a log device with an empty header list over a given disk |
| RedoLog.LogDevice.Bread | bio.c:95-106 | the cached contents of a block if there are any, else the disk's, which then become cached |
| RedoLog.LogDevice.Bwrite | bio.c:108-116 | one disk write, appended to the trace |
| RedoLog.LogDevice.Copy | log.c:72-81 | one block read through the cache and written to another place, one disk write |
| RedoLog.LogDevice.WriteLog | log.c:177-190 | the loop issues the writes of WriteLoggedTrace and ends in WriteLogged |
| RedoLog.LogDevice.WriteHead | log.c:101-113 | one write that makes the on-disk header the in-memory list |
| RedoLog.LogDevice.ReadHead | log.c:85-96 | the in-memory list becomes the on-disk one |
| RedoLog.LogDevice.InstallTrans | log.c:69-82 | the loop issues the writes of InstalledTrace and leaves the cache equal to the disk |
| RedoLog.LogDevice.RecoverFromLog | log.c:115-122 | ends in Recovered with a clean log, through the states of RecoveryTrace |
| RedoLog.LogDevice.Commit | log.c:192-202 | the home blocks are updated by exactly the transaction, through the states of CommitTrace |
| LogReservation.AdmitBound | log.c:125-141 | an operation that begin_op admits fits: blocks logged plus all open reservations stay within the peak |
| LogReservation.StepKeepsInv | log.c:125-233 | every step keeps the reservation invariant, whatever the interleaving |
| LogReservation.RunKeepsInv | log.c:125-233 | the invariant in every state of every run |
| LogReservation.ReservationSafe | log.c:125-233 | in every run the log never exceeds LOGSIZE, logged numbers are distinct, committing implies no operation outstanding, and no log_write meets a commit |
| LogReservation.WriteLogs | log.c:222-230 | a log_write that returns has its block in the list behind what was there, and adds it exactly when it was not there |
| LogReservation.LogHoldsIff | log.c:145-233 | in every run the list holds exactly the blocks written since the last commit |
| LogReservation.CommittingIff | log.c:145-174 | in every run a commit is under way exactly from the end of the last open operation to its own end |
| LogReservation.AdmissionWakes | log.c:125-174 | a sleeping begin_op comes to be admissible only by a step that wakes it |
| LogReservation.NeverPanics | log.c:213-221 | with a budget below MAXOPBLOCKS no reachable log_write panics on mkfs's layout |
| LogReservation.FillLog | mkfs.c:24-26 | with the full budget, a run that fills the log to the panic, built step by step |
| LogReservation.PanicFreeIff | log.c:218-219 | on mkfs's layout a run can panic exactly when the per-operation budget reaches MAXOPBLOCKS |
| LogReservation.LogState.BeginOp | log.c:125-141 | admits exactly when no commit is under way and the blocks logged plus one reservation for each operation and the newcomer fit; else nothing changes; the invariant is kept |
| LogReservation.LogState.LogWrite | log.c:213-233 | panics exactly when the log is full; else the block is in the list afterwards, appended exactly when it was new; the invariant is kept |
| LogReservation.LogState.EndOp | log.c:145-174 | asks for a commit exactly when it was the last operation; the list is kept, and the invariant |
| LogReservation.LogState.FinishCommit | log.c:168-172 | the list is empty and operations are admitted again; the invariant is kept |
| Bio.StepCalls | bio.c:61-141 | no step takes away a buffer that another call uses: a used buffer keeps its block and its lock holder |
| Bio.StepCount | bio.c:71-129 | refcnt is always the number of calls using the buffer |
| Bio.FillLatest | bio.c:95-106 | a buffer that must be read from disk finds the latest contents there |
| Bio.StepBufs | bio.c:61-141 | a valid buffer that its holder has not changed holds the latest logged or written contents |
| Bio.StepDisk | log.c:228-231 | a block whose latest contents are not on disk is in a buffer pinned dirty |
| Bio.StepUnique | bio.c:69-91 | no step gives a block a second buffer |
| Bio.StepList | bio.c:119-141 | the list keeps every buffer once, most recently released first |
| Bio.StepKeepsInv | bio.c:61-141 | all of these, for every step of any call |
| Bio.CacheCoherent | bio.c:61-141 | in every run: one buffer a block, the list a permutation of the buffers, and what bread returned for a block is what was last logged or written there |
| Bio.RecyclesOldest | bio.c:78-91 | a recycled buffer is used by no call, not pinned, up to date on disk, and the least recently released such buffer |
| Bio.PlainStep | bio.c:61-141 | every step of the cache is a step of a disk without one: bread copies, an edit changes the copy, log_write and bwrite put it back |
| Bio.CacheTransparent | bio.c:61-141 | in every run each call has in its buffer what that disk would have given it, and the latest contents of every block are that disk's |
| Bio.StepEffects | bio.c:61-141 | each call goes through bread and brelse in order and moves no other; bwrite leaves the block on disk and unpinned, log_write pins it; the list changes exactly when the last user leaves |
| Bio.Pushed | bio.c:50-54 | the four assignments put a node after the head of the circle |
| Bio.Cut | bio.c:132-133 | the two assignments take a node out of the circle |
| Bio.BufferList.constructor | bio.c:38-56 | binit's circle lists the buffers last to first |
| Bio.BufferList.PushFront | bio.c:134-137 | next and prev link the new order |
| Bio.BufferList.Unlink | bio.c:132-133 | next and prev link the order without the buffer |
| Bio.BufferList.MoveToFront | bio.c:130-138 | the buffer moves to the front, the others keep their order |
| Bio.BufferList.Lookup | bio.c:68-76 | finds a buffer of the block exactly when there is one |
| Bio.BufferList.Victim | bio.c:78-91 | the last free buffer of the list, or none is free |
| Bio.BufferList.Bget | bio.c:61-93 | the choice and the updates are those of the Hit or Miss step |
| Bio.BufferList.Brelse | bio.c:128-140 | the count and the list are those of the Drop step |
| Bitmap.WithBitAt | fs.c:66-68 | setting or clearing one bit changes that block's mark and no other |
| Bitmap.ScanBlock | fs.c:65-74 | the first free bit of one bitmap block |
| Bitmap.FindFree | fs.c:56-78 | across all bitmap blocks, the first free block, or every block is in use |
| Words.WithWordAt | fs.c:390-395 | an address stored in an indirect block reads back, and the other entries are unchanged |
| Files.Conservation | fs.c:56-96 | a block is in use exactly when it is metadata or belongs to an inode (indirect blocks included), and no two slots share a block |
| Files.AttachAddr | fs.c:373-398 | giving a fresh block to a slot changes no other slot of any inode |
| Files.AttachOwned | fs.c:373-398 | and keeps conservation |
| Files.AttachExtends | fs.c:373-398 | and changes no byte of any existing file block |
| Files.PatchOwned | fs.c:499-505 | writing a data block keeps conservation |
| Files.PatchByte | fs.c:499-505 | writing into a block changes exactly the bytes of that range of that file |
| Files.ChunkWrote | fs.c:499-505 | one turn of writei's loop: those bytes become the data, every other byte of every file is kept |
| Files.WroteMore | fs.c:499-505 | successive turns compose |
| Files.WriteDone | fs.c:482-512 | after the size update the file is the old content with the range replaced, other files are unchanged, no file has a hole |
| Files.FreeNext | fs.c:80-96 | the block of the next slot is still marked in use, so "freeing free block" is unreachable, and clearing its bit frees exactly it |
| Files.TruncatedIntact | fs.c:403-436 | truncation frees exactly the inode's blocks, empties its file and keeps every other file |
| Files.RefusedWrap | fs.c:494-497 | the 32-bit checks of writei refuse exactly an offset past the end or an end past the largest file |
| Files.WrapBelow | fs.c:465-466 | the wrap check holds exactly when offset plus count passes 2^32 |
| Files.ReplacedTwice | file.c:135-152 | two adjoining replacements are one |
| Files.CostStep | fs.c:56-78 | the blocks one turn adds to the log: its data block, one bitmap block an allocation, the shared indirect block |
| Files.ChunkFits | file.c:126-146 | a chunk logs at most MAXOPBLOCKS blocks at any offset of any file and with any number of bitmap blocks, because an unaligned first block exists |
| Files.ChunkOneMap | mkfs.c:23 | with one bitmap block a chunk logs at most 7 blocks, at any offset of any file |
| Files.ChunkIff | file.c:126-133 | a write of n bytes stays within MAXOPBLOCKS by this count at every place of every file exactly when n is at most filewrite's limit, once there are five bitmap blocks |
| Files.DataStep | fs.c:56-78 | bitmap blocks apart, one turn adds at most its data block and the shared indirect block, so the bitmap counts once however many blocks are allocated |
| Files.FileSystem.constructor | mkfs.c:93-115 | an empty file system: exactly the metadata blocks are in use and no file has a block |
| Files.FileSystem.Balloc | fs.c:56-78 | the first free block, in use afterwards and zeroed; fails exactly when no block is free |
| Files.FileSystem.BmapDirect | fs.c:379-383 | the direct slot's block, existing or fresh; nothing else changes |
| Files.FileSystem.Indirect | fs.c:387-389 | the indirect block, existing or fresh and empty |
| Files.FileSystem.BmapEntry | fs.c:390-397 | the entry's block, existing or fresh, written into the indirect block |
| Files.FileSystem.BmapIndirect | fs.c:384-397 | bmap past the direct slots: one or two blocks are allocated exactly where they are missing |
| Files.FileSystem.Bmap | fs.c:373-401 | maps a block without touching any other slot; an existing block costs nothing and changes nothing; fails only on a full disk |
| Files.FileSystem.WriteChunk | fs.c:499-505 | bmap, memmove and log_write together write the piece and extend the mapping by at most one block |
| Files.FileSystem.WriteLoop | fs.c:499-505 | the loop writes the whole range; the blocks touched, mapped and allocated and the blocks logged are counted |
| Files.FileSystem.Settle | fs.c:507-510 | the size and the on-disk inode are brought up to date exactly when the file grew |
| Files.FileSystem.Writei | fs.c:482-512 | fails exactly when refused and panics only on a full disk, else replaces exactly the range, keeps every other file, keeps on-disk inodes equal to those in memory, and logs at most the blocks touched, the lesser of the blocks gained and the bitmap blocks, and two more |
| Files.FileSystem.ReadChunk | fs.c:470-475 | one block's share of the content, with no allocation |
| Files.FileSystem.Readi | fs.c:453-477 | the content from the offset on, clamped at the end; never allocates or changes anything; -1 exactly past the end or on wrap |
| Files.FileSystem.WriteOp | file.c:140-145 | one transaction of filewrite: the chunk is written within MAXOPBLOCKS logged blocks, and within 7 on a disk with one bitmap block |
| Files.FileSystem.FileWrite | file.c:117-156 | whole or partial, the file holds exactly the bytes written so far; -1 unless all were written, stopping only at a chunk writei refuses; no transaction exceeds MAXOPBLOCKS, or 7 on a disk with one bitmap block; panics only on a full disk |
| Files.FileSystem.Bfree | fs.c:80-96 | clears the bit of a block in use |
| Files.FileSystem.FreeDirect | fs.c:415-420 | frees and clears the direct slots |
| Files.FileSystem.FreeEntries | fs.c:425-428 | frees every entry of the indirect block |
| Files.FileSystem.Itrunc | fs.c:403-436 | the file becomes empty, exactly its blocks become free, every other file keeps its bytes |
| Links.CreateCounts | sysfile.c:241-284 | create keeps every link count equal to the entries naming the inode |
| Links.LinkCounts | sysfile.c:118-165 | so do the three stages of link, counting links in progress |
| Links.UnlinkCounts | sysfile.c:184-239 | so does unlink, of files and of empty directories |
| Links.EmptyDirCount | sysfile.c:167-181 | a directory isdirempty accepts has link count 1 |
| Links.ParentCount | sysfile.c:221-224 | the parent of a linked directory has at least two links, so removing a directory cannot drop its parent to 0 |
| Links.UnlinkTarget | sysfile.c:205-216 | the panic at nlink < 1 is unreachable; a removed directory is named by this entry only |
| Links.CreateTree | sysfile.c:270-279 | create keeps the directories a tree |
| Links.UnlinkTree | sysfile.c:184-239 | unlink keeps the directories a tree |
| Links.StepKeepsInv | sysfile.c:118-284 | every step keeps counts and tree |
| Links.AttachedIff | sysfile.c:241-284 | a step keeps them exactly when it does not enter a name into an unlinked directory |
| Links.StrayRun | sysfile.c:241-284 | the run mkdir, rmdir, create inside breaks them |
| Links.DotDotRun | sysfile.c:184-239 | after mkdir d, mkdir d/b and the removal of both, the ".." of the unlinked b still names the unlinked d |
| Links.ReachesRoot | sysfile.c:270-275 | from every linked directory a path of ".." of its depth ends at the root |
| Links.LinksSafe | sysfile.c:118-284 | in every run: nlink is the number of entries naming the inode (its own "." apart) plus links in progress, each linked directory but the root has exactly one name, all reach the root, unlink never panics |
| Links.NamesStep | sysfile.c:118-284 | after every step a name leads to an inode exactly when the step gave it that inode, or it led there and the step did not take it |
| Links.KindStep | sysfile.c:264-267 | an inode has the kind asked for at its creation until it is freed |
| Links.Volume.constructor | mkfs.c:117-128 | mkfs's root directory and n inodes meet the invariant |
| Links.Volume.DirLookup | fs.c:525-549 | the first used slot of that name, or none has it |
| Links.Volume.EmptySlot | fs.c:565-570 | the first empty slot, or the end |
| Links.Volume.DirLink | fs.c:552-579 | fails exactly when the name is present, else enters it |
| Links.Volume.IsDirEmpty | sysfile.c:167-181 | every slot after the dots is empty |
| Links.Volume.IAlloc | fs.c:196-215 | the first free inode, or none is free |
| Links.Volume.FillNew | sysfile.c:264-279 | the updates of create are the Create step |
| Links.Volume.CreateNode | sysfile.c:241-284 | in any directory, linked or not: an existing file for T_FILE, -1 for any other existing name, the Create step for a new one, or no inode is free; the invariant is kept exactly when the directory is linked or nothing changed |
| Links.Volume.Link | sysfile.c:118-165 | succeeds exactly for a non-directory with a new name in a found directory, linked or not, of the same device; a failure leaves everything as it was; the invariant is kept exactly when it failed or that directory is linked |
| Links.Volume.Victim | sysfile.c:203-216 | the slot to clear, or no unlink of that name is possible |
| Links.Volume.Remove | sysfile.c:218-228 | the updates of unlink are the Unlink step |
| Links.Volume.Unlink | sysfile.c:184-239 | succeeds exactly when some unlink of the name is possible; a failure changes nothing |
| Path.ElementsSpelled | fs.c:584-619 | whatever the slashes before, between and after, the names found are the words of the path, cut to DIRSIZ |
| Path.EveryPath | fs.c:584-619 | every path spells such words |
| Path.PastSlashes | fs.c:602-603 | the end of the slashes from a position |
| Path.PastElement | fs.c:607-608 | the end of the element, exactly First of the rest |
| Path.SkipElem | fs.c:597-619 | exactly one element is taken off the path, cut to DIRSIZ, with the slashes around it, or none is left |
| Path.Walk | fs.c:635-652 | the loop of namex visits exactly the elements |
| Refs.StepEntries | fs.c:242-361 | every step of every process keeps: ref is the number of references that all processes and open files hold, a loaded entry agrees with the disk, and the lock's owner holds the entry |
| Refs.StepApart | fs.c:242-273 | no step makes a second entry in use for an inode |
| Refs.StepFiles | file.c:26-80 | a file's count is always the descriptors of all processes and the references in hand |
| Refs.StepProcs | fs.c:332-353 | a process keeps the references its place in iput, ialloc or fork needs, whatever the others do |
| Refs.StepKeepsInv | fs.c:242-361 | all four, for every step of every process |
| Refs.ReferencesSafe | fs.c:242-361 | in every interleaving of any number of processes: one entry in use an inode, ref is the sum of the processes' and files' references, a file's count is the sum of the processes' |
| Refs.BetweenCalls | fs.c:242-361 | whenever no process is inside a call: ref is the open files holding the entry plus the processes whose current directory it is, and a file's count is the descriptors of all processes |
| Freeing.LastHolderIff | fs.c:336-340 | a process that frees is the last holder exactly when ref is 1 |
| Freeing.WindowCount | fs.c:338-346 | while iput is between its look and its free no step of another process lowers ref, and only an iget of that inode raises it |
| Freeing.FreeingIff | fs.c:335-347 | in every run, iput frees as the last holder exactly when no iget of the inode came between its look at ref and the free |
| Freeing.StepStale | fs.c:332-353 | with lookups of linked inodes only, an entry whose inode is free on disk has one holder, which is about to drop it |
| Freeing.StepAlone | fs.c:332-353 | and whoever frees or allocates an inode is the only one to hold it |
| Freeing.StepKeepsTidy | fs.c:332-353 | both, for every step |
| Freeing.LinkedLookupsSafe | fs.c:288-353 | in every run whose lookups found linked inodes, the next step frees only as the last holder and locks no free inode |
| Freeing.DotDotUnsound | fs.c:335-347 | a reachable state in which iput frees a directory that another process has just reached by ".." |
| Freeing.SoundIff | fs.c:288-353 | both hold in all runs exactly when lookups are confined to linked inodes |
| RefCalls.StepRely | fs.c:242-361 | no step of another process touches a process's record, the inodes of the entries it holds, the contents of those it has locked, or a file that only it names |
| RefCalls.Caller.constructor | proc.c:130-165 | a first process over empty caches meets the invariant |
| RefCalls.Caller.Scan | fs.c:249-259 | the entry in use for the inode, else the first unused entry |
| RefCalls.Caller.TakeEntry | fs.c:246-272 | under the cache lock, one counted reference to the one entry; panics exactly when none is available |
| RefCalls.Caller.Iget | fs.c:242-273 | the same with other processes running up to the lock; their steps cost the caller nothing |
| RefCalls.Caller.Idup | fs.c:277-284 | one more reference |
| RefCalls.Caller.LockEntry | sleeplock.c:22-32 | the lock and nothing else; if nobody else runs, it waits for ever exactly when somebody has the lock |
| RefCalls.Caller.Ilock | fs.c:288-313 | the entry is locked and loaded, and the caller's other locked entries are unchanged; alone, it stops exactly on a lock that is held or an inode that is free |
| RefCalls.Caller.Iunlock | fs.c:316-323 | lets this lock go and keeps references and inodes |
| RefCalls.Caller.JudgeEntry | fs.c:335-340 | iput's look: decides to free exactly for a loaded entry without links and with ref 1 |
| RefCalls.Caller.FreeInode | fs.c:341-348 | the inode is free on disk, the entry no longer loaded, the lock let go |
| RefCalls.Caller.DropRef | fs.c:350-352 | one reference less |
| RefCalls.Caller.Iput | fs.c:332-353 | exactly one reference less, whatever runs between its three parts; alone, it stops exactly on a lock that is held, and the inode is freed on disk exactly when it is loaded, without links and held once |
| RefCalls.Caller.Iunlockput | fs.c:355-361 | unlocks and gives the reference back |
| RefCalls.Caller.SetNlink | fs.c:221-237 | changes only the link count, in memory and on disk |
| RefCalls.Caller.MarkFree | fs.c:195-210 | marks a free inode; if nothing intervenes it is one that was free at the start, and panics exactly when none is |
| RefCalls.Caller.Ialloc | fs.c:195-215 | one reference to the newly marked inode; alone, to one that was free, and it stops only without a free inode or entry |
| RefCalls.Caller.Namex | fs.c:625-658 | one reference, to the inode the path leads to or to the one before, or none; no other reference or lock is kept; alone, it succeeds exactly when every element is looked up in a directory and what it goes on from is found, and it never stops on linked inodes with two entries unused |
| RefCalls.Caller.Walk | fs.c:635-652 | one element: refused exactly in what is not a directory on disk, or for a name not found |
| RefCalls.Caller.Find | fs.c:625-658 | namex and ilock together: the inode locked and of the kind it has on disk |
| RefCalls.Caller.Create | sysfile.c:241-284 | one locked reference on success, none on failure; alone, it succeeds exactly in a directory that is there for a new name, or for an old file when a file is asked for, and a new inode has the kind asked for and one link |
| RefCalls.Caller.Mknod | sysfile.c:336-370 | mkdir and mknod keep no reference and no lock on any path; alone, they succeed exactly when create does |
| RefCalls.Caller.Meet | fs.c:559-563 | dirlink's test of a name that is there keeps nothing; alone, it hangs exactly when the name is the directory itself |
| RefCalls.Caller.Link | sysfile.c:118-165 | keeps no reference and no lock on any of its paths; alone, it succeeds exactly for a name that leads to something but a directory and a new name in a directory that is there, and on linked paths it hangs exactly when the new name is found to be its own directory |
| RefCalls.Caller.Unlink | sysfile.c:184-239 | keeps no reference and no lock on any of its paths; alone, it succeeds exactly for a name but the dots that is found in a directory and is no directory with entries |
| RefCalls.Caller.Filealloc | file.c:26-41 | an unused file with one reference, or all are in use |
| RefCalls.Caller.Filedup | file.c:44-53 | one more file reference |
| RefCalls.Caller.CloseFile | file.c:60-70 | under the table lock: one file reference less, and the inode of a last close in hand |
| RefCalls.Caller.Fileclose | file.c:56-80 | one file reference less, and the inode reference of a last close given back |
| RefCalls.Caller.FreeFd | sysfile.c:40-53 | the first free descriptor, or none is free |
| RefCalls.Caller.DupFd | sysfile.c:55-67 | a new descriptor for the same file exactly when the old one is open and one is free, else nothing changes |
| RefCalls.Caller.Close | sysfile.c:93-104 | fails exactly for a descriptor not open, else the descriptor is free and no reference is kept |
| RefCalls.Caller.OpenInode | sysfile.c:318-333 | the descriptor's file holds the inode, or the inode and the file are given back; alone, exactly when a file and a descriptor are free |
| RefCalls.Caller.Open | sysfile.c:286-334 | keeps no reference beyond the file's, on every path; the new descriptor was free and its file holds the inode the path leads to or create found; alone, it succeeds exactly when that inode is found or made, is no directory opened for writing, and a file and a descriptor are free |
| RefCalls.Caller.Chdir | sysfile.c:372-395 | the old directory's reference is given back and the current directory is the inode the path leads to, or nothing changes; alone, it succeeds exactly when the path leads to a directory |
| RefCalls.Caller.ForkFiles | proc.c:214-216 | the child gets the parent's descriptors, each counted |
| RefCalls.Caller.Fork | proc.c:188-228 | the child has the parent's descriptors and directory, or nothing is kept; the parent's references are as before |
| RefCalls.Caller.Exit | proc.c:233-254 | every descriptor and the directory are given back and nothing is held; alone, it never stops |
| Process.AllocEntries | proc.c:82-125 | allocproc keeps every entry's invariant |
| Process.ForkEntries | proc.c:188-228 | so does fork |
| Process.ExitEntries | proc.c:233-274 | so does exit with its hand-over of children to init |
| Process.WaitEntries | proc.c:278-319 | so do the steps of wait |
| Process.StepCpus | proc.c:330-403 | a CPU always runs a process whose stack and page directory are allocated |
| Process.StepKeepsInv | proc.c:82-517 | every step keeps the table's invariant |
| Process.EntryStep | proc.c:82-517 | every step moves every entry along its life just so: state, parent, pid, channel and wait's continuation after each step are those of the tables NextState, NextParent, NextPid, NextKont |
| Process.CpuStep | proc.c:330-403 | every step moves only its own CPU, and hands ptable.lock on from process to scheduler to process |
| Process.LifecycleSafe | proc.c:233-403 | whenever the lock is free: every process past fork but init has a live parent, none sleeps in wait over a zombie child, no child is reaped twice, pids of entries in use are distinct |
| Process.StacksSafe | proc.c:278-403 | what wait frees no CPU stands on; what a scheduler dispatches has its stack and page directory and no CPU on it; a running process has them |
| Process.LockReleased | proc.c:330-403 | in every run whoever has ptable.lock can give it up within three steps of its own |
| Process.ReapedOnce | proc.c:286-308 | in every run no pid is reaped twice, and what is reaped was a zombie child of the reaper |
| Process.KilledIff | proc.c:499-517 | in every run an entry is marked killed exactly when some kill found it, in use or not, and it has not been reaped since |
| Process.KillHitsFreeIff | proc.c:499-517 | kill's first match is a free entry exactly when some free entry has the pid and no entry in use has it |
| Process.StainedIff | proc.c:188-206 | in every run a free entry is marked killed exactly when it was marked by a kill that found it free, or given back marked by a failed fork, and not allocated since |
| Process.StartsKilledIff | proc.c:82-101 | in every run a newly allocated process starts killed exactly when its entry was so marked |
| Process.KillZeroRun | proc.c:499-517 | a run: kill(0) marks a free entry and the next process starts killed |
| Process.StalePidRun | proc.c:198-206 | a run: a failed fork leaves its pid, kill of that pid marks the free entry, and the next process, of another pid, starts killed |
| Process.Table.Wakeup1 | proc.c:477-485 | rouses exactly the sleepers on the channel |
| Process.Table.ExitSection | proc.c:257-273 | the loop and the wakeups of exit give Exited |
| Process.Table.WaitScan | proc.c:286-308 | a zombie child exactly when there is one, and whether there are children |
| Process.Table.Kill | proc.c:499-517 | the first entry of that pid is marked, and runnable if it slept; every other entry is unchanged; fails exactly when none has it |
| Process.Table.AllocScan | proc.c:89-95 | the first unused entry, or none |
| Sleep.StepKeepsInv | proc.c:440-494 | with a real lock, every step keeps: who is down while the condition holds is owed a wakeup |
| Sleep.StepEffects | proc.c:440-494 | what each step does to the condition, to ptable.lock and to every process that does not take it: only a wakeup rouses others, and it rouses exactly the sleepers |
| Sleep.DebtRemains | proc.c:440-494 | whoever sleeps while the condition holds is owed a wakeup after every step before the scan |
| Sleep.NoLostWakeup | proc.c:440-494 | for any number of processes, once lk is free and no waker is under way no process sleeps on a condition that holds |
| Sleep.NullLockLosesWakeup | sysproc.c:64-79 | with a null lock a reachable state loses the wakeup |
| Sleep.WakeupsKeptIff | proc.c:456-459 | wakeups are kept in all runs exactly when the lock is real |
| Sleep.StepKeepsLockInv | sleeplock.c:22-42 | with the spinlock held from reading locked to setting it, every step of acquiresleep and releasesleep keeps: at most one process is inside, and locked is set exactly then |
| Sleep.SleepLockSafe | sleeplock.c:22-42 | in every run with a spinlock: at most one holder, locked exactly while held, and nobody sleeps on a free lock once lk is released |
| Sleep.BothInside | sleeplock.c:25-28 | without the spinlock, a run in which two processes read the lock free and both hold it |
| Sleep.ExclusionIff | sleeplock.c:22-42 | sleep locks exclude each other in all runs exactly when there is a spinlock |
| Ring.SameCounter | pipe.c:84-116 | counters that wrap at 2^32 compare, step and subtract as the unbounded ones |
| Ring.FullCounter | pipe.c:85 | nwrite == nread + PIPESIZE, wrapped, holds exactly when the ring is full |
| Ring.Store | pipe.c:93 | storing in a ring that is not full adds one byte and keeps the pending ones |
| Pipe.PipeSafe | pipe.c:78-121 | in every run the bytes read are a prefix of the bytes stored, in order, with at most PIPESIZE pending; and nobody is stuck unless a killed writer stranded a reader |
| Pipe.StuckReaderIff | pipe.c:84-97 | a step leaves a reader asleep over data or a closed pipe exactly when it is a killed writer that stores some of its bytes and not all while another process sleeps for data; writers are never stuck |
| Pipe.KilledWriterStrandsReader | pipe.c:86-89 | a run in which one is, beside a full pipe |
| Pipe.StreamStep | pipe.c:100-121 | a read returns the next stored bytes and nothing else does |
| Pipe.PipeBuf.constructor | pipe.c:22-44 | an empty pipe open at both ends |
| Pipe.PipeBuf.Put | pipe.c:93 | one byte stored across the wrap of the counter |
| Pipe.PipeBuf.Get | pipe.c:113-117 | the oldest byte, across the wrap of the counter |
| Pipe.PipeBuf.PipeWrite | pipe.c:78-98 | stores as many of its bytes as there is room for, in order; finishes exactly when that is all, else fails exactly for a closed end or a killed writer, else sleeps |
| Pipe.PipeBuf.PipeRead | pipe.c:100-121 | returns the next bytes, as many as asked for and there; fails or sleeps exactly on an empty pipe open for writing |
| Pipe.PipeBuf.PipeClose | pipe.c:59-75 | closes that end, wakes those who sleep on it and changes nothing else; freed exactly when both are closed |
| Console.StepSafe | console.c:191-271 | r <= w <= e <= r + INPUT_BUF in every step, no reader left asleep over a committed line, committed bytes only grow |
| Console.EditingKeys | console.c:203-215 | erase and kill change the line being typed and nothing committed |
| Console.KeyTyped | console.c:198-227 | a stored key is the next byte of the text, CR as NL; all text is committed, and the readers woken, exactly by a key that ends the line or fills the ring; erase takes one uncommitted byte, kill all |
| Console.ScanPrefix | console.c:244-266 | a read consumes the next committed bytes and copies exactly them without the ^D, at most n, none after a newline, and goes on to sleep only when all are consumed |
| Console.ScanOver | console.c:244-266 | a read is over exactly with its n bytes, a newline or a ^D, which it consumes exactly when it comes first |
| Console.ConsoleSafe | console.c:191-271 | in every run the bytes read are the committed bytes in order, ends of file apart |
| Console.StreamStep | console.c:235-271 | a read takes the next committed bytes |
| Console.Input.KillLine | console.c:203-209 | empties the line across the wrap of the index |
| Console.Input.Erase | console.c:210-215 | takes the last character of the line |
| Console.Input.Type | console.c:216-226 | stores, and commits at end of line, end of file or a full ring |
| Console.Input.Key | console.c:198-227 | each key does what the abstract step says |
| Console.Input.CopyOut | console.c:244-266 | the bytes of one line, at most n, with the end-of-file rule |
| Console.Input.Read | console.c:235-271 | returns, sleeps or fails as the abstract step says |
| Heap.InsertCorrect | umalloc.c:30-43 | free keeps the list address-ordered with no two blocks adjacent and covers exactly the old units and the new block |
| Heap.TakenCovers | umalloc.c:74-87 | malloc's block and the remaining list cover exactly the units before |
| Heap.StopsOnlyAt | umalloc.c:30-32 | the scan of free stops at the insertion point and nowhere else |
| Heap.AccountFree | umalloc.c:24-44 | free plus live units are the units obtained, live blocks stay apart |
| Heap.AccountTake | umalloc.c:63-90 | so after malloc |
| Heap.AccountGrow | umalloc.c:46-61 | so after sbrk |
| Heap.LinkedInsert | umalloc.c:33-43 | the relinked headers are the circular list of the new order |
| Heap.LinkedTake | umalloc.c:75-87 | so after a block is carved or unlinked |
| Heap.AllPassed | umalloc.c:74-89 | a scan that comes round to freep has seen every block too small |
| Heap.Allocator.FindPlace | umalloc.c:30-32 | terminates at the insertion point |
| Heap.Allocator.Relink | umalloc.c:33-43 | coalesces on both sides exactly where blocks touch |
| Heap.Allocator.Free | umalloc.c:24-44 | the heap invariant is kept, the block is no longer live, a block at least as large is free |
| Heap.Allocator.MoreCore | umalloc.c:46-61 | on a grant the list has a block of the size asked and of at least 4096 units |
| Heap.Allocator.Scan | umalloc.c:74-89 | finds a large enough block within one circuit exactly when there is one |
| Heap.Allocator.TakeBlock | umalloc.c:75-87 | the block is new among the live ones and the invariant is kept |
| Heap.Allocator.Malloc | umalloc.c:63-90 | a block of the fewest units that hold the bytes asked, not live before, or 0 exactly when no block fitted and sbrk refused |
| Heap.Allocator.Start | umalloc.c:70-73 | the one-element list of the first call |
| Vm.TakenInv | kalloc.c:82-95 | taking a frame keeps: every frame is free, in hand or in exactly one place |
| Vm.ReturnedInv | kalloc.c:59-77 | so does giving one back |
| Vm.LookupWithTab | vm.c:44-53 | a fresh table changes no translation |
| Vm.AddTabInv | vm.c:35-55 | installing a table conserves frames |
| Vm.InstallInv | vm.c:60-80 | so does mapping a page |
| Vm.DetachInv | vm.c:269-276 | so does unmapping one |
| Vm.ScanUnmaps | vm.c:264-277 | the page-by-page scan unmaps exactly the range and frees exactly its frames |
| Vm.SkipTable | vm.c:267-268 | over an absent table the scan may jump to any point of its range |
| Vm.GrownUndone | vm.c:234-239 | unmapping what was just mapped restores every translation and every user frame |
| Vm.GrownUndoneHand | vm.c:241-246 | so with a frame that could not be mapped, given back last |
| Vm.FreeTabNext | vm.c:291-296 | the next table is still allocated, so it is freed once |
| Vm.ReleasedAll | vm.c:283-298 | freevm puts the directory, its tables and its user frames on the free list once each and moves nothing else |
| Vm.NoLeak | vm.c:332-336 | enough frames, or running out at a page's own frame, loses none |
| Vm.LeakFirstPage | vm.c:335-336 | the condition for the loss of a frame holds with one page and one frame too few |
| Vm.LoseFrame | vm.c:315-343 | a run from boot at whose end copyuvm has failed and one frame is neither free nor in any address space |
| Vm.CopyFresh | vm.c:315-338 | the copy's frames were free before and are pairwise distinct |
| Vm.Kernel.constructor | kalloc.c:31-53 | freerange puts every frame on the free list |
| Vm.Kernel.Kalloc | kalloc.c:82-95 | the head of the free list, or it is empty |
| Vm.Kernel.Kfree | kalloc.c:59-77 | the frame is filled with junk and first on the list |
| Vm.Kernel.Walk | vm.c:35-55 | fails exactly without table and frame; no translation changes |
| Vm.Kernel.MapNew | vm.c:234-242 | the page is mapped to a frame that was free with the given contents, or the outcome says what was missing |
| Vm.Kernel.ClearPage | vm.c:269-276 | one page of the scan |
| Vm.Kernel.Deallocuvm | vm.c:255-279 | the skipping loop leaves exactly the state of the page-by-page scan, free list included |
| Vm.SpentMonotone | vm.c:232-247 | growing further never takes fewer frames |
| Vm.BudgetStep | vm.c:232-247 | after each page the frames taken and the tables present are those counted |
| Vm.Kernel.Undo | vm.c:234-246 | both failure paths of allocuvm restore the mapping and the user frames |
| Vm.Kernel.Allocuvm | vm.c:221-249 | succeeds exactly when the supply covers the pages and the missing tables; then the pages are zeroed, writable and on free frames, else every translation and user frame is as before |
| Vm.Kernel.Freevm | vm.c:283-298 | the space is gone and exactly its frames are free |
| Vm.Kernel.MapKernel | vm.c:60-80 | the page translates to exactly the frame and flags given, every other page as before; fails exactly without table and frame |
| Vm.Kernel.Setupkvm | vm.c:117-136 | succeeds exactly with enough frames, and then every page of kmap translates as kmap says and no other page at all; a failure gives every frame back |
| Vm.Kernel.Copyuvm | vm.c:315-343 | succeeds exactly with enough frames, then every page has the same flags and contents on a fresh frame and the kernel part is kmap's; a failure restores the spaces and loses a frame exactly when Leaks |
| Shell.TokenWord | sh.c:386-390 | a word token is a maximal run of characters that are neither space nor symbol |
| Shell.ArrowPoints | sh.c:376-385 | a redirection found anywhere is out exactly when its arrow is > or >>, and its file is the word behind the arrow and spaces |
| Shell.ArgsWords | sh.c:520-536 | every word parseexec records is such a run, and there are fewer than MAXARGS |
| Shell.LineWordsOnly | sh.c:435-537 | so everywhere in the tree of any line that parses, and every redirection points as its arrow does |
| Shell.SymbolsKept | sh.c:418-537 | for every line that parses, each pipe sign, ; and & and each < is one node of the tree, and parentheses are balanced |
| Shell.WordsKept | sh.c:418-537 | for every line that parses, every word character is in a word of the tree |
| Shell.CutKeepsWords | sh.c:540-584 | no NUL of nulterminate lands inside a word |
| Shell.CutEnds | sh.c:540-584 | every word of the tree ends in a NUL |
| Shell.Terminated | sh.c:418-433 | for every line that parses, the string at each argv and file position reads as exactly the word scanned there |
| Shell.ExecBack | sh.c:506-537 | parseexec inverts the printer on commands, redirections and parentheses |
| Shell.BlockBack | sh.c:490-504 | parseblock on a parenthesised tree |
| Shell.PipeBack | sh.c:452-463 | parsepipe inverts the printer |
| Shell.AmpBack | sh.c:440-444 | the & loop inverts the printer |
| Shell.LineBack | sh.c:435-450 | parseline inverts the printer |
| Shell.ParseInverts | sh.c:418-537 | parsecmd on the canonical text of any command tree gives that tree back |
| Shell.Parser.Gettoken | sh.c:356-399 | the loops give the token of GetToken and move the cursor past it |
| Shell.Parser.Peek | sh.c:401-411 | moves over spaces only |
| Shell.Parser.Redirections | sh.c:465-488 | the loop gives ParseRedirs |
| Shell.Parser.Arguments | sh.c:520-536 | the loop gives ParseArgs |
| Shell.Parser.Command | sh.c:506-537 | the method terminates and gives ParseExec |
| Shell.Parser.Block | sh.c:490-504 | and gives ParseBlock |
| Shell.Parser.Pipeline | sh.c:452-463 | and gives ParsePipe |
| Shell.Parser.Line | sh.c:435-450 | and gives ParseLine |
| Shell.Parser.Parse | sh.c:418-430 | accepts exactly the lines ParseCmd accepts |
| Shell.Nulterminate | sh.c:540-584 | the in-place recursion leaves the buffer of Cut |
| Shell.ParseAndCut | sh.c:418-433 | parsing and cutting a line: every string of the tree reads as its word in the final buffer |
| Grep.DenotesCons | grep.c:85-96 | the meaning of an item and a rest is a split of the text |
| Grep.StarStep | grep.c:99-106 | a star matches nothing or one more character |
| Grep.HereOne | grep.c:85-96 | the step of matchhere on one character |
| Grep.HereStar | grep.c:99-106 | the step of matchstar |
| Grep.MeansHere | grep.c:73-82 | the pattern occurs somewhere exactly when it matches at some suffix, or at the start if anchored |
| Grep.MatchHere | grep.c:84-96 | true exactly when some prefix of the text is in the meaning of the pattern |
| Grep.MatchStar | grep.c:98-106 | true exactly for any repetition followed by the rest |
| Grep.Match | grep.c:72-82 | true exactly when some part of the text is in the meaning of the whole pattern, anchors included |

## Left out

- Devices, port I/O, assembly and boot code: the disk is a sequence of blocks with atomic one-block writes.
- Weak memory ordering: steps are critical sections, sequentially consistent.
- Spin locks (`acquire`, `pushcli`, `popcli`): taken as atomic sections; their nesting count would add only easy members.
- `exec`, `trap`, system call argument fetching, printing, the user programs other than `sh`'s parser and `grep`'s matcher, mkfs's host I/O: plumbing.
- `growproc`: not modelled; `allocuvm` and `deallocuvm` are.
- Device inodes in `readi` and `writei`.
- Bitmap.FindFree: a bitmap block is a sequence of bits; the packing of 8 bits in a byte is not modelled.
- Files.FileSystem.Balloc: running out of blocks is a result that stops the call, as the kernel's panic does.
- Files.FileSystem.FileWrite: one call at a time, and a file system without holes to start from; mkfs can leave a hole in the root directory.
- Links.StepKeepsInv: nlink is unbounded, its 16-bit overflow is not modelled; names are the at most DIRSIZ characters stored.
- Links.LinksSafe: runs that enter names into unlinked directories are excluded; AttachedIff says what they break.
- LogReservation.LogState.LogWrite: one atomic step, although the source looks at the bound before it takes the lock.
- Bio.CacheCoherent: callers log or write what they change before they release it, as every caller in the source does; a crash is the matter of RedoLog.
- RefCalls.Caller.Walk: what a lookup finds is an argument, any inode number; which of them carry links is the matter of Links and Freeing.
- RefCalls.Caller.Fork: the choice of the child's table entry and whether its memory could be copied are arguments; they are the matter of Process and Vm.
- RefCalls.Caller.Exit: the process record is free afterwards; the zombie that keeps it until wait is in Process.
- RefCalls.Caller.Namex: the exact conditions are for calls during which nobody else runs; with others running only where references and locks end up is stated.
- `sys_pipe` and `exec`, which hold file and inode references too, are not among the calls of RefCalls.
- Process.LifecycleSafe: memory sizes, open files and the trap frame of a process are not modelled.
- Sleep.NoLostWakeup: no fairness or progress is claimed.
- Heap.Allocator.Malloc: requests whose units, in bytes, do not fit a positive int are excluded; there morecore's product wraps or sbrk is asked to shrink.
- Vm.Kernel.Setupkvm: kmap is given as the list of its pages; `inituvm`, `loaduvm`, `clearpteu` and `copyout` are not modelled.
- Shell.ParseInverts: the printer puts one space between words and none elsewhere; other spacings are covered by Terminated but not by the inverse.
- Path.Walk: `nameiparent`'s early stop is in RefCalls.
