# A verified model of an xv6 kernel with lazy growth and priority queues

This project models, in Dafny, the parts of a small Unix-like x86 kernel and of its user programs that are
hardest to get right, and proves what they are meant to guarantee. `dafny verify dfyconfig.toml` checks all of it.

| module | what it is about |
|---|---|
| `Param`, `Blocks` | shared constants and types; words and bits of a disk block |
| `Bio` | the buffer cache: one ring of buffers, pinned until the log has installed them |
| `LogSpec`, `LogProtocol`, `LogRuns`, `Log` | the write-ahead log: crash states as values, group commit under every interleaving, and the code, step for step a run of it |
| `FsSpec`, `FileSteps`, `Fs` | free map, block map and the byte sequences files stand for; the blocks a write logs, call by call |
| `FileCrash` | filewrite on top of the log: what a crash in the middle of a write leaves of a file |
| `WriterSteps`, `Writers` | many processes writing files at once, one log_write at a time, and a crash in the middle |
| `LogLoad`, `FileLoad`, `FileFill` | when the log is large enough for them, and how it overflows |
| `Umalloc` | the user-space allocator: a circular free list in address order |
| `VmSpec`, `Vm` | physical frames and two-level page tables |
| `LazyGrowth` | growing a process without memory, against the eager form |
| `RunQueues`, `Proc` | the process table and its ten run queues |
| `SleepWakeup` | sleep and wakeup, statement by statement, with the sleep lock as client |
| `ShellSpec`, `ShellGrammar`, `Shell` | the shell's parser, as functions and as code, and the language it accepts |
| `Grep` | the regular-expression matcher |
| `Pipe`, `Descriptors` | the pipe ring with wrapping counters; open files and their reference counts |

State that the C code updates in place is a class whose fields are reassigned by its methods; tables of C
structures are fields of type `seq` or `map`, the pipe's ring and the shell's line are arrays, and what a structure
means (a ring, a queue, a list of owners) is kept beside it as ghost state tied to it by `Valid()`. A stretch of code
under one lock is one method. Where the code gives up the lock in the middle, or the machine may crash, the state
machine over its steps is modelled as values and its invariants are proved for every run. Calls into parts not modelled
(whether `kalloc` or `sbrk` finds memory, what the caller holds) are parameters.

## The main results

- **Crash atomicity.** Whatever block write of a commit the machine stops after, and however often recovery is itself
  cut short, a completed recovery shows all of the transaction or none of it (`LogSpec.CommitIsAtomic`), and the code
  of commit and recovery goes through exactly those states (`Log.Log.Commit`, `Log.Log.RecoverFromLog`).
- **Group commit.** In every interleaving of operations, a crash keeps a prefix of the writes that splits no operation
  (`LogProtocol.CrashKeepsWholeOperations`), and the code of begin_op, log_write and end_op takes exactly the steps of
  that protocol (`Log.Log.BeginOp`, `Log.Log.Update`, `Log.Log.EndOp`). The "too big a transaction" panic is out of reach
  if and only if operations log fewer than MAXOPBLOCKS blocks (`LogProtocol.PanicUnreachableIff`).
- **Files are byte sequences.** `Fs.FileSystem.Writei` splices, `Readi` slices, `Itrunc` frees exactly what the file
  owned, no file affects another, and what a write logs is stated exactly. A `filewrite` that runs into the largest size
  stores every chunk that fits and no more.
- **A crash in the middle of writes.** Any number of processes are inside filewrite, their steps in any order, allocating
  from one free map and sharing one log. Wherever the machine stops, the recovered disk, read by its own inodes, is a
  well-formed file system in which the files hold the first so many of the writes made, whole and in their order, and
  nothing of any other (`Writers.WritersSurviveCrash`). The steps are the log_write calls that the code of writei makes
  (`Fs.FileSystem.WriteOne`). For one process, down to the history of the disk under the code of the log, it is
  `FileCrash.CrashDuringWrite`.
- **The log is large enough for file writes.** Over all those interleavings, the panics of the log are out of reach if
  and only if the free map has at most seven blocks (`FileFill.FilewritesFitIff`). The panicking run on the other side is
  five calls of `writei`, each on the file system that the one before leaves. A log longer than LOGSIZE makes no
  difference: the panic "too big a transaction" then gives way to "no buffers", which the commit meets exactly when the
  header has NBUF blocks (`Log.Log.Commit`, `Log.NoBufferIff`).
- **The heap.** After any calls of malloc and free the free list is one circular list in address order with no two
  adjacent blocks, disjoint from the live blocks, and no unit is lost (`Umalloc.Heap`).
- **Memory.** Every frame is free or has one owner; copyuvm gives the child the parent's memory on frames of its own,
  with the kernel's mappings above it, or gives everything back; setupkvm, allocuvm and copyuvm fail exactly when there
  are fewer free frames than they would take; exit and wait free every frame once (`Vm.Machine`).
- **Lazy growth refines eager growth** in every run (`LazyGrowth.LazyRefinesEager`), and the two calls agree exactly
  when the new size is above 0 and below KERNBASE, or nothing is asked for (`LazyGrowth.SbrkAgreesIff`). What becomes of
  an access that faults is settled for every kind of access, page and error code (`LazyGrowth.Process.PageFault`).
- **Run queues.** Every operation, and every step of one that gives the lock back, such as fork
  (`Proc.ProcTable.ForkStep`), keeps the ten queues an exact partition of the RUNNABLE processes; `setNewPrio` does
  if and only if the process is the head of its level or not its tail (`Proc.ProcTable.SetNewPrio`), and
  `Proc.ProcTable.SetprioStep` says exactly when each step of sys_setprio does, which mostly runs without the lock. A
  process with k others ahead is picked by the (k + 1)-st dispatch (`RunQueues.DispatchOrder`).
- **No lost wakeup and no deadlock** on sleep locks, in every interleaving (`SleepWakeup.SleepLockCorrect`), and nobody
  returns from acquiresleep without the lock (`SleepWakeup.HeldBeforeBack`). No lost wakeup between exit and wait
  (`Heard`, part of `Proc.ProcTable.Valid`), and wait returns what the child passed to exit (`Proc.ProcTable.Reap`).
- **The shell** accepts exactly the lines of a declared grammar and gives each the command it stands for, redirections
  anywhere among the words, precedence and blanks included (`ShellGrammar.AcceptedIff`, `Shell.ParseCmd`), and reads back
  what a printer writes (`ShellSpec.RoundTrip`, `ShellSpec.Reparse`).
- **grep** matches exactly the declared language (`Grep.Match`), and every string declares one pattern, the one it is the
  writing of (`Grep.DeclaredText`, `Grep.TextDeclared`).
- **Pipes and descriptors.** Bytes come out in the order they went in through counter wrap-around (`Pipe.Ring`); each
  file's count is the number of descriptors that hold it, error paths included, and a pipe's page is given back once
  (`Descriptors.FileTable`).

## Where the code departs from what it says

- proc.c:120-122 means to make the previous process the new `ultimo`, but stores its `sigprio`, which is null there.
  The model follows the code; `Proc.ProcTable.SetNewPrio`, `Proc.TailExample` and `Proc.SpoilTable` say when that breaks
  the queues.
- log.c:218 refuses a block once the header holds `log.size - 1` blocks, although begin_op has reserved LOGSIZE; see
  `LogProtocol.PanicUnreachableIff`. A longer log would not be enough: param.h:11-12 makes NBUF as large as LOGSIZE, and a
  commit of LOGSIZE blocks has no buffer left to copy with; see `Log.NoBufferIff`.
- sys_setprio does not check the priority (sysproc.c:172-194); `Proc.ProcTable.SysSetprio` says what survives.
- sys_setprio tests the state of the process, reads its level and stores its priority after getProcbyPID has given the
  table lock back (sysproc.c:184-192); `Proc.ProcTable.SetprioStep` says which interleavings that spoils, and
  `Proc.SpoilByStore` and `Proc.WalkOffTheEnd` reach two of them.
- The page-fault case takes every fault below the size for an absent page, unless the user was writing (trap.c:86-97). A
  user load from the page that exec makes inaccessible below the stack therefore panics the kernel with "remap" instead
  of killing the process; `LazyGrowth.Process.PageFault` says exactly when, and `LazyGrowth.GuardLoad` gets there.
- growproc reports failure when a process shrinks to size 0, after freeing its pages (proc.c:285); sys_sbrk does not.
- `getProcbyPID` returns with the table lock held when there is no such process (proc.c:89-91).
- In the shell `>>` opens the file as `>` does (user/sh.c:391-396), so both are the same redirection here.

## Model

| member | source | states |
|---|---|---|
| `Blocks.PutWord` | log.c:102-113 | Storing a 32-bit word of a block little-endian: that word reads back as stored and every other word is untouched. |
| `Blocks.PutBitAt` | fs.c:57-78 | Setting or clearing bit k with a mask changes bit k to the value given and no other bit, for every k and j. |
| `Blocks.PutBlockBit` | fs.c:82-96 | Setting or clearing one bit of a free-map block changes exactly that bit among the 4096. |
| `Bio.UnlinkKeepsRing` | bio.c:121-141 | The two unlinking assignments of brelse leave one ring through the head with exactly the other buffers, in their order. |
| `Bio.PushFrontKeepsRing` | bio.c:121-141 | The four linking assignments of brelse put the buffer first on the ring and keep the rest in order. |
| `Bio.RecycleKeepsView` | bio.c:62-93 | Recycling an unreferenced clean buffer for another block changes nothing that any block is seen to hold. |
| `Bio.SomeRecyclable` | bio.c:62-93 | With fewer than NBUF buffers referenced or pinned there is one on the ring that can be recycled, so "no buffers" is out of reach. |
| `Bio.Cache.constructor` | bio.c:39-56 | binit leaves all NBUF buffers unused on one ring, the last initialised first, and the cache in agreement with the disk. |
| `Bio.Cache.FindCached` | bio.c:62-93 | The forward walk finds the buffer of a block if and only if there is one. |
| `Bio.Cache.FindVictim` | bio.c:62-93 | The backward walk returns the least recently used buffer that is neither referenced nor pinned: all behind it on the ring are. It comes back to the head, for the panic "no buffers", exactly when all NBUF are. |
| `Bio.Cache.Bget` | bio.c:62-93 | Returns the one buffer of the block, or recycles the least recently used clean one, never a pinned one; panics exactly when the block is not cached and all buffers are busy; nothing seen of any block changes. |
| `Bio.Cache.Bread` | bio.c:97-106 | Returns a locked buffer holding what the block is seen to hold (pinned data first, disk otherwise), and leaves every other buffer and the set of pinned blocks alone; the panic of bget, exactly, otherwise. |
| `Bio.Cache.Bwrite` | bio.c:110-116 | Exactly one block of the disk changes, to the buffer's data; the buffer is clean afterwards and the disk history grows by that state. |
| `Bio.Cache.Brelse` | bio.c:121-141 | Drops one reference; at the last one the buffer moves to the front of the ring and the rest keep their order; pins and contents stay. |
| `Bio.Cache.Pin` | log.c:214-233 | The last line of log_write pins the buffer: its block joins the pinned ones and nothing seen changes. |
| `LogSpec.HeaderRoundTrip` | log.c:86-113 | read_head returns exactly the list of blocks that write_head stored, for every list of at most LOGSIZE blocks. |
| `LogSpec.ReinstallAfterPrefix` | log.c:70-82 | Installing the whole log over after any number of its block writes gives the disk a single uninterrupted installation gives. |
| `LogSpec.RecoveryRestarts` | log.c:116-122 | However many block writes of recovery happened before a crash, recovering again ends in the same disk. |
| `LogSpec.RepeatedCrashes` | log.c:116-122 | Any number of crashes, each in the middle of the recovery from the one before, leaves the outcome of a completed recovery unchanged. |
| `LogSpec.CrashBeforeHeader` | log.c:178-202 | A crash before the header write loses the transaction whole: recovery restores the old home blocks. |
| `LogSpec.CrashAtHeader` | log.c:102-113 | From the header write on the log holds the whole transaction: installing it gives the transaction's home blocks. |
| `LogSpec.CommitIsAtomic` | log.c:193-202 | For a crash after any block write of commit, followed by any number of crashes in recovery, a completed recovery leaves every home block old or every home block new; the header write alone decides which. |
| `LogSpec.CommitIsRecovery` | log.c:193-202 | After the header write the states of commit are those of a recovery started at that point. |
| `LogSpec.CommitCompletes` | log.c:193-202 | A finished commit leaves an empty header and the transaction applied at home. |
| `LogSpec.CommitTraceStates` | log.c:193-202 | Every disk in the history of a commit is one of the states the atomicity theorem speaks of, in order. |
| `Log.BusyBound` | log.c:178-190 | Between operations no more buffers are in use than blocks are logged. |
| `Log.NoBufferIff` | bio.c:62-93 | The bread that write_log starts with finds no buffer if and only if the header has as many blocks as the cache has buffers: all of them are pinned then, and none holds a log block. |
| `Log.CommitOutcome` | log.c:193-202 | The commit of the protocol, told with the cache the code copies from: the disk and the disk history it ends with, all logged writes home, and an empty log. |
| `Log.Log.constructor` | log.c:54-66 | initlog leaves the disk a completed recovery gives and starts with an empty log, the first state of the group-commit protocol. |
| `Log.Log.WriteLogBlock` | log.c:178-190 | One turn of write_log copies what the cache holds for the logged block, not what the disk holds, to its place in the log; it panics exactly when the header has NBUF blocks, having changed nothing. |
| `Log.Log.WriteLog` | log.c:178-190 | Writes the copies in order, one disk state each, without changing what is seen outside the log; panics before the first exactly when the header has NBUF blocks. |
| `Log.Log.InstallBlock` | log.c:70-82 | One turn of install_trans copies a log block home and unpins it, whether the home buffer was pinned (commit) or not (recovery). |
| `Log.Log.InstallTrans` | log.c:70-82 | Installs every logged block in order and leaves nothing pinned. |
| `Log.Log.BuildHeader` | log.c:102-113 | The loop of write_head builds the header block of the recorded list. |
| `Log.Log.WriteHead` | log.c:102-113 | One disk write that changes the header block only and encodes the recorded list. |
| `Log.Log.WriteTransaction` | log.c:193-202 | The first half of commit produces, write by write, the commit states up to and including the header write, or panics with nothing written exactly when the header has NBUF blocks. |
| `Log.Log.Commit` | log.c:193-202 | The disk history of commit is exactly the sequence of commit states, and an empty transaction writes nothing; it panics with "no buffers", before any write, exactly when the header has NBUF blocks, for a log of any length. |
| `Log.Log.LoadHeader` | log.c:86-96 | The loop of read_head recovers the list encoded in the block. |
| `Log.Log.RecoverFromLog` | log.c:116-122 | The disk history of recovery is exactly the sequence of recovery states, from whatever disk the machine came up with. |
| `Log.Log.LogWrite` | log.c:214-233 | Panics if and only if the log is at its guard or no operation is outstanding; otherwise records the block once (absorption), pins its buffer and changes nothing seen. |
| `Log.Log.Record` | log.c:214-233 | The scan keeps the place of a block already recorded and appends a new one. |
| `Log.Log.Update` | log.c:204-213 | The prescribed use bread, modify, log_write, brelse is the write step of the protocol: one block of what is seen changes, nothing on the disk does, and the log stays where a legal run has brought it. |
| `Log.Log.BeginOp` | log.c:126-141 | One pass is the begin step of the protocol, taken exactly when the protocol allows it; it keeps the log in step with a legal run and the header with room for all that the outstanding operations may still add. |
| `Log.Log.EndOp` | log.c:146-174 | Is the end step of the protocol and, for the last operation out, the whole commit, block write by block write: all logged writes are home afterwards; any other operation writes nothing. The log stays where a legal run has brought it. The last one out panics exactly when the header has NBUF blocks, and the disk is the one before. |
| `Log.Log.RoomForOperation` | log.c:214-233 | Inside an operation, with operations that log fewer than MAXOPBLOCKS blocks each, the guard of log_write never fires and the write step is allowed. |
| `Log.Log.RoomForCommit` | log.c:146-174 | With operations that log fewer than MAXOPBLOCKS blocks each, the header never has NBUF blocks, so end_op does not panic. |
| `Log.Log.CrashSplitsNothing` | log.c:116-122 | For the code itself: whichever block write since initlog was the last, recovery shows a prefix of the writes made through the log that splits no operation. |
| `LogProtocol.TracksSurvivesCrash` | log.c:116-122 | In any reachable state a crash and recovery show exactly the writes covered by the last written header. |
| `LogProtocol.StepTracks` | log.c:126-202 | Every step, including each block write of a commit, keeps the disk, the cache and the list of writes in step. |
| `LogProtocol.StepWhole` | log.c:126-174 | Every step keeps the writes of an operation in progress uncommitted, so no commit point falls inside an operation. |
| `LogProtocol.StepReserved` | log.c:126-141 | Every step keeps room in the header for all that the outstanding operations were promised. |
| `LogProtocol.Invariants` | log.c:126-233 | All three invariants hold in every state of every interleaving of operations and commit steps. |
| `LogProtocol.CrashKeepsWholeOperations` | log.c:126-202 | In every interleaving, a crash at any point keeps a prefix of the writes, in order, that never splits an operation. |
| `LogProtocol.CommitRunsAlone` | log.c:146-174 | In every interleaving, committing implies no outstanding operation, and the header holds at most LOGSIZE distinct blocks. |
| `LogProtocol.IdleLogIsDurable` | log.c:146-174 | When no operation is outstanding and no commit runs, a crash loses nothing. |
| `LogProtocol.FillUp` | log.c:214-233 | For a log of at least LOGSIZE blocks, a concrete run in which operations of MAXOPBLOCKS blocks each fill the header to any number of blocks up to the guard of log_write. |
| `LogProtocol.PanicUnreachableIff` | log.c:214-233 | With a log as large as mkfs makes it, "too big a transaction" is out of reach if and only if operations log fewer than MAXOPBLOCKS blocks each; at MAXOPBLOCKS the guard stops one short of the reservation. |
| `LogRuns.CommitsAll` | log.c:193-202 | In any legal run, the block writes of a commit can all be taken; they go through the commit states and leave the log empty with every write so far durable. |
| `LogRuns.DiskOfPrefix` | log.c:193-202 | Every disk the machine has written in a run is the disk of one of the prefixes of the run. |
| `LogRuns.CrashBefore` | log.c:116-122 | A machine that stopped any number of block writes ago in a run and recovers shows a prefix of the writes of the run that splits no operation. |
| `FsSpec.AllocKeepsFiles` | fs.c:57-78 | Marking and zeroing a free block changes no file and no block slot, and the block is owned by nobody. |
| `FsSpec.AttachKeepsFiles` | fs.c:374-401 | Putting a fresh block into an empty slot keeps single ownership and the contents of every file. |
| `FsSpec.WriteData` | fs.c:483-512 | Overwriting a data block changes that block of that file and nothing of any other, because no block is owned twice. |
| `FsSpec.InodeRoundTrip` | fs.c:222-237 | An inode stored in its block reads back, and the other seven inodes of the block and its own type and link count are untouched. |
| `Fs.NoHoleAt` | fs.c:454-477 | Every block below the size of a file is allocated. |
| `Fs.UnalignedIsAllocated` | fs.c:483-512 | A write that starts inside a block finds that block allocated. |
| `Fs.ContentsWritten` | fs.c:483-512 | Bytes written block by block and the size set afterwards make the spliced byte sequence. |
| `Fs.LogBudget` | fs.c:483-512 | From the slots a write filled to what its loop logged, for a chunk of 1536 bytes at any offset: at most four data blocks and the indirect block, and at most four blocks of the free map. |
| `Fs.ChunkSize` | file.c:118-156 | One transaction of filewrite logs at most six blocks outside the free map and one for each free-map block up to four, so at most MAXOPBLOCKS. |
| `Fs.Truncated` | fs.c:409-436 | After all slots are freed the free map has lost exactly the owned blocks and every other file is as it was. |
| `Fs.FileSystem.Balloc` | fs.c:57-78 | Returns the lowest free block, marked and zeroed, with exactly two log_write calls, of its free-map block and of itself; fails only when no block is free. |
| `Fs.FileSystem.FillSlot` | fs.c:374-401 | Fills one slot with a fresh block; every other slot, every file's contents and all sizes stay; the log_write calls are steps of the writei it is part of. |
| `Fs.FileSystem.PutSlot` | fs.c:374-401 | The block that balloc gave is entered in the inode or, with a log_write, in the indirect block, and the file gains that block and nothing else. |
| `Fs.FileSystem.Bmap` | fs.c:374-401 | Returns the block of a file block, allocating it and the indirect block if need be; an allocated one changes nothing; fails only past MAXFILE or when the block is missing on a full disk; logs exactly the free-map blocks and blocks of what it allocated. |
| `Fs.FileSystem.Readi` | fs.c:454-477 | Returns exactly the slice of the file asked for, cut at its size; -1 past the end or on wrap-around; changes nothing. |
| `Fs.FileSystem.WriteChunk` | fs.c:483-512 | One turn of the loop writes its bytes into one block of one file; it logs exactly that block and what the allocation took. |
| `Fs.FileSystem.WriteChunks` | fs.c:483-512 | The loop writes exactly [off, off + n) and leaves other files alone; it logs exactly the blocks of that range and what the allocations took; it stops early only on a full disk, with a block of the range missing. |
| `Fs.FileSystem.Writei` | fs.c:483-512 | The file becomes its old contents with [off, off + n) replaced, extended if needed; other files and their inodes stay; a disk that had all inodes as memory has them still does; what is logged is, exactly, the data blocks of the range, what the allocations took and the inode block if the file grew; the calls are a run of the one-call steps that `Writers` interleaves; -1 exactly for a bad offset or size. |
| `Fs.FileSystem.Iupdate` | fs.c:222-237 | Read from the bytes of its inode block, the inode is afterwards what memory has; every other inode on the disk, every file and the free map are as before; one block is logged. |
| `Fs.FileSystem.Bfree` | fs.c:82-96 | Clears exactly one bit; reports the "freeing free block" panic exactly when the bit was clear. |
| `Fs.FileSystem.FreeDirect` | fs.c:409-436 | The first loop of itrunc frees the direct blocks, none of them free already. |
| `Fs.FileSystem.FreeIndirect` | fs.c:409-436 | The second half of itrunc frees the listed blocks and the indirect block, none of them free already. |
| `Fs.FileSystem.Itrunc` | fs.c:409-436 | Empties the file, on the disk as in memory, clears exactly the bits of the blocks it owned, never reaches "freeing free block", and leaves every other file and inode alone. |
| `Fs.FileSystem.WriteOne` | file.c:140-145 | One transaction of filewrite: the calls of log_write lead from the blocks before to the blocks after, name exactly the blocks a chunk may, and none at all when writei refuses; call by call they are the steps that `Writers` interleaves, from the first to the last. |
| `Fs.FileSystem.Filewrite` | file.c:118-156 | Writes all of the data, or -1 and every chunk that ends within MAXFILE blocks, up to the first that does not, at the offset, and moves it past what was written; stops at the panic of balloc exactly when the next chunk has a block missing on a full disk; every transaction takes the file system from one well-formed state to the next, with a whole number of chunks in the file, all other files as they were and the inodes on disk kept up, and logs what a chunk may. |
| `FileCrash.Position` | file.c:118-156 | In every run of the log in which one process makes the calls of filewrite, with commit steps anywhere, the calls made say which operation is open and what has been written. |
| `FileCrash.CommittedChunks` | log.c:116-122 | In every such run, what a crash and recovery show is what some whole number of finished chunks wrote, and all of them when the log is idle. |
| `FileCrash.SameFileSystem` | fs.c:222-237 | Two disks that agree outside the log hold the same files, inodes and free map. |
| `FileCrash.FilewriteSurvivesCrash` | file.c:118-156 | Crash anywhere in filewrite, after any earlier calls, its last chunk refused or cut short by a panic included: the recovered disk, read by its own inodes, is a well-formed file system in which the file has a whole number of chunks and every other file is as it was; no finished chunk is missing if the log was idle. |
| `FileCrash.LogChunk` | file.c:140-145 | begin_op, the writes of one chunk and end_op on an idle log: every call is allowed, the cache shows the writes, and the log is idle again. |
| `FileCrash.WriteFile` | file.c:118-156 | filewrite over the log: the calls are those of its chunks, in order, the empty transaction of a refused one included; as many chunks are stored as fit, and -1 is returned exactly when one does not; in the end the log is idle and the disk shows, outside the log, the file system that filewrite leaves, ready for the next call. |
| `FileCrash.CrashDuringWrite` | file.c:118-156 | For the history of the disk in that call: whichever block write was the last, recovery shows a well-formed file system with a whole number of chunks in the file and all other files as they were. |
| `WriterSteps.StepKeeps` | fs.c:483-512 | One log_write of a writei, on whatever the others have made of the disk since the one before: the file system stays well formed, all other files and what other processes are allocating stay as they were, and the writei stays on course to the write it was asked for. |
| `WriterSteps.OtherKept` | fs.c:483-512 | A writei between two of its calls stays on course through a step of another process on another file. |
| `WriterSteps.FinishedFile` | fs.c:483-512 | However many steps of others came between, when a writei returns the file is its contents at the start with the write spliced in, and the disk has its inode. |
| `WriterSteps.LogBound` | file.c:118-156 | Whatever others allocate meanwhile, a transaction of filewrite has logged at most five blocks outside the free map and four in it before its inode, and one more after. |
| `Writers.StepSound` | file.c:118-156 | Every step of any process and of the log, with any number of processes inside filewrite, keeps the invariant: the file system in the cache is well formed, every writei is on course, and what a committed log holds is the files after the writes that had returned. |
| `Writers.SoundRun` | file.c:118-156 | That invariant holds in every state of every interleaving, from any well-formed file system on a recovered disk. |
| `Writers.WritersSurviveCrash` | file.c:118-156 | Any number of processes inside filewrite, stopped anywhere: the recovered disk, read by its own inodes, is a well-formed file system in which every file is what the first m of the writes that had returned make of it, in the order in which they did, nothing of any other write, and all of them if the log was idle. |
| `LogLoad.LoadedStep` | log.c:126-141 | If each open operation logs at most p blocks outside a set m, every step of the log keeps the header within the blocks outside m that the admission rule of begin_op lets together in, open operations counted in full. |
| `LogLoad.ChargedStep` | log.c:214-233 | Every step keeps an operation from having added more blocks to the header than it has logged. |
| `FileLoad.LightRun` | log.c:126-141 | In every interleaving of filewrites, the header with all that the open operations may still log is at most 22 blocks outside the free map, and at most LOGSIZE in all. |
| `FileLoad.CallAllowed` | log.c:214-233 | In every such state, a log_write that a writei is about to make is a step of the log unless the guard panics. |
| `FileLoad.FilewritesFit` | log.c:214-233 | However many processes write files at once, and however their calls interleave, allocate and share the log: with at most seven blocks of free map no log_write of theirs panics with "too big a transaction" and no commit with "no buffers", in a log of LOGSIZE blocks or more. |
| `FileFill.GuardMet` | log.c:214-233 | Five transactions, each from where the one before left the file system, that log thirty blocks between them have an interleaving in which the log panics: at the guard of log_write with a call still to come, or at the commit, with every buffer pinned. |
| `FileFill.Start` | fs.c:483-512 | A well-formed file system with eight blocks of free map and three files, one of ten blocks and two about to need their indirect blocks, whose inodes are on the disk as they are in memory. |
| `FileFill.Overwrite` | fs.c:483-512 | writei inside such a file logs exactly the blocks it meets and takes none; its calls lead from the file system before to the one after. |
| `FileFill.Append` | fs.c:483-512 | writei of one chunk at the end of such a file takes four free blocks, and logs exactly these, their free-map blocks, the last block of the file and the inode block; its calls lead from the file system before to the one after. |
| `FileFill.FiveWrites` | fs.c:483-512 | Five calls of writei, the first on that file system and each of the others on what the one before leaves, that log thirty blocks between them. |
| `FileFill.FillLog` | log.c:214-233 | A legal run of processes inside filewrite that starts from that file system, recovered and with its inodes on disk, and ends in a panic of the log, in a log of LOGSIZE blocks or more. |
| `FileFill.FilewritesFitIff` | log.c:214-233 | For a log of at least LOGSIZE blocks: the two panics of the log, in log_write and at the commit, are out of reach of processes that write files, from whatever file system they start, if and only if the free map has at most seven blocks; with more, the file system from which they are reached is given. |
| `Umalloc.SearchStep` | user/umalloc.c:25-44 | The tests of the search loop hold at the one place where the block belongs and nowhere else on the ring. |
| `Umalloc.InsertAlone` | user/umalloc.c:25-44 | A block with no free neighbour goes in between and the list stays circular, ordered and unmergeable. |
| `Umalloc.InsertAndMergeUp` | user/umalloc.c:25-44 | A block that ends at the next free one absorbs it. |
| `Umalloc.MergeDown` | user/umalloc.c:25-44 | A block that starts where the previous free one ends is absorbed by it. |
| `Umalloc.MergeBoth` | user/umalloc.c:25-44 | A block that closes a gap joins its two neighbours into one. |
| `Umalloc.TakeWhole` | user/umalloc.c:64-90 | Unlinking a block of the right size keeps the list and makes the block live. |
| `Umalloc.TakeEnd` | user/umalloc.c:64-90 | Cutting the upper end off a larger block keeps the list; the piece is disjoint from every live block. |
| `Umalloc.RoomIff` | user/umalloc.c:64-90 | The rounded number of units has room for the bytes asked for if and only if the rounding does not wrap. |
| `Umalloc.SbrkArgIff` | user/umalloc.c:47-61 | sbrk is asked for the units that are then filed away if and only if their size is a positive int. |
| `Umalloc.Heap.Search` | user/umalloc.c:25-44 | The search loop of free ends within one turn of the ring at the node the block belongs behind. |
| `Umalloc.Heap.Free` | user/umalloc.c:25-44 | The block is no longer live, its units are on the list, and the invariant holds: one circular list in address order, no two adjacent free blocks, live and free blocks disjoint, units conserved. |
| `Umalloc.Heap.Morecore` | user/umalloc.c:47-61 | Adds at least MINUNITS units to the list as one free block, or changes nothing when sbrk fails. |
| `Umalloc.Heap.Take` | user/umalloc.c:64-90 | Hands out exactly the units asked for from a free block, new to the live ones. |
| `Umalloc.Heap.Malloc` | user/umalloc.c:64-90 | 0 exactly when no free block is large enough and sbrk fails; the heap grows exactly when no free block is large enough; otherwise a block new to the live ones; the search ends. |
| `Umalloc.Heap.StartList` | user/umalloc.c:64-90 | The first call makes a list of the empty base block alone. |
| `VmSpec.AddTable` | vm.c:36-55 | A new page table changes no mapping and is owned by its directory entry. |
| `VmSpec.SetPage` | vm.c:61-80 | Mapping a page changes that entry of that directory alone and gives its frame one owner. |
| `VmSpec.ClearPage` | vm.c:256-279 | Unmapping a page changes that entry alone and leaves its frame without a user. |
| `Vm.Machine.constructor` | kalloc.c:47-53 | freerange puts every frame on the free list once. |
| `Vm.Machine.Kalloc` | kalloc.c:83-95 | Takes the first free frame, or returns 0 exactly when there is none; every frame stays free or owned once. |
| `Vm.Machine.Kfree` | kalloc.c:60-77 | The frame joins the front of the free list and has no owner any more. |
| `Vm.Machine.Walk` | vm.c:36-55 | Finds or makes the table of a page without changing any mapping; 0 exactly when there is none and none may or can be made; takes one frame for a new table and none otherwise; the directory entry of a table never forbids what the table allows. |
| `Vm.Machine.MapPage` | vm.c:61-80 | One page is mapped to the frame with its contents and flags and no other mapping changes; fails exactly when the table is missing and no frame is free, changing nothing; takes one frame for a missing table. |
| `Vm.Machine.Deallocuvm` | vm.c:256-279 | Exactly the present pages from PGROUNDUP(newsz) to oldsz are unmapped and freed, jumps over missing tables included; every other address space is untouched. |
| `Vm.Machine.Allocuvm` | vm.c:222-249 | All the pages asked for, zeroed and writable, or none of them; short of KERNBASE it succeeds exactly when there is a free frame for each page and each missing table, and takes exactly these. |
| `Vm.Machine.FreeTables` | vm.c:284-299 | The loop of freevm gives back exactly the tables of the directory. |
| `Vm.Machine.Freevm` | vm.c:284-299 | Exactly the frames of the address space go back to the allocator, each once; the others keep all their mappings. |
| `Vm.Machine.ExitThenWait` | proc.c:383-414 | exit's deallocuvm followed by wait's freevm without deallocation frees exactly what freevm with deallocation frees, each frame once. |
| `Vm.Machine.Setupkvm` | vm.c:119-136 | A new directory with exactly the kernel pages, each on its own frame with its flags, and no user page, or nothing changed; fails exactly when there are fewer free frames than the directory and the tables of the kernel pages need, and takes exactly these. |
| `Vm.Machine.CopyPage` | vm.c:317-346 | One turn of copyuvm that finds a page: a copy of it on a frame of its own in the new space, or nothing changed, exactly when there is no free frame for it or for its missing table. |
| `Vm.Machine.Copyuvm` | vm.c:317-346 | The child shows the parent's bytes and flags for every page below sz, holes included, and no user page beyond; from KERNBASE on it has exactly the kernel's mappings, so the same as a parent that has them; on failure every frame taken is back; fails exactly when there are fewer free frames than the new directory, its kernel tables, the pages present below sz and the tables for these need. |
| `Vm.KernelAgrees` | vm.c:119-136 | Two directories with the kernel mapped agree on every page from KERNBASE on. |
| `Vm.FramesApart` | vm.c:317-346 | No two user pages, of one process or of two, are on the same frame. |
| `Vm.FreedInTwo` | proc.c:383-414 | Unmapping all user pages and then freeing the space without deallocation is freeing the space. |
| `Vm.Undone` | vm.c:222-249 | Deallocating after a partial allocation restores every mapping and page. |
| `LazyGrowth.SbrkAgreesIff` | sysproc.c:58-83 | Lazy sbrk and sbrk by way of growproc return the same and show the same memory if and only if n is 0 or the new size is above 0 and below KERNBASE. |
| `LazyGrowth.SbrkDiffers` | proc.c:275-291 | In every other case the two differ at once: shrinking to 0 makes growproc report failure, reaching KERNBASE makes it fail, and a negative size wraps around. |
| `LazyGrowth.SbrkDiffersExample` | proc.c:275-291 | Two states that agree at which the calls differ: giving back the only page succeeds lazily and fails eagerly. |
| `LazyGrowth.SbrkShows` | sysproc.c:58-83 | Either form of an sbrk that can be granted returns the old size and leaves the size asked for, every page below both sizes as it was and zeros above the old one. |
| `LazyGrowth.TouchAgrees` | trap.c:83-115 | A page fault on a promised page gives the process the page the eager form would have shown, and a fault beyond the size kills it in both forms. |
| `LazyGrowth.LazyRefinesEager` | trap.c:83-115 | In every run of sbrk, loads and stores, every result and every byte loaded under lazy growth is what eager growth gives, shrinking and regrowing inside a page included. |
| `LazyGrowth.RegrownIsZero` | sysproc.c:58-83 | Pages given back by a shrink read as zeros after growing again. |
| `LazyGrowth.StoreThenLoad` | trap.c:83-115 | A byte stored below the size is the byte loaded, page fault or not, and no other byte below the size changes. |
| `LazyGrowth.ResolvedAll` | trap.c:83-115 | For each of the four kinds of access, by the flags of the page and the error code the processor gives: after the fault the access goes through, or the process is to die, or it was a kernel read beyond the size and nothing has changed; nobody dies over an absent page below the size while memory lasts; the new page is zero and all others are as they were; the kernel panics exactly over a page below the size that is there, unless it is the user writing. |
| `LazyGrowth.Process.SysSbrk` | sysproc.c:58-83 | The code of sys_sbrk does to the page tables exactly what the lazy step does to the pages, 32-bit wrap-around included; growing touches no page; other processes see no change. |
| `LazyGrowth.Process.PageFault` | trap.c:83-115 | The page-fault case on the page tables, for every address and error code: killed, page made, nothing, or the panic "remap", each exactly when the fault step says so, but for the process being killed exactly when a page is to be made, its table is missing and one frame is free; and for the code of an access, what `LazyGrowth.ResolvedAll` says of that access, retried. |
| `LazyGrowth.GuardLoad` | trap.c:83-115 | A process with a page like the one exec puts below the stack, a user load from it, and the panic. |
| `LazyGrowth.Process.Growproc` | proc.c:275-291 | growproc does exactly what the eager step does, except that it returns -1 with every page as it was exactly when it grows, short of KERNBASE, and there are fewer free frames than pages and missing tables. |
| `LazyGrowth.Process.Shrink` | proc.c:283-287 | The shrinking half of growproc is the eager step, wrap-around and the reported failure at size 0 included. |
| `RunQueues.Appended` | proc.c:32-51 | The assignments of insertProc append to one of the ten linked queues and leave the others as they were. |
| `RunQueues.Popped` | proc.c:54-73 | The assignments of quitarProc drop the head of one queue and leave the others as they were. |
| `RunQueues.Unlinked` | proc.c:98-129 | The unlinking in the middle of a queue removes exactly that process and keeps the order of the others. |
| `RunQueues.Lowest` | proc.c:446-490 | The lowest-numbered non-empty level: all before it are empty. |
| `RunQueues.PlaceAfter` | proc.c:446-490 | No step moves a waiting process back, and a dispatch that does not pick it moves it forward. |
| `RunQueues.DispatchOrder` | proc.c:446-490 | A process with k others ahead of it at its level is picked by the (k + 1)-st dispatch at the latest, in every run in which it stays queued and no lower-numbered level is non-empty at a dispatch. |
| `Proc.WokenBehind` | proc.c:594-605 | Each level after wakeup1 is what it was, followed by exactly the processes of that level asleep on the channel, in the order of the table. |
| `Proc.WokenIsRun` | proc.c:594-605 | The insertions of wakeup1 are a run of the queues, so the dispatch-order theorem covers them. |
| `Proc.ExitIsRun` | proc.c:346-389 | What exit does to the queues is a run of insertions, so the dispatch-order theorem covers it. |
| `Proc.ExitBehind` | proc.c:346-389 | Each level after an exit is what it was, followed by those waiting for the parent and then, if a zombie child is left and init is not the parent, those waiting for init, each in the order of the table. |
| `Proc.ProcTable.constructor` | proc.c:132-135 | An empty table satisfies the invariant: the ten queues are acyclic, correctly bounded and hold exactly the RUNNABLE processes, each once and at its own priority; pids are unique; nobody sleeps in wait over a zombie child. |
| `Proc.ProcTable.InsertProc` | proc.c:32-51 | Appends to the level's queue when the links are sound; states the exact links when they are not. |
| `Proc.ProcTable.QuitarProc` | proc.c:54-73 | Removes the process if and only if it is the head of the level. |
| `Proc.ProcTable.Pick` | proc.c:446-490 | One scheduler round runs the head of the lowest-numbered non-empty queue, or nothing if and only if all queues are empty; the invariant is kept. |
| `Proc.ProcTable.Yield` | proc.c:520-527 | The running process goes to the end of its level; the invariant is kept. |
| `Proc.ProcTable.Sleep` | proc.c:553-588 | The running process sleeps on the channel and no queue changes. |
| `Proc.ProcTable.Wakeup1` | proc.c:594-605 | Exactly the processes asleep on the channel become runnable, in table order behind those waiting; the invariant is kept. |
| `Proc.ProcTable.Kill` | proc.c:620-639 | Marks the process with the pid and wakes it if it sleeps; -1 exactly when there is none. |
| `Proc.ProcTable.Allocproc` | proc.c:182-227 | Takes the first unused slot with a pid never used before and priority 5, or none if and only if there is none. |
| `Proc.ProcTable.Userinit` | proc.c:234-270 | The first process is runnable at priority 5 at the end of that queue with a fresh pid, and nothing else changes; the invariant is kept. |
| `Proc.ProcTable.Fork` | proc.c:297-340 | With nobody else at the table meanwhile: the child is runnable at its parent's priority at the end of that queue with a fresh pid; every failure path leaves all states and queues as they were. |
| `Proc.ProcTable.ForkStep` | proc.c:297-340 | One step of fork (taking the slot under the lock, filling it in or giving it back without the lock, queueing the child under the lock), on whatever valid table the others have made meanwhile: the table stays valid, and each step changes exactly its slot; the child goes to the end of the level that it has when the lock is held. |
| `Proc.ProcTable.Abandon` | proc.c:346-389 | All children of the process go to init; init is woken, behind those waiting at its level, exactly if one of them is a zombie, and the queues are otherwise as they were. |
| `Proc.ProcTable.Exit` | proc.c:346-389 | The process is a zombie with its status and otherwise as it was, parent and pid included; its parent and, for zombie children, init are awake, queued in that order behind those waiting; its children are init's; the invariant is kept, so no exit goes unnoticed. |
| `Proc.ProcTable.Wait` | proc.c:394-435 | Reaps a zombie child if and only if there is one; otherwise returns -1 if and only if there is no child or the caller is killed, and sleeps in the remaining case. |
| `Proc.ProcTable.Reap` | proc.c:394-434 | Whatever has happened since a child died: a wait by its parent, if it is the first of its dead children, returns its pid and status and frees that slot and nothing else. |
| `Proc.ProcTable.ExitThenReap` | proc.c:346-434 | exit(status) by a child and wait by its parent: wait returns the pid of the child and that status, and the slot is free. |
| `Proc.ProcTable.SetNewPrio` | proc.c:98-129 | For a process that waits at the level read before the lock was taken: moves it to the end of the new level and keeps all other order, and the table stays sound, if and only if the process is the head of its level or not its tail; otherwise the exact damage. For any other process, or level, the code leaves the table through a null process or past its end. |
| `Proc.ProcTable.StorePrio` | sysproc.c:188-192 | The store without the lock: it changes one priority, and the table stays sound if and only if the level exists and the process is not waiting at another. |
| `Proc.LostUnsound` | proc.c:98-129 | No queues make sense of a table whose level lost its last link while another process waits in it. |
| `Proc.MisfiledUnsound` | sysproc.c:188-192 | No queues make sense of a table in which a process waits at one level with the priority of another. |
| `Proc.TailExample` | proc.c:98-129 | A table that satisfies the whole invariant in which setNewPrio meets the failing case: two processes at one level, the second to be moved. |
| `Proc.SpoilTable` | proc.c:98-129 | The code gets there by itself: the first process forks twice, the second child gets another priority, and no ten queues make sense of the links any more. |
| `Proc.SpoilByStore` | sysproc.c:188-192 | A reachable interleaving that spoils the table: the process runs when it is tested, yields, and is then stored to. |
| `Proc.WalkOffTheEnd` | proc.c:98-129 | A reachable interleaving in which setNewPrio walks off its queue: the process is picked after the test and before the lock. |
| `Proc.ProcTable.GetProcByPid` | proc.c:76-95 | Finds the first process with the pid; keeps the lock exactly when there is none. |
| `Proc.ProcTable.SetprioStep` | sysproc.c:172-194 | One step of sys_setprio (test, reading of the level, setNewPrio under its lock, or the store), taken on whatever sound table the others have made meanwhile: the table stays sound if and only if, at the store, the process is not waiting at another level and, under the lock, it still waits at the level read and is not its tail behind the head. |
| `Proc.ProcTable.SysSetprio` | sysproc.c:172-194 | With nobody else at the table meanwhile: changes the priority of the process with the pid and nothing else, and requeues it behind its new level if it was runnable; the invariant survives exactly when the level exists and the process is not a tail behind the head of its level; for a runnable process and a level that does not exist the code writes outside the table; -1, with the lock held, exactly when there is no such process. |
| `SleepWakeup.SpinStep` | proc.c:553-614 | Every step keeps each spin lock held by exactly the process that is at a place where it must hold it. |
| `SleepWakeup.NoneLostStep` | proc.c:553-614 | Every step keeps: nobody is asleep, or falling asleep, on a true condition without a wakeup still to come. |
| `SleepWakeup.NoLostWakeup` | proc.c:553-614 | No lost wakeup in any interleaving, statement by statement, of any number of waiters, wakers and kills. |
| `SleepWakeup.MutualExclusion` | sleeplock.c:23-42 | In every interleaving in which only owners release, at most one process owns the sleep lock and a taken lock has an owner. |
| `SleepWakeup.NeverStuck` | sleeplock.c:23-42 | No deadlock: in such a state, unless every process is idle, one that is not can take its next step. |
| `SleepWakeup.SleepLockCorrect` | sleeplock.c:23-42 | From the start, in every proper run: mutual exclusion, a wakeup coming for every sleeper on a free lock, and no deadlock. |
| `SleepWakeup.PhaseStep` | sleeplock.c:23-42 | A step takes a process from idle to getting the lock, to holding it, to giving it back, to idle, or leaves it in its phase, and moves nobody else. |
| `SleepWakeup.InTurn` | sleeplock.c:23-42 | In every interleaving in which only owners release, a process leaves a phase only for the next one. |
| `SleepWakeup.HeldBeforeBack` | sleeplock.c:23-32 | acquiresleep returns only with the lock: a process that has set out to get it, slept, been woken or killed, and is idle again has been inside. |
| `SleepWakeup.Unhindered` | sleeplock.c:23-42 | A process that is getting the lock or giving it back when all others are idle is done after at most nine steps of its own. |
| `ShellSpec.RoundTrip` | user/sh.c:331-345 | Parsing the fully parenthesised printing of any command with fewer than MAXARGS words per command and proper words gives that command back. |
| `ShellSpec.PrintedLine` | user/sh.c:348-362 | The same inside a longer line, up to a closing parenthesis or the end. |
| `ShellSpec.PrintedBlock` | user/sh.c:403-416 | A printed command in parentheses is read as one block. |
| `ShellSpec.PrintedRedir` | user/sh.c:378-400 | A redirection after a block is read as wrapped around it. |
| `ShellSpec.ArgsOf` | user/sh.c:419-449 | Printed words are read back one by one, with none left over. |
| `ShellSpec.LineWf` | user/sh.c:348-362 | Whatever the parser accepts has fewer than MAXARGS words per command, all non-empty and free of separators. |
| `ShellSpec.Reparse` | user/sh.c:331-345 | For every line the parser accepts, printing the command and parsing it again gives the same command. |
| `ShellGrammar.SimpleParsed` | user/sh.c:419-449 | Words and redirections in any order, with any blanks: the words are the arguments in order, and the redirections, >> as >, are around the command, the first one innermost. |
| `ShellGrammar.UnitParsed` | user/sh.c:403-449 | The same for a block with redirections after it. |
| `ShellGrammar.PipeParsed` | user/sh.c:365-375 | A pipeline of three is its first command piped into the pipeline of the other two, and so on. |
| `ShellGrammar.LineParsed` | user/sh.c:348-362 | A pipe binds tighter than &, which takes the pipeline before it, as often as it is written, and & tighter than ;, whose right side is the whole rest. |
| `ShellGrammar.LineFrom` | user/sh.c:348-362 | Whatever parseline reads is a text of the grammar, and what it returns is what that text stands for. |
| `ShellGrammar.AcceptedIff` | user/sh.c:331-345 | The parser accepts a line and returns a command if and only if the line is, up to blanks at its end, the text of a tree of the grammar that stands for that command. |
| `Shell.GetToken` | user/sh.c:269-311 | Returns the next token of the line as the grammar has it, with its exact extent; a word is a whole maximal word. |
| `Shell.Peek` | user/sh.c:314-323 | Skips blanks and tells whether the next character is one of the given ones. |
| `Shell.ParseRedirs` | user/sh.c:378-400 | The loop collects exactly the redirections of the grammar, or panics exactly when it does. |
| `Shell.ParseExec` | user/sh.c:419-449 | Gives the command of the grammar, words and redirections in order, or panics exactly when it does; what that command is, text by text, is `ShellGrammar.UnitParsed`. |
| `Shell.ParseArgs` | user/sh.c:419-449 | The word loop, with the bound on the number of words. |
| `Shell.ParseBlock` | user/sh.c:403-416 | Gives the block of the grammar, or panics exactly when it does. |
| `Shell.ParsePipe` | user/sh.c:365-375 | Gives the pipeline of the grammar, or panics exactly when it does. |
| `Shell.ParseLine` | user/sh.c:348-362 | Gives the line of the grammar, or panics exactly when it does. |
| `Shell.Nulterminate` | user/sh.c:453-496 | Writes a null character at the end of every word of the command and changes nothing else. |
| `Shell.AllStrings` | user/sh.c:453-496 | After that, every argument and file name is a string equal to its token, because no word contains the end of another. |
| `Shell.ParseCmd` | user/sh.c:331-345 | The strings of the returned command are exactly the command that the grammar gives the line; panics exactly when the line is no text of it. |
| `Shell.ReadsBack` | user/sh.c:331-345 | On the printing of a command the whole parser, null characters included, returns that command. |
| `Shell.ReadsLine` | user/sh.c:331-345 | On any text of the grammar, however it is spaced, the whole parser, null characters included, returns the command that it stands for. |
| `Grep.BeginsFirst` | user/grep.c:85-96 | A text begins with a string of item and rest if and only if a piece the item generates is followed by a text that begins with the rest. |
| `Grep.DeclaredText` | user/grep.c:85-96 | Every row of characters, dots and stars, with or without a final $, that can be written as a pattern is read as that row. |
| `Grep.TextDeclared` | user/grep.c:85-96 | Every string is the writing of exactly one such row: a * stands for itself only where there is nothing to repeat, a $ anywhere but at the end. |
| `Grep.FoundIff` | user/grep.c:73-82 | A pattern is found in a text if and only if the text can be cut in three with a string of the pattern in the middle, nothing before it for ^ and nothing after it for $. |
| `Grep.Match` | user/grep.c:73-82 | Returns 1 if and only if some substring of the text, anchored as ^ and a final $ require, can be cut into one string for each item of the pattern; always ends. |
| `Grep.MatchHere` | user/grep.c:85-96 | Returns 1 if and only if the text begins with a string of the pattern, up to its end for a final $. |
| `Grep.MatchStar` | user/grep.c:99-106 | Returns 1 if and only if the text begins with repetitions of the character followed by a string of the rest. |
| `Pipe.CountersTell` | pipe.c:79-121 | Counters modulo 2^32 tell a full and an empty ring from all others as long as the true counts differ by at most PIPESIZE. |
| `Pipe.Ring.constructor` | pipe.c:23-57 | A new pipe is empty with both ends open. |
| `Pipe.Ring.Write` | pipe.c:79-98 | Stores the bytes in order until done or full; sleeps or fails exactly when full, by whether anyone can still read; bytes read stay a prefix of bytes stored, at most PIPESIZE apart, through counter wrap-around. |
| `Pipe.Ring.StoreByte` | pipe.c:79-98 | One byte goes behind those stored without overwriting an unread one. |
| `Pipe.Ring.Read` | pipe.c:101-121 | Returns the next bytes in the order stored, as many as asked for and there are, and leaves the rest of the buffer alone; sleeps exactly on an empty pipe that can still be written. |
| `Pipe.Ring.Close` | pipe.c:60-75 | Closes one end; the page is given back exactly when the other is closed already. |
| `Descriptors.EndsClose` | pipe.c:60-75 | Closing the last reference to an end keeps each open end one open file and the page in use exactly as long as an end is open. |
| `Descriptors.FileTable.constructor` | file.c:20-23 | With no file open, every count is the number of descriptors that hold the file. |
| `Descriptors.FileTable.FileAlloc` | file.c:27-41 | Takes the first file with count 0, or none if and only if all are in use. |
| `Descriptors.FileTable.FileDup` | file.c:45-53 | One more reference to the file and no other change. |
| `Descriptors.FileTable.FileClose` | file.c:57-80 | One reference less; at the last one of a pipe end that end closes, and the page is given back exactly when the other end is gone. |
| `Descriptors.FileTable.PipeClose` | pipe.c:60-75 | Closes one end and frees the page exactly when the other is closed. |
| `Descriptors.FileTable.FdAlloc` | sysfile.c:41-53 | Puts the file into the lowest free descriptor, or fails exactly when there is none. |
| `Descriptors.FileTable.ArgFd` | sysfile.c:22-36 | The file of a descriptor, or none exactly when it is out of range or unused. |
| `Descriptors.FileTable.SysDup` | sysfile.c:56-67 | The lowest free descriptor names the same file; fails, changing nothing, exactly for a bad descriptor or a full table; counts keep matching and nothing else of any file changes. |
| `Descriptors.FileTable.SysDup2` | sysfile.c:70-100 | The new descriptor names the old one's file and what it held is closed; -1 exactly for a bad argument; counts keep matching and nothing else of a file that stays open changes. |
| `Descriptors.FileTable.SysClose` | sysfile.c:127-137 | The descriptor is free, its file has one reference less; -1 exactly for a bad descriptor; counts keep matching and nothing else of a file that stays open changes. |
| `Descriptors.FileTable.PipeAlloc` | pipe.c:23-57 | Two files for the ends of a new pipe if and only if there are two and a page; otherwise nothing changed. |
| `Descriptors.FileTable.SysPipe` | sysfile.c:457-478 | The two lowest free descriptors for the two ends; when one is missing both files and the page are given back, the page exactly once; succeeds when files, page and descriptors suffice. |
| `Descriptors.FileTable.SysOpen` | sysfile.c:320-367 | A fresh file in the lowest free descriptor; -1, with nothing changed, exactly when there is no file or no descriptor; counts keep matching. |
| `Descriptors.FileTable.ForkFiles` | proc.c:323-325 | The child's descriptors are the parent's and every count has grown with them. |
| `Descriptors.FileTable.ExitFiles` | proc.c:356-361 | All descriptors of the process are free, no others change, counts keep matching, and the pages given back are those of the pipes that are gone, each once. |

## Left out

- The disk driver, the console, the interrupt controllers, the boot code and all assembly: a disk is a sequence of blocks and a block write is atomic, as in memide.c.
- Spin locks and memory ordering: a stretch under a lock is one step, except in `SleepWakeup`, where acquiring and releasing are steps of their own.
- TLB flushes, segment registers, trap frames and the context switch itself.
- Directories, path names, inode allocation, link counts and iput (fs.c:243-361 and fs.c:518-671).
- exec, argument fetching of system calls and copying between user and kernel memory.
- Running a parsed command (user/sh.c:58-131) and grep's reading of lines (user/grep.c:11-36).
- Type, device numbers and link count of an inode, which iupdate writes back unchanged here.
- Bio.Cache.Bget: the buffer of the block is not locked by someone else, since the caller would sleep until it is free.
- Bio.Cache.Bread: likewise.
- Bio.Cache.Brelse: for a buffer that was written or pinned if it was modified, as the comments of bio.c demand.
- Log.Log.BeginOp: one pass of the loop; the waiting in between, and the wakeups that end it, are left to `SleepWakeup`.
- Log.Log.EndOp: the wakeups of those waiting in begin_op; a commit finds no buffer held, only pinned ones.
- Log.Log.constructor: for a disk with a header that names home blocks, each once, as log_write leaves it.
- FileCrash.WriteFile: the calls reach the log chunk by chunk after the file system has computed them, not one by one as they are made; each call and the order are the same, and nobody else is in the log meanwhile.
- Writers.WritersSurviveCrash: all operations in the log are transactions of filewrite; those of the directory calls are not modelled. A process that meets the panic of balloc stops where it is.
- FileLoad.FilewritesFit: likewise; and the panics are those of log_write and of the commit, not that of a bread inside an operation while others hold buffers.
- FileFill.FilewritesFitIff: for a log of at least LOGSIZE blocks in front of the inodes, at least three inode blocks, and metadata that ends 50 blocks short of what one free-map block covers, as mkfs lays it out.
- FileCrash.FilewriteSurvivesCrash: one process writing; `Writers.WritersSurviveCrash` is for any number.
- Fs.FileSystem.Readi: device inodes (fs.c:459-463).
- Fs.FileSystem.Writei: device inodes (fs.c:488-492).
- Fs.FileSystem.Filewrite: for a count that is not negative, and for inode files, not pipes; the empty transaction of a refused chunk is in `FileCrash.WriteFile`.
- Fs.FileSystem.Bmap: None stands for the panic of balloc, after which the kernel does not go on.
- Umalloc.Heap.Malloc: for requests whose sbrk argument is positive as a signed number, or whose rounding wraps around; `Umalloc.SbrkArgIff` says which these are.
- Umalloc.Heap.Free: for blocks that malloc handed out and that are not yet freed, as the C library demands.
- Vm.Machine.Kfree: the junk that fills a freed frame, and the panic for a frame outside the allocator's range.
- Vm.Machine.MapPage: one page at a time, and for a page that is not present; the code panics with "remap" otherwise.
- Vm.Machine.Allocuvm: for pages that are not present yet, which the size of the process guarantees.
- Vm.Machine.Setupkvm: the kernel's mappings are given page by page, each outside the user half and once, instead of as the four ranges of kmap.
- Vm.Machine.Copyuvm: for sizes up to KERNBASE.
- Vm.Machine.Deallocuvm: for sizes up to KERNBASE.
- Vm.Machine.Freevm: without `dodealloc`, for a space whose user pages are gone already, which exit has seen to.
- LazyGrowth.Process.PageFault: for a kalloc that succeeds where there is a page to be made; the code goes on with address 0 otherwise.
- LazyGrowth.LazyRefinesEager: page permissions are not part of it (the guard page below the stack is not told apart), and memory does not run out; the methods of `LazyGrowth.Process` say what happens when it does.
- Proc.ProcTable.Exit: for a process that is not its own parent and is not init; its files are in `Descriptors` and its memory in `Vm`.
- Proc.ProcTable.Userinit: the address space and the trap frame of the first process.
- Proc.ProcTable.SysSetprio: nobody else changes the table during the call; `Proc.ProcTable.SetprioStep` is the call step by step.
- Proc.ProcTable.Allocproc: pids do not wrap around, and the kernel stack and context are not modelled.
- Proc.ProcTable.Wait: one pass of its loop.
- Proc.ProcTable.Sleep: up to the switch; reacquiring the lock afterwards is in `SleepWakeup`.
- Proc.ProcTable.Fork: nobody else changes the table during the call; `Proc.ProcTable.ForkStep` is the call step by step.
- Proc.ProcTable.ForkStep: memory and open files are in `Vm` and `Descriptors`.
- SleepWakeup.NoLostWakeup: one channel and one condition; wakeups on other channels change nothing here.
- Shell.ParseExec: the redirections around a command are collected before the command is built, where the code fills in the words of a node that is already wrapped.
- Shell.ParseCmd: for a line that ends with its only null character, which strlen sees to.
- Pipe.Ring.Write: the wakeups of the other end are in `SleepWakeup`.
- Pipe.Ring.Read: likewise.
- Descriptors.FileTable.FileClose: the iput of an inode file.
- Descriptors.FileTable.SysOpen: the inode and the file offset are not part of the file here, and neither are inode reference counts.
- Descriptors.FileTable.PipeAlloc: the page comes as a parameter, one that no pipe is using.
