# Verified models of an operating-systems course repository

The repository holds several copies of the xv6 kernel, each changed for one project, and two run-length compressors.
This project models their hardest parts in Dafny and proves what they promise: what every step of a protocol keeps, what
holds over whole runs, and which functions loops over mutable state compute. Where the code does not keep a promise, the
project gives the exact condition under which it does, and an input for which it does not.

| Modules | Source | Subject |
|---|---|---|
| Blocks, RedoLog, Log, Transactions | log.c | Write-ahead log with group commit, crashes anywhere, recovery |
| BufferCache | bio.c, memide.c | Block cache over a disk that keeps the history of its contents |
| Bitmap, BlockMap, Dinode, FileBytes, Files | fs.c | Free map, inodes, block maps, reads, writes and truncation of files |
| OpenFile, DurableFiles | file.c | Reads and writes through an open file, and what a crash leaves of a write |
| LinkTree, Links, Inodes | sysfile.c, fs.c | Directories, link counts and the inode cache |
| Heap | umalloc.c | Storage allocator with a circular free list in raw memory |
| SleepLock | sleeplock.c, proc.c | Sleep locks as an interleaving of single lines |
| Ptable, PtableLoops | proc.c, exec.c | Processes and threads: fork, clone, exec, exit, wait, join, kill |
| Vm | vm.c, kalloc.c, proc.c | Two-level page tables over a free list of frames |
| Pipe, PipeUsers | pipe.c | The ring of a pipe, and its readers and writers |
| Regex | grep.c | The regular expression matcher |
| Shell, CommandTrees | sh.c | The command parser, and what its trees say |
| Rle, Pzip, MyZip | pzip.c, my-zip.c, my-unzip.c | Run-length encoding, in parallel and from file to file |

State that the source changes in place is a class here, its loops are methods, and each method is proved against a
function or relation on values; the lemmas about runs speak of those. A panic is an outcome after which nothing is
promised. Time, the choice of the scheduler, the moment of a crash, what sbrk returns and the order in which threads
take turns are parameters, so that every theorem holds for all of them.

## Model

| member | source | states |
|---|---|---|
| RedoLog.CrashAtomicity | project-1b-xv6-warmup-SongWanglin/log.c:69-202 | A commit cut off after any number of its disk writes, then recovered through any number of interrupted recoveries and a complete one, leaves every home block old if the header had not reached the disk, and every block of the transaction new otherwise; the log is then empty |
| RedoLog.RecoverKeepsLogical | project-1b-xv6-warmup-SongWanglin/log.c:69-122 | Recovery may be interrupted any number of times, each time after any of its writes: what the disk reads as through its log never changes, and at the end the header is empty |
| RedoLog.CommitCrashSafe | project-1b-xv6-warmup-SongWanglin/log.c:69-202 | The same for the states a disk really went through: every one of them since the commit began recovers to all old or all new, by whether the header write is before it |
| Log.Log.Commit | project-1b-xv6-warmup-SongWanglin/log.c:192-202 | Whatever happens to the buffers, the writes made are a prefix of log writes, header, installs, header; every state of the disk on the way recovers to the old blocks or to the new ones; on success the log is empty and no buffer stays pinned |
| Log.Log.Recover | project-1b-xv6-warmup-SongWanglin/log.c:115-122 | Installs what the header on disk names and clears it; every state of the disk on the way still recovers to the same contents |
| Log.Log.EndOp | project-1b-xv6-warmup-SongWanglin/log.c:145-174 | The last operation to end commits, with the crash safety of Commit; any other only leaves, and no commit runs while an operation is open |
| Log.Log.BeginOp | project-1b-xv6-warmup-SongWanglin/log.c:125-142 | Admits the operation exactly if no commit runs and the log has room for whatever the open operations and the new one append, each up to MAXOPBLOCKS blocks |
| Log.Log.LogWrite | project-1b-xv6-warmup-SongWanglin/log.c:213-233 | Absorbs a block logged before or appends it, and pins its buffer; panics exactly when the log is full, even for a block it would absorb, or when no operation is open |
| Transactions.RunsAreDurable | project-1b-xv6-warmup-SongWanglin/log.c:115-233 | In every run of begin, write, end, disk write and crash steps the recovered disk is the initial one with exactly the transactions whose header was written, in order; home blocks change only after their header is on disk |
| Transactions.StepRefinesStore | project-1b-xv6-warmup-SongWanglin/log.c:115-233 | Every step of the system is a step of a plain store that keeps a durable and a volatile map: a commit makes the volatile updates durable at its header write, a crash drops them |
| Transactions.BeginIff | project-1b-xv6-warmup-SongWanglin/log.c:125-142 | begin_op lets an operation in exactly if no commit or recovery runs and its whole allowance fits beside those of the open operations |
| Transactions.WriteGoes | project-1b-xv6-warmup-SongWanglin/log.c:213-233 | A write of a home block by an operation within its allowance goes: the block is pending, in the log once, and nothing else has changed |
| Transactions.CommitCompletes | project-1b-xv6-warmup-SongWanglin/log.c:145-202 | When the last operation ends, 2n + 2 disk writes complete the commit of n blocks: what was logged is durable and at home and the log is empty |
| Transactions.CrashCompletes | project-1b-xv6-warmup-SongWanglin/log.c:115-122 | From every reachable state a machine that crashes boots, by as many disk writes as the header on its disk asks for, to an empty log with every durable block at home |
| Transactions.RunsReserve | project-1b-xv6-warmup-SongWanglin/log.c:125-233 | If no operation appends more than MAXOPBLOCKS - 1 blocks, log length plus what open operations may still use stays within the log in every run, a commit runs only with no operation open, and log_write never panics |
| Transactions.FullAllowancePanics | project-1b-xv6-warmup-SongWanglin/log.c:125-233 | A run, found for every well-formed disk, in which operations stay within MAXOPBLOCKS blocks each and log_write panics |
| Transactions.NoPanicIffBelowAllowance | project-1b-xv6-warmup-SongWanglin/log.c:125-233 | No run makes log_write panic if and only if operations are held below MAXOPBLOCKS blocks each |
| BufferCache.Bcache.Bget | project-1b-xv6-warmup-SongWanglin/bio.c:61-93 | The buffer that has the block, or the least recently used one that is unreferenced and clean; panics exactly if there is neither. What the cache reads as does not change |
| BufferCache.Bcache.Bread | project-1b-xv6-warmup-SongWanglin/bio.c:96-106 | A locked buffer with what the block reads as over cache and disk; no write reaches the disk |
| BufferCache.Bcache.Bwrite | project-1b-xv6-warmup-SongWanglin/bio.c:109-116 | One disk write, after which the disk has the data of the buffer; what the cache reads as does not change |
| BufferCache.Bcache.Brelse | project-1b-xv6-warmup-SongWanglin/bio.c:120-141 | Gives up the lock; with the last reference the buffer moves to the front of a list that stays a permutation of all buffers |
| BufferCache.AtMostOneBuffer | project-1b-xv6-warmup-SongWanglin/bio.c:38-93 | In a cache with its invariant two buffers never have the same block of a real device; every method of the cache keeps that invariant |
| BufferCache.RecycleKeepsView | project-1b-xv6-warmup-SongWanglin/bio.c:77-91 | Relabelling an unreferenced clean buffer keeps the invariant and what the cache reads as, so no logged block is lost |
| Files.FileSystem.Balloc | project-1b-xv6-warmup-SongWanglin/fs.c:56-79 | The first free block, marked and zeroed, with no other block or bit changed; panics only if no block is free |
| Files.FileSystem.Bfree | project-1b-xv6-warmup-SongWanglin/fs.c:81-96 | Clears the bit of that block and nothing else; panics exactly if it was free |
| BlockMap.Claim | project-1b-xv6-warmup-SongWanglin/fs.c:56-79 | Giving a free block to an empty slot of a file keeps ownership and block maps each other's inverse: a block is in use exactly if one slot names it |
| BlockMap.Drop | project-1b-xv6-warmup-SongWanglin/fs.c:408-436 | The block a slot names is owned by that slot, and freeing it while clearing the slot keeps ownership and block maps inverse |
| BlockMap.NoSharing | project-1b-xv6-warmup-SongWanglin/fs.c:373-436 | No two slots, direct or indirect, of one file or of two, name the same block |
| BlockMap.PutMapBitOk | project-1b-xv6-warmup-SongWanglin/fs.c:56-96 | Writing one bit of the free map on disk changes which blocks it shows as used by that block alone |
| Dinode.PutNodeAt | project-1b-xv6-warmup-SongWanglin/fs.c:222-239 | An inode written into its block reads back whole and leaves its seven neighbours in the block as they were |
| Files.FileSystem.Bmap | project-1b-xv6-warmup-SongWanglin/fs.c:373-401 | The address of the block, through the indirect block beyond the twelfth; allocates exactly if there was none, and changes no data block of any file |
| Files.FileSystem.Ilock | project-1b-xv6-warmup-SongWanglin/fs.c:289-314 | Loads the inode as it is on disk; panics exactly if it is read for the first time and has no type |
| Files.FileSystem.Readi | project-1b-xv6-warmup-SongWanglin/fs.c:453-477 | The bytes of the file from the offset, cut at its end, across block and indirect boundaries; changes nothing on disk and allocates nothing |
| Files.FileSystem.Writei | project-1b-xv6-warmup-SongWanglin/fs.c:482-512 | Splices the bytes in at the offset, growing the file only past its end; all other files keep their bytes; inode in memory and on disk agree afterwards though it is written back only on growth; fails exactly on a bad span, and logs a bounded number of blocks |
| Files.FileSystem.Itrunc | project-1b-xv6-warmup-SongWanglin/fs.c:408-436 | Empties the file: exactly the blocks it owned become free, every other file keeps its bytes, and "freeing free block" is never reached |
| FileBytes.SpliceBlock | project-1b-xv6-warmup-SongWanglin/fs.c:482-512 | Changing part of one block, whichever it is, splices that change into the bytes of the file |
| OpenFile.File.FileRead | project-1b-xv6-warmup-SongWanglin/file.c:97-113 | Returns the bytes from the position on and moves it past them; on a file that is no device it fails exactly if the position is past the end or position and count pass 2^32, and then leaves the position |
| OpenFile.File.FileWrite | project-1b-xv6-warmup-SongWanglin/file.c:117-156 | Writes in slices of one transaction each; is refused exactly if the bytes start past the end or would make the file too long, and then says how many bytes nevertheless stay written |
| OpenFile.WriteTooFar | project-1b-xv6-warmup-SongWanglin/file.c:117-156 | A concrete write of 3072 bytes at 70000, the end of the file, fails and leaves 1536 bytes written and the position moved |
| OpenFile.SliceFits | project-1b-xv6-warmup-SongWanglin/file.c:133-153 | With a one-block free map a slice logs at most seven blocks, below MAXOPBLOCKS |
| DurableFiles.CrashDuringWrite | project-1b-xv6-warmup-SongWanglin/file.c:133-154 | However the slices of a write and the operations of others are grouped into commits, whenever the machine stops and however recovery is interrupted: the recovered disk holds the files as the committed operations, in order, left them, with a whole number of slices in the file written |
| DurableFiles.CrashBetweenOperations | project-1b-xv6-warmup-SongWanglin/log.c:115-202 | For any operations one after another, committed in any groups: after a crash and recovery the disk holds the files as the operations whose group had its header on disk left them, each whole and none without those before it |
| DurableFiles.HoldsOnce | project-1b-xv6-warmup-SongWanglin/fs.c:453-477 | A disk holds at most one list of files, so the statement above fixes the contents |
| DurableFiles.SlicesNeverPanic | project-1b-xv6-warmup-SongWanglin/file.c:133-154 | Operations that log no more than a slice never make log_write panic |
| LinkTree.LinkedIffReachable | project-1b-xv6-warmup-SongWanglin/fs.c:526-657 | An inode has a link if and only if some absolute path leads to it |
| LinkTree.AttachSoundIff | project-1b-xv6-warmup-SongWanglin/sysfile.c:131-297 | Making a name keeps all link counts equal to the entries that name the inode, and every linked directory under the root, if and only if the directory it is made in is still linked |
| LinkTree.DetachSound | project-1b-xv6-warmup-SongWanglin/sysfile.c:197-252 | Removing the name of a file or an empty directory keeps them so |
| Links.CallKeepsIff | project-1b-xv6-warmup-SongWanglin/sysfile.c:131-297 | Every link, unlink, create, open, dup or close that succeeds keeps the tree sound if and only if it makes no name in a removed directory |
| Links.RunsCountLinks | project-1b-xv6-warmup-SongWanglin/sysfile.c:131-297 | In every run without that case: a link count is the number of entries other than "." naming the inode in linked directories, an inode is allocated exactly while it has such an entry or a reference, and it has such an entry exactly if a path from the root leads to it |
| Links.RunsCountRefs | project-1b-xv6-warmup-SongWanglin/fs.c:242-353 | In every such run an inode has exactly one reference for each open, create and dup that gave it and has not been closed, and the root one more |
| Links.UnlinkUndoesLink | project-1b-xv6-warmup-SongWanglin/sysfile.c:131-252 | Unlinking a name just linked gives back every inode and count, but for the directory slot that is now unused |
| LinkTree.WalkFallsIff | project-1b-xv6-warmup-SongWanglin/fs.c:289-314 | From any inode a walk comes to a free inode, where ilock panics, exactly if "." and ".." alone, with as many ".." as lead from it through removed directories to a free one, begin the path |
| Links.OpenStuckIff | project-1b-xv6-warmup-SongWanglin/sysfile.c:300-347 | open panics exactly if the path is relative and leaves the tree in that way |
| Links.OpenIff | project-1b-xv6-warmup-SongWanglin/sysfile.c:300-347 | From a linked directory or by an absolute path open gives the inode the walk leads to, with one more reference, and fails exactly if there is none or a directory is to be written |
| Links.LinkedOpens | project-1b-xv6-warmup-SongWanglin/sysfile.c:300-347 | Every inode that has a link can be opened by some absolute path, but for a directory to be written |
| Links.MakeGives | project-1b-xv6-warmup-SongWanglin/sysfile.c:254-297 | create that succeeds gives the file the path already led to, or else a free inode made of the kind asked for, with one link, one reference and, in a directory, its dots; the path then leads there, and no other inode but the directory has changed |
| Links.MakeThenOpen | project-1b-xv6-warmup-SongWanglin/sysfile.c:254-347 | Opening the path by which something was just created gives what was created |
| Links.MakeIff | project-1b-xv6-warmup-SongWanglin/sysfile.c:254-297 | create succeeds exactly for a plain file where there is one, or for a new name with a free inode and room in its directory |
| Links.LinkGives | project-1b-xv6-warmup-SongWanglin/sysfile.c:131-178 | After link the new path, which led nowhere, leads to the inode of the old one, which has one link more; no other inode but the directory has changed |
| Links.LinkIff | project-1b-xv6-warmup-SongWanglin/sysfile.c:131-178 | link succeeds exactly for an inode that is no directory and a new name with room in its directory |
| Links.UnlinkIff | project-1b-xv6-warmup-SongWanglin/sysfile.c:197-252 | unlink succeeds exactly for a path to an inode, not ending in "." or "..", that is no directory with entries |
| Links.UnlinkGone | project-1b-xv6-warmup-SongWanglin/sysfile.c:197-252 | After unlink the path leads nowhere |
| Links.UnlinkStuckIff | project-1b-xv6-warmup-SongWanglin/sysfile.c:197-252 | unlink panics exactly if the path to the directory leaves the tree: it never meets a count below one or a free inode |
| Links.MakeStuckIff | project-1b-xv6-warmup-SongWanglin/sysfile.c:254-297 | create panics exactly if the path leaves the tree, or a new name finds no free inode or no room in the directory |
| Links.LinkStuckIff | project-1b-xv6-warmup-SongWanglin/sysfile.c:131-178 | link panics or waits forever exactly if a path leaves the tree, or the new name is there and leads to its own directory, or finds no room |
| Links.SomePathPanicsIff | project-1b-xv6-warmup-SongWanglin/fs.c:621-656 | Some path panics from a current directory exactly if ".." leads from it through removed directories to a free inode; from a linked one none does |
| Links.LinkedNeverPanics | project-1b-xv6-warmup-SongWanglin/fs.c:621-656 | With an absolute path or a linked current directory no walk panics, and neither open nor unlink does |
| Links.FileIsLost | project-1b-xv6-warmup-SongWanglin/sysfile.c:254-297 | A concrete run of calls after which a file has a link count of one, no name anywhere and no reference |
| Links.DotDotPanics | project-1b-xv6-warmup-SongWanglin/fs.c:621-656 | A concrete run after which opening ".." from a removed directory locks a free inode and panics |
| Links.OwnNameIff | project-1b-xv6-warmup-SongWanglin/fs.c:552-579 | In a linked directory the name dirlink is to make leads back to that directory exactly for "." and, in the root, ".." |
| Links.LinkToDotHangs | project-1b-xv6-warmup-SongWanglin/fs.c:552-563 | link(f, ".") always waits for the lock of the current directory, which it holds, be the directory linked or removed |
| Inodes.InodeTable.SysLink | project-1b-xv6-warmup-SongWanglin/sysfile.c:131-178 | Ends in the state the specification of link gives; if the new name cannot be made every inode, count and reference is as before |
| Inodes.InodeTable.SysUnlink | project-1b-xv6-warmup-SongWanglin/sysfile.c:197-252 | Ends in the state the specification of unlink gives: entry cleared, counts lowered, and the inode freed exactly if no link and no reference is left |
| Inodes.InodeTable.SysMake | project-1b-xv6-warmup-SongWanglin/sysfile.c:254-381 | Creates a file, device or directory with its dots and both counts, and drops the reference; refused exactly if the name is taken |
| Inodes.InodeTable.SysOpen | project-1b-xv6-warmup-SongWanglin/sysfile.c:300-347 | Opens what the path leads to, or the file that is or is not yet there with O_CREATE, and leaves one more reference, as the specification says of which Links.OpenIff and Links.MakeGives state when it succeeds and with which inode |
| Inodes.InodeTable.Iput | project-1b-xv6-warmup-SongWanglin/fs.c:333-353 | Drops a reference and frees the inode exactly if it has no link and this was the last one |
| Inodes.InodeTable.WalkPath | project-1b-xv6-warmup-SongWanglin/fs.c:621-656 | Ends where walking the path from directory to directory ends, with one reference there and none elsewhere |
| Heap.Allocator.Malloc | project-1b-xv6-warmup-SongWanglin/umalloc.c:63-90 | A block of enough units that overlaps no other and changes none, or NULL only if sbrk refuses and no free block fits; the free list stays circular, sorted, disjoint and without neighbours, and free and allocated blocks tile what sbrk gave. The search ends |
| Heap.Allocator.Free | project-1b-xv6-warmup-SongWanglin/umalloc.c:24-45 | The block returns to the free list, merged with what it touches; all other blocks and the units in use are unchanged |
| Heap.Allocator.MoreCore | project-1b-xv6-warmup-SongWanglin/umalloc.c:46-61 | At least as much new memory as asked for is in the free list, wherever sbrk put it above the old break |
| Heap.UnitsEnough | project-1b-xv6-warmup-SongWanglin/umalloc.c:63-70 | The number of units computed is the least with room for the header and the bytes |
| SleepLock.NoLostWakeup | project-4a-kernel-threads-__south__park/sleeplock.c:22-42 | In every run a process asleep on a sleep lock, or past the check on its way to sleep, has a holder to wait for or a releaser that is still to wake it |
| SleepLock.Exclusion | project-4a-kernel-threads-__south__park/sleeplock.c:22-42 | In every run at most one process has the lock, and once acquiresleep has set it the recorded pid is its own |
| SleepLock.HoldingSleep | project-4a-kernel-threads-__south__park/sleeplock.c:44-53 | holdingsleep is true exactly for the process that has the lock |
| SleepLock.AcquireGains | project-4a-kernel-threads-__south__park/sleeplock.c:22-32 | In every run a process that has begun acquiresleep and is back from it has the lock, until it releases it |
| SleepLock.ReleaseLoses | project-4a-kernel-threads-__south__park/sleeplock.c:34-42 | In every run a process that has begun releasesleep and is back from it does not have the lock until it acquires it again; if the lock is taken then another process has it |
| SleepLock.ReleaseWakes | project-4a-kernel-threads-__south__park/sleeplock.c:34-42 | At some moment from the beginning of a release to its end a given process is not asleep on the lock, whoever it is and whatever the others do |
| SleepLock.SomebodyGoes | project-4a-kernel-threads-__south__park/proc.c:538-594 | In every run, while some process is inside acquiresleep, releasesleep or holdingsleep and not asleep, some process can go on: the two spin locks never deadlock |
| SleepLock.LockChangesHands | project-4a-kernel-threads-__south__park/sleeplock.c:22-42 | A concrete run: one process acquires, a second one sleeps for the lock, and gets it after the first has released it |
| SleepLock.WakesAll | project-4a-kernel-threads-__south__park/proc.c:538-594 | After the wakeup of a release no process is asleep on the lock or about to be |
| Ptable.ExitProtocol | project-4a-kernel-threads-__south__park/proc.c:297-432 | In every run a child's parent is a process that can reap it, and no process sleeps in wait or join while it has a zombie child to reap |
| Ptable.InvStep | project-4a-kernel-threads-__south__park/proc.c:77-620 | Every step (fork in its parts, clone, exec of an unshared directory, exit, wait, join, kill, growproc, sleep, wakeup) keeps the invariant of the table |
| Ptable.ReapedOnce | project-4a-kernel-threads-__south__park/proc.c:297-432 | In every run no pid is returned by wait or join twice |
| Ptable.SharedMemory | project-4a-kernel-threads-__south__park/proc.c:162-294 | In every run live processes with the same page directory have the same size, no live process has a freed directory, and pids are distinct |
| Ptable.WaitFrees | project-4a-kernel-threads-__south__park/proc.c:398-419 | wait frees the directory of the child it reaps exactly if no other slot names it |
| Ptable.LeakIff | project-4a-kernel-threads-__south__park/proc.c:297-432 | A step leaves a page directory allocated with nobody using it exactly if wait reaps its last user while a slot not in use still names it, which join or a failed clone has left so |
| Ptable.WaitLeaksIff | project-4a-kernel-threads-__south__park/proc.c:398-419 | When wait reaps the last user of a directory, the directory leaks exactly if some UNUSED or EMBRYO slot still names it |
| Ptable.LeakedForever | project-4a-kernel-threads-__south__park/proc.c:162-432 | A leaked directory is in no later state of any run used or freed |
| Ptable.DirectoryLeaks | project-4a-kernel-threads-__south__park/proc.c:297-432 | A concrete run from boot, fork, clone, join, exit and wait, that ends with a leaked directory |
| Ptable.ExecSafeIff | project-4a-kernel-threads-__south__park/exec.c:97-103 | exec keeps the invariant exactly if no other live process shares its directory |
| Ptable.ExecUnderThread | project-4a-kernel-threads-__south__park/exec.c:97-103 | A concrete run that ends in exec freeing the directory of a live thread |
| Ptable.KillCleanIff | project-4a-kernel-threads-__south__park/proc.c:600-619 | kill of a pid leaves a mark on an unused slot exactly if the first slot with that pid is unused |
| Ptable.KilledIff | project-4a-kernel-threads-__south__park/proc.c:77-120 | In any run in which a slot is not reaped its process is marked killed exactly if a kill has hit the slot or the slot was marked before it was in use: a mark on an unused slot kills whoever is made there |
| Ptable.KillZero | project-4a-kernel-threads-__south__park/proc.c:600-619 | A concrete run: kill(0), then clone, and the new thread is killed from birth |
| Ptable.KillWakes | project-4a-kernel-threads-__south__park/proc.c:600-619 | kill marks the first slot with the pid and leaves it runnable if it slept; otherwise its state, and always every other slot, is as it was |
| Ptable.KilledNeverWaits | project-4a-kernel-threads-__south__park/proc.c:600-619 | In every run nobody marked killed is asleep in wait or join |
| Ptable.WakeOnWakes | project-4a-kernel-threads-__south__park/proc.c:579-594 | wakeup makes runnable exactly the processes asleep on the channel, and changes nobody else |
| Ptable.ForkMakesChild | project-4a-kernel-threads-__south__park/proc.c:197-239 | fork, undisturbed, makes a runnable child of the caller with the next pid and a copy of its space under a new directory, and touches nobody else |
| Ptable.CloneMakesThread | project-4a-kernel-threads-__south__park/proc.c:241-294 | clone makes a runnable thread of the caller with the next pid in its own space, and no new directory |
| Ptable.MakingFails | project-4a-kernel-threads-__south__park/proc.c:197-294 | A fork that fails gives its slot back and the caller runs on; a clone that fails leaves its slot an EMBRYO, without a parent if the stack was bad |
| Ptable.ExecReplaces | project-4a-kernel-threads-__south__park/exec.c:97-103 | exec gives the caller the new directory and size and frees the old directory, and no other |
| Ptable.GrowResizes | project-4a-kernel-threads-__south__park/proc.c:162-191 | growproc sets the size of every slot in use that has the directory of the caller, and of no other |
| Ptable.ExitLeaves | project-4a-kernel-threads-__south__park/proc.c:339-378 | exit leaves a zombie, hands exactly its children to initproc, wakes the parent from wait, and changes nothing else |
| Ptable.OutcomeIff | project-4a-kernel-threads-__south__park/proc.c:297-432 | wait or join reaps exactly if there is a zombie child of its kind, and sleeps exactly if there is none, a child of its kind is left and the caller is not killed |
| Ptable.WaitResult | project-4a-kernel-threads-__south__park/proc.c:297-432 | What wait or join does then: the child is gone from the table and the caller runs on, or the caller sleeps on itself; no other slot changes |
| PtableLoops.Table.Await | project-4a-kernel-threads-__south__park/proc.c:297-432 | One pass of wait or join over the table does what the step of the system says, and returns the reaped pid |
| PtableLoops.Table.ExitProcess | project-4a-kernel-threads-__south__park/proc.c:339-378 | exit gives the children to initproc, wakes who must be woken and ends as a zombie, as the step of the system says |
| PtableLoops.Table.Wakeup1 | project-4a-kernel-threads-__south__park/proc.c:579-586 | Exactly the processes asleep on the channel become runnable |
| PtableLoops.Table.Allocproc | project-4a-kernel-threads-__south__park/proc.c:77-120 | The first unused slot gets the next pid; fails exactly if every slot is in use |
| PtableLoops.Table.KillPid | project-4a-kernel-threads-__south__park/proc.c:600-619 | Marks the first slot with the pid, whatever its state, and makes a sleeper there runnable, as the step of the system does; that the step does it is Ptable.KillWakes |
| Vm.Kernel.Allocuvm | project-3b-null-pointer-and-shared-memory-south_park/vm.c:221-249 | Maps zeroed pages on frames that were free for exactly the new range, and leaves every other mapping and directory alone; on failure unmaps and frees them again. In a space whose pages are those below its size it never panics, succeeds exactly if there are free frames for the new pages and the tables they lack, success gives the space the new size, and failure leaves every page mapped as it was |
| Vm.SizedUndone | project-3b-null-pointer-and-shared-memory-south_park/vm.c:221-249 | In a space whose pages are those below its size a failed allocuvm leaves every page, user and kernel, mapped as it was |
| Vm.Kernel.ShrinkAndFork | project-3b-null-pointer-and-shared-memory-south_park/proc.c:158-175 | A concrete process of two pages: a shrink by three pages succeeds and changes nothing, a shrink to nothing fails with the pages gone, and the copy for a fork then never succeeds |
| Vm.Kernel.Deallocuvm | project-3b-null-pointer-and-shared-memory-south_park/vm.c:255-279 | Unmaps exactly the user pages of the range and frees exactly their frames; the jump over a missing table misses none; what is left is a space of the new size |
| Vm.Kernel.Freevm | project-3b-null-pointer-and-shared-memory-south_park/vm.c:283-298 | Directory, tables and user pages go back to the free list, and nothing else does |
| Vm.Kernel.Setupkvm | project-3b-null-pointer-and-shared-memory-south_park/vm.c:105-136 | A directory with the kernel half and no user page; NULL exactly if there are fewer free frames than the directory and the tables of the kernel map, and then exactly the frames that were free are free again |
| Vm.KernAt | project-3b-null-pointer-and-shared-memory-south_park/vm.c:105-136 | Each page of the kernel map is mapped to its own frame, writable if its range is, and not for users |
| Vm.KmapFits | project-3b-null-pointer-and-shared-memory-south_park/vm.c:105-115 | The four ranges of the kernel map do not overlap, so mappages never panics over them |
| Vm.LifeCycle | project-3b-null-pointer-and-shared-memory-south_park/vm.c:117-408 | Setting up a directory, then any changes to it alone, as growing, shrinking, copying into it and protecting are, and freeing it gives back exactly the frames that were free |
| Vm.Kernel.Copyuvm | project-3b-null-pointer-and-shared-memory-south_park/vm.c:315-346 | The copy has the pages from the second on, equal in contents and bits, on frames that were free; without memory exactly the frames that were free are free again. From a space whose pages are those below its size it never panics, both are then such spaces, and it succeeds exactly if there are free frames for a directory, its tables and those pages |
| Vm.CopyFramesBound | project-3b-null-pointer-and-shared-memory-south_park/vm.c:315-346 | So a copy succeeds whenever 1025 frames and one for each page below the size are free |
| Vm.Kernel.MemProtect | project-3b-null-pointer-and-shared-memory-south_park/vm.c:389-408 | Changes the write bit of the user pages of the range that are there and nothing else in this or any other space, up to the first missing table, at which it fails |
| Vm.Kernel.Growproc | project-3b-null-pointer-and-shared-memory-south_park/proc.c:158-175 | Grows, shrinks or fails as the 32-bit sum of size and change says, with the exact pages mapped or freed in each case and the exact number of free frames growing takes; a space keeps exactly the pages below the size the process ends with, except exactly when one of more than a page is shrunk to nothing |
| Vm.Kernel.Walk | project-3b-null-pointer-and-shared-memory-south_park/vm.c:35-55 | The table behind the entry, made on a free frame if asked; NULL exactly if there is none and none could be made |
| Vm.Kernel.Kalloc | project-3b-null-pointer-and-shared-memory-south_park/kalloc.c:82-95 | Takes the first frame of the free list; NULL exactly if there is none |
| Vm.Kernel.Kfree | project-3b-null-pointer-and-shared-memory-south_park/kalloc.c:59-77 | Puts the frame in front of the free list, filled with junk |
| Vm.PagesApart | project-3b-null-pointer-and-shared-memory-south_park/vm.c:60-346 | No frame is mapped twice as a user page, by one directory or by two; every operation keeps the invariant this follows from |
| Vm.OthersLook | project-3b-null-pointer-and-shared-memory-south_park/vm.c:221-346 | An operation on one directory leaves the page maps of all others, and what their pages hold, as they were |
| Rle.EncodeDecode | project-3a-parallel-zip-southpark/pzip.c:78-96 | A list of runs with no empty run and no equal neighbours is the encoding of what it decodes to |
| Rle.DecodeEncode | project-3a-parallel-zip-southpark/pzip.c:78-96 | Decoding an encoding gives the text back |
| Rle.EncodeConcat | project-3a-parallel-zip-southpark/pzip.c:114-132 | Encoding in pieces and joining where they meet is encoding the whole |
| Rle.ZipUnzip | project-1a-unix-warmup-SongWanglin/my-unzip.c:19-24 | my-unzip of the records of an encoding gives the text, as long as a count fits an int |
| Rle.RecordAt | project-3a-parallel-zip-southpark/pzip.c:114-132 | Five bytes of output for each run, in order: record k is at byte 5k |
| Rle.RecordLayout | project-3a-parallel-zip-southpark/pzip.c:114-132 | A record is the count modulo 2^32, lowest byte first, and then the byte |
| Pzip.ParallelZip | project-3a-parallel-zip-southpark/pzip.c:3-132 | For every chunk size, every number of consumers and every order in which they take and store chunks, as long as the chunks fit the ring: the output is the encoding of all files as one, and my-unzip of it is the files; it is refused exactly if a file is empty |
| Pzip.Zip.Turn | project-3a-parallel-zip-southpark/pzip.c:29-40 | One consumer takes a chunk from the ring or stores the one it holds: chunks stored, held and in the ring stay exactly all chunks |
| Pzip.Zip.Consume | project-3a-parallel-zip-southpark/pzip.c:98-112 | Whatever the order of turns, every chunk ends at its own place, encoded |
| Pzip.Zip.Produce | project-3a-parallel-zip-southpark/pzip.c:42-75 | The chunks of the files in order, with the counts the consumers index by; stops exactly at an empty file |
| Pzip.IndexIsPlace | project-3a-parallel-zip-southpark/pzip.c:98-112 | The index a consumer works out for a chunk is the place of the chunk in the input, so indices are a bijection |
| Pzip.RleEncoding | project-3a-parallel-zip-southpark/pzip.c:78-96 | The in-place loop writes the run-length encoding of the chunk |
| Pzip.PrintQueue | project-3a-parallel-zip-southpark/pzip.c:114-132 | Merging neighbouring chunks in place and writing records gives the encoding of the whole input |
| Pzip.RingKeepsIff | project-3a-parallel-zip-southpark/pzip.c:29-40 | A chunk is still in the ring when all are produced exactly if fewer than QSIZE follow it |
| Pzip.RingLosesFirst | project-3a-parallel-zip-southpark/pzip.c:29-40 | Whatever the size of a chunk, of a file of 256 chunks and one more byte the first chunk is lost |
| MyZip.MyZip | project-1a-unix-warmup-SongWanglin/my-zip.c:8-49 | The loop over all files writes what a byte-by-byte machine with the current byte and count says |
| MyZip.ZipIff | project-1a-unix-warmup-SongWanglin/my-zip.c:16-49 | my-zip writes the encoding of its files if and only if they are clean: 0xFF is at most the very first byte, no file begins while the last byte read is zero, and the first file is not empty (or 0xFF alone follows the empty ones) |
| MyZip.ZipFails | project-1a-unix-warmup-SongWanglin/my-zip.c:16-49 | An input for each of the three ways to be unclean, with what is written |
| MyZip.SameAsPzip | project-1a-unix-warmup-SongWanglin/my-zip.c:16-49 | On bytes other than 0 and 0xFF with a first file that is not empty my-zip and pzip write the same |
| MyZip.ZipThenUnzip | project-1a-unix-warmup-SongWanglin/my-unzip.c:19-24 | my-unzip of what my-zip writes for clean files is the files |
| Regex.Match | project-1b-xv6-warmup-SongWanglin/grep.c:72-106 | True exactly if the text, or with ^ its start, has a part in the meaning of the pattern: literals, ., * and a final $ |
| Regex.MatchHere | project-1b-xv6-warmup-SongWanglin/grep.c:85-95 | True exactly if the text begins with a part in the meaning of the pattern |
| Regex.MatchStar | project-1b-xv6-warmup-SongWanglin/grep.c:98-106 | True exactly if after some number of the repeated characters the rest of the pattern matches |
| Regex.ParseReads | project-1b-xv6-warmup-SongWanglin/grep.c:72-106 | How a pattern is read: a sign and a star before anything else, $ only as the last sign, . for any character |
| Pipe.WrapCompare | project-1b-xv6-warmup-SongWanglin/pipe.c:78-121 | With at most 512 bytes between them counters that wrap at 2^32 tell an empty and a full pipe exactly |
| Pipe.PipeBuffer.PipeWrite | project-1b-xv6-warmup-SongWanglin/pipe.c:78-98 | Appends bytes until all are written or the pipe is full; fails if it is full and the reader is gone or the process killed; the ring with wrapped counters holds what was written and not read |
| Pipe.PipeBuffer.PipeRead | project-1b-xv6-warmup-SongWanglin/pipe.c:100-121 | Takes the oldest bytes in order, or ends, or sleeps, by what there is |
| Pipe.ReadIff | project-1b-xv6-warmup-SongWanglin/pipe.c:100-121 | A read gives the oldest bytes in order, as many as asked for and there; it sleeps or fails exactly if there are none and a writer is left, and fails exactly if it was killed |
| Pipe.WriteIff | project-1b-xv6-warmup-SongWanglin/pipe.c:78-98 | A write appends in order what there is room for; it is done exactly if that is all, and fails exactly if it is not and the reader is gone or the process killed |
| Pipe.WriteThenRead | project-1b-xv6-warmup-SongWanglin/pipe.c:78-121 | Up to 512 bytes written to an empty pipe are what the next read gives |
| PipeUsers.Fifo | project-1b-xv6-warmup-SongWanglin/pipe.c:78-121 | With any readers and writers, in every run: the bytes read are a prefix of the bytes written, at most 512 behind |
| PipeUsers.Delivers | project-1b-xv6-warmup-SongWanglin/pipe.c:78-121 | A message of any length gets across an empty pipe in some run of its writer and one reader, a pipe of bytes at a time with the writer asleep in between, whole and in order, and the writer returns |
| PipeUsers.StepIff | project-1b-xv6-warmup-SongWanglin/pipe.c:78-121 | A step leaves no sleeper who could go on, except exactly the write that fails for a killed process after it has written something |
| PipeUsers.NobodyStuck | project-1b-xv6-warmup-SongWanglin/pipe.c:78-121 | In every run without that case no reader sleeps while there are bytes and no writer while there is room |
| PipeUsers.KilledNeverSleeps | project-1b-xv6-warmup-SongWanglin/pipe.c:78-121 | In every run a killed process is awake, to find out and return |
| PipeUsers.CloseWakes | project-1b-xv6-warmup-SongWanglin/pipe.c:60-75 | Closing an end wakes everybody at the other one, and changes neither the other end nor what is in the pipe |
| PipeUsers.ReaderForgotten | project-1b-xv6-warmup-SongWanglin/pipe.c:84-89 | A concrete run that ends with 512 bytes in the pipe and the reader asleep |
| Shell.ParseCmd | project-1b-xv6-warmup-SongWanglin/sh.c:327-342 | The line is accepted exactly if its tokens are a line of the grammar; the tree is the one the grammar gives, which CommandTrees.ShowParses and CommandTrees.LineFlat describe, and every string of it then stands in the buffer as it was in the line |
| CommandTrees.ShowParses | project-1b-xv6-warmup-SongWanglin/sh.c:327-446 | Every command tree, written out with its operators, left before right, and parentheses where the grammar needs them, is parsed back to that same tree |
| CommandTrees.LineFlat | project-1b-xv6-warmup-SongWanglin/sh.c:327-446 | The tree of any line has each bar, ampersand, semicolon, argument and redirection of the line, with its file and direction, in the order of the line, except that between two operators the redirections come after the arguments |
| Shell.LexAll | project-1b-xv6-warmup-SongWanglin/sh.c:265-308 | The tokens of a line are whole words, >> or single symbols, in order, with nothing but white space between them and after them |
| Shell.ParseIff | project-1b-xv6-warmup-SongWanglin/sh.c:344-446 | A token list is parsed as a tree exactly if it is the text of that tree: the parser is sound, complete and unambiguous |
| Shell.Parser.GetToken | project-1b-xv6-warmup-SongWanglin/sh.c:265-308 | Takes exactly the next token, or NUL at the end |
| Shell.Parser.ParseLine | project-1b-xv6-warmup-SongWanglin/sh.c:344-359 | Agrees with the grammar for a line, and leaves the rest |
| Shell.Parser.ParseExec | project-1b-xv6-warmup-SongWanglin/sh.c:415-446 | Agrees with the grammar for a command, with redirections and at most nine arguments |
| Shell.NulTerminate | project-1b-xv6-warmup-SongWanglin/sh.c:449-493 | Writes NUL exactly at the ends of the strings of the command |
| Shell.LineWords | project-1b-xv6-warmup-SongWanglin/sh.c:449-493 | No string of a command has the end of another inside it, so that no NUL cuts a token |

## Findings

Places where the code does less than one would expect, each with its lemma.

| member | what happens |
|---|---|
| Transactions.FullAllowancePanics | Operations may use MAXOPBLOCKS blocks each, but three of them fill the log, and then log_write panics even for a block it would absorb. Nine blocks each are safe |
| OpenFile.WriteTooFar | A write that fails because the file would grow too long leaves its first slices written and moves the position, and reports failure |
| Links.FileIsLost | A file created in a removed directory that is still somebody's current directory is never freed |
| Links.DotDotPanics | From a removed directory ".." may lead to an inode that is free: opening it panics |
| Links.LinkToDotHangs | link(f, ".") waits forever for a lock it holds |
| Ptable.ExecUnderThread | exec frees the page directory although a thread still uses it |
| Ptable.KillZero | kill(0) marks an unused slot, and the next process made in it is killed from birth |
| Ptable.DirectoryLeaks | If a slot emptied by join still names a page directory when wait reaps its last user, the directory stays allocated for good |
| PipeUsers.ReaderForgotten | A writer that is killed while it waits for room fails without waking the reader of what it has written |
| Vm.Kernel.ShrinkAndFork | Shrinking to size zero frees all pages and then reports failure, and a fork after it panics; shrinking by more than the size does nothing and reports success |
| Pzip.RingLosesFirst | With more than 256 chunks the producer overwrites chunks nobody has taken |
| MyZip.ZipFails | my-zip drops bytes 0xFF, loses count at zero bytes between files, and writes a false record for an empty first file |

## Left out

- Concurrent threads inside fs.c and sysfile.c: a system call on inodes is one step; its locks are kept so that waiting for its own lock shows.
- DurableFiles.CrashDuringWrite: does not cover other writers of the same file between the slices; what they leave is the subject of DurableFiles.CrashBetweenOperations.
- Links.CallKeepsIff: does not model blocks running out while a directory grows, the limit of 50 cached inodes, the file table, and link counts beyond a short.
- Splitting a path at its slashes and cutting names to 14 characters: a path is a list of names.
- The root directory mkfs makes is Links.Boot; that mkfs leaves a hole when its size is an exact number of blocks is excluded.
- Device files behind readi and writei, the console, and all device drivers but the memory disk.
- Spinlocks, interrupts, context switches and the scheduler, the lottery of project-2b among them: taking a lock or switching is one step.
- Ptable.InvStep: takes clone as one step, though it holds no lock in the source. Its failure paths leave an EMBRYO slot, as in the source.
- Ptable.CloneMakesThread: does not model the user stack clone writes its arguments on, the registers of the thread, or the stack address join hands back.
- Loading a program in exec, and user memory seen through the hardware: accessed and dirty bits, the TLB, segment setup.
- The links of the free frame list in page memory (kalloc.c): the list is a sequence of frames.
- Vm.Kernel.MemProtect: does not model the overflow of len * PGSIZE.
- Vm.Kernel.Allocuvm: pages that exec makes inaccessible (clearpteu) and loading into pages (loaduvm) are not modelled; they change no frame and no size.
- Heap.Allocator.Malloc: does not model the overflow of the unit count, nor an sbrk that gives memory below what it gave before.
- Running a parsed command (sh.c:58-130) and the parts of sh.c that read a line. `>>` gives the same redirection as `>`, as in the source.
- The read loop of grep (grep.c:10-36).
- Pzip.ParallelZip: does not model a get from an empty ring, which the unlocked test at pzip.c:110 allows, nor mmap, thread creation and memory allocation; chunks beyond the ring are the subject of Pzip.RingKeepsIff.
- Rle.ZipUnzip: does not cover a run of 2^31 or more bytes, whose count does not fit an int.
- Programs of the user level other than those above, mkfs, and the copies of the same files in other project folders.
