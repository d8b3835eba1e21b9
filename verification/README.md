# Models of an xv6 file system, an accumulator scheduler and three thread protocols

The repository holds operating-system exercises written in C. This project models the parts of it whose
behaviour is an invariant over whole runs, and proves those invariants.

* **The file system of ex5/bonus.** `Bytes` and `Layout` are the on-disk bytes: little-endian fields, bitmap
  bits, 128-byte inode records. `BlockMap` says which block belongs to which inode, `FileData` and `FileSystem`
  are the imperative operations on the array of blocks (`balloc`, `bfree`, `bmap`, `itrunc`, `ialloc`, `iput`,
  `readi`, `writei`), proved against a file as a byte sequence. `DirFormat` and `Directory` prove that 16-byte
  records are a finite map. `Space` counts the free blocks and what a directory needs for one more entry, so that
  `dirlink`, and what rests on it, succeeds exactly where it can. `LinkLaw` is the link-count law on the tree of
  directories, `InodeRefs` what the reference counts keep alive, and `SysFile` the locked sections of the system
  calls on the bytes. `Path` is `skipelem` and `namex`. `Syscalls` puts them together: `link`, `unlink`, `create`,
  `mkdir`, `chdir`, `chmod` and `getperm` from their path names on, with every failure exit and when it is taken,
  every reference taken and given back, what is left of every file, and the law kept or broken. `Image` is a formatted disk, byte for byte, on
  which all of this holds, and `Capacity` says how big a disk is never full. `Reachable` are programs of system
  calls that reach, on such a disk, the states where a promise fails. `InodeCache` is the reference-counted inode
  table with every lock release a point where other threads run.
* **The scheduler of ex4/part1.** `Scheduler` is the process table of one CPU as the array it is, with
  `fork` split at its lock releases, and the spread invariant; `Fairness` draws the conclusions about runs.
  `ExitWait` is `exit`, `wait`, `fork`, `sleep` and `wakeup` over any number of CPUs, one step for each lock
  acquired or released; `ExitCode` is the same code as loops over the array, each statement shown to be a step
  of that protocol. `KernelSem` and `SemCode` do the same for the semaphores of ex4/part2.
* **The pipeline of ex3.** `BoundedBuffer` is the ring buffer, by itself and under any interleaving of any number
  of inserters and removers; `RingQueue` shows that it is then the queue of the pipeline. `Pipeline` composes
  producers, dispatcher, co-editors and screen manager; `PipelineFlow` proves that everything is printed once and in order, `PipelineProgress` that the network
  cannot deadlock and that its work is bounded.
* **The buffered file of ex2.** `BufferedFile` is the 4096-byte write buffer with its two kinds of flush, and
  the read-ahead buffer.

A disk image is taken to be consistent at first, with block 0 and the other metadata blocks marked used, as the
one in `Image` is; `mkfs` is not part of this model. Block reads and writes are atomic. A copy to or from user
memory that faults is a parameter: `cap` in `Readi` and a short `src` in `Writei`. Accumulators are mathematical
integers.

## Findings

* The link-count law (`LinkLaw.Lawful`: every count is the number of live entries that lead to the inode, and
  every live directory has one name, in the live directory its ".." leads to) survives `create`, `mkdir` and
  `link` exactly when the directory that gets the entry is itself still linked, and for `link` the count is below
  32767 (`LinkLaw.CreateFileExact`, `LinkLaw.CreateDirExact`, `LinkLaw.LinkExact`, and on the bytes
  `Syscalls.SysCreate`, `Syscalls.SysLink`). The code checks neither. A current directory that has been unlinked is such a directory; `mkdir` in one
  brings it back to life by its own `nlink++`, with no name above it. A program gets a file to 32767 links in
  two directories that are not full, and one more (`Reachable.OverflowReached`).
* A directory cannot: it has no more links than names, and at most 17152 of those (`SysFile.RoomForDots`).
* From a current directory all paths are safe exactly when climbing through ".." never meets a freed inode
  (`Path.WalkExact`), which holds of every directory that is still linked (`Path.LiveWalkSafe`). An unlinked
  one can fail: after `mkdir a`, `mkdir a/b`, going there, and removing both, `../.` locks a freed inode, which
  is a panic (`Reachable.DeadCwdPanics`).
* `kill` wakes a sleeper without resetting its accumulator, which keeps the spread exactly when that accumulator
  is still within reach (`Fairness.KillExact`); a run from boot gets to a state where it is not
  (`Fairness.KillBreaksSpread`).
* A process that yields from the kernel is not charged. Each such yield can cost a waiting process one more
  dispatch of another, and no more than one (`Fairness.WaitWithYields`, `Fairness.KernelYieldsStarve`).
* A preappend session of one buffer or less puts its data before the file; a longer one puts its blocks there
  in reverse order (`BufferedFile.PrependExact`).
* `isBufferEmpty` is also true of a full ring (`BoundedBuffer.EmptyTest`); where the dispatcher uses it, it is
  exact all the same (`PipelineFlow.ExitTestExact`).

## Model

| member | source | states |
|---|---|---|
| Bytes.SetBitExact | ex5/bonus/fs.c:78-80 | or-ing in a mask sets that bit and leaves every other bit as it was |
| Bytes.ClearUndoesSet | ex5/bonus/fs.c:103 | clearing a bit that was just set restores the byte |
| Bytes.TestBitWeight | ex5/bonus/fs.c:75-76 | testing with a mask is testing the bit of that weight |
| Layout.DinodeRoundTrip | ex5/bonus/fs.h:38-50 | an inode record written into its block reads back whole, and the other seven records of the block are unchanged |
| Layout.DinodeBytes | ex5/bonus/fs.h:32-49 | where each field of a stored inode lies: its block, its 128 bytes there, two or four bytes a field with the low one first |
| Layout.BitmapByte | ex5/bonus/fs.h:51-55 | the bit of a block is bit b % 8 of byte b / 8 from bmapstart on |
| Layout.FlipOnExact | ex5/bonus/fs.c:66-88 | marking a block used changes the bit of that block and of no other |
| Layout.FlipOffExact | ex5/bonus/fs.c:92-105 | giving a block back changes the bit of that block and of no other |
| Layout.FreeUndoesAllocate | ex5/bonus/fs.c:65-105 | bfree after balloc restores the image, byte for byte |
| BlockMap.AddSlot | ex5/bonus/fs.c:395-433 | a new block in an empty slot keeps ownership: every used bit is metadata or exactly one inode's slot |
| BlockMap.AttachAddr | ex5/bonus/fs.c:400-416 | an allocated, zeroed block put in an address field keeps the ownership invariant and all contents |
| BlockMap.AttachEntry | ex5/bonus/fs.c:417-428 | the same for an entry of the indirect block, written to disk |
| BlockMap.OwnedRootBelow | ex5/bonus/fs.c:411-428 | an owned slot is a data block in range, and no entry is reached without a root |
| BlockMap.ContentByte | ex5/bonus/fs.c:395-433 | byte k of a file is byte k % 1024 of the block its inode, or its indirect block, names for k / 1024 |
| FileData.WriteData | ex5/bonus/fs.c:528-538 | writing one data block changes no other inode, no bitmap bit and no address |
| FileData.WroteChunk | ex5/bonus/fs.c:528-538 | one chunk more extends what writei has written so far, across a block boundary included |
| FileData.TruncateDone | ex5/bonus/fs.c:438-465 | when the loops end, the inode owns nothing and ownership holds for all the others |
| FileData.TruncateExact | ex5/bonus/fs.c:438-465 | the blocks itrunc frees are exactly the inode's own |
| FileSystem.Fs.Balloc | ex5/bonus/fs.c:66-88 | returns the least free block below sb.size, zeroed, with exactly its bit flipped; 0 exactly when none is free |
| FileSystem.Fs.Bfree | ex5/bonus/fs.c:92-105 | flips exactly the bit of a used block |
| Space.FreeByOwner | ex5/bonus/fs.c:66-105 | ownership settles which blocks are free |
| Space.OneTaken | ex5/bonus/fs.c:400-427 | one more owned block is one free block less, and no other inode owns anything else |
| Space.OtherFits | ex5/bonus/fs.c:592-618 | what one inode takes leaves every other directory the same room |
| FileSystem.Fs.Bmap | ex5/bonus/fs.c:395-433 | returns the block of a file offset, allocating exactly what is missing, 0 exactly when so many blocks are not free; ownership and all contents survive a failure half-way |
| FileSystem.Fs.WriteRound | ex5/bonus/fs.c:528-538 | one round of the loop: a chunk more, or a stop exactly when the disk lacks a block or the source faults |
| FileSystem.Fs.Iupdate | ex5/bonus/fs.c:230-249 | the record on disk equals the copy in memory, and no other record changes |
| FileSystem.Fs.Itrunc | ex5/bonus/fs.c:438-465 | empties the inode and clears exactly the bits of its blocks, never reaching "freeing free block" |
| FileSystem.Fs.Ialloc | ex5/bonus/fs.c:199-223 | claims the least free inode, 0 exactly when none is free |
| FileSystem.Fs.FreeInode | ex5/bonus/fs.c:357-367 | iput's last reference to an unlinked inode frees the inode and exactly its blocks |
| FileSystem.Fs.Readi | ex5/bonus/fs.c:484-508 | returns exactly content[off..min(off+n, size)] and never makes bmap allocate |
| FileSystem.Fs.Writei | ex5/bonus/fs.c:518-551 | the content becomes old[..off] + src[..tot] + old[off+tot..], and every other inode keeps its content |
| FileSystem.WriteStored | ex5/bonus/fs.c:540-550 | raising the size and storing the inode keeps ownership and turns the bytes written into content |
| FileSystem.BitInBlock | ex5/bonus/fs.c:72-80 | the scan's byte and bit are the bitmap's bit of that block number |
| DirFormat.LookupIsScan | ex5/bonus/fs.c:564-587 | the first matching record found by a scan is the map's binding, and there is none exactly when the map has none |
| DirFormat.RecordBytes | ex5/bonus/fs.h:60-63 | the 16 bytes of a record: the inode number, low byte first, and the name up to a NUL |
| DirFormat.PadKey | ex5/bonus/fs.c:556-559 | a name padded by strncpy compares equal to itself, up to 14 bytes |
| DirFormat.InsertEntry | ex5/bonus/fs.c:592-618 | a record with an absent name written in a free place adds exactly that binding and keeps names unique |
| DirFormat.RemoveEntry | ex5/bonus/sysfile.c:224-226 | a zeroed record removes exactly its name |
| DirFormat.MapSize | ex5/bonus/fs.c:572-576 | a directory has no more names than records |
| DirFormat.FreeWithin | ex5/bonus/fs.c:604-610 | the records before the first free one have names of their own, so they are no more than the names |
| Directory.Namecmp | ex5/bonus/fs.c:556-559 | equal exactly when the first 14 bytes agree up to a NUL |
| Directory.Dirlookup | ex5/bonus/fs.c:564-587 | is map lookup, with the record's offset, and its panics cannot happen |
| Directory.Dirlink | ex5/bonus/fs.c:592-618 | inserts a name in the first free record exactly when it is absent, the directory below its last record and the blocks for it are free; else the bytes are unchanged |
| Directory.ZeroEntry | ex5/bonus/sysfile.c:224-226 | deletes exactly one key, and its panic cannot happen |
| Directory.Isdirempty | ex5/bonus/sysfile.c:176-188 | true exactly when every record from the third on is free |
| LinkLaw.NewFile | ex5/bonus/sysfile.c:268-277 | ialloc with nlink 1 owes one entry |
| LinkLaw.Bump | ex5/bonus/sysfile.c:138-150 | nlink++ and its rollback keep the law with one entry more or less owed |
| LinkLaw.BumpExact | ex5/bonus/sysfile.c:149 | on the 16-bit field the law survives nlink++ exactly below 32767 |
| LinkLaw.Commit | ex5/bonus/sysfile.c:155-158 | a new entry in a live directory pays what is owed |
| LinkLaw.CommitExact | ex5/bonus/sysfile.c:155-158 | and it does so exactly when the directory has nlink > 0 |
| LinkLaw.LinkExact | ex5/bonus/sysfile.c:147-158 | both halves of link together keep the law exactly in a linked directory and below 32767 |
| LinkLaw.CreateFile | ex5/bonus/sysfile.c:268-304 | create of a file or device in a linked directory keeps the law |
| LinkLaw.CreateFileExact | ex5/bonus/sysfile.c:268-304 | and in no other directory does it |
| LinkLaw.CreateDir | ex5/bonus/sysfile.c:279-296 | mkdir in a linked directory keeps the law: the new ".." is the parent's extra link |
| LinkLaw.CreateDirExact | ex5/bonus/sysfile.c:279-296 | and in no other directory does it: an unlinked one comes back to life nameless |
| LinkLaw.DirLinksBound | ex5/bonus/sysfile.c:287-291 | a linked directory has no more links than names in it |
| LinkLaw.UnlinkFile | ex5/bonus/sysfile.c:224-238 | removing a file's name and one link keeps the law |
| LinkLaw.UnlinkDir | ex5/bonus/sysfile.c:224-238 | removing an empty directory takes one link from it and one from its parent, and keeps the law |
| LinkLaw.EmptyDirLinks | ex5/bonus/sysfile.c:218-238 | an empty directory has exactly one link, so unlink drops it to 0 |
| LinkLaw.Free | ex5/bonus/fs.c:357-367 | freeing an inode without links keeps the law |
| SysFile.Link | ex5/bonus/fs.c:592-618 | the same for the tree: exactly an absent name with room becomes an entry |
| SysFile.KeptInodes | ex5/bonus/sysfile.c:126-304 | what the contracts of the calls say of files means, inode by inode: type, device numbers and permissions stay, and of all but directories everything but the link count, contents included |
| SysFile.NewInode | ex5/bonus/sysfile.c:267-276 | the least free inode with one link and one reference, the device numbers given and permissions 0700; none exactly when none is free; no other file changes |
| SysFile.MakeNew | ex5/bonus/sysfile.c:267-304 | with room, the least free inode with its entry and one reference; exactly otherwise 0, and tree, files and references as they were |
| SysFile.RoomForDots | ex5/bonus/sysfile.c:289 | the nlink++ of mkdir cannot overflow: a directory's count is at most 17152 |
| SysFile.Furnish | ex5/bonus/sysfile.c:279-288 | "." and ".." and the name are written exactly when the disk has the blocks for both; else only the new inode has changed |
| SysFile.MakeDots | ex5/bonus/sysfile.c:279-283 | the two entries of a new directory, exactly when there is a block for them |
| SysFile.Discard | ex5/bonus/sysfile.c:298-304 | the failure exit gives the inode and its blocks back |
| InodeRefs.DroppedHeld | ex5/bonus/fs.c:349-374 | iput keeps: what is referred to is allocated, and an inode without links is allocated only while referred to |
| SysFile.UnlinkIn | ex5/bonus/sysfile.c:209-236 | exactly the removable names are removed, with one link, and the inode is freed with its last one if nobody else refers to it; no other file changes, nor what the removed name led to |
| SysFile.Detach | ex5/bonus/sysfile.c:224-235 | the record zeroed and the counts lowered, and every file as it was |
| SysFile.NamedIsLive | ex5/bonus/sysfile.c:216-217 | a name that is found leads to an inode with nlink >= 1: the panic cannot happen |
| SysFile.LinkBegin | ex5/bonus/sysfile.c:140-149 | the first locked section of link: nlink++ on 16 bits, with one entry owed; every file and every directory's room as it was |
| SysFile.LinkCommit | ex5/bonus/sysfile.c:153-158 | the second: exactly where the name is absent and has room, the entry, which pays in a linked directory |
| SysFile.LinkAbort | ex5/bonus/sysfile.c:165-172 | the rollback takes the link and what was owed back, whatever ran in between; every file as it was |
| SysFile.PutLocked | ex5/bonus/fs.c:349-374 | one reference less; inode and blocks freed exactly with the last reference to an inode without links; all other files as they were |
| SysFile.Iput | ex5/bonus/fs.c:349-374 | and the law and what the references hold are kept |
| SysFile.SetPermissions | ex5/bonus/sysfile.c:555-558 | the low nine bits of mode are stored; contents, tree and every other inode are unchanged |
| Path.FirstWord | ex5/bonus/fs.c:635-657 | a word before a slash or the end is the first component, cut to its first 14 bytes |
| Path.Skipelem | ex5/bonus/fs.c:635-657 | yields exactly the non-empty components of slash-splitting, each the first 14 bytes found past the slashes or all of a shorter word, and shortens the path each time |
| Path.NameiStep | ex5/bonus/fs.c:676-690 | the fold of directory lookups, one component at a time |
| Path.Enter | ex5/bonus/fs.c:676-690 | one round of the loop: lock, look up, move the reference to the child |
| Path.Namex | ex5/bonus/fs.c:664-696 | is the fold over all components, or all but the last; one net reference on success and none on failure |
| Path.AnchoredWalk | ex5/bonus/fs.c:673-689 | a walk from where climbing is safe is safe, and ends where climbing is safe |
| Path.ClimbPanics | ex5/bonus/fs.c:673-689 | if climbing meets a freed inode, a path of ".." and "." locks it |
| Path.WalkExact | ex5/bonus/fs.c:664-696 | no path from a directory panics, for namei and nameiparent, exactly when climbing from it never meets a freed inode |
| Path.LiveWalkSafe | ex5/bonus/fs.c:664-696 | so a walk from a directory that is still linked never locks a freed inode |
| Syscalls.SameWalk | ex5/bonus/fs.c:673-689 | link's nlink++ before its second walk does not change where that walk leads |
| Syscalls.LockParent | ex5/bonus/sysfile.c:202-207 | nameiparent and the lock: the directory, the last name, one reference to it; or nothing taken |
| Syscalls.SysUnlink | ex5/bonus/sysfile.c:191-245 | panics exactly when its walk does, else removes exactly a removable name or refuses; law and references as before; the file stays whole under its other names |
| Syscalls.LinkTo | ex5/bonus/sysfile.c:151-171 | the second half of link: exactly where the name is absent and has room, entry and link; else the rollback, and the tree as before the call |
| Syscalls.SysLink | ex5/bonus/sysfile.c:126-172 | succeeds exactly for a file and an absent name with room; one entry and link more, or nothing; references and all files as before; the law survives a success exactly when the directory is linked and the count has room |
| Syscalls.CreateIn | ex5/bonus/sysfile.c:258-304 | create in the locked directory: a file that is there, only when a file is asked for; for an absent name with room the least free inode; else 0 |
| Syscalls.SysCreate | ex5/bonus/sysfile.c:248-304 | the result on every path, and exactly when an inode is made: of that type, with those device numbers, empty, permissions 0700; only the inode returned gains a reference; all other files as before; the law survives exactly when nothing is made or the directory is linked |
| Syscalls.SysMkdir | ex5/bonus/sysfile.c:384-397 | returns 0 exactly when it has made the directory; references and all files as before |
| Syscalls.SysChdir | ex5/bonus/sysfile.c:420-442 | the new directory is referred to instead of the old, which is freed exactly if it was unlinked and nobody else refers to it; all files as before |
| Syscalls.SysChmod | ex5/bonus/sysfile.c:539-564 | the low nine bits of mode, at the inode the path leads to, and no other change |
| Syscalls.SysGetperm | ex5/bonus/sysfile.c:566-588 | the permissions stored for the inode the path leads to, and no change |
| Capacity.FreeAtLeast | ex5/bonus/fs.h:27-29 | no inode owns more than 269 blocks, so a disk with 269 for each and some more always has those free |
| Capacity.AlwaysFits | ex5/bonus/fs.c:604-617 | on such a disk a directory takes names up to 17152, whatever has happened before |
| Image.Consistent | ex5/bonus/fs.h:8-23 | the formatted image satisfies the ownership invariant: bitmap, inode table and pointers agree |
| Image.RootRecords | ex5/bonus/fs.h:60-63 | the root's block is a directory of "." and ".." |
| Image.Mount | ex5/bonus/fs.h:8-23 | the image is a consistent file system, lawful and empty but for its root |
| Reachable.MakeTop | ex5/bonus/sysfile.c:384-397 | mkdir on it succeeds, with inode 2 |
| Reachable.MakeBelow | ex5/bonus/sysfile.c:384-442 | so does mkdir in the new directory, and chdir there |
| Reachable.RemoveDirs | ex5/bonus/sysfile.c:191-245 | both are removed, the current one staying allocated and the one above it freed |
| Reachable.DeadCwdPanics | ex5/bonus/fs.c:664-696 | the whole program: every call succeeds, the tree stays lawful, and then "../." panics |
| Reachable.NextLink | ex5/bonus/sysfile.c:126-172 | another link of the file must succeed |
| Reachable.MoreMany | ex5/bonus/sysfile.c:147 | and keeps the law below 32767, and breaks it there |
| Reachable.LinkMany | ex5/bonus/sysfile.c:126-172 | a program of any number of links below that, each made and keeping the law |
| Reachable.OverflowReached | ex5/bonus/sysfile.c:147 | the whole program: 32767 links succeed, and the last leaves a count of -32768 and a tree that is not lawful |
| InodeCache.Itable.Iget | ex5/bonus/fs.c:255-285 | one pass finds the live entry or else the first empty one, and panics only when there is neither |
| InodeCache.LastRefUnlocked | ex5/bonus/fs.c:355-357 | with ref 1 and iput called, nobody else holds the sleep-lock |
| InodeCache.IgetStep | ex5/bonus/fs.c:255-285 | iget keeps the reference count of its slot and gets nothing that is locked by mistake |
| InodeCache.PutFrees | ex5/bonus/fs.c:353-367 | iput's freeing branch takes a free lock and keeps the table coherent |
| InodeCache.PutPerm | ex5/bonus/fs.c:349-374 | iput changes no permissions |
| InodeCache.LockStep | ex5/bonus/fs.c:287-339 | referring, loading, changing, storing and unlocking: each keeps its slot coherent |
| InodeCache.FreeingStep | ex5/bonus/fs.c:357-371 | and so does each step of iput from the freed inode to the dropped reference |
| InodeCache.RefsMoved | ex5/bonus/fs.c:255-374 | iget and idup give the thread one reference, to the inode asked for, iput takes one, and nothing else moves any |
| InodeCache.OnlyUnlinkedFreed | ex5/bonus/fs.c:353-367 | an inode becomes free on disk only by iput, without links and truncated |
| InodeCache.IputFrees | ex5/bonus/fs.c:353-371 | once iput has taken its freeing branch and left it, the inode is free on disk, whatever ran in between, until ialloc claims it again |
| InodeCache.ClaimSeen | ex5/bonus/fs.c:199-223 | what ialloc's caller reads under the lock is a fresh inode of the type asked for, even if the table still had an entry for its number |
| InodeCache.ModifyStored | ex5/bonus/fs.c:230-249 | what the holder wrote and stored is on disk and in the copy |
| InodeCache.StepCoherent | ex5/bonus/fs.c:198-374 | every step of every thread keeps the cache coherent, with itable.lock dropped in the middle of iput |
| InodeCache.CacheTheorem | ex5/bonus/fs.c:198-374 | in every interleaving: one live entry per inode, ref counts the references, an unlocked valid copy equals the disk, and permissions are the last given |
| InodeCache.CleanPerm | ex5/bonus/sysfile.c:580-582 | getperm under the lock returns the last chmod's mode & 0777, or 0700, after any eviction |
| Scheduler.MinAccIsMin | ex4/part1/proc.c:107-129 | the scan with its -1 sentinel computes the least active accumulator, or 0, and nothing else does |
| Scheduler.Cpu.GetMinAccumulator | ex4/part1/proc.c:107-129 | the same for the loop over the array |
| Scheduler.Cpu.Schedule | ex4/part1/proc.c:468-518 | dispatches the least (accumulator, index) among the runnable, and idles only when there is none |
| Scheduler.Cpu.WakeSleepers | ex4/part1/proc.c:605-622 | wakes exactly the sleepers on chan, each at the minimum of those active before the call |
| Scheduler.HalfWoken | ex4/part1/proc.c:605-622 | half-way through the loop that minimum has not moved |
| Scheduler.Cpu.ForkBegin | ex4/part1/proc.c:136-180 | the first unused slot is taken at the current minimum with priority 5, or put back when memory runs out |
| Scheduler.Cpu.UserTick | ex4/part1/trap.c:80-87 | the running process is charged its priority and is runnable again; nobody else changes |
| Scheduler.ChildLevel | ex4/part1/proc.c:152-157 | a new child starts level with the running parent |
| Scheduler.ForkFair | ex4/part1/proc.c:310-356 | both halves of fork keep the spread, whatever ran between them |
| Scheduler.CurFair | ex4/part1/trap.c:80-87 | charging and yielding, the uncharged yield, sleep, exit and a new priority keep it |
| Scheduler.Cpu.SetPsPriority | ex4/part1/sysproc.c:94-111 | accepts exactly 1 to 10, and stores what it was given in the caller and nowhere else |
| Scheduler.StepFair | ex4/part1/proc.c:310-622 | every step keeps the spread invariant |
| Fairness.SpreadTheorem | ex4/part1/proc.c:468-622 | over every run: accumulators never negative, the running one least, active ones at most 10 apart |
| Fairness.KillExact | ex4/part1/proc.c:628-646 | kill keeps the spread exactly when the sleeper's accumulator is in reach of the others |
| Fairness.KillBreaksSpread | ex4/part1/proc.c:636-639 | a run from boot after which it is not, and kill breaks the spread |
| Fairness.ProportionalShare | ex4/part1/trap.c:80-87 | two processes that stay active with priorities a and b: their ticks satisfy \|t*a - u*b\| <= 20 over any run |
| Fairness.StepPays | ex4/part1/proc.c:481-511 | every dispatch of another process is paid out of the waiting process's debt, which only an uncharged yield raises, by one |
| Fairness.WaitWithYields | ex4/part1/proc.c:481-511 | a runnable process among n active ones is dispatched before the others have had more than 11(n-1) dispatches and one for each uncharged yield |
| Fairness.BoundedWait | ex4/part1/proc.c:481-511 | so without uncharged yields, within 11(n-1) |
| Fairness.SomeoneBest | ex4/part1/proc.c:481-511 | if anyone is runnable, someone can be dispatched |
| Fairness.KernelYieldsStarve | ex4/part1/trap.c:160-161 | a run from boot in which a process waits through any number of dispatches, all yielded uncharged |
| ExitWait.StepOne | ex4/part1/proc.c:361-622 | every lock step keeps each process's locks, status and place in the code together |
| ExitWait.StepTwo | ex4/part1/proc.c:361-622 | and each parent and child: reparent leaves no child behind, wait passes no zombie, and a sleeping parent is woken or still to come |
| ExitWait.StepSound | ex4/part1/proc.c:361-622 | every lock step of exit, wait, fork, sleep, kill and any other wakeup keeps the protocol's invariant |
| ExitWait.Wakeable | ex4/part1/proc.c:605-622 | a process asleep on any other channel can be woken in every state, everyone else asleep included |
| ExitWait.KillWakes | ex4/part1/proc.c:628-646 | nobody sleeps on after kill |
| ExitWait.ForkGives | ex4/part1/proc.c:310-356 | fork hands over a child that can run and whose parent is the caller, whatever ran in between |
| ExitWait.ForkGivesBack | ex4/part1/proc.c:318-333 | when fork fails the slot is unused, unlocked and nobody's child again |
| ExitWait.NoLostWakeup | ex4/part1/proc.c:361-465 | with wait_lock free nobody sleeps in wait over a zombie child; a set parent is neither unused nor a zombie, and an unused slot has none |
| ExitCode.ProcTable.Wakeup | ex4/part1/proc.c:605-622 | wakes exactly the sleepers on chan, by steps of the protocol |
| ExitCode.ProcTable.Reparent | ex4/part1/proc.c:361-371 | every child of the process becomes init's, which is woken if there was one; nothing else changes |
| ExitCode.ProcTable.Exit | ex4/part1/proc.c:399-412 | every child's parent is init, init and parent are awake, the process a zombie, and no other field of any process changes: a run of the protocol |
| ExitCode.ProcTable.Look | ex4/part1/proc.c:430-454 | the scan stops at the least zombie child, and knows whether there is any child |
| ExitCode.ProcTable.Wait | ex4/part1/proc.c:421-465 | frees and returns the least zombie child, its slot unused and without parent or channel, fails without children, else sleeps: a run of the protocol with exactly this effect |
| ExitCode.ReapedThenFails | ex4/part1/proc.c:421-465 | a reaped child is nobody's, so after the only one the next wait fails |
| ExitCode.RunThen | ex4/part1/proc.c:361-465 | a run followed by an enabled step is a run |
| KernelSem.SemTable.Create | ex4/part2/sem.c:43-58 | takes the lowest free slot; -1 exactly when all are in use |
| KernelSem.SemTable.FreeSlot | ex4/part2/sem.c:62-90 | frees exactly a slot in use whose value is its first value |
| KernelSem.StepProc | ex4/part2/sem.c:95-140 | every step keeps: a sleeper under a positive value has a wakeup coming |
| KernelSem.SemaphoreTheorem | ex4/part2/sem.c:95-140 | the value is first + ups - downs and never negative; with the lock free and the value positive nobody sleeps or is about to |
| KernelSem.NobodyStranded | ex4/part2/sem.c:108-112 | with the value positive and the semaphore's lock free, a process in the middle of a call whose own lock is free can go on |
| SemCode.Semaphore.Up | ex4/part2/sem.c:121-140 | one more and every sleeper woken: a run of the protocol with exactly this effect |
| SemCode.Semaphore.Down | ex4/part2/sem.c:95-118 | one less, or asleep at zero: a run of the protocol with exactly this effect |
| BoundedBuffer.StoreAppends | ex3/BoundedBuffer.c:38-40 | storing at tail appends to the unread messages and overwrites none |
| BoundedBuffer.FetchDrops | ex3/BoundedBuffer.c:56-58 | advancing head drops the oldest |
| BoundedBuffer.EmptyTest | ex3/BoundedBuffer.c:91-96 | head == tail exactly for an empty or a full ring |
| BoundedBuffer.Ring.Insert | ex3/BoundedBuffer.c:34-45 | the contents grow by the message at the end |
| BoundedBuffer.Ring.Remove | ex3/BoundedBuffer.c:52-64 | the oldest message comes out |
| BoundedBuffer.Ring.TryRemove | ex3/BoundedBuffer.c:71-84 | NULL exactly when empty, else as Remove |
| BoundedBuffer.Room | ex3/BoundedBuffer.c:34-64 | a thread admitted by a semaphore has a free slot to fill, or a full one to empty |
| BoundedBuffer.StepSound | ex3/BoundedBuffer.c:34-96 | every step of every thread keeps the books and the ring |
| BoundedBuffer.RingTheorem | ex3/BoundedBuffer.c:34-84 | in every interleaving: counts in range, semaphores and in-flight operations sum to size, messages out in the order in |
| RingQueue.StepRefines | ex3/BoundedBuffer.c:34-84 | every step of the ring is one access to the pipeline's queue, or none; what comes out is its oldest message |
| RingQueue.TestsAlike | ex3/BoundedBuffer.c:91-96 | head == tail says of the ring what the queue's test says |
| RingQueue.BlocksAlike | ex3/BoundedBuffer.c:34-64 | a thread blocks on the ring's semaphores exactly where it blocks on the queue's |
| RingQueue.RefinementTheorem | ex3/BoundedBuffer.c:34-96 | every run of the ring, in any interleaving, is a run of the queue and ends in the queue the ring stands for |
| Pipeline.GivingMiddle | ex3/main.c:160-166 | a message goes to the queue of its own category |
| Pipeline.InsertOutput | ex3/main.c:79-85 | as many DONEs are on their way to the screen as co-editors have forwarded |
| Pipeline.StepSound | ex3/main.c:48-182 | every step of every thread keeps the network's invariant |
| PipelineFlow.StepConserved | ex3/main.c:48-182 | every step keeps each producer's messages of each category on the path, once and in order |
| PipelineFlow.AllDelivered | ex3/main.c:172-177 | when the screen manager is over, every queue and hand is empty |
| PipelineFlow.PipelineTheorem | ex3/main.c:48-182 | then each message made has been printed once, in order for each producer and category, nothing else has, and the one DONE is last |
| PipelineFlow.ExitTestExact | ex3/main.c:148 | isDone && isBufferEmpty holds exactly when nothing more will come from the producer |
| PipelineProgress.NoDeadlock | ex3/main.c:142-181 | before the end some thread has a step that is not an idle poll |
| PipelineProgress.PollAdvances | ex3/main.c:147-181 | a poll that can find something comes nearer to it |
| PipelineProgress.Progress | ex3/main.c:48-182 | every step but an idle poll decreases (work, poll distance), which are never negative |
| PipelineProgress.RunProgress | ex3/main.c:48-182 | no reachable deadlock, and at most 20 steps for each message and producer and 40 more, apart from polls |
| BufferedFile.BufferedFile.Prepend | ex2/buffered_open.c:92-142 | the file becomes the buffer followed by what was there |
| BufferedFile.BufferedFile.WriteFile | ex2/buffered_open.c:145 | byte by byte, the data where the descriptor stands and the old content everywhere else |
| BufferedFile.BufferedFile.Flush | ex2/buffered_open.c:83-154 | the pending bytes become one more chunk of the file, before or after the others |
| BufferedFile.BufferedFile.Write | ex2/buffered_open.c:157-183 | chunks flushed plus bytes pending are everything written; the loop ends |
| BufferedFile.BufferedFile.Read | ex2/buffered_open.c:186-223 | a read-only session gets the file's bytes in order, whatever the sizes asked for |
| BufferedFile.BufferedFile.Close | ex2/buffered_open.c:226-255 | the file holds the whole session |
| BufferedFile.UnflushedIsCut | ex2/buffered_open.c:163-180 | without a flush of its own a session's chunks are its data cut every 4096 bytes |
| BufferedFile.LastBlockFirst | ex2/buffered_open.c:92-142 | the last block of a long preappend session comes out first |
| BufferedFile.PrependExact | ex2/buffered_open.c:92-142 | preappending works for all data of a length exactly up to 4096 bytes |
| BufferedFile.Session | ex2/buffered_open.c:11-255 | open, any writes, close, by mode: data + original, original + data, or byte for byte the data over the start and the original behind it |

## Left out

- Path.Namex: the reference counts are one multiset without a bound, not the array of NINODE entries; InodeCache has the array, iget's panic when it is full, and the valid flag, which every inode that these calls free has set by having been locked.
- Syscalls.SysUnlink: like every call here that walks a path, without the panic of iget when all NINODE entries of the table are in use; InodeCache.Itable.Iget has it.
- Syscalls.SysCreate: the same, for SysMkdir too.
- Syscalls.SysLink: the same; and its two locked sections run one after the other here: that other calls keep the law between them is what the pending counts in every contract say.
- BufferedFile.BufferedFile.Write: takes operating-system writes as complete; short writes and failed allocations are not modelled.
- BufferedFile.BufferedFile.Read: sessions that only read; when reads and writes mix, read-ahead moves the descriptor and flush does not move it back.
- ExitCode.ProcTable.Exit: runs with nobody else in a locked section, and without closing files; interference is ExitWait's subject.
- ExitCode.ProcTable.Wait: likewise, and it ends where it goes to sleep; the scan after waking is a call of its own.
- SemCode.Semaphore.Down: likewise; KernelSem has the interference.
- Pipeline.StepSound: the thread bodies of ex3/main.c are transition functions, because each can block in the middle of its loops; their queues are the unread messages of the ring, which RingQueue justifies.
- InodeCache.StepCoherent: the inode operations are transition functions for the same reason, on whole inodes; the blocks that itrunc frees are in FileSystem. Each thread owns its references: those of an open file shared between processes, or handed to a child by fork, are not modelled.
- Fairness.BoundedWait: the scan of the table is one step, though interrupts can come between its locks until it has found a first candidate.
- The log, the buffer cache, crash recovery, spinlocks, sleep-locks and mkfs: not part of this model.
- Multi-CPU liveness: the lock order of get_min_accumulator is not modelled, and the fairness results are for one CPU.
- O_PREAPPEND together with O_APPEND.
- check_permission, open-file modes, exec, pipes, page tables, and traps and interrupts beyond the timer.
- Producers that fail to allocate a message, config parsing, thread creation and pauses in ex3.
- The tree copier of ex5 and the other programs of ex2.
