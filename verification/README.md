# Verified model of the TrueOS kernel

TrueOS is a small 32-bit kernel. This project models the parts of it whose correctness spans many
functions and proves, for every input and every run, that they do what they are for.

* **File system** (`fs/`). The disk is a map from sector numbers to 512 bytes. Files have twelve direct
  blocks and one indirect table, directories are arrays of 24-byte slots, and bitmaps say what is free.
  `FileSystem` runs create, mkdir, unlink, rmdir and write on such a disk, `PathOps` their forms by path, and
  `FsRuns` any list of them. They refine a map from inodes to byte strings and a tree of names, and no
  block is lost or shared. `Getcwd` goes up the tree on disk and undoes what `PathWalk` resolved going down;
  `CwdRuns` follows a working directory over runs.
  `InodeTable` packs 76-byte records over sector borders, `BitmapSync` is the bitmap on disk beside the one in
  memory, and `Remount` reads back what the calls have synced.
* **Memory** (`kernel/memory.c`, `userprog/fork.c`, `userprog/process.c`). `Paging` is the 32-bit walk of section
  4.3 of the Intel SDM Volume 3A; `PageSpace` and `PageAlloc` keep virtual bits, page tables and frame pools
  in agreement through the self-mapped directory, starting from `KernelSpace`, and `Frames` counts the frames;
  `ForkCopy` copies an address space; `HeapPages`, `HeapState`, `HeapAlloc`, `HeapOps` and `HeapRuns` are the
  arena allocator on top of it.
* **Threads** (`thread/`). `Scheduler` has the ready list; `Locks` interleaves the steps of
  `sema_down`, `sema_up`, `lock_acquire` and `lock_release`, including those taken with interrupts on.
* **Processes** (`userprog/wait_exit.c`). `Processes` covers fork, exit, wait, adoption by init and pid
  reuse, `ProcessLaws` what whole runs of them come to.
* **Pipes** (`device/ioqueue.c`, `shell/pipe.c`). `IoQueue` is the ring buffer, `PipeTable` counts
  descriptors, `PipeRuns` follows the counts over runs, and `PipeLaws` has the round trips, the shell's pipeline
  among them.
* **Base** (`lib/kernel/`). `Bitmaps` works on bytes against a sequence of bits, `List` on links against a
  sequence of elements. All allocators scan through `Bitmaps.ScanBits`; the scheduler's ready list is a `List`.

How to read it. Code that changes state in place is a class whose methods name the new state; each class
has a ghost snapshot (`V()`, `W()`, `S()`, `H()`) and the promises are predicates on snapshots (`Creates`,
`MakesDir`, `Unlinks`, `RemovesDir`, `Writes`, `Waits`, `GetsPiece`, `GivesPiece`, ...). The runs of `HeapRuns`,
`Scheduler`, `Locks`, `Processes`, `PipeRuns` and `CwdRuns` are sequences of such changes, and that they keep the
invariants is proved from the changes. `FsRuns.Perform` executes a list of calls on the disk; the runs in `FsRuns`
are those of a small machine on names and bytes alone, which Perform refines. A panic or a failed assertion is an
outcome (`Stopped`, `Halted`, `Panic`, or a flag) whose condition the contract states; the state after it is
not described. So is work beyond what the code can do (`Beyond`, `Overrun`, `Wild`): a directory of 252
entries and more, and sizes that 32 bits do not hold.

Where the code does not meet its evident purpose, the code is kept and the exact condition is proved:
`Bitmaps.ScanStaysInside` (the bit past the end), `Format.OffersTooMuch` (one bit too many after a format),
`FileIo.FileWrite` and `FileIo.FileRead` (the size limits of the assertions), `DotRemoval.RmdirSound` (rmdir of
"."), `PathLaws.UnlinkedIsNamed` (a regular file inside a path), `Getcwd.NamelessChdir` (chdir to "//"),
`CwdRuns.RunExact` (a working directory removed), `PipeRuns.RunExact` (counts of pipes that go wrong),
`InodeTable.OneSectorBuffer` (a buffer too small for two sectors), `BitmapSync.WrittenExact` (a bit that is not
synced) and `Processes.RunStuck` (a waiting init is not woken by a zombie it adopts). `PathCases`,
`Format.OffersOneMore`, `BitmapSync.StaleCase` and `Processes.StuckRun` are concrete cases.

`dafny verify dfyconfig.toml` checks everything.

## Model

| member | source | states |
|---|---|---|
| Bitmaps.Bitmap.constructor | lib/kernel/bitmap.c:6-8 | the bitmap is a byte length and a pointer into memory that goes on behind the last byte |
| Bitmaps.Bitmap.Init | lib/kernel/bitmap.c:6-8 | every bit of the bitmap is clear afterwards and the memory behind it is untouched |
| Bitmaps.Bitmap.Test | lib/kernel/bitmap.c:18-22 | shift and mask on bytes read exactly bit i of the bit sequence |
| Bitmaps.Bitmap.Set | lib/kernel/bitmap.c:70-79 | or-ing and and-ing a byte changes exactly one bit of memory |
| Bitmaps.Bitmap.Scan | lib/kernel/bitmap.c:25-67 | the byte-skipping scan answers: panic exactly when every bit is set; for one bit the least clear bit; for more the least run of clear bits in the bitmap followed by the one bit behind it, or -1 exactly when there is none |
| Bitmaps.ScanSpecUnique | lib/kernel/bitmap.c:25-67 | that answer is determined by the bits: no other result meets the specification |
| Bitmaps.ScanStaysInside | lib/kernel/bitmap.c:47-65 | the answer is right for the bitmap alone if and only if the bit behind the end is set, or cnt is 1, or no run of cnt - 1 clear bits ends the bitmap while no run of cnt exists inside it |
| Bitmaps.Bitmap.Allocate | kernel/memory.c:65-95 | scan and mark: the run found becomes used and no other bit of memory changes; a scan that strays marks the bit behind the end, and one that does not is exact for the bitmap: the least run, or failure exactly when there is none |
| Bitmaps.ScanBits | lib/kernel/bitmap.c:25-67 | the scan as the page, frame, block, inode and pid allocators use it: panic exactly when full, -1 exactly when no run exists, else the least run |
| Bitmaps.RunsDisjoint | kernel/memory.c:65-95 | runs allocated one after the other are disjoint |
| List.Memory.Init | lib/kernel/list.c:5-10 | two sentinels linked to each other are the empty list |
| List.Memory.InsertBefore | lib/kernel/list.c:13-21 | inserting before an element puts it at exactly that place of the sequence, in both directions, and writes no link outside the list |
| List.Memory.Push | lib/kernel/list.c:24-26 | the element becomes the first; no link outside the list is written |
| List.Memory.Append | lib/kernel/list.c:29-31 | the element becomes the last; no link outside the list is written |
| List.Memory.Remove | lib/kernel/list.c:34-39 | the element, and no other, leaves the sequence; no link outside the list is written |
| List.Memory.Pop | lib/kernel/list.c:42-46 | the first element is returned and the rest is the list; no link outside the list is written |
| List.Memory.Empty | lib/kernel/list.c:92-94 | true exactly for the empty sequence |
| List.Memory.Find | lib/kernel/list.c:49-57 | true exactly for the members of the sequence |
| List.Memory.Length | lib/kernel/list.c:81-89 | the number of elements |
| List.SameList | lib/kernel/list.c:5-10 | next and prev links determine the sequence: two readings of the same links are equal |
| List.OtherListStays | lib/kernel/list.c:13-39 | so every list that shares no element with the one changed stays the same sequence |
| Format.BlockBitmap | fs/fs.c:131-149 | the bits written by the format: which are set, for every position of the bitmap sectors |
| Format.OffersTooMuch | fs/fs.c:131-149 | the format marks a block free that does not exist if and only if the bitmap does not fill its last sector and the second estimate of its sectors equals the first |
| Format.OffersOneMore | fs/fs.c:131-149 | a case: on 5000 sectors there are 4387 data blocks, and bit 4387 is clear |
| Format.StartsAs | fs/fs.c:131-149 | what is written is the bitmap of a fresh partition of as many blocks as the format offers, the extra one included, with set bits behind it |
| Format.TailNeverTaken | fs/file.c:58-66 | those set bits are never allocated, whatever has become of the bits in front |
| BitmapSync.StoredExact | fs/file.c:69-87 | a bit that is changed and synced at once leaves the bitmap on disk right |
| BitmapSync.TableExact | fs/file.c:320-361 | situation 2 of file_write leaves it right if and only if the two least clear bits, the table's and that of the first block after it, share a sector of the bitmap |
| BitmapSync.WrittenExact | fs/file.c:254-386 | a whole write leaves it right if and only if it creates no table or these two bits, counted after a first block, share a sector |
| BitmapSync.StaleCase | fs/file.c:320-361 | a case: the last free bit of a sector goes to the table, and the first of the next sector to the block after it |
| Partitions.Partition.SyncBlock | fs/file.c:69-87 | exactly the sector of the bitmap that holds the bit is copied to disk |
| Volume.OneHolder | fs/file.c:58-66 | while the books balance, a block belongs to at most one slot of at most one inode |
| Volume.Claim | fs/file.c:58-66 | giving a block whose bit is clear to a slot keeps the books balanced |
| Volume.Release | fs/inode.c:179-201 | clearing the bit of a slot's block keeps the books balanced |
| Partitions.FormattedSound | fs/fs.c:82-190 | a fresh partition is sound: one inode, one block, everything else free |
| Partitions.Partition.BlockAlloc | fs/file.c:58-66 | succeeds exactly when a block is free, takes the least one, and the books still balance |
| Partitions.Partition.InodeAlloc | fs/file.c:49-55 | the least free inode number becomes an empty inode; the kernel stops exactly when none is free |
| FileIo.AllocBlocks | fs/file.c:302-319 | the allocation loop succeeds exactly when enough blocks are free, fills exactly the slots from the old to the new count, collects their addresses, and takes and syncs the least clear bits one by one |
| FileIo.FirstBlock | fs/file.c:254-266 | the first write takes one block for slot 0 or stops for lack of one |
| FileIo.GrowDirect | fs/file.c:293-319 | direct case: needs exactly the missing blocks; the collected list agrees with the inode |
| FileIo.GrowMixed | fs/file.c:320-361 | mixed case: needs one block more, for the table, whose bit is taken first and not synced; the table on disk then lists the indirect blocks |
| FileIo.GrowIndirect | fs/file.c:362-385 | indirect case: the table is read, extended and written back without changing earlier entries |
| FileIo.Collect | fs/file.c:276-386 | whichever case applies, success exactly when the cost difference is free, and every slot a write will touch is collected |
| FileIo.WriteLoop | fs/file.c:389-413 | the read, patch and write loop over sectors turns the spelled bytes b into b + buf for every alignment of start and end |
| FileIo.FileWrite | fs/file.c:220-418 | appends exactly buf at i_size in all three cases, leaves every other file alone, and takes exactly the needed blocks, the least clear ones, each synced to disk but for that of a new table; afterwards fd_pos is one before the end of the file; refused exactly when the new size, in 32 bits, is too large; stops exactly at the limit or for lack of blocks |
| FileIo.CollectRead | fs/file.c:452-493 | all addresses from the first to the last block of a read are those of the inode, through the table where needed |
| FileIo.ReadLoop | fs/file.c:498-513 | the copied bytes are the slice of the file |
| FileIo.FileRead | fs/file.c:421-518 | returns exactly the bytes from fd_pos on, as many as asked for and fewer only at the end of the file, and leaves fd_pos behind them; end of file, stopping, and a count so large that the sum wraps, each exactly when their condition on count and size holds |
| FileIo.WriteThenRead | fs/file.c:220-518 | a write and then a read on the same descriptor, for counts that do not wrap: the read returns the last byte written and ends at the end of the file, and stops exactly when the file reaches into the last block |
| InodeOps.FreeBlocks | fs/inode.c:167-201 | the loop gives back every block of the list and the table block, nothing else, and the books balance; the bitmap on disk stays right |
| InodeOps.InodeRelease | fs/inode.c:163-217 | the partition is sound without the inode, and the number of free blocks grew by exactly the blocks it had |
| Directories.SearchDirEntry | fs/dir.c:28-89 | finds an entry exactly when the name is bound, and then that entry |
| Directories.SyncDirEntry | fs/dir.c:110-207 | with fewer than 252 live entries: fails exactly when a block is needed and none is free; otherwise the directory is the old one with the entry added in the first free place, its size 24 more, and nothing else changed |
| Directories.InsertNames | fs/dir.c:110-207 | seen as a map from names to entries, insertion adds exactly one binding |
| Directories.DeleteDirEntry | fs/dir.c:210-324 | removes the entry of that inode, giving its block back when it was the last of a block other than the first; not found exactly when there is no such entry, and then nothing changed |
| Directories.DeleteNames | fs/dir.c:210-324 | seen as a map, deletion removes exactly one binding |
| Directories.DirRead | fs/dir.c:327-379 | at position 24n: the n-th live entry and the next position, or nothing past the end |
| Directories.ListDirectory | fs/dir.c:327-379 | reading until nothing comes lists each live entry exactly once, in order |
| Directories.DirIsEmpty | fs/dir.c:382-386 | the size comparison is true exactly when two entries are live |
| Directories.EmptyDirHasOneBlock | fs/dir.c:392-396 | an empty directory has only its first block, so the all-zero assertion holds |
| NewDirs.NewDirAt | fs/fs.c:588-604 | the sector sys_mkdir writes is a directory in good order with "." and ".." only |
| DirTree.AddChild | fs/fs.c:606-615 | a new child under an existing directory keeps the directories a tree with unique names, references and growing depth |
| DirTree.RemoveChild | fs/dir.c:403-407 | removing a file or a childless directory keeps the tree a tree |
| DirTree.AddThenRemove | fs/fs.c:478-646 | adding and removing the same child gives the old tree |
| FsState.FormattedOk | fs/fs.c:82-190 | a formatted partition satisfies the whole invariant: disk, bitmaps, files, directories and tree agree |
| FsState.AddedOk | fs/file.c:90-175 | the invariant survives the entry of a new inode into a directory |
| FsState.WithoutOk | fs/fs.c:478-525 | the invariant survives the removal of an inode and its entry |
| FsState.WrittenOk | fs/file.c:220-418 | the invariant survives a write |
| FileSystem.Mounted.constructor | fs/fs.c:82-190 | format and mount establish the invariant, for any number of blocks the bitmap offers, with the root's record in the inode table |
| FileSystem.Mounted.Create | fs/file.c:90-175 | refused exactly when the name is taken; stops exactly when no inode, or no block for the entry, is left; not followed exactly when the direct blocks of the directory are full; else the tree has one new empty file and the invariant holds |
| FileSystem.Mounted.Mkdir | fs/fs.c:528-646 | as for a file, with one block more and "." and ".." in place |
| FileSystem.Mounted.Unlink | fs/fs.c:478-525 | removes the name and all blocks of a regular file that is not open; stops exactly when the name leads to the root; refused in every other case with nothing changed |
| FileSystem.Mounted.Rmdir | fs/fs.c:696-723 | removes an empty directory; refused when it has children; the dot names are taken through the code as they are |
| FileSystem.Mounted.Write | fs/file.c:220-418 | the tree is unchanged, the file has exactly buf appended, the whole invariant holds, and the inode is synced; the block bitmap on disk stays right if and only if the write does not leave the bit of a new table stale |
| FileSystem.Mounted.CreateNew | fs/file.c:136-149 | after the entry is made the two inodes it changed are synced, and no others have changed: inode table and inode bitmap on disk are as in memory; so is the block bitmap, of which every changed bit was synced |
| FileSystem.Mounted.MkdirNew | fs/fs.c:611-623 | likewise for a directory |
| FileSystem.Mounted.Erase | fs/dir.c:312-318 | likewise for a removal: the parent is synced, the record of the released inode zeroed, every freed bit synced |
| FileSystem.EmptyIsChildless | fs/dir.c:382-386 | the size test of a directory is equivalent to having no children in the tree |
| FileSystem.BlockNotFirst | fs/fs.c:584-585 | the first data block is the root's for ever, so the assertion that an allocated bit index is not 0 holds |
| DotRemoval.DanglingIsBroken | fs/fs.c:696-723 | removing "." leaves an entry that leads to a freed inode: the invariant fails for every reading of the result |
| DotRemoval.RmdirSound | fs/fs.c:696-723 | a successful sys_rmdir keeps the invariant if and only if the name is not "." |
| Accounting.BitsAreBlocks | fs/inode.c:163-217 | a bit of the block bitmap is set exactly when some live inode, the root included, holds that block, and then exactly one slot of one inode does |
| Accounting.NothingLeaks | fs/inode.c:163-217 | free blocks plus the blocks of all live inodes are all blocks |
| Accounting.FileBlocks | fs/file.c:254-386 | a file holds exactly the blocks its size needs, plus the table block from the thirteenth on |
| Accounting.UnlinkGivesBack | fs/fs.c:478-525 | unlink gives back exactly the blocks that creating and writing the file took |
| Accounting.RootAlone | fs/dir.c:273-308 | when the root is alone again it holds one block only |
| Accounting.BlankAgain | fs/fs.c:131-149 | when everything has been removed the bitmap is that of a fresh partition |
| PathOps.WalkEnd | fs/fs.c:252-282 | the search ends in the directory that the names before the last one looked up lead to |
| PathOps.PathDepth | fs/fs.c:210-226 | the number of names of a path |
| PathOps.LastComponent | fs/fs.c:343-343 | what strrchr leaves behind the last slash is the last name |
| PathOps.SysMkdir | fs/fs.c:528-646 | makes the directory in the directory that the names before the last lead to, exactly when they lead to one and the last is free there; refused otherwise with nothing changed |
| PathOps.SysCreate | fs/fs.c:292-353 | likewise for a regular file; a path that ends with a slash is refused |
| PathOps.SysUnlink | fs/fs.c:478-525 | removes the entry at which the search ended; stops exactly when that is the root |
| PathOps.SysRmdir | fs/fs.c:696-723 | likewise for a directory |
| PathOps.SysOpen | fs/fs.c:292-353 | opens exactly the regular files a path names with all names before the last leading to directories |
| PathOps.SysWrite | fs/fs.c:384-413 | the bytes go to the end of the file the path names |
| PathOps.SysRead | fs/fs.c:416-474 | after a seek from the start, exactly the bytes of the named file from that offset on, as many as asked for and fewer only at the end of the file; an offset outside the file leaves the position at the start |
| PathOps.FileReached | fs/fs.c:267-277 | a path that leads to a regular file leads to the one it names exactly when no regular file stands on the way |
| PathLaws.UnlinkedIsNamed | fs/fs.c:478-525 | sys_unlink removes the file its path names if and only if no regular file stands on the way; with one on the way it removes that one |
| PathCases.FileInTheWay | fs/fs.c:478-525 | a case: on a fresh partition "/a" is created, and sys_unlink of "/a/b" then removes "/a" |
| PathCases.DotRemoved | fs/fs.c:696-723 | a case: on a fresh partition "/a" is made, and sys_rmdir of "/a/." breaks the invariant |
| PathCases.CwdRemoved | fs/fs.c:696-723 | a case: on a fresh partition a process makes "/a", goes there, and sys_rmdir of "/a" takes the directory away under it |
| PathLaws.MadeIsFound | fs/fs.c:229-289 | after something was made under a path, the path leads to it |
| PathLaws.GoneIsMissing | fs/fs.c:229-289 | after a file or directory was removed by a path, the path leads nowhere |
| FsRuns.Issue | fs/fs.c:292-723 | one call by path keeps the whole invariant, the size of the data area and the agreement of inode table and inode bitmap on disk with memory, keeps that of the block bitmap if and only if it is not a write that leaves the bit of a new table stale, and does to names and files exactly what the small machine says |
| FsRuns.Perform | fs/fs.c:292-723 | any list of creates, mkdirs, unlinks, rmdirs, writes and reads by path, on the disk: the invariant holds until the kernel stops, and names and files go through a run of the small machine; free blocks and the blocks of live inodes add up to the same number as before; from a bare root to a bare root the block bitmap is the same; inode bitmap and inode table read back give exactly the inodes in memory; and the block bitmap on disk is the one in memory all along if and only if no write leaves the bit of a new table stale |
| FsRuns.EffectKeeps | fs/fs.c:292-723 | each call that the machine has, which is every one but the rmdir of a path that ends in ".", keeps the names a tree, the names proper path components, and exactly the regular files with bytes |
| FsRuns.RunKeeps | fs/fs.c:292-723 | so in every state of every run of such calls |
| FsRuns.FreshKept | fs/fs.c:82-190 | and a fresh partition starts that way |
| FsRuns.RunConserves | fs/inode.c:163-217 | what Perform keeps: between any two sound states of one partition free blocks and the blocks of live inodes add up to the same number |
| FsRuns.RunGivesBack | fs/inode.c:163-217 | what Perform gives back: any two sound states of one partition with nothing but the root have the same bitmap |
| FsRuns.FileHistory | fs/file.c:220-418 | over every run of such calls in which it is not removed, a file's bytes are its first bytes followed by exactly what was written to it, by whatever paths |
| FsRuns.ReadBack | fs/file.c:421-518 | a read after any such run returns the part asked for of exactly those bytes, all of it unless the file ends first |
| FsRuns.WrittenIsRead | fs/file.c:220-518 | what was just appended is, all of it, what a read at the old end of the file returns; a read from the start returns everything, and one behind the end starts over |
| Paths.PathParse | fs/fs.c:193-207 | splits off the first component; the rest has the remaining components |
| Paths.WashStep | shell/buildin_cmd.c:24-46 | one pass of the loop edits the string as push or pop edits the stack |
| Paths.WashPath | shell/buildin_cmd.c:11-53 | the output is the rendering of the stack the components fold to |
| Paths.ComponentsOfRender | shell/buildin_cmd.c:11-53 | splitting inverts rendering for every stack of proper names |
| Paths.WashedIsClean | shell/buildin_cmd.c:11-53 | no ".", ".." or empty component is left, and washing twice is washing once |
| Paths.WashedEnds | shell/buildin_cmd.c:11-53 | the result starts with a slash and ends with one only when it is "/" |
| PathWalk.LookupName | fs/dir.c:28-89 | search in a directory on disk is lookup in the tree |
| PathWalk.SearchFile | fs/fs.c:229-289 | the walk over directories on disk finds what resolving the components in the tree finds, with the same parent; and the same failures |
| PathWalk.WalkNames | fs/fs.c:229-289 | walking components from a directory folds them over the names that lead to it |
| PathWalk.ResolvedIsWashed | fs/fs.c:229-289 | whatever path leads to a directory, the names down to it are the washed path |
| PathWalk.NamesLeadThere | fs/fs.c:229-289 | the names down to a directory resolve to it |
| PathWalk.AddedProper | fs/fs.c:292-353 | a name made of a path component keeps all names proper |
| Getcwd.ParentNr | fs/fs.c:726-737 | the second entry of the first block is the parent in the tree |
| Getcwd.OnlyItsEntry | fs/fs.c:741-780 | only one entry of the parent has the child's number, so the scan cannot stop at another name |
| Getcwd.ChildName | fs/fs.c:741-780 | the scan of the parent finds the child's own name |
| Getcwd.Climb | fs/fs.c:811-818 | the walk up terminates at the root and collects the names last one first |
| Getcwd.Reverse | fs/fs.c:824-829 | cutting at the last slash again and again puts the names in order |
| Getcwd.Process.GetCwd | fs/fs.c:785-832 | the path of the current directory, or failure exactly when it is longer than the buffer |
| Getcwd.Process.Chdir | fs/fs.c:835-850 | moves exactly when the path leads to a directory |
| Getcwd.ChdirThenGetcwd | fs/fs.c:785-850 | after a successful sys_chdir on a path that names something, sys_getcwd returns s if and only if s is the washed path |
| Getcwd.NamelessChdir | fs/fs.c:229-289 | for a path of slashes only, other than "/", sys_chdir goes to whatever number is left in the search record, and the law holds if and only if that is the root |
| Getcwd.Process.constructor | thread/thread.c:136-136 | a new process starts at the root |
| CwdRuns.EffectDirs | fs/fs.c:292-723 | a call, the rmdir of "." aside, adds or removes exactly the directory it made or removed |
| CwdRuns.RmdirTakes | fs/fs.c:696-723 | for every sys_rmdir of a sound file system that does not stop the kernel, the rmdir of "." included: the inode of a directory is live afterwards if and only if the path does not lead, by its own name or by ".", to it while it has no children |
| CwdRuns.RmdirStops | fs/fs.c:696-723 | it stops the kernel if and only if the path leads to the root |
| CwdRuns.EventExact | fs/fs.c:696-850 | for every file-system call by any process, the rmdir of "." included, and every sys_chdir of this one: its working directory has a live inode afterwards if and only if the call is not a sys_rmdir that leads to it, by name or by ".", while it is empty, and the path is not one of slashes alone that leads elsewhere |
| CwdRuns.RunExact | fs/fs.c:696-850 | over every run, which ends with the first directory that is released by ".", the working directory is a live directory all along, as sys_getcwd needs it, if and only if no event of the run is such a one |
| CwdRuns.Take | fs/fs.c:292-850 | one call or sys_chdir on the disk is one such event, and says which directories have a live inode afterwards |
| CwdRuns.Follow | fs/fs.c:292-850 | any list of calls and sys_chdirs on the disk, until the kernel stops or a directory is released by ".", is such a run; the process is in a live directory all along if and only if no event strays, and at the end that is what the disk and cwd_inode_nr say |
| InodeTable.Locate | fs/inode.c:20-40 | the sector and offset are those of record no, the two-sector flag is exact, and no record leaves the 608 sectors |
| InodeTable.OneSectorBuffer | fs/inode.c:20-70 | a buffer of one sector, as file_write hands to inode_sync, holds the sectors of record no if and only if 19 * no modulo 128 is below 110; inode 6 is the first for which it does not |
| InodeTable.Table.Sync | fs/inode.c:44-70 | exactly the 76 bytes of the record change on disk, whether or not it crosses sectors |
| InodeTable.Table.Delete | fs/inode.c:136-160 | exactly the 76 bytes of the record become zero |
| InodeTable.Table.Open | fs/inode.c:73-117 | an inode not in the list is read from its record with count 1; one in the list counts one more and keeps everything else |
| InodeTable.Table.Close | fs/inode.c:120-133 | counts one less, and the last close takes it off the list |
| InodeTable.ImageRoundTrip | fs/inode.c:44-70 | reading back the bytes of an inode gives the same number, size and sectors, count 0 and no write lock |
| InodeTable.RecordsAfter | fs/inode.c:44-70 | writing one record leaves every other record as it was |
| InodeTable.ReadRecord | fs/inode.c:98-107 | what is read at the located place is the record |
| InodeTable.SyncThenOpen | fs/inode.c:44-117 | after any run of record writes, an uncached open returns what the last sync of that inode stored, with count 1 and write_deny false |
| InodeRecords.Sync | fs/inode.c:44-70 | the record of the inode is on disk, and every record that was on disk still is |
| InodeRecords.Delete | fs/inode.c:136-160 | the 76 bytes of the record are zero, and every other record that was on disk still is |
| InodeRecords.StoredIsLoaded | fs/inode.c:44-107 | what is read from a stored record, over one sector or two, is the inode |
| Remount.SyncedRemounts | fs/inode.c:73-117 | if the records of all live inodes and the inode bitmap are on disk, reading the record of every number that the bitmap on disk marks gives exactly the inodes in memory |
| IoQueue.Length | device/ioqueue.c:79-87 | the length is the distance from tail to head: 0 exactly when empty, 2047 exactly when full, never more |
| IoQueue.RingPut | device/ioqueue.c:64-77 | storing at head appends one byte to the contents |
| IoQueue.RingGet | device/ioqueue.c:46-61 | loading at tail takes the first byte off the contents |
| IoQueue.Queue.PutChar | device/ioqueue.c:64-77 | appends the byte and wakes the waiting consumer, or waits exactly when 2047 bytes are held; what was read stays a prefix of what was written |
| IoQueue.Queue.GetChar | device/ioqueue.c:46-61 | takes the first byte and wakes the waiting producer, or waits exactly when empty |
| IoQueue.Queue.PipeRead | shell/pipe.c:38-55 | returns the first min(count, length) bytes and never waits |
| IoQueue.Queue.PipeWrite | shell/pipe.c:58-74 | finishes without waiting exactly when the bytes fit into 2047 minus the length; otherwise that many bytes are in, exactly one more is to follow, and the writer waits |
| IoQueue.Queue.PipeWriteRest | shell/pipe.c:66-73 | a woken writer puts its last byte and is done, or waits again exactly when the ring is full again |
| IoQueue.Queue.ReadThenRest | shell/pipe.c:38-74 | a read of at least one byte from a full ring wakes the waiting writer, which then finishes: everything is read in the order written |
| Scheduler.Cpu.Schedule | thread/thread.c:174-206 | one thread is running again and the ready list is exact |
| Scheduler.Cpu.ThreadBlock | thread/thread.c:209-216 | the running thread is left in the state asked for and the first of the ready list runs, idle if it is empty |
| Scheduler.Cpu.ThreadUnblock | thread/thread.c:219-230 | the thread is READY at the front of the list, everybody else one place further back; nothing else changes |
| Scheduler.Cpu.ThreadYield | thread/thread.c:235-243 | the running thread goes to the end of the list and the first of the list runs |
| Scheduler.Cpu.ThreadStart | thread/thread.c:142-154 | a new thread is READY at the end of the list, and nothing else changes |
| Scheduler.Cpu.ThreadExit | thread/thread.c:334-362 | the thread is gone; if it was the running one, the first of the list runs |
| Scheduler.NextOk | thread/thread.c:174-206 | schedule never pops an empty list, and when it wakes idle, idle is asleep so the assertion holds |
| Scheduler.StepOk | thread/thread.c:142-243 | every event keeps exactly one RUNNING thread and a ready list of exactly the READY threads without duplicates |
| Scheduler.YieldIs | thread/thread.c:174-243 | a yield and a clock interrupt do the same: the running thread goes behind all that are ready, and the first of them runs |
| Scheduler.BlockIs | thread/thread.c:209-216 | the running thread is left in the state asked for and another runs, except that idle runs on when nobody is ready |
| Scheduler.RemoveIs | thread/thread.c:334-362 | the end of another thread takes exactly its entry from the ready list, the order of the others kept |
| Scheduler.WokenRunsNext | thread/thread.c:174-230 | a block, an exit, a yield or a clock interrupt right after a wake puts the woken thread on the CPU |
| Scheduler.RunOk | thread/thread.c:142-243 | so in every state of every run |
| Scheduler.BlockedStays | thread/thread.c:209-230 | in every run a thread other than idle that blocked is in the state it asked for until it is woken or removed |
| Scheduler.PlaceAfter | thread/thread.c:174-243 | exactly how one event moves a READY thread: back by a wake, forward by a schedule or by the removal of a thread before it, otherwise not at all |
| Scheduler.Dispatched | thread/thread.c:174-243 | a READY thread at index k runs within k + u + 1 schedules, u being the unblocks in between |
| Locks.DoOk | thread/sync.c:22-81 | every step of every thread, the windows with interrupts on included, keeps the invariant |
| Locks.AssertsHold | thread/sync.c:22-81 | under the invariant none of the assertions fires |
| Locks.RunInv | thread/sync.c:22-81 | over every interleaving the invariant holds and no assertion fires |
| Locks.NestIsDepth | thread/sync.c:55-81 | acquires minus releases of a thread, counted over the history, is its depth if it owns the lock and 0 otherwise |
| Locks.MutualExclusion | thread/sync.c:55-81 | at most one thread is between acquire and release of a lock; holder and repeat count say who and how deep |
| Locks.NoLostWakeup | thread/sync.c:22-52 | a semaphore at 1 with queued waiters always has a woken thread on its way |
| Locks.WokenInOrder | thread/sync.c:22-52 | in every run the threads woken by releases of a lock, as the ready list shows them, followed by those still queued, are those that had to wait, in the order in which they did |
| Locks.OneList | thread/sync.c:22-52 | a thread is on at most one list, the ready list or one waiters list, and there once |
| Processes.Table.Fork | userprog/fork.c:14-22 | the child gets the least free pid and its parent's pid; the kernel stops exactly when no pid is free |
| Processes.Table.ExitBegin | userprog/wait_exit.c:143-150 | status stored, children adopted by init; the kernel stops exactly for a task without a parent |
| Processes.Table.ExitEnd | userprog/wait_exit.c:155-162 | the parent is woken if it waits, and the task hangs |
| Processes.Table.Wait | userprog/wait_exit.c:110-140 | takes the first hanging child of thread_all_list with its pid and status, or answers -1 exactly without children, or waits |
| Processes.Adopt | userprog/wait_exit.c:100-106 | exactly the tasks whose parent is the exiting one become children of init |
| Processes.FindChild | userprog/wait_exit.c:80-96 | finds the first child, or the first hanging one, of the list, exactly when there is one |
| Processes.RunOk | userprog/wait_exit.c:80-162 | the invariant of the process table holds over every run of fork, exit and wait |
| Processes.RunParents | userprog/wait_exit.c:80-162 | over every run pids are unique, every parent pid names a live task, and no task but init waits while it has a hanging child |
| Processes.RunReaps | userprog/wait_exit.c:110-140 | over every run each exited child is reaped at most once, with its own pid and status |
| ProcessLaws.ListIsForkOrder | userprog/fork.c:171-174 | in every run thread_all_list is the living tasks in the order in which they were forked |
| ProcessLaws.OldestFirst | userprog/wait_exit.c:110-140 | in every run sys_wait takes, of several hanging children, the one that was forked first |
| ProcessLaws.AfterExitRuns | userprog/wait_exit.c:110-162 | a fork, perhaps a wait that sleeps, and the exit of the child are a run |
| ProcessLaws.ForkExitWait | userprog/wait_exit.c:110-162 | after such a run, with no other child hanging, the wait returns the pid that fork gave and the status passed to exit as a signed byte, and every task, the list and the pids in use are as they were before the fork, whether the parent slept or not |
| Processes.AdoptionDoesNotWake | userprog/wait_exit.c:143-162 | a whole sys_exit leaves init asleep beside a hanging child if and only if it was so before, or waited while the task had a hanging child, and the task's parent is not init; the hanging children become init's |
| Processes.StepStuck | userprog/wait_exit.c:80-162 | for every step, init is asleep in sys_wait beside a hanging child afterwards if and only if it was and the step does not end the exit of a child of init, or the step begins the exit of a task with a hanging child while init waits |
| Processes.RunStuck | userprog/wait_exit.c:80-162 | over every run, init is asleep beside a hanging child if and only if a task with a hanging child began to exit while init waited, and no child of init has ended its exit since |
| Processes.RunNeverStuck | userprog/wait_exit.c:80-162 | so init is never asleep beside a hanging child, over a whole run, if and only if no exit of the run begins with a hanging child while init waits |
| Processes.StuckRun | userprog/wait_exit.c:80-162 | a run from the start that gets there: init forks, its child forks, that one forks; the last exits, init waits, the middle one exits |
| PipeTable.Files.FreeGlobal | fs/file.c:15-27 | the first empty slot from 3 up, or -1 exactly when there is none |
| PipeTable.Files.Install | fs/file.c:31-46 | the first free descriptor from 3 up is set and no other, or -1 exactly when there is none |
| PipeTable.Files.MakePipe | shell/pipe.c:16-35 | a new page in the first empty slot with count 2 and the first two free descriptors, nothing else changed; the counts are right afterwards if and only if there were two |
| PipeTable.Files.OpenFile | fs/file.c:180-206 | the first empty slot and, where there is one, the first free descriptor for a regular file, nothing else changed; the counts stay right, and no file is shared that was not |
| PipeTable.Files.Close | fs/fs.c:364-381 | one descriptor less and no other changed, the count one less; with the last one the slot is empty and the page is freed, never a second time; the counts are right afterwards if and only if the descriptor is a pipe's or the only one of a regular file |
| PipeTable.Files.Exit | userprog/wait_exit.c:60-75 | with no file shared, every slot loses exactly the descriptors of the process: the pipes that lost their last one are gone with their pages, the others stay and count right |
| PipeTable.Files.Fork | userprog/fork.c:113-126 | the child has the parent's descriptors and every pipe counts each of them, whatever else is shared; no regular file is shared afterwards if and only if the parent has none open |
| PipeTable.Files.Redirect | shell/pipe.c:77-86 | the descriptor is then what the other one is, or for 0, 1 and 2 that number itself, and no other descriptor of any process changes; afterwards every descriptor from 3 up is free or refers to a slot and the pipes count right, if and only if the one written is 0, 1 or 2, or nothing changes, or neither its old nor its new value is a pipe or one of 0 to 2; and when no regular file is shared in addition |
| PipeTable.DropRef | fs/fs.c:364-381 | closing one descriptor keeps fd_pos equal to the number of descriptors from 3 up if and only if it is a pipe's or the only one of a regular file |
| PipeTable.AddRef | userprog/fork.c:113-126 | one descriptor more of a slot, counted up, keeps it too |
| PipeTable.SharedFile | fs/file.c:209-217 | closing a regular file leaves the table right if and only if that was its only descriptor |
| PipeTable.CountUp | userprog/fork.c:113-126 | every pipe is counted up by the number of descriptors of the table that refer to it, and nothing else changes |
| PipeTable.UnsharedOwn | userprog/wait_exit.c:60-75 | where no regular file is shared every process may exit |
| PipeTable.ExitSound | userprog/wait_exit.c:60-75 | closing all descriptors of a process whose regular files are open nowhere else keeps the counts right |
| PipeRuns.StepExact | shell/pipe.c:16-86 | for every pipe, open, close, fork, redirect or end of a process, the counts are right afterwards if and only if the step fits: two descriptors for a new pipe, no shared regular file closed, no pipe redirected above descriptor 2 |
| PipeRuns.RunExact | shell/pipe.c:16-86 | over every run by all processes the counts are right all along if and only if every step fits; sharing regular files over fork does no harm until one is closed |
| PipeRuns.RunFreesOnce | fs/fs.c:364-381 | over every such run the page of a pipe is at any time either that of the living pipe, which counts exactly its descriptors, or freed, and once freed it is not freed again |
| PipeRuns.FreedWithTheLast | fs/fs.c:364-381 | it is freed by exactly the step that closes the last descriptor |
| PipeTable.ExitCount | userprog/wait_exit.c:60-75 | the exit of a process takes exactly its descriptors from the count of every slot, and empties the slots of its regular files |
| PipeLaws.RedirectBack | shell/pipe.c:77-86 | redirecting a standard descriptor that was itself, and then restoring it, gives the table back |
| PipeLaws.ForkThenExit | userprog/fork.c:113-126 | a fork followed by the exit of the child leaves both tables as they were if and only if the parent has no regular file open |
| PipeLaws.PipelineRestores | shell/shell.c:180-227 | the descriptor calls of the shell for a pipeline: in between standard input and output are the pipe; at the end every descriptor and every slot is as before and the page has been given back |
| Paging.PdeReached | kernel/memory.c:109-114 | the walk of section 4.3 of the Intel SDM Volume 3A takes pde_ptr(v) to the directory entry of v |
| Paging.PteReached | kernel/memory.c:101-106 | and pte_ptr(v) to the table entry of v, or to a fault exactly when the table is absent |
| PageSpace.MappedOk | kernel/memory.c:128-152 | mapping a free page on a clear frame keeps the books exact and moves no other page |
| PageSpace.UnmappedOk | kernel/memory.c:422-440 | unmapping gives back exactly that frame and moves no other page |
| PageSpace.TabledOk | kernel/memory.c:142-151 | a new table changes no mapping |
| PageSpace.FramesDistinct | kernel/memory.c:128-178 | two pages in use never share a frame |
| PageSpace.PoolsExact | kernel/memory.c:117-178 | a pool bit that is not somebody else's is set if and only if its frame holds a mapped page or a page table in place |
| PageAlloc.ThroughPte | kernel/memory.c:101-106 | stores and loads through pte_ptr are stores and loads of the page's own entry |
| PageAlloc.ThroughPde | kernel/memory.c:142-150 | storing through pde_ptr and clearing through pte_ptr installs an empty table |
| Frames.NotEnough | kernel/memory.c:170-176 | when the next page cannot be mapped, the pools had too few frames for all pages and tables to begin with |
| Frames.ServedAll | kernel/memory.c:170-176 | when all pages were mapped, they had enough: one frame for each page and one for each missing table |
| PageAlloc.Palloc | kernel/memory.c:118-125 | the least clear frame of the pool, or none exactly when all are used |
| PageAlloc.Allocator.AddTable | kernel/memory.c:142-151 | a directory entry gets an empty table exactly when the kernel pool has a frame, and takes exactly that one |
| PageAlloc.Allocator.MapPage | kernel/memory.c:128-152 | the page gets a frame nobody used, "pte repeat" cannot happen; it succeeds exactly when the pools have the frame and, where needed, the table, and takes exactly these; no other directory entry changes, and neither does the content of a frame in use or outside the pools |
| PageAlloc.Allocator.MallocPage | kernel/memory.c:155-178 | the least run of pages, each on a frame of its own that was free, the virtual bits equal to the present entries; NULL exactly when there are free pages but no such run; stops exactly when no page is free or the pools have fewer frames than the run and its missing tables need |
| PageAlloc.Allocator.UnmapPage | kernel/memory.c:422-440 | one page is unmapped and exactly its frame is free; the pool assertions hold |
| PageAlloc.Allocator.MfreePage | kernel/memory.c:458-495 | all pages of the run are unmapped and exactly their frames are free |
| PageAlloc.FreeUndoes | kernel/memory.c:155-178 | mfree_page undoes malloc_page: same pages on same frames, no data frame left taken |
| ForkCopy.CreatePageDir | userprog/process.c:73-94 | the new directory has the kernel half of the current one and maps itself |
| ForkCopy.NewDirectoryMaps | userprog/process.c:73-94 | through it kernel pages are where they were and no user page is mapped |
| ForkCopy.ChildSpaceOk | userprog/process.c:73-94 | so the child's empty space satisfies the paging invariant |
| ForkCopy.FirstSpaceOk | userprog/process.c:73-103 | and so does the space of a process made from a kernel thread |
| KernelSpace.BootSpaceOk | kernel/memory.c:239-316 | the kernel's space after loading and mem_pool_init satisfies the paging invariant, with every heap page and every frame free |
| ForkCopy.ParentReady | userprog/fork.c:42-51 | a parent whose books are in order has every page of its bitmap ready to copy |
| ForkCopy.CopyPage | userprog/fork.c:52-71 | one bit of the bitmap: the page is copied, or skipped, with the kernel half of the directory and everything outside the pools unchanged; fails exactly when its frame or table cannot be had |
| ForkCopy.CopyBody | userprog/fork.c:42-75 | all bits: succeeds if and only if the pools have a frame for every page of the parent and every table the child needs, and then the copy is complete, the kernel half of the child's directory is what create_page_dir made it, and the paging invariant holds |
| ForkCopy.ForkCopies | userprog/fork.c:42-75 | every page of the parent's bitmap is in the child with equal words on a frame free before, while the parent's mapping and words are unchanged |
| ForkCopy.KernelShared | userprog/process.c:73-94 | after the copy every kernel entry of the child's directory but the self-map equals the parent's, which is what it was, and leads to the same frames |
| ForkCopy.ForkDone | userprog/fork.c:42-75 | from a parent in order: the child has exactly the parent's pages, on frames free before, with equal words; the parent's pages are where they were, unchanged; and both directories agree on the kernel half, entries and frames |
| HeapState.TookOk | kernel/memory.c:409-414 | taking the first free block keeps the books |
| HeapState.GaveOk | kernel/memory.c:519-524 | giving a block back keeps the books but for an arena that may now be all free |
| HeapState.WithArenaOk | kernel/memory.c:383-407 | a new arena of free blocks keeps the books |
| HeapState.DroppedOk | kernel/memory.c:524-532 | dropping it keeps the books |
| HeapAlloc.BlockToArena | kernel/memory.c:320-327 | block2arena inverts arena2block for every block of every class |
| HeapAlloc.PiecesDisjoint | kernel/memory.c:330-419 | pieces handed out are pairwise disjoint |
| HeapAlloc.ClearOfHeaders | kernel/memory.c:320-322 | no piece touches an arena header |
| HeapAlloc.NothingLeft | kernel/memory.c:524-532 | with nothing handed out the heap holds no arena and no page |
| HeapOps.CountIsListed | kernel/memory.c:392-414 | a small arena's count is the number of its blocks on the free list of its class, where each is once |
| HeapOps.PickClass | kernel/memory.c:377-380 | the smallest class that is large enough |
| HeapOps.AddBlocks | kernel/memory.c:399-404 | the list gets the blocks of the arena in order |
| HeapOps.RemoveBlocks | kernel/memory.c:526-530 | the list loses exactly the blocks of the arena |
| HeapPages.TakePages | kernel/memory.c:155-178 | malloc_page as the heap sees it: which pages become taken, and when not |
| HeapPages.GivePages | kernel/memory.c:458-495 | mfree_page as the heap sees it: exactly those pages become free |
| HeapOps.GetsKeeps | kernel/memory.c:330-419 | what sys_malloc does keeps the books exact and hands out a new zeroed piece of at least size bytes, every other piece in place with its bytes and the pages of others untouched |
| HeapOps.GivesKeeps | kernel/memory.c:498-536 | what sys_free does keeps the books exact and takes back exactly that piece |
| HeapOps.LongestFree | kernel/memory.c:409-524 | after a block has gone back, the next request that its class suits gets the block that was free longest, which is that one exactly when no other was free |
| HeapOps.PageCountIs | kernel/memory.c:359-361 | a large request takes the fewest pages that hold the header and the bytes |
| HeapOps.KernelHeap.constructor | kernel/memory.c:54-62 | an empty heap satisfies the invariant |
| HeapOps.KernelHeap.MallocSmall | kernel/memory.c:374-418 | the first block of the right class, cleared, from a new arena when the class is used up; never NULL; stops exactly when its class is used up and malloc_page stops |
| HeapOps.KernelHeap.MallocLarge | kernel/memory.c:358-373 | the least run of pages, cleared; NULL exactly when there are free pages but no run is long enough; stops exactly when malloc_page stops |
| HeapOps.KernelHeap.Malloc | kernel/memory.c:330-419 | a new zeroed piece of at least size bytes, every other piece in place with its bytes; NULL and stopping, for want of pages or of frames, each exactly when their condition holds |
| HeapOps.KernelHeap.FreeBlk | kernel/memory.c:519-533 | the block goes to the end of its list, and its arena and page are given back exactly when it was the last |
| HeapOps.KernelHeap.FreeRun | kernel/memory.c:517-518 | all its pages are given back, and no other |
| HeapOps.KernelHeap.Free | kernel/memory.c:498-536 | from the address alone: exactly that piece is taken back, every other stays in place with its bytes |
| HeapRuns.RunHeld | kernel/memory.c:330-419 | over every run of the steps of sys_malloc, sys_free and stores by holders the books stay exact, what is handed out is what was got and not given back, and the pages of others stay theirs |
| HeapRuns.RunDisjoint | kernel/memory.c:330-419 | over every run, pieces held at the same time do not overlap each other or an arena header |
| HeapRuns.RunZero | kernel/memory.c:330-419 | over every run, what sys_malloc returned is large enough, stays where it is, and reads as zeros until its holder writes or frees it |
| HeapRuns.RunLeavesNothing | kernel/memory.c:498-536 | over every run, once everything is given back there is no arena and exactly the pages are taken that were taken at first |

## Left out

- Directories.SyncDirEntry: directories of 252 live entries and more, that is, beyond the twelve direct blocks, because the code does not load the table of such a directory (fs/dir.c:124-128) and a counting loop does not advance (fs/dir.c:287-289). FileSystem.Mounted.Create and FileSystem.Mounted.Mkdir answer Beyond there.
- FileSystem.Mounted.Mkdir: what happens in a directory whose direct blocks are full, as for SyncDirEntry.
- FileSystem.Mounted.Create: such directories likewise; names of 1 to 15 characters, as the slot holds them; the file table entry that sys_open also makes is in PipeTable, and its unclosed parent directory is not part of the model.
- FileIo.FileWrite: what a buffer of one sector, handed to inode_sync where InodeTable.OneSectorBuffer says that it is too small, does to the memory behind it. The inode itself is synced in FileSystem.Mounted.Write.
- InodeOps.InodeRelease: the record on disk that it also clears; FileSystem.Mounted.Erase does that.
- FileSystem.Mounted.Erase: the record that inode_release clears and the inode bitmap that it syncs are written after the release, not inside InodeOps.InodeRelease; inode table and bitmaps are sectors of their own, apart from the data area.
- FsRuns.Perform: rmdir of a path that ends in "." is not among its calls, nor is it a step of the machine; DotRemoval.RmdirSound says why, and CwdRuns.Follow has it as the end of a run.
- FsRuns.EffectKeeps: the rmdir of "." likewise.
- FsRuns.RunKeeps: the rmdir of "." likewise.
- FsRuns.FileHistory: the rmdir of "." likewise.
- CwdRuns.EffectDirs: the rmdir of ".", which is in CwdRuns.RmdirTakes.
- CwdRuns.RmdirTakes: paths of slashes only, other than "/", for which the inode number is whatever search_file left, and components over 15 characters, as for PathOps.SysRmdir.
- CwdRuns.EventExact: calls on such paths, other than sys_chdir, likewise.
- CwdRuns.RunExact: calls on such paths likewise; what happens after a directory was released by ".", when nothing on disk agrees with a tree any more.
- CwdRuns.Follow: such paths and such states likewise.
- Paths.WashPath: components over 15 characters, which overrun the code's name buffer, are washed as if they fitted.
- PathWalk.SearchFile: paths of 512 characters and more, which the code's assertion excludes, and components over 15 characters, which overrun the code's name buffer.
- Getcwd.Process.GetCwd: a working directory that has been removed, which CwdRuns.RunExact tells apart; a path whose length equals the buffer's size is accepted as in the code, though its end marker does not fit; paths of 512 characters and more are excluded.
- PathOps.SysMkdir: a path of slashes only, other than "/", for which search_file returns an uninitialised number, as Getcwd.NamelessChdir shows; and components over 15 characters, as in PathWalk.SearchFile.
- PathOps.SysCreate: such paths likewise, and the descriptor that sys_open returns.
- PathOps.SysUnlink: such paths likewise.
- PathOps.SysRmdir: such paths likewise.
- PathOps.SysOpen: the refusals for a full file table and for a file that another process writes (write_deny).
- PathOps.SysWrite: the descriptor and its flags; a write opens the file by its path.
- PathOps.SysRead: one read after one seek from the start, by path; the descriptor is left out.
- Getcwd.Process.Chdir: components over 15 characters, as in PathWalk.SearchFile.
- PipeTable.Files.MakePipe: what is written in front of the file table when no slot is empty.
- PipeTable.Files.Exit: processes that share a regular file with another one, whose slot the first exit empties; PipeTable.Files.Close says what that does.
- List.Memory.Pop: the empty list, where the code would unlink the tail; its callers test first, and Scheduler.NextOk proves it of the ready list.
- IoQueue.Queue.PutChar: one pass of the waiting loop; a woken thread makes the next one. The ring's lock, and several producers or consumers waiting at once, are left out.
- IoQueue.Queue.GetChar: one pass of the waiting loop, likewise.
- PageAlloc.Allocator.MallocPage: the state after a stop, where the code does not roll back; the TLB and invlpg.
- KernelSpace.BootSpaceOk: page tables that the loader does not fill are taken to read as zero.
- HeapOps.KernelHeap.Malloc: the bytes of heap pages are kept by page, not by frame; list links and arena headers are fields, not bytes of the pages; heaps carried over fork and exec, where the code resets the lists, are excluded.
- Locks.DoOk: the lock operations are steps on values rather than methods of a class, because the subject is their interleaving.
- ForkCopy.CopyBody: the pages of the control block and of the bitmap itself, the child's stack, and the 23rd bitmap page that an exit does not release.
- Processes.Table.Wait: the pid is given back together with the control block, whereas thread_exit reads it once more after freeing that page (thread/thread.c:352-355); the release of the address space on exit is not modelled.
- Disk write failures, failures of sys_malloc inside the file system, write_deny, sys_lseek, sys_stat and the file table of regular files.
- Time slices and ticks, the context switch itself, interrupts other than as points of interleaving.
- Assembly, boot, device drivers, keyboard and console, exec and the shell commands other than path washing: set-up, hardware timing and user interface.
