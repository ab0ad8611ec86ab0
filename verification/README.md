# DeprecatOS, modelled and proved in Dafny

DeprecatOS is a small 32-bit operating system kernel with an ext2 file system, a shell and a text editor. This project
models its hardest parts and proves that they do what they are for. `dafny verify dfyconfig.toml` checks everything.

**The storage engine.** `Bitmap.dfy` holds the allocators and their counters. `BlockTree.dfy` gives every block of a file
a position in its tree; `MapFileBlock.dfy`, `FreeFileBlock.dfy` and `FileBlocks.dfy` follow `map_file_block` through its
three modes and its nested rollbacks, and show that it is a partial map from file blocks to disk blocks. `FileSystem.dfy`
states the invariant of a volume: every allocated block is metadata or sits once in the tree of exactly one live inode,
and each inode's sector count is eight times the blocks of its tree. On top of it stand the file operations
(`WriteFile.dfy`, `WriteInode.dfy`, `WholeFiles.dfy`, `AppendFile.dfy`, `TruncateFile.dfy`, `InsertFile.dfy`,
`IndirFree.dfy`, `ReadFile.dfy`) as edits of byte strings, and `StorageRuns.dfy` runs any sequence of them.
`Footprints.dfy` counts the blocks that a file takes, pointer blocks included.

**Directories and names.** `DirBlock.dfy` works on the bytes of a directory block, `DirFile.dfy` on directories of many
blocks, `Namespace.dfy` on the abstract tree of names, and `DirTree.dfy` ties the two. `NamespaceOps.dfy` and
`Symlinks.dfy` hold the operations, `NamespaceRuns.dfy` their runs. `Paths.dfy` compares path lookup by splicing text
with resolving component by component; `PathLookup.dfy` is `lookup_path` itself on mounted volumes, and `Mounts.dfy` the
mount table.

**Self-contained parts.** `KernelHeap.dfy` (headers in the memory they describe), `EditorText.dfy`, `EditorScreen.dfy`
and `Editor.dfy` (the dinv editor, whose partial redraws equal a full one, on a console that scrolls), `RingBuffer.dfy`
(one pusher and one popper, step by step), `Scheduler.dfy`, `Dates.dfy` and `Division.dfy`.

**How state is modelled.** What the C code changes in place is a class whose methods change it: the bitmaps, the volume,
the heap, the editor, the process queue and the mount table. A block is 4096 bytes; reading and writing one never fails.
Trees of blocks, lists of heap blocks and the waiting processes are ghost state that the invariants tie to the bytes.
Machine arithmetic is written out where it can wrap: the 32-bit round-up of sizes, the size that `kmalloc` looks for,
byte-wide ring indices, 64-bit shifts, and the 32-bit date formula.

**Where the code does not keep its promise.** These properties hold only under a condition. It is proved exact, except that
partitions with empty labels can but need not share a mountpoint.

- Names. `comp_name` compares a stored byte with a signed character, so a name with a byte of 0x80 or more never matches:
  it is found, removed or refused as a duplicate exactly if all its bytes are below 0x80 (`DirBlock.CompName`,
  `DirFile.NameIn`). Given twice it is stored twice (`NamespaceOps.MakeFile`, `NamespaceRuns.MadeTwice`).
- A failed `insert_in_inode`. It leaves a file without holes as it was if the blocks behind the end of the inserted bytes
  cannot be taken; otherwise those bytes have overwritten the file up to its old end (`InsertFile.Insert`,
  `InsertFile.LosesByte`).
- Long paths. With targets of up to m bytes, `lookup_path` can fail on a path of n bytes that leads somewhere exactly if
  n + 8 (m - 1) reaches 4096 and the path has a name in it (`Paths.RoomExact`, `Paths.LeadsButFails`).
- Narrow screens. A long command overflows the bottom row and scrolls the text of dinv away exactly on screens of up to
  64 columns, unless they have no text area at all (`Editor.Session`, `Editor.LongCommand`).
- Mounts. Two partitions never share a mountpoint unless one has an empty label (`Mounts.MountTable.Session`,
  `Mounts.EmptyLabelShares`).
- A ring that is read head first. `rb_pop` is turned away if the ring was empty when head was read, even if a byte has
  arrived since (`RingBuffer.RefusalsJustified`, `RingBuffer.RefusedTooLate`).
- Sizes and counters. The round-up of a file size wraps above 2^32 - 4096 (`WholeFiles.BlocksCover`), `kmalloc` rounds
  the three largest sizes to nothing (`KernelHeap.WantedCovers`), `schedule` drops the running process if 255 others
  wait (`Scheduler.Scheduler.Schedule`), and the start-up clock is wrong from 2106-02-07 06:28:16 on
  (`Dates.StartupExact`, `Dates.StartupWraps`).

## Model

| member | source | states |
|---|---|---|
| `Bitmaps.Bitmap.Alloc` | kernel/fs/ext2/bitmapController.c:75-131 | hands out a number that was free, fails only if none is, never panics; bitmap, group counters and superblock counter agree before and after (alloc_inode is the same scan with other constants) |
| `Bitmaps.Bitmap.Free` | kernel/fs/ext2/bitmapController.c:170-208 | frees exactly the given number; freeing it twice changes nothing; numbers out of range are refused |
| `Bitmaps.Bitmap.Exists` | kernel/fs/ext2/bitmapController.c:210-234 | an inode exists exactly when it is allocated |
| `Bitmaps.Bitmap.NumberInjective` | kernel/fs/ext2/bitmapController.c:133-168 | the encoding of numbers as group and bit is one to one, so free finds the bit that alloc set |
| `FileSystem.RoomIs` | kernel/fs/ext2/bitmapController.c:17-208 | in every sound state the superblock's free counters are the numbers of blocks and inodes not allocated |
| `FileBlocks.Lookup` | kernel/fs/block/blockController.c:701-1134 | LOOKUP mode reads the block map of the file at every index below 12 + 1024 + 1024^2 + 1024^3 |
| `FileBlocks.Alloc` | kernel/fs/block/blockController.c:701-1134 | ALLOC mode maps the index to a fresh block and nothing else, minting the missing pointer blocks and counting them; out of space, map, allocated set and count are as they were |
| `FileBlocks.Release` | kernel/fs/block/blockController.c:701-1134 | FREE mode removes exactly that binding and every pointer block it empties; no other index changes, and no other inode's block is touched |
| `Footprints.TreeWays` | kernel/fs/block/blockController.c:701-1134 | which positions of the block tree are occupied follows from which file blocks are mapped, so that any order of taking them takes as many blocks |
| `Footprints.FootprintIs` | kernel/fs/block/blockController.c:701-1134 | a file of n blocks without holes takes n blocks, one more above 12, and one more plus one for every 1024 above 1036 |
| `MapFileBlock.RollBack` | kernel/fs/block/blockController.c:1038-1066 | giving back what was minted on the way and clearing the topmost new entry undoes a failed allocation at any depth |
| `IndirFree.FreeUnder` | kernel/fs/block/blockController.c:85-101 | the recursive walk frees exactly the blocks of the subtree, data and pointer blocks alike |
| `IndirFree.FreeTree` | kernel/fs/block/blockController.c:319-358 | the calls on all fifteen pointers free exactly the blocks of the tree |
| `WriteInode.Write` | kernel/fs/block/blockController.c:387-632 | succeeds exactly when the free blocks suffice for the layout and its spare pointer blocks; block i then lies where lookup and reader look for it, the sector count is exact, and the outer loop never starts a second pass; on failure at any depth the allocated set is the one at entry |
| `WholeFiles.BlocksCover` | kernel/fs/block/blockController.c:398-398 | the 32-bit round-up covers the size exactly for sizes up to 2^32 - 4096 |
| `WholeFiles.Replace` | kernel/fs/block/blockController.c:634-690 | the file holds the new bytes, or is empty if old and free blocks together do not suffice; both directions |
| `WholeFiles.Put` | kernel/fs/block/blockController.c:1525-1563 | a new inode with these bytes, exactly when an inode and enough blocks are free; otherwise nothing is allocated |
| `WholeFiles.Delete` | kernel/fs/block/blockController.c:319-358 | the inode and every block of its tree are free again, all other files are as they were |
| `AppendFile.Append` | kernel/fs/block/blockController.c:1136-1260 | contents become old + buf and a file without holes stays so; on failure contents, tree and allocated set are unchanged, and too few blocks were free; on a file without holes it succeeds exactly when the free blocks cover the growth of the footprint |
| `AppendFile.UnwindAppend` | kernel/fs/block/blockController.c:1208-1226 | the unwinding loop gives back exactly the blocks this append has taken |
| `TruncateFile.Truncate` | kernel/fs/block/blockController.c:1565-1627 | contents become old[..n], exactly when n is at most the size; sectors and free blocks balance |
| `InsertFile.Insert` | kernel/fs/block/blockController.c:1281-1520 | on a file without holes, at an offset within it: succeeds exactly when the free blocks cover the growth of the footprint, and contents become old[..offset] + buf + old[offset..] without holes; a failure leaves no hole either, and the contents are the old ones if the blocks behind the end of buf do not fit, otherwise exactly old[..offset] + buf[..size - offset], which needs (offset + length) / 4096 to exceed the blocks of the file; sector count and all other files are right in every case |
| `InsertFile.LosesByte` | kernel/fs/block/blockController.c:1312-1500 | three blocks inserted at the start of a one-byte file with one or two blocks free: the insert fails and the byte is overwritten |
| `InsertFile.InsertBlocks` | kernel/fs/block/blockController.c:1303-1500 | the three phases, top-down shift, split block and copy, each read only what is not overwritten yet, and the unwind buffer never holds more than its top - offset/4096 + 1 entries |
| `InsertFile.UnwindInsert` | kernel/fs/block/blockController.c:1262-1279 | the formula for the sectors is exact after any number of taken, minted and freed blocks, the panic is unreachable, and the blocks that the file had before keep their bytes |
| `ReadFile.ReadUnder` | kernel/fs/block/blockController.c:50-83 | the recursive reader yields the file blocks below a pointer in order, zeros for holes at any level |
| `ReadFile.StartIsIndex` | kernel/fs/block/blockController.c:50-83 | the recursive reader and map_file_block number the data positions alike |
| `ReadFile.ReadInode` | kernel/fs/block/blockController.c:1635-1648 | reads the contents of the file, padded to whole blocks |
| `ReadFile.ReadChunk` | kernel/userland/syscall/syscallController.c:188-247 | chunk i is bytes 4096 i onwards of the contents, cut at the size; empty exactly past the end |
| `ReadFile.CopyFile` | user/app/depsh/cmds/cp.c:7-32 | when it returns true the target has received all of the source, so an empty target equals it; a failed copy has appended the first k chunks of 4096 bytes, short of the whole, and found the disk nearly full |
| `StorageRuns.Run` | kernel/fs/block/blockController.c:634-1627 | over every sequence of put, replace, append, truncate, insert and delete, through any failures: in every state each allocated block is metadata or sits once in one live tree, the files are the byte strings the operations say, each operation touches one inode, and it falls short only if the room left in that very state is too little; a put, and every operation on a file without holes, falls short exactly then, and a failed insert leaves no hole and the bytes that the room decides |
| `DirBlock.CompName` | kernel/fs/ext2/directoryController.c:31-42 | names are taken for equal exactly if they are equal and have no byte of 0x80 or more |
| `DirBlock.LookupBlock` | kernel/fs/ext2/directoryController.c:44-64 | the first record in use with this name, or 0; 0 for every name with a byte of 0x80 or more, as in name_in |
| `DirBlock.NameInBlock` | kernel/fs/ext2/directoryController.c:289-320 | the first record in use with this name, or 0; 0 for every name with a byte of 0x80 or more |
| `DirBlock.InsertInBlock` | kernel/fs/ext2/directoryController.c:371-577 | records still tile the block and exactly one entry is new; the first record with room takes it: an unused one of at least 8 + length bytes is filled in, one in use is cut to the least multiple of four that holds its own name and the new record has the rest; refused exactly when no record has that much slack |
| `DirBlock.RecordsAligned` | kernel/fs/ext2/directoryEntry.h:7 | in every directory block that insertions and removals leave behind, each record starts at a multiple of four and is a multiple of four bytes long |
| `DirBlock.DotBlock` | kernel/fs/ext2/directoryController.c:674-738 | a new directory: "." inserted into the unused block takes 12 bytes and ".." has the other 4084 |
| `DirBlock.RemoveInBlock` | kernel/fs/ext2/directoryController.c:580-672 | records still tile the block, exactly the named entry is gone and the rest keep their order; its bytes go to the record before it, and a first record stays, unused; a name with a byte of 0x80 or more is left alone |
| `DirBlock.FreedRoom` | kernel/fs/ext2/directoryController.c:625-640 | what a removal frees has room for every name that is no longer than the one removed |
| `DirBlock.Reuse` | kernel/fs/ext2/directoryController.c:371-672 | after a name is removed, a name that is no longer can be inserted into the same block |
| `DirBlock.RemoveUndoesInsert` | kernel/fs/ext2/directoryController.c:580-672 | taking the first entry of a name out of the entries to which it was added gives the old entries |
| `DirBlock.InsertAndRemove` | kernel/fs/ext2/directoryController.c:371-672 | inserting a name and removing it restores the entries exactly if no byte of it is 0x80 or more |
| `DirFile.LookupDir` | kernel/fs/ext2/directoryController.c:165-184 | the lookup of path resolution finds what name_in finds, over all blocks of a directory: a name that is there, exactly if no byte of it is 0x80 or more |
| `DirFile.NameIn` | kernel/fs/ext2/directoryController.c:289-320 | the inode that the directory gives to a name, or 0; a name that is there is found exactly if no byte of it is 0x80 or more |
| `DirFile.DirInsert` | kernel/fs/ext2/directoryController.c:371-577 | all or nothing: one entry more, of the type that the child has, and one link more, with exact sectors; the directory grows by a block exactly when no record in it has room for the name; refused only for a bad name, a bad parent, or if it must grow and too few blocks are free |
| `DirFile.DirRemove` | kernel/fs/ext2/directoryController.c:580-672 | exactly the entry is gone, the others keep their order, and the inode loses one link; succeeds exactly when the name is there and has no byte of 0x80 or more |
| `DirFile.DirIsEmpty` | kernel/fs/ext2/directoryController.c:337-366 | empty exactly when "." and ".." are the only entries |
| `DirFile.SetParentEntry` | kernel/fs/ext2/directoryController.c:908-970 | ".." points to the new parent and nothing else changes |
| `NamespaceOps.MakeDir` | kernel/fs/ext2/directoryController.c:674-738 | a new empty directory with its two links and its parent's, or a failure part-way, after which link counts are still exact; a name with a byte of 0x80 or more that is already there is given a second time, and only such a name; every file and link keeps its bytes, size and blocks |
| `NamespaceOps.MakeFile` | kernel/fs/ext2/directoryController.c:866-906 | a new file with one name, one link and no bytes, or the tree as it was; a name with a byte of 0x80 or more that is already there is given a second time, and only such a name; every other file keeps its bytes, size and blocks |
| `NamespaceOps.HardLink` | kernel/userland/syscall/syscallController.c:689-750 | one more name and one more link for a file that is not a directory; a name with a byte of 0x80 or more that is already there is given a second time, and only such a name; all files keep their bytes, size and blocks |
| `NamespaceOps.UnlinkFile` | kernel/fs/ext2/directoryController.c:740-788 | the name goes, and the inode with its last name; exactly when it names something that is no directory and has no byte of 0x80 or more; every file that is left keeps its bytes, size and blocks |
| `NamespaceOps.UnlinkDir` | kernel/fs/ext2/directoryController.c:790-864 | an empty directory goes with both its links; exactly when it is empty, is not "." or ".." and its name has no byte of 0x80 or more; all files keep their bytes, size and blocks |
| `NamespaceOps.IsAncestor` | kernel/fs/ext2/directoryController.c:973-990 | false exactly when the ".." chain reaches the root within 1023 steps without meeting the directory |
| `NamespaceOps.Rename` | kernel/fs/ext2/directoryController.c:993-1115 | the name moves, a moved directory's ".." and both parents' links follow, and the result is a tree; no file, the moved one included, changes in bytes, size or blocks; done whenever it may be and blocks suffice, otherwise nothing changes; a new name with a byte of 0x80 or more that is already there is given a second time, and only such a name |
| `Namespace.DirMoved` | kernel/fs/ext2/directoryController.c:993-1115 | moving a directory under one that is not below it keeps the tree and its link counts, so rename makes no cycle |
| `Symlinks.MakeSymlink` | kernel/fs/ext2/directoryController.c:1117-1179 | a new link whose stored target reads back, from the inode exactly if it has at most 59 bytes and from a block otherwise; or nothing is left allocated; a name with a byte of 0x80 or more that is already there is given a second time, and only such a name; every other file and link keeps its bytes |
| `Symlinks.ReadLink` | kernel/fs/ext2/directoryController.c:217-228 | yields the stored target for both representations |
| `NamespaceRuns.Run` | kernel/fs/ext2/directoryController.c:674-1179 | over every sequence of make_dir, make_file, link, symlink, unlink and rename: in every state directory blocks are well formed, names unique, link counts exact, ".." is the directory naming it and every chain reaches the root; a permitted operation has its effect, a link its target and a new file no bytes, unless that very state is short of blocks or inodes; no operation changes a file that stays; the run ends early only with a make_dir that breaks off part-way or with a name that is there, has a byte of 0x80 or more and is given again |
| `NamespaceRuns.FilesStay` | kernel/fs/ext2/directoryController.c:674-1179 | a file or link that is live in every state of such a run has the same bytes, size and target at its end as at its start, whatever names it had on the way |
| `NamespaceRuns.MadeTwice` | kernel/fs/ext2/directoryController.c:866-906 | the name of the one byte 0xC3, made twice: both calls succeed, two entries share it, and name_in finds neither |
| `Paths.EvalJoin` | kernel/fs/ext2/directoryController.c:207-262 | resolving a target and then the remaining components is resolving their concatenation |
| `Paths.EvalShift` | kernel/fs/ext2/directoryController.c:67-287 | a larger allowance of links leads to the same place, and so does a smaller one that covers the links on the way |
| `Paths.SplicePreserves` | kernel/fs/ext2/directoryController.c:231-266 | restarting from the root on the spliced text, with one link less to go, leads where the text led |
| `Paths.SplicingIsResolving` | kernel/fs/ext2/directoryController.c:67-287 | any number of splicing passes agrees with resolving component by component, unless a text outgrows the buffer |
| `Paths.RoomExact` | kernel/fs/ext2/directoryController.c:240-262 | no path of n bytes that leads somewhere, over targets of up to m bytes, fails for want of room exactly if n + 8 (m - 1) is below 4096 or the path has no name in it |
| `Paths.LeadsButFails` | kernel/fs/ext2/directoryController.c:240-262 | for every other n and m there is a world and a path of these lengths that leads to the root and outgrows the buffer |
| `Paths.SeenIff` | kernel/fs/ext2/directoryController.c:44-64 | one step sees a name that is there exactly if no byte of it is 0x80 or more |
| `Paths.AsciiIsSeen` | kernel/fs/ext2/directoryController.c:67-287 | a path whose names and whose links' targets have no byte of 0x80 or more leads where it should |
| `Paths.Splice` | kernel/fs/ext2/directoryController.c:231-264 | all writes stay in the 4096 bytes; succeeds exactly when the spliced text and its terminator fit |
| `Paths.LeaveEnter` | kernel/fs/mount/mount.c:50-84 | stepping into a mount and out again returns to the mountpoint |
| `PathLookup.MntRoot` | kernel/fs/mount/mount.c:50-69 | from a mountpoint to the root of the first partition mounted there |
| `PathLookup.MntMountpoint` | kernel/fs/mount/mount.c:73-84 | the result is never the bare root of a mounted partition; a node that is none comes back unchanged, and such a root becomes a directory of the root partition from which entering leads to a partition's root again |
| `PathLookup.TargetAt` | kernel/fs/ext2/directoryController.c:207-230 | tells links from other inodes and reads the target, inline or from its block |
| `PathLookup.LookAt` | kernel/fs/ext2/directoryController.c:147-191 | one component: the name in the directory behind whatever is mounted on it, as the volume's blocks store it; nothing for a name with a byte of 0x80 or more |
| `PathLookup.LookupPath` | kernel/fs/ext2/directoryController.c:67-287 | at most nine passes over volumes and mounts; what it finds is what the path means with eight links to follow, never the bare root of a mounted partition; it fails exactly when the path leads nowhere by names without a byte of 0x80 or more, or a spliced text outgrows the buffer, which short texts and targets rule out |
| `PathLookup.FindsEntry` | kernel/fs/ext2/directoryController.c:67-287 | where p leads to a directory, p/x leads exactly to the inode that the entries of that directory, behind what is mounted on it, give to the name x of up to 255 bytes, and fails if they give none; stated on the entries stored in the blocks, for texts and targets that fit the 4096 bytes |
| `PathLookup.LinkIsTarget` | kernel/fs/ext2/directoryController.c:207-262 | a link at the end of a path means what its target means, read from the top if it starts with a slash and otherwise from the directory of the link, at the cost of one of the eight links |
| `PathLookup.FollowsLink` | kernel/fs/ext2/directoryController.c:67-287 | what lookup finds under a link p/x of the stored entries it finds under the stored target as well, spelled out as a path |
| `Mounts.MountTable.Mount` | kernel/fs/mount/mount.c:87-173 | the slot is the first behind the root's that is present and has the label, empty slots notwithstanding; the label is copied again from the volume name, which must be neither blank nor hold a slash nor be taken; mounts only when label, slot and directory allow it, and whenever they do if link targets are short; changes one free slot only and keeps the table sound for path lookup |
| `Mounts.MountTable.Umount` | kernel/fs/mount/mount.c:176-198 | frees exactly the first present slot with the label if it was mounted, and keeps the table sound |
| `Mounts.MountTable.MountAndBack` | kernel/fs/mount/mount.c:87-198 | unmounting undoes mounting |
| `Mounts.MountTable.Session` | kernel/fs/mount/mount.c:87-198 | over every sequence of mounts and unmounts no two partitions with a label share a mountpoint, since each is mounted on a directory named by its label, and a directory has one name |
| `Mounts.EmptyLabelShares` | kernel/fs/mount/mount.c:119-160 | a partition whose volume name starts with NUL but is not blank is mounted where "/mnt/" leads, which can be the mountpoint of another |
| `Mounts.MountLeads` | kernel/fs/mount/mount.c:50-84 | while all mounted partitions have labels and stand alone, entering a mountpoint leads to the root of its partition and leaving leads back |
| `KernelHeap.WantedCovers` | kernel/memory/heap/kernelHeap.c:29-29 | the rounded size covers the request exactly for sizes up to 2^32 - 4 |
| `KernelHeap.Heap.Kmalloc` | kernel/memory/heap/kernelHeap.c:27-94 | the first block that fits, or growth by doubling until one does, so that the heap at most doubles beyond the end that the request needs; the new payload is aligned, large enough and at most 8 bytes larger, and the rest of the free block is a free block directly behind it; all others and their words are untouched; NULL only when nothing fits and the heap cannot grow; the recursion ends |
| `KernelHeap.CarvedFree` | kernel/memory/heap/kernelHeap.c:38-45 | handing out a block lowers the free bytes by at least the size looked for and by at most 8 more |
| `KernelHeap.TwoSmall` | kernel/memory/heap/kernelHeap.c:27-94 | two blocks of four bytes from a new heap are at 0x10000008 and 0x10000014 |
| `KernelHeap.Heap.MapPages` | kernel/memory/heap/kernelHeap.c:57-79 | every page below the new end is mapped, whether the heap doubled, met the ceiling or ran out of frames |
| `KernelHeap.Heap.Kfree` | kernel/memory/heap/kernelHeap.c:96-117 | the block absorbs exactly the run of free blocks behind it, and at least its payload is free again; headers still tile the heap, and no other allocation changes |
| `KernelHeap.Run` | kernel/memory/heap/kernelHeap.c:27-117 | over every sequence of kmalloc, kfree and writes by the caller into what it holds: headers tile the heap, the caller's pointers are exactly the allocated blocks, a call is refused only by an exhausted heap, held payloads keep size and contents, and free bytes are conserved: an allocation costs its rounded size and at most 8 bytes, growth one more header, a refusal nothing, and a release gives back at least the size |
| `KernelHeap.PayloadStays` | kernel/memory/heap/kernelHeap.c:27-117 | from kmalloc to kfree every word of a payload keeps its value until its holder writes it |
| `KernelHeap.StoreReadsBack` | kernel/memory/heap/kernelHeap.c:27-117 | a word that the caller has written reads back until it is written again or the block is freed |
| `KernelHeap.RunApart` | kernel/memory/heap/kernelHeap.c:27-117 | in every state of a run held payloads are 4-aligned and disjoint, headers included |
| `Editor.Dinv.CursorRight` | user/app/dinv/dinv.c:106-114 | moves one character over the gap; the text is unchanged |
| `Editor.Dinv.CursorLeft` | user/app/dinv/dinv.c:116-124 | moves one character back over the gap; the text is unchanged |
| `Editor.Dinv.CursorRowCol` | user/app/dinv/dinv.c:184-200 | row and column are the newlines before the cursor and the characters since the last one |
| `Editor.Dinv.CheckScroll` | user/app/dinv/dinv.c:202-226 | the cursor is in the window afterwards, which of all windows that hold it is the nearest to the old one; a window that moved asks for a full redraw |
| `Editor.LineHeader` | user/app/dinv/dinv.c:228-246 | the last four digits of the row number, right-aligned |
| `Editor.Dinv.RenderTail` | user/app/dinv/dinv.c:261-293 | redraws the cursor's row, which lies on both sides of the gap, as a full redraw would, and no other |
| `Editor.Dinv.RenderBelow` | user/app/dinv/dinv.c:295-376 | redraws the row above the cursor's, the cursor's and all that follow as a full redraw would, blank past the end, and no other |
| `Editor.Dinv.RenderFull` | user/app/dinv/dinv.c:378-429 | every row of the text area shows its line at this scroll position: bytes from 0x20 on other than 0x7F as themselves, all others as a dot |
| `Editor.Dinv.RenderText` | user/app/dinv/dinv.c:248-429 | if the damage covers the rows that differ, the text area equals a full redraw of the new text |
| `Editor.Dinv.WriteBottom` | kernel/drivers/fb/fbController.c:213-367 | a string written to the bottom row goes through the console character by character, and every row moves up when it passes the last column |
| `EditorScreen.PaintedFits` | kernel/drivers/fb/fbController.c:296-316 | a command and a status that end before the last column leave the text area alone |
| `EditorScreen.PaintedScrolls` | kernel/drivers/fb/fbController.c:213-316 | a command that reaches the last column pushes every row up and itself into the last row of the text area |
| `Editor.Dinv.Render` | user/app/dinv/dinv.c:248-485 | the text area is redrawn, then the command and the status are written to the bottom row; the redrawn area stands exactly as the console leaves it, unchanged if both end before the last column |
| `Editor.Dinv.HandleInsert` | user/app/dinv/dinv.c:545-571 | types, deletes or ignores, and the damage it reports covers every row that changed |
| `Editor.Dinv.HandleCommand` | user/app/dinv/dinv.c:487-543 | the command line is edited or carried out: a save moves the cursor to the end, a failed one is complained about and does not quit, an unknown command is complained about; the text stays |
| `Editor.Dinv.HandleNormal` | user/app/dinv/dinv.c:573-665 | no key changes the text; h, l and a move by one, j and k land in the next or previous row at the old column or at the end of a shorter line |
| `Editor.Dinv.Key` | user/app/dinv/dinv.c:769-787 | one turn of the main loop: text, cursor, mode and command line are what the key says, and a text area that equalled a full redraw does so again unless command or status reaches the last column |
| `Editor.Session` | user/app/dinv/dinv.c:667-792 | from any file, over any keys, saves that fail and complaints that expire: text, cursor, mode, command line and window change as each key says until the editor quits, and on more than 64 columns the text area equals a full redraw with the cursor in it all the time, each cell showing its byte or a dot |
| `Editor.LongCommand` | user/app/dinv/dinv.c:430-469 | a colon and as many letters as fit the command line or fill the bottom row: the text area still equals a full redraw exactly on more than 64 columns |
| `EditorText.ViewAt` | user/app/dinv/dinv.c:88-95 | column k of a row shows the byte at the left edge plus k if it is at least 0x20 and not 0x7F, a dot for any other byte, and a blank behind the end of the line |
| `EditorText.FullRowAt` | user/app/dinv/dinv.c:88-95 | the same for a whole row with its header, no cell of which ever holds a byte below 0x20 or 0x7F |
| `EditorText.CharChangesOneRow` | user/app/dinv/dinv.c:567-570 | an ordinary character changes the row of the cursor only |
| `EditorText.NewlineChangesBelow` | user/app/dinv/dinv.c:558-570 | a newline typed or deleted changes no row above the cursor's |
| `RingBuffer.EveryInterleaving` | etc/lib/rb/ringBuffer.c:9-37 | under every interleaving of single reads and writes, what was popped is a prefix of what was accepted and at most 255 bytes are pending, across wraparound |
| `RingBuffer.RefusalsJustified` | etc/lib/rb/ringBuffer.c:9-37 | a push is refused exactly when 255 bytes are pending at its check, a pop exactly when none is pending at the time it reads head, whichever field it reads first |
| `RingBuffer.RefusedTooLate` | etc/lib/rb/ringBuffer.c:9-37 | with head read first, a pop is refused although a byte has been accepted before it reads tail |
| `RingBuffer.PushAlone` | etc/lib/rb/ringBuffer.c:17-27 | uninterrupted, rb_push appends its byte exactly if there is room |
| `RingBuffer.PopAlone` | etc/lib/rb/ringBuffer.c:29-37 | uninterrupted, rb_pop takes the oldest byte exactly if there is one |
| `Scheduler.ProcessQueue.Push` | kernel/process/queue/processQueue.c:43-54 | appends to the FIFO sequence unless 255 wait |
| `Scheduler.ProcessQueue.Pop` | kernel/process/queue/processQueue.c:24-32 | takes the oldest of the FIFO sequence, or NULL |
| `Scheduler.Scheduler.Schedule` | kernel/process/scheduler/scheduler.c:24-36 | a rotation that saves the running stack pointer and returns the next one's; with 255 waiting the running process is dropped |
| `Scheduler.RotationKeeps` | kernel/process/scheduler/scheduler.c:24-36 | the rotation loses and duplicates no process, the other case loses exactly one |
| `Scheduler.Round` | kernel/process/scheduler/scheduler.c:24-36 | after as many calls as there are processes the first one runs again with the stack pointer it saved, and so has every other |
| `Scheduler.Scheduler.Kill` | kernel/process/scheduler/scheduler.c:109-137 | the running process leaves for good and the oldest waiting one runs |
| `Dates.EpochToDate` | etc/lib/epochToDate/epochToDate.c:18-68 | the valid date and time whose milliseconds are the epoch; the month loop stays in the table, which is restored |
| `Dates.DayNumberInjective` | etc/lib/epochToDate/epochToDate.c:18-68 | different dates have different day numbers |
| `Dates.EraCountsDays` | kernel/drivers/timer/timerController.c:91-99 | the era formula in 32-bit arithmetic gives the day number modulo 2^32, so exactly the day numbers below 2^32 are right |
| `Dates.StartupExact` | kernel/drivers/timer/timerController.c:101-101 | the stored seconds are right exactly until they no longer fit 32 bits |
| `Dates.StartupWraps` | kernel/drivers/timer/timerController.c:101-101 | 2106-02-07 06:28:16 is second 2^32 and is stored as 0 |
| `Dates.DateAgain` | etc/lib/epochToDate/epochToDate.c:18-68 | a date turned into its day number and back is the same date |
| `Dates.DayAgain` | kernel/drivers/timer/timerController.c:91-99 | a day number turned into a date and back is the same day number, modulo 2^32 |
| `Division.UDivMod` | etc/lib/longops/longops.c:4-27 | n == q * d + r with r < d for all 64-bit n and all d > 0; no shift drops a bit |

## Left out

- ReadFile.CopyFile: source and target lie on one volume and differ; copying a file onto itself, which appends to what it reads, is not modelled.
- DirFile.DirInsert: link counts are unbounded; the 16-bit count of the inode is not modelled to wrap at 65535.
- StorageRuns.Run: inserts into sparse files or past the end of a file are promised their length and their blocks, not their bytes.
- NamespaceRuns.Run: nothing is promised about the tree once a make_dir has run out of space part-way, beyond exact link counts, nor once a name has been given twice.
- Editor.Session: the outcome of a save and the expiry of a complaint are given from outside; what is written to the file is not modelled, nor the screen behind column 262.
- get_inode and set_inode: inodes are kept in a table by number; where an inode lies on the disk is not modelled.
- Redirection through mounts inside the directory operations: they work on one volume; only path lookup crosses mounts.
- Timestamps, permissions, directory counters of groups and the clean flag of a volume: they play no part in the properties.
- Scratch buffers that the file system code takes from the heap: they are local values, and their allocation never fails.
- Frames and page tables under the heap: a frame is counted, and mapping a page only records it.
- Hardware, interrupts, the pixels and the scrollback of the frame buffer, the shell, the remaining system calls and partition discovery.
