# Arcadia OS: verified models of the file system, memory management and input ring

This project models five parts of the Arcadia kernel and one host tool, and proves what they keep and
what they achieve.

* **The FAT32 stack.** A block device of 512-byte sectors (`Device`), the FAT words and cluster sectors in it
  (`SectorWrites`, `Fat`, `FileData`), cluster chains (`Chains`), file data on a volume (`Volumes`), the
  32-byte directory entry with its 8.3 name (`DirEntries`), directories as slot lists (`Directory`, `Dir`),
  paths (`Paths`), mounting (`Mounting`) and the virtual file system calls (`VfsSpec`, class
  `Vfs.VfsManager`). Every method is proved to do to the volume exactly what a function on volumes says; the
  theorems are about those functions. `Storage`, `Tree` and `Invariant` say when a volume is well formed:
  disjoint, acyclic, in-range chains ended by an end-of-chain word and covering every used cluster, each
  headed by the root or by exactly one live directory entry, and directories that hang in one tree below the
  root. `Operations` and `Runs` show that every run of successful harmless calls keeps this. `Exactness` shows
  the converse: a successful call that is not harmless leaves the state unsound, so the condition is exact;
  `Errors` does the same for calls that answer an error, and for runs whatever the calls answer. `Failures`
  and `Detours` state what goes wrong otherwise, and `Witnesses` builds such states from a volume just
  formatted. `VfsReady` shows that allowed calls follow no chain out of the FAT. `Refinement`, `Contents`,
  `Rewrites`, `Directories`, `Appends`, `Descriptors`, `Listings`, `Bystanders` and `Streams` show what a
  reader sees after one call or many, `Records` which bytes a record gets, and `Answers` which call is refused
  when, and how.
* **The host tool** `tools/add_to_fat32.py` (`Images`, `Installs`, `InstallsKept`, `AddToFat32`,
  `ImageWitness`): a second writer of the format, over a plain run of bytes. Its image is read back by the
  model of the kernel's reader.
* **The physical frame allocator** (`Bitmap`, `Frames`, class `PhysMem.PhysicalFrameAllocator`), with the
  ownership of frames over whole runs (`Ownership`).
* **The virtual memory manager** (`Paging`, `Regions`, `VmmSpec`, `VmmRuns`, `VmmFlags`, class
  `Vmm.VirtualMemoryManager`): four-level tables as a tree of entries, the region index, and their agreement
  over whole runs, with concrete failing states in `PageWitnesses`. The mapping, unmapping and translating
  walks follow the documented behaviour of the `x86_64` crate and section 4.5 of the Intel SDM, volume 3A.
* **Process teardown and the user-range check** (`Teardown`, `Processes`, `UserPtr`).
* **The scancode ring** (`Scancodes`): a push may interrupt a pop between any two of its steps.

Quotients and multiples that would need non-linear arithmetic are kept in `Multiples`; byte strings and
little-endian words are in `Bytes`.

## How to read it

Code that updates state is a class or a method with loops, and its `ensures` ties the new state to a
function of the old one: `VfsManager.CreateFile` to `VfsSpec.CreateFile`, `VirtualMemoryManager.MapPage` to
`VmmSpec.MapPage`, `PhysicalFrameAllocator.AllocateFrame` to `Frames.TakeOne`, and so on. What those
functions mean is stated by the lemmas marked MAIN. `dafny verify dfyconfig.toml` checks everything.

## Where the code does not do what its comments or names suggest

Each of these is proved, with the exact condition under which the expected behaviour holds. Where a member of
`Witnesses`, `PageWitnesses` or `ImageWitness` is named, it is a concrete state in which the failure happens.

* A write grows a chain by one distinct cluster at most, because `alloc_cluster` does not mark what it returns
  (`kernel/src/fs/fat32/fat.rs:85-93`, `kernel/src/fs/fat32/mod.rs:121-124`). A new file therefore reads back
  exactly when it fits two clusters or is zero past the first: `Contents.CreateThenRead`,
  `Rewrites.OverwriteThenRead`, `Volumes.WriteReadBack`, `Appends.WriteAppends`. What one write loses no later
  one brings back (`Streams.FedFileHolds`). `Witnesses.LostData` loses a file of three clusters.
* A name that does not fit 8.3 is stored truncated, and the file is then not found under the name it was
  created with: `Contents.CreateThenRead`, `Streams.UnfitNewFileIsMissing`, `DirEntries.Name83RoundTrip`. What
  is found under the truncated name is said by `Contents.CreateUnderStoredName`.
* `delete` hides the first record of a name; the name is gone exactly when there was only one:
  `Rewrites.DeleteThenRead`. `Witnesses.TwoRecords` makes two.
* The method `delete` takes `.` and `..` for names like any other (`kernel/src/fs/fat32/dir.rs:158-196`) and
  frees the directory's own chain or its parent's; the shell's `rm` does not get there, as it turns away what
  `stat` calls a directory first (`kernel/src/terminal/mod.rs:797-814`). An Ok `delete` keeps the volume well
  formed exactly when the record found is a dot record naming no used cluster, or a file, or an empty
  directory (`Exactness.DeleteExact`). It fails so after every successful `mkdir` under a fitting name
  (`Failures.MkdirThenDeleteDots`), and `Witnesses.RootFreed` frees the root directory.
* `create_file` over an existing file frees its chain even when a descriptor may still write through it. The
  state stays sound exactly when no such descriptor exists or the freed first cluster is the one handed out
  again: `Exactness.OverwriteExact`. Otherwise the next write through the descriptor returns Ok and makes a
  chain that no entry owns: `Failures.StaleWriteBreaks`. `Witnesses.OverwrittenOpen` goes through both calls.
  Deleting an open file is the same failure without a way out: `Exactness.StepExact`.
* `create_file` and `mkdir` do not check that a component of the parent path is a directory, and write the new
  record into the data of a file: `Failures.ThroughFileBreaks`, with the exact condition in
  `Failures.CreateAnywhereExact` and `Failures.MkdirAnywhereExact`; `Witnesses.MadeThroughFile` shows both.
  `delete` and `open` take the bytes of the file for records: `Detours.DeleteDetourExact`,
  `Detours.OpenDetourExact`. `Witnesses.DeletedThroughFile` frees the root's chain by a record kept in a file.
* A name beginning with NUL or 0xE5 is stored as an end mark or a deleted record, and a directory grows past
  the 100001 clusters `read_chain` follows: a new entry keeps the volume well formed exactly when the name can
  be stored and there is room (`Exactness.FreshExact`, `Exactness.MakeDirExact`). `Witnesses.UnstorableName`
  shows both names; for the long chains no state is built. A file written past that length is lost too
  (`Exactness.WriteTooLong`).
* A call that fails after it has made a chain does not take it back: an error leaves the state sound exactly
  when the call did not set out to make a record while a cluster was free, nor let a chain grow past what
  `read_chain` follows (`Errors.ErrorExact`). `Witnesses.ClusterLost` loses the last free cluster.
* A write at position 0 hands on the new bytes alone, so what the file held behind them becomes zeros;
  anywhere else it is kept: `Appends.WriteInside`, `Descriptors.OpenThenWrite`.
* `read` does not move the descriptor: the same bytes come again (`Descriptors.ReadGives`).
* `stat` resolves its path from the root before it does so from the working directory, and fails where the
  first does: `Listings.StatMeans`.
* `delete` answers IoError for a name that is not there: `Answers.DeleteAnswers`.
* `..` always leads to the root directory: `Paths.DotDotGoesToRoot`.
* `free_frames` without validation keeps the counter right exactly when every frame of the range was reserved:
  `Frames.ClearRangeCount`, `PhysMem.PhysicalFrameAllocator.FreeFrames`.
* `discover_existing_mappings` builds addresses without sign extension, so `VirtAddr::new` panics in it
  exactly when a page is mapped in the upper half: `Regions.BootIsCanonical`, `PageWitnesses.UpperBootPage`.
* `remap_page` with an unaligned new frame reports an error after having unmapped the page:
  `VmmRuns.RemapPageMeans`, `PageWitnesses.UnalignedRemap`.
* A mapping attempted inside a large page fails but widens that page's access flags: `Paging.FailedMapWidens`.
  `PageWitnesses.WidenedPage` opens a kernel page to users. The region index does not follow: over every run
  it may say less access than a large page grants, and for 4 KiB pages it is exact (`VmmFlags.BootRunsFlags`).
* Teardown returns no intermediate page table, although its comment says so: `Teardown.TablesStayAllocated`.
* The user-range check accepts large pages whatever their flags: `UserPtr.RangeAccepted` with
  `UserPtr.Accepted`.
* The host tool loses what follows a second dot of a name (`Installs.ToolNameRoundTrip`), and a name without a
  dot makes the image one byte longer and moves everything behind the root directory (`AddToFat32.AddFile`).
  `ImageWitness.DotlessName` is a well-formed image to which this happens.
* The host tool adds a second record for a name the root already holds; the kernel finds whichever comes
  first: `Installs.InstalledIsFound`.

## Model

| member | source | states |
|---|---|---|
| Chains.FollowIsWalk | kernel/src/fs/fat32/fat.rs:39-65 | on every table, cyclic or damaged, `read_chain` returns a list exactly when it is the one walk from the start: no duplicate, at most 100001 clusters, neighbours linked, stopped only at an end, bad or free mark, a revisit or the limit |
| Chains.FollowFails | kernel/src/fs/fat32/fat.rs:39-65 | when it fails, a readable linked beginning leads to a cluster whose word the device cannot supply |
| Chains.FollowWhole | kernel/src/fs/fat32/fat.rs:39-65 | on a well-formed chain within the limit the whole chain is returned |
| Chains.LinkMakesChain | kernel/src/fs/fat32/mod.rs:137-144 | linking distinct in-range clusters makes them a well-formed chain ended by the end-of-chain mark |
| Chains.LinkCopies | kernel/src/fs/fat32/mod.rs:121-144 | linking a chain with its one new cluster repeated leaves the table that linking it once leaves |
| Chains.FreeCount | kernel/src/fs/fat32/fat.rs:67-73 | freeing a chain makes exactly its clusters free, so the free count rises by its length |
| Chains.LowestFree | kernel/src/fs/fat32/fat.rs:75-98 | `alloc_cluster` answers with a free cluster of the data area |
| Volumes.NeededIsDivision | kernel/src/fs/fat32/mod.rs:113-115 | the number of clusters for a length is the rounded-up quotient the source computes |
| Volumes.WriteEffect | kernel/src/fs/fat32/mod.rs:106-153 | a successful data write leaves a well-formed chain with at most one cluster more, taken from the free ones, and changes no word or byte outside it |
| Volumes.WriteReadBack | kernel/src/fs/fat32/mod.rs:106-153 | the data written reads back exactly when it needs at most one cluster more than the chain had, or is zero past it |
| Volumes.LossStays | kernel/src/fs/fat32/mod.rs:106-153 | a chain that holds some byte of a file wrongly does not hold that file and more after the next write at its end either |
| Volumes.CreateEffect | kernel/src/fs/fat32/mod.rs:155-164 | a new file takes one or two free clusters as its chain and touches no other |
| Volumes.CreateReadBack | kernel/src/fs/fat32/mod.rs:155-164 | its data reads back exactly when it fits two clusters or is zero past the first |
| Bpb.Fat32Bpb.GeometryFormulas | kernel/src/fs/fat32/bpb.rs:82-94 | data start, cluster sector and cluster count are the source's products and quotients |
| Bpb.Fat32Bpb.ClusterInside | kernel/src/fs/fat32/bpb.rs:87-94 | every cluster counted lies in the data area and on the volume |
| Bpb.Fat32Bpb.ClustersDisjoint | kernel/src/fs/fat32/bpb.rs:87-89 | distinct clusters occupy disjoint sector ranges |
| Bpb.Fat32Bpb.FatSectorsDistinct | kernel/src/fs/fat32/fat.rs:17-37 | sectors of the FAT copies never coincide |
| SectorWrites.WordAfterWrite | kernel/src/fs/fat32/fat.rs:17-37 | after a FAT write the written word holds the low 28 bits of the value below its old top four bits, and every other word all its 32 bits |
| SectorWrites.FatWordMirrored | kernel/src/fs/fat32/fat.rs:28-36 | equal FAT copies stay equal |
| SectorWrites.FatWordKeeps | kernel/src/fs/fat32/fat.rs:17-37 | reserved sectors, reserved bits and the agreement of the copies survive |
| SectorWrites.FatWordAbs | kernel/src/fs/fat32/fat.rs:17-37 | seen as a volume, a FAT write changes one table word and no cluster's bytes |
| SectorWrites.ClusterAbs | kernel/src/fs/fat32/mod.rs:63-78 | seen as a volume, a cluster write changes that cluster's bytes and nothing else |
| Mounting.FromBytes | kernel/src/fs/fat32/bpb.rs:48-68 | a boot sector is taken if and only if the 16-bit FAT size is zero, the 32-bit one is not, and the type name is text that starts with FAT32 |
| Mounting.AsciiTail | kernel/src/fs/fat32/bpb.rs:62-65 | the type name FAT32 followed by any three ASCII bytes is taken |
| Mounting.Mount | kernel/src/fs/fat32/mod.rs:16-32 | mounting succeeds exactly on a device whose first sector is taken, and keeps its geometry |
| Fat.ReadCluster | kernel/src/fs/fat32/mod.rs:46-61 | the sectors of a cluster fill the buffer; a buffer too small is refused |
| Fat.WriteCluster | kernel/src/fs/fat32/mod.rs:63-78 | the volume changes in exactly that cluster, or not at all when the buffer is too small |
| Fat.ReadFatEntry | kernel/src/fs/fat32/fat.rs:5-15 | the word read is the volume's, and fails exactly where the device ends |
| Fat.WriteFatEntry | kernel/src/fs/fat32/fat.rs:17-37 | one table word changes; the other copies, the top bits and all data stay |
| Fat.ReadChain | kernel/src/fs/fat32/fat.rs:39-65 | the loop gives what following the table gives |
| Fat.FreeChain | kernel/src/fs/fat32/fat.rs:67-73 | exactly the clusters of the chain are marked free |
| Fat.AllocCluster | kernel/src/fs/fat32/fat.rs:75-98 | the lowest free cluster, zeroed and not marked; errors when there is none |
| FileData.ReadFile | kernel/src/fs/fat32/mod.rs:80-104 | as many bytes of the chain as the size, the buffer and the chain allow |
| FileData.WriteFileData | kernel/src/fs/fat32/mod.rs:106-153 | growing, storing and linking leave the volume that `WriteClusters` describes |
| FileData.AllocateAndWrite | kernel/src/fs/fat32/mod.rs:155-164 | a new chain with the data, as `WriteNewFile` describes |
| DirEntries.ClusterAndSize | kernel/src/fs/fat32/bpb.rs:140-147 | cluster and size written into an entry are read back, and leave name and attributes alone |
| DirEntries.Name83RoundTrip | kernel/src/fs/fat32/bpb.rs:169-210 | printing a stored name gives it back if and only if it fits 8.3 |
| DirEntries.ComputeFullNameUpper | kernel/src/fs/fat32/bpb.rs:169-187 | the printing loop gives name, dot and extension up to the first space or NUL of each |
| DirEntries.SetName83 | kernel/src/fs/fat32/bpb.rs:189-210 | the storing loop splits at the first dot and pads both fields |
| Directory.ScansAgree | kernel/src/fs/vfs/mod.rs:577-617 | with nothing behind the end marker, the scan of `update_dir_entry` picks the slot `find_entry` picks |
| Directory.AddVisible | kernel/src/fs/fat32/dir.rs:107-134 | filling the first hole adds exactly the new entry to what is visible, keeps the others in order, and keeps the end-marker rule |
| Directory.AppendVisible | kernel/src/fs/fat32/dir.rs:136-155 | so does appending one zeroed cluster when there is no hole |
| Directory.RemoveVisible | kernel/src/fs/fat32/dir.rs:158-196 | removing hides exactly the first match and keeps the end-marker rule |
| Directory.SetSlotEffect | kernel/src/fs/fat32/dir.rs:107-134 | overwriting a slot on disk changes that slot and nothing outside the directory |
| Dir.ReadDirEntries | kernel/src/fs/fat32/dir.rs:15-68 | the listing of the directory's slots, in order, without skipped and dot entries |
| Dir.FindEntry | kernel/src/fs/fat32/dir.rs:70-105 | the first match before the end marker |
| Dir.AddEntry | kernel/src/fs/fat32/dir.rs:107-156 | the entry goes to the first hole, or to a new cluster linked to the directory's chain |
| Dir.RemoveEntry | kernel/src/fs/fat32/dir.rs:158-196 | the first match gets the deletion mark and is handed back |
| Paths.ResolveIsFold | kernel/src/fs/vfs/mod.rs:128-198 | resolution is the fold of directory lookup over the components that are neither empty nor "." |
| Paths.ResolveConcat | kernel/src/fs/vfs/mod.rs:128-198 | resolving a joined path is resolving its second part from where the first leads |
| Paths.DotDotGoesToRoot | kernel/src/fs/vfs/mod.rs:148-171 | ".." leads to the root from everywhere |
| Paths.ResolveIsParentThenFind | kernel/src/fs/vfs/mod.rs:680-699 | for entries stored without lower-case letters, resolving a path is resolving its parent and finding the name there |
| Storage.Rechain | kernel/src/fs/fat32/mod.rs:106-153 | changing one chain within itself and free clusters keeps the set of chains disjoint, well formed and covering |
| Storage.Unchain | kernel/src/fs/fat32/fat.rs:67-73 | freeing one chain keeps the rest disjoint, well formed and covering |
| Storage.ChainsUnique | kernel/src/fs/fat32/fat.rs:39-65 | a FAT splits into chains in one way only |
| Tree.TreeAdd | kernel/src/fs/vfs/mod.rs:561-574 | a new entry for a new chain keeps every chain owned by exactly one live entry, and every directory below the root |
| Tree.TreeRemove | kernel/src/fs/vfs/mod.rs:619-637 | removing an entry with its chain keeps every other chain owned by exactly one live entry, and every other directory below the root |
| Tree.EveryDirReached | kernel/src/fs/vfs/mod.rs:128-198 | every directory of a well-formed tree is reached from the root in finitely many steps down |
| Operations.FreshKeeps | kernel/src/fs/vfs/mod.rs:561-574 | creating a file under a name that can be stored, in a directory with room, keeps the volume well formed and every other chain with its bytes |
| Operations.MakeDirKeeps | kernel/src/fs/vfs/mod.rs:478-527 | making a directory with its dot records, name and room given, keeps the volume well formed |
| Operations.OverwriteKeeps | kernel/src/fs/vfs/mod.rs:546-560 | overwriting a file keeps the volume well formed and every other chain with its bytes |
| Operations.RemovedKeeps | kernel/src/fs/vfs/mod.rs:619-637 | removing a file or an empty directory and freeing its chain keeps the volume well formed; the free count rises by the chain's length |
| Operations.WriteKeeps | kernel/src/fs/vfs/mod.rs:347-390 | storing data through a descriptor, on a chain that stays within `read_chain`'s limit, keeps the volume well formed and the directories as they were |
| Operations.UpdateSizeKeeps | kernel/src/fs/vfs/mod.rs:392-441 | updating a stored size keeps the volume well formed and every other entry |
| TreePaths.ParentInTree | kernel/src/fs/vfs/mod.rs:680-699 | a parent path reached through directories resolves to a directory of the tree |
| Runs.DeleteStep | kernel/src/fs/vfs/mod.rs:619-637 | a successful harmless delete keeps the invariant and, but for dot records, raises the number of free clusters by exactly the length of the deleted chain |
| Runs.StepKeeps | kernel/src/fs/vfs/mod.rs:217-637 | every harmless call that reaches its parent through directories and returns Ok keeps the mounted state sound, descriptors included |
| Runs.RunKeeps | kernel/src/fs/vfs/mod.rs:217-637 | so does every run of such calls, of any length: the FAT stays a set of disjoint, acyclic, in-range chains, each headed by the root or one live entry |
| Exactness.DeleteExact | kernel/src/fs/vfs/mod.rs:619-637 | an Ok delete keeps the volume well formed if and only if it finds a dot record that names no used cluster, a file, or a directory with nothing in it |
| Exactness.OverwriteExact | kernel/src/fs/vfs/mod.rs:546-560 | an Ok overwrite keeps the state sound if and only if the file is not open for writing or its first cluster is the one handed out next |
| Exactness.FreshExact | kernel/src/fs/vfs/mod.rs:561-574 | an Ok creation in any chain taken for a directory keeps the volume well formed if and only if that chain is a directory, the name can be stored and there is room |
| Exactness.MakeDirExact | kernel/src/fs/vfs/mod.rs:478-527 | the same if and only if for a new directory |
| Exactness.WriteTooLong | kernel/src/fs/vfs/mod.rs:347-390 | a write that takes a chain past `read_chain`'s limit leaves no well-formed volume |
| Exactness.StepExact | kernel/src/fs/vfs/mod.rs:217-637 | any call that reaches its parent through directories and returns Ok leaves a sound state if and only if it is harmless |
| Exactness.RunExact | kernel/src/fs/vfs/mod.rs:217-637 | of the runs of such calls, exactly those of harmless calls pass sound states only |
| Exactness.LayoutUnique | kernel/src/fs/fat32/fat.rs:39-65 | a well-formed volume has one set of chains and directories |
| Failures.DeleteDotBreaks | kernel/src/fs/vfs/mod.rs:619-637 | deleting a dot record that names a chain returns Ok and leaves no well-formed volume |
| Failures.DeleteRootBreaks | kernel/src/fs/vfs/mod.rs:619-637 | so does deleting any record that names the root's first cluster |
| Failures.MkdirThenDeleteDots | kernel/src/fs/vfs/mod.rs:478-637 | after every successful mkdir under a fitting name, deleting the new directory's `.` or `..` returns Ok and leaves no well-formed volume |
| Failures.StaleWriteBreaks | kernel/src/fs/vfs/mod.rs:347-390 | every write through a descriptor whose first cluster is free returns Ok and leaves no well-formed volume |
| Failures.CreateAnywhereExact | kernel/src/fs/vfs/mod.rs:529-575 | wherever the parent part of a path leads, an Ok creation keeps the volume well formed if and only if that is a directory, the name can be stored and there is room |
| Failures.MkdirAnywhereExact | kernel/src/fs/vfs/mod.rs:478-527 | the same if and only if for mkdir |
| Failures.ThroughFileBreaks | kernel/src/fs/vfs/mod.rs:478-575 | making a file or directory below a file, when it returns Ok, leaves no well-formed volume; a file, that is, unless the bytes of the file above hold a record of the name |
| Detours.DeleteDetourExact | kernel/src/fs/vfs/mod.rs:619-637 | an Ok delete whose parent part leads to a file keeps the volume well formed if and only if the bytes taken for a record name no used cluster |
| Detours.OpenDetourExact | kernel/src/fs/vfs/mod.rs:217-323 | an Ok open whose parent part leads to a file leaves a sound state if and only if a record is read there and it is opened for reading or names a file's first cluster |
| Errors.ErrorExact | kernel/src/fs/vfs/mod.rs:217-637 | a call that reaches its parent through directories and answers an error leaves a sound state if and only if it did not set out to make a record while a cluster was free, nor grow a chain past the limit |
| Errors.CallExact | kernel/src/fs/vfs/mod.rs:217-637 | so for any call, whatever it answers: soundness holds afterwards if and only if the call keeps it |
| Errors.CallsExact | kernel/src/fs/vfs/mod.rs:217-637 | of the runs from a sound state, whatever the calls answer, exactly those whose calls keep the state they meet pass sound states only |
| VfsReady.AllowedStaysInside | kernel/src/fs/vfs/mod.rs:217-665 | an allowed call on a sound state, and reading a file, follow no chain out of the FAT |
| Witnesses.LostData | kernel/src/fs/vfs/mod.rs:529-575 | a file of three clusters is created on a volume just formatted with answer Ok, and does not read back |
| Witnesses.TwoRecords | kernel/src/fs/vfs/mod.rs:529-575 | two creations that return Ok leave two records of one truncated name |
| Witnesses.RootFreed | kernel/src/fs/vfs/mod.rs:478-637 | mkdir of A and delete of A/.. both return Ok, and the root's chain is free |
| Witnesses.UnstorableName | kernel/src/fs/vfs/mod.rs:561-574 | creating a file named by one byte NUL or 0xE5 returns Ok and leaves no well-formed volume |
| Witnesses.ClusterLost | kernel/src/fs/vfs/mod.rs:529-575 | creating a file of two clusters where one is free answers NoSpace and leaves no well-formed volume |
| Witnesses.MadeThroughFile | kernel/src/fs/vfs/mod.rs:478-575 | with a file A in the root, mkdir and create_file of A/B both return Ok and each leaves no well-formed volume |
| Witnesses.DeletedThroughFile | kernel/src/fs/vfs/mod.rs:619-637 | with a file A whose bytes read as a record of B, delete of A/B returns Ok and frees the root's chain |
| Witnesses.OverwrittenOpen | kernel/src/fs/vfs/mod.rs:546-560 | a sound state in which overwriting a file open for writing returns Ok and ends soundness, and the next write through the descriptor returns Ok and leaves no well-formed volume |
| Contents.CreateThenRead | kernel/src/fs/vfs/mod.rs:529-575 | fresh branch: for a name that fits 8.3, `read_file_content` gives the data back if and only if it fits two clusters or is zero past the first; for another name it gives NotFound as long as the path still leads to its directory |
| Contents.CreateUnderStoredName | kernel/src/fs/vfs/mod.rs:529-575 | under the stored, perhaps truncated, name an older record before the first hole is still read; otherwise the new data is, by the same if and only if |
| Contents.CreateParents | kernel/src/fs/vfs/mod.rs:529-575 | a creation under a name that fits, or whose stored form is free, leaves every parent path leading where it led |
| Contents.CreateKeepsOthers | kernel/src/fs/vfs/mod.rs:529-575 | fresh branch: every file of another stored name or directory reads as before, as long as its path still leads to its directory |
| Rewrites.OverwriteThenRead | kernel/src/fs/vfs/mod.rs:546-560 | overwrite branch: the same if and only if, whatever the file held |
| Rewrites.OverwriteKeepsOthers | kernel/src/fs/vfs/mod.rs:546-560 | overwrite branch: every other file reads as before |
| Rewrites.DeleteThenRead | kernel/src/fs/vfs/mod.rs:619-637 | after a delete the file is not found if and only if its directory held one record of the name |
| Rewrites.DeleteKeepsOthers | kernel/src/fs/vfs/mod.rs:619-637 | deleting a file or an empty directory leaves every other file reading as before, as long as its path still leads to its directory; a deleted file moves no path |
| Directories.MkdirThenResolve | kernel/src/fs/vfs/mod.rs:478-527 | a directory made under a name that fits 8.3 is where its path then leads, and its listing is empty |
| Directories.MkdirKeepsFiles | kernel/src/fs/vfs/mod.rs:478-527 | every file of another stored name or directory reads as before, as long as its path still leads to its directory |
| Directories.MkdirParents | kernel/src/fs/vfs/mod.rs:478-527 | under a name that fits, or whose stored form is free, every parent path leads where it led |
| Bystanders.StepKeepsOthers | kernel/src/fs/vfs/mod.rs:217-637 | any allowed call that returns Ok, writes and opens included, leaves the content of every file it spares, as long as the path still leads there |
| Appends.WriteAppends | kernel/src/fs/vfs/mod.rs:347-441 | a write at the end of a file moves the descriptor to the new end, and the file reads as given bytes and new ones if and only if it held the given bytes and all need at most one more cluster than the chain had or are zero past it |
| Appends.WriteInside | kernel/src/fs/vfs/mod.rs:347-441 | a write at any position of a file holding `w` leaves the descriptor behind the new bytes and the stored size at least there; the file then reads as `w` with the new bytes laid over it (from the beginning: the new bytes and zeros) if and only if what is handed on survives on its chain |
| Descriptors.OpenExisting | kernel/src/fs/vfs/mod.rs:217-323 | opening a file that reads as `w`, in any mode but CreateNew, leaves the volume alone and adds one descriptor: next number, that path and mode, position 0, size of `w`, first cluster of the record found; CreateNew answers AlreadyExists |
| Descriptors.OpenDirectory | kernel/src/fs/vfs/mod.rs:223-240 | a path without a last name opens for reading only, with size 0 on the cluster it leads to; other modes answer InvalidPath |
| Descriptors.OpenThenRead | kernel/src/fs/vfs/mod.rs:325-345 | a file opened in any mode but CreateNew reads from its beginning, as many bytes as the buffer and the file have, every time |
| Descriptors.ReadGives | kernel/src/fs/vfs/mod.rs:325-345 | from position `p` of bytes `w` a read gives the next ones, as many as buffer and file allow, and moves nothing |
| Descriptors.OpenThenWrite | kernel/src/fs/vfs/mod.rs:217-441 | an existing file opened for writing and written once reads as the new bytes and zeros up to its old length if and only if the new bytes survive on its chain |
| Descriptors.CanonicalSteps | kernel/src/fs/vfs/mod.rs:667-678 | a relative path takes the steps of the working directory and then its own; an absolute one only its own |
| Descriptors.CanonicalResolves | kernel/src/fs/vfs/mod.rs:667-678 | a relative path resolves from where the working directory leads |
| Listings.CreatedIsListed | kernel/src/fs/vfs/mod.rs:200-215 | after a file is made its directory lists one node more, among the others in order: the name in lower case, no directory, the length of the data |
| Listings.MadeIsListed | kernel/src/fs/vfs/mod.rs:200-215 | so does a directory made, listed as one with size 0 |
| Listings.DeletedIsUnlisted | kernel/src/fs/vfs/mod.rs:200-215 | what is deleted is listed no more, and all the rest as before |
| Listings.ListedMeans | kernel/src/fs/fat32/dir.rs:15-68 | what is listed first under a name is what the calls find there: a directory exactly when reading it answers NotAFile, otherwise a file whose content has the length listed |
| Listings.StatMeans | kernel/src/fs/vfs/mod.rs:448-476 | `stat` of a last name succeeds if and only if the path also resolves from the root and the name is in its directory; it reports that entry, for a file the length of its content |
| Listings.StatAbsolute | kernel/src/fs/vfs/mod.rs:448-476 | for an absolute path these are one: it succeeds exactly when the name is there |
| Listings.StatDirectory | kernel/src/fs/vfs/mod.rs:448-476 | a path without a last name is reported as a directory of size 0 on the cluster it leads to |
| Records.CreatedRecord | kernel/src/fs/vfs/mod.rs:561-574 | a new file's record holds its name split at the first dot, attribute 0x20, its cluster and the length of the data, and zeros elsewhere |
| Records.MadeRecords | kernel/src/fs/vfs/mod.rs:495-524 | a new directory's record and its two dot records, byte for byte: attribute 0x10 in all three, their names, and the clusters of itself, itself and its parent |
| Records.OverwrittenRecord | kernel/src/fs/vfs/mod.rs:577-617 | an overwrite changes first cluster and size in the record and no other byte of it |
| Records.WrittenRecord | kernel/src/fs/vfs/mod.rs:392-441 | a write changes the size in the record and no other byte of it |
| Answers.MissingParent | kernel/src/fs/vfs/mod.rs:680-699 | where the parent of a path is missing every call answers NotFound and changes nothing |
| Answers.CreateAnswers | kernel/src/fs/vfs/mod.rs:529-575 | which answer `create_file` gives: InvalidPath, NotAFile, NoSpace exactly when no chain can be had, IoError when the directory cannot grow |
| Answers.MkdirAnswers | kernel/src/fs/vfs/mod.rs:478-527 | which answer `mkdir` gives: InvalidPath, AlreadyExists for any entry of the name, NoSpace exactly when no cluster is free |
| Answers.DeleteAnswers | kernel/src/fs/vfs/mod.rs:619-637 | which answer `delete` gives: InvalidPath, IoError for a missing name, Ok otherwise |
| Answers.ReadAnswers | kernel/src/fs/vfs/mod.rs:639-665 | which answer `read_file_content` gives, and on Ok as many bytes as the record says |
| Answers.SizeAnswers | kernel/src/fs/vfs/mod.rs:392-441 | a size update answers Ok also for a missing name, and then changes nothing |
| Answers.OpenRefuses | kernel/src/fs/vfs/mod.rs:217-323 | exactly when `open` answers AlreadyExists, NotAFile or NotFound, and that it then changes nothing |
| Answers.WriteAnswers | kernel/src/fs/vfs/mod.rs:347-390 | exactly when `write` answers NotFound or PermissionDenied; IoError only when no cluster is free; an error changes nothing |
| Streams.FedFileHolds | kernel/src/fs/vfs/mod.rs:217-637 | through any run of allowed calls that spare the file between the writes, it holds what was there followed by what was written if and only if it held it at the start and every write survives |
| Streams.NewFileIsConcat | kernel/src/fs/vfs/mod.rs:217-637 | a file opened with CreateNew under a fitting name and written any number of times, other sparing calls in between, has the length of the writes as stored size, and reads back as their concatenation if and only if every one survives on the chain as it then is |
| Streams.UnfitNewFileIsMissing | kernel/src/fs/vfs/mod.rs:217-441 | under a name that does not fit the same calls, other sparing calls in between, return Ok and reading the name gives NotFound, as long as the path still leads to its directory |
| Vfs.VfsManager.ResolvePath | kernel/src/fs/vfs/mod.rs:128-198 | the loop over components gives what resolution on the volume gives |
| Vfs.VfsManager.ResolveParent | kernel/src/fs/vfs/mod.rs:680-699 | the parent's cluster and the last name |
| Vfs.VfsManager.CreateFile | kernel/src/fs/vfs/mod.rs:529-575 | both branches leave the volume and answer that `VfsSpec.CreateFile` describes |
| Vfs.VfsManager.UpdateDirEntry | kernel/src/fs/vfs/mod.rs:577-617 | cluster and size of the entry change, or the answer says there is none |
| Vfs.VfsManager.Mkdir | kernel/src/fs/vfs/mod.rs:478-527 | a cluster with "." and ".." and an entry in the parent, as `VfsSpec.Mkdir` describes |
| Vfs.VfsManager.Delete | kernel/src/fs/vfs/mod.rs:619-637 | the entry gets its mark and the chain is freed, as `VfsSpec.Delete` describes |
| Vfs.VfsManager.ReadFileContent | kernel/src/fs/vfs/mod.rs:639-665 | the bytes of the file, or the error of the branch taken |
| Vfs.VfsManager.Open | kernel/src/fs/vfs/mod.rs:217-323 | descriptor table, next number and volume as `VfsSpec.Open` describes, mode by mode |
| Vfs.VfsManager.WriteTo | kernel/src/fs/vfs/mod.rs:347-390 | data composed with the file's old bytes, stored, position and size advanced, size recorded in the directory |
| Vfs.VfsManager.UpdateFileSize | kernel/src/fs/vfs/mod.rs:392-441 | the first entry of the name gets the new size |
| Vfs.VfsManager.CloseFd | kernel/src/fs/vfs/mod.rs:443-446 | exactly the descriptors with that number go |
| Vfs.VfsManager.ReadFrom | kernel/src/fs/vfs/mod.rs:325-345 | the bytes of the file from the descriptor's position on, as many as the buffer takes |
| Vfs.VfsManager.ListDir | kernel/src/fs/vfs/mod.rs:200-215 | one node for each entry listed, in order |
| Vfs.VfsManager.Stat | kernel/src/fs/vfs/mod.rs:448-476 | the two resolutions and the lookup, as `VfsSpec.Stat` describes |
| Installs.FreeClusters | tools/add_to_fat32.py:67-82 | the clusters collected are free, distinct and in range, and no more than needed |
| Installs.RefusalMeans | tools/add_to_fat32.py:67-126 | the tool refuses for want of clusters exactly when fewer are free than needed, and for want of a slot exactly when the root's first cluster has neither end mark nor deleted entry |
| Installs.EntryFields | tools/add_to_fat32.py:133-157 | for a name with a dot the entry holds cluster and size, and no scan of the kernel skips it |
| Installs.ToolNameRoundTrip | tools/add_to_fat32.py:133-146 | the kernel prints the installed name back if and only if it fits 8.3 and has a single dot |
| Installs.ChainsKept | tools/add_to_fat32.py:87-110 | every earlier chain is still there, and every one but the root directory's has its bytes |
| Installs.InstalledIsFound | tools/add_to_fat32.py:62-159 | the kernel finds an entry with the input's size whose chain is the clusters taken and whose bytes are the input's, for any number of clusters within `read_chain`'s limit; where a record of the name lies before the first hole it finds that one as before |
| Installs.InstalledReadsBack | tools/add_to_fat32.py:62-159 | unless an older record lies before it, `read_file_content` of that name gives exactly the input bytes |
| InstallsKept.InstalledIsWellFormed | tools/add_to_fat32.py:62-159 | a well-formed volume is well formed again with the file installed |
| InstallsKept.InstalledKeepsOthers | tools/add_to_fat32.py:62-159 | every other file of the tree reads as before, as long as its path still leads to its directory |
| InstallsKept.InstalledParents | tools/add_to_fat32.py:112-159 | a name that was not in the root moves no path |
| AddToFat32.FindFreeClusters | tools/add_to_fat32.py:67-82 | the scan over the copied FAT gives the lowest free clusters |
| AddToFat32.StoreChunks | tools/add_to_fat32.py:87-97 | each cluster takes its zero-padded stretch and nothing before the data area changes |
| AddToFat32.LinkChain | tools/add_to_fat32.py:99-106 | the words of the clusters become the chain and nothing before the FAT changes |
| AddToFat32.MirrorFat | tools/add_to_fat32.py:108-110 | the second copy equals the first and the volume is unchanged |
| AddToFat32.FindSlot | tools/add_to_fat32.py:112-129 | the first end marker or deleted entry of the root's first cluster |
| AddToFat32.BuildEntry | tools/add_to_fat32.py:133-157 | the entry bytes, one too many for a name without a dot |
| AddToFat32.AddFile | tools/add_to_fat32.py:19-163 | the image written back holds the installed volume, keeps the boot sector and has equal FAT copies; the errors are exactly the tool's; without a dot every cluster behind the root directory begins a byte late |
| AddToFat32.InstallThenRead | tools/add_to_fat32.py:19-163 | the tool's image on a block device, mounted and read by `read_file_content`, gives the file the tool was given, unless an older record of the name lies before the first hole; it is refused exactly when the tool finds no space or the boot sector is not taken for FAT32 |
| ImageWitness.DotlessName | tools/add_to_fat32.py:133-159 | a well-formed image to which adding a file named A gives one byte more and moves the clusters behind the root directory |
| Bitmap.CountOnesIsCount | kernel/src/memory/physmem.rs:801-811 | counting a byte's ones counts its reserved frames |
| Frames.NaiveScanIsLowest | kernel/src/memory/physmem.rs:623-667 | the naive scan gives the lowest free run at or above its start, and nothing exactly when there is none |
| Frames.ScanJump | kernel/src/memory/physmem.rs:636-645 | jumping past a reserved frame skips no free run |
| Frames.CountRange | kernel/src/memory/physmem.rs:647-651 | reserving a free run raises the population count by its length, freeing a reserved one lowers it |
| Frames.TakenRun | kernel/src/memory/physmem.rs:647-658 | taking a run reserves exactly its frames and moves the hint to the first free frame behind it |
| Frames.TakenHinted | kernel/src/memory/physmem.rs:598-616 | a single allocation reserves exactly the hinted frame and moves the hint to the first free frame behind it |
| Frames.ClearRangeCount | kernel/src/memory/physmem.rs:700-726 | clearing a range lowers the count by its length if and only if every frame of it was reserved |
| PhysMem.PhysicalFrameAllocator.constructor | kernel/src/memory/physmem.rs:401-436 | all frames free, at most 4 GiB of them, counter and hint zero |
| PhysMem.PhysicalFrameAllocator.IsFrameReserved | kernel/src/memory/physmem.rs:439-449 | the frame's bit; frames past the end count as reserved |
| PhysMem.PhysicalFrameAllocator.MarkFrameReserved | kernel/src/memory/physmem.rs:452-461 | exactly that frame's bit is set |
| PhysMem.PhysicalFrameAllocator.MarkFrameFree | kernel/src/memory/physmem.rs:464-476 | exactly that frame's bit is cleared and the hint moves down to it when it was above |
| PhysMem.PhysicalFrameAllocator.RecalculateNextFree | kernel/src/memory/physmem.rs:479-484 | the hint becomes the lowest free frame, or the frame count |
| PhysMem.PhysicalFrameAllocator.ReserveRange | kernel/src/memory/physmem.rs:489-509 | the frames the byte range touches are reserved, counted once each, and the invariant is kept |
| PhysMem.PhysicalFrameAllocator.AllocateFrame | kernel/src/memory/physmem.rs:598-616 | hands out the hinted frame, which is free although its bit is not tested, and fails exactly when the hint is the frame count |
| PhysMem.PhysicalFrameAllocator.FindRun | kernel/src/memory/physmem.rs:634-645 | the jumping search gives what the naive scan gives |
| PhysMem.PhysicalFrameAllocator.AllocateFrames | kernel/src/memory/physmem.rs:623-667 | the lowest run of the wanted length at or above the hint, or nothing exactly when there is none; the hint moves behind the run |
| PhysMem.PhysicalFrameAllocator.FreeFrame | kernel/src/memory/physmem.rs:674-694 | a reserved frame becomes free; others are refused as invalid or double frees and change nothing but the statistics |
| PhysMem.PhysicalFrameAllocator.FreeFrames | kernel/src/memory/physmem.rs:700-726 | with validation the whole range or nothing is freed; without it the range is freed, and the invariant holds afterwards if and only if all of it was reserved |
| PhysMem.PhysicalFrameAllocator.UpdateFragmentationStats | kernel/src/memory/physmem.rs:731-759 | exactly the number of maximal free runs and the length of the longest |
| PhysMem.PhysicalFrameAllocator.ValidateBitmap | kernel/src/memory/physmem.rs:801-811 | true if and only if the counter is the number of reserved frames |
| Ownership.StepSafe | kernel/src/memory/physmem.rs:489-726 | every call keeps each used frame with exactly one holder and the hint free or the frame count |
| Ownership.RunsKeepOwnership | kernel/src/memory/physmem.rs:489-726 | in every state reachable from `new`, live allocations are pairwise disjoint, disjoint from reserved frames, and the used frames are exactly these |
| Ownership.SingleAllocationsAreFirstFit | kernel/src/memory/physmem.rs:464-484 | in runs without multi-frame allocation, a single allocation hands out the lowest free frame and fails only when none is free |
| Paging.MapToAnswer | kernel/src/memory/vmm.rs:369-379 | whether mapping a page succeeds is decided by the leaf that was there, unless the frame pool runs dry |
| Paging.MapToSucceeds | kernel/src/memory/vmm.rs:369-379 | a mapping succeeds if and only if nothing is mapped there and the free frames cover the missing tables |
| Paging.MapToLeaves | kernel/src/memory/vmm.rs:369-379 | a successful mapping changes the leaf of exactly that page; a failed one changes none, even when it left new tables behind |
| Paging.MapToPages | kernel/src/memory/vmm.rs:369-379 | the number of mapped pages rises by one exactly on success |
| Paging.MapToTables | kernel/src/memory/vmm.rs:167-171 | every frame taken from the allocator becomes exactly one table, and no other frame does |
| Paging.MapToPermits | kernel/src/memory/vmm.rs:369-379 | the new page has the flags asked for and no table above it withholds them |
| Paging.MapToFlags | kernel/src/memory/vmm.rs:740-745 | the flags of all other pages stay, unless the attempt hit a large page |
| Paging.FailedMapWidens | kernel/src/memory/vmm.rs:369-379 | an attempt inside a large page fails but adds the write and user access asked for to that page |
| PageWitnesses.WidenedPage | kernel/src/memory/vmm.rs:369-379 | a kernel's large page that a failed user mapping inside it opens to users |
| PageWitnesses.UpperBootPage | kernel/src/memory/vmm.rs:234-330 | well-formed boot tables for which the walk forms an address that is not canonical |
| PageWitnesses.UnalignedRemap | kernel/src/memory/vmm.rs:463-473 | a remap to an unaligned frame that answers an error and unmaps the page |
| Paging.UnmapAnswer | kernel/src/memory/vmm.rs:422-426 | unmapping succeeds exactly on a 4 KiB page and gives back its frame |
| Paging.UnmapLeaves | kernel/src/memory/vmm.rs:422-426 | it clears exactly that page |
| Paging.LeafIsShared | kernel/src/memory/vmm.rs:487-489 | all addresses a leaf covers translate through it |
| Regions.RetainLookup | kernel/src/memory/vmm.rs:432-436 | among disjoint regions, removing those that cover an address hides exactly the region found there |
| Regions.DiscoverInside | kernel/src/memory/vmm.rs:234-330 | the regions found at boot are pairwise disjoint and lie under their tables |
| Regions.DiscoverLookup | kernel/src/memory/vmm.rs:234-330 | what the walk at boot records for an address is the leaf a translation of it ends in |
| Regions.DiscoverSizes | kernel/src/memory/vmm.rs:234-330 | the sizes of the regions found add up to the pages counted |
| Regions.BootIsCanonical | kernel/src/memory/vmm.rs:234-330 | the addresses built at boot are all canonical, so `VirtAddr::new` does not panic, if and only if no page is mapped in the upper half |
| VmmSpec.BootSound | kernel/src/memory/vmm.rs:199-228 | after `init` on well-formed tables with no page in the upper half, index, tables and counters agree |
| VmmSpec.TrackSound | kernel/src/memory/vmm.rs:369-398 | mapping and tracking a page keeps the agreement |
| VmmSpec.UnmapSound | kernel/src/memory/vmm.rs:415-448 | unmapping keeps it, and the saturating counters never saturate |
| VmmRuns.StepKeeps | kernel/src/memory/vmm.rs:351-613 | every call keeps it, whatever it answers |
| VmmRuns.RunKeeps | kernel/src/memory/vmm.rs:351-613 | so does every run of calls with canonical addresses and flags with PRESENT and without HUGE_PAGE |
| VmmRuns.BootRunsAgree | kernel/src/memory/vmm.rs:652-737 | from boot tables with no page in the upper half on: `get_mapping` has a region exactly where the walk maps, to the region's physical start plus the offset; regions are pairwise disjoint; the kept page count is the walked one; each frame taken from the allocator is exactly one table |
| VmmRuns.TablesStayApart | kernel/src/memory/vmm.rs:167-171 | no two tables, the PML4 among them, come to share a frame, and none sits in a frame the allocator would hand out |
| VmmRuns.MapPageMeans | kernel/src/memory/vmm.rs:351-401 | success exactly when aligned, unmapped and the free frames cover the missing tables; AlreadyMapped exactly on a 4 KiB page, ParentHuge exactly inside a large one; on success the page translates to the frame and every other address as before |
| VmmRuns.MappedPageIsAccessible | kernel/src/memory/vmm.rs:351-401 | a page just mapped has its flags, and the user-range check accepts it exactly when it was mapped for users |
| VmmRuns.UnmapPageMeans | kernel/src/memory/vmm.rs:415-448 | exactly which answer it gives; on success it gives back the frame that was mapped and clears exactly that page |
| VmmRuns.RemapPageMeans | kernel/src/memory/vmm.rs:463-473 | succeeds exactly when a 4 KiB page is mapped and the new frame is aligned; otherwise an unmapped page stays unmapped |
| VmmRuns.MapPagesMeans | kernel/src/memory/vmm.rs:504-524 | a region mapped whole translates to consecutive frames and leaves all other addresses |
| VmmRuns.MapPagesStop | kernel/src/memory/vmm.rs:504-524 | when it stops, the pages before the failing one are mapped and the answer is that page's |
| VmmRuns.UnmapPagesMeans | kernel/src/memory/vmm.rs:532-543 | `unmap_region` clears every 4 KiB page of the range and nothing else |
| VmmRuns.UnalignedRegions | kernel/src/memory/vmm.rs:504-613 | unaligned regions are refused before anything is done |
| VmmRuns.IdentityPagesMeans | kernel/src/memory/vmm.rs:557-613 | after success every address of the range translates, to itself where nothing was mapped before |
| VmmRuns.IdentityPagesStop | kernel/src/memory/vmm.rs:557-613 | when it stops it has run out of frames, and the pages before are done |
| VmmRuns.RemapCounts | kernel/src/memory/vmm.rs:463-473 | a remap counts as an unmapping and a mapping, and once more when it succeeds |
| VmmRuns.RunCounts | kernel/src/memory/vmm.rs:351-613 | over every run, pages mapped and unmapped are counted one by one, each with one TLB flush |
| VmmRuns.BootRunsCount | kernel/src/memory/vmm.rs:199-613 | from boot on, pages mapped plus pages ever unmapped are the pages at boot plus those ever mapped |
| VmmFlags.MapPageGrants | kernel/src/memory/vmm.rs:351-401 | a page mapped has the flags asked for in the tables and in the index |
| VmmFlags.MapToTablesGrant | kernel/src/memory/vmm.rs:369-379 | a mapping gives the tables on its way exactly the write and user access asked for on top of what they had |
| VmmFlags.RemapPageGrants | kernel/src/memory/vmm.rs:463-473 | after an Ok remap the page has the flags asked for in tables and index, and the user-range check accepts it exactly when remapped for users |
| VmmFlags.RemapKeepsGrants | kernel/src/memory/vmm.rs:463-473 | a remap leaves every other page what it grants |
| VmmFlags.MapPagesGrant | kernel/src/memory/vmm.rs:504-524 | every page of a region mapped whole has the flags asked for |
| VmmFlags.IdentityPagesGrant | kernel/src/memory/vmm.rs:557-613 | after success every page of the range not mapped before has the flags asked for |
| VmmFlags.IdentityPagesKeepGrants | kernel/src/memory/vmm.rs:557-613 | every page mapped before grants what it did |
| VmmFlags.BootFlagsAt | kernel/src/memory/vmm.rs:234-330 | a region recorded at boot has the flags of its page and is named after its size |
| VmmFlags.BootRunsFlags | kernel/src/memory/vmm.rs:199-613 | through every run from boot, a region of one 4 KiB page has exactly the flags of the page; a larger region's page grants at most write or user access more |
| Vmm.VirtualMemoryManager.constructor | kernel/src/memory/vmm.rs:199-228 | the state after `init`, on tables with no page in the upper half |
| Vmm.VirtualMemoryManager.DiscoverExistingMappings | kernel/src/memory/vmm.rs:234-330 | one region per leaf in walk order, and the page count, where no leaf makes the walk panic |
| Vmm.VirtualMemoryManager.CountMappedPages | kernel/src/memory/vmm.rs:658-703 | the number of 4 KiB pages mapped, large pages counted in full |
| Vmm.VirtualMemoryManager.Validate | kernel/src/memory/vmm.rs:652-655 | true in every state the class can reach |
| Vmm.VirtualMemoryManager.GetMapping | kernel/src/memory/vmm.rs:732-737 | the region found, exactly where the address translates, and where to |
| Vmm.VirtualMemoryManager.MapTo | kernel/src/memory/vmm.rs:369-379 | tables taken from the frame allocator one by one, as the tree walk describes |
| Vmm.VirtualMemoryManager.MapPage | kernel/src/memory/vmm.rs:351-401 | tables, index, counters and allocator as `VmmSpec.MapPage` describes, keeping the invariant |
| Vmm.VirtualMemoryManager.UnmapPage | kernel/src/memory/vmm.rs:415-448 | likewise for unmapping |
| Vmm.VirtualMemoryManager.RemapPage | kernel/src/memory/vmm.rs:463-473 | likewise, with the page left unmapped when the second half fails |
| Vmm.VirtualMemoryManager.MapRegion | kernel/src/memory/vmm.rs:504-524 | page by page, stopping at the first failure |
| Vmm.VirtualMemoryManager.UnmapRegion | kernel/src/memory/vmm.rs:532-543 | page by page, whatever each answers |
| Vmm.VirtualMemoryManager.IdentityMap | kernel/src/memory/vmm.rs:557-613 | page by page, skipping what translates already |
| UserPtr.StrideAgrees | kernel/src/process/mod.rs:388-431 | one step over a 4 KiB, 2 MiB or 1 GiB page ends in the lower half and agrees with the page-by-page walk |
| UserPtr.ValidateUserPtr | kernel/src/process/mod.rs:364-434 | on every 64-bit pointer and length the striding check gives what the page-by-page walk gives, panics included, and it terminates |
| UserPtr.RangeAccepted | kernel/src/process/mod.rs:364-434 | a non-empty range ending in the lower half is accepted if and only if every byte of it lies in an accepted page |
| UserPtr.OtherRanges | kernel/src/process/mod.rs:368-382 | ranges in or into the kernel's half are refused, and a panic needs an address that is not canonical |
| Teardown.FreeAllFrees | kernel/src/process/mod.rs:61-64 | whatever is freed, however often, exactly the frames named become free |
| Teardown.TeardownIsExact | kernel/src/process/mod.rs:97-103 | exit frees exactly the pages and the PML4, the count drops by their number plus one, and the later stack frees are refused |
| Teardown.TablesStayAllocated | kernel/src/process/mod.rs:66-90 | a frame that is neither a page of the lower half nor the PML4 keeps its flag, intermediate tables included |
| Teardown.FreedArePages | kernel/src/process/mod.rs:68-90 | a frame is freed if and only if some lower-half address is mapped to it by a 4 KiB page |
| Processes.Kernel.FreeUserPageTables | kernel/src/process/mod.rs:68-90 | the recursion frees the pages of the table in walk order |
| Processes.Kernel.FreeProcessAddressSpace | kernel/src/process/mod.rs:97-103 | the pages and then the PML4, nothing for a process without tables |
| Processes.Kernel.ExitProcess | kernel/src/process/mod.rs:297-346 | the first running process is afterwards Exited with the code, without stacks or kernel stack pointer and otherwise as it was, its frames go back, and every other slot stays |
| Scancodes.StepSound | kernel/src/terminal/mod.rs:14-37 | every push and every step of a pop keeps the ring's invariant |
| Scancodes.PushQueues | kernel/src/terminal/mod.rs:14-23 | an accepted push adds its code at the end and leaves the slot a pop is working on |
| Scancodes.PopDequeues | kernel/src/terminal/mod.rs:25-37 | the last step of a pop removes the oldest code, and that is the code returned |
| Scancodes.InOrder | kernel/src/terminal/mod.rs:14-37 | after any interleaving, codes popped followed by codes queued are the codes accepted, in order; at most 255 are queued |
| Scancodes.PushIsSafe | kernel/src/terminal/mod.rs:14-23 | in every reachable state a push is refused exactly when 255 codes are queued, never waits for the lock, and never changes the slot a pop has checked |
| Scancodes.ScancodeBuffer.PushScancode | kernel/src/terminal/mod.rs:14-23 | one push step of the protocol |
| Scancodes.ScancodeBuffer.PopLoad | kernel/src/terminal/mod.rs:26 | the first step of a pop |
| Scancodes.ScancodeBuffer.PopCheck | kernel/src/terminal/mod.rs:27-29 | the second step: empty, or a code is there |
| Scancodes.ScancodeBuffer.PopRead | kernel/src/terminal/mod.rs:30-33 | the five steps without interrupts, under the lock |
| Scancodes.ScancodeBuffer.PopStore | kernel/src/terminal/mod.rs:34-36 | the last step: the head moves and the code goes out |

## Left out

- Everything that only touches hardware: ATA port I/O, PCI, serial, VGA, timers, interrupt controllers, descriptor tables, boot assembly, TLB flushes and the switch of page tables at process exit.
- The shell, its commands, line editing and banners; ELF, MBR and boot-parameter parsing; memory totals.
- `init_from_memmap` (`kernel/src/memory/physmem.rs:934-971`): it frees frames without lowering the counter, so the counter invariant would need regions that do not overlap.
- An unmounted manager, a partition not starting at sector 0, device errors on sectors that exist, sector sizes other than 512, long file names, and names that are not ASCII.
- Loading a program (`kernel/src/process/mod.rs:154-238`) and saving or restoring registers.
- Buffers and page tables are values here: a cluster buffer filled in place, or an entry changed in the middle of a table, is a new value in the model, so aliasing between buffers or between tables is not captured. For tables, `VmmRuns.TablesStayApart` shows that the code never makes two of them share a tracked frame.
- The nested level loops of `discover_existing_mappings`, `count_mapped_pages` and the `x86_64` walks are one recursive method over the level with one loop each.
- Physical addresses handed to user mappings are not tracked: two pages may map one frame, as the source leaves that to its callers.
- ReadChain, FreeChain, ReadFile and the methods above them: exclude chains that leave the FAT, where the source reads whatever the device holds behind the table; the functions answer LeavesFat there, which is no error of the source. Chains damaged inside the FAT are covered.
- RunKeeps, RunExact, CallsExact: paths whose parent is reached through directories. Through a file, making a file or directory is covered by `Failures.ThroughFileBreaks`, deleting and opening by `Detours`; overwriting a record found in the bytes of a file, and the size update of a descriptor whose path leads through one, are not. Each condition on calls can be checked before the call, and `Exactness.StepExact` and `Errors.ErrorExact` show that it is exact.
- CreateThenRead, OverwriteThenRead, CreatedIsListed: state results for calls that return Ok; an overwrite that runs out of space has freed the old data already.
- CreatedIsListed, MadeIsListed: names that fit 8.3 other than `..`, which no listing shows.
- WriteInside: descriptors whose position is within the file they have open and whose size is the recorded one; after another call changed the file under them they are not covered.
- NewFileIsConcat, UnfitNewFileIsMissing: runs of calls that return Ok, of which only the writes touch the new descriptor.
- FreeFrames: without validation, requires that the counter is not below the length of the range; the subtraction would underflow.
- MapPage, RemapPage, MapRegion, IdentityMap: flags with PRESENT and without HUGE_PAGE, as the crate panics on a parent entry without PRESENT.
- BootRunsAgree, BootSound, constructor: boot tables whose absent entries are zero, whose large pages are aligned, whose top-level entries carry no large-page bit, and with no page under top-level entries 256 to 511, where the walk panics (`Regions.BootIsCanonical`).
- AddFile: images with a well-formed boot sector, 512-byte sectors and at least two FAT copies; on a single copy the tool writes its mirror over the data area.
- InstalledIsFound: files of at most 100001 clusters, beyond which `read_chain` stops, and names with one dot that fit 8.3.
- IdentityMap, IdentityPagesMeans, MappedPageIsAccessible: addresses in the lower half; a physical address has at most 52 bits, so the same number as a virtual address lies there or is not canonical, where `VirtAddr::new` panics, and the user-range check looks nowhere else.
- ThroughFileBreaks, DeleteDetourExact, OpenDetourExact: paths that end at the first cluster of a file's chain; records read from a file may lead into the middle of a chain.
- ValidateUserPtr: one address space at a time; a change of the tables during the check is not modelled.
- ExitProcess: ends where the source switches page tables and stacks.
- Step (Scancodes): one processor, so a push runs to its end before the main loop goes on.
