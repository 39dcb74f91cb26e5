// On a sound state an allowed call never follows a chain out of the FAT: the one thing the methods of
// Vfs.dfy ask of their callers.
module VfsReady {
  import opened Wrappers
  import opened Bytes
  import opened Chains
  import opened Volumes
  import opened DirEntries
  import opened Directory
  import opened Paths
  import opened VfsSpec
  import opened Storage
  import opened Tree
  import opened Invariant
  import opened Operations
  import opened TreePaths
  import opened Runs

  /** The call would follow a chain out of the FAT. */
  predicate LeavesTable(s: VfsState, op: Op)
    requires s.v.Valid()
  {
    match op
    case CreateOp(path, data) => CreateFile(s.v, path, data).1 == Err(LeavesFat)
    case MkdirOp(path) => Mkdir(s.v, path).1 == Err(LeavesFat)
    case DeleteOp(path) => Delete(s.v, path).1 == Err(LeavesFat)
    case OpenOp(path, mode) => Open(s, path, mode).1 == Err(LeavesFat)
    case WriteOp(fd, data) => WriteFd(s, fd, data).1 == Err(LeavesFat)
    case CloseOp(_) => false
  }

  /** A new file leaves every directory's chain as it was. */
  lemma FreshReady(v: Volume, l: Layout, d: nat, n: seq<byte>, data: seq<byte>)
    requires Good(v, l) && d in l.dirs && v.Valid() && n != []
    ensures CreateFresh(v, d, n, data).1 != Err(LeavesFat)
  {
    hide FatOk, ChainAt, Rehome, IsChain, WriteNewFile, NewChain, TreeOk, Stored, Follow, AddEntry;
    if WriteNewFile(v, data).1.Ok? {
      NewFileStored(v, l.chains, l.home, l.dirs, data);
      var v1, c, cs := WriteNewFile(v, data).0, WriteNewFile(v, data).1.value, NewChain(v, data);
      StoredDir(v1, l.chains[c := cs], Rehome(l.home, c, cs), l.dirs, d);
    }
  }

  /** So does overwriting a file, up to the update of its entry. */
  lemma OverwriteReady(v: Volume, l: Layout, d: nat, n: seq<byte>, k: nat, data: seq<byte>)
    requires Good(v, l) && v.Valid() && d in l.dirs && FindFrom(l.dirs[d], 0, n) == Some(k)
             && !IsDirectory(l.dirs[d][k])
    ensures Overwrite(v, d, n, l.dirs[d][k], data).1 != Err(LeavesFat)
  {
    hide FatOk, ChainAt, Rehome, IsChain, InRange, WriteNewFile, NewChain, TreeOk, Stored, Follow, FullNameUpper,
         FirstCluster, IsDirectory, IsDotEntry, DirOk, Freed, FindPast;
    GoodDirOk(v, l, d);
    NotDot(l.dirs[d], k, n);
    FoundIsLive(v, l, d, n, k);
    var h := FirstCluster(l.dirs[d][k]);
    var chains1 := FileFreed(v, l, h);
    var v1 := Freed(v, h);
    if WriteNewFile(v1, data).1.Ok? {
      NewFileStored(v1, chains1, l.home, l.dirs, data);
      var v2, c, cs := WriteNewFile(v1, data).0, WriteNewFile(v1, data).1.value, NewChain(v1, data);
      StoredDir(v2, chains1[c := cs], Rehome(l.home, c, cs), l.dirs, d);
    }
  }

  /** And making a directory's cluster. */
  lemma MakeDirReady(v: Volume, l: Layout, d: nat, n: seq<byte>)
    requires Good(v, l) && v.Valid() && d in l.dirs && n != []
    ensures MakeDir(v, d, n).1 != Err(LeavesFat)
  {
    hide FatOk, ChainAt, Rehome, IsChain, TreeOk, Stored, Follow, FirstFree, NewDirBlock, SlotsOf, AddEntry;
    if LowestFree(v.fat).Ok? {
      var c := LowestFree(v.fat).value;
      var block := NewDirBlock(v.csz, c, d);
      StoredNewDir(v, l.chains, l.home, l.dirs, c, block);
      DirsAreHeads(v, l.chains, l.home, l.dirs);
      StoredChain(WithNewDir(v, c, d), l.chains[c := [c]], Rehome(l.home, c, [c]), l.dirs[c := SlotsOf(block)], d);
    }
  }

  lemma CreateReady(v: Volume, l: Layout, path: seq<byte>, data: seq<byte>)
    requires Good(v, l) && v.Valid() && ParentDir(v, path).Some?
    ensures CreateFile(v, path, data).1 != Err(LeavesFat)
  {
    hide Good, FindFrom, WalkDirs, Slots, Follow, CreateFresh, Overwrite, IsDirectory;
    var d := AtParent(v, l, path);
    var n := ToUpper(NamePart(path));
    if NamePart(path) != [] {
      FreshReady(v, l, d, n, data);
      var k := FindFrom(l.dirs[d], 0, n);
      if k.Some? && !IsDirectory(l.dirs[d][k.value]) {
        OverwriteReady(v, l, d, n, k.value, data);
      }
    }
  }

  lemma MkdirReady(v: Volume, l: Layout, path: seq<byte>)
    requires Good(v, l) && v.Valid() && ParentDir(v, path).Some?
    ensures Mkdir(v, path).1 != Err(LeavesFat)
  {
    hide Good, FindFrom, WalkDirs, Slots, Follow, MakeDir;
    var d := AtParent(v, l, path);
    if NamePart(path) != [] {
      MakeDirReady(v, l, d, ToUpper(NamePart(path)));
    }
  }

  lemma DeleteReady(s: VfsState, l: Layout, path: seq<byte>)
    requires Good(s.v, l) && s.v.Valid() && Allowed(s, DeleteOp(path))
    ensures Delete(s.v, path).1 != Err(LeavesFat)
  {
    hide Good, FindFrom, WalkDirs, Slots, Follow, FirstCluster, IsDotEntry, FullNameUpper, SetSlot, Idle;
    var d := AtParent(s.v, l, path);
    var n := ToUpper(NamePart(path));
    var k := FindFrom(l.dirs[d], 0, n);
    if k.Some? {
      var h := FirstCluster(l.dirs[d][k.value]);
      if IsDotEntry(l.dirs[d][k.value]) {
        if h >= 2 {
          IdleChain(s.v.fat, h);
        }
      } else {
        FoundIsLive(s.v, l, d, n, k.value);
      }
    }
  }

  /** A path reached through directories resolves without leaving the FAT. */
  lemma ResolveReady(v: Volume, l: Layout, path: seq<byte>)
    requires Good(v, l) && v.Valid() && ParentDir(v, path).Some? && NamePart(path) == []
    ensures ResolvePath(v, path) != Err(LeavesFat)
  {
    hide Stored, TreeOk, Enterable, WalkDirs, ResolveFrom;
    RootInTree(v, l);
    WalkWholePath(v, path);
    TreeEnterable(v.root, l.chains.Keys, l.dirs, l.owner);
    WalkIsTreeWalk(v, l.chains, l.home, l.dirs, v.root, TrimSlashes(path));
  }

  lemma OpenReady(s: VfsState, l: Layout, path: seq<byte>, mode: FileMode)
    requires Good(s.v, l) && s.v.Valid() && Reached(s, OpenOp(path, mode))
    ensures Open(s, path, mode).1 != Err(LeavesFat)
  {
    hide Good, FindFrom, WalkDirs, Slots, Follow, CreateFresh, IsDirectory, FirstCluster, FileSize, ResolvePath;
    var full := Canonicalize(s.cwd, path);
    var d := AtParent(s.v, l, full);
    if NamePart(full) == [] {
      ResolveReady(s.v, l, full);
    } else {
      FreshReady(s.v, l, d, ToUpper(NamePart(full)), []);
    }
  }

  lemma ReadReady(v: Volume, l: Layout, path: seq<byte>)
    requires Good(v, l) && v.Valid() && ParentDir(v, path).Some?
    ensures ReadFileContent(v, path) != Err(LeavesFat)
  {
    hide Good, FindFrom, WalkDirs, Slots, Follow, IsDirectory, FirstCluster, FileSize, Content, IsDotEntry,
         FullNameUpper;
    var d := AtParent(v, l, path);
    var n := ToUpper(NamePart(path));
    var k := FindFrom(l.dirs[d], 0, n);
    if k.Some? && !IsDirectory(l.dirs[d][k.value]) {
      GoodDirOk(v, l, d);
      NotDot(l.dirs[d], k.value, n);
      FoundIsLive(v, l, d, n, k.value);
    }
  }

  lemma WriteReady(s: VfsState, l: Layout, fd: nat, data: seq<byte>)
    requires GoodState(s, l) && s.v.Valid() && Allowed(s, WriteOp(fd, data))
    ensures WriteFd(s, fd, data).1 != Err(LeavesFat)
  {
    hide Good, FindFrom, WalkDirs, TreeWalk, Slots, Follow, WriteClusters, ChainAfterWrite, UpdateSize, FullData,
         IsChain, FdsOk, FdsNumbered, ResolveParent, Needed;
    var i := Position(s.table, fd);
    if i.Some? && s.table[i.value].mode != Read {
      var file := s.table[i.value];
      FdOnFile(l, s.table, i.value);
      GoodChain(s.v, l, file.cluster);
      var full := FullData(s.v, file, data);
      if WriteClusters(s.v, l.chains[file.cluster], full).1.Ok? {
        AfterWriteLength(s.v, l.chains[file.cluster], full);
        var l' := WriteKeeps(s.v, l, file.cluster, full);
        var v1 := WriteClusters(s.v, l.chains[file.cluster], full).0;
        ParentInTree(s.v, l, file.path);
        ParentInTree(v1, l', file.path);
      }
    }
  }

  /** MAIN: an allowed call on a sound state stays inside the FAT, and so does reading a file. */
  lemma AllowedStaysInside(s: VfsState, op: Op, path: seq<byte>)
    requires Sound(s) && s.v.Valid()
    ensures Allowed(s, op) ==> !LeavesTable(s, op)
    ensures ParentDir(s.v, path).Some? ==> ReadFileContent(s.v, path) != Err(LeavesFat)
  {
    hide Good, FdsOk, FdsNumbered, CreateFile, Mkdir, Delete, Open, WriteFd, Harmless, ReadFileContent;
    var l: Layout :| GoodState(s, l);
    if ParentDir(s.v, path).Some? {
      ReadReady(s.v, l, path);
    }
    if Allowed(s, op) {
      match op {
        case CreateOp(path, data) => CreateReady(s.v, l, path, data);
        case MkdirOp(path) => MkdirReady(s.v, l, path);
        case DeleteOp(path) => DeleteReady(s, l, path);
        case OpenOp(path, mode) => OpenReady(s, l, path, mode);
        case WriteOp(fd, data) => WriteReady(s, l, fd, data);
        case CloseOp(_) =>
      }
    }
  }
}
