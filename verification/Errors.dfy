// Calls that answer an error: exactly which of them leave the mounted state sound, and runs of calls
// whatever each answers.
module Errors {
  import opened Wrappers
  import opened Bytes
  import opened Chains
  import opened Volumes
  import opened DirEntries
  import opened Directory
  import opened Paths
  import opened VfsSpec
  import opened Storage
  import opened Tree
  import opened Invariant
  import opened Operations
  import opened TreePaths
  import opened Runs
  import opened Exactness
  import opened Failures
  import opened VfsReady

  /** The call sets out to make a new record, and a cluster is there for it. */
  predicate MakesRecord(v: Volume, path: seq<byte>)
    requires v.Valid()
  {
    NamePart(path) != [] && Target(v, path).None? && LowestFree(v.fat).Ok?
  }

  /** What decides whether a call that answers an error spoils the state: it made a chain before it failed,
      which no record comes to own, or it let one grow past what `read_chain` follows. */
  predicate Leaks(s: VfsState, op: Op)
    requires s.v.Valid()
  {
    match op
    case CreateOp(path, _) => MakesRecord(s.v, path)
    case MkdirOp(path) => MakesRecord(s.v, path)
    case DeleteOp(_) => false
    case OpenOp(path, mode) => (mode == Create || mode == CreateNew) && MakesRecord(s.v, Canonicalize(s.cwd, path))
    case WriteOp(fd, data) =>
      var i := Position(s.table, fd);
      && i.Some? && s.table[i.value].mode != Read && LowestFree(s.v.fat).Ok?
      && !StaysReadable(s.v, s.table[i.value], data)
    case CloseOp(_) => false
  }

  // -- A chain no record owns -------------------------------------------------------------------------

  lemma StrayBreaks(v: Volume, l: Layout, v1: Volume, l1: Layout, c: nat)
    requires ChainMade(v, l, v1, l1, c)
    ensures !WellFormed(v1)
  {
    hide Good, Stored, NoNewLive;
    forall g | g in l.dirs
      ensures NoNewLive(l.dirs[g], l.dirs[g])
    {
      SameClaims(l.dirs[g]);
    }
    forall l' | Good(v1, l')
      ensures false
    {
      StrayOrphan(v, l, v1, l1.chains, l1.home, l.dirs, c, l');
    }
  }

  lemma AddFailed(v: Volume, cs: seq<nat>, e: DirEntry)
    requires v.Valid() && InRange(cs, |v.fat|) && cs != [] && AddEntry(v, cs, e).1.Err?
    ensures AddEntry(v, cs, e).0 == v
  {
    hide HoleFrom, Slots;
  }

  /** A new file that fails once it has its first cluster leaves that cluster to nobody. */
  lemma FreshFails(v: Volume, l: Layout, d: nat, n: seq<byte>, data: seq<byte>)
    requires Good(v, l) && v.Valid() && d in l.dirs && n != [] && CreateFresh(v, d, n, data).1.Err?
    ensures LowestFree(v.fat).Ok? ==> !WellFormed(CreateFresh(v, d, n, data).0)
    ensures LowestFree(v.fat).Err? ==> CreateFresh(v, d, n, data).0 == v
  {
    hide Good, Stored, FatOk, AddEntry, NewEntry, Follow, IsChain, WriteClusters, FirstFree;
    if LowestFree(v.fat).Ok? {
      var c := LowestFree(v.fat).value;
      if WriteNewFile(v, data).1.Err? {
        GrowFails(WithNewCluster(v, c), [c], data);
        var l1, c' := FileMade(v, l, []);
        StrayBreaks(v, l, WithNewCluster(v, c), l1, c);
      } else {
        var l1, c' := FileMade(v, l, data);
        var v1 := WriteNewFile(v, data).0;
        StoredDir(v1, l1.chains, l1.home, l1.dirs, d);
        ChainNotEmpty(v1, l1, d);
        AddFailed(v1, l1.chains[d], NewEntry(n, ATTR_ARCHIVE, c, |data| % U32));
        StrayBreaks(v, l, v1, l1, c');
      }
    }
  }

  lemma GrowFails(v: Volume, cs: seq<nat>, payload: seq<byte>)
    requires v.Valid() && InRange(cs, |v.fat|) && WriteClusters(v, cs, payload).1.Err?
    ensures WriteClusters(v, cs, payload).0 == v
    ensures LowestFree(v.fat).Err?
  {
    hide Store, Link, Needed;
  }

  lemma ChainNotEmpty(v: Volume, l: Layout, d: nat)
    requires Stored(v, l.chains, l.home, l.dirs) && d in l.dirs
    ensures d in l.chains && l.chains[d] != [] && InRange(l.chains[d], |v.fat|)
  {
    hide FatOk, IsChain;
    StoredDir(v, l.chains, l.home, l.dirs, d);
    ChainFacts(v.fat, l.chains, l.home, d);
  }

  /** So does a new directory. */
  lemma MakeDirFails(v: Volume, l: Layout, d: nat, n: seq<byte>)
    requires Good(v, l) && v.Valid() && d in l.dirs && n != [] && MakeDir(v, d, n).1.Err?
    ensures LowestFree(v.fat).Ok? ==> !WellFormed(MakeDir(v, d, n).0)
    ensures LowestFree(v.fat).Err? ==> MakeDir(v, d, n).0 == v
  {
    hide Good, Stored, FatOk, AddEntry, NewEntry, Follow, IsChain, FirstFree, NewDirBlock;
    if LowestFree(v.fat).Ok? {
      var c := LowestFree(v.fat).value;
      var l1 := DirMade(v, l, d, c);
      var v1 := WithNewDir(v, c, d);
      StoredDir(v1, l1.chains, l1.home, l1.dirs, d);
      ChainNotEmpty(v1, l1, d);
      AddFailed(v1, l1.chains[d], NewEntry(n, ATTR_DIRECTORY, c, 0));
      StrayBreaks(v, l, v1, l1, c);
    }
  }

  // -- An overwrite that fails ------------------------------------------------------------------------

  /** An overwrite fails for want of a second cluster only where the first cluster of the file is the
      one free cluster left; it stays the file's, emptied. */
  lemma OverwriteFails(v: Volume, l: Layout, path: seq<byte>, data: seq<byte>) returns (l': Layout)
    requires Good(v, l) && v.Valid() && ParentDir(v, path).Some? && Target(v, path).Some? && NamePart(path) != []
    requires CreateFile(v, path, data).1.Err?
    ensures Good(CreateFile(v, path, data).0, l') && l'.chains.Keys == l.chains.Keys && l'.dirs == l.dirs
  {
    hide Good, FindFrom, FindPast, FullNameUpper, FirstCluster, IsDirectory, IsDotEntry, WalkDirs, Slots, Follow,
         WriteNewFile, Freed, CreateFresh, DirOk, NewChain, Stored, TreeOk, UpdateEntry, FatOk, LiveAt;
    var d := AtParent(v, l, path);
    var n := ToUpper(NamePart(path));
    var k := FindFrom(l.dirs[d], 0, n).value;
    if IsDirectory(l.dirs[d][k]) {
      l' := l;
    } else {
      GoodDirOk(v, l, d);
      NotDot(l.dirs[d], k, n);
      FoundIsLive(v, l, d, n, k);
      var h := FirstCluster(l.dirs[d][k]);
      OverwriteErrs(v, l, d, n, k, data);
      l' := EmptiedFile(v, l, h, data);
    }
  }

  /** No other step of an overwrite fails. */
  lemma OverwriteErrs(v: Volume, l: Layout, d: nat, n: seq<byte>, k: nat, data: seq<byte>)
    requires Good(v, l) && v.Valid() && d in l.dirs && FindFrom(l.dirs[d], 0, n) == Some(k)
    requires !IsDirectory(l.dirs[d][k]) && FirstCluster(l.dirs[d][k]) in l.chains
             && FirstCluster(l.dirs[d][k]) !in l.dirs
    requires FirstCluster(l.dirs[d][k]) >= 2 && Readable(v.fat, FirstCluster(l.dirs[d][k]))
    requires Overwrite(v, d, n, l.dirs[d][k], data).1.Err?
    ensures var w := WriteNewFile(Freed(v, FirstCluster(l.dirs[d][k])), data);
            w.1.Err? && Overwrite(v, d, n, l.dirs[d][k], data).0 == w.0
  {
    hide Good, FindFrom, FindPast, FullNameUpper, FirstCluster, IsDirectory, IsDotEntry, Slots, Follow,
         WriteNewFile, Freed, DirOk, NewChain, Stored, TreeOk, FatOk, SetSlot;
    var h := FirstCluster(l.dirs[d][k]);
    var v1 := Freed(v, h);
    var chains1 := FileFreed(v, l, h);
    if WriteNewFile(v1, data).1.Ok? {
      NewFileStored(v1, chains1, l.home, l.dirs, data);
      var v2, c, cs := WriteNewFile(v1, data).0, WriteNewFile(v1, data).1.value, NewChain(v1, data);
      StoredDir(v2, chains1[c := cs], Rehome(l.home, c, cs), l.dirs, d);
      GoodDirOk(v, l, d);
      DirOkParts(l.dirs[d]);
      ScansAgree(l.dirs[d], 0, n);
    }
  }

  lemma EmptiedFile(v: Volume, l: Layout, h: nat, data: seq<byte>) returns (l': Layout)
    requires Good(v, l) && v.Valid() && h in l.chains && h !in l.dirs && h >= 2 && Readable(v.fat, h)
    requires WriteNewFile(Freed(v, h), data).1.Err?
    ensures Good(WriteNewFile(Freed(v, h), data).0, l') && l'.chains.Keys == l.chains.Keys && l'.dirs == l.dirs
  {
    hide Good, FatOk, Stored, Follow, WriteClusters, Free, Freed, IsChain, Rehome;
    var v1 := Freed(v, h);
    var chains1 := FileFreed(v, l, h);
    FreedHead(v, l, h);
    OnlyFree(v1, h, data);
    NewFileStored(v1, chains1, l.home, l.dirs, []);
    assert l.chains.Keys == chains1[h := [h]].Keys;
    TreeOfGood(v, l);
    l' := Layout(chains1[h := [h]], Rehome(l.home, h, [h]), l.dirs, l.owner);
    GoodOf(WithNewCluster(v1, h), l');
  }

  lemma GoodOf(v: Volume, l: Layout)
    requires Stored(v, l.chains, l.home, l.dirs) && TreeOk(v.root, l.chains.Keys, l.dirs, l.owner)
    ensures Good(v, l)
  {
  }

  lemma FreedHead(v: Volume, l: Layout, h: nat)
    requires Good(v, l) && v.Valid() && h in l.chains && h !in l.dirs && Readable(v.fat, h)
    ensures 2 <= h < |v.fat| && |Freed(v, h).fat| == |v.fat| >= 4 && Freed(v, h).fat[h] == FREE
  {
    hide TreeOk, FatOk, Follow, Free, IsChain;
    StoredChain(v, l.chains, l.home, l.dirs, h);
    FreedIs(v, h);
    ChainInRange(v.fat, l.chains[h]);
    RootInTree(v, l);
    DirIsHead(v, l, v.root);
    StoredChain(v, l.chains, l.home, l.dirs, v.root);
    ChainInRange(v.fat, l.chains[v.root]);
  }

  /** With `h` free, no second cluster can be had only when no other is free. */
  lemma OnlyFree(v: Volume, h: nat, data: seq<byte>)
    requires v.Valid() && 2 <= h < |v.fat| && v.fat[h] == FREE && |v.fat| >= 4 && WriteNewFile(v, data).1.Err?
    ensures LowestFree(v.fat) == Ok(h) && WriteNewFile(v, data).0 == WithNewCluster(v, h)
    ensures WriteNewFile(v, []) == (WithNewCluster(v, h), Ok(h)) && NewChain(v, []) == [h]
  {
    hide WriteClusters;
    assert FirstFree(v.fat, 2).Some?;
    var c := LowestFree(v.fat).value;
    if c != h {
      SecondFree(v, c, h);
    }
    GrowFails(WithNewCluster(v, c), [c], data);
  }

  lemma SecondFree(v: Volume, c: nat, h: nat)
    requires v.Valid() && 2 <= c < |v.fat| && 2 <= h < |v.fat| && h != c && v.fat[h] == FREE && |v.fat| >= 4
    ensures LowestFree(WithNewCluster(v, c).fat).Ok?
  {
    var fat := WithNewCluster(v, c).fat;
    assert fat[h] == FREE;
    assert FirstFree(fat, 2).Some?;
  }

  // -- Each call --------------------------------------------------------------------------------------

  lemma CreateFails(s: VfsState, l: Layout, path: seq<byte>, data: seq<byte>)
    requires GoodState(s, l) && s.v.Valid() && ParentDir(s.v, path).Some? && CreateFile(s.v, path, data).1.Err?
    ensures Sound(s.(v := CreateFile(s.v, path, data).0)) <==> !MakesRecord(s.v, path)
  {
    hide Good, FindFrom, FirstCluster, WalkDirs, Slots, Follow, FdsOk, FdsNumbered, Sound, Overwrite, CreateFresh,
         FirstFree, WellFormed, IsDirectory;
    SoundBy(s, l);
    var d := AtParent(s.v, l, path);
    var s' := s.(v := CreateFile(s.v, path, data).0);
    if NamePart(path) == [] {
      assert s' == s;
    } else if Target(s.v, path).Some? {
      var l' := OverwriteFails(s.v, l, path, data);
      SameFiles(s, l, s', l');
    } else {
      FreshFails(s.v, l, d, ToUpper(NamePart(path)), data);
      if MakesRecord(s.v, path) {
        NotSoundBy(s');
      } else {
        assert s' == s;
      }
    }
  }

  /** The descriptors of a state serve any volume with the same chains and directories. */
  lemma SameFiles(s: VfsState, l: Layout, s': VfsState, l': Layout)
    requires GoodState(s, l) && Good(s'.v, l') && s' == s.(v := s'.v)
    requires l'.chains.Keys == l.chains.Keys && l'.dirs == l.dirs
    ensures Sound(s')
  {
    hide Good, FdsNumbered;
    assert FdsOk(l', s'.table) by {
      forall f | f in s'.table && f.mode != Read
        ensures f.cluster in l'.chains && f.cluster !in l'.dirs
      {
        assert f.cluster in l.chains.Keys;
      }
    }
    assert GoodState(s', l');
  }

  lemma MkdirFails(s: VfsState, l: Layout, path: seq<byte>)
    requires GoodState(s, l) && s.v.Valid() && ParentDir(s.v, path).Some? && Mkdir(s.v, path).1.Err?
    ensures Sound(s.(v := Mkdir(s.v, path).0)) <==> !MakesRecord(s.v, path)
  {
    hide Good, FindFrom, WalkDirs, Slots, Follow, FdsOk, FdsNumbered, Sound, MakeDir, FirstFree, WellFormed;
    SoundBy(s, l);
    var d := AtParent(s.v, l, path);
    var s' := s.(v := Mkdir(s.v, path).0);
    if NamePart(path) != [] && Target(s.v, path).None? {
      MakeDirFails(s.v, l, d, ToUpper(NamePart(path)));
    }
    if MakesRecord(s.v, path) {
      NotSoundBy(s');
    } else {
      assert s' == s;
    }
  }

  lemma OpenFails(s: VfsState, l: Layout, path: seq<byte>, mode: FileMode)
    requires GoodState(s, l) && s.v.Valid() && Reached(s, OpenOp(path, mode)) && Open(s, path, mode).1.Err?
    ensures Sound(Open(s, path, mode).0) <==> !Leaks(s, OpenOp(path, mode))
  {
    hide Good, FindFrom, WalkDirs, Slots, Follow, FdsOk, FdsNumbered, Sound, CreateFresh, FirstFree, WellFormed,
         FirstCluster, FileSize, IsDirectory, ResolvePath;
    SoundBy(s, l);
    var full := Canonicalize(s.cwd, path);
    var d := AtParent(s.v, l, full);
    var s' := Open(s, path, mode).0;
    if NamePart(full) != [] && Target(s.v, full).None? && (mode == Create || mode == CreateNew) {
      FreshFails(s.v, l, d, ToUpper(NamePart(full)), []);
      assert s' == s.(v := CreateFresh(s.v, d, ToUpper(NamePart(full)), []).0);
    } else {
      assert s' == s;
    }
    if Leaks(s, OpenOp(path, mode)) {
      NotSoundBy(s');
    }
  }

  lemma DeleteFails(s: VfsState, l: Layout, path: seq<byte>)
    requires GoodState(s, l) && s.v.Valid() && ParentDir(s.v, path).Some?
    requires Delete(s.v, path).1.Err? && Delete(s.v, path).1 != Err(LeavesFat)
    ensures s.(v := Delete(s.v, path).0) == s
  {
    hide Good, FindFrom, WalkDirs, Slots, Follow, FirstCluster, SetSlot, Freed;
    var d := AtParent(s.v, l, path);
  }

  /** A write fails before it changes anything, unless it drives the chain past the limit. */
  lemma WriteFails(s: VfsState, l: Layout, fd: nat, data: seq<byte>)
    requires GoodState(s, l) && s.v.Valid() && Reached(s, WriteOp(fd, data)) && WriteFd(s, fd, data).1.Err?
    ensures Sound(WriteFd(s, fd, data).0) <==> !Leaks(s, WriteOp(fd, data))
  {
    hide Good, FdsOk, FdsNumbered, Sound, WriteFd, StaysReadable, FirstFree, ParentDir;
    SoundBy(s, l);
    var i := Position(s.table, fd);
    if i.None? || s.table[i.value].mode == Read {
      WriteRefused(s, fd, data);
    } else {
      FdOnFile(l, s.table, i.value);
      GoodChain(s.v, l, s.table[i.value].cluster);
      if LowestFree(s.v.fat).Err? || StaysReadable(s.v, s.table[i.value], data) {
        WriteUnchanged(s, l, fd, data, i.value);
      } else {
        TooLongAnyway(s, l, fd, data, i.value);
        NotSoundBy(WriteFd(s, fd, data).0);
      }
    }
  }

  lemma WriteRefused(s: VfsState, fd: nat, data: seq<byte>)
    requires s.v.Valid() && (Position(s.table, fd).None? || s.table[Position(s.table, fd).value].mode == Read)
    ensures WriteFd(s, fd, data).0 == s && WriteFd(s, fd, data).1.Err?
  {
    hide Follow, WriteClusters, FullData, UpdateFileSize;
  }

  lemma WriteUnchanged(s: VfsState, l: Layout, fd: nat, data: seq<byte>, i: nat)
    requires GoodState(s, l) && s.v.Valid() && Position(s.table, fd) == Some(i) && s.table[i].mode != Read
    requires ParentDir(s.v, s.table[i].path).Some? && WriteFd(s, fd, data).1.Err?
    requires LowestFree(s.v.fat).Err? || StaysReadable(s.v, s.table[i], data)
    ensures WriteFd(s, fd, data).0 == s
  {
    hide Good, FdsOk, FdsNumbered, Follow, WriteClusters, FullData, FirstFree, ChainAfterWrite, UpdateSize, WalkDirs,
         IsChain, Needed, ResolveParent;
    var file := s.table[i];
    FdOnFile(l, s.table, i);
    GoodChain(s.v, l, file.cluster);
    ChainInRange(s.v.fat, l.chains[file.cluster]);
    var cs, full := l.chains[file.cluster], FullData(s.v, file, data);
    if WriteClusters(s.v, cs, full).1.Err? {
      GrowFails(s.v, cs, full);
    } else {
      WithinLimit(s.v, cs, full);
      var l1 := WriteKeeps(s.v, l, file.cluster, full);
      var v1 := WriteClusters(s.v, cs, full).0;
      SamePlace(s.v, l, v1, l1, file.path);
    }
  }

  lemma WithinLimit(v: Volume, cs: seq<nat>, full: seq<byte>)
    requires v.Valid() && |cs| <= MAX_CHAIN
    requires LowestFree(v.fat).Err? || Needed(|full|, v.csz) <= |cs| || |cs| < MAX_CHAIN
    ensures |ChainAfterWrite(v, cs, full)| <= MAX_CHAIN
  {
  }

  lemma SamePlace(v: Volume, l: Layout, v': Volume, l': Layout, path: seq<byte>)
    requires Good(v, l) && Good(v', l') && l'.dirs == l.dirs && v'.root == v.root && v.Valid()
    requires ParentDir(v, path).Some?
    ensures v'.Valid() && ResolveParent(v', path).Ok? && Readable(v'.fat, ResolveParent(v', path).value.0)
  {
    hide Good, WalkDirs, TreeWalk, FindFrom, Slots, Follow;
    ParentInTree(v, l, path);
    ParentInTree(v', l', path);
    var d := AtParent(v', l', path);
  }

  /** `WriteTooLong`, whatever the size update answers. */
  lemma TooLongAnyway(s: VfsState, l: Layout, fd: nat, data: seq<byte>, i: nat)
    requires GoodState(s, l) && s.v.Valid() && Position(s.table, fd) == Some(i) && s.table[i].mode != Read
    requires LowestFree(s.v.fat).Ok? && !StaysReadable(s.v, s.table[i], data)
    ensures !WellFormed(WriteFd(s, fd, data).0.v)
  {
    hide Good, FatOk, FdsOk, FdsNumbered, Follow, WriteClusters, FullData, FirstFree, ChainAfterWrite, IsChain,
         Needed, UpdateFileSize;
    var file := s.table[i];
    FdOnFile(l, s.table, i);
    GoodChain(s.v, l, file.cluster);
    ChainInRange(s.v.fat, l.chains[file.cluster]);
    var cs, full := l.chains[file.cluster], FullData(s.v, file, data);
    StoreWorks(s.v, cs, full);
    WriteClustersValid(s.v, cs, full);
    var v1, v' := WriteClusters(s.v, cs, full).0, WriteFd(s, fd, data).0.v;
    SizeKeepsTable(v1, file.path, Advanced(file, |data|).size);
    assert v'.fat == v1.fat;
    GoodFatOk(s.v, l);
    ChainStart(s.v, l, file.cluster);
    forall l' | Good(v', l')
      ensures false
    {
      GoodFatOk(v', l');
      LongerChain(s.v, l, file.cluster, full, l');
    }
  }

  lemma ChainStart(v: Volume, l: Layout, h: nat)
    requires Good(v, l) && h in l.chains
    ensures l.chains[h] != [] && l.chains[h][0] == h
  {
    hide TreeOk, FatOk, IsChain;
    ChainFacts(v.fat, l.chains, l.home, h);
  }

  lemma StoreWorks(v: Volume, cs: seq<nat>, full: seq<byte>)
    requires v.Valid() && InRange(cs, |v.fat|) && LowestFree(v.fat).Ok?
    ensures WriteClusters(v, cs, full).1.Ok?
  {
    hide FirstFree, Store, Link, Needed;
  }

  // -- Steps and runs -----------------------------------------------------------------------------------

  /** MAIN: a call that reaches its parent through directories and answers an error leaves a sound state if
      and only if it does not leak. */
  lemma ErrorExact(s: VfsState, op: Op)
    requires Sound(s) && s.v.Valid() && Reached(s, op) && !LeavesTable(s, op) && !Step(s, op).1
    ensures Sound(Step(s, op).0) <==> !Leaks(s, op)
  {
    hide GoodState, CreateFile, Mkdir, Delete, Open, WriteFd, Sound, StaysReadable, Target, ParentDir, MakesRecord;
    var l := LayoutOf(s);
    match op {
      case CreateOp(path, data) => CreateFails(s, l, path, data);
      case MkdirOp(path) => MkdirFails(s, l, path);
      case DeleteOp(path) => DeleteFails(s, l, path);
      case OpenOp(path, mode) => OpenFails(s, l, path, mode);
      case WriteOp(fd, data) => WriteFails(s, l, fd, data);
      case CloseOp(fd) =>
    }
  }

  /** The call keeps the state sound, whatever it answers. */
  predicate Keeps(s: VfsState, op: Op)
    requires s.v.Valid()
  {
    if Step(s, op).1 then Harmless(s, op) else !Leaks(s, op)
  }

  predicate Covered(s: VfsState, op: Op)
    requires s.v.Valid()
  {
    Reached(s, op) && !LeavesTable(s, op)
  }

  /** MAIN: so a call leaves a sound state, whatever it answers, if and only if it keeps it. */
  lemma CallExact(s: VfsState, op: Op)
    requires Sound(s) && s.v.Valid() && Covered(s, op)
    ensures Sound(Step(s, op).0) <==> Keeps(s, op)
  {
    hide Sound, Step, Reached, Harmless, Leaks, LeavesTable;
    if Step(s, op).1 {
      StepExact(s, op);
    } else {
      ErrorExact(s, op);
    }
  }

  /** The state after calls, whatever each answers; the run ends where a volume has lost its shape. */
  ghost function After(s: VfsState, ops: seq<Op>): VfsState
    decreases |ops|
  {
    if ops == [] || !s.v.Valid() then s else After(Step(s, ops[0]).0, ops[1..])
  }

  /** Every call of the run keeps the state it meets. */
  ghost predicate AllKeep(s: VfsState, ops: seq<Op>)
    decreases |ops|
  {
    ops == [] ||
    (s.v.Valid() && Covered(s, ops[0]) && Keeps(s, ops[0]) && AllKeep(Step(s, ops[0]).0, ops[1..]))
  }

  /** Every state of the run is sound. */
  ghost predicate AllSound(s: VfsState, ops: seq<Op>)
    decreases |ops|
  {
    && Sound(s)
    && (ops != [] ==> s.v.Valid() && Covered(s, ops[0]) && AllSound(Step(s, ops[0]).0, ops[1..]))
  }

  /** MAIN: of the runs from a sound state, whatever the calls answer, exactly those whose calls all keep the
      state they meet pass sound states only; they end in one. */
  lemma {:induction false} CallsExact(s: VfsState, ops: seq<Op>)
    requires Sound(s)
    ensures AllKeep(s, ops) <==> AllSound(s, ops)
    ensures AllKeep(s, ops) ==> Sound(After(s, ops))
    decreases |ops|
  {
    hide Sound, Covered, Keeps, Step;
    if ops != [] && s.v.Valid() && Covered(s, ops[0]) {
      CallExact(s, ops[0]);
      if Sound(Step(s, ops[0]).0) {
        CallsExact(Step(s, ops[0]).0, ops[1..]);
      }
    }
  }
}
