// Whole runs of the file system: every sequence of successful calls keeps the volume well-formed.
module Runs {
  import opened Wrappers
  import opened Bytes
  import opened Chains
  import opened Volumes
  import opened DirEntries
  import opened Directory
  import opened Paths
  import opened VfsSpec
  import opened Storage
  import opened Tree
  import opened Invariant
  import opened Operations
  import opened TreePaths

  datatype Op =
    | CreateOp(path: seq<byte>, data: seq<byte>)
    | MkdirOp(path: seq<byte>)
    | DeleteOp(path: seq<byte>)
    | OpenOp(path: seq<byte>, mode: FileMode)
    | WriteOp(fd: nat, data: seq<byte>)
    | CloseOp(fd: nat)

  /** One call: the state it leaves, and whether it returned Ok. */
  function Step(s: VfsState, op: Op): (VfsState, bool)
    requires s.v.Valid()
  {
    match op
    case CreateOp(path, data) => var (v', r) := CreateFile(s.v, path, data); (s.(v := v'), r.Ok?)
    case MkdirOp(path) => var (v', r) := Mkdir(s.v, path); (s.(v := v'), r.Ok?)
    case DeleteOp(path) => var (v', r) := Delete(s.v, path); (s.(v := v'), r.Ok?)
    case OpenOp(path, mode) => var (s', r) := Open(s, path, mode); (s', r.Ok?)
    case WriteOp(fd, data) => var (s', r) := WriteFd(s, fd, data); (s', r.Ok?)
    case CloseOp(fd) => (Close(s, fd), true)
  }

  // -- When a call is in the guarantee ----------------------------------------------------------------

  /** No descriptor that may be written through is on the chain of `cluster`. */
  predicate NotOpen(table: seq<FileDescriptor>, cluster: nat) {
    forall f :: f in table && f.mode != Read ==> f.cluster != cluster
  }

  /** The entry the last component of `path` names, in a parent reached through directories. */
  function Target(v: Volume, path: seq<byte>): Option<DirEntry>
    requires v.Valid()
  {
    var d := ParentDir(v, path);
    if d.None? || !Readable(v.fat, d.value) then None
    else
      ReadableWalk(v.fat, d.value);
      FindEntry(v, ChainOf(v.fat, d.value), ToUpper(NamePart(path)))
  }

  /** No entry of the directory at `cluster` owns a chain. */
  predicate EmptyDir(v: Volume, cluster: nat)
    requires v.Valid()
  {
    Readable(v.fat, cluster) &&
    (ReadableWalk(v.fat, cluster);
     var slots := Slots(v.data, ChainOf(v.fat, cluster));
     forall i :: 0 <= i < |slots| ==> !Live(slots[i]))
  }

  /** The directory at `cluster` takes one more entry and stays within what `read_chain` follows. */
  predicate Room(v: Volume, cluster: nat)
    requires v.Valid()
  {
    Readable(v.fat, cluster) &&
    (ReadableWalk(v.fat, cluster);
     RoomFor(Slots(v.data, ChainOf(v.fat, cluster)), |ChainOf(v.fat, cluster)|))
  }

  /** A new entry for `path` starts with neither NUL nor 0xE5, and its directory has room for it. */
  predicate TakesEntry(v: Volume, path: seq<byte>)
    requires v.Valid()
  {
    Storable(ToUpper(NamePart(path))) && ParentDir(v, path).Some? && Room(v, ParentDir(v, path).value)
  }

  /** Once the chain of `h` is free, no free cluster lies below `h`, so `h` is the next one handed out. */
  predicate ReusesHead(fat: seq<nat>, h: nat) {
    forall x :: 2 <= x < h && x < |fat| ==> fat[x] != FREE && x !in ChainOf(fat, h)
  }

  /** No chain goes through `h`. */
  predicate Idle(fat: seq<nat>, h: nat) {
    h < 2 || (h < |fat| && (fat[h] == FREE || fat[h] == BAD))
  }

  /** A write through `file` leaves a chain `read_chain` sees whole. */
  predicate StaysReadable(v: Volume, file: FileDescriptor, data: seq<byte>)
    requires v.Valid()
  {
    Readable(v.fat, file.cluster) &&
    (Needed(|FullData(v, file, data)|, v.csz) <= |ChainOf(v.fat, file.cluster)|
        || |ChainOf(v.fat, file.cluster)| < MAX_CHAIN)
  }

  /** The parent of the path a call works on is reached through directories. */
  predicate Reached(s: VfsState, op: Op)
    requires s.v.Valid()
  {
    match op
    case CreateOp(path, _) => ParentDir(s.v, path).Some?
    case MkdirOp(path) => ParentDir(s.v, path).Some?
    case DeleteOp(path) => ParentDir(s.v, path).Some?
    case OpenOp(path, _) => ParentDir(s.v, Canonicalize(s.cwd, path)).Some?
    case WriteOp(fd, _) =>
      var i := Position(s.table, fd);
      i.Some? ==> ParentDir(s.v, s.table[i.value].path).Some?
    case CloseOp(_) => true
  }

  /** What decides whether a call that returns Ok leaves a sound state; Exactness.dfy shows that it does.
      A new entry has a name and a place; an overwritten file is not open for writing, or gets its first
      cluster again; a file deleted is not open for writing and a directory deleted holds nothing; a dot
      record deleted names no cluster in use; a chain written stays within what `read_chain` follows. */
  predicate Harmless(s: VfsState, op: Op)
    requires s.v.Valid()
  {
    match op
    case CreateOp(path, _) =>
      var t := Target(s.v, path);
      if t.None? then TakesEntry(s.v, path)
      else NotOpen(s.table, FirstCluster(t.value)) || ReusesHead(s.v.fat, FirstCluster(t.value))
    case MkdirOp(path) => TakesEntry(s.v, path)
    case DeleteOp(path) =>
      var t := Target(s.v, path);
      t.Some? ==>
        if IsDotEntry(t.value) then Idle(s.v.fat, FirstCluster(t.value))
        else && NotOpen(s.table, FirstCluster(t.value))
             && (IsDirectory(t.value) ==> EmptyDir(s.v, FirstCluster(t.value)))
    case OpenOp(path, _) =>
      var full := Canonicalize(s.cwd, path);
      NamePart(full) != [] && Target(s.v, full).None? ==> TakesEntry(s.v, full)
    case WriteOp(fd, data) =>
      var i := Position(s.table, fd);
      i.Some? ==> StaysReadable(s.v, s.table[i.value], data)
    case CloseOp(_) => true
  }

  /** What a caller must see to; every part can be checked before the call. */
  predicate Allowed(s: VfsState, op: Op)
    requires s.v.Valid()
  {
    Reached(s, op) && Harmless(s, op)
  }

  // -- The invariant of the mounted state -----------------------------------------------------------

  /** Every descriptor that may be written through is on the chain of a file of the volume. */
  ghost predicate FdsOk(l: Layout, table: seq<FileDescriptor>) {
    forall f :: f in table && f.mode != Read ==> f.cluster in l.chains && f.cluster !in l.dirs
  }

  /** Descriptors are numbered below the next number to be given out. */
  predicate FdsNumbered(table: seq<FileDescriptor>, nextFd: nat) {
    forall f :: f in table ==> f.fd < nextFd
  }

  ghost predicate GoodState(s: VfsState, l: Layout) {
    Good(s.v, l) && FdsOk(l, s.table) && FdsNumbered(s.table, s.nextFd)
  }

  /** Some layout makes the state good. */
  ghost predicate Sound(s: VfsState) {
    exists l: Layout :: GoodState(s, l)
  }

  lemma GoodValid(v: Volume, l: Layout)
    requires Good(v, l)
    ensures v.Valid()
  {
  }

  /** The facts every operation starts from. */
  lemma AtParent(v: Volume, l: Layout, path: seq<byte>) returns (d: nat)
    requires Good(v, l) && v.Valid() && ParentDir(v, path).Some?
    ensures d == ParentDir(v, path).value && d in l.dirs && d in l.chains
    ensures ResolveParent(v, path) == Ok((d, NamePart(path)))
    ensures Readable(v.fat, d) && Chained(v.fat, d) && ChainOf(v.fat, d) == l.chains[d]
            && InRange(l.chains[d], |v.data|)
    ensures Slots(v.data, l.chains[d]) == l.dirs[d]
    ensures var k := FindFrom(l.dirs[d], 0, ToUpper(NamePart(path)));
            && Target(v, path) == (if k.Some? then Some(l.dirs[d][k.value]) else None)
            && FindEntry(v, l.chains[d], ToUpper(NamePart(path))) == Target(v, path)
  {
    hide Slots, FindFrom, WalkDirs, Follow;
    ParentInTree(v, l, path);
    d := ParentDir(v, path).value;
    assert DirAt(v, l.chains, d, l.dirs[d]);
  }

  /** Room on the volume is room in the directory kept there. */
  lemma RoomThere(v: Volume, l: Layout, d: nat)
    requires Good(v, l) && v.Valid() && d in l.dirs
    ensures d in l.chains && (Room(v, d) <==> RoomFor(l.dirs[d], |l.chains[d]|))
  {
    hide Slots, HoleFrom;
    StoredDir(v, l.chains, l.home, l.dirs, d);
  }

  /** Overwriting hands out the freed head again exactly when no free cluster lies below it. */
  lemma ReusedExactly(v: Volume, h: nat, data: seq<byte>)
    requires v.Valid() && Readable(v.fat, h) && h in ChainOf(v.fat, h) && WriteNewFile(Freed(v, h), data).1.Ok?
    ensures ReusesHead(v.fat, h) <==> WriteNewFile(Freed(v, h), data).1.value == h
  {
    hide Follow, WriteClusters, Free;
    FreedIs(v, h);
    MemberInRange(ChainOf(v.fat, h), |v.fat|, h);
  }

  lemma CreateStep(s: VfsState, l: Layout, path: seq<byte>, data: seq<byte>) returns (l': Layout)
    requires GoodState(s, l) && s.v.Valid() && Allowed(s, CreateOp(path, data)) && CreateFile(s.v, path, data).1.Ok?
    ensures GoodState(s.(v := CreateFile(s.v, path, data).0), l')
  {
    hide Good, FindFrom, WalkDirs, CreateFile, Target, FdsOk, FdsNumbered, TakesEntry, NotOpen, ReusesHead;
    var d := AtParent(s.v, l, path);
    var k := FindFrom(l.dirs[d], 0, ToUpper(NamePart(path)));
    if k.Some? {
      l' := OverwriteStep(s, l, path, data, d, k.value);
    } else {
      l' := FreshStep(s, l, path, data, d);
    }
  }

  lemma OverwriteStep(s: VfsState, l: Layout, path: seq<byte>, data: seq<byte>, d: nat, k: nat) returns (l': Layout)
    requires GoodState(s, l) && s.v.Valid() && ParentDir(s.v, path) == Some(d) && CreateFile(s.v, path, data).1.Ok?
    requires d in l.dirs && FindFrom(l.dirs[d], 0, ToUpper(NamePart(path))) == Some(k)
    requires NotOpen(s.table, FirstCluster(l.dirs[d][k])) || ReusesHead(s.v.fat, FirstCluster(l.dirs[d][k]))
    ensures GoodState(s.(v := CreateFile(s.v, path, data).0), l')
  {
    hide Good, Slots, FindFrom, WalkDirs, Follow, Overwrite, CreateFresh, FirstCluster, ReusesHead, WriteNewFile,
         IsDirectory;
    var d' := AtParent(s.v, l, path);
    var c, h := 0, FirstCluster(l.dirs[d][k]);
    l', c := OverwriteKeeps(s.v, l, d, ToUpper(NamePart(path)), k, data);
    HeadInChain(s.v, l, d, k);
    ReusedExactly(s.v, h, data);
  }

  lemma FreshStep(s: VfsState, l: Layout, path: seq<byte>, data: seq<byte>, d: nat) returns (l': Layout)
    requires GoodState(s, l) && s.v.Valid() && ParentDir(s.v, path) == Some(d) && CreateFile(s.v, path, data).1.Ok?
    requires d in l.dirs && FindFrom(l.dirs[d], 0, ToUpper(NamePart(path))).None? && TakesEntry(s.v, path)
    ensures GoodState(s.(v := CreateFile(s.v, path, data).0), l')
  {
    hide Good, Slots, FindFrom, WalkDirs, Follow, FullNameUpper, NoLower, Overwrite, CreateFresh, Storable, Room,
         WriteNewFile, HoleFrom;
    var d' := AtParent(s.v, l, path);
    UpperClean(NamePart(path));
    RoomThere(s.v, l, d);
    var slots', k';
    l', slots', k' := FreshKeeps(s.v, l, d, ToUpper(NamePart(path)), data);
  }

  lemma HeadInChain(v: Volume, l: Layout, d: nat, k: nat)
    requires Good(v, l) && LiveAt(l.dirs, d, k)
    ensures var h := FirstCluster(l.dirs[d][k]);
            h in l.chains && h in l.chains[h] && Readable(v.fat, h) && ChainOf(v.fat, h) == l.chains[h]
  {
    hide IsChain, Follow;
    LiveOwner(v, l, d, k);
    StoredChain(v, l.chains, l.home, l.dirs, FirstCluster(l.dirs[d][k]));
  }

  lemma MkdirStep(s: VfsState, l: Layout, path: seq<byte>) returns (l': Layout)
    requires GoodState(s, l) && s.v.Valid() && Allowed(s, MkdirOp(path)) && Mkdir(s.v, path).1.Ok?
    ensures GoodState(s.(v := Mkdir(s.v, path).0), l')
  {
    hide Good, Slots, FindFrom, WalkDirs, Follow, FullNameUpper, IsDotEntry, NoLower, MakeDir, IsChain, Storable,
         Room, HoleFrom;
    var d := AtParent(s.v, l, path);
    UpperClean(NamePart(path));
    RoomThere(s.v, l, d);
    var slots', k, c;
    l', slots', k, c := MakeDirKeeps(s.v, l, d, ToUpper(NamePart(path)));
  }

  /** Deleting a file or directory also raises the number of free clusters by exactly the length of the
      chain freed. */
  lemma DeleteStep(s: VfsState, l: Layout, path: seq<byte>) returns (l': Layout)
    requires GoodState(s, l) && s.v.Valid() && Allowed(s, DeleteOp(path)) && Delete(s.v, path).1.Ok?
    ensures GoodState(s.(v := Delete(s.v, path).0), l')
    ensures Target(s.v, path).Some?
    ensures !IsDotEntry(Target(s.v, path).value) ==>
              |FreeSet(Delete(s.v, path).0.fat)|
              == |FreeSet(s.v.fat)| + |ChainOf(s.v.fat, FirstCluster(Target(s.v, path).value))|
  {
    hide Good, Slots, FindFrom, WalkDirs, Follow, FullNameUpper, IsDotEntry, NoLower, IsChain, SetSlot, Free,
         FirstCluster, IsDirectory, Live, FreeSet, Delete, Idle;
    var d := AtParent(s.v, l, path);
    var n := ToUpper(NamePart(path));
    DeleteFinds(s.v, l, path, d);
    var k := FindFrom(l.dirs[d], 0, n).value;
    var e := l.dirs[d][k];
    if IsDotEntry(e) {
      l' := IdleRemovedKeeps(s.v, l, path, d, k);
    } else {
      FoundIsLive(s.v, l, d, n, k);
      var h := FirstCluster(e);
      if IsDirectory(e) {
        EmptyExactly(s.v, l, h);
      }
      l' := RemovedKeeps(s.v, l, d, n, k);
      DeleteIsRemoved(s.v, l, path, d, k);
    }
  }

  lemma DeleteFinds(v: Volume, l: Layout, path: seq<byte>, d: nat)
    requires Good(v, l) && v.Valid() && ParentDir(v, path) == Some(d) && Delete(v, path).1.Ok?
    ensures d in l.dirs && NamePart(path) != [] && FindFrom(l.dirs[d], 0, ToUpper(NamePart(path))).Some?
  {
    hide Good, Slots, FindFrom, WalkDirs, Follow;
    var d' := AtParent(v, l, path);
  }

  /** A dot record that names no cluster in use goes, and nothing else does. */
  lemma IdleRemovedKeeps(v: Volume, l: Layout, path: seq<byte>, d: nat, k: nat) returns (l': Layout)
    requires Good(v, l) && v.Valid() && ParentDir(v, path) == Some(d) && Delete(v, path).1.Ok?
    requires d in l.dirs && FindFrom(l.dirs[d], 0, ToUpper(NamePart(path))) == Some(k)
    requires IsDotEntry(l.dirs[d][k]) && Idle(v.fat, FirstCluster(l.dirs[d][k]))
    ensures var v', slots := Delete(v, path).0, l.dirs[d];
            && Good(v', l') && l'.chains == l.chains
            && l'.dirs == l.dirs[d := WithSlot(slots, k, Tombstone(slots[k]))]
            && OthersKept(v, v', l.chains, l.chains, d, d)
  {
    hide Good, Slots, FindFrom, WalkDirs, Follow, FullNameUpper, IsDotEntry, SetSlot, Free, FirstCluster, DirOk,
         ResolveParent, Readable;
    var d' := AtParent(v, l, path);
    var e, t, h := l.dirs[d][k], Tombstone(l.dirs[d][k]), FirstCluster(l.dirs[d][k]);
    GoodDirOk(v, l, d);
    DirOkParts(l.dirs[d]);
    RemoveVisible(l.dirs[d], k, ToUpper(NamePart(path)));
    DirOkWithSlot(l.dirs[d], k, t);
    TombstoneNotLive(e);
    UnownedKeeps(v, l, d, k, t);
    l' := l.(dirs := l.dirs[d := WithSlot(l.dirs[d], k, t)]);
    var v1 := v.(data := SetSlot(v.data, l.chains[d], k, t));
    if h >= 2 {
      IdleChain(v.fat, h);
      FreedIs(v1, h);
      GoodFreeIdle(v1, l', h);
    }
  }

  lemma IdleChain(fat: seq<nat>, h: nat)
    requires 2 <= h && Idle(fat, h)
    ensures h < |fat| && Readable(fat, h) && ChainOf(fat, h) == [h] && Free(fat, [h]) == fat[h := FREE]
  {
    assert [] + [h] == [h];
    assert Free(fat, [h]) == fat[h := FREE];
  }

  lemma GoodFreeIdle(v: Volume, l: Layout, h: nat)
    requires Good(v, l) && 2 <= h < |v.fat| && (v.fat[h] == FREE || v.fat[h] == BAD)
    ensures Good(v.(fat := v.fat[h := FREE]), l)
  {
    hide FatOk, TreeOk;
    FreeIdle(v.fat, l.chains, l.home, h);
    var v' := v.(fat := v.fat[h := FREE]);
    assert v'.Valid();
    forall d | d in l.dirs
      ensures DirAt(v', l.chains, d, l.dirs[d])
    {
      assert DirAt(v, l.chains, d, l.dirs[d]);
    }
  }

  lemma EmptyExactly(v: Volume, l: Layout, h: nat)
    requires Good(v, l) && v.Valid() && h in l.dirs
    ensures EmptyDir(v, h) <==> NothingLive(l.dirs[h])
  {
    hide Good, Slots, Follow;
    StoredDirGood(v, l, h);
  }

  lemma GoodRemoved(v: Volume, l: Layout, d: nat, k: nat)
    requires Good(v, l) && d in l.dirs && k < |l.dirs[d]| && FirstCluster(l.dirs[d][k]) in l.chains
    ensures var h := FirstCluster(l.dirs[d][k]);
            && d in l.chains && h >= 2
            && k < |Slots(v.data, l.chains[d])|
            && Removed(v, l, d, k) == v.(data := SetSlot(v.data, l.chains[d], k, Tombstone(l.dirs[d][k])),
                                         fat := Free(v.fat, l.chains[h]))
            && Readable(v.fat, h) && ChainOf(v.fat, h) == l.chains[h]
  {
    StoredDir(v, l.chains, l.home, l.dirs, d);
    StoredChain(v, l.chains, l.home, l.dirs, FirstCluster(l.dirs[d][k]));
  }

  /** Deleting marks the record found and frees the chain it names. */
  lemma DeleteIsRemoved(v: Volume, l: Layout, path: seq<byte>, d: nat, k: nat)
    requires Good(v, l) && v.Valid() && ResolveParent(v, path) == Ok((d, NamePart(path))) && NamePart(path) != []
    requires d in l.dirs && FindFrom(l.dirs[d], 0, ToUpper(NamePart(path))) == Some(k)
             && FirstCluster(l.dirs[d][k]) in l.chains
    ensures Delete(v, path) == (Removed(v, l, d, k), Ok(()))
  {
    hide Good, FindFrom, WalkDirs, Follow, FullNameUpper, IsDotEntry, SetSlot, Free, FirstCluster, Slots, Removed,
         ResolveParent;
    StoredDirGood(v, l, d);
    GoodRemoved(v, l, d, k);
  }

  lemma StoredDirGood(v: Volume, l: Layout, d: nat)
    requires Good(v, l) && d in l.dirs
    ensures d in l.chains && Readable(v.fat, d) && ChainOf(v.fat, d) == l.chains[d] && InRange(l.chains[d], |v.data|)
    ensures Slots(v.data, l.chains[d]) == l.dirs[d]
  {
    StoredDir(v, l.chains, l.home, l.dirs, d);
  }

  lemma OpenStep(s: VfsState, l: Layout, path: seq<byte>, mode: FileMode) returns (l': Layout)
    requires GoodState(s, l) && s.v.Valid() && Allowed(s, OpenOp(path, mode)) && Open(s, path, mode).1.Ok?
    ensures GoodState(Open(s, path, mode).0, l')
  {
    hide Good, Slots, FindFrom, WalkDirs, Follow, CreateFresh, FirstCluster, IsDirectory, FileSize, ResolvePath,
         FdsOk, FdsNumbered, TakesEntry;
    var full := Canonicalize(s.cwd, path);
    var d := AtParent(s.v, l, full);
    var n := ToUpper(NamePart(full));
    var k := FindFrom(l.dirs[d], 0, n);
    if NamePart(full) == [] {
      l' := l;
      FdsAfterOpen(l, l, s, FileDescriptor(s.nextFd, full, mode, 0, 0, ResolvePath(s.v, full).value));
    } else if k.Some? {
      var e := l.dirs[d][k.value];
      l' := l;
      GoodDirOk(s.v, l, d);
      NotDot(l.dirs[d], k.value, n);
      FoundIsLive(s.v, l, d, n, k.value);
      FdsAfterOpen(l, l, s, FileDescriptor(s.nextFd, full, mode, 0, FileSize(e), FirstCluster(e)));
    } else {
      l' := OpenNewStep(s, l, full, mode, d);
    }
  }

  lemma OpenNewStep(s: VfsState, l: Layout, full: seq<byte>, mode: FileMode, d: nat) returns (l': Layout)
    requires GoodState(s, l) && s.v.Valid() && ParentDir(s.v, full) == Some(d) && d in l.dirs && TakesEntry(s.v, full)
    requires NamePart(full) != [] && CreateFresh(s.v, d, ToUpper(NamePart(full)), []).1.Ok?
    ensures var (v', r) := CreateFresh(s.v, d, ToUpper(NamePart(full)), []);
            GoodState(WithDescriptor(s.(v := v'), full, mode, 0, r.value), l')
  {
    hide Good, Slots, FindFrom, WalkDirs, Follow, FullNameUpper, NoLower, CreateFresh, Storable, FdsOk, FdsNumbered,
         Room, HoleFrom;
    UpperClean(NamePart(full));
    RoomThere(s.v, l, d);
    var slots', k';
    l', slots', k' := FreshKeeps(s.v, l, d, ToUpper(NamePart(full)), []);
    var c := CreateFresh(s.v, d, ToUpper(NamePart(full)), []).1.value;
    HeadNotDir(s.v, l, c);
    FdsAfterOpen(l, l', s, FileDescriptor(s.nextFd, full, mode, 0, 0, c));
  }

  lemma GoodDirOk(v: Volume, l: Layout, d: nat)
    requires Good(v, l) && d in l.dirs
    ensures DirOk(l.dirs[d])
  {
  }

  lemma HeadNotDir(v: Volume, l: Layout, c: nat)
    requires Good(v, l) && c !in l.chains
    ensures c !in l.dirs
  {
  }

  lemma FdsAfterOpen(l: Layout, l': Layout, s: VfsState, f: FileDescriptor)
    requires FdsOk(l, s.table) && FdsNumbered(s.table, s.nextFd) && f.fd == s.nextFd
    requires l.chains.Keys <= l'.chains.Keys && l'.dirs.Keys == l.dirs.Keys
    requires f.mode != Read ==> f.cluster in l'.chains && f.cluster !in l'.dirs
    ensures FdsOk(l', s.table + [f]) && FdsNumbered(s.table + [f], s.nextFd + 1)
  {
  }

  /** The volume after the data of a write is stored, before the size is updated. */
  lemma WriteStep(s: VfsState, l: Layout, fd: nat, data: seq<byte>) returns (l': Layout)
    requires GoodState(s, l) && s.v.Valid() && Allowed(s, WriteOp(fd, data)) && WriteFd(s, fd, data).1.Ok?
    ensures GoodState(WriteFd(s, fd, data).0, l')
  {
    hide Good, Slots, FindFrom, WalkDirs, TreeWalk, Follow, IsChain, WriteClusters, ChainAfterWrite, UpdateSize,
         FullData, Advanced, FdsOk, FdsNumbered, InRange;
    var i := Position(s.table, fd).value;
    var file := s.table[i];
    var h := file.cluster;
    FdOnFile(l, s.table, i);
    GoodChain(s.v, l, h);
    var full := FullData(s.v, file, data);
    assert |ChainAfterWrite(s.v, l.chains[h], full)| <= MAX_CHAIN by {
      AfterWriteLength(s.v, l.chains[h], full);
    }
    l' := WriteKeeps(s.v, l, h, full);
    var v1 := WriteClusters(s.v, l.chains[h], full).0;
    var file' := Advanced(file, |data|);
    AdvancedKeeps(file, |data|);
    FdsAfterWrite(l, l', s.table, i, file');
    NumbersAfterWrite(s.table, s.nextFd, i, file');
    if file'.size != 0 {
      ParentInTree(s.v, l, file.path);
      ParentInTree(v1, l', file.path);
      var d := ParentDir(v1, file.path).value;
      if NamePart(file.path) != [] {
        var l1 := l';
        l' := UpdateSizeKeeps(v1, l1, d, ToUpper(NamePart(file.path)), file'.size);
        FdsSameHeads(l1, l', s.table[i := file']);
      }
    }
  }

  lemma FdOnFile(l: Layout, table: seq<FileDescriptor>, i: nat)
    requires FdsOk(l, table) && i < |table| && table[i].mode != Read
    ensures table[i].cluster in l.chains && table[i].cluster !in l.dirs
  {
    assert table[i] in table;
  }

  lemma GoodChain(v: Volume, l: Layout, h: nat)
    requires Good(v, l) && h in l.chains
    ensures IsChain(v.fat, l.chains[h]) && Chained(v.fat, h) && Readable(v.fat, h) && ChainOf(v.fat, h) == l.chains[h]
    ensures |l.chains[h]| <= MAX_CHAIN
  {
    StoredChain(v, l.chains, l.home, l.dirs, h);
  }

  lemma AfterWriteLength(v: Volume, existing: seq<nat>, payload: seq<byte>)
    requires v.Valid()
    ensures |ChainAfterWrite(v, existing, payload)| <= |existing| + 1
    ensures Needed(|payload|, v.csz) <= |existing| ==> ChainAfterWrite(v, existing, payload) == existing
  {
  }

  lemma AdvancedKeeps(file: FileDescriptor, n: nat)
    ensures var f := Advanced(file, n);
            && f.fd == file.fd && f.cluster == file.cluster && f.mode == file.mode && f.path == file.path
            && f.size < U32
  {
  }

  lemma FdsAfterWrite(l: Layout, l': Layout, table: seq<FileDescriptor>, i: nat, f: FileDescriptor)
    requires FdsOk(l, table) && i < |table| && f.cluster == table[i].cluster && f.mode == table[i].mode
    requires l'.chains.Keys == l.chains.Keys && l'.dirs.Keys == l.dirs.Keys
    ensures FdsOk(l', table[i := f])
  {
    forall g | g in table[i := f] && g.mode != Read
      ensures g.cluster in l'.chains && g.cluster !in l'.dirs
    {
      if g == f {
        assert table[i] in table;
      }
    }
  }

  lemma NumbersAfterWrite(table: seq<FileDescriptor>, nextFd: nat, i: nat, f: FileDescriptor)
    requires FdsNumbered(table, nextFd) && i < |table| && f.fd == table[i].fd
    ensures FdsNumbered(table[i := f], nextFd)
  {
    assert table[i] in table;
  }

  lemma FdsSameHeads(l: Layout, l': Layout, table: seq<FileDescriptor>)
    requires FdsOk(l, table) && l'.chains.Keys == l.chains.Keys && l'.dirs.Keys == l.dirs.Keys
    ensures FdsOk(l', table)
  {
  }

  // -- Runs -------------------------------------------------------------------------------------------

  /** One allowed, successful call keeps the mounted state sound. */
  lemma StepKeeps(s: VfsState, op: Op)
    requires Sound(s) && s.v.Valid() && Allowed(s, op) && Step(s, op).1
    ensures Sound(Step(s, op).0) && Step(s, op).0.v.Valid()
  {
    hide Good, FdsOk, Allowed, CreateFile, Mkdir, Delete, Open, WriteFd;
    var l: Layout :| GoodState(s, l);
    var l': Layout;
    match op {
      case CreateOp(path, data) => l' := CreateStep(s, l, path, data);
      case MkdirOp(path) => l' := MkdirStep(s, l, path);
      case DeleteOp(path) => l' := DeleteStep(s, l, path);
      case OpenOp(path, mode) => l' := OpenStep(s, l, path, mode);
      case WriteOp(fd, data) => l' := WriteStep(s, l, fd, data);
      case CloseOp(fd) =>
        l' := l;
        CloseKeeps(s, l, fd);
    }
    assert GoodState(Step(s, op).0, l');
    GoodValid(Step(s, op).0.v, l');
  }

  lemma CloseKeeps(s: VfsState, l: Layout, fd: nat)
    requires FdsOk(l, s.table) && FdsNumbered(s.table, s.nextFd)
    ensures FdsOk(l, Close(s, fd).table) && FdsNumbered(Close(s, fd).table, s.nextFd)
  {
  }

  /** Every call of the run is allowed where it happens and returns Ok. */
  ghost predicate RunAllowed(s: VfsState, ops: seq<Op>)
    decreases |ops|
  {
    ops == [] ||
    (s.v.Valid() && Allowed(s, ops[0]) && Step(s, ops[0]).1 && RunAllowed(Step(s, ops[0]).0, ops[1..]))
  }

  ghost function Run(s: VfsState, ops: seq<Op>): VfsState
    requires RunAllowed(s, ops)
    decreases |ops|
  {
    if ops == [] then s else Run(Step(s, ops[0]).0, ops[1..])
  }

  /** MAIN: every run of allowed calls that return Ok keeps the FAT a set of disjoint, acyclic,
      in-range chains, each ended by an end-of-chain mark and headed by the root or by exactly one
      live directory entry. */
  lemma {:induction false} RunKeeps(s: VfsState, ops: seq<Op>)
    requires Sound(s) && RunAllowed(s, ops)
    ensures Sound(Run(s, ops))
    decreases |ops|
  {
    hide Good, Allowed, Step, FdsOk;
    var l: Layout :| GoodState(s, l);
    GoodValid(s.v, l);
    if ops != [] {
      StepKeeps(s, ops[0]);
      RunKeeps(Step(s, ops[0]).0, ops[1..]);
    }
  }

  // -- A volume to start from -------------------------------------------------------------------------

  /** A freshly formatted volume: the root directory, one empty cluster, and nothing else. */
  function Formatted(csz: nat, root: nat, n: nat): Volume
    requires root < n
  {
    Volume(csz, root, seq(n, c => if c == root then EOC else FREE), seq(n, c => Zeros(csz)))
  }

  /** It is well formed: the guarantees above are not empty. */
  lemma FormattedIsGood(csz: nat, root: nat, n: nat) returns (l: Layout)
    requires csz % 32 == 0 && csz >= 64 && 2 <= root < n <= BAD
    ensures Good(Formatted(csz, root, n), l)
    ensures l.chains == map[root := [root]] && l.dirs.Keys == {root}
    ensures |l.dirs[root]| == csz / 32 && forall i :: 0 <= i < |l.dirs[root]| ==> IsEnd(l.dirs[root][i])
  {
    hide FullNameUpper, IsDotEntry, NoLower;
    hide Stored, TreeOk;
    var slots := SlotsOf(Zeros(csz));
    l := Layout(map[root := [root]], map[root := root], map[root := slots], map[]);
    FormattedStored(csz, root, n, slots);
    EmptyTree(root, slots);
    assert l.chains.Keys == {root};
  }

  lemma FormattedStored(csz: nat, root: nat, n: nat, slots: seq<DirEntry>)
    requires csz % 32 == 0 && csz >= 64 && 2 <= root < n <= BAD && slots == SlotsOf(Zeros(csz))
    ensures Stored(Formatted(csz, root, n), map[root := [root]], map[root := root], map[root := slots])
    ensures |slots| == csz / 32 && forall i :: 0 <= i < |slots| ==> IsEnd(slots[i])
  {
    var v, chains := Formatted(csz, root, n), map[root := [root]];
    assert IsChain(v.fat, [root]);
    assert ChainAt(v.fat, chains, map[root := root], root);
    OneClusterSlots(v.data, root);
    assert DirAt(v, chains, root, slots);
  }

  /** A root directory of end marks is a tree. */
  lemma EmptyTree(root: nat, slots: seq<DirEntry>)
    requires forall i :: 0 <= i < |slots| ==> IsEnd(slots[i])
    ensures TreeOk(root, {root}, map[root := slots], map[])
  {
    hide FullNameUpper, IsDotEntry, NoLower;
    assert Ranked(root, {root}, map[], map[]);
    assert map[root := slots].Keys == {root};
  }
}
