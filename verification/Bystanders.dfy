// What a call leaves alone: every file that it neither names nor writes through a descriptor.
module Bystanders {
  import opened Wrappers
  import opened Bytes
  import opened Chains
  import opened Volumes
  import opened DirEntries
  import opened Directory
  import opened Paths
  import opened VfsSpec
  import opened Storage
  import opened Tree
  import opened Invariant
  import opened Operations
  import opened TreePaths
  import opened Runs
  import opened Refinement
  import opened Contents
  import opened Rewrites
  import opened Directories
  import opened Appends
  import opened Exactness

  /** `path`, or the record to be made for it under the name as stored, is the file of `q`. */
  predicate NamesFile(v: Volume, path: seq<byte>, q: seq<byte>)
    requires v.Valid()
  {
    && NamePart(path) != [] && ParentDir(v, path) == ParentDir(v, q)
    && ToUpper(NamePart(q)) == if Target(v, path).Some? then ToUpper(NamePart(path))
       else StoredName(ToUpper(NamePart(path)))
  }

  /** The call neither names the file of `q` nor writes to its chain. */
  predicate Spares(s: VfsState, op: Op, q: seq<byte>)
    requires s.v.Valid()
  {
    match op
    case CreateOp(path, _) => !NamesFile(s.v, path, q)
    case MkdirOp(path) => !NamesFile(s.v, path, q)
    case DeleteOp(path) => !NamesFile(s.v, path, q)
    case OpenOp(path, _) =>
      Target(s.v, Canonicalize(s.cwd, path)).Some? || !NamesFile(s.v, Canonicalize(s.cwd, path), q)
    case WriteOp(fd, _) =>
      var i := Position(s.table, fd);
      i.Some? ==>
        && !NamesFile(s.v, s.table[i.value].path, q)
        && (Target(s.v, q).Some? ==> FirstCluster(Target(s.v, q).value) != s.table[i.value].cluster)
    case CloseOp(_) => true
  }

  lemma CreateAside(s: VfsState, l: Layout, path: seq<byte>, data: seq<byte>, q: seq<byte>, g: nat, m: seq<byte>)
    returns (l': Layout)
    requires GoodState(s, l) && s.v.Valid() && ParentDir(s.v, q) == Some(g) && g in l.dirs && m == ToUpper(NamePart(q))
    requires Allowed(s, CreateOp(path, data)) && CreateFile(s.v, path, data).1.Ok? && !NamesFile(s.v, path, q)
    ensures Good(CreateFile(s.v, path, data).0, l') && FileKept(s.v, l, CreateFile(s.v, path, data).0, l', g, m)
  {
    hide Good, CreateFile, WalkDirs, FileKept, Target, StoredName, TakesEntry, NotOpen, ReusesHead;
    CreateNamed(s.v, path, data);
    if Target(s.v, path).Some? {
      l' := OverwriteSpares(s.v, l, path, data, g, m);
    } else {
      l' := CreateSpares(s.v, l, path, data, g, m);
    }
  }

  lemma CreateNamed(v: Volume, path: seq<byte>, data: seq<byte>)
    requires v.Valid() && CreateFile(v, path, data).1.Ok?
    ensures NamePart(path) != []
  {
    hide Overwrite, CreateFresh, ResolvePath;
  }

  lemma MkdirAside(s: VfsState, l: Layout, path: seq<byte>, q: seq<byte>, g: nat, m: seq<byte>) returns (l': Layout)
    requires GoodState(s, l) && s.v.Valid() && ParentDir(s.v, q) == Some(g) && g in l.dirs && m == ToUpper(NamePart(q))
    requires Allowed(s, MkdirOp(path)) && Mkdir(s.v, path).1.Ok? && !NamesFile(s.v, path, q)
    ensures Good(Mkdir(s.v, path).0, l') && FileKept(s.v, l, Mkdir(s.v, path).0, l', g, m)
  {
    hide Good, Mkdir, WalkDirs, FileKept, Target, StoredName, TakesEntry;
    var d := MkdirIsMakeDir(s.v, l, path);
    l' := MkdirSpares(s.v, l, path, g, m);
  }

  lemma DeleteAside(s: VfsState, l: Layout, path: seq<byte>, q: seq<byte>, g: nat, m: seq<byte>) returns (l': Layout)
    requires GoodState(s, l) && s.v.Valid() && ParentDir(s.v, q) == Some(g) && g in l.dirs && m == ToUpper(NamePart(q))
    requires Allowed(s, DeleteOp(path)) && Delete(s.v, path).1.Ok? && !NamesFile(s.v, path, q)
    ensures Good(Delete(s.v, path).0, l') && (g in l'.dirs ==> FileKept(s.v, l, Delete(s.v, path).0, l', g, m))
  {
    hide Good, Delete, WalkDirs, FileKept, FindFrom, FullNameUpper, IsDotEntry, IsDirectory, FirstCluster, Idle,
         EmptyDir, NotOpen, Slots, Follow;
    var d := AtParent(s.v, l, path);
    DeleteFinds(s.v, l, path, d);
    var k := FindFrom(l.dirs[d], 0, ToUpper(NamePart(path))).value;
    if IsDotEntry(l.dirs[d][k]) {
      l' := IdleRemovedKeeps(s.v, l, path, d, k);
      DotAside(s.v, l, Delete(s.v, path).0, l', d, ToUpper(NamePart(path)), k, g, m);
    } else {
      l' := DeleteSpares(s.v, l, path, g, m);
    }
  }

  lemma DotAside(v: Volume, l: Layout, v': Volume, l': Layout, d: nat, n: seq<byte>, k: nat, g: nat, m: seq<byte>)
    requires Good(v, l) && d in l.dirs && g in l.dirs && FindFrom(l.dirs[d], 0, n) == Some(k) && (d, n) != (g, m)
    requires l'.dirs == l.dirs[d := WithSlot(l.dirs[d], k, Tombstone(l.dirs[d][k]))]
    requires OthersKept(v, v', l.chains, l'.chains, d, d)
    ensures FileKept(v, l, v', l', g, m)
  {
    hide Good, FindFrom, FullNameUpper, IsDirectory, FirstCluster, Tombstone;
    RemovedFind(l.dirs[d], n, k, m);
    FoundFileKept(v, l, v', l', g, m, d, d);
  }

  lemma OpenAside(s: VfsState, l: Layout, path: seq<byte>, mode: FileMode, q: seq<byte>, g: nat, m: seq<byte>)
    returns (l': Layout)
    requires GoodState(s, l) && s.v.Valid() && ParentDir(s.v, q) == Some(g) && g in l.dirs && m == ToUpper(NamePart(q))
    requires Allowed(s, OpenOp(path, mode)) && Open(s, path, mode).1.Ok? && Spares(s, OpenOp(path, mode), q)
    ensures Good(Open(s, path, mode).0.v, l') && FileKept(s.v, l, Open(s, path, mode).0.v, l', g, m)
  {
    hide Good, WalkDirs, FileKept, Target, StoredName, TakesEntry, Open, CreateFile;
    var full := Canonicalize(s.cwd, path);
    if NamePart(full) != [] && Target(s.v, full).None? {
      var d, c := OpenIsCreate(s, l, path, mode);
      l' := CreateSpares(s.v, l, full, [], g, m);
    } else {
      l' := l;
      OpenFindsOnly(s, l, path, mode);
      NothingChanged(s.v, l, g, m);
    }
  }

  lemma OpenFindsOnly(s: VfsState, l: Layout, path: seq<byte>, mode: FileMode)
    requires Good(s.v, l) && s.v.Valid() && Open(s, path, mode).1.Ok? && ParentDir(s.v, Canonicalize(s.cwd, path)).Some?
    requires NamePart(Canonicalize(s.cwd, path)) == [] || Target(s.v, Canonicalize(s.cwd, path)).Some?
    ensures Open(s, path, mode).0.v == s.v
  {
    hide Good, FindFrom, WalkDirs, Slots, Follow, CreateFresh, IsDirectory, FirstCluster, FileSize, ResolvePath;
    var d := AtParent(s.v, l, Canonicalize(s.cwd, path));
  }

  lemma NothingChanged(v: Volume, l: Layout, g: nat, m: seq<byte>)
    requires Good(v, l) && g in l.dirs
    ensures FileKept(v, l, v, l, g, m)
  {
    hide FindFrom, IsDirectory, FirstCluster, TreeOk, FatOk;
    var r := FindFrom(l.dirs[g], 0, m);
    if r.Some? && FirstCluster(l.dirs[g][r.value]) in l.chains {
      var h := FirstCluster(l.dirs[g][r.value]);
      GoodChain(v, l, h);
      SameBytes(v, l.chains, h);
    }
  }

  lemma SameBytes(v: Volume, chains: map<nat, seq<nat>>, h: nat)
    requires v.Valid() && h in chains && IsChain(v.fat, chains[h])
    ensures ChainKept(v, v, chains, chains, h)
  {
    forall c | c in chains[h]
      ensures 0 <= c < |v.data|
    {
      MemberInRange(chains[h], |v.fat|, c);
    }
  }

  lemma WriteAside(s: VfsState, l: Layout, fd: nat, data: seq<byte>, q: seq<byte>, g: nat, m: seq<byte>)
    returns (l': Layout)
    requires GoodState(s, l) && s.v.Valid() && ParentDir(s.v, q) == Some(g) && g in l.dirs && m == ToUpper(NamePart(q))
    requires Allowed(s, WriteOp(fd, data)) && WriteFd(s, fd, data).1.Ok? && Spares(s, WriteOp(fd, data), q)
    ensures Good(WriteFd(s, fd, data).0.v, l') && FileKept(s.v, l, WriteFd(s, fd, data).0.v, l', g, m)
  {
    hide Good, FdsOk, FdsNumbered, Follow, IsChain, Needed, FindFrom, Slots, FirstCluster, WriteFd, WriteClusters,
         ChainAfterWrite, FullData, FileKept, WalkDirs, NamesFile;
    WriteOpened(s, fd, data);
    var i := Position(s.table, fd).value;
    var file := s.table[i];
    WriteParts(s, fd, data, i);
    FdOnFile(l, s.table, i);
    GoodChain(s.v, l, file.cluster);
    var full := FullData(s.v, file, data);
    AfterWriteLength(s.v, l.chains[file.cluster], full);
    var l1 := WriteKeeps(s.v, l, file.cluster, full);
    var x := AtParent(s.v, l, q);
    l' := SizeUpdateAside(s.v, l, WriteClusters(s.v, l.chains[file.cluster], full).0, l1, file.path, file.cluster,
                          Advanced(file, |data|).size, q, g, m);
  }

  lemma WriteOpened(s: VfsState, fd: nat, data: seq<byte>)
    requires s.v.Valid() && WriteFd(s, fd, data).1.Ok?
    ensures Position(s.table, fd).Some?
  {
    hide Follow, WriteClusters, FullData, UpdateFileSize;
  }

  /** The two halves of a write. */
  lemma WriteParts(s: VfsState, fd: nat, data: seq<byte>, i: nat)
    requires s.v.Valid() && WriteFd(s, fd, data).1.Ok? && Position(s.table, fd) == Some(i)
    ensures s.table[i].mode != Read && Readable(s.v.fat, s.table[i].cluster)
    ensures InRange(ChainOf(s.v.fat, s.table[i].cluster), |s.v.fat|)
    ensures var full, size := FullData(s.v, s.table[i], data), Advanced(s.table[i], |data|).size;
            var w := WriteClusters(s.v, ChainOf(s.v.fat, s.table[i].cluster), full);
            && w.1.Ok? && w.0.Valid() && size < U32
            && WriteFd(s, fd, data).0.v == (if size == 0 then w.0 else UpdateFileSize(w.0, s.table[i].path, size).0)
  {
    hide Follow, WriteClusters, FullData, UpdateFileSize;
    ReadableWalk(s.v.fat, s.table[i].cluster);
    WriteClustersValid(s.v, ChainOf(s.v.fat, s.table[i].cluster), FullData(s.v, s.table[i], data));
  }

  lemma SizeUpdateAside(v: Volume, l: Layout, v1: Volume, l1: Layout, path: seq<byte>, h: nat, size: nat,
                        q: seq<byte>, g: nat, m: seq<byte>)
    returns (l': Layout)
    requires Good(v, l) && Good(v1, l1) && v.Valid() && v1.Valid() && v1.root == v.root && l1.dirs == l.dirs
             && size < U32
    requires OthersKept(v, v1, l.chains, l1.chains, h, h) && h !in l.dirs
    requires ParentDir(v, q) == Some(g) && g in l.dirs && m == ToUpper(NamePart(q))
    requires ParentDir(v, path).Some? && !NamesFile(v, path, q)
    requires var r := FindFrom(l.dirs[g], 0, m); r.Some? ==> FirstCluster(l.dirs[g][r.value]) != h
    ensures var v' := if size == 0 then v1 else UpdateFileSize(v1, path, size).0;
            Good(v', l') && FileKept(v, l, v', l', g, m)
  {
    hide Good, Follow, FindFrom, Slots, FirstCluster, FileKept, WalkDirs, TreeWalk, UpdateSize, WithFileSize,
         StoredName;
    var n := ToUpper(NamePart(path));
    ParentInTree(v, l, path);
    ParentInTree(v1, l1, path);
    var d := ParentDir(v, path).value;
    if size == 0 || NamePart(path) == [] {
      l' := l1;
      DataAside(v, l, v1, l1, v1, l1, h, d, g, m);
    } else {
      l' := UpdateSizeKeeps(v1, l1, d, n, size);
      NamedOther(v, l, path, q, d, n, g, m);
      SizeAside(v, l, v1, l1, UpdateSize(v1, l1.chains[d], n, size), l', h, d, n, size, g, m);
    }
  }

  /** A path that does not name the file of `q` names another record, or none. */
  lemma NamedOther(v: Volume, l: Layout, path: seq<byte>, q: seq<byte>, d: nat, n: seq<byte>, g: nat, m: seq<byte>)
    requires Good(v, l) && v.Valid() && ParentDir(v, path) == Some(d) && ParentDir(v, q) == Some(g) && d in l.dirs
             && g in l.dirs
    requires n == ToUpper(NamePart(path)) && m == ToUpper(NamePart(q)) && NamePart(path) != [] && !NamesFile(v, path, q)
    ensures (d, n) != (g, m) || FindFrom(l.dirs[d], 0, n).None?
  {
    hide Good, FindFrom, Slots, Follow, WalkDirs, StoredName;
    var x := AtParent(v, l, path);
  }

  lemma DataAside(v: Volume, l: Layout, v1: Volume, l1: Layout, v': Volume, l': Layout, h: nat, d: nat, g: nat,
                  m: seq<byte>)
    requires Good(v, l) && g in l.dirs && d in l.dirs && l'.dirs == l.dirs
    requires OthersKept(v, v', l.chains, l'.chains, h, h)
    requires h !in l.dirs
    requires var r := FindFrom(l.dirs[g], 0, m); r.Some? ==> FirstCluster(l.dirs[g][r.value]) != h
    ensures FileKept(v, l, v', l', g, m)
  {
    hide Good, FindFrom, IsDirectory, FirstCluster;
    assert OthersKept(v, v', l.chains, l'.chains, d, h);
    FoundFileKept(v, l, v', l', g, m, d, h);
  }

  lemma SizeAside(v: Volume, l: Layout, v1: Volume, l1: Layout, v': Volume, l': Layout, h: nat, d: nat, n: seq<byte>,
                  size: nat,
                  g: nat, m: seq<byte>)
    requires Good(v, l) && g in l.dirs && d in l.dirs && l1.dirs == l.dirs && size < U32 && h !in l.dirs
    requires OthersKept(v, v1, l.chains, l1.chains, h, h) && OthersKept(v1, v', l1.chains, l'.chains, d, d)
    requires var k := FindFrom(l.dirs[d], 0, n);
             l'.dirs == if k.None? then l.dirs
                        else l.dirs[d := WithSlot(l.dirs[d], k.value, WithFileSize(l.dirs[d][k.value], size))]
    requires var r := FindFrom(l.dirs[g], 0, m); r.Some? ==> FirstCluster(l.dirs[g][r.value]) != h
    requires (d, n) != (g, m) || FindFrom(l.dirs[d], 0, n).None?
    ensures FileKept(v, l, v', l', g, m)
  {
    hide Good, FindFrom, IsDirectory, FirstCluster, WithFileSize, FullNameUpper, Skipped;
    OthersKeptTransitive(v, v1, v', l.chains, l1.chains, l'.chains, h, h, d, d, d, h);
    FoundFileKept(v, l, v', l', g, m, d, h);
    var k := FindFrom(l.dirs[d], 0, n);
    if k.Some? {
      var e := l.dirs[d][k.value];
      ClusterAndSize(e, 0, size);
      assert WithFileSize(e, size)[..20] == WithFileSize(e, size)[..28][..20] == e[..20];
      RedirectedFind(l.dirs[d], k.value, WithFileSize(e, size), m);
    }
  }

  /** An allowed call that spares the file of `q` keeps its record and its chain, as long as its
      directory is there. */
  lemma StepSpares(s: VfsState, l: Layout, op: Op, q: seq<byte>) returns (l': Layout)
    requires GoodState(s, l) && s.v.Valid() && Allowed(s, op) && Step(s, op).1
    requires ParentDir(s.v, q).Some? && Spares(s, op, q)
    ensures var s' := Step(s, op).0;
            && GoodState(s', l') && s'.v.Valid()
            && ParentDir(s.v, q).value in l.dirs
            && (ParentDir(s.v, q).value in l'.dirs ==>
                  FileKept(s.v, l, s'.v, l', ParentDir(s.v, q).value, ToUpper(NamePart(q))))
  {
    hide Good, FdsOk, FdsNumbered, CreateFile, Mkdir, Delete, Open, WriteFd, Harmless, FileKept, NamesFile, Target,
         ParentDir;
    ParentInTree(s.v, l, q);
    var g, m := ParentDir(s.v, q).value, ToUpper(NamePart(q));
    match op {
      case CreateOp(path, data) => l' := CreateAside(s, l, path, data, q, g, m);
      case MkdirOp(path) => l' := MkdirAside(s, l, path, q, g, m);
      case DeleteOp(path) => l' := DeleteAside(s, l, path, q, g, m);
      case OpenOp(path, mode) => l' := OpenAside(s, l, path, mode, q, g, m);
      case WriteOp(fd, data) => l' := WriteAside(s, l, fd, data, q, g, m);
      case CloseOp(fd) =>
        l' := l;
        NothingChanged(s.v, l, g, m);
    }
    SoundBy(s, l);
    StepKeeps(s, op);
    AnyLayout(Step(s, op).0, l');
  }

  /** The layout of a sound state serves its descriptors. */
  lemma AnyLayout(s: VfsState, l: Layout)
    requires Sound(s) && Good(s.v, l)
    ensures GoodState(s, l)
  {
    hide Good, FdsNumbered;
    var l0 := LayoutOf(s);
    LayoutUnique(s.v, l0, l);
  }

  /** MAIN: an allowed call that returns Ok leaves the content of every file it spares, as long as the
      path still leads to its directory. */
  lemma StepKeepsOthers(s: VfsState, op: Op, q: seq<byte>)
    requires Sound(s) && s.v.Valid() && Allowed(s, op) && Step(s, op).1
    requires ParentDir(s.v, q).Some? && Spares(s, op, q)
    ensures Step(s, op).0.v.Valid()
    ensures ParentDir(Step(s, op).0.v, q) == ParentDir(s.v, q) ==>
              ReadFileContent(Step(s, op).0.v, q) == ReadFileContent(s.v, q)
  {
    hide Good, FdsOk, FdsNumbered, Step, Allowed, Spares, FileKept, ReadFileContent, ParentDir;
    var l := LayoutOf(s);
    var l' := StepSpares(s, l, op, q);
    if ParentDir(Step(s, op).0.v, q) == ParentDir(s.v, q) {
      ParentInTree(Step(s, op).0.v, l', q);
      ReadKept(s.v, l, Step(s, op).0.v, l', q);
    }
  }
}
