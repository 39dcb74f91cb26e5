// Writing a new file through its descriptor, between any other calls that spare it: exactly when the
// file is the concatenation of what was written.
module Streams {
  import opened Wrappers
  import opened Bytes
  import opened Chains
  import opened Volumes
  import opened DirEntries
  import opened Directory
  import opened Paths
  import opened VfsSpec
  import opened Tree
  import opened Invariant
  import opened Operations
  import opened TreePaths
  import opened Runs
  import opened Refinement
  import opened Contents
  import opened Appends
  import opened Exactness
  import opened Bystanders

  // -- The descriptor between other calls -------------------------------------------------------------

  /** The descriptor numbered `fd`. */
  function Descriptor(table: seq<FileDescriptor>, fd: nat): Option<FileDescriptor> {
    var i := Position(table, fd);
    if i.Some? then Some(table[i.value]) else None
  }

  /** The call writes through or closes another descriptor, or none. */
  predicate LeavesFd(op: Op, fd: nat) {
    (op.WriteOp? ==> op.fd != fd) && (op.CloseOp? ==> op.fd != fd)
  }

  lemma DescriptorFirst(f: FileDescriptor, rest: seq<FileDescriptor>, fd: nat)
    ensures Descriptor([f] + rest, fd) == if f.fd == fd then Some(f) else Descriptor(rest, fd)
  {
    assert ([f] + rest)[1..] == rest;
  }

  lemma {:induction false} DescriptorUnder(table: seq<FileDescriptor>, f: FileDescriptor, fd: nat)
    requires f.fd != fd
    ensures Descriptor(table + [f], fd) == Descriptor(table, fd)
    decreases |table|
  {
    hide Descriptor;
    if table == [] {
      DescriptorFirst(f, [], fd);
      assert [] + [f] == [f] + [];
    } else {
      assert table + [f] == [table[0]] + (table[1..] + [f]) && table == [table[0]] + table[1..];
      DescriptorFirst(table[0], table[1..] + [f], fd);
      DescriptorFirst(table[0], table[1..], fd);
      DescriptorUnder(table[1..], f, fd);
    }
  }

  lemma {:induction false} DescriptorBeside(table: seq<FileDescriptor>, i: nat, f: FileDescriptor, fd: nat)
    requires i < |table| && table[i].fd != fd && f.fd != fd
    ensures Descriptor(table[i := f], fd) == Descriptor(table, fd)
    decreases |table|
  {
    hide Descriptor;
    assert table == [table[0]] + table[1..];
    DescriptorFirst(table[0], table[1..], fd);
    if i == 0 {
      assert table[i := f] == [f] + table[1..];
      DescriptorFirst(f, table[1..], fd);
    } else {
      assert table[i := f] == [table[0]] + table[1..][i - 1 := f];
      DescriptorFirst(table[0], table[1..][i - 1 := f], fd);
      DescriptorBeside(table[1..], i - 1, f, fd);
    }
  }

  lemma {:induction false} DescriptorRetained(table: seq<FileDescriptor>, other: nat, fd: nat)
    requires other != fd
    ensures Descriptor(Retain(table, other), fd) == Descriptor(table, fd)
    decreases |table|
  {
    hide Descriptor;
    if table != [] {
      assert table == [table[0]] + table[1..];
      DescriptorFirst(table[0], table[1..], fd);
      DescriptorFirst(table[0], Retain(table[1..], other), fd);
      DescriptorRetained(table[1..], other, fd);
      assert [] + Retain(table[1..], other) == Retain(table[1..], other);
    }
  }

  /** No other call touches a descriptor. */
  lemma DescriptorKept(s: VfsState, op: Op, fd: nat)
    requires s.v.Valid() && fd < s.nextFd && LeavesFd(op, fd) && Step(s, op).1
    ensures Descriptor(Step(s, op).0.table, fd) == Descriptor(s.table, fd)
  {
    hide CreateFile, Mkdir, Delete, ResolveParent, ResolvePath, CreateFresh, WriteClusters, UpdateFileSize, FullData,
         Follow, Descriptor, FirstCluster, FileSize, IsDirectory, FindFrom, Slots;
    match op {
      case CreateOp(path, data) =>
      case MkdirOp(path) =>
      case DeleteOp(path) =>
      case OpenOp(path, mode) =>
        var f := Open(s, path, mode).0.table[|s.table|];
        assert Open(s, path, mode).0.table == s.table + [f];
        DescriptorUnder(s.table, f, fd);
      case WriteOp(other, data) =>
        var i := Position(s.table, other).value;
        DescriptorBeside(s.table, i, Advanced(s.table[i], |data|), fd);
      case CloseOp(other) => DescriptorRetained(s.table, other, fd);
    }
  }

  // -- One step -------------------------------------------------------------------------------------

  /** A call that spares the file and its descriptor leaves it held as it was. */
  lemma HoldsSpared(s: VfsState, l: Layout, op: Op, fd: nat, path: seq<byte>, w: seq<byte>) returns (l': Layout)
    requires GoodState(s, l) && Holds(s, l, fd, path, w) && Allowed(s, op) && Step(s, op).1
    requires Spares(s, op, path) && LeavesFd(op, fd)
    requires Step(s, op).0.v.Valid() ==> ParentDir(Step(s, op).0.v, path) == ParentDir(s.v, path)
    ensures GoodState(Step(s, op).0, l') && Holds(Step(s, op).0, l', fd, path, w)
  {
    hide Good, FdsOk, Step, Allowed, Spares, FileKept, WalkDirs, FindFrom, IsDirectory, FirstCluster, FileSize,
         Content, FullNameUpper, IsDotEntry;
    l' := StepSpares(s, l, op, path);
    var s' := Step(s, op).0;
    var i := Position(s.table, fd).value;
    assert s.table[i] in s.table;
    DescriptorKept(s, op, fd);
    ParentInTree(s'.v, l', path);
    RecordKept(s.v, l, s'.v, l', ParentDir(s.v, path).value, ToUpper(NamePart(path)), s.table[i].cluster, |w|);
  }

  lemma RecordKept(v: Volume, l: Layout, v': Volume, l': Layout, d: nat, m: seq<byte>, h: nat, n: nat)
    requires Good(v, l) && Good(v', l') && FileKept(v, l, v', l', d, m) && RecordOf(v, l, d, m, h, n)
    ensures RecordOf(v', l', d, m, h, n) && l'.chains[h] == l.chains[h]
    ensures Content(v'.data, l'.chains[h]) == Content(v.data, l.chains[h])
  {
    hide Good, FindFrom, IsDirectory, FirstCluster, FileSize, Content, FullNameUpper, IsDotEntry;
    var k := FindFrom(l.dirs[d], 0, m).value;
    GoodDirOk(v', l', d);
    NotDot(l'.dirs[d], k, m);
    FoundIsLive(v', l', d, m, k);
    KeptContent(v, v', l.chains, l'.chains, h);
  }

  /** A write leaves it at its end, and holding `w` and more exactly when it held `w` and nothing is lost. */
  lemma WriteHolds(s: VfsState, l: Layout, fd: nat, path: seq<byte>, w: seq<byte>, data: seq<byte>) returns (l': Layout)
    requires GoodState(s, l) && AtEnd(s, l, fd, path, |w|) && |w + data| < U32
    requires Allowed(s, WriteOp(fd, data)) && WriteFd(s, fd, data).1.Ok?
    ensures s.v.Valid()
    ensures GoodState(WriteFd(s, fd, data).0, l') && AtEnd(WriteFd(s, fd, data).0, l', fd, path, |w + data|)
    ensures Holds(WriteFd(s, fd, data).0, l', fd, path, w + data)
            <==> Holds(s, l, fd, path, w) && Survives(s.v, FdCluster(s, fd), w + data)
  {
    hide GoodState, WriteFd, Survives, StaysReadable, AtEnd, Holds, HeldBytes, Allowed, Sound, ReadFileContent,
         FdCluster, Good;
    AtEndGood(s, l, fd, path, |w|);
    ReachedWrite(s, fd, data);
    l' := WriteAppends(s, l, fd, path, w, data);
    AtEndGood(WriteFd(s, fd, data).0, l', fd, path, |w + data|);
    WriteStaysGood(s, l, fd, data, l');
  }

  lemma WriteStaysGood(s: VfsState, l: Layout, fd: nat, data: seq<byte>, l': Layout)
    requires GoodState(s, l) && s.v.Valid() && Allowed(s, WriteOp(fd, data)) && WriteFd(s, fd, data).1.Ok?
    requires Good(WriteFd(s, fd, data).0.v, l')
    ensures GoodState(WriteFd(s, fd, data).0, l')
  {
    hide GoodState, WriteFd, Allowed, Sound, Good, CreateFile, Mkdir, Delete, Open, Close;
    SoundBy(s, l);
    StepKeeps(s, WriteOp(fd, data));
    AnyLayout(WriteFd(s, fd, data).0, l');
  }

  lemma AtEndGood(s: VfsState, l: Layout, fd: nat, path: seq<byte>, n: nat)
    requires AtEnd(s, l, fd, path, n)
    ensures Good(s.v, l) && s.v.Valid() && Position(s.table, fd).Some?
  {
  }

  lemma ReachedWrite(s: VfsState, fd: nat, data: seq<byte>)
    requires s.v.Valid() && Allowed(s, WriteOp(fd, data)) && Position(s.table, fd).Some?
    ensures StaysReadable(s.v, s.table[Position(s.table, fd).value], data)
  {
  }

  // -- Runs -----------------------------------------------------------------------------------------

  /** A run of allowed calls that return Ok, of which only the writes touch descriptor `fd`, and every
      other one spares the file of `path` and leaves the path leading where it led. */
  ghost predicate Feeds(s: VfsState, fd: nat, path: seq<byte>, ops: seq<Op>)
    decreases |ops|
  {
    ops == [] ||
    (&& s.v.Valid() && Allowed(s, ops[0]) && Step(s, ops[0]).1 && FeedsStep(s, fd, path, ops[0])
     && Feeds(Step(s, ops[0]).0, fd, path, ops[1..]))
  }

  ghost predicate FeedsStep(s: VfsState, fd: nat, path: seq<byte>, op: Op)
    requires s.v.Valid()
  {
    if LeavesFd(op, fd) then
      && Spares(s, op, path)
      && Step(s, op).0.v.Valid() && ParentDir(Step(s, op).0.v, path) == ParentDir(s.v, path)
    else op.WriteOp?
  }

  /** What the run writes through `fd`. */
  function WrittenTo(fd: nat, ops: seq<Op>): seq<byte> {
    if ops == [] then []
    else (if ops[0].WriteOp? && ops[0].fd == fd then ops[0].data else []) + WrittenTo(fd, ops[1..])
  }

  /** Every write of the run through `fd` survives on the chain as it then is; `w` is written so far. */
  ghost predicate AllSurvive(s: VfsState, fd: nat, w: seq<byte>, ops: seq<Op>)
    requires RunAllowed(s, ops)
    decreases |ops|
  {
    ops == [] ||
    if LeavesFd(ops[0], fd) then AllSurvive(Step(s, ops[0]).0, fd, w, ops[1..])
    else
      && ops[0].WriteOp?
      && Survives(s.v, FdCluster(s, fd), w + ops[0].data)
      && AllSurvive(Step(s, ops[0]).0, fd, w + ops[0].data, ops[1..])
  }

  lemma {:induction false} FedIsAllowed(s: VfsState, fd: nat, path: seq<byte>, ops: seq<Op>)
    requires Feeds(s, fd, path, ops)
    ensures RunAllowed(s, ops)
    decreases |ops|
  {
    hide Allowed, Step, FeedsStep;
    if ops != [] {
      FedIsAllowed(Step(s, ops[0]).0, fd, path, ops[1..]);
    }
  }

  /** MAIN: through any such run the file holds what was there followed by what the run writes exactly
      when it held it at the start and every write survives: what is lost once stays lost. */
  lemma {:induction false} FedFileHolds(s: VfsState, l: Layout, fd: nat, path: seq<byte>, w: seq<byte>, ops: seq<Op>)
    returns (l': Layout)
    requires GoodState(s, l) && AtEnd(s, l, fd, path, |w|) && Feeds(s, fd, path, ops)
    requires |w + WrittenTo(fd, ops)| < U32
    ensures RunAllowed(s, ops)
    ensures GoodState(Run(s, ops), l') && AtEnd(Run(s, ops), l', fd, path, |w + WrittenTo(fd, ops)|)
    ensures Holds(Run(s, ops), l', fd, path, w + WrittenTo(fd, ops))
            <==> Holds(s, l, fd, path, w) && AllSurvive(s, fd, w, ops)
    decreases |ops|
  {
    hide GoodState, AtEnd, Holds, Allowed, Step, Spares, Survives, ParentDir, FdCluster, FeedsStep;
    FedIsAllowed(s, fd, path, ops);
    if ops == [] {
      l' := l;
      assert w + [] == w;
    } else {
      var op, s' := ops[0], Step(s, ops[0]).0;
      var l1;
      if LeavesFd(op, fd) {
        assert [] + WrittenTo(fd, ops[1..]) == WrittenTo(fd, ops[1..]);
        l1 := FedSpared(s, l, fd, path, w, op);
        l' := FedFileHolds(s', l1, fd, path, w, ops[1..]);
      } else {
        FeedsByWrite(s, fd, path, op);
        assert w + op.data + WrittenTo(fd, ops[1..]) == w + (op.data + WrittenTo(fd, ops[1..]));
        l1 := FedWrite(s, l, fd, path, w, op);
        l' := FedFileHolds(s', l1, fd, path, w + op.data, ops[1..]);
      }
    }
  }

  lemma FeedsByWrite(s: VfsState, fd: nat, path: seq<byte>, op: Op)
    requires s.v.Valid() && FeedsStep(s, fd, path, op) && !LeavesFd(op, fd)
    ensures op.WriteOp? && op.fd == fd
  {
  }

  lemma FedSpared(s: VfsState, l: Layout, fd: nat, path: seq<byte>, w: seq<byte>, op: Op) returns (l': Layout)
    requires GoodState(s, l) && AtEnd(s, l, fd, path, |w|) && s.v.Valid() && Allowed(s, op) && Step(s, op).1
    requires FeedsStep(s, fd, path, op) && LeavesFd(op, fd)
    ensures GoodState(Step(s, op).0, l') && AtEnd(Step(s, op).0, l', fd, path, |w|)
    ensures Holds(Step(s, op).0, l', fd, path, w) <==> Holds(s, l, fd, path, w)
  {
    hide GoodState, AtEnd, HeldBytes, Allowed, Step, Spares, LeavesFd, ParentDir;
    l' := HoldsSpared(s, l, op, fd, path, HeldBytes(s, l, fd, path, |w|));
  }

  lemma FedWrite(s: VfsState, l: Layout, fd: nat, path: seq<byte>, w: seq<byte>, op: Op) returns (l': Layout)
    requires GoodState(s, l) && AtEnd(s, l, fd, path, |w|) && s.v.Valid() && Allowed(s, op) && Step(s, op).1
    requires op.WriteOp? && op.fd == fd && |w + op.data| < U32
    ensures GoodState(Step(s, op).0, l') && AtEnd(Step(s, op).0, l', fd, path, |w + op.data|)
    ensures Holds(Step(s, op).0, l', fd, path, w + op.data)
            <==> Holds(s, l, fd, path, w) && Survives(s.v, FdCluster(s, fd), w + op.data)
  {
    hide GoodState, AtEnd, Holds, Allowed, Survives, WriteFd, FdCluster;
    l' := WriteHolds(s, l, fd, path, w, op.data);
  }

  /** MAIN: a file opened with CreateNew under a name that fits 8.3 and written any number of times, between
      any other calls that spare it, has their length, and reads back as the concatenation of the writes
      exactly when every one of them survives on the chain as it then is. */
  lemma NewFileIsConcat(s: VfsState, l: Layout, path: seq<byte>, ops: seq<Op>)
    requires GoodState(s, l) && s.v.Valid() && Open(s, path, CreateNew).1.Ok?
    requires TakesEntry(s.v, Canonicalize(s.cwd, path)) && Fits83(ToUpper(NamePart(Canonicalize(s.cwd, path))))
    requires Feeds(Open(s, path, CreateNew).0, s.nextFd, Canonicalize(s.cwd, path), ops)
    requires |WrittenTo(s.nextFd, ops)| < U32
    ensures RunAllowed(Open(s, path, CreateNew).0, ops)
    ensures var s', full := Run(Open(s, path, CreateNew).0, ops), Canonicalize(s.cwd, path);
            && s'.v.Valid()
            && Target(s'.v, full).Some? && FileSize(Target(s'.v, full).value) == |WrittenTo(s.nextFd, ops)|
            && (ReadFileContent(s'.v, full) == Ok(WrittenTo(s.nextFd, ops))
                <==> AllSurvive(Open(s, path, CreateNew).0, s.nextFd, [], ops))
  {
    hide GoodState, Open, Feeds, Run, RunAllowed, ReadFileContent, Target, TakesEntry, AtEnd, Holds, AllSurvive,
         Canonicalize, Fits83, NamePart, FileSize, WrittenTo;
    var full := Canonicalize(s.cwd, path);
    var s1 := Open(s, path, CreateNew).0;
    var l1 := NewFileOpened(s, l, path);
    assert [] + WrittenTo(s.nextFd, ops) == WrittenTo(s.nextFd, ops);
    var l2 := FedFileHolds(s1, l1, s.nextFd, full, [], ops);
    HoldsReads(Run(s1, ops), l2, s.nextFd, full, WrittenTo(s.nextFd, ops));
  }

  lemma NewFileOpened(s: VfsState, l: Layout, path: seq<byte>) returns (l': Layout)
    requires GoodState(s, l) && s.v.Valid() && Open(s, path, CreateNew).1.Ok?
    requires TakesEntry(s.v, Canonicalize(s.cwd, path)) && Fits83(ToUpper(NamePart(Canonicalize(s.cwd, path))))
    ensures var s', full := Open(s, path, CreateNew).0, Canonicalize(s.cwd, path);
            GoodState(s', l') && AtEnd(s', l', s.nextFd, full, 0) && Holds(s', l', s.nextFd, full, [])
  {
    hide GoodState, Open, TakesEntry, AtEnd, HeldBytes, Canonicalize, Fits83, NamePart;
    l' := OpenNewHolds(s, l, path);
    OpenNewSound(s, l, path);
    AtEndGood(Open(s, path, CreateNew).0, l', s.nextFd, Canonicalize(s.cwd, path), 0);
    AnyLayout(Open(s, path, CreateNew).0, l');
  }

  /** Reading a file gives what it holds. */
  lemma HoldsReads(s: VfsState, l: Layout, fd: nat, path: seq<byte>, w: seq<byte>)
    requires AtEnd(s, l, fd, path, |w|)
    ensures s.v.Valid() && (ReadFileContent(s.v, path) == Ok(w) <==> Holds(s, l, fd, path, w))
    ensures Target(s.v, path).Some? && FileSize(Target(s.v, path).value) == |w|
  {
    hide AtEnd, HeldBytes, ReadFileContent, Target, FileSize;
    AtEndGood(s, l, fd, path, |w|);
    AtEndReads(s, l, fd, path, |w|);
  }

  lemma OpenNewSound(s: VfsState, l: Layout, path: seq<byte>)
    requires GoodState(s, l) && s.v.Valid() && Open(s, path, CreateNew).1.Ok?
             && TakesEntry(s.v, Canonicalize(s.cwd, path))
    ensures Sound(Open(s, path, CreateNew).0)
  {
    hide GoodState, Open;
    SoundBy(s, l);
    StepKeeps(s, OpenOp(path, CreateNew));
  }

  // -- Names that do not fit ----------------------------------------------------------------------------

  /** Nothing is found at `path`, and `fd` writes to the file that was made for it. */
  ghost predicate Astray(s: VfsState, fd: nat, path: seq<byte>) {
    && Sound(s) && s.v.Valid() && ParentDir(s.v, path).Some? && Target(s.v, path).None?
    && Descriptor(s.table, fd).Some? && Descriptor(s.table, fd).value.path == path
  }

  /** A write through it succeeds all the same, and nothing is found afterwards either. */
  lemma AstrayWrite(s: VfsState, fd: nat, path: seq<byte>, data: seq<byte>)
    requires Astray(s, fd, path) && NamePart(path) != [] && !Fits83(ToUpper(NamePart(path)))
    requires Allowed(s, WriteOp(fd, data)) && WriteFd(s, fd, data).1.Ok?
    ensures Astray(WriteFd(s, fd, data).0, fd, path)
  {
    hide GoodState, WriteFd, StaysReadable, ParentDir, Target, Sound, Good, FileKept, WalkDirs, FindFrom, Fits83,
         FullNameUpper;
    var l := LayoutOf(s);
    var s' := WriteFd(s, fd, data).0;
    Name83RoundTrip(Zeros(32), ToUpper(NamePart(path)));
    assert Spares(s, WriteOp(fd, data), path);
    var l' := StepSpares(s, l, WriteOp(fd, data), path);
    SoundBy(s', l');
    WriteMovesNothing(s, l, fd, data, path);
    GoodStateGood(s, l);
    GoodStateGood(s', l');
    StillMissing(s.v, l, s'.v, l', path);
    WrittenDescriptor(s, fd, data);
  }

  lemma GoodStateGood(s: VfsState, l: Layout)
    requires GoodState(s, l)
    ensures Good(s.v, l)
  {
  }

  lemma StillMissing(v: Volume, l: Layout, v': Volume, l': Layout, path: seq<byte>)
    requires Good(v, l) && Good(v', l') && v.Valid() && v'.Valid() && ParentDir(v, path).Some? && Target(v, path).None?
    requires ParentDir(v', path) == ParentDir(v, path)
    requires ParentDir(v, path).value in l'.dirs ==>
             FileKept(v, l, v', l', ParentDir(v, path).value, ToUpper(NamePart(path)))
    ensures Target(v', path).None?
  {
    hide Good, WalkDirs, FindFrom, Slots, Follow, IsDirectory, FirstCluster;
    var d := AtParent(v, l, path);
    var d' := AtParent(v', l', path);
  }

  /** Writing moves no path. */
  lemma WriteMovesNothing(s: VfsState, l: Layout, fd: nat, data: seq<byte>, q: seq<byte>)
    requires GoodState(s, l) && s.v.Valid() && Allowed(s, WriteOp(fd, data)) && WriteFd(s, fd, data).1.Ok?
    requires ParentDir(s.v, q).Some?
    ensures WriteFd(s, fd, data).0.v.Valid() && ParentDir(WriteFd(s, fd, data).0.v, q) == ParentDir(s.v, q)
  {
    hide Good, FdsOk, FdsNumbered, Follow, IsChain, Needed, FindFrom, Slots, FirstCluster, WriteFd, WriteClusters,
         ChainAfterWrite, FullData, WalkDirs, TreeWalk, UpdateSize;
    WriteOpened(s, fd, data);
    var i := Position(s.table, fd).value;
    var file := s.table[i];
    WriteParts(s, fd, data, i);
    FdOnFile(l, s.table, i);
    GoodChain(s.v, l, file.cluster);
    var full := FullData(s.v, file, data);
    AfterWriteLength(s.v, l.chains[file.cluster], full);
    var l1 := WriteKeeps(s.v, l, file.cluster, full);
    var v1 := WriteClusters(s.v, l.chains[file.cluster], full).0;
    SameParents(s.v, l, v1, l1, q);
    SameParents(s.v, l, v1, l1, file.path);
    UpdateMovesNothing(v1, l1, file.path, Advanced(file, |data|).size, q);
  }

  lemma SameParents(v: Volume, l: Layout, v': Volume, l': Layout, q: seq<byte>)
    requires Good(v, l) && Good(v', l') && l'.dirs == l.dirs && v'.root == v.root
    ensures v.Valid() && v'.Valid() && ParentDir(v', q) == ParentDir(v, q)
  {
    hide Good, WalkDirs, TreeWalk;
    ParentInTree(v, l, q);
    ParentInTree(v', l', q);
  }

  lemma UpdateMovesNothing(v: Volume, l: Layout, path: seq<byte>, size: nat, q: seq<byte>)
    requires Good(v, l) && v.Valid() && ParentDir(v, path).Some? && ParentDir(v, q).Some? && size < U32
    ensures var v' := UpdateFileSize(v, path, size).0; v'.Valid() && ParentDir(v', q) == ParentDir(v, q)
  {
    hide Good, WalkDirs, FindFrom, Slots, Follow, UpdateSize;
    var d := AtParent(v, l, path);
    if NamePart(path) != [] {
      SizeMovesNothing(v, l, d, ToUpper(NamePart(path)), size, q);
    }
  }

  lemma SizeMovesNothing(v: Volume, l: Layout, d: nat, n: seq<byte>, size: nat, q: seq<byte>)
    requires Good(v, l) && v.Valid() && d in l.dirs && d in l.chains && InRange(l.chains[d], |v.data|) && size < U32
    requires ParentDir(v, q).Some?
    ensures UpdateSize(v, l.chains[d], n, size).Valid()
    ensures ParentDir(UpdateSize(v, l.chains[d], n, size), q) == ParentDir(v, q)
  {
    hide Good, FindFrom, Slots, FirstCluster, IsDirectory, WalkDirs, UpdateSize, WithFileSize, ScanKept;
    var l' := UpdateSizeKeeps(v, l, d, n, size);
    var k := FindFrom(l.dirs[d], 0, n);
    if k.Some? {
      var e := l.dirs[d][k.value];
      ClusterAndSize(e, 0, size);
      assert WithFileSize(e, size)[..20] == WithFileSize(e, size)[..28][..20] == e[..20];
      RedirectedScans(l.dirs[d], k.value, WithFileSize(e, size));
    } else {
      SameScans(l.dirs[d]);
    }
    GoodValid(UpdateSize(v, l.chains[d], n, size), l');
    ParentKept(v, l, UpdateSize(v, l.chains[d], n, size), l', d, q);
  }

  lemma SameScans(slots: seq<DirEntry>)
    ensures forall m :: ScanKept(slots, slots, m)
  {
  }

  lemma WrittenDescriptor(s: VfsState, fd: nat, data: seq<byte>)
    requires s.v.Valid() && WriteFd(s, fd, data).1.Ok?
    ensures Descriptor(s.table, fd).Some?
    ensures Descriptor(WriteFd(s, fd, data).0.table, fd) == Some(Advanced(Descriptor(s.table, fd).value, |data|))
  {
    hide Follow, WriteClusters, FullData, UpdateFileSize;
    WriteOpened(s, fd, data);
    var i := Position(s.table, fd).value;
    PositionAfter(s.table, fd, i, Advanced(s.table[i], |data|));
  }

  /** Nor does any other call of such a run bring it to light. */
  lemma AstrayStep(s: VfsState, fd: nat, path: seq<byte>, op: Op)
    requires Astray(s, fd, path) && Allowed(s, op) && Step(s, op).1
    requires FeedsStep(s, fd, path, op) && LeavesFd(op, fd)
    ensures Astray(Step(s, op).0, fd, path)
  {
    hide Allowed, Step, Good, FdsOk, Spares, ParentDir, Target, FileKept, FindFrom, LeavesFd, Descriptor, Sound;
    var l := LayoutOf(s);
    var s' := Step(s, op).0;
    var l' := StepSpares(s, l, op, path);
    SoundBy(s', l');
    DescriptorBelow(s, fd);
    DescriptorKept(s, op, fd);
    StillMissing(s.v, l, s'.v, l', path);
  }

  lemma DescriptorBelow(s: VfsState, fd: nat)
    requires FdsNumbered(s.table, s.nextFd) && Descriptor(s.table, fd).Some?
    ensures fd < s.nextFd
  {
  }

  lemma {:induction false} AstrayRun(s: VfsState, fd: nat, path: seq<byte>, ops: seq<Op>)
    requires Astray(s, fd, path) && NamePart(path) != [] && !Fits83(ToUpper(NamePart(path))) && Feeds(s, fd, path, ops)
    ensures RunAllowed(s, ops) && Astray(Run(s, ops), fd, path)
    decreases |ops|
  {
    hide Allowed, Astray, Fits83, Step, FeedsStep;
    FedIsAllowed(s, fd, path, ops);
    if ops != [] {
      if LeavesFd(ops[0], fd) {
        AstrayStep(s, fd, path, ops[0]);
      } else {
        FeedsByWrite(s, fd, path, ops[0]);
        AstrayFed(s, fd, path, ops[0]);
      }
      AstrayRun(Step(s, ops[0]).0, fd, path, ops[1..]);
    }
  }

  lemma AstrayFed(s: VfsState, fd: nat, path: seq<byte>, op: Op)
    requires Astray(s, fd, path) && NamePart(path) != [] && !Fits83(ToUpper(NamePart(path)))
    requires s.v.Valid() && Allowed(s, op) && Step(s, op).1 && op.WriteOp? && op.fd == fd
    ensures Astray(Step(s, op).0, fd, path)
  {
    hide Allowed, Astray, Fits83, WriteFd;
    AstrayWrite(s, fd, path, op.data);
  }

  /** MAIN: under a name that does not fit 8.3 all the same calls return Ok, other calls that spare the path
      between them, and nothing is found under the name, as long as the path still leads to its directory
      once the file is made. */
  lemma UnfitNewFileIsMissing(s: VfsState, l: Layout, path: seq<byte>, ops: seq<Op>)
    requires GoodState(s, l) && s.v.Valid() && Open(s, path, CreateNew).1.Ok?
    requires TakesEntry(s.v, Canonicalize(s.cwd, path)) && !Fits83(ToUpper(NamePart(Canonicalize(s.cwd, path))))
    requires Open(s, path, CreateNew).0.v.Valid() ==>
               ParentDir(Open(s, path, CreateNew).0.v, Canonicalize(s.cwd, path))
                   == ParentDir(s.v, Canonicalize(s.cwd, path))
    requires Feeds(Open(s, path, CreateNew).0, s.nextFd, Canonicalize(s.cwd, path), ops)
    ensures RunAllowed(Open(s, path, CreateNew).0, ops)
    ensures var s' := Run(Open(s, path, CreateNew).0, ops);
            s'.v.Valid() && ReadFileContent(s'.v, Canonicalize(s.cwd, path)) == Err(NotFound)
  {
    hide GoodState, Open, RunAllowed, Run, ReadFileContent, TakesEntry, Fits83, Astray, Feeds, ParentDir, Target;
    var full := Canonicalize(s.cwd, path);
    OpenNewSound(s, l, path);
    OpenNewAstray(s, l, path);
    var s1 := Open(s, path, CreateNew).0;
    StorableByEntry(s.v, full);
    AstrayRun(s1, s.nextFd, full, ops);
    AstrayReads(Run(s1, ops), s.nextFd, full);
  }

  lemma AstrayReads(s: VfsState, fd: nat, path: seq<byte>)
    requires Astray(s, fd, path) && NamePart(path) != []
    ensures s.v.Valid() && ReadFileContent(s.v, path) == Err(NotFound)
  {
    hide Good, FdsOk, FdsNumbered, WalkDirs, FindFrom, Slots, Follow;
    var l := LayoutOf(s);
    var d := AtParent(s.v, l, path);
  }

  lemma OpenNewAstray(s: VfsState, l: Layout, path: seq<byte>)
    requires GoodState(s, l) && s.v.Valid() && Open(s, path, CreateNew).1.Ok?
    requires TakesEntry(s.v, Canonicalize(s.cwd, path)) && !Fits83(ToUpper(NamePart(Canonicalize(s.cwd, path))))
    requires Open(s, path, CreateNew).0.v.Valid() ==>
               ParentDir(Open(s, path, CreateNew).0.v, Canonicalize(s.cwd, path))
                   == ParentDir(s.v, Canonicalize(s.cwd, path))
    requires Sound(Open(s, path, CreateNew).0)
    ensures Astray(Open(s, path, CreateNew).0, s.nextFd, Canonicalize(s.cwd, path))
  {
    hide Good, FdsOk, Sound, Open, TakesEntry, Fits83, CreateFile, CreateFresh, WalkDirs, FindFrom, FullNameUpper,
         EntryAdded, Live, DirOk, NewEntry, Slots, Follow, WriteNewFile, NewChain, EntrySlot, Content, InRange;
    var full := Canonicalize(s.cwd, path);
    StorableByEntry(s.v, full);
    NewIsNew(s, l, path);
    var d0, c0 := OpenIsCreate(s, l, path, CreateNew);
    var l', d, c, k, e := FreshState(s.v, l, full, []);
    var n := ToUpper(NamePart(full));
    Name83RoundTrip(Zeros(32), n);
    AddedLookups(l.dirs[d], l'.dirs[d], k, e, n);
    var d' := AtParent(CreateFile(s.v, full, []).0, l', full);
    PositionOfNew(s.table, FileDescriptor(s.nextFd, full, CreateNew, 0, 0, c));
  }
}
