// One write through a descriptor at the end of its file: what the file then reads as, and exactly when
// that is the old bytes followed by the new ones.
module Appends {
  import opened Wrappers
  import opened Bytes
  import opened Multiples
  import opened Chains
  import opened Volumes
  import opened DirEntries
  import opened Directory
  import opened Paths
  import opened VfsSpec
  import opened Tree
  import opened Invariant
  import opened Operations
  import opened TreePaths
  import opened Runs
  import opened Refinement
  import opened Contents

  /** Descriptor `fd` is at the end of the file its path names, `n` bytes long. */
  ghost predicate AtEnd(s: VfsState, l: Layout, fd: nat, path: seq<byte>, n: nat) {
    && Good(s.v, l) && s.v.Valid()
    && Position(s.table, fd).Some?
    && var f := s.table[Position(s.table, fd).value];
    && f.mode != Read && f.path == path && f.pos == n && f.size == n && n < U32
    && NamePart(path) != []
    && ParentDir(s.v, path).Some? && ParentDir(s.v, path).value in l.dirs
    && RecordOf(s.v, l, ParentDir(s.v, path).value, ToUpper(NamePart(path)), f.cluster, n)
  }

  /** Directory `d` names a file of `n` bytes on the chain of `h`. */
  ghost predicate RecordOf(v: Volume, l: Layout, d: nat, m: seq<byte>, h: nat, n: nat)
    requires d in l.dirs
  {
    var k := FindFrom(l.dirs[d], 0, m);
    && k.Some? && !IsDirectory(l.dirs[d][k.value])
    && FirstCluster(l.dirs[d][k.value]) == h && FileSize(l.dirs[d][k.value]) == n
    && h in l.chains && h !in l.dirs && InRange(l.chains[h], |v.data|)
  }

  /** The bytes of the file open as `fd`. */
  ghost function HeldBytes(s: VfsState, l: Layout, fd: nat, path: seq<byte>, n: nat): (r: seq<byte>)
    requires AtEnd(s, l, fd, path, n)
    ensures |r| == n
  {
    Window(Content(s.v.data, l.chains[s.table[Position(s.table, fd).value].cluster]), 0, n)
  }

  /** Descriptor `fd` is at the end of a file that its path names and that holds exactly `w`. */
  ghost predicate Holds(s: VfsState, l: Layout, fd: nat, path: seq<byte>, w: seq<byte>) {
    AtEnd(s, l, fd, path, |w|) && HeldBytes(s, l, fd, path, |w|) == w
  }

  /** The file reads as its bytes, and its stored size is their number. */
  lemma AtEndReads(s: VfsState, l: Layout, fd: nat, path: seq<byte>, n: nat)
    requires AtEnd(s, l, fd, path, n)
    ensures ReadFileContent(s.v, path) == Ok(HeldBytes(s, l, fd, path, n))
    ensures Target(s.v, path).Some? && FileSize(Target(s.v, path).value) == n
  {
    hide Good, WalkDirs, Slots, Follow, FindFrom, Content;
    ReadIsContentAt(s.v, l, path);
    var d := AtParent(s.v, l, path);
  }

  // -- One write --------------------------------------------------------------------------------------

  /** What a write of `data` at position `p` of a file that holds `w` hands on: at the beginning the data
      alone, elsewhere the file with the data laid over it. */
  function Overlaid(w: seq<byte>, p: nat, data: seq<byte>): seq<byte>
    requires p <= |w|
  {
    if p == 0 then data else w[..p] + data + w[Least(p + |data|, |w|)..]
  }

  function Most(a: nat, b: nat): nat { if a < b then b else a }

  /** What the file should read as then: as long as it was, or up to the new position. */
  function Laid(w: seq<byte>, p: nat, data: seq<byte>): (r: seq<byte>)
    requires p <= |w|
    ensures |r| == Most(|w|, p + |data|)
    ensures forall i :: p <= i < p + |data| ==> r[i] == data[i - p]
    ensures p > 0 ==> forall i :: 0 <= i < |w| && !(p <= i < p + |data|) ==> r[i] == w[i]
    ensures p == 0 ==> forall i :: |data| <= i < |w| ==> r[i] == 0
  {
    Window(Overlaid(w, p, data), 0, Most(|w|, p + |data|))
  }

  lemma FullIsOverlaid(v: Volume, file: FileDescriptor, cs: seq<nat>, w: seq<byte>, data: seq<byte>)
    requires v.Valid() && Readable(v.fat, file.cluster) && ChainOf(v.fat, file.cluster) == cs && InRange(cs, |v.data|)
    requires file.pos <= |w| && file.size == |w| && Window(Content(v.data, cs), 0, |w|) == w
    ensures FullData(v, file, data) == Overlaid(w, file.pos, data)
  {
    hide Content, Follow;
    var content := Content(v.data, cs);
    var full := FullData(v, file, data);
    if file.pos != 0 {
      forall i | 0 <= i < |w|
        ensures Window(content[..Least(|w|, |content|)], 0, Most(|w|, file.pos + |data|))[i] == w[i]
      {
        assert Window(content, 0, |w|)[i] == w[i];
      }
      assert full == Overlaid(w, file.pos, data);
    }
  }

  /** Written to the chain of `cluster`, `payload` survives: it needs at most one cluster more, or what
      is lost is zero. */
  predicate Survives(v: Volume, cluster: nat, payload: seq<byte>)
    requires v.Valid()
  {
    var n := |ChainOf(v.fat, cluster)|;
    Needed(|payload|, v.csz) <= n + 1 || ZeroFrom(payload, Span(n, v.csz))
  }

  /** The data half of a write: what the chain then holds, and the directories as before. */
  lemma DataWritten(v: Volume, l: Layout, h: nat, payload: seq<byte>) returns (l': Layout)
    requires Good(v, l) && v.Valid() && h in l.chains && h !in l.dirs
    requires IsChain(v.fat, l.chains[h]) && ChainOf(v.fat, h) == l.chains[h]
    requires Needed(|payload|, v.csz) <= |l.chains[h]| || |l.chains[h]| < MAX_CHAIN
    requires WriteClusters(v, l.chains[h], payload).1.Ok?
    ensures var v' := WriteClusters(v, l.chains[h], payload).0;
            && Good(v', l') && v'.Valid() && v'.root == v.root && v'.csz == v.csz && l'.dirs == l.dirs
            && h in l'.chains && InRange(l'.chains[h], |v'.data|)
            && l'.chains.Keys == l.chains.Keys
            && Content(v'.data, l'.chains[h]) == Written(payload, |l.chains[h]|, v.csz)
  {
    hide Good, Follow, Content, WriteClusters, IsChain, Needed;
    AfterWriteLength(v, l.chains[h], payload);
    GoodChain(v, l, h);
    l' := WriteKeeps(v, l, h, payload);
    WrittenContent(v, l.chains[h], payload);
    GoodValid(WriteClusters(v, l.chains[h], payload).0, l');
    WriteClustersData(v, l.chains[h], payload);
  }

  lemma WriteClustersData(v: Volume, cs: seq<nat>, payload: seq<byte>)
    requires v.Valid() && IsChain(v.fat, cs)
    ensures |WriteClusters(v, cs, payload).0.data| == |v.data|
  {
    hide FirstFree, Store, Link;
  }

  /** The size half: the record gets the new size, the chain keeps its bytes. */
  lemma SizeWritten(v: Volume, l: Layout, path: seq<byte>, h: nat, size: nat, n: nat) returns (l': Layout)
    requires Good(v, l) && v.Valid() && ParentDir(v, path).Some? && NamePart(path) != [] && n < U32
    requires ParentDir(v, path).value in l.dirs
    requires RecordOf(v, l, ParentDir(v, path).value, ToUpper(NamePart(path)), h, size)
    ensures UpdateFileSize(v, path, n).1.Ok?
    ensures var v' := UpdateFileSize(v, path, n).0;
            && Good(v', l') && v'.Valid() && v'.root == v.root && v'.csz == v.csz && v'.fat == v.fat
            && l'.chains == l.chains && l'.dirs.Keys == l.dirs.Keys
            && ParentDir(v', path) == ParentDir(v, path) && ParentDir(v', path).value in l'.dirs
            && RecordOf(v', l', ParentDir(v', path).value, ToUpper(NamePart(path)), h, n)
            && InRange(l.chains[h], |v'.data|) && Content(v'.data, l.chains[h]) == Content(v.data, l.chains[h])
            && Target(v, path).Some? && Target(v', path) == Some(WithFileSize(Target(v, path).value, n))
  {
    hide Good, Follow, Content, WalkDirs, Slots, FindFrom, IsDirectory, FirstCluster, FileSize, UpdateSize,
         FullNameUpper, ScanKept, DirOk, WithFileSize;
    var d := AtParent(v, l, path);
    var m := ToUpper(NamePart(path));
    var k := FindFrom(l.dirs[d], 0, m).value;
    var e := l.dirs[d][k];
    l' := UpdateSizeKeeps(v, l, d, m, n);
    var v' := UpdateSize(v, l.chains[d], m, n);
    assert UpdateFileSize(v, path, n) == (v', Ok(()));
    GoodValid(v', l');
    var e' := WithFileSize(e, n);
    ClusterAndSize(e, 0, n);
    assert e'[..20] == e'[..28][..20] == e[..20];
    SameFlags(e, e');
    RedirectedScans(l.dirs[d], k, e');
    ParentKept(v, l, v', l', d, path);
    RedirectedFind(l.dirs[d], k, e', m);
    assert ChainKept(v, v', l.chains, l.chains, h);
    KeptContent(v, v', l.chains, l.chains, h);
    var d' := AtParent(v', l', path);
  }

  /** The first `n` bytes of the chain of `cluster` once `payload` is written to it. */
  function ReadAfter(v: Volume, cluster: nat, payload: seq<byte>, n: nat): (r: seq<byte>)
    requires v.Valid()
    ensures |r| == n
  {
    Window(Written(payload, |ChainOf(v.fat, cluster)|, v.csz), 0, n)
  }

  /** The descriptor's cluster. */
  function FdCluster(s: VfsState, fd: nat): nat {
    var i := Position(s.table, fd);
    if i.Some? then s.table[i.value].cluster else 0
  }

  lemma RecordChain(v: Volume, l: Layout, d: nat, m: seq<byte>, h: nat, n: nat)
    requires d in l.dirs && RecordOf(v, l, d, m, h, n)
    ensures h in l.chains && h !in l.dirs && InRange(l.chains[h], |v.data|)
  {
    hide FindFrom, IsDirectory, FirstCluster, FileSize;
  }

  /** The record says nothing of the bytes of the chain. */
  lemma RecordStays(v: Volume, l: Layout, v': Volume, l': Layout, d: nat, m: seq<byte>, h: nat, n: nat)
    requires d in l.dirs && RecordOf(v, l, d, m, h, n) && l'.dirs == l.dirs
    requires h in l'.chains && InRange(l'.chains[h], |v'.data|)
    ensures RecordOf(v', l', d, m, h, n)
  {
    hide FindFrom, IsDirectory, FirstCluster, FileSize;
  }

  /** Descriptor `fd` stands at position `p` of the file its path names, which holds `w`. */
  ghost predicate HoldsAt(s: VfsState, l: Layout, fd: nat, path: seq<byte>, p: nat, w: seq<byte>) {
    && FdAt(s, l, fd, path, p, |w|)
    && Window(Content(s.v.data, l.chains[FdCluster(s, fd)]), 0, |w|) == w
  }

  ghost predicate FdAt(s: VfsState, l: Layout, fd: nat, path: seq<byte>, p: nat, n: nat) {
    && Good(s.v, l) && s.v.Valid()
    && Position(s.table, fd).Some?
    && var f := s.table[Position(s.table, fd).value];
    && f.mode != Read && f.path == path && f.pos == p <= n && f.size == n && n < U32
    && NamePart(path) != []
    && ParentDir(s.v, path).Some? && ParentDir(s.v, path).value in l.dirs
    && RecordOf(s.v, l, ParentDir(s.v, path).value, ToUpper(NamePart(path)), f.cluster, n)
  }

  lemma StaysWithin(v: Volume, file: FileDescriptor, data: seq<byte>)
    requires v.Valid() && StaysReadable(v, file, data)
    ensures Readable(v.fat, file.cluster)
    ensures Needed(|FullData(v, file, data)|, v.csz) <= |ChainOf(v.fat, file.cluster)|
            || |ChainOf(v.fat, file.cluster)| < MAX_CHAIN
  {
    hide FullData, Follow, Needed;
  }

  /** The chain takes the data; the path and the record are as they were. */
  lemma DataLaid(s: VfsState, l: Layout, fd: nat, path: seq<byte>, p: nat, held: seq<byte>, data: seq<byte>)
    returns (l1: Layout)
    requires HoldsAt(s, l, fd, path, p, held)
    requires StaysReadable(s.v, s.table[Position(s.table, fd).value], data) && WriteFd(s, fd, data).1.Ok?
    ensures s.v.Valid()
    ensures var file := s.table[Position(s.table, fd).value];
            var h, full := file.cluster, Overlaid(held, p, data);
            && Readable(s.v.fat, h) && h in l.chains && ChainOf(s.v.fat, h) == l.chains[h]
            && InRange(l.chains[h], |s.v.fat|) && FullData(s.v, file, data) == full
            && WriteClusters(s.v, l.chains[h], full).1.Ok?
            && var v1 := WriteClusters(s.v, l.chains[h], full).0;
               && Good(v1, l1) && v1.Valid()
               && l1.dirs == l.dirs
               && ParentDir(v1, path) == ParentDir(s.v, path) && ParentDir(v1, path).value in l1.dirs
               && RecordOf(v1, l1, ParentDir(v1, path).value, ToUpper(NamePart(path)), h, |held|)
               && InRange(l1.chains[h], |v1.data|) && v1.csz == s.v.csz
               && Content(v1.data, l1.chains[h]) == Written(full, |l.chains[h]|, s.v.csz)
  {
    hide Good, Follow, Content, WalkDirs, TreeWalk, Slots, FindFrom, IsDirectory, FirstCluster, FileSize,
         UpdateFileSize, WriteClusters, FullData, Written, IsChain, Needed, RecordOf, Overlaid, StaysReadable;
    var file := s.table[Position(s.table, fd).value];
    StaysWithin(s.v, file, data);
    var h, full := file.cluster, Overlaid(held, p, data);
    RecordChain(s.v, l, ParentDir(s.v, path).value, ToUpper(NamePart(path)), h, |held|);
    GoodChain(s.v, l, h);
    FullIsOverlaid(s.v, file, l.chains[h], held, data);
    l1 := DataWritten(s.v, l, h, full);
    ParentInTree(s.v, l, path);
    ParentInTree(WriteClusters(s.v, l.chains[h], full).0, l1, path);
    RecordStays(s.v, l, WriteClusters(s.v, l.chains[h], full).0, l1, ParentDir(s.v, path).value,
                ToUpper(NamePart(path)), h, |held|);
  }

  /** One write leaves its descriptor behind what it wrote, whatever survives. */
  lemma WriteAt(s: VfsState, l: Layout, fd: nat, path: seq<byte>, p: nat, held: seq<byte>, data: seq<byte>)
    returns (l': Layout)
    requires HoldsAt(s, l, fd, path, p, held) && p + |data| < U32
    requires StaysReadable(s.v, s.table[Position(s.table, fd).value], data) && WriteFd(s, fd, data).1.Ok?
    ensures WriteFd(s, fd, data).1 == Ok(|data|)
    ensures HoldsAt(WriteFd(s, fd, data).0, l', fd, path, p + |data|,
                    ReadAfter(s.v, FdCluster(s, fd), Overlaid(held, p, data), Most(|held|, p + |data|)))
  {
    hide Good, Follow, Content, ParentDir, UpdateFileSize, WriteClusters, FullData, Written, RecordOf, Overlaid,
         StaysReadable;
    var i := Position(s.table, fd).value;
    var file := s.table[i];
    var h, full, n := file.cluster, Overlaid(held, p, data), Most(|held|, p + |data|);
    var l1 := DataLaid(s, l, fd, path, p, held, data);
    var v1 := WriteClusters(s.v, l.chains[h], full).0;
    var file' := Advanced(file, |data|);
    assert file'.size == n && file'.pos == p + |data|;
    PositionAfter(s.table, fd, i, file');
    if file'.size == 0 {
      l' := l1;
    } else {
      l' := SizeWritten(v1, l1, path, h, |held|, n);
    }
  }

  /** Padded or not, what was written reads back exactly when it survives. */
  lemma PaddedReadBack(payload: seq<byte>, len: nat, csz: nat, n: nat)
    requires csz > 0 && |payload| <= n
    ensures Window(Written(payload, len, csz), 0, n) == Window(payload, 0, n)
            <==> Needed(|payload|, csz) <= len + 1 || ZeroFrom(payload, Span(len, csz))
  {
    hide Needed;
    WrittenReadBack(payload, len, csz);
    ZeroBehind(payload, len, csz);
    var w := Written(payload, len, csz);
    assert Window(w, 0, n)[..|payload|] == Window(w, 0, |payload|);
    assert Window(payload, 0, n)[..|payload|] == payload;
  }

  lemma ZeroBehind(payload: seq<byte>, len: nat, csz: nat)
    requires csz > 0
    ensures forall i :: |payload| <= i < |Written(payload, len, csz)| ==> Written(payload, len, csz)[i] == 0
  {
    NeededBounds(|payload|, csz);
    var n := Needed(|payload|, csz);
    if n > len {
      SpanMono(len, n - 1, csz);
    }
  }

  /** MAIN: one write at any position of a file that holds `w` leaves the descriptor behind the new bytes and
      the stored size at least there; the file then reads as `w` with the new bytes laid over it - from the
      beginning, as the new bytes and zeros - exactly when what is handed on survives on its chain. */
  lemma WriteInside(s: VfsState, l: Layout, fd: nat, path: seq<byte>, p: nat, w: seq<byte>, data: seq<byte>)
    returns (l': Layout)
    requires HoldsAt(s, l, fd, path, p, w) && p + |data| < U32
    requires StaysReadable(s.v, s.table[Position(s.table, fd).value], data) && WriteFd(s, fd, data).1.Ok?
    ensures WriteFd(s, fd, data).1 == Ok(|data|)
    ensures var s' := WriteFd(s, fd, data).0;
            && FdAt(s', l', fd, path, p + |data|, Most(|w|, p + |data|))
            && Target(s'.v, path).Some? && FileSize(Target(s'.v, path).value) == Most(|w|, p + |data|)
            && (ReadFileContent(s'.v, path) == Ok(Laid(w, p, data))
                <==> Survives(s.v, FdCluster(s, fd), Overlaid(w, p, data)))
  {
    hide FdAt, Good, Content, StaysReadable, WriteFd, Written, ReadFileContent, Needed, FdCluster, ZeroFrom, Window,
         Target, FileSize, Overlaid, Span;
    l' := WriteAt(s, l, fd, path, p, w, data);
    ValidAt(s, l, fd, path, p, |w|);
    OverlaidLength(w, p, data);
    PaddedReadBack(Overlaid(w, p, data), |ChainOf(s.v.fat, FdCluster(s, fd))|, s.v.csz, Most(|w|, p + |data|));
    ReadAtFd(WriteFd(s, fd, data).0, l', fd, path, p + |data|,
             ReadAfter(s.v, FdCluster(s, fd), Overlaid(w, p, data), Most(|w|, p + |data|)));
  }

  lemma OverlaidLength(w: seq<byte>, p: nat, data: seq<byte>)
    requires p <= |w|
    ensures |Overlaid(w, p, data)| == if p == 0 then |data| else Most(|w|, p + |data|)
  {
  }

  lemma ValidAt(s: VfsState, l: Layout, fd: nat, path: seq<byte>, p: nat, n: nat)
    requires FdAt(s, l, fd, path, p, n)
    ensures s.v.Valid() && p <= n
  {
  }

  /** The file reads as what it holds, and its stored size is the number of bytes. */
  lemma ReadAtFd(s: VfsState, l: Layout, fd: nat, path: seq<byte>, p: nat, w: seq<byte>)
    requires HoldsAt(s, l, fd, path, p, w)
    ensures s.v.Valid() && ReadFileContent(s.v, path) == Ok(w)
    ensures Target(s.v, path).Some? && FileSize(Target(s.v, path).value) == |w|
  {
    hide Good, WalkDirs, Slots, Follow, FindFrom, Content;
    ReadIsContentAt(s.v, l, path);
    var d := AtParent(s.v, l, path);
  }

  /** One write at the end of a file leaves its descriptor at the new end, whatever survives. */
  lemma WriteAtEnd(s: VfsState, l: Layout, fd: nat, path: seq<byte>, held: seq<byte>, data: seq<byte>)
    returns (l': Layout)
    requires Holds(s, l, fd, path, held) && |held + data| < U32
    requires StaysReadable(s.v, s.table[Position(s.table, fd).value], data) && WriteFd(s, fd, data).1.Ok?
    ensures WriteFd(s, fd, data).1 == Ok(|data|)
    ensures Holds(WriteFd(s, fd, data).0, l', fd, path,
                  ReadAfter(s.v, FdCluster(s, fd), held + data, |held + data|))
  {
    hide Holds, HoldsAt, WriteFd, ReadAfter, StaysReadable, FdCluster;
    assert Overlaid(held, |held|, data) == held + data;
    HoldsAtEnd(s, l, fd, path, held);
    l' := WriteAt(s, l, fd, path, |held|, held, data);
    HoldsAtEnd(WriteFd(s, fd, data).0, l', fd, path, ReadAfter(s.v, FdCluster(s, fd), held + data, |held + data|));
  }

  lemma HoldsAtEnd(s: VfsState, l: Layout, fd: nat, path: seq<byte>, w: seq<byte>)
    ensures Holds(s, l, fd, path, w) <==> HoldsAt(s, l, fd, path, |w|, w)
    ensures Holds(s, l, fd, path, w) ==> s.v.Valid()
  {
    hide Good, RecordOf, WalkDirs, Content;
  }

  /** MAIN: after one write at the end of a file of as many bytes as `w`, the file reads as `w` and the
      new bytes exactly when it held `w` and these survive on its chain. */
  lemma WriteAppends(s: VfsState, l: Layout, fd: nat, path: seq<byte>, w: seq<byte>, data: seq<byte>)
    returns (l': Layout)
    requires AtEnd(s, l, fd, path, |w|) && |w + data| < U32
    requires StaysReadable(s.v, s.table[Position(s.table, fd).value], data) && WriteFd(s, fd, data).1.Ok?
    ensures WriteFd(s, fd, data).1 == Ok(|data|)
    ensures var s', held := WriteFd(s, fd, data).0,
            Holds(s, l, fd, path, w) && Survives(s.v, FdCluster(s, fd), w + data);
            && AtEnd(s', l', fd, path, |w + data|)
            && (Holds(s', l', fd, path, w + data) <==> held)
            && (ReadFileContent(s'.v, path) == Ok(w + data) <==> held)
  {
    hide AtEnd, HeldBytes, StaysReadable, WriteFd, Written, ReadFileContent, Needed, FdCluster, ZeroFrom;
    var held := HeldBytes(s, l, fd, path, |w|);
    l' := WriteAtEnd(s, l, fd, path, held, data);
    AtEndParts(s, l, fd, path, |w|);
    var len := |ChainOf(s.v.fat, FdCluster(s, fd))|;
    if held == w {
      WrittenReadBack(w + data, len, s.v.csz);
    } else {
      LossStays(held, w, data, len, s.v.csz);
    }
    AtEndReads(WriteFd(s, fd, data).0, l', fd, path, |w + data|);
  }

  /** Past the clusters of its chain a file reads as zeros. */
  lemma AtEndParts(s: VfsState, l: Layout, fd: nat, path: seq<byte>, n: nat)
    requires AtEnd(s, l, fd, path, n)
    ensures s.v.Valid() && |HeldBytes(s, l, fd, path, n)| == n
    ensures ZeroFrom(HeldBytes(s, l, fd, path, n), Span(|ChainOf(s.v.fat, FdCluster(s, fd))|, s.v.csz))
  {
    hide Good, FindFrom, Content, WalkDirs, Follow;
    var h := FdCluster(s, fd);
    GoodChain(s.v, l, h);
    ZeroPastChain(s.v, l.chains[h], n);
  }

  lemma {:induction false} PositionAfter(table: seq<FileDescriptor>, fd: nat, i: nat, f: FileDescriptor)
    requires Position(table, fd) == Some(i) && f.fd == fd
    ensures Position(table[i := f], fd) == Some(i)
    decreases |table|
  {
    if i > 0 {
      assert table[i := f][1..] == table[1..][i - 1 := f];
      PositionAfter(table[1..], fd, i - 1, f);
    }
  }

  // -- Opening and writing repeatedly -------------------------------------------------------------------

  lemma {:induction false} PositionOfNew(table: seq<FileDescriptor>, f: FileDescriptor)
    requires forall g :: g in table ==> g.fd != f.fd
    ensures Position(table + [f], f.fd) == Some(|table|)
    decreases |table|
  {
    if table != [] {
      assert (table + [f])[1..] == table[1..] + [f];
      assert (table + [f])[0] == table[0] && table[0] in table;
      PositionOfNew(table[1..], f);
    } else {
      assert table + [f] == [f];
    }
  }

  /** Opening a path that names nothing yet makes an empty file there, as `create_file` does. */
  lemma OpenIsCreate(s: VfsState, l: Layout, path: seq<byte>, mode: FileMode) returns (d: nat, c: nat)
    requires Good(s.v, l) && s.v.Valid() && Open(s, path, mode).1.Ok? && NamePart(Canonicalize(s.cwd, path)) != []
    requires ParentDir(s.v, Canonicalize(s.cwd, path)).Some? && Target(s.v, Canonicalize(s.cwd, path)).None?
    ensures var full := Canonicalize(s.cwd, path);
            && ParentDir(s.v, full) == Some(d)
            && CreateFresh(s.v, d, ToUpper(NamePart(full)), []) == (CreateFile(s.v, full, []).0, Ok(c))
            && CreateFile(s.v, full, []).1.Ok?
            && Open(s, path, mode)
               == (WithDescriptor(s.(v := CreateFile(s.v, full, []).0), full, mode, 0, c), Ok(s.nextFd))
  {
    hide Good, FindFrom, WalkDirs, Slots, Follow, CreateFresh, Overwrite, IsDirectory, FirstCluster, FileSize;
    var full := Canonicalize(s.cwd, path);
    d := AtParent(s.v, l, full);
    c := CreateFresh(s.v, d, ToUpper(NamePart(full)), []).1.value;
  }

  /** A file newly made by `open` with CreateNew under a name that fits is empty and its descriptor at
      its end. */
  lemma OpenNewHolds(s: VfsState, l: Layout, path: seq<byte>) returns (l': Layout)
    requires GoodState(s, l) && s.v.Valid() && Open(s, path, CreateNew).1.Ok?
    requires TakesEntry(s.v, Canonicalize(s.cwd, path))
    requires Fits83(ToUpper(NamePart(Canonicalize(s.cwd, path))))
    ensures Open(s, path, CreateNew).1 == Ok(s.nextFd)
    ensures Holds(Open(s, path, CreateNew).0, l', s.nextFd, Canonicalize(s.cwd, path), [])
  {
    hide Good, Follow, Content, WalkDirs, Slots, FindFrom, IsDirectory, FirstCluster, FileSize, Fits83, DirOk,
         EntryAdded, FullNameUpper, NewEntry, Live, NoLower, NewChain, WriteNewFile, FdsOk, TakesEntry, Target,
         CreateFile, EntrySlot, CreateFresh, Open, InRange;
    var full := Canonicalize(s.cwd, path);
    StorableByEntry(s.v, full);
    NewIsNew(s, l, path);
    var d0, c0 := OpenIsCreate(s, l, path, CreateNew);
    var d, c, k, e;
    l', d, c, k, e := FreshState(s.v, l, full, []);
    var n := ToUpper(NamePart(full));
    Name83RoundTrip(Zeros(32), n);
    CreateParents(s.v, l, full, [], full);
    UpperClean(NamePart(full));
    NewEntryFields(n, ATTR_ARCHIVE, c, 0);
    AddedLookups(l.dirs[d], l'.dirs[d], k, e, n);
    PositionOfNew(s.table, FileDescriptor(s.nextFd, full, CreateNew, 0, 0, c));
    assert Window(Content(CreateFile(s.v, full, []).0.data, l'.chains[c]), 0, 0) == [];
  }

  /** CreateNew succeeds only where nothing is found yet. */
  lemma NewIsNew(s: VfsState, l: Layout, path: seq<byte>)
    requires Good(s.v, l) && s.v.Valid() && Open(s, path, CreateNew).1.Ok?
             && ParentDir(s.v, Canonicalize(s.cwd, path)).Some?
    ensures NamePart(Canonicalize(s.cwd, path)) != [] && Target(s.v, Canonicalize(s.cwd, path)).None?
  {
    hide Good, FindFrom, WalkDirs, Slots, Follow, CreateFresh, IsDirectory, FirstCluster, FileSize;
    var d := AtParent(s.v, l, Canonicalize(s.cwd, path));
  }
}
