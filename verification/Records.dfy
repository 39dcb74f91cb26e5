// The bytes of the records that are written: which field holds what, and zeros in the rest.
module Records {
  import opened Wrappers
  import opened Bytes
  import opened Chains
  import opened Volumes
  import opened DirEntries
  import opened Directory
  import opened Paths
  import opened VfsSpec
  import opened Tree
  import opened Invariant
  import opened TreePaths
  import opened Runs
  import opened Refinement
  import opened Contents
  import opened Rewrites
  import opened Directories
  import opened Appends
  import opened Bystanders
  import opened Failures
  import opened Installs

  /** A record with these fields and no time, date or case bits. */
  predicate Laid32(e: DirEntry, name: seq<byte>, ext: seq<byte>, attributes: byte, cluster: nat, size: nat)
    requires cluster < U32 && size < U32
  {
    && e[..8] == name && e[8..11] == ext && e[11] == attributes
    && e[12..20] == Zeros(8) && e[20..22] == Le16(cluster / 0x1_0000) && e[22..26] == Zeros(4)
    && e[26..28] == Le16(cluster % 0x1_0000) && e[28..] == Le32(size)
  }

  lemma NewEntryLaid(n: seq<byte>, attributes: byte, cluster: nat, size: nat)
    requires n != [] && cluster < U32 && size < U32
    ensures Laid32(NewEntry(n, attributes, cluster, size), NameField(n), ExtField(n), attributes, cluster, size)
  {
    hide DotPos, NameField, ExtField, WithName83;
    var r := WithName83(Zeros(32), n);
    assert r[11..] == Zeros(32)[11..];
    assert forall i :: 11 <= i < 32 ==> r[i] == r[11..][i - 11] == 0;
    FieldsLaid(r, attributes, cluster, size);
  }

  /** Behind the name only attributes, cluster and size are set. */
  lemma FieldsLaid(r: DirEntry, attributes: byte, cluster: nat, size: nat)
    requires cluster < U32 && size < U32 && forall i :: 11 <= i < 32 ==> r[i] == 0
    ensures Laid32(WithFileSize(WithFirstCluster(WithAttributes(r, attributes), cluster), size), r[..8], r[8..11],
                   attributes, cluster, size)
  {
    hide Le16, Le32;
    var e := WithFileSize(WithFirstCluster(WithAttributes(r, attributes), cluster), size);
    assert e[..8] == r[..8] && e[8..11] == r[8..11];
    assert e[12..20] == Zeros(8) && e[22..26] == Zeros(4);
    assert e[20..22] == Le16(cluster / 0x1_0000) && e[26..28] == Le16(cluster % 0x1_0000);
    assert e[28..] == Le32(size);
  }

  lemma DotEntryLaid(dots: nat, cluster: nat)
    requires dots <= 8 && cluster < U32
    ensures Laid32(DotEntry(dots, cluster), Field(seq(dots, _ => DOT), 8), Zeros(3), 0x10, cluster, 0)
  {
    hide Field;
    var name := Field(seq(dots, _ => DOT), 8);
    var e := DotEntry(dots, cluster);
    assert forall i :: 0 <= i < 8 ==> e[i] == name[i];
  }

  /** The record a creation leaves under a fitting name. */
  lemma CreatedTarget(v: Volume, l: Layout, path: seq<byte>, data: seq<byte>) returns (c: nat)
    requires Good(v, l) && v.Valid() && TakesEntry(v, path) && Target(v, path).None? && |data| < U32
    requires CreateFile(v, path, data).1.Ok? && Fits83(ToUpper(NamePart(path)))
    ensures CreateFile(v, path, data).0.Valid() && NamePart(path) != [] && c < U32
    ensures Target(CreateFile(v, path, data).0, path)
            == Some(NewEntry(ToUpper(NamePart(path)), ATTR_ARCHIVE, c, |data|))
  {
    hide Good, CreateFile, WalkDirs, FindFrom, Follow, FullNameUpper, NewEntry, Live, DirOk, EntryAdded, NoLower,
         Fits83, TakesEntry, WriteNewFile, NewChain, Content, CreateFresh, InRange, IsDirectory, Slots, OthersKept,
         StoredName, Target, NamePart, ToUpper;
    var l', d, k, e;
    l', d, c, k, e := FreshState(v, l, path, data);
    var n := ToUpper(NamePart(path));
    CreateParents(v, l, path, data, path);
    FittingStored(n);
    AddedLookups(l.dirs[d], l'.dirs[d], k, e, n);
    var d' := AtParent(CreateFile(v, path, data).0, l', path);
  }

  /** MAIN: the record of a file just made: its name split at the first dot, the archive attribute, its cluster and
      the length of the data. */
  lemma CreatedRecord(v: Volume, l: Layout, path: seq<byte>, data: seq<byte>) returns (c: nat)
    requires Good(v, l) && v.Valid() && TakesEntry(v, path) && Target(v, path).None? && |data| < U32
    requires CreateFile(v, path, data).1.Ok? && Fits83(ToUpper(NamePart(path)))
    ensures var v', n := CreateFile(v, path, data).0, ToUpper(NamePart(path));
            && v'.Valid() && n != [] && c < U32 && Target(v', path).Some?
            && Laid32(Target(v', path).value, NameField(n), ExtField(n), 0x20, c, |data|)
  {
    hide Good, CreateFile, Target, NewEntry, Fits83, TakesEntry, NamePart, Laid32;
    c := CreatedTarget(v, l, path, data);
    NewEntryLaid(ToUpper(NamePart(path)), 0x20, c, |data|);
  }

  /** MAIN: the record of a directory just made, and its two dot records, for itself and for its parent. */
  lemma MadeRecords(v: Volume, l: Layout, path: seq<byte>) returns (l': Layout, c: nat)
    requires Good(v, l) && v.Valid() && TakesEntry(v, path) && Mkdir(v, path).1.Ok?
    requires Fits83(ToUpper(NamePart(path)))
    ensures var v', n := Mkdir(v, path).0, ToUpper(NamePart(path));
            && v'.Valid() && Good(v', l') && n != [] && c < U32 && Target(v', path).Some?
            && Laid32(Target(v', path).value, NameField(n), ExtField(n), 0x10, c, 0)
            && ParentDir(v, path).Some? && ParentDir(v, path).value < U32
            && c in l'.dirs && |l'.dirs[c]| >= 2
            && Laid32(l'.dirs[c][0], Field([DOT], 8), Zeros(3), 0x10, c, 0)
            && Laid32(l'.dirs[c][1], Field([DOT, DOT], 8), Zeros(3), 0x10, ParentDir(v, path).value, 0)
  {
    hide Good, Mkdir, WalkDirs, FindFrom, Follow, FullNameUpper, NewEntry, Live, DirOk, EntryAdded, NoLower, Fits83,
         TakesEntry, InRange, IsDirectory, Slots, Laid32, SlotsOf, NewDirBlock, DotEntry;
    var d, k, e;
    l', d, c, k, e := MkdirState(v, l, path);
    var n := ToUpper(NamePart(path));
    MkdirParents(v, l, path, path);
    FittingStored(n);
    AddedLookups(l.dirs[d], l'.dirs[d], k, e, n);
    FittingNameIsFree(v, l, path);
    FreeNameUnfound(v, l, path, d);
    var d' := AtParent(Mkdir(v, path).0, l', path);
    NewEntryLaid(n, 0x10, c, 0);
    HeadBound(v, l, d);
    DotEntryLaid(1, c);
    DotEntryLaid(2, d);
    GoodCsz(v, l);
    BlockSlots(v.csz, c, d);
    assert seq(1, _ => DOT) == [DOT] && seq(2, _ => DOT) == [DOT, DOT];
  }

  lemma BlockSlots(csz: nat, self: nat, parent: nat)
    requires csz >= 64
    ensures var slots := SlotsOf(NewDirBlock(csz, self, parent));
            |slots| >= 2 && slots[0] == DotEntry(1, self) && slots[1] == DotEntry(2, parent)
  {
    hide DotEntry;
    var block := NewDirBlock(csz, self, parent);
    assert SlotAt(block, 0) == DotEntry(1, self);
    assert SlotAt(block, 1) == DotEntry(2, parent);
  }

  // -- Records changed ----------------------------------------------------------------------------------

  lemma RedirectedBytes(e: DirEntry, c: nat, size: nat)
    requires c < U32 && size < U32
    ensures var r := Redirected(e, c, size);
            && r[..20] == e[..20] && r[20..22] == Le16(c / 0x1_0000) && r[22..26] == e[22..26]
            && r[26..28] == Le16(c % 0x1_0000) && r[28..] == Le32(size)
  {
    hide Le16, Le32;
  }

  lemma OverwrittenTarget(v: Volume, l: Layout, path: seq<byte>, data: seq<byte>) returns (c: nat)
    requires Good(v, l) && v.Valid() && ParentDir(v, path).Some? && NamePart(path) != [] && Target(v, path).Some?
    requires CreateFile(v, path, data).1.Ok? && |data| < U32
    ensures CreateFile(v, path, data).0.Valid() && c < U32
    ensures Target(CreateFile(v, path, data).0, path) == Some(Redirected(Target(v, path).value, c, |data|))
  {
    hide Good, CreateFile, WalkDirs, FindFrom, Follow, FullNameUpper, WriteNewFile, NewChain, Content, InRange,
         IsDirectory, Slots, OthersKept, Live, FirstCluster, FileSize, Redirected, Freed, DirOk, NamePart, ToUpper,
         Target, ParentDir;
    var l', d, k, h;
    l', d, k, c, h := OverwriteState(v, l, path, data);
    OverwriteParents(v, l, path, data, path);
    var e := l.dirs[d][k];
    var d1 := AtParent(v, l, path);
    RedirectedFind(l.dirs[d], k, Redirected(e, c, |data|), ToUpper(NamePart(path)));
    var d2 := AtParent(CreateFile(v, path, data).0, l', path);
  }

  /** MAIN: an overwrite changes the first cluster and the size of the file's record and no other byte of it. */
  lemma OverwrittenRecord(v: Volume, l: Layout, path: seq<byte>, data: seq<byte>) returns (c: nat, now: DirEntry)
    requires Good(v, l) && v.Valid() && ParentDir(v, path).Some? && NamePart(path) != [] && Target(v, path).Some?
    requires CreateFile(v, path, data).1.Ok? && |data| < U32
    ensures CreateFile(v, path, data).0.Valid() && c < U32 && Target(CreateFile(v, path, data).0, path) == Some(now)
    ensures var was := Target(v, path).value;
            && FirstCluster(now) == c && FileSize(now) == |data|
            && now[..20] == was[..20] && now[20..22] == Le16(c / 0x1_0000) && now[22..26] == was[22..26]
            && now[26..28] == Le16(c % 0x1_0000) && now[28..] == Le32(|data|)
  {
    hide Good, CreateFile, Target, NamePart, ParentDir, Le16, Le32, Redirected, FirstCluster, FileSize;
    c := OverwrittenTarget(v, l, path, data);
    now := Redirected(Target(v, path).value, c, |data|);
    RedirectedBytes(Target(v, path).value, c, |data|);
  }

  /** A write through a descriptor changes the size in the file's record and no other byte of it. */
  lemma WrittenRecord(s: VfsState, l: Layout, fd: nat, path: seq<byte>, p: nat, w: seq<byte>, data: seq<byte>)
    returns (was: DirEntry, now: DirEntry)
    requires s.v.Valid() && HoldsAt(s, l, fd, path, p, w) && WriteFd(s, fd, data).1.Ok?
    requires Position(s.table, fd).Some? && StaysReadable(s.v, s.table[Position(s.table, fd).value], data)
    requires |w| < U32 && p + |data| < U32
    ensures Target(s.v, path) == Some(was)
    ensures now[..28] == was[..28] && now[28..] == Le32(Most(|w|, p + |data|))
    ensures WriteFd(s, fd, data).0.v.Valid() && Target(WriteFd(s, fd, data).0.v, path) == Some(now)
  {
    hide FdAt, Good, Content, WriteFd, Target, Le32, WithFileSize, Advanced, FileSize, StaysReadable, UpdateFileSize,
         WriteClusters, ReadFileContent, Overlaid, ParentDir, RecordOf;
    var i, n := Position(s.table, fd), Most(|w|, p + |data|);
    ReadAtFd(s, l, fd, path, p, w);
    was := Target(s.v, path).value;
    FdFields(s, l, fd, path, p, |w|);
    AdvancedTo(s.table[i.value], |data|);
    var v1, l1 := DataRecord(s, l, fd, path, p, w, data);
    SizeBytes(was, n);
    if n == 0 {
      now := was;
      NoSize(was);
    } else {
      now := WithFileSize(was, n);
      var l2 := SizeWritten(v1, l1, path, s.table[i.value].cluster, |w|, n);
    }
  }

  lemma FdFields(s: VfsState, l: Layout, fd: nat, path: seq<byte>, p: nat, n: nat)
    requires FdAt(s, l, fd, path, p, n)
    ensures Position(s.table, fd).Some?
    ensures var f := s.table[Position(s.table, fd).value]; f.path == path && f.pos == p <= n && f.size == n < U32
    ensures NamePart(path) != []
  {
  }

  /** Between the two halves of a write the record is as it was. */
  lemma DataRecord(s: VfsState, l: Layout, fd: nat, path: seq<byte>, p: nat, w: seq<byte>, data: seq<byte>)
    returns (v1: Volume, l1: Layout)
    requires s.v.Valid() && HoldsAt(s, l, fd, path, p, w) && WriteFd(s, fd, data).1.Ok?
    requires Position(s.table, fd).Some? && StaysReadable(s.v, s.table[Position(s.table, fd).value], data)
    ensures var f := s.table[Position(s.table, fd).value];
            var size := Advanced(f, |data|).size;
            && v1.Valid() && Good(v1, l1) && Target(v1, path) == Target(s.v, path) && size < U32
            && WriteFd(s, fd, data).0.v == (if size == 0 then v1 else UpdateFileSize(v1, f.path, size).0)
            && ParentDir(v1, path).Some? && ParentDir(v1, path).value in l1.dirs
            && RecordOf(v1, l1, ParentDir(v1, path).value, ToUpper(NamePart(path)), f.cluster, |w|)
  {
    hide Good, Follow, Content, ParentDir, UpdateFileSize, WriteClusters, FullData, Written, RecordOf, Overlaid,
         StaysReadable, Target, WriteFd, Advanced;
    l1 := DataLaid(s, l, fd, path, p, w, data);
    WriteParts(s, fd, data, Position(s.table, fd).value);
    v1 := WriteClusters(s.v, l.chains[s.table[Position(s.table, fd).value].cluster], Overlaid(w, p, data)).0;
    SameTarget(s.v, l, v1, l1, path);
  }

  lemma AdvancedTo(f: FileDescriptor, n: nat)
    requires f.pos <= f.size && Most(f.size, f.pos + n) < U32
    ensures Advanced(f, n).size == Most(f.size, f.pos + n)
  {
  }

  lemma SameTarget(v: Volume, l: Layout, v1: Volume, l1: Layout, path: seq<byte>)
    requires Good(v, l) && Good(v1, l1) && v.Valid() && v1.Valid() && l1.dirs == l.dirs
    requires ParentDir(v, path).Some? && ParentDir(v1, path) == ParentDir(v, path)
    ensures Target(v1, path) == Target(v, path)
  {
    hide Good, FindFrom, WalkDirs, Slots, Follow;
    var d := AtParent(v, l, path);
    var d1 := AtParent(v1, l1, path);
  }

  lemma SizeBytes(e: DirEntry, n: nat)
    requires n < U32
    ensures WithFileSize(e, n)[..28] == e[..28] && WithFileSize(e, n)[28..] == Le32(n)
  {
    hide Le32;
  }

  lemma NoSize(e: DirEntry)
    requires FileSize(e) == 0
    ensures e[28..] == Le32(0)
  {
  }

  /** The host tool lays its record the same way. */
  lemma ToolRecord(name: seq<byte>, cluster: nat, size: nat)
    requires cluster < 0x1_0000 && size < U32 && DotPos(name) < |name|
    requires forall i :: 0 <= i < |name| ==> 0 < name[i] < 128
    ensures |EntryBytes(name, cluster, size)| == 32
    ensures Laid32(EntryBytes(name, cluster, size), Field(FirstPart(name), 8), ToolExt(name), 0x20, cluster, size)
  {
    hide DotPos, ToolExt, Field, FirstPart;
    EntryFields(name, cluster, size);
  }
}
