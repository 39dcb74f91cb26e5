// Overwriting and deleting files: what reads back, and that other files are left alone.
module Rewrites {
  import opened Wrappers
  import opened Bytes
  import opened Chains
  import opened Volumes
  import opened DirEntries
  import opened Directory
  import opened Paths
  import opened VfsSpec
  import opened Storage
  import opened Tree
  import opened Invariant
  import opened Operations
  import opened TreePaths
  import opened Runs
  import opened Refinement
  import opened Contents

  // -- create_file, overwrite branch ------------------------------------------------------------------

  lemma CreateIsOverwrite(v: Volume, l: Layout, path: seq<byte>, data: seq<byte>, d: nat, k: nat)
    requires Good(v, l) && v.Valid() && ParentDir(v, path) == Some(d) && d in l.dirs && NamePart(path) != []
    requires FindFrom(l.dirs[d], 0, ToUpper(NamePart(path))) == Some(k)
    requires CreateFile(v, path, data).1.Ok?
    ensures !IsDirectory(l.dirs[d][k])
    ensures CreateFile(v, path, data) == Overwrite(v, d, ToUpper(NamePart(path)), l.dirs[d][k], data)
  {
    hide Good, CreateFresh, Overwrite, WalkDirs, FindFrom, Slots, Follow;
    var d' := AtParent(v, l, path);
  }

  /** The record a successful overwrite leaves. */
  function Redirected(e: DirEntry, c: nat, size: nat): (r: DirEntry)
    requires c < U32 && size < U32
    ensures r[..20] == e[..20] && FirstCluster(r) == c && FileSize(r) == size
  {
    ClusterAndSize(e, c, size);
    WithFileSize(WithFirstCluster(e, c), size)
  }

  /** The state after an overwrite, seen from the directories. */
  lemma OverwriteState(v: Volume, l: Layout, path: seq<byte>, data: seq<byte>)
    returns (l': Layout, d: nat, k: nat, c: nat, h: nat)
    requires Good(v, l) && v.Valid() && ParentDir(v, path).Some? && NamePart(path) != [] && Target(v, path).Some?
    requires CreateFile(v, path, data).1.Ok?
    ensures d == ParentDir(v, path).value && d in l.dirs && c < U32
    ensures FindFrom(l.dirs[d], 0, ToUpper(NamePart(path))) == Some(k)
    ensures h == FirstCluster(l.dirs[d][k]) && !IsDirectory(l.dirs[d][k]) && LiveAt(l.dirs, d, k) && h !in l.dirs
    ensures Readable(v.fat, h) && WriteNewFile(Freed(v, h), data).1.Ok?
    ensures var v', v1 := CreateFile(v, path, data).0, Freed(v, h);
            && Good(v', l') && v'.Valid() && v'.root == v.root && v'.csz == v.csz && v1.csz == v.csz
            && l'.dirs == l.dirs[d := WithSlot(l.dirs[d], k, Redirected(l.dirs[d][k], c, |data| % U32))]
            && DirOk(l.dirs[d]) && d in l.chains
            && OthersKept(v, v', l.chains, l'.chains, d, h)
            && c in l'.chains && InRange(l'.chains[c], |v'.data|) && l'.chains[c] == NewChain(v1, data)
            && InRange(NewChain(v1, data), |WriteNewFile(v1, data).0.data|)
            && Content(v'.data, l'.chains[c]) == Content(WriteNewFile(v1, data).0.data, NewChain(v1, data))
  {
    hide Good, Overwrite, WalkDirs, FindFrom, Slots, Follow, FullNameUpper, WriteNewFile, NewChain, Content, DirOk,
         InRange, IsDirectory, FirstCluster, Live, Free, WithFileSize, WithFirstCluster;
    d := AtParent(v, l, path);
    var n := ToUpper(NamePart(path));
    k := FindFrom(l.dirs[d], 0, n).value;
    CreateIsOverwrite(v, l, path, data, d, k);
    l', c := OverwriteKeeps(v, l, d, n, k, data);
    h := FirstCluster(l.dirs[d][k]);
    GoodDirOk(v, l, d);
    GoodValid(CreateFile(v, path, data).0, l');
  }

  lemma OverwriteParents(v: Volume, l: Layout, path: seq<byte>, data: seq<byte>, q: seq<byte>)
    requires Good(v, l) && v.Valid() && ParentDir(v, path).Some? && NamePart(path) != [] && Target(v, path).Some?
    requires CreateFile(v, path, data).1.Ok?
    ensures CreateFile(v, path, data).0.Valid()
    ensures ParentDir(v, q).Some? ==> ParentDir(CreateFile(v, path, data).0, q) == ParentDir(v, q)
  {
    hide Good, CreateFile, WalkDirs, FindFrom, Slots, Follow, FullNameUpper, WriteNewFile, NewChain, Content, DirOk,
         InRange, IsDirectory, FirstCluster, Live, Redirected, ScanKept, Free;
    var l', d, k, c, h := OverwriteState(v, l, path, data);
    RedirectedScans(l.dirs[d], k, Redirected(l.dirs[d][k], c, |data| % U32));
    ParentKept(v, l, CreateFile(v, path, data).0, l', d, q);
  }

  /** MAIN, overwrite branch: the new data reads back exactly when it fits two clusters or is zero past
      the first, whatever the file held before. */
  lemma OverwriteThenRead(v: Volume, l: Layout, path: seq<byte>, data: seq<byte>)
    requires Good(v, l) && v.Valid() && ParentDir(v, path).Some? && NamePart(path) != [] && Target(v, path).Some?
    requires CreateFile(v, path, data).1.Ok? && |data| < U32
    ensures CreateFile(v, path, data).0.Valid()
    ensures ReadFileContent(CreateFile(v, path, data).0, path) == Ok(data)
            <==> |data| <= 2 * v.csz || ZeroFrom(data, v.csz)
  {
    hide Good, CreateFile, WalkDirs, FindFrom, Slots, Follow, FullNameUpper, WriteNewFile, NewChain, Content, DirOk,
         InRange, IsDirectory, FirstCluster, FileSize, Live, Redirected, ReadFileContent, Free;
    var n, v' := ToUpper(NamePart(path)), CreateFile(v, path, data).0;
    var l', d, k, c, h := OverwriteState(v, l, path, data);
    var e' := Redirected(l.dirs[d][k], c, |data| % U32);
    OverwriteParents(v, l, path, data, path);
    ReadIsContentAt(v', l', path);
    SameFlags(l.dirs[d][k], e');
    RedirectedFind(l.dirs[d], k, e', n);
    CreateReadBack(Freed(v, h), data);
  }

  /** An overwrite spares every file under another name or in another directory. */
  lemma OverwriteSpares(v: Volume, l: Layout, path: seq<byte>, data: seq<byte>, g: nat, m: seq<byte>)
    returns (l': Layout)
    requires Good(v, l) && v.Valid() && ParentDir(v, path).Some? && NamePart(path) != [] && Target(v, path).Some?
    requires CreateFile(v, path, data).1.Ok? && g in l.dirs
    requires ParentDir(v, path) != Some(g) || m != ToUpper(NamePart(path))
    ensures var v' := CreateFile(v, path, data).0; Good(v', l') && v'.Valid() && FileKept(v, l, v', l', g, m)
  {
    hide Good, CreateFile, WalkDirs, Slots, Follow, FullNameUpper, WriteNewFile, NewChain, Content, DirOk, InRange,
         IsDirectory, FirstCluster, FileSize, Live, Redirected, Free, FindFrom;
    var d, k, c, h;
    l', d, k, c, h := OverwriteState(v, l, path, data);
    RedirectedFind(l.dirs[d], k, Redirected(l.dirs[d][k], c, |data| % U32), m);
    OtherRecord(v, l, d, ToUpper(NamePart(path)), k, g, m);
    FoundFileKept(v, l, CreateFile(v, path, data).0, l', g, m, d, h);
  }

  /** MAIN, overwrite branch: every other file of the tree reads as before. */
  lemma OverwriteKeepsOthers(v: Volume, l: Layout, path: seq<byte>, data: seq<byte>, q: seq<byte>)
    requires Good(v, l) && v.Valid() && ParentDir(v, path).Some? && NamePart(path) != [] && Target(v, path).Some?
    requires CreateFile(v, path, data).1.Ok?
    requires ParentDir(v, q).Some?
    requires ParentDir(v, q) != ParentDir(v, path) || ToUpper(NamePart(q)) != ToUpper(NamePart(path))
    ensures CreateFile(v, path, data).0.Valid()
    ensures ReadFileContent(CreateFile(v, path, data).0, q) == ReadFileContent(v, q)
  {
    hide Good, CreateFile, WalkDirs, ReadFileContent, Target, FileKept;
    ParentInTree(v, l, q);
    OverwriteParents(v, l, path, data, q);
    var l' := OverwriteSpares(v, l, path, data, ParentDir(v, q).value, ToUpper(NamePart(q)));
    ReadKept(v, l, CreateFile(v, path, data).0, l', q);
  }

  /** A record found under another name, or in another directory, owns another chain. */
  lemma OtherRecord(v: Volume, l: Layout, d: nat, n: seq<byte>, k: nat, g: nat, m: seq<byte>)
    requires Good(v, l) && d in l.dirs && g in l.dirs && FindFrom(l.dirs[d], 0, n) == Some(k) && LiveAt(l.dirs, d, k)
    requires !IsDirectory(l.dirs[d][k]) && (g, m) != (d, n)
    ensures var r := FindFrom(l.dirs[g], 0, m);
            r.Some? ==> (g != d || r.value != k)
                        && (!IsDirectory(l.dirs[g][r.value]) ==>
                           FirstCluster(l.dirs[g][r.value]) != FirstCluster(l.dirs[d][k]))
  {
    hide FullNameUpper, IsDotEntry, DirOk, Stored, FirstCluster, IsDirectory, Skipped;
    var r := FindFrom(l.dirs[g], 0, m);
    if r.Some? && !IsDirectory(l.dirs[g][r.value]) {
      GoodDirOk(v, l, g);
      NotDot(l.dirs[g], r.value, m);
      FoundIsLive(v, l, g, m, r.value);
      if FirstCluster(l.dirs[g][r.value]) == FirstCluster(l.dirs[d][k]) {
        OwnersDistinct(v.root, l.chains.Keys, l.dirs, l.owner, g, r.value, d, k);
      }
    }
  }

  // -- delete -----------------------------------------------------------------------------------------

  /** The parent directory holds one record of the name. */
  predicate OnlyRecord(v: Volume, path: seq<byte>)
    requires v.Valid()
  {
    var d := ParentDir(v, path);
    d.Some? && Readable(v.fat, d.value) &&
    (ReadableWalk(v.fat, d.value);
     var slots := Slots(v.data, ChainOf(v.fat, d.value));
     forall i, j :: 0 <= i < j < |slots| && Matches(slots[i], ToUpper(NamePart(path))) ==>
         !Matches(slots[j], ToUpper(NamePart(path))))
  }

  /** The path names a file, or a directory that holds nothing. */
  predicate Removable(v: Volume, path: seq<byte>)
    requires v.Valid()
  {
    && ParentDir(v, path).Some? && NamePart(path) != [] && Target(v, path).Some?
    && var e := Target(v, path).value;
       !IsDotEntry(e) && (IsDirectory(e) ==> EmptyDir(v, FirstCluster(e)))
  }

  /** Files are no dot records. */
  lemma FileIsRemovable(v: Volume, l: Layout, path: seq<byte>)
    requires Good(v, l) && v.Valid() && ParentDir(v, path).Some? && NamePart(path) != []
    requires Target(v, path).Some? && !IsDirectory(Target(v, path).value)
    ensures Removable(v, path)
  {
    hide Good, WalkDirs, FindFrom, Slots, Follow, DirOk, IsDirectory, IsDotEntry;
    var d := AtParent(v, l, path);
    GoodDirOk(v, l, d);
    NotDot(l.dirs[d], FindFrom(l.dirs[d], 0, ToUpper(NamePart(path))).value, ToUpper(NamePart(path)));
  }

  /** The state after a file or an empty directory is deleted, seen from the directories. */
  lemma DeleteState(v: Volume, l: Layout, path: seq<byte>)
    returns (l': Layout, d: nat, k: nat, h: nat)
    requires Good(v, l) && v.Valid() && Removable(v, path)
    ensures Delete(v, path).1.Ok?
    ensures ParentDir(v, path) == Some(d) && d in l.dirs && FindFrom(l.dirs[d], 0, ToUpper(NamePart(path))) == Some(k)
    ensures Target(v, path) == Some(l.dirs[d][k])
    ensures LiveAt(l.dirs, d, k) && h == FirstCluster(l.dirs[d][k]) && h != d
            && (h in l.dirs <==> IsDirectory(l.dirs[d][k]))
    ensures var v' := Delete(v, path).0;
            && Good(v', l') && v'.Valid() && v'.root == v.root
            && l'.dirs == l.dirs[d := WithSlot(l.dirs[d], k, Tombstone(l.dirs[d][k]))] - {h}
            && DirOk(l.dirs[d])
            && OthersKept(v, v', l.chains, l'.chains, d, h)
  {
    hide Good, WalkDirs, FindFrom, Slots, Follow, FullNameUpper, DirOk, IsDirectory, FirstCluster, Live, Free,
         IsDotEntry, FreeSet, EmptyDir, NothingLive;
    d := AtParent(v, l, path);
    var n := ToUpper(NamePart(path));
    k := FindFrom(l.dirs[d], 0, n).value;
    h := FirstCluster(l.dirs[d][k]);
    GoodDirOk(v, l, d);
    FoundIsLive(v, l, d, n, k);
    if IsDirectory(l.dirs[d][k]) {
      EmptyExactly(v, l, h);
    }
    l' := RemovedKeeps(v, l, d, n, k);
    DeleteIsRemoved(v, l, path, d, k);
    GoodValid(Delete(v, path).0, l');
  }

  lemma RemovedScans(slots: seq<DirEntry>, n: seq<byte>, k: nat)
    requires FindFrom(slots, 0, n) == Some(k) && !IsDirectory(slots[k])
    ensures forall m :: ScanKept(slots, WithSlot(slots, k, Tombstone(slots[k])), m)
  {
    hide FullNameUpper, FindFrom, FirstCluster, IsDirectory;
    forall m
      ensures ScanKept(slots, WithSlot(slots, k, Tombstone(slots[k])), m)
    {
      RemovedFind(slots, n, k, m);
    }
  }

  lemma DeleteParents(v: Volume, l: Layout, path: seq<byte>, q: seq<byte>)
    requires Good(v, l) && v.Valid() && ParentDir(v, path).Some? && NamePart(path) != []
    requires Target(v, path).Some? && !IsDirectory(Target(v, path).value)
    ensures Delete(v, path).0.Valid()
    ensures ParentDir(v, q).Some? ==> ParentDir(Delete(v, path).0, q) == ParentDir(v, q)
  {
    hide Good, Delete, WalkDirs, FindFrom, Slots, Follow, FullNameUpper, DirOk, IsDirectory, FirstCluster, Live,
         ScanKept, Removable;
    FileIsRemovable(v, l, path);
    var l', d, k, h := DeleteState(v, l, path);
    assert l'.dirs.Keys == l.dirs.Keys;
    RemovedScans(l.dirs[d], ToUpper(NamePart(path)), k);
    ParentKept(v, l, Delete(v, path).0, l', d, q);
  }

  /** MAIN: a deleted file is gone exactly when the directory held one record of its name. */
  lemma DeleteThenRead(v: Volume, l: Layout, path: seq<byte>)
    requires Good(v, l) && v.Valid() && ParentDir(v, path).Some? && NamePart(path) != []
    requires Target(v, path).Some? && !IsDirectory(Target(v, path).value)
    ensures Delete(v, path).0.Valid()
    ensures ReadFileContent(Delete(v, path).0, path) == Err(NotFound) <==> OnlyRecord(v, path)
  {
    hide Good, Delete, WalkDirs, Slots, Follow, FullNameUpper, DirOk, IsDirectory, FirstCluster, Live, FileSize,
         ReadFileContent, ChainBytes, FindFrom, OnlyRecord, Removable;
    FileIsRemovable(v, l, path);
    var l', d, k, h := DeleteState(v, l, path);
    var n := ToUpper(NamePart(path));
    DeleteParents(v, l, path, path);
    ReadIsContentAt(Delete(v, path).0, l', path);
    RemovedFind(l.dirs[d], n, k, n);
    ChainBytesNotMissing(Delete(v, path).0, l');
    OnlyIsOnly(v, l, path, d, k);
  }

  lemma ChainBytesNotMissing(v: Volume, l: Layout)
    ensures forall h, size :: ChainBytes(v, l, h, size) != Err(NotFound)
  {
  }

  lemma OnlyIsOnly(v: Volume, l: Layout, path: seq<byte>, d: nat, k: nat)
    requires Good(v, l) && v.Valid() && ParentDir(v, path) == Some(d) && d in l.dirs
    requires FindFrom(l.dirs[d], 0, ToUpper(NamePart(path))) == Some(k)
    ensures OnlyRecord(v, path) <==> FindFrom(l.dirs[d], k + 1, ToUpper(NamePart(path))).None?
  {
    hide Good, WalkDirs, Slots, Follow, FullNameUpper, Skipped, IsDirectory, FirstCluster;
    var d' := AtParent(v, l, path);
    GoodDirOk(v, l, d);
    DirOkParts(l.dirs[d]);
    var slots, n := l.dirs[d], ToUpper(NamePart(path));
    var next := FindFrom(slots, k + 1, n);
    if next.None? {
      FindNone(slots, n, k + 1);
    } else {
      assert Matches(slots[k], n) && Matches(slots[next.value], n);
    }
  }

  /** A deletion spares every file under another name or in another directory. */
  lemma DeleteSpares(v: Volume, l: Layout, path: seq<byte>, g: nat, m: seq<byte>) returns (l': Layout)
    requires Good(v, l) && v.Valid() && Removable(v, path) && g in l.dirs
    requires ParentDir(v, path) != Some(g) || m != ToUpper(NamePart(path))
    ensures Delete(v, path).1.Ok?
    ensures var v' := Delete(v, path).0; Good(v', l') && v'.Valid() && (g in l'.dirs ==> FileKept(v, l, v', l', g, m))
  {
    hide Good, Delete, WalkDirs, Slots, Follow, FullNameUpper, DirOk, IsDirectory, FirstCluster, Live, FindFrom,
         Tombstone, Removable, Target;
    var d, k, h;
    l', d, k, h := DeleteState(v, l, path);
    RemovedFind(l.dirs[d], ToUpper(NamePart(path)), k, m);
    RemovedOther(v, l, d, ToUpper(NamePart(path)), k, g, m);
    FoundFileKept(v, l, Delete(v, path).0, l', g, m, d, h);
  }

  /** MAIN: deleting a file or an empty directory leaves every other file of the tree as it was, as long
      as its path still leads to its directory; a file deleted moves no path. */
  lemma DeleteKeepsOthers(v: Volume, l: Layout, path: seq<byte>, q: seq<byte>)
    requires Good(v, l) && v.Valid() && Removable(v, path)
    requires ParentDir(v, q).Some?
    requires ParentDir(v, q) != ParentDir(v, path) || ToUpper(NamePart(q)) != ToUpper(NamePart(path))
    ensures Delete(v, path).1.Ok? && Delete(v, path).0.Valid()
    ensures !IsDirectory(Target(v, path).value) ==> ParentDir(Delete(v, path).0, q) == ParentDir(v, q)
    ensures ParentDir(Delete(v, path).0, q) == ParentDir(v, q) ==>
              ReadFileContent(Delete(v, path).0, q) == ReadFileContent(v, q)
  {
    hide Good, Delete, WalkDirs, ReadFileContent, IsDirectory, Removable, Target, FileKept;
    RemovableNamed(v, path);
    ParentInTree(v, l, q);
    var l' := DeleteSpares(v, l, path, ParentDir(v, q).value, ToUpper(NamePart(q)));
    if !IsDirectory(Target(v, path).value) {
      DeleteParents(v, l, path, q);
    }
    if ParentDir(Delete(v, path).0, q) == ParentDir(v, q) {
      ParentInTree(Delete(v, path).0, l', q);
      ReadKept(v, l, Delete(v, path).0, l', q);
    }
  }

  lemma RemovableNamed(v: Volume, path: seq<byte>)
    requires v.Valid() && Removable(v, path)
    ensures NamePart(path) != [] && Target(v, path).Some? && ParentDir(v, path).Some?
  {
  }

  lemma RemovedOther(v: Volume, l: Layout, d: nat, n: seq<byte>, k: nat, g: nat, m: seq<byte>)
    requires Good(v, l) && d in l.dirs && g in l.dirs && FindFrom(l.dirs[d], 0, n) == Some(k) && LiveAt(l.dirs, d, k)
    requires (g, m) != (d, n)
    ensures var r := FindFrom(l.dirs[g], 0, m);
            r.Some? ==> (g != d || r.value != k)
                        && (FirstCluster(l.dirs[d][k]) !in l.dirs && !IsDirectory(l.dirs[g][r.value]) ==>
                              FirstCluster(l.dirs[g][r.value]) != FirstCluster(l.dirs[d][k]))
  {
    hide Good, FullNameUpper, IsDotEntry, FirstCluster, IsDirectory, Skipped;
    LiveOwner(v, l, d, k);
    if !IsDirectory(l.dirs[d][k]) {
      OtherRecord(v, l, d, n, k, g, m);
    }
  }
}
