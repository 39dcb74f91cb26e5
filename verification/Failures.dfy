// Calls that return Ok and leave a volume that is not well formed: deleting a dot record, creating under
// a file taken for a directory, and writing through a descriptor whose chain was freed.
module Failures {
  import opened Wrappers
  import opened Bytes
  import opened Chains
  import opened Volumes
  import opened DirEntries
  import opened Directory
  import opened Paths
  import opened VfsSpec
  import opened Storage
  import opened Tree
  import opened Invariant
  import opened Operations
  import opened TreePaths
  import opened Runs
  import opened Directories
  import opened Exactness
  import opened Bystanders

  // -- Dot records ------------------------------------------------------------------------------------

  lemma HeadNotIdle(v: Volume, l: Layout, h: nat)
    requires Good(v, l) && h in l.chains
    ensures !Idle(v.fat, h)
  {
    hide FatOk, IsChain, TreeOk;
    ChainFacts(v.fat, l.chains, l.home, h);
    assert h in l.chains[h];
    ChainNotFree(v.fat, l.chains[h], h);
    ChainNotBad(v.fat, l.chains[h], h);
  }

  /** MAIN: deleting a dot record that names a chain returns Ok and leaves no well-formed volume. */
  lemma DeleteDotBreaks(v: Volume, l: Layout, path: seq<byte>)
    requires Good(v, l) && v.Valid() && ParentDir(v, path).Some? && NamePart(path) != [] && Target(v, path).Some?
    requires IsDotEntry(Target(v, path).value) && FirstCluster(Target(v, path).value) in l.chains
    ensures Delete(v, path).1.Ok? && !WellFormed(Delete(v, path).0)
  {
    hide Good, FindFrom, FirstCluster, IsDotEntry, WalkDirs, Slots, Follow, Delete, Idle;
    var d := AtParent(v, l, path);
    var k := FindFrom(l.dirs[d], 0, ToUpper(NamePart(path))).value;
    DeleteIsRemoved(v, l, path, d, k);
    DotRemovedExact(v, l, path, d, k);
    HeadNotIdle(v, l, FirstCluster(l.dirs[d][k]));
  }

  /** So does deleting a record that names the root's first cluster. */
  lemma DeleteRootBreaks(v: Volume, l: Layout, path: seq<byte>)
    requires Good(v, l) && v.Valid() && ParentDir(v, path).Some? && NamePart(path) != [] && Target(v, path).Some?
    requires FirstCluster(Target(v, path).value) == v.root
    ensures Delete(v, path).1.Ok? && !WellFormed(Delete(v, path).0)
  {
    hide Good, FindFrom, FirstCluster, IsDotEntry, WalkDirs, Slots, Follow, Delete, FullNameUpper;
    var d := AtParent(v, l, path);
    var n := ToUpper(NamePart(path));
    var k := FindFrom(l.dirs[d], 0, n).value;
    RootInTree(v, l);
    DirIsHead(v, l, v.root);
    if IsDotEntry(l.dirs[d][k]) {
      DeleteDotBreaks(v, l, path);
    } else {
      FoundIsLive(v, l, d, n, k);
    }
  }

  lemma DotNames(dots: nat, cluster: nat)
    requires 1 <= dots <= 2 && cluster < U32
    ensures FullNameUpper(DotEntry(dots, cluster)) == seq(dots, _ => DOT)
    ensures FirstCluster(DotEntry(dots, cluster)) == cluster
  {
    var text := seq(dots, _ => DOT);
    var a := WithAttributes(Splice(Zeros(32), 0, Field(text, 8)), ATTR_DIRECTORY);
    var e := DotEntry(dots, cluster);
    ClusterAndSize(a, cluster, 0);
    assert e[..20] == a[..20];
    assert e[..8] == Field(text, 8) by {
      assert e[..8] == e[..20][..8] == a[..20][..8];
    }
    assert e[8] == e[..20][8] == a[8] == 0;
    TrimField(text, 8);
    assert text + [] == text;
  }

  /** The two records of a new directory are found under their names. */
  lemma DotsFound(csz: nat, self: nat, parent: nat)
    requires csz >= 64 && csz % 32 == 0 && self < U32 && parent < U32
    ensures var s := SlotsOf(NewDirBlock(csz, self, parent));
            && FindFrom(s, 0, [DOT]) == Some(0) && s[0] == DotEntry(1, self)
            && FindFrom(s, 0, [DOT, DOT]) == Some(1) && s[1] == DotEntry(2, parent)
  {
    NewDirSlots(csz, self, parent);
    DotEntryFields(1, self);
    DotEntryFields(2, parent);
    DotNames(1, self);
    DotNames(2, parent);
    var s := SlotsOf(NewDirBlock(csz, self, parent));
    assert seq(1, _ => DOT) == [DOT] && seq(2, _ => DOT) == [DOT, DOT];
    hide DotEntry, NewDirBlock, FullNameUpper, IsDotEntry, SlotsOf, Skipped, DirOk, NothingLive, IsEnd;
    assert FindFrom(s, 1, [DOT, DOT]) == Some(1);
  }

  /** A directory just made is entered by its path. */
  lemma MkdirEntered(v: Volume, l: Layout, path: seq<byte>, name: seq<byte>) returns (l': Layout, d: nat, c: nat)
    requires Good(v, l) && v.Valid() && TakesEntry(v, path) && Mkdir(v, path).1.Ok?
    requires Fits83(ToUpper(NamePart(path))) && NamePart(path) != [DOT, DOT]
    requires name != [] && forall i :: 0 <= i < |name| ==> name[i] != SLASH
    ensures var v' := Mkdir(v, path).0;
            && v'.Valid() && Good(v', l') && v'.root == v.root && v'.csz == v.csz && ParentDir(v, path) == Some(d)
            && d in l.dirs && d in l'.dirs && c in l'.dirs && l'.dirs[c] == SlotsOf(NewDirBlock(v.csz, c, d))
            && ParentDir(v', path + [SLASH] + name) == Some(c)
    ensures NamePart(path + [SLASH] + name) == name
  {
    hide Good, Mkdir, WalkDirs, FindFrom, Slots, Follow, FullNameUpper, DirOk, IsDirectory, FirstCluster, SlotsOf,
         NewDirBlock, Fits83, LookUp, Listing, TakesEntry, DotEntry, FullName, FileSize, NamePart, ParentPath;
    var k, v' := 0, Mkdir(v, path).0;
    l', d, c, k := MkdirFound(v, l, path);
    NotSkipped(NamePart(path));
    ListingInTree(v', l', d);
    GoodDirOk(v', l', d);
    DirOkParts(l'.dirs[d]);
    LookUpIsFind(l'.dirs[d], 0, NamePart(path));
    ParentOfChild(v', path, name);
  }

  /** Its dot records are found in it. */
  lemma DotTarget(v: Volume, l: Layout, q: seq<byte>, c: nat, d: nat)
    requires Good(v, l) && v.Valid() && ParentDir(v, q) == Some(c) && c in l.dirs && d in l.dirs && v.csz >= 64
    requires l.dirs[c] == SlotsOf(NewDirBlock(v.csz, c, d)) && IsDots(NamePart(q))
    ensures Target(v, q).Some? && IsDotEntry(Target(v, q).value) && c in l.chains && d in l.chains
    ensures FirstCluster(Target(v, q).value) == if NamePart(q) == [DOT] then c else d
  {
    hide Good, WalkDirs, FindFrom, Slots, Follow, FullNameUpper, FirstCluster, SlotsOf, NewDirBlock, NamePart,
         ParentPath, DotEntry, IsDotEntry;
    HeadBound(v, l, c);
    HeadBound(v, l, d);
    GoodCsz(v, l);
    DotsFound(v.csz, c, d);
    DotsAreUpper(NamePart(q));
    DotNames(1, c);
    DotNames(2, d);
    DotEntryFields(1, c);
    DotEntryFields(2, d);
    var x := AtParent(v, l, q);
  }

  lemma GoodCsz(v: Volume, l: Layout)
    requires Good(v, l)
    ensures v.csz >= 64 && v.csz % 32 == 0
  {
  }

  lemma DotsAreUpper(name: seq<byte>)
    requires IsDots(name)
    ensures ToUpper(name) == name
  {
  }

  lemma HeadBound(v: Volume, l: Layout, c: nat)
    requires Good(v, l) && c in l.dirs
    ensures c < U32 && c in l.chains
  {
    hide FatOk, TreeOk, IsChain;
    DirIsHead(v, l, c);
    ChainFacts(v.fat, l.chains, l.home, c);
  }

  /** MAIN: after every successful `mkdir` under a name that fits 8.3, deleting `path/.` or `path/..`
      returns Ok and leaves no well-formed volume. */
  lemma MkdirThenDeleteDots(v: Volume, l: Layout, path: seq<byte>, name: seq<byte>)
    requires Good(v, l) && v.Valid() && TakesEntry(v, path) && Mkdir(v, path).1.Ok?
    requires Fits83(ToUpper(NamePart(path))) && NamePart(path) != [DOT, DOT] && IsDots(name)
    ensures Mkdir(v, path).0.Valid() && WellFormed(Mkdir(v, path).0)
    ensures var q := path + [SLASH] + name;
            Delete(Mkdir(v, path).0, q).1.Ok? && !WellFormed(Delete(Mkdir(v, path).0, q).0)
  {
    hide Good, Mkdir, WalkDirs, FindFrom, Slots, Follow, FullNameUpper, IsDirectory, FirstCluster, SlotsOf,
         NewDirBlock, Fits83, TakesEntry, NamePart, ParentPath, IsDotEntry, Delete, Target;
    var l', d, c := MkdirEntered(v, l, path, name);
    var v', q := Mkdir(v, path).0, path + [SLASH] + name;
    DotTarget(v', l', q, c, d);
    DeleteDotBreaks(v', l', q);
  }

  // -- Through a file ---------------------------------------------------------------------------------

  /** MAIN: an Ok creation of a file, wherever the parent part of its path leads, keeps the volume well
      formed if and only if that chain is a directory of the tree, the name can be stored and there is
      room. */
  lemma CreateAnywhereExact(v: Volume, l: Layout, path: seq<byte>, d: nat, data: seq<byte>)
    requires Good(v, l) && v.Valid() && ResolveParent(v, path) == Ok((d, NamePart(path))) && d in l.chains
    requires NamePart(path) != [] && InRange(ChainOf(v.fat, d), |v.fat|)
    requires FindEntry(v, ChainOf(v.fat, d), ToUpper(NamePart(path))).None? && CreateFile(v, path, data).1.Ok?
    ensures WellFormed(CreateFile(v, path, data).0)
            <==> d in l.dirs && Storable(ToUpper(NamePart(path))) && RoomFor(l.dirs[d], |l.chains[d]|)
  {
    hide Good, ResolveParent, FindEntry, CreateFresh, Overwrite, Follow, WellFormed, RoomFor, Storable, NoLower;
    UpperClean(NamePart(path));
    FreshExact(v, l, d, ToUpper(NamePart(path)), data);
  }

  /** MAIN: the same for `mkdir`. */
  lemma MkdirAnywhereExact(v: Volume, l: Layout, path: seq<byte>, d: nat)
    requires Good(v, l) && v.Valid() && ResolveParent(v, path) == Ok((d, NamePart(path))) && d in l.chains
    requires Mkdir(v, path).1.Ok?
    ensures WellFormed(Mkdir(v, path).0)
            <==> d in l.dirs && Storable(ToUpper(NamePart(path))) && RoomFor(l.dirs[d], |l.chains[d]|)
  {
    hide Good, ResolveParent, FindEntry, MakeDir, Follow, WellFormed, RoomFor, Storable, NoLower;
    UpperClean(NamePart(path));
    MakeDirExact(v, l, d, ToUpper(NamePart(path)));
  }

  /** Below a path that names a file, the file's first cluster is taken for the parent directory. */
  lemma ParentThroughFile(v: Volume, l: Layout, path: seq<byte>, n: seq<byte>) returns (h: nat)
    requires Good(v, l) && v.Valid() && ParentDir(v, path).Some? && Target(v, path).Some?
    requires !IsDirectory(Target(v, path).value)
    requires !SkippedComponent(NamePart(path)) && NamePart(path) != [DOT, DOT]
    requires n != [] && forall i :: 0 <= i < |n| ==> n[i] != SLASH
    ensures h == FirstCluster(Target(v, path).value) && h in l.chains && h !in l.dirs
    ensures ResolveParent(v, path + [SLASH] + n) == Ok((h, n)) && NamePart(path + [SLASH] + n) == n
  {
    hide Good, FindFrom, Slots, Follow, FullNameUpper, FirstCluster, IsDirectory, IsDotEntry, WalkDirs, NamePart,
         ParentPath, FoldSteps, Steps, Enter, ResolveFrom;
    var d := AtParent(v, l, path);
    var k := FindFrom(l.dirs[d], 0, ToUpper(NamePart(path))).value;
    GoodDirOk(v, l, d);
    NotDot(l.dirs[d], k, ToUpper(NamePart(path)));
    FoundIsLive(v, l, d, ToUpper(NamePart(path)), k);
    h := FirstCluster(l.dirs[d][k]);
    ParentCanonical(v, l, d);
    ResolveIsParentThenFind(v, path);
    ChildPath(path, n);
    ResolveIsFold(v, path);
    ResolveIsFold(v, ParentPath(path + [SLASH] + n));
  }

  /** MAIN: making a file or a directory below a path that names a file, when it returns Ok, leaves no
      well-formed volume; a file, that is, unless the bytes of the file read as slots held the name. */
  lemma ThroughFileBreaks(v: Volume, l: Layout, path: seq<byte>, n: seq<byte>, data: seq<byte>)
    requires Good(v, l) && v.Valid() && ParentDir(v, path).Some? && Target(v, path).Some?
    requires !IsDirectory(Target(v, path).value)
    requires !SkippedComponent(NamePart(path)) && NamePart(path) != [DOT, DOT]
    requires n != [] && forall i :: 0 <= i < |n| ==> n[i] != SLASH
    ensures var q := path + [SLASH] + n;
            Mkdir(v, q).1.Ok? ==> !WellFormed(Mkdir(v, q).0)
    ensures var q, cs := path + [SLASH] + n, ChainOf(v.fat, FirstCluster(Target(v, path).value));
            CreateFile(v, q, data).1.Ok? && InRange(cs, |v.fat|) && FindEntry(v, cs, ToUpper(n)).None?
            ==> !WellFormed(CreateFile(v, q, data).0)
  {
    hide Good, FindEntry, Follow, FirstCluster, IsDirectory, WalkDirs, NamePart, ParentPath, ResolveParent,
         CreateFile, Mkdir, WellFormed, Target, ParentDir;
    var h := ParentThroughFile(v, l, path, n);
    var q, cs := path + [SLASH] + n, ChainOf(v.fat, h);
    if Mkdir(v, q).1.Ok? {
      MkdirAnywhereExact(v, l, q, h);
    }
    if CreateFile(v, q, data).1.Ok? && InRange(cs, |v.fat|) && FindEntry(v, cs, ToUpper(n)).None? {
      CreateAnywhereExact(v, l, q, h, data);
    }
  }

  // -- Through a descriptor whose chain was freed -----------------------------------------------------

  /** Data written to a free cluster makes it the head of a chain again. */
  lemma FreeHeadWritten(v: Volume, h: nat, payload: seq<byte>) returns (cs: seq<nat>)
    requires v.Valid() && 2 <= h < |v.fat| && v.fat[h] == FREE && WriteClusters(v, [h], payload).1.Ok?
    ensures cs != [] && cs[0] == h && |cs| <= 2 && ChainChanged(v, WriteClusters(v, [h], payload).0, [], cs)
  {
    hide Store, Link, FirstFree, Needed, NoDup;
    var n := Needed(|payload|, v.csz);
    WriteClustersValid(v, [h], payload);
    if n <= 1 {
      cs := [h];
      OnlyOne(h);
      LinkMakesChain(v.fat, cs);
    } else {
      var c := LowestFree(v.fat).value;
      cs := if c == h then [h] else [h, c];
      FreeHeadGrown(v, h, payload, c, n - 1, cs);
    }
  }

  lemma OnlyOne(h: nat)
    ensures NoDup([h])
  {
  }

  lemma FreeHeadGrown(v: Volume, h: nat, payload: seq<byte>, c: nat, k: nat, cs: seq<nat>)
    requires v.Valid() && 2 <= h < |v.fat| && v.fat[h] == FREE && 2 <= c < |v.fat| && v.fat[c] == FREE && k > 0
    requires cs == if c == h then [h] else [h, c]
    requires InRange([h], |v.fat|) && Grown(v, [h], c, k, payload).Valid()
    ensures ChainChanged(v, Grown(v, [h], c, k, payload), [], cs)
  {
    hide Store, Link;
    FreeTail(v.fat, h, c, k);
    LinkMakesChain(v.fat, cs);
    CopiesMembersAll(h, c, k);
    assert forall x :: x in cs <==> x in [h] + Copies(c, k);
  }

  lemma FreeTail(fat: seq<nat>, h: nat, c: nat, k: nat)
    requires 2 <= h < |fat| && 2 <= c < |fat| && k > 0
    ensures InRange([h] + Copies(c, k), |fat|)
    ensures Link(fat, [h] + Copies(c, k)) == Link(fat, if c == h then [h] else [h, c])
  {
    if c == h {
      assert [h] + Copies(c, k) == [] + Copies(h, k + 1);
      LinkCopies(fat, [], h, k + 1);
      assert [] + [h] == [h];
    } else {
      LinkCopies(fat, [h], c, k);
      assert [h] + [c] == [h, c];
    }
  }

  lemma CopiesMembersAll(h: nat, c: nat, k: nat)
    requires k > 0
    ensures forall x :: x in [h] + Copies(c, k) <==> x == h || x == c
  {
    forall x
      ensures x in [h] + Copies(c, k) <==> x == h || x == c
    {
      CopiesMembers([h], c, k, x);
    }
  }

  /** The volume then holds one chain more, which no entry claims. */
  lemma StrayChain(v: Volume, l: Layout, v1: Volume, h: nat, cs: seq<nat>) returns (l1: Layout)
    requires Good(v, l) && v.Valid() && h < |v.fat| && v.fat[h] == FREE && cs != [] && cs[0] == h && |cs| <= 2
    requires ChainChanged(v, v1, [], cs)
    ensures ChainMade(v, l, v1, l1, h) && v1.root == v.root
    ensures forall g :: g in l.chains ==> l1.chains[g] == l.chains[g]
  {
    hide FatOk, TreeOk, IsChain, Rehome;
    ChainInRange(v1.fat, cs);
    FreeIsNoHead(v.fat, l.chains, l.home, h);
    DirsAreHeads(v, l.chains, l.home, l.dirs);
    StoredRechain(v, v1, l.chains, l.home, l.dirs, h, cs);
    l1 := Layout(l.chains[h := cs], Rehome(l.home, h, cs), l.dirs, l.owner);
  }

  /** A record whose size alone differs claims what it claimed. */
  lemma SizedClaims(slots: seq<DirEntry>, k: nat, size: nat)
    requires k < |slots| && size < U32
    ensures NoNewLive(slots, WithSlot(slots, k, WithFileSize(slots[k], size)))
  {
    hide WithFileSize, IsEnd, Skipped, IsDotEntry, IsDirectory, FirstCluster;
    var e' := WithFileSize(slots[k], size);
    ClusterAndSize(slots[k], 0, size);
    assert e'[..20] == e'[..28][..20] == slots[k][..20];
    SameFlags(slots[k], e');
  }

  lemma SameClaims(slots: seq<DirEntry>)
    ensures NoNewLive(slots, slots)
  {
  }

  /** Directories with the same claims as before own no chain more. */
  lemma StrayOrphan(v: Volume, l: Layout, v': Volume, chains: map<nat, seq<nat>>, home: map<nat, nat>,
                    dirs': map<nat, seq<DirEntry>>, h: nat, l': Layout)
    requires Good(v, l) && v'.root == v.root && Stored(v', chains, home, dirs') && h in chains && h !in l.chains
    requires dirs'.Keys == l.dirs.Keys && forall g :: g in l.dirs ==> NoNewLive(l.dirs[g], dirs'[g])
    ensures !Good(v', l')
  {
    hide Good, Stored, NoNewLive;
    if Good(v', l') {
      SameStorage(v', chains, home, dirs', l');
      assert NothingNew(l, l');
      RootInTree(v, l);
      DirIsHead(v, l, v.root);
      var g, k := HeadWasOwned(v, l, v', l', h);
    }
  }

  /** The size update after the write touches one record of a directory, if any. */
  lemma StraySized(v: Volume, chains: map<nat, seq<nat>>, home: map<nat, nat>, dirs: map<nat, seq<DirEntry>>,
                   path: seq<byte>, size: nat)
    returns (dirs': map<nat, seq<DirEntry>>)
    requires Stored(v, chains, home, dirs) && v.Valid() && Enterable(v.root, dirs)
    requires ParentDir(v, path).Some? && size < U32
    ensures var v' := UpdateFileSize(v, path, size).0;
            && v'.root == v.root && Stored(v', chains, home, dirs')
            && dirs'.Keys == dirs.Keys && forall g :: g in dirs ==> NoNewLive(dirs[g], dirs'[g])
  {
    hide Stored, Enterable, WalkDirs, TreeWalk, FindFrom, Slots, SetSlot, WithFileSize, NoNewLive, FatOk, Follow;
    ParentStored(v, chains, home, dirs, path);
    var d := ParentDir(v, path).value;
    forall g | g in dirs
      ensures NoNewLive(dirs[g], dirs[g])
    {
      SameClaims(dirs[g]);
    }
    var k := FindFrom(dirs[d], 0, ToUpper(NamePart(path)));
    if NamePart(path) == [] || k.None? {
      dirs' := dirs;
    } else {
      var e' := WithFileSize(dirs[d][k.value], size);
      StoredSetSlot(v, chains, home, dirs, d, k.value, e');
      SizedClaims(dirs[d], k.value, size);
      dirs' := dirs[d := WithSlot(dirs[d], k.value, e')];
    }
  }

  /** Data for a free cluster can always be stored: the cluster itself can be had if another is needed. */
  lemma FreeHeadTaken(v: Volume, h: nat, payload: seq<byte>)
    requires v.Valid() && 2 <= h < |v.fat| && v.fat[h] == FREE && |v.fat| >= 4
    ensures WriteClusters(v, [h], payload).1.Ok? && WriteClusters(v, [h], payload).0.Valid()
  {
    hide Store, Link, Needed;
    WriteClustersValid(v, [h], payload);
    assert FirstFree(v.fat, 2).Some?;
  }

  /** The root's first cluster is in use, so a free cluster is not the only one. */
  lemma RootInUse(v: Volume, l: Layout, h: nat)
    requires Good(v, l) && 2 <= h < |v.fat| && v.fat[h] == FREE
    ensures |v.fat| >= 4
  {
    hide TreeOk, FatOk, IsChain;
    RootInTree(v, l);
    DirIsHead(v, l, v.root);
    FreeIsNoHead(v.fat, l.chains, l.home, h);
    ChainFacts(v.fat, l.chains, l.home, v.root);
    ChainInRange(v.fat, l.chains[v.root]);
  }

  /** The write takes place, and the volume is then what these two steps make of it. */
  lemma StaleWriteOk(s: VfsState, fd: nat, data: seq<byte>, i: nat)
    requires s.v.Valid() && Position(s.table, fd) == Some(i) && s.table[i].mode != Read
    requires var h := s.table[i].cluster;
             && 2 <= h < |s.v.fat| && s.v.fat[h] == FREE && |s.v.fat| >= 4
             && Readable(s.v.fat, h) && ChainOf(s.v.fat, h) == [h]
    requires var v1 := WriteClusters(s.v, [s.table[i].cluster], FullData(s.v, s.table[i], data)).0;
             v1.Valid() ==> ResolveParent(v1, s.table[i].path).Ok?
                            && Readable(v1.fat, ResolveParent(v1, s.table[i].path).value.0)
    ensures WriteFd(s, fd, data).1.Ok?
  {
    hide Follow, WriteClusters, FullData, ResolveParent, UpdateSize;
    FreeHeadTaken(s.v, s.table[i].cluster, FullData(s.v, s.table[i], data));
  }

  /** MAIN: on a well-formed volume every write through a descriptor whose first cluster is free returns
      Ok, and leaves no well-formed volume: it makes a chain that no entry owns. */
  lemma StaleWriteBreaks(s: VfsState, l: Layout, fd: nat, data: seq<byte>)
    requires Good(s.v, l) && s.v.Valid() && Reached(s, WriteOp(fd, data)) && Position(s.table, fd).Some?
    requires var f := s.table[Position(s.table, fd).value];
             f.mode != Read && 2 <= f.cluster < |s.v.fat| && s.v.fat[f.cluster] == FREE
    ensures WriteFd(s, fd, data).1.Ok? && !WellFormed(WriteFd(s, fd, data).0.v)
  {
    hide Stored, TreeOk, FatOk, WriteClusters, FullData, ChainChanged, Follow, WriteFd, ParentDir;
    hide UpdateFileSize, Enterable, NoNewLive, TreeParent;
    var i := Position(s.table, fd).value;
    var file := s.table[i];
    var h := file.cluster;
    IdleChain(s.v.fat, h);
    RootInUse(s.v, l, h);
    var full, size := FullData(s.v, file, data), Advanced(file, |data|).size;
    var v1 := WriteClusters(s.v, [h], full).0;
    FreeHeadTaken(s.v, h, full);
    var cs := FreeHeadWritten(s.v, h, full);
    var l1 := StrayChain(s.v, l, v1, h, cs);
    TreeEnterable(s.v.root, l.chains.Keys, l.dirs, l.owner);
    ParentStored(s.v, l.chains, l.home, l.dirs, file.path);
    ParentStored(v1, l1.chains, l1.home, l.dirs, file.path);
    StaleWriteOk(s, fd, data, i);
    WriteParts(s, fd, data, i);
    var dirs' := StraySized(v1, l1.chains, l1.home, l.dirs, file.path, size);
    var v' := WriteFd(s, fd, data).0.v;
    forall g | g in l.dirs
      ensures NoNewLive(l.dirs[g], l.dirs[g])
    {
      SameClaims(l.dirs[g]);
    }
    forall l' | Good(v', l')
      ensures false
    {
      StrayOrphan(s.v, l, v', l1.chains, l1.home, if size == 0 then l.dirs else dirs', h, l');
    }
  }
}
