// The main results on making directories.
module Directories {
  import opened Wrappers
  import opened Bytes
  import opened Chains
  import opened Volumes
  import opened DirEntries
  import opened Directory
  import opened Paths
  import opened VfsSpec
  import opened Tree
  import opened Invariant
  import opened Operations
  import opened TreePaths
  import opened Runs
  import opened Refinement
  import opened Contents

  lemma MkdirIsMakeDir(v: Volume, l: Layout, path: seq<byte>) returns (d: nat)
    requires Good(v, l) && v.Valid() && ParentDir(v, path).Some? && Mkdir(v, path).1.Ok?
    ensures d == ParentDir(v, path).value && d in l.dirs && d in l.chains && NamePart(path) != []
    ensures FindFrom(l.dirs[d], 0, ToUpper(NamePart(path))).None? && Target(v, path).None?
    ensures MakeDir(v, d, ToUpper(NamePart(path))) == Mkdir(v, path)
    ensures ChainOf(v.fat, d) == l.chains[d]
  {
    hide Good, MakeDir, WalkDirs, FindFrom, Slots, Follow;
    d := AtParent(v, l, path);
  }

  /** The state after a directory is made, seen from the directories. */
  lemma MkdirState(v: Volume, l: Layout, path: seq<byte>) returns (l': Layout, d: nat, c: nat, k: nat, e: DirEntry)
    requires Good(v, l) && v.Valid() && TakesEntry(v, path) && Mkdir(v, path).1.Ok?
    ensures ParentDir(v, path) == Some(d) && d in l.dirs && d in l'.dirs && c in l'.dirs && c !in l.dirs
    ensures var v', n := Mkdir(v, path).0, ToUpper(NamePart(path));
            && NamePart(path) != [] && Good(v', l') && v'.Valid() && v'.root == v.root && v'.csz == v.csz
            && Target(v, path).None?
            && l'.dirs == l.dirs[d := l'.dirs[d]][c := SlotsOf(NewDirBlock(v.csz, c, d))]
            && EntryAdded(l.dirs[d], l'.dirs[d], k, e) && Live(e) && IsDirectory(e) && FirstCluster(e) == c
            && c < U32 && e == NewEntry(n, ATTR_DIRECTORY, c, 0)
            && FullNameUpper(e) == StoredName(n)
            && DirOk(l.dirs[d])
            && OthersKept(v, v', l.chains, l'.chains, d, d)
  {
    hide Good, MakeDir, WalkDirs, FindFrom, Slots, Follow, FullNameUpper, NewEntry, Live, DirOk, EntryAdded, NoLower,
         NewDirBlock, SlotsOf, IsDirectory, FirstCluster, Mkdir, Room, HoleFrom;
    d := MkdirIsMakeDir(v, l, path);
    var n := ToUpper(NamePart(path));
    UpperClean(NamePart(path));
    RoomThere(v, l, d);
    var slots';
    l', slots', k, c := MakeDirKeeps(v, l, d, n);
    e := NewEntry(n, ATTR_DIRECTORY, c, 0);
    NewEntryFields(n, ATTR_DIRECTORY, c, 0);
    GoodDirOk(v, l, d);
    GoodValid(Mkdir(v, path).0, l');
    HeadNotDir(v, l, c);
    StoredDirGood(v, l, d);
  }

  /** After a directory is made under a name that fits, or whose stored form is free, every path through
      directories leads where it led. */
  lemma MkdirParents(v: Volume, l: Layout, path: seq<byte>, q: seq<byte>)
    requires Good(v, l) && v.Valid() && TakesEntry(v, path) && Mkdir(v, path).1.Ok?
    requires Fits83(ToUpper(NamePart(path))) || StoredNameFree(v, path)
    ensures Mkdir(v, path).0.Valid()
    ensures ParentDir(v, q).Some? ==> ParentDir(Mkdir(v, path).0, q) == ParentDir(v, q)
  {
    hide Good, Mkdir, WalkDirs, FindFrom, Slots, Follow, FullNameUpper, Live, DirOk, EntryAdded, StoredName,
         ScanKept, IsDirectory, SlotsOf, NewDirBlock, TakesEntry, StoredNameFree, Fits83, Target;
    var l', d, c, k, e := MkdirState(v, l, path);
    if Fits83(ToUpper(NamePart(path))) {
      FittingNameIsFree(v, l, path);
    }
    FreeNameUnfound(v, l, path, d);
    AddedScans(l.dirs[d], l'.dirs[d], k, e);
    ParentKept(v, l, Mkdir(v, path).0, l', d, q);
  }

  /** Making a directory spares every file under another name or in another directory. */
  lemma MkdirSpares(v: Volume, l: Layout, path: seq<byte>, g: nat, m: seq<byte>) returns (l': Layout)
    requires Good(v, l) && v.Valid() && TakesEntry(v, path) && Mkdir(v, path).1.Ok? && g in l.dirs
    requires NamePart(path) != [] && (ParentDir(v, path) != Some(g) || m != StoredName(ToUpper(NamePart(path))))
    ensures var v' := Mkdir(v, path).0; Good(v', l') && v'.Valid() && FileKept(v, l, v', l', g, m)
  {
    hide Good, Mkdir, WalkDirs, FindFrom, Slots, Follow, FullNameUpper, Live, DirOk, EntryAdded, IsDirectory,
         FirstCluster, StoredName, SlotsOf, NewDirBlock, TakesEntry, Target;
    var d, c, k, e;
    l', d, c, k, e := MkdirState(v, l, path);
    AddedLookups(l.dirs[d], l'.dirs[d], k, e, m);
    FoundFileKept(v, l, Mkdir(v, path).0, l', g, m, d, d);
  }

  /** MAIN: making a directory leaves every file of the tree as it was, as long as its path still leads
      to its directory. */
  lemma MkdirKeepsFiles(v: Volume, l: Layout, path: seq<byte>, q: seq<byte>)
    requires Good(v, l) && v.Valid() && TakesEntry(v, path) && Mkdir(v, path).1.Ok?
    requires ParentDir(v, q).Some? && NamePart(path) != []
    requires ParentDir(v, q) != ParentDir(v, path) || ToUpper(NamePart(q)) != StoredName(ToUpper(NamePart(path)))
    ensures Mkdir(v, path).0.Valid()
    ensures ParentDir(Mkdir(v, path).0, q) == ParentDir(v, q) ==>
              ReadFileContent(Mkdir(v, path).0, q) == ReadFileContent(v, q)
  {
    hide Good, Mkdir, WalkDirs, ReadFileContent, TakesEntry, StoredName, FileKept;
    ParentInTree(v, l, q);
    var l' := MkdirSpares(v, l, path, ParentDir(v, q).value, ToUpper(NamePart(q)));
    if ParentDir(Mkdir(v, path).0, q) == ParentDir(v, q) {
      ReadKept(v, l, Mkdir(v, path).0, l', q);
    }
  }

  lemma EmptyListing(csz: nat, self: nat, parent: nat)
    requires csz >= 64 && csz % 32 == 0
    ensures Listing(SlotsOf(NewDirBlock(csz, self, parent)), 0) == []
  {
    NewDirSlots(csz, self, parent);
    DotEntryFields(1, self);
    DotEntryFields(2, parent);
    var s := SlotsOf(NewDirBlock(csz, self, parent));
    hide DotEntry, NewDirBlock, FullNameUpper, FullName, IsDotEntry, SlotsOf, IsDots;
    DotEntryIsDots(s[0]);
    DotEntryIsDots(s[1]);
    assert Listing(s, 2) == [];
    assert Listing(s, 1) == Listing(s, 2);
  }

  /** After a directory is made under a name that fits 8.3, its parent finds the new record. */
  lemma MkdirFound(v: Volume, l: Layout, path: seq<byte>) returns (l': Layout, d: nat, c: nat, k: nat)
    requires Good(v, l) && v.Valid() && TakesEntry(v, path) && Mkdir(v, path).1.Ok? && Fits83(ToUpper(NamePart(path)))
    ensures var v' := Mkdir(v, path).0;
            && v'.Valid() && Good(v', l') && v'.root == v.root && v'.csz == v.csz
            && NamePart(path) != [] && ParentDir(v, path) == Some(d) && ParentDir(v', path) == Some(d)
            && d in l'.dirs && FindFrom(l'.dirs[d], 0, ToUpper(NamePart(path))) == Some(k)
            && IsDirectory(l'.dirs[d][k]) && FirstCluster(l'.dirs[d][k]) == c
            && c in l'.dirs && l'.dirs[c] == SlotsOf(NewDirBlock(v.csz, c, d))
            && c != d && d in l.dirs
  {
    hide Good, Mkdir, WalkDirs, FindFrom, Slots, Follow, FullNameUpper, Live, DirOk, EntryAdded, IsDirectory,
         FirstCluster, StoredName, SlotsOf, NewDirBlock, Fits83, TakesEntry, Target;
    var e;
    l', d, c, k, e := MkdirState(v, l, path);
    var n := ToUpper(NamePart(path));
    FittingStored(n);
    MkdirParents(v, l, path, path);
    AddedLookups(l.dirs[d], l'.dirs[d], k, e, n);
    FittingNameIsFree(v, l, path);
    FreeNameUnfound(v, l, path, d);
  }

  lemma FittingStored(n: seq<byte>)
    requires n != [] && Fits83(n)
    ensures StoredName(n) == n
  {
    hide Fits83, FullNameUpper;
    Name83RoundTrip(Zeros(32), n);
  }

  /** MAIN: a directory made under a name that fits 8.3 is where its path then leads, and it is empty. */
  lemma MkdirThenResolve(v: Volume, l: Layout, path: seq<byte>)
    requires Good(v, l) && v.Valid() && TakesEntry(v, path) && Mkdir(v, path).1.Ok?
    requires Fits83(ToUpper(NamePart(path))) && NamePart(path) != [DOT, DOT]
    ensures var v' := Mkdir(v, path).0;
            && v'.Valid() && ResolvePath(v', path).Ok?
            && var c := ResolvePath(v', path).value;
               && EmptyDir(v', c) && DirListing(v', c) == []
  {
    hide Good, Mkdir, WalkDirs, FindFrom, Slots, Follow, FullNameUpper, Live, DirOk, IsDirectory, FirstCluster,
         SlotsOf, NewDirBlock, Fits83, ResolvePath, ResolveParent, Listing, TakesEntry, EmptyDir;
    var v' := Mkdir(v, path).0;
    var l', d, c, k := MkdirFound(v, l, path);
    var d' := AtParent(v', l', path);
    ParentCanonical(v', l', d);
    NotSkipped(NamePart(path));
    ResolveIsParentThenFind(v', path);
    StoredDirGood(v', l', c);
    EmptyListing(v.csz, c, d);
    NewDirSlots(v.csz, c, d);
    EmptyExactly(v', l', c);
  }

  lemma ParentCanonical(v: Volume, l: Layout, d: nat)
    requires Good(v, l) && v.Valid() && d in l.dirs
    ensures d in l.chains && InRange(l.chains[d], |v.data|) && Canonical(Slots(v.data, l.chains[d]))
  {
    hide Slots;
    StoredDirGood(v, l, d);
    GoodDirOk(v, l, d);
  }

  lemma NotSkipped(name: seq<byte>)
    requires name != [] && Fits83(ToUpper(name))
    ensures !SkippedComponent(name)
  {
    hide DotPos;
    var n := ToUpper(name);
    if name == [DOT] {
      assert n == [DOT];
      DotPosIn(n);
    }
  }
}
