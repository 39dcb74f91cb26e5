// What `list_dir` and `stat` report, and how creating and deleting change it.
module Listings {
  import opened Wrappers
  import opened Bytes
  import opened Chains
  import opened Volumes
  import opened DirEntries
  import opened Directory
  import opened Paths
  import opened VfsSpec
  import opened Tree
  import opened Invariant
  import opened Operations
  import opened TreePaths
  import opened Runs
  import opened Contents
  import opened Rewrites
  import opened Directories

  // -- Listings of neighbouring directories -------------------------------------------------------------

  /** Slots that agree from `i` on, but for end marks behind the shorter list, list the same. */
  lemma {:induction false} SameListing(slots: seq<DirEntry>, slots': seq<DirEntry>, i: nat)
    requires |slots| <= |slots'| && forall j :: i <= j < |slots| ==> slots'[j] == slots[j]
    requires forall j :: |slots| <= j < |slots'| && i <= j ==> IsEnd(slots'[j])
    ensures Listing(slots', i) == Listing(slots, i)
    decreases |slots| - i
  {
    hide FullName;
    if i < |slots| && !IsEnd(slots[i]) {
      SameListing(slots, slots', i + 1);
    }
  }

  /** A new entry is listed once, among what was listed before. */
  lemma {:induction false} ListingAdded(slots: seq<DirEntry>, slots': seq<DirEntry>, k: nat, e: DirEntry, i: nat)
    returns (p: nat)
    requires DirOk(slots) && EntryAdded(slots, slots', k, e) && Live(e) && !IsDots(FullName(e)) && i <= k
    ensures p <= |Listing(slots, i)|
    ensures Listing(slots', i) == Listing(slots, i)[..p] + [InfoOf(e)] + Listing(slots, i)[p..]
    decreases k - i
  {
    hide FullName, IsDotEntry, Canonical;
    if i == k {
      p := 0;
      if k < |slots| && IsEnd(slots[k]) {
        NothingBehind(slots, slots', k);
      } else {
        SameListing(slots, slots', k + 1);
        assert Listing(slots, k) == Listing(slots, k + 1);
      }
    } else {
      assert i < |slots| && !IsEnd(slots[i]);
      p := ListingAdded(slots, slots', k, e, i + 1);
      if !Skipped(slots[i]) && !IsDots(FullName(slots[i])) {
        InsertBehind(InfoOf(slots[i]), Listing(slots, i + 1), p, InfoOf(e));
        p := p + 1;
      }
    }
  }

  lemma NothingBehind(slots: seq<DirEntry>, slots': seq<DirEntry>, k: nat)
    requires EndOk(slots) && k < |slots| <= |slots'| && IsEnd(slots[k])
    requires forall i :: 0 <= i < |slots| && i != k ==> slots'[i] == slots[i]
    requires forall i :: |slots| <= i < |slots'| ==> IsEnd(slots'[i])
    ensures Listing(slots, k) == [] && Listing(slots', k + 1) == []
  {
  }

  lemma InsertBehind<T>(x: T, a: seq<T>, p: nat, y: T)
    requires p <= |a|
    ensures [x] + (a[..p] + [y] + a[p..]) == ([x] + a)[..p + 1] + [y] + ([x] + a)[p + 1..]
  {
    assert ([x] + a)[..p + 1] == [x] + a[..p] && ([x] + a)[p + 1..] == a[p..];
  }

  /** An entry deleted is listed no more; everything else is. */
  lemma {:induction false} ListingRemoved(slots: seq<DirEntry>, k: nat, i: nat) returns (p: nat)
    requires i <= k < |slots| && forall j :: i <= j <= k ==> !IsEnd(slots[j])
    requires !Skipped(slots[k]) && !IsDots(FullName(slots[k]))
    ensures p < |Listing(slots, i)| && Listing(slots, i)[p] == InfoOf(slots[k])
    ensures Listing(WithSlot(slots, k, Tombstone(slots[k])), i) == Listing(slots, i)[..p] + Listing(slots, i)[p + 1..]
    decreases k - i
  {
    hide FullName;
    var slots' := WithSlot(slots, k, Tombstone(slots[k]));
    if i == k {
      p := 0;
      SameListing(slots, slots', k + 1);
    } else {
      p := ListingRemoved(slots, k, i + 1);
      if !Skipped(slots[i]) && !IsDots(FullName(slots[i])) {
        DropBehind(InfoOf(slots[i]), Listing(slots, i + 1), p);
        p := p + 1;
      }
    }
  }

  lemma DropBehind<T>(x: T, a: seq<T>, p: nat)
    requires p < |a|
    ensures [x] + (a[..p] + a[p + 1..]) == ([x] + a)[..p + 1] + ([x] + a)[p + 2..]
    ensures ([x] + a)[p + 1] == a[p]
  {
    assert ([x] + a)[..p + 1] == [x] + a[..p] && ([x] + a)[p + 2..] == a[p + 1..];
  }

  // -- list_dir ---------------------------------------------------------------------------------------

  /** Listing a parent directory gives a node for each entry of it that is shown. */
  lemma ListParent(v: Volume, l: Layout, path: seq<byte>, d: nat)
    requires Good(v, l) && v.Valid() && ParentDir(v, path) == Some(d)
    ensures d in l.dirs && ListDir(v, ParentPath(path)) == Ok(Nodes(Listing(l.dirs[d], 0)))
  {
    hide Good, WalkDirs, FindFrom, Slots, Follow, Listing, DirListing;
    var d' := AtParent(v, l, path);
    ListingInTree(v, l, d);
  }

  lemma NodesConcat(a: seq<DirEntryInfo>, b: seq<DirEntryInfo>)
    ensures Nodes(a + b) == Nodes(a) + Nodes(b)
  {
  }

  lemma NodesOne(info: DirEntryInfo)
    ensures Nodes([info]) == [VfsNode(info.name, info.isDir, info.size, info.cluster)]
  {
  }

  lemma NodesInserted(a: seq<DirEntryInfo>, p: nat, info: DirEntryInfo)
    requires p <= |a|
    ensures Nodes(a[..p] + [info] + a[p..])
            == Nodes(a)[..p] + [VfsNode(info.name, info.isDir, info.size, info.cluster)] + Nodes(a)[p..]
  {
    hide Nodes;
    NodesConcat(a[..p] + [info], a[p..]);
    NodesConcat(a[..p], [info]);
    NodesOne(info);
  }

  /** MAIN: after a file is made under a name that fits 8.3, its directory lists one node more: the name in
      lower case, no directory, with the length of the data and the first cluster. */
  lemma CreatedIsListed(v: Volume, l: Layout, path: seq<byte>, data: seq<byte>) returns (p: nat, c: nat)
    requires Good(v, l) && v.Valid() && TakesEntry(v, path) && Target(v, path).None? && |data| < U32
    requires CreateFile(v, path, data).1.Ok? && Fits83(ToUpper(NamePart(path))) && NamePart(path) != [DOT, DOT]
    ensures var v' := CreateFile(v, path, data).0;
            var before := ListDir(v, ParentPath(path));
            && v'.Valid() && before.Ok? && p <= |before.value|
            && Target(v', path).Some? && FirstCluster(Target(v', path).value) == c
            && ListDir(v', ParentPath(path))
               == Ok(before.value[..p] + [VfsNode(ToLower(ToUpper(NamePart(path))), false, |data|, c)]
                     + before.value[p..])
  {
    hide Good, CreateFile, WalkDirs, FindFrom, Slots, Follow, FullNameUpper, NewEntry, Live, DirOk, EntryAdded, NoLower,
         Listing, Fits83, TakesEntry, WriteNewFile, NewChain, Content, CreateFresh, InRange, IsDirectory, Nodes,
         FirstCluster, FileSize, ListDir;
    var l', d, k, e;
    l', d, c, k, e := FreshState(v, l, path, data);
    var v', n := CreateFile(v, path, data).0, ToUpper(NamePart(path));
    StorableByEntry(v, path);
    CreateParents(v, l, path, data, path);
    Name83RoundTrip(Zeros(32), n);
    UpperClean(NamePart(path));
    NewEntryFields(n, ATTR_ARCHIVE, c, |data|);
    DotsUpper(NamePart(path));
    FittingNoDots(n);
    p := ListingAdded(l.dirs[d], l'.dirs[d], k, e, 0);
    ListParent(v, l, path, d);
    ListParent(v', l', path, d);
    NodesInserted(Listing(l.dirs[d], 0), p, InfoOf(e));
    AddedLookups(l.dirs[d], l'.dirs[d], k, e, n);
    var d' := AtParent(v', l', path);
  }

  lemma FittingNoDots(n: seq<byte>)
    requires n != [] && Fits83(n) && n != [DOT, DOT]
    ensures !IsDots(ToLower(n))
  {
    hide Fits83, DotPos;
    DotsUpper(n);
    if n == [DOT] {
      DotPosIn(n);
      DotDoesNotFit(n);
    }
  }

  lemma DotDoesNotFit(n: seq<byte>)
    requires n == [DOT] && DotPos(n) == 0
    ensures !Fits83(n)
  {
    hide DotPos;
  }

  /** MAIN: so does a directory, listed as one, without a size. */
  lemma MadeIsListed(v: Volume, l: Layout, path: seq<byte>) returns (p: nat, c: nat)
    requires Good(v, l) && v.Valid() && TakesEntry(v, path)
    requires Mkdir(v, path).1.Ok? && Fits83(ToUpper(NamePart(path))) && NamePart(path) != [DOT, DOT]
    ensures var v' := Mkdir(v, path).0;
            var before := ListDir(v, ParentPath(path));
            && v'.Valid() && before.Ok? && p <= |before.value|
            && ListDir(v', ParentPath(path))
               == Ok(before.value[..p] + [VfsNode(ToLower(ToUpper(NamePart(path))), true, 0, c)] + before.value[p..])
  {
    hide Good, Mkdir, WalkDirs, FindFrom, Slots, Follow, FullNameUpper, NewEntry, Live, DirOk, EntryAdded, NoLower,
         Listing, Fits83, TakesEntry, InRange, IsDirectory, Nodes, FirstCluster, FileSize, ListDir, Target, SlotsOf,
         NewDirBlock;
    var l', d, k, e;
    l', d, c, k, e := MkdirState(v, l, path);
    var v', n := Mkdir(v, path).0, ToUpper(NamePart(path));
    MkdirParents(v, l, path, path);
    StorableByEntry(v, path);
    UpperClean(NamePart(path));
    NewEntryFields(n, ATTR_DIRECTORY, c, 0);
    FittingStored(n);
    DotsUpper(NamePart(path));
    FittingNoDots(n);
    p := ListingAdded(l.dirs[d], l'.dirs[d], k, e, 0);
    ListParent(v, l, path, d);
    ListParent(v', l', path, d);
    NodesInserted(Listing(l.dirs[d], 0), p, InfoOf(e));
  }

  /** MAIN: a file or an empty directory deleted is listed no more, and everything else is as before, as long as
      the path still leads to its directory. */
  lemma DeletedIsUnlisted(v: Volume, l: Layout, path: seq<byte>) returns (p: nat)
    requires Good(v, l) && v.Valid() && Removable(v, path) && !IsDots(NamePart(path))
    requires Delete(v, path).0.Valid() ==> ParentDir(Delete(v, path).0, path) == ParentDir(v, path)
    ensures Delete(v, path).0.Valid()
    ensures var before, e := ListDir(v, ParentPath(path)), Target(v, path);
            && before.Ok? && e.Some? && p < |before.value|
            && before.value[p]
               == VfsNode(FullName(e.value), IsDirectory(e.value), FileSize(e.value), FirstCluster(e.value))
            && ListDir(Delete(v, path).0, ParentPath(path)) == Ok(before.value[..p] + before.value[p + 1..])
  {
    hide Good, Delete, WalkDirs, FindFrom, Slots, Follow, FullNameUpper, Live, DirOk, Listing, InRange, IsDirectory,
         Nodes, FirstCluster, FileSize, ListDir, EmptyDir;
    var l', d, k, h;
    RemovableNamed(v, path);
    l', d, k, h := DeleteState(v, l, path);
    var d' := AtParent(v, l, path);
    FoundListed(l.dirs[d], k, NamePart(path));
    p := ListingRemoved(l.dirs[d], k, 0);
    ListParent(v, l, path, d);
    ListParent(Delete(v, path).0, l', path, d);
    NodesDropped(Listing(l.dirs[d], 0), p);
  }

  lemma NodesDropped(a: seq<DirEntryInfo>, p: nat)
    requires p < |a|
    ensures Nodes(a[..p] + a[p + 1..]) == Nodes(a)[..p] + Nodes(a)[p + 1..]
  {
  }

  /** What a scan finds under a name is shown, unless the name is "." or "..". */
  lemma FoundListed(slots: seq<DirEntry>, k: nat, n: seq<byte>)
    requires FindFrom(slots, 0, ToUpper(n)) == Some(k) && !IsDots(n)
    ensures !Skipped(slots[k]) && !IsDots(FullName(slots[k])) && forall j :: 0 <= j <= k ==> !IsEnd(slots[j])
  {
    hide FullNameUpper;
    DotsUpper(n);
    DotsUpper(FullNameUpper(slots[k]));
  }

  /** MAIN: what is listed first under a name is what the other calls find there: a directory exactly when
      reading it is refused as one, and a file otherwise, whose content is as long as the size listed. */
  lemma ListedMeans(v: Volume, l: Layout, path: seq<byte>, info: DirEntryInfo)
    requires Good(v, l) && v.Valid() && ParentDir(v, path).Some? && NamePart(path) != [] && !IsDots(NamePart(path))
    requires Readable(v.fat, ParentDir(v, path).value)
    requires LookUp(DirListing(v, ParentDir(v, path).value), NamePart(path)) == Some(info)
    ensures info.isDir <==> ReadFileContent(v, path) == Err(NotAFile)
    ensures !info.isDir ==> ReadFileContent(v, path).Ok? && |ReadFileContent(v, path).value| == info.size
    ensures Target(v, path).Some? && FirstCluster(Target(v, path).value) == info.cluster
  {
    hide Good, WalkDirs, FindFrom, Slots, Follow, FullNameUpper, FirstCluster, FileSize, IsDirectory, Listing, LookUp,
         Content, DirOk, IsDotEntry;
    var d := AtParent(v, l, path);
    ListingInTree(v, l, d);
    GoodDirOk(v, l, d);
    DirOkParts(l.dirs[d]);
    LookUpIsFind(l.dirs[d], 0, NamePart(path));
    var k := FindFrom(l.dirs[d], 0, ToUpper(NamePart(path))).value;
    if !IsDirectory(l.dirs[d][k]) {
      NotDot(l.dirs[d], k, ToUpper(NamePart(path)));
      FoundIsLive(v, l, d, ToUpper(NamePart(path)), k);
    }
  }

  // -- stat -------------------------------------------------------------------------------------------

  /** MAIN: `stat` of a path with a last name succeeds exactly when the path as it stands also resolves from the
      root, and its directory, taken from the working directory, has an entry of the name; it reports that
      entry, for a file the length of its content. */
  lemma StatMeans(s: VfsState, l: Layout, path: seq<byte>)
    requires Good(s.v, l) && s.v.Valid() && ParentDir(s.v, Canonicalize(s.cwd, path)).Some?
    requires NamePart(Canonicalize(s.cwd, path)) != []
    ensures var full := Canonicalize(s.cwd, path);
            var t := Target(s.v, full);
            && (Stat(s, path).Ok? <==> ResolvePath(s.v, path).Ok? && t.Some?)
            && (Stat(s, path).Ok? ==>
                  var node := Stat(s, path).value;
                  && node.path == full && node.isDir == IsDirectory(t.value) && node.cluster == FirstCluster(t.value)
                  && (node.isDir <==> ReadFileContent(s.v, full) == Err(NotAFile))
                  && (!node.isDir ==>
                        ReadFileContent(s.v, full).Ok? && |ReadFileContent(s.v, full).value| == node.size))
  {
    hide Good, WalkDirs, FindFrom, Slots, Follow, FirstCluster, FileSize, IsDirectory, Content, DirOk, IsDotEntry,
         FullNameUpper, ResolvePath, NamePart, Canonicalize;
    var full := Canonicalize(s.cwd, path);
    var d := AtParent(s.v, l, full);
    if Target(s.v, full).Some? && !IsDirectory(Target(s.v, full).value) {
      var k := FindFrom(l.dirs[d], 0, ToUpper(NamePart(full))).value;
      GoodDirOk(s.v, l, d);
      NotDot(l.dirs[d], k, ToUpper(NamePart(full)));
      FoundIsLive(s.v, l, d, ToUpper(NamePart(full)), k);
    }
  }

  /** From an absolute path the two resolutions are one: `stat` finds what is there. */
  lemma StatAbsolute(s: VfsState, l: Layout, path: seq<byte>)
    requires Good(s.v, l) && s.v.Valid() && path != [] && path[0] == SLASH && ParentDir(s.v, path).Some?
    requires !SkippedComponent(NamePart(path)) && NamePart(path) != [DOT, DOT]
    ensures Stat(s, path).Ok? <==> Target(s.v, path).Some?
  {
    hide Good, WalkDirs, FindFrom, Slots, Follow, ResolvePath, NamePart, Stat, ReadFileContent, FirstCluster,
         IsDirectory;
    StatMeans(s, l, path);
    var d := AtParent(s.v, l, path);
    ParentCanonical(s.v, l, d);
    ResolveIsParentThenFind(s.v, path);
  }

  /** A path without a last name is the directory it leads to. */
  lemma StatDirectory(s: VfsState, path: seq<byte>)
    requires s.v.Valid() && NamePart(Canonicalize(s.cwd, path)) == []
    requires ResolveParent(s.v, Canonicalize(s.cwd, path)).Ok?
    ensures var c := ResolvePath(s.v, path);
            Stat(s, path) == if c.Ok? then Ok(VfsNode(Canonicalize(s.cwd, path), true, 0, c.value)) else Err(c.error)
  {
    hide ResolvePath;
  }
}
