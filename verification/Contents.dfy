// What a reader sees after a file is created: the new file, and every other one.
module Contents {
  import opened Wrappers
  import opened Bytes
  import opened Chains
  import opened Volumes
  import opened DirEntries
  import opened Directory
  import opened Paths
  import opened VfsSpec
  import opened Tree
  import opened Invariant
  import opened Operations
  import opened TreePaths
  import opened Runs
  import opened Refinement

  /** The name a record made for `n` carries; `n` itself exactly when it fits 8.3. */
  function StoredName(n: seq<byte>): seq<byte>
    requires n != []
  {
    FullNameUpper(WithName83(Zeros(32), n))
  }

  /** No record of the parent directory already carries the name a new record would get. */
  predicate StoredNameFree(v: Volume, path: seq<byte>)
    requires v.Valid()
  {
    var d := ParentDir(v, path);
    var n := ToUpper(NamePart(path));
    n != [] && d.Some? && Readable(v.fat, d.value) &&
    (ReadableWalk(v.fat, d.value);
     FindEntry(v, ChainOf(v.fat, d.value), StoredName(n)).None?)
  }

  /** A name that fits 8.3 and is not there yet is free. */
  lemma FittingNameIsFree(v: Volume, l: Layout, path: seq<byte>)
    requires Good(v, l) && v.Valid() && ParentDir(v, path).Some? && Target(v, path).None?
    requires Fits83(ToUpper(NamePart(path)))
    ensures StoredNameFree(v, path)
  {
    hide Good, WalkDirs, FindFrom, Slots, Follow, FullNameUpper;
    var d := AtParent(v, l, path);
    Name83RoundTrip(Zeros(32), ToUpper(NamePart(path)));
  }

  // -- Slots after a creation -------------------------------------------------------------------------

  /** Adding a record under a free name keeps every scan that led to a directory. */
  lemma AddedScans(slots: seq<DirEntry>, slots': seq<DirEntry>, k: nat, e: DirEntry)
    requires DirOk(slots) && EntryAdded(slots, slots', k, e) && Live(e)
    requires FindFrom(slots, 0, FullNameUpper(e)).None?
    ensures forall m :: ScanKept(slots, slots', m)
    ensures FindFrom(slots', 0, FullNameUpper(e)) == Some(k)
  {
    hide FullNameUpper, FindFrom, IsDirectory, FirstCluster, IsDotEntry, Canonical;
    forall m
      ensures ScanKept(slots, slots', m)
    {
      AddedFind(slots, slots', k, e, m);
    }
    AddedFind(slots, slots', k, e, FullNameUpper(e));
  }

  /** Redirecting a file's record keeps every scan that led to a directory. */
  lemma RedirectedScans(slots: seq<DirEntry>, k: nat, e': DirEntry)
    requires k < |slots| && e'[..20] == slots[k][..20]
    requires !IsDirectory(slots[k]) || FirstCluster(e') == FirstCluster(slots[k])
    ensures forall m :: ScanKept(slots, WithSlot(slots, k, e'), m)
  {
    hide FullNameUpper, FindFrom, FirstCluster;
    SameFlags(slots[k], e');
    forall m
      ensures ScanKept(slots, WithSlot(slots, k, e'), m)
    {
      RedirectedFind(slots, k, e', m);
    }
  }

  // -- create_file, fresh branch --------------------------------------------------------------------

  lemma CreateIsFresh(v: Volume, l: Layout, path: seq<byte>, data: seq<byte>, d: nat)
    requires Good(v, l) && v.Valid() && ParentDir(v, path) == Some(d) && Target(v, path).None? && NamePart(path) != []
    ensures CreateFile(v, path, data).1.Ok? <==> CreateFresh(v, d, ToUpper(NamePart(path)), data).1.Ok?
    ensures CreateFile(v, path, data).0 == CreateFresh(v, d, ToUpper(NamePart(path)), data).0
  {
    hide Good, CreateFresh, Overwrite, WalkDirs, FindFrom, Slots, Follow;
    var d' := AtParent(v, l, path);
  }

  /** The state after a fresh creation, seen from the directories. */
  lemma FreshState(v: Volume, l: Layout, path: seq<byte>, data: seq<byte>)
    returns (l': Layout, d: nat, c: nat, k: nat, e: DirEntry)
    requires Good(v, l) && v.Valid() && TakesEntry(v, path) && Target(v, path).None?
    requires CreateFile(v, path, data).1.Ok?
    ensures NamePart(path) != [] && ParentDir(v, path) == Some(d) && d in l.dirs && d in l'.dirs
    ensures WriteNewFile(v, data).1.Ok?
    ensures var v', n := CreateFile(v, path, data).0, ToUpper(NamePart(path));
            && Good(v', l') && v'.Valid() && v'.root == v.root && v'.csz == v.csz
            && l'.dirs == l.dirs[d := l'.dirs[d]]
            && CreateFresh(v, d, n, data) == (v', Ok(c)) && c !in l.chains && c !in l'.dirs
            && k == EntrySlot(l.dirs[d])
            && EntryAdded(l.dirs[d], l'.dirs[d], k, e) && Live(e)
            && e == NewEntry(n, ATTR_ARCHIVE, c, |data| % U32) && c < U32
            && FullNameUpper(e) == StoredName(n)
            && FindFrom(l.dirs[d], 0, n).None?
            && DirOk(l.dirs[d])
            && OthersKept(v, v', l.chains, l'.chains, d, d)
            && c in l'.chains && InRange(l'.chains[c], |v'.data|) && l'.chains[c] == NewChain(v, data)
            && InRange(NewChain(v, data), |WriteNewFile(v, data).0.data|)
            && Content(v'.data, l'.chains[c]) == Content(WriteNewFile(v, data).0.data, NewChain(v, data))
  {
    hide Good, CreateFresh, WalkDirs, FindFrom, Slots, Follow, FullNameUpper, WriteNewFile, NewChain, Content,
         NewEntry, Live, DirOk, EntryAdded, InRange, NoLower, Room, HoleFrom;
    d := AtParent(v, l, path);
    var n := ToUpper(NamePart(path));
    UpperClean(NamePart(path));
    CreateIsFresh(v, l, path, data, d);
    RoomThere(v, l, d);
    var slots';
    l', slots', k := FreshKeeps(v, l, d, n, data);
    c := CreateFresh(v, d, n, data).1.value;
    e := NewEntry(n, ATTR_ARCHIVE, c, |data| % U32);
    NewEntryFields(n, ATTR_ARCHIVE, c, |data| % U32);
    GoodDirOk(v, l, d);
    HeadNotDir(v, l, c);
    GoodValid(CreateFile(v, path, data).0, l');
  }

  /** After a fresh creation under a name that fits, or whose stored form is free, every path through
      directories leads where it led. */
  lemma CreateParents(v: Volume, l: Layout, path: seq<byte>, data: seq<byte>, q: seq<byte>)
    requires Good(v, l) && v.Valid() && TakesEntry(v, path) && Target(v, path).None?
    requires Fits83(ToUpper(NamePart(path))) || StoredNameFree(v, path)
    requires CreateFile(v, path, data).1.Ok?
    ensures CreateFile(v, path, data).0.Valid()
    ensures ParentDir(v, q).Some? ==> ParentDir(CreateFile(v, path, data).0, q) == ParentDir(v, q)
  {
    hide Good, CreateFile, WalkDirs, FindFrom, Slots, Follow, FullNameUpper, WriteNewFile, NewChain, Content,
         NewEntry, Live, DirOk, EntryAdded, StoredName, ScanKept, IsDirectory, StoredNameFree, Fits83, TakesEntry,
         EntrySlot;
    var l', d, c, k, e := FreshState(v, l, path, data);
    if Fits83(ToUpper(NamePart(path))) {
      FittingNameIsFree(v, l, path);
    }
    FreeNameUnfound(v, l, path, d);
    AddedScans(l.dirs[d], l'.dirs[d], k, e);
    ParentKept(v, l, CreateFile(v, path, data).0, l', d, q);
  }

  lemma FreeNameUnfound(v: Volume, l: Layout, path: seq<byte>, d: nat)
    requires Good(v, l) && v.Valid() && ParentDir(v, path) == Some(d) && d in l.dirs && StoredNameFree(v, path)
    ensures NamePart(path) != [] && FindFrom(l.dirs[d], 0, StoredName(ToUpper(NamePart(path)))).None?
  {
    hide Good, WalkDirs, FindFrom, Slots, Follow, StoredName;
    var d' := AtParent(v, l, path);
  }

  /** MAIN, fresh branch: a name that fits 8.3 reads back as its data exactly when the data fits two
      clusters or is zero past the first; under a name that does not fit nothing is found, as long as
      the path still leads to its directory. */
  lemma CreateThenRead(v: Volume, l: Layout, path: seq<byte>, data: seq<byte>)
    requires Good(v, l) && v.Valid() && TakesEntry(v, path) && Target(v, path).None?
    requires CreateFile(v, path, data).1.Ok? && |data| < U32
    ensures CreateFile(v, path, data).0.Valid()
    ensures Fits83(ToUpper(NamePart(path))) ==>
              (ReadFileContent(CreateFile(v, path, data).0, path) == Ok(data)
               <==> |data| <= 2 * v.csz || ZeroFrom(data, v.csz))
    ensures !Fits83(ToUpper(NamePart(path))) && ParentDir(CreateFile(v, path, data).0, path) == ParentDir(v, path) ==>
              ReadFileContent(CreateFile(v, path, data).0, path) == Err(NotFound)
  {
    hide Good, CreateFile, WalkDirs, FindFrom, Slots, Follow, FullNameUpper, WriteNewFile, NewChain, Content,
         NewEntry, Live, DirOk, EntryAdded, IsDirectory, FirstCluster, FileSize, Fits83, ReadFileContent, NoLower,
         TakesEntry, EntrySlot, Target;
    var n, v' := ToUpper(NamePart(path)), CreateFile(v, path, data).0;
    var l', d, c, k, e := FreshState(v, l, path, data);
    Name83RoundTrip(Zeros(32), n);
    if Fits83(n) {
      CreateParents(v, l, path, data, path);
      CreateUnderStoredName(v, l, path, data, path);
      TargetNone(v, l, path, d, n);
    } else if ParentDir(v', path) == ParentDir(v, path) {
      ReadIsContentAt(v', l', path);
      AddedLookups(l.dirs[d], l'.dirs[d], k, e, n);
    }
  }

  lemma TargetNone(v: Volume, l: Layout, path: seq<byte>, d: nat, n: seq<byte>)
    requires Good(v, l) && v.Valid() && ParentDir(v, path) == Some(d) && d in l.dirs && FindFrom(l.dirs[d], 0, n).None?
    ensures !OlderFirst(v, d, n)
  {
    hide Good, FindFrom, Slots, Follow;
    StoredDirGood(v, l, d);
  }

  /** The directory at `cluster` has a record of the name before the first hole. */
  predicate OlderFirst(v: Volume, cluster: nat, name: seq<byte>)
    requires v.Valid()
  {
    Readable(v.fat, cluster) &&
    (ReadableWalk(v.fat, cluster);
     var slots := Slots(v.data, ChainOf(v.fat, cluster));
     var r := FindFrom(slots, 0, name);
     r.Some? && r.value < EntrySlot(slots))
  }

  /** MAIN, fresh branch: what is found afterwards under the stored, perhaps truncated, name. An older
      record of that name before the first hole still hides the new one; otherwise the new file is
      read, and any older record of the name is hidden. */
  lemma CreateUnderStoredName(v: Volume, l: Layout, path: seq<byte>, data: seq<byte>, q: seq<byte>)
    requires Good(v, l) && v.Valid() && TakesEntry(v, path) && Target(v, path).None?
    requires CreateFile(v, path, data).1.Ok? && |data| < U32
    requires NamePart(path) != [] && ToUpper(NamePart(q)) == StoredName(ToUpper(NamePart(path)))
    requires NamePart(q) != [] && ParentDir(v, q) == ParentDir(v, path)
    requires CreateFile(v, path, data).0.Valid() ==> ParentDir(CreateFile(v, path, data).0, q) == ParentDir(v, q)
    ensures CreateFile(v, path, data).0.Valid()
    ensures var after := ReadFileContent(CreateFile(v, path, data).0, q);
            if OlderFirst(v, ParentDir(v, q).value, ToUpper(NamePart(q))) then after == ReadFileContent(v, q)
            else after == Ok(data) <==> |data| <= 2 * v.csz || ZeroFrom(data, v.csz)
  {
    hide Good, CreateFile, WalkDirs, FindFrom, FullNameUpper, NewEntry, Live, DirOk, EntryAdded, ReadFileContent,
         TakesEntry, EntrySlot, Target, ContentAt, StoredName, OlderFirst, CreateFresh, WriteNewFile, NewChain,
         Content, FileKept;
    var m := ToUpper(NamePart(q));
    var l', d, c, k, e := FreshState(v, l, path, data);
    OlderThere(v, l, d, m);
    if OlderFirst(v, d, m) {
      OldRecordFound(v, l, CreateFile(v, path, data).0, l', d, k, e, m);
      ReadKept(v, l, CreateFile(v, path, data).0, l', q);
    } else {
      NewRecordRead(v, l, path, data, q, l', d, c, k, e);
    }
  }

  lemma OldRecordFound(v: Volume, l: Layout, v': Volume, l': Layout, d: nat, k: nat, e: DirEntry, m: seq<byte>)
    requires Good(v, l) && d in l.dirs && d in l'.dirs && OthersKept(v, v', l.chains, l'.chains, d, d)
    requires DirOk(l.dirs[d]) && EntryAdded(l.dirs[d], l'.dirs[d], k, e) && Live(e)
    requires var r := FindFrom(l.dirs[d], 0, m); r.Some? && r.value < k
    ensures FileKept(v, l, v', l', d, m)
  {
    hide Good, FindFrom, FullNameUpper, Live, DirOk, EntryAdded, IsDirectory, FirstCluster;
    AddedLookups(l.dirs[d], l'.dirs[d], k, e, m);
    FoundFileKept(v, l, v', l', d, m, d, d);
  }

  lemma NewRecordRead(v: Volume, l: Layout, path: seq<byte>, data: seq<byte>, q: seq<byte>,
                      l': Layout, d: nat, c: nat, k: nat, e: DirEntry)
    requires Good(v, l) && v.Valid() && TakesEntry(v, path) && CreateFile(v, path, data).1.Ok? && |data| < U32
    requires NamePart(path) != [] && NamePart(q) != [] && ToUpper(NamePart(q)) == StoredName(ToUpper(NamePart(path)))
    requires d in l.dirs && d in l'.dirs && DirOk(l.dirs[d]) && EntryAdded(l.dirs[d], l'.dirs[d], k, e) && Live(e)
             && c < U32
    requires e == NewEntry(ToUpper(NamePart(path)), ATTR_ARCHIVE, c, |data| % U32)
    requires FullNameUpper(e) == StoredName(ToUpper(NamePart(path)))
    requires var r := FindFrom(l.dirs[d], 0, ToUpper(NamePart(q))); !(r.Some? && r.value < k)
    requires var v' := CreateFile(v, path, data).0;
             && Good(v', l') && v'.Valid() && v'.csz == v.csz && ParentDir(v', q) == Some(d)
             && c in l'.chains && InRange(l'.chains[c], |v'.data|)
             && WriteNewFile(v, data).1.Ok? && InRange(NewChain(v, data), |WriteNewFile(v, data).0.data|)
             && Content(v'.data, l'.chains[c]) == Content(WriteNewFile(v, data).0.data, NewChain(v, data))
    ensures ReadFileContent(CreateFile(v, path, data).0, q) == Ok(data)
            <==> |data| <= 2 * v.csz || ZeroFrom(data, v.csz)
  {
    hide Good, CreateFile, WalkDirs, FindFrom, FullNameUpper, NewEntry, Live, DirOk, EntryAdded, ReadFileContent,
         TakesEntry, ContentAt, StoredName, WriteNewFile, NewChain, Content, IsDirectory, FirstCluster, FileSize,
         InRange, NoLower;
    var v', m := CreateFile(v, path, data).0, ToUpper(NamePart(q));
    ReadIsContentAt(v', l', q);
    AddedLookups(l.dirs[d], l'.dirs[d], k, e, m);
    UpperClean(NamePart(path));
    StorableByEntry(v, path);
    NewEntryFields(ToUpper(NamePart(path)), ATTR_ARCHIVE, c, |data| % U32);
    NewContent(v', l', d, m, e, data);
    CreateReadBack(v, data);
  }

  lemma StorableByEntry(v: Volume, path: seq<byte>)
    requires v.Valid() && TakesEntry(v, path)
    ensures Storable(ToUpper(NamePart(path))) && NamePart(path) != [] && ParentDir(v, path).Some?
  {
  }

  lemma OlderThere(v: Volume, l: Layout, d: nat, m: seq<byte>)
    requires Good(v, l) && v.Valid() && d in l.dirs
    ensures OlderFirst(v, d, m) <==> var r := FindFrom(l.dirs[d], 0, m); r.Some? && r.value < EntrySlot(l.dirs[d])
  {
    hide Good, FindFrom, Slots, Follow, EntrySlot;
    StoredDirGood(v, l, d);
  }

  /** The content of a file whose record `e` is found under `m`. */
  lemma NewContent(v: Volume, l: Layout, d: nat, m: seq<byte>, e: DirEntry, data: seq<byte>)
    requires d in l.dirs && FindFrom(l.dirs[d], 0, m).Some? && l.dirs[d][FindFrom(l.dirs[d], 0, m).value] == e
    requires !IsDirectory(e) && FileSize(e) == |data| && FirstCluster(e) in l.chains
    requires InRange(l.chains[FirstCluster(e)], |v.data|)
    ensures ContentAt(v, l, d, m) == Ok(data)
            <==> Window(Content(v.data, l.chains[FirstCluster(e)]), 0, |data|) == data
  {
    hide FindFrom, IsDirectory, FileSize, FirstCluster, Content;
  }

  lemma AddedLookups(slots: seq<DirEntry>, slots': seq<DirEntry>, k: nat, e: DirEntry, m: seq<byte>)
    requires DirOk(slots) && EntryAdded(slots, slots', k, e) && Live(e)
    ensures k < |slots'| && slots'[k] == e
    ensures var r := FindFrom(slots, 0, m);
            FindFrom(slots', 0, m) == if m == FullNameUpper(e) && !(r.Some? && r.value < k) then Some(k) else r
    ensures var r := FindFrom(slots, 0, m);
            r.Some? ==> r.value < |slots'| && slots'[r.value] == slots[r.value]
  {
    hide FullNameUpper, FindFrom, IsDotEntry, Canonical;
    AddedFind(slots, slots', k, e, m);
  }

  /** A fresh creation spares every file under another name or in another directory. */
  lemma CreateSpares(v: Volume, l: Layout, path: seq<byte>, data: seq<byte>, g: nat, m: seq<byte>) returns (l': Layout)
    requires Good(v, l) && v.Valid() && TakesEntry(v, path) && Target(v, path).None?
    requires CreateFile(v, path, data).1.Ok? && g in l.dirs
    requires NamePart(path) != [] && (ParentDir(v, path) != Some(g) || m != StoredName(ToUpper(NamePart(path))))
    ensures var v' := CreateFile(v, path, data).0; Good(v', l') && v'.Valid() && FileKept(v, l, v', l', g, m)
  {
    hide Good, CreateFile, WalkDirs, FindFrom, Slots, Follow, FullNameUpper, WriteNewFile, NewChain, Content,
         NewEntry, Live, DirOk, EntryAdded, IsDirectory, FirstCluster, FileSize, NoLower, StoredName, TakesEntry,
         EntrySlot, CreateFresh;
    var d, c, k, e;
    l', d, c, k, e := FreshState(v, l, path, data);
    AddedLookups(l.dirs[d], l'.dirs[d], k, e, m);
    FoundFileKept(v, l, CreateFile(v, path, data).0, l', g, m, d, d);
  }

  /** MAIN, fresh branch: every other file of the tree reads as before, as long as its path still leads
      to its directory. */
  lemma CreateKeepsOthers(v: Volume, l: Layout, path: seq<byte>, data: seq<byte>, q: seq<byte>)
    requires Good(v, l) && v.Valid() && TakesEntry(v, path) && Target(v, path).None?
    requires CreateFile(v, path, data).1.Ok?
    requires ParentDir(v, q).Some? && NamePart(path) != []
    requires ParentDir(v, q) != ParentDir(v, path) || ToUpper(NamePart(q)) != StoredName(ToUpper(NamePart(path)))
    ensures CreateFile(v, path, data).0.Valid()
    ensures ParentDir(CreateFile(v, path, data).0, q) == ParentDir(v, q) ==>
              ReadFileContent(CreateFile(v, path, data).0, q) == ReadFileContent(v, q)
  {
    hide Good, CreateFile, WalkDirs, ReadFileContent, TakesEntry, Target, StoredName, FileKept;
    ParentInTree(v, l, q);
    var l' := CreateSpares(v, l, path, data, ParentDir(v, q).value, ToUpper(NamePart(q)));
    if ParentDir(CreateFile(v, path, data).0, q) == ParentDir(v, q) {
      ReadKept(v, l, CreateFile(v, path, data).0, l', q);
    }
  }
}
