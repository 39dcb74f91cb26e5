// The conditions on calls are exact: a call that returns Ok leaves a sound state if and only if it is
// harmless; for the other calls see Errors.dfy. What goes wrong otherwise is shown for every volume: a
// table splits into chains in one way, so a layout of the volume afterwards can only be the one the
// call would have needed.
module Exactness {
  import opened Wrappers
  import opened Bytes
  import opened Chains
  import opened Volumes
  import opened DirEntries
  import opened Directory
  import opened Paths
  import opened VfsSpec
  import opened Storage
  import opened Tree
  import opened Invariant
  import opened Operations
  import opened TreePaths
  import opened Runs

  // -- Two layouts of neighbouring volumes ------------------------------------------------------------

  /** Both records are live and claim the same chain as the same kind of thing. */
  ghost predicate SameClaim(e: DirEntry, e': DirEntry) {
    Live(e) && Live(e') && FirstCluster(e') == FirstCluster(e) && (IsDirectory(e') <==> IsDirectory(e))
  }

  /** Whatever is live afterwards claimed its chain before. */
  ghost predicate NoNewLive(slots: seq<DirEntry>, slots': seq<DirEntry>) {
    forall i: nat :: i < |slots'| && Live(slots'[i]) ==> i < |slots| && SameClaim(slots[i], slots'[i])
  }

  /** Whatever was live is there still. */
  ghost predicate LiveKept(slots: seq<DirEntry>, slots': seq<DirEntry>) {
    forall i: nat :: i < |slots| && Live(slots[i]) ==> i < |slots'| && slots'[i] == slots[i]
  }

  /** A layout can only have the chains the table shows, and the slots those chains hold. */
  lemma SameStorage(v: Volume, chains: map<nat, seq<nat>>, home: map<nat, nat>, dirs: map<nat, seq<DirEntry>>,
                    l: Layout)
    requires Stored(v, chains, home, dirs) && Good(v, l)
    ensures l.chains == chains
    ensures forall y :: y in dirs && y in l.dirs ==> l.dirs[y] == dirs[y]
  {
    hide FatOk, TreeOk;
    ChainsUnique(v.fat, chains, home, l.chains, l.home);
    forall y | y in dirs && y in l.dirs
      ensures l.dirs[y] == dirs[y]
    {
      assert DirAt(v, chains, y, dirs[y]) && DirAt(v, l.chains, y, l.dirs[y]);
    }
  }

  ghost predicate NothingNew(l: Layout, l': Layout) {
    forall g :: g in l.dirs && g in l'.dirs ==> NoNewLive(l.dirs[g], l'.dirs[g])
  }

  ghost predicate AllKept(l: Layout, l': Layout) {
    forall g :: g in l.dirs && g in l'.dirs ==> LiveKept(l.dirs[g], l'.dirs[g])
  }

  /** A chain other than the root's has its entry in a directory. */
  lemma OwnerEntry(v: Volume, l: Layout, x: nat) returns (g: nat, k: nat)
    requires Good(v, l) && x in l.chains && x != v.root
    ensures x in l.owner && l.owner[x] == (g, k) && LiveAt(l.dirs, g, k) && FirstCluster(l.dirs[g][k]) == x
    ensures IsDirectory(l.dirs[g][k]) <==> x in l.dirs
  {
    hide Stored, DirOk, Live, IsDirectory, FirstCluster, Rooted;
    assert OwnedAt(l.dirs, l.owner, x);
    g, k := l.owner[x].0, l.owner[x].1;
    LiveOwner(v, l, g, k);
  }

  /** When no live entry is new, directories afterwards were directories before. */
  lemma {:induction false} DirWasDir(v: Volume, l: Layout, v': Volume, l': Layout, rank: map<nat, nat>, y: nat)
    requires Good(v, l) && Good(v', l') && v'.root == v.root && Ranked(v.root, l'.dirs.Keys, l'.owner, rank)
    requires NothingNew(l, l') && y in l'.dirs
    ensures y in l.dirs
    decreases RankOf(rank, y)
  {
    hide Good, DirOk, Live, IsDirectory, FirstCluster;
    RootInTree(v, l);
    if y != v.root {
      DirIsHead(v', l', y);
      var g, k := OwnerEntry(v', l', y);
      assert OwnerLower(l'.owner, rank, y);
      DirWasDir(v, l, v', l', rank, g);
      assert NoNewLive(l.dirs[g], l'.dirs[g]);
      LiveOwner(v, l, g, k);
    }
  }

  lemma DirIsHead(v: Volume, l: Layout, y: nat)
    requires Good(v, l) && y in l.dirs
    ensures y in l.chains
  {
  }

  lemma GoodRanked(v: Volume, l: Layout) returns (rank: map<nat, nat>)
    requires Good(v, l)
    ensures Ranked(v.root, l.dirs.Keys, l.owner, rank)
  {
    hide Stored, DirOk;
    rank :| Ranked(v.root, l.dirs.Keys, l.owner, rank);
  }

  /** So every chain afterwards was there before, entered where it is entered now. */
  lemma HeadWasOwned(v: Volume, l: Layout, v': Volume, l': Layout, x: nat) returns (g: nat, k: nat)
    requires Good(v, l) && Good(v', l') && v'.root == v.root && NothingNew(l, l')
    requires x in l'.chains && x != v.root
    ensures x in l.chains && x in l.owner && l.owner[x] == (g, k) && g in l'.dirs
  {
    hide Good, DirOk, Live, IsDirectory, FirstCluster, Ranked;
    var rank := GoodRanked(v', l');
    g, k := OwnerEntry(v', l', x);
    DirWasDir(v, l, v', l', rank, g);
    assert NoNewLive(l.dirs[g], l'.dirs[g]);
    LiveOwner(v, l, g, k);
  }

  /** When no live entry is lost, directories before are directories afterwards. */
  lemma {:induction false} DirStays(v: Volume, l: Layout, v': Volume, l': Layout, rank: map<nat, nat>, y: nat)
    requires Good(v, l) && Good(v', l') && v'.root == v.root && Ranked(v.root, l.dirs.Keys, l.owner, rank)
    requires AllKept(l, l') && y in l.dirs
    ensures y in l'.dirs
    decreases RankOf(rank, y)
  {
    hide Good, DirOk, Live, IsDirectory, FirstCluster;
    RootInTree(v', l');
    if y != v.root {
      DirIsHead(v, l, y);
      var g, k := OwnerEntry(v, l, y);
      assert OwnerLower(l.owner, rank, y);
      DirStays(v, l, v', l', rank, g);
      assert LiveKept(l.dirs[g], l'.dirs[g]);
      LiveOwner(v', l', g, k);
    }
  }

  /** So every chain before is there afterwards. */
  lemma HeadStays(v: Volume, l: Layout, v': Volume, l': Layout, x: nat)
    requires Good(v, l) && Good(v', l') && v'.root == v.root && AllKept(l, l')
    requires x in l.chains
    ensures x in l'.chains
  {
    hide Good, DirOk, Live, IsDirectory, FirstCluster, Ranked;
    var rank := GoodRanked(v, l);
    if x == v.root {
      RootInTree(v', l');
      DirIsHead(v', l', x);
    } else {
      var g, k := OwnerEntry(v, l, x);
      DirStays(v, l, v', l', rank, g);
      assert LiveKept(l.dirs[g], l'.dirs[g]);
      LiveOwner(v', l', g, k);
    }
  }

  /** A volume has one layout, but for the names its bookkeeping gives to clusters outside the chains. */
  lemma LayoutUnique(v: Volume, l: Layout, l': Layout)
    requires Good(v, l) && Good(v, l')
    ensures l'.chains == l.chains && l'.dirs == l.dirs
  {
    hide TreeOk, FatOk;
    SameStorage(v, l.chains, l.home, l.dirs, l');
    SameLive(l, l');
    var rank := GoodRanked(v, l);
    var rank' := GoodRanked(v, l');
    hide Good, Ranked, AllKept;
    forall y | y in l.dirs
      ensures y in l'.dirs
    {
      DirStays(v, l, v, l', rank, y);
    }
    forall y | y in l'.dirs
      ensures y in l.dirs
    {
      DirStays(v, l', v, l, rank', y);
    }
  }

  lemma SameLive(l: Layout, l': Layout)
    requires forall y :: y in l.dirs && y in l'.dirs ==> l'.dirs[y] == l.dirs[y]
    ensures AllKept(l, l') && AllKept(l', l)
  {
  }

  // -- An entry that does not come to own its chain ---------------------------------------------------

  /** Any chain can be read as slots. */
  lemma StoredAlso(v: Volume, chains: map<nat, seq<nat>>, home: map<nat, nat>, dirs: map<nat, seq<DirEntry>>, d: nat)
    requires Stored(v, chains, home, dirs) && d in chains
    ensures InRange(chains[d], |v.data|) && Stored(v, chains, home, dirs[d := Slots(v.data, chains[d])])
    ensures d in dirs ==> dirs[d := Slots(v.data, chains[d])] == dirs
  {
    hide FatOk, Slots;
    StoredValid(v, chains, home, dirs);
    StoredFatOk(v, chains, home, dirs);
    ChainFacts(v.fat, chains, home, d);
    var dirs' := dirs[d := Slots(v.data, chains[d])];
    forall g | g in dirs'
      ensures DirAt(v, chains, g, dirs'[g])
    {
      if g != d {
        assert DirAt(v, chains, g, dirs[g]);
      }
    }
    if d in dirs {
      assert DirAt(v, chains, d, dirs[d]);
    }
  }

  /** A record that is not live adds nothing live. */
  lemma DeadEntry(slots: seq<DirEntry>, csz: nat, e: DirEntry)
    requires csz >= 64 && !Live(e)
    ensures NoNewLive(slots, WithEntry(slots, csz, e))
  {
    hide HoleFrom, SlotsOf, FreshDirBlock, Skipped, IsDotEntry;
    FreshDirSlots(csz, e);
    EndsNotLive();
  }

  lemma EndsNotLive()
    ensures forall e: DirEntry :: IsEnd(e) ==> !Live(e)
  {
  }

  /** `l1` is the layout of `v1`, which has one chain more than `v`, headed by `c` and not entered yet. */
  ghost predicate ChainMade(v: Volume, l: Layout, v1: Volume, l1: Layout, c: nat) {
    && Good(v, l) && v1.Valid() && v1.root == v.root
    && Stored(v1, l1.chains, l1.home, l1.dirs) && l1.dirs == l.dirs
    && c !in l.chains && l1.chains.Keys == l.chains.Keys + {c}
  }

  /** `add_entry` for it in a chain that is no directory, or by a record that is not live, or where
      there is no room, leaves a volume that is not well formed. */
  lemma EntryBreaks(v: Volume, l: Layout, v1: Volume, l1: Layout, d: nat, c: nat, e: DirEntry)
    requires ChainMade(v, l, v1, l1, c) && d in l.chains && InRange(l1.chains[d], |v1.fat|)
    requires AddEntry(v1, l1.chains[d], e).1.Ok?
    requires d !in l.dirs || !Live(e) || !RoomFor(l.dirs[d], |l1.chains[d]|)
    ensures !WellFormed(AddEntry(v1, l1.chains[d], e).0)
  {
    hide Good, AddEntry, Live, Slots, WithEntry, RoomFor, TreeOk, FatOk, IsChain;
    var cs, v' := l1.chains[d], AddEntry(v1, l1.chains[d], e).0;
    StoredAlso(v1, l1.chains, l1.home, l1.dirs, d);
    var slots := Slots(v1.data, cs);
    StoredFatOk(v1, l1.chains, l1.home, l1.dirs);
    forall l' | Good(v', l')
      ensures false
    {
      if RoomFor(slots, |cs|) {
        EntryOrphans(v, l, v1, l1, d, c, e, slots, l');
      } else {
        GoodFatOk(v', l');
        AddTooLong(v1, l1.chains, l1.home, d, e, l'.chains, l'.home);
      }
    }
  }

  lemma GoodFatOk(v: Volume, l: Layout)
    requires Good(v, l)
    ensures FatOk(v.fat, l.chains, l.home)
  {
  }

  lemma EntryOrphans(v: Volume, l: Layout, v1: Volume, l1: Layout, d: nat, c: nat, e: DirEntry, slots: seq<DirEntry>,
                     l': Layout)
    requires ChainMade(v, l, v1, l1, c) && d in l.chains && InRange(l1.chains[d], |v1.fat|)
             && AddEntry(v1, l1.chains[d], e).1.Ok?
    requires Stored(v1, l1.chains, l1.home, l1.dirs[d := slots]) && (d in l.dirs ==> l.dirs[d] == slots)
    requires d !in l.dirs || !Live(e)
    requires RoomFor(slots, |l1.chains[d]|)
    ensures !Good(AddEntry(v1, l1.chains[d], e).0, l')
  {
    hide Good, AddEntry, Live, Slots, WithEntry, RoomFor, TreeOk, FatOk, IsChain, NoNewLive, Stored;
    var dirs1 := l1.dirs[d := slots];
    StoredChain(v1, l1.chains, l1.home, dirs1, d);
    var chains', home' := AddStored(v1, l1.chains, l1.home, dirs1, d, e);
    var v' := AddEntry(v1, l1.chains[d], e).0;
    var dirs' := dirs1[d := WithEntry(slots, v1.csz, e)];
    if Good(v', l') {
      SameStorage(v', chains', home', dirs', l');
      forall g | g in l.dirs && g in l'.dirs
        ensures NoNewLive(l.dirs[g], l'.dirs[g])
      {
        if g == d {
          DeadEntry(slots, v1.csz, e);
        } else {
          SameNothingNew(l.dirs[g]);
        }
      }
      RootInTree(v, l);
      DirIsHead(v, l, v.root);
      var g, k := HeadWasOwned(v, l, v', l', c);
    }
  }

  lemma SameNothingNew(slots: seq<DirEntry>)
    ensures NoNewLive(slots, slots)
  {
  }

  // -- New files and directories ----------------------------------------------------------------------

  lemma NotStorableNotLive(n: seq<byte>, attributes: byte, cluster: nat, size: nat)
    requires n != [] && !Storable(n) && cluster < U32 && size < U32
    ensures !Live(NewEntry(n, attributes, cluster, size))
  {
    hide DotPos, IsDotEntry;
    var r := WithName83(Zeros(32), n);
    var a := WithAttributes(r, attributes);
    ClusterAndSize(a, cluster, size);
    var e := NewEntry(n, attributes, cluster, size);
    assert e[0] == e[..20][0] == a[..20][0] == r[0];
    assert r[0] == r[..8][0] == NameField(n)[0];
    assert n[0] != DOT && DotPos(n) > 0;
  }

  /** A new file's entry, in whatever chain is taken for its directory, is as it should be exactly when
      that chain is a directory of the volume, the name can be stored and there is room. */
  lemma FreshExact(v: Volume, l: Layout, d: nat, n: seq<byte>, data: seq<byte>)
    requires Good(v, l) && v.Valid() && d in l.chains && n != [] && NoLower(n)
    requires CreateFresh(v, d, n, data).1.Ok?
    ensures WellFormed(CreateFresh(v, d, n, data).0)
            <==> d in l.dirs && Storable(n) && RoomFor(l.dirs[d], |l.chains[d]|)
  {
    hide Good, Stored, FatOk, AddEntry, WriteNewFile, NewEntry, RoomFor, Live, IsChain, Follow, Storable, NoLower,
         NewChain;
    if d in l.dirs && Storable(n) && RoomFor(l.dirs[d], |l.chains[d]|) {
      var l', slots', k := FreshKeeps(v, l, d, n, data);
    } else {
      var l1, c := FileMade(v, l, data);
      var v1 := WriteNewFile(v, data).0;
      StoredChain(v1, l1.chains, l1.home, l1.dirs, d);
      ChainInRange(v1.fat, l1.chains[d]);
      var e := NewEntry(n, ATTR_ARCHIVE, c, |data| % U32);
      if !Storable(n) {
        NotStorableNotLive(n, ATTR_ARCHIVE, c, |data| % U32);
      }
      EntryBreaks(v, l, v1, l1, d, c, e);
    }
  }

  lemma FileMade(v: Volume, l: Layout, data: seq<byte>) returns (l1: Layout, c: nat)
    requires Good(v, l) && v.Valid() && WriteNewFile(v, data).1.Ok?
    ensures c == WriteNewFile(v, data).1.value && c < U32
    ensures ChainMade(v, l, WriteNewFile(v, data).0, l1, c)
    ensures forall d :: d in l.chains ==> l1.chains[d] == l.chains[d]
  {
    hide FatOk, TreeOk, WriteNewFile, NewChain, Rehome, Stored;
    NewFileStored(v, l.chains, l.home, l.dirs, data);
    c := WriteNewFile(v, data).1.value;
    var cs := NewChain(v, data);
    l1 := Layout(l.chains[c := cs], Rehome(l.home, c, cs), l.dirs, l.owner);
    StoredValid(WriteNewFile(v, data).0, l1.chains, l1.home, l1.dirs);
  }

  /** The same for a new directory. */
  lemma MakeDirExact(v: Volume, l: Layout, d: nat, n: seq<byte>)
    requires Good(v, l) && v.Valid() && d in l.chains && n != [] && NoLower(n)
    requires MakeDir(v, d, n).1.Ok?
    ensures WellFormed(MakeDir(v, d, n).0)
            <==> d in l.dirs && Storable(n) && RoomFor(l.dirs[d], |l.chains[d]|)
  {
    hide Good, Stored, FatOk, AddEntry, NewEntry, RoomFor, Live, IsChain, Follow, Storable, NoLower, FirstFree,
         NewDirBlock;
    if d in l.dirs && Storable(n) && RoomFor(l.dirs[d], |l.chains[d]|) {
      var l', slots', k, c := MakeDirKeeps(v, l, d, n);
    } else {
      var c := LowestFree(v.fat).value;
      var l1 := DirMade(v, l, d, c);
      var v1 := WithNewDir(v, c, d);
      StoredChain(v1, l1.chains, l1.home, l1.dirs, d);
      ChainInRange(v1.fat, l1.chains[d]);
      var e := NewEntry(n, ATTR_DIRECTORY, c, 0);
      if !Storable(n) {
        NotStorableNotLive(n, ATTR_DIRECTORY, c, 0);
      }
      EntryBreaks(v, l, v1, l1, d, c, e);
    }
  }

  lemma DirMade(v: Volume, l: Layout, d: nat, c: nat) returns (l1: Layout)
    requires Good(v, l) && v.Valid() && 2 <= c < |v.fat| && v.fat[c] == FREE
    ensures ChainMade(v, l, WithNewDir(v, c, d), l1, c)
    ensures forall g :: g in l.chains ==> l1.chains[g] == l.chains[g]
  {
    hide FatOk, TreeOk, Rehome, Stored, NewDirBlock, SlotsOf, IsChain;
    StoredFatOk(v, l.chains, l.home, l.dirs);
    FreeIsNoHead(v.fat, l.chains, l.home, c);
    var block := NewDirBlock(v.csz, c, d);
    StoredNewDir(v, l.chains, l.home, l.dirs, c, block);
    DirsAreHeads(v, l.chains, l.home, l.dirs);
    l1 := Layout(l.chains[c := [c]], Rehome(l.home, c, [c]), l.dirs, l.owner);
    StoredForget(WithNewDir(v, c, d), l1.chains, l1.home, l.dirs[c := SlotsOf(block)], c);
    assert l.dirs[c := SlotsOf(block)] - {c} == l.dirs;
    StoredValid(WithNewDir(v, c, d), l1.chains, l1.home, l1.dirs);
  }

  // -- Deleting ---------------------------------------------------------------------------------------

  /** A live record deleted, its chain freed: the volume is well formed exactly when the chain was no
      directory with entries. */
  lemma LiveRemovedExact(v: Volume, l: Layout, d: nat, n: seq<byte>, k: nat)
    requires Good(v, l) && d in l.dirs && FindFrom(l.dirs[d], 0, n) == Some(k) && !IsDotEntry(l.dirs[d][k])
    ensures LiveAt(l.dirs, d, k) && FirstCluster(l.dirs[d][k]) in l.chains
    ensures var h := FirstCluster(l.dirs[d][k]);
            WellFormed(Removed(v, l, d, k)) <==> (h in l.dirs ==> NothingLive(l.dirs[h]))
  {
    hide Good, FullNameUpper, IsDotEntry, Live, IsDirectory, FirstCluster, Removed, NothingLive;
    FoundIsLive(v, l, d, n, k);
    var h := FirstCluster(l.dirs[d][k]);
    if h in l.dirs ==> NothingLive(l.dirs[h]) {
      var l' := RemovedKeeps(v, l, d, n, k);
    } else {
      var i := SomethingLive(l.dirs[h]);
      forall l' | Good(Removed(v, l, d, k), l')
        ensures false
      {
        RemovedOrphans(v, l, d, k, i, l');
      }
    }
  }

  lemma SomethingLive(slots: seq<DirEntry>) returns (i: nat)
    requires !NothingLive(slots)
    ensures i < |slots| && Live(slots[i])
  {
    i :| 0 <= i < |slots| && Live(slots[i]);
  }

  /** What was entered in a directory deleted has no entry any more. */
  lemma RemovedOrphans(v: Volume, l: Layout, d: nat, k: nat, i: nat, l': Layout)
    requires Good(v, l) && LiveAt(l.dirs, d, k) && FirstCluster(l.dirs[d][k]) in l.chains
    requires LiveAt(l.dirs, FirstCluster(l.dirs[d][k]), i)
    ensures !Good(Removed(v, l, d, k), l')
  {
    hide Good, FullNameUpper, IsDotEntry, Live, IsDirectory, FirstCluster, Removed, Stored, NoNewLive;
    var v', h := Removed(v, l, d, k), FirstCluster(l.dirs[d][k]);
    RemovedStored(v, l, d, k);
    if Good(v', l') {
      RemovedSlots(v, l, d, k, l');
      LiveOwner(v, l, d, k);
      LiveOwner(v, l, h, i);
      var x := FirstCluster(l.dirs[h][i]);
      NotOwnEntry(v, l, h, i, d, k);
      var g, j := HeadWasOwned(v, l, v', l', x);
      DirIsHead(v', l', h);
    }
  }

  /** No directory holds its own entry. */
  lemma NotOwnEntry(v: Volume, l: Layout, h: nat, i: nat, d: nat, k: nat)
    requires Good(v, l) && LiveAt(l.dirs, h, i) && LiveAt(l.dirs, d, k) && FirstCluster(l.dirs[d][k]) == h
    ensures FirstCluster(l.dirs[h][i]) != h
  {
    hide Good, Live, IsDirectory, FirstCluster;
    LiveOwner(v, l, d, k);
    var rank := GoodRanked(v, l);
    assert OwnerLower(l.owner, rank, h);
    if FirstCluster(l.dirs[h][i]) == h {
      LiveOwner(v, l, h, i);
    }
  }

  /** The directories of a layout afterwards hold what they held, but for the record deleted. */
  lemma RemovedSlots(v: Volume, l: Layout, d: nat, k: nat, l': Layout)
    requires Good(v, l) && d in l.dirs && k < |l.dirs[d]| && FirstCluster(l.dirs[d][k]) in l.chains
    requires Good(Removed(v, l, d, k), l')
    ensures l'.chains == l.chains - {FirstCluster(l.dirs[d][k])}
    ensures NothingNew(l, l')
    ensures !Live(l.dirs[d][k]) ==> AllKept(l, l')
  {
    hide Good, Stored, FirstCluster, Removed, Skipped, IsDotEntry;
    var h := FirstCluster(l.dirs[d][k]);
    var dirs' := l.dirs[d := WithSlot(l.dirs[d], k, Tombstone(l.dirs[d][k]))] - {h};
    RemovedStored(v, l, d, k);
    SameStorage(Removed(v, l, d, k), l.chains - {h}, l.home, dirs', l');
    TombstoneNotLive(l.dirs[d][k]);
    forall g | g in l.dirs && g in l'.dirs
      ensures NoNewLive(l.dirs[g], l'.dirs[g]) && (!Live(l.dirs[d][k]) ==> LiveKept(l.dirs[g], l'.dirs[g]))
    {
      DirIsHead(Removed(v, l, d, k), l', g);
      assert g in dirs';
    }
  }

  /** A dot record deleted, the chain it names freed: the volume is well formed exactly when no chain
      went through that cluster. */
  lemma DotRemovedExact(v: Volume, l: Layout, path: seq<byte>, d: nat, k: nat)
    requires Good(v, l) && v.Valid() && ParentDir(v, path) == Some(d) && Delete(v, path).1.Ok?
    requires d in l.dirs && FindFrom(l.dirs[d], 0, ToUpper(NamePart(path))) == Some(k) && IsDotEntry(l.dirs[d][k])
    ensures WellFormed(Delete(v, path).0) <==> Idle(v.fat, FirstCluster(l.dirs[d][k]))
  {
    hide Good, FindFrom, FullNameUpper, IsDotEntry, Live, FirstCluster, Delete, WalkDirs, Idle, Slots, Follow;
    var h := FirstCluster(l.dirs[d][k]);
    var d' := AtParent(v, l, path);
    DeleteFinds(v, l, path, d);
    if Idle(v.fat, h) {
      var l' := IdleRemovedKeeps(v, l, path, d, k);
    } else {
      forall l' | Good(Delete(v, path).0, l')
        ensures false
      {
        if h in l.chains {
          DeleteIsRemoved(v, l, path, d, k);
          DotNotLive(l.dirs[d][k]);
          RemovedSlots(v, l, d, k, l');
          RemovedRoot(v, l, d, k);
          HeadStays(v, l, Delete(v, path).0, l', h);
        } else {
          DeleteCuts(v, l, path, d, k);
          GoodFatOk(Delete(v, path).0, l');
          CutDangles(v, l, h, Delete(v, path).0.fat, l');
        }
      }
    }
  }

  lemma DotNotLive(e: DirEntry)
    requires IsDotEntry(e)
    ensures !Live(e)
  {
  }

  lemma RemovedRoot(v: Volume, l: Layout, d: nat, k: nat)
    requires Good(v, l) && d in l.dirs && k < |l.dirs[d]| && FirstCluster(l.dirs[d][k]) in l.chains
    ensures Removed(v, l, d, k).root == v.root
  {
    hide Stored, TreeOk, FirstCluster;
    RemovedStored(v, l, d, k);
  }

  lemma DeleteCuts(v: Volume, l: Layout, path: seq<byte>, d: nat, k: nat)
    requires Good(v, l) && v.Valid() && ParentDir(v, path) == Some(d) && Delete(v, path).1.Ok? && NamePart(path) != []
    requires d in l.dirs && FindFrom(l.dirs[d], 0, ToUpper(NamePart(path))) == Some(k)
    requires !Idle(v.fat, FirstCluster(l.dirs[d][k]))
    ensures var h := FirstCluster(l.dirs[d][k]);
            && 2 <= h < |v.fat| && v.fat[h] != FREE && v.fat[h] != BAD
            && Readable(v.fat, h) && InRange(ChainOf(v.fat, h), |v.fat|)
            && Delete(v, path).0.fat == Free(v.fat, ChainOf(v.fat, h))
  {
    hide Good, FindFrom, FullNameUpper, FirstCluster, WalkDirs, Slots, SetSlot, Free;
    var h := FirstCluster(l.dirs[d][k]);
    var d' := AtParent(v, l, path);
    FreedIs(v, h);
    ReadableInTable(v.fat, h);
  }

  lemma ReadableInTable(fat: seq<nat>, h: nat)
    requires Readable(fat, h)
    ensures h >= 2 ==> h < |fat|
  {
  }

  /** Freeing the tail of a chain leaves the cluster before it leading to a free one. */
  lemma CutDangles(v: Volume, l: Layout, h: nat, fat': seq<nat>, l': Layout)
    requires Good(v, l) && v.Valid() && h !in l.chains && 2 <= h < |v.fat| && v.fat[h] != FREE && v.fat[h] != BAD
    requires Readable(v.fat, h) && InRange(ChainOf(v.fat, h), |v.fat|) && fat' == Free(v.fat, ChainOf(v.fat, h))
    ensures !FatOk(fat', l'.chains, l'.home)
  {
    hide Good, FatOk, Free, IsChain;
    GoodFatOk(v, l);
    var p := PointedAt(v.fat, l.chains, l.home, h);
    WalkAvoids(v.fat, l.chains, l.home, h, p);
    if FatOk(fat', l'.chains, l'.home) {
      NoDanglingLink(fat', l'.chains, l'.home, p);
    }
  }

  /** A used cluster that heads no chain is led to. */
  lemma PointedAt(fat: seq<nat>, chains: map<nat, seq<nat>>, home: map<nat, nat>, h: nat) returns (p: nat)
    requires FatOk(fat, chains, home) && h !in chains && 2 <= h < |fat| <= BAD && fat[h] != FREE && fat[h] != BAD
    ensures 2 <= p < |fat| && fat[p] == h
  {
    hide FatOk;
    if forall p :: 2 <= p < |fat| ==> fat[p] != h {
      UnlinkedIsHead(fat, chains, home, h);
    } else {
      p :| 2 <= p < |fat| && fat[p] == h;
    }
  }

  /** A walk from a cluster does not come back to the one before it; it holds the cluster itself. */
  lemma WalkAvoids(fat: seq<nat>, chains: map<nat, seq<nat>>, home: map<nat, nat>, h: nat, p: nat)
    requires FatOk(fat, chains, home) && 2 <= p < |fat| <= BAD && fat[p] == h && 2 <= h < |fat| && Readable(fat, h)
    ensures p !in ChainOf(fat, h) && h in ChainOf(fat, h)
  {
    hide FatOk, Follow;
    ReadableWalk(fat, h);
    var walk := ChainOf(fat, h);
    assert walk[0] == h;
    var g, j := NextInChain(fat, chains, home, p);
    ChainFacts(fat, chains, home, g);
    var cs := chains[g];
    TailWalk(fat, cs, j, walk);
    if p in walk {
      var i :| 0 <= i < |walk| && walk[i] == p;
      assert cs[j + i] == p;
      PrevOf(fat, cs, j, p);
    }
  }

  /** The walk from the `j`-th cluster of a chain is the chain from there on. */
  lemma TailWalk(fat: seq<nat>, cs: seq<nat>, j: nat, walk: seq<nat>)
    requires IsChain(fat, cs) && j < |cs| <= MAX_CHAIN && |fat| <= BAD && walk == ChainOf(fat, cs[j])
    ensures walk == cs[j..]
  {
    hide Follow;
    TailChain(fat, cs, j);
    ChainedIff(fat, cs[j..]);
  }

  lemma TailChain(fat: seq<nat>, cs: seq<nat>, j: nat)
    requires IsChain(fat, cs) && j < |cs|
    ensures IsChain(fat, cs[j..])
  {
    var tail := cs[j..];
    forall i: nat | i + 1 < |tail|
      ensures LinkAt(fat, tail, i)
    {
      assert LinkAt(fat, cs, j + i);
    }
  }

  /** The cluster that leads to position `j` of a chain stands right before it. */
  lemma PrevOf(fat: seq<nat>, cs: seq<nat>, j: nat, p: nat)
    requires IsChain(fat, cs) && 0 < j < |cs| && p in cs && 2 <= p < |fat| <= BAD && fat[p] == cs[j]
    ensures cs[j - 1] == p && p !in cs[j..]
  {
    var i :| 0 <= i < |cs| && cs[i] == p;
    if i + 1 < |cs| {
      PrevLink(fat, cs, i + 1);
    }
  }

  // -- Calls ------------------------------------------------------------------------------------------

  lemma SoundIsWellFormed(s: VfsState)
    requires Sound(s)
    ensures WellFormed(s.v)
  {
    hide Good, FdsOk, FdsNumbered;
    var l: Layout :| GoodState(s, l);
    assert Good(s.v, l);
  }

  /** MAIN: an Ok `delete` keeps the volume well formed if and only if the record found is a dot record
      that names no cluster in use, or a file, or a directory that holds nothing. */
  lemma DeleteExact(v: Volume, l: Layout, path: seq<byte>)
    requires Good(v, l) && v.Valid() && ParentDir(v, path).Some? && Delete(v, path).1.Ok?
    ensures Target(v, path).Some?
    ensures var e := Target(v, path).value;
            WellFormed(Delete(v, path).0)
            <==> if IsDotEntry(e) then Idle(v.fat, FirstCluster(e))
                 else IsDirectory(e) ==> EmptyDir(v, FirstCluster(e))
  {
    hide Good, FindFrom, FullNameUpper, IsDotEntry, Live, FirstCluster, IsDirectory, Delete, WalkDirs, Idle, Slots,
         Follow, EmptyDir, NothingLive;
    var d := AtParent(v, l, path);
    DeleteFinds(v, l, path, d);
    var n := ToUpper(NamePart(path));
    var k := FindFrom(l.dirs[d], 0, n).value;
    if IsDotEntry(l.dirs[d][k]) {
      DotRemovedExact(v, l, path, d, k);
    } else {
      FoundIsLive(v, l, d, n, k);
      LiveRemovedExact(v, l, d, n, k);
      DeleteIsRemoved(v, l, path, d, k);
      if IsDirectory(l.dirs[d][k]) {
        EmptyExactly(v, l, FirstCluster(l.dirs[d][k]));
      }
    }
  }

  /** A chain freed under a descriptor that may still write leaves the descriptor astray. */
  lemma AstrayFd(s: VfsState, chains: map<nat, seq<nat>>, home: map<nat, nat>, h: nat)
    requires FatOk(s.v.fat, chains, home) && |s.v.fat| <= BAD && h !in chains && !NotOpen(s.table, h)
    ensures !Sound(s)
  {
    hide FatOk, FdsNumbered, NotOpen, FdsOk;
    forall l | GoodState(s, l)
      ensures false
    {
      GoodFatOk(s.v, l);
      ChainsUnique(s.v.fat, chains, home, l.chains, l.home);
      OpenIsKept(l, s.table, h);
    }
  }

  lemma OpenIsKept(l: Layout, table: seq<FileDescriptor>, h: nat)
    requires FdsOk(l, table) && !NotOpen(table, h)
    ensures h in l.chains
  {
  }

  lemma DeleteOpenBreaks(s: VfsState, l: Layout, path: seq<byte>)
    requires GoodState(s, l) && s.v.Valid() && ParentDir(s.v, path).Some? && Delete(s.v, path).1.Ok?
    requires Target(s.v, path).Some? && !IsDotEntry(Target(s.v, path).value)
    requires !NotOpen(s.table, FirstCluster(Target(s.v, path).value))
    ensures !Sound(s.(v := Delete(s.v, path).0))
  {
    hide Good, FindFrom, FullNameUpper, IsDotEntry, Live, FirstCluster, IsDirectory, Delete, WalkDirs, Slots, Follow,
         NotOpen, FdsOk, FdsNumbered, Removed, FatOk, FreeSet, Sound;
    var d := AtParent(s.v, l, path);
    DeleteFinds(s.v, l, path, d);
    var n := ToUpper(NamePart(path));
    var k := FindFrom(l.dirs[d], 0, n).value;
    FoundIsLive(s.v, l, d, n, k);
    var h := FirstCluster(l.dirs[d][k]);
    DeleteIsRemoved(s.v, l, path, d, k);
    RemovedStored(s.v, l, d, k);
    var v' := Removed(s.v, l, d, k);
    StoredFat(v', l.chains - {h}, l.home, l.dirs[d := WithSlot(l.dirs[d], k, Tombstone(l.dirs[d][k]))] - {h});
    AstrayFd(s.(v := v'), l.chains - {h}, l.home, h);
  }

  lemma StoredFat(v: Volume, chains: map<nat, seq<nat>>, home: map<nat, nat>, dirs: map<nat, seq<DirEntry>>)
    requires Stored(v, chains, home, dirs)
    ensures v.Valid() && |v.fat| <= BAD && FatOk(v.fat, chains, home)
  {
  }

  /** MAIN: an Ok overwrite leaves a sound state if and only if the file is not open for writing, or
      its first cluster is handed out again. */
  lemma OverwriteExact(s: VfsState, l: Layout, path: seq<byte>, data: seq<byte>)
    requires GoodState(s, l) && s.v.Valid() && ParentDir(s.v, path).Some? && Target(s.v, path).Some?
    requires CreateFile(s.v, path, data).1.Ok?
    ensures var h := FirstCluster(Target(s.v, path).value);
            Sound(s.(v := CreateFile(s.v, path, data).0)) <==> NotOpen(s.table, h) || ReusesHead(s.v.fat, h)
  {
    hide Good, FindFrom, FullNameUpper, IsDotEntry, Live, FirstCluster, IsDirectory, WalkDirs, Slots, Follow,
         NotOpen, FdsOk, FdsNumbered, FatOk, Sound, ReusesHead, Overwrite, CreateFresh, WriteNewFile;
    var d := AtParent(s.v, l, path);
    var n := ToUpper(NamePart(path));
    var k := FindFrom(l.dirs[d], 0, n).value;
    var h := FirstCluster(l.dirs[d][k]);
    if NotOpen(s.table, h) || ReusesHead(s.v.fat, h) {
      var l' := OverwriteStep(s, l, path, data, d, k);
      SoundBy(s.(v := CreateFile(s.v, path, data).0), l');
    } else {
      var l', c := OverwriteKeeps(s.v, l, d, n, k, data);
      HeadInChain(s.v, l, d, k);
      ReusedExactly(s.v, h, data);
      var v' := CreateFile(s.v, path, data).0;
      GoodFatOk(v', l');
      GoodBound(v', l');
      AstrayFd(s.(v := v'), l'.chains, l'.home, h);
    }
  }

  lemma SoundBy(s: VfsState, l: Layout)
    requires GoodState(s, l)
    ensures Sound(s)
  {
  }

  lemma GoodBound(v: Volume, l: Layout)
    requires Good(v, l)
    ensures |v.fat| <= BAD
  {
  }

  /** A write that takes a chain past what `read_chain` follows. */
  lemma WriteTooLong(s: VfsState, l: Layout, fd: nat, data: seq<byte>)
    requires GoodState(s, l) && s.v.Valid() && WriteFd(s, fd, data).1.Ok? && Position(s.table, fd).Some?
    requires !StaysReadable(s.v, s.table[Position(s.table, fd).value], data)
    ensures !WellFormed(WriteFd(s, fd, data).0.v)
  {
    hide Good, FatOk, FdsNumbered, Follow, WriteClusters, ChainAfterWrite, UpdateSize, FullData, IsChain, FdsOk,
         UpdateFileSize, Needed;
    var i := Position(s.table, fd).value;
    var file := s.table[i];
    FdOnFile(l, s.table, i);
    GoodChain(s.v, l, file.cluster);
    var full := FullData(s.v, file, data);
    GoodFatOk(s.v, l);
    var v1 := WriteClusters(s.v, l.chains[file.cluster], full).0;
    var v' := WriteFd(s, fd, data).0.v;
    WriteClustersValid(s.v, l.chains[file.cluster], full);
    SizeKeepsTable(v1, file.path, Advanced(file, |data|).size);
    assert v'.fat == v1.fat;
    forall l' | Good(v', l')
      ensures false
    {
      GoodFatOk(v', l');
      LongerChain(s.v, l, file.cluster, full, l');
    }
  }

  lemma SizeKeepsTable(v: Volume, path: seq<byte>, size: nat)
    requires v.Valid() && size < U32
    ensures UpdateFileSize(v, path, size).0.fat == v.fat
  {
    hide ResolveParent, FindFrom, Slots, SetSlot, Follow;
  }

  lemma LongerChain(v: Volume, l: Layout, h: nat, full: seq<byte>, l': Layout)
    requires Good(v, l) && v.Valid() && h in l.chains && IsChain(v.fat, l.chains[h]) && l.chains[h][0] == h
    requires WriteClusters(v, l.chains[h], full).1.Ok?
    requires Needed(|full|, v.csz) > |l.chains[h]| >= MAX_CHAIN
    ensures !FatOk(WriteClusters(v, l.chains[h], full).0.fat, l'.chains, l'.home)
  {
    hide Good, FatOk, Follow, IsChain, Needed, WriteClusters, FirstFree, ChainChanged;
    GoodFatOk(v, l);
    ChainInRange(v.fat, l.chains[h]);
    WriteEffect(v, l.chains[h], full);
    var v1, cs := WriteClusters(v, l.chains[h], full).0, ChainAfterWrite(v, l.chains[h], full);
    GrownLonger(v, l.chains[h], full);
    ChangedTable(v, v1, l.chains[h], cs);
    TooLong(v.fat, l.chains, l.home, v1.fat, cs, l'.chains, l'.home);
  }

  lemma GrownLonger(v: Volume, existing: seq<nat>, full: seq<byte>)
    requires v.Valid() && existing != [] && InRange(existing, |v.fat|) && WriteClusters(v, existing, full).1.Ok?
    requires Needed(|full|, v.csz) > |existing|
    ensures var cs := ChainAfterWrite(v, existing, full); |cs| == |existing| + 1 && cs[0] == existing[0]
  {
  }

  lemma ChangedTable(v: Volume, v': Volume, old': seq<nat>, cs: seq<nat>)
    requires v.Valid() && ChainChanged(v, v', old', cs)
    ensures |v'.fat| == |v.fat| <= BAD && IsChain(v'.fat, cs)
    ensures forall c :: 2 <= c < |v.fat| && c !in cs ==> v'.fat[c] == v.fat[c]
  {
  }

  // -- Steps and runs ---------------------------------------------------------------------------------

  lemma CreateHarmful(s: VfsState, l: Layout, path: seq<byte>, data: seq<byte>)
    requires GoodState(s, l) && s.v.Valid() && ParentDir(s.v, path).Some? && CreateFile(s.v, path, data).1.Ok?
    requires !Harmless(s, CreateOp(path, data))
    ensures !Sound(s.(v := CreateFile(s.v, path, data).0))
  {
    hide Good, FindFrom, FirstCluster, WalkDirs, Slots, Follow, NotOpen, FdsOk, FdsNumbered, Sound, ReusesHead,
         Overwrite, CreateFresh, Storable, RoomFor, Room;
    if Target(s.v, path).Some? {
      OverwriteExact(s, l, path, data);
    } else {
      var d := AtParent(s.v, l, path);
      UpperClean(NamePart(path));
      RoomThere(s.v, l, d);
      FreshExact(s.v, l, d, ToUpper(NamePart(path)), data);
      NotSoundBy(s.(v := CreateFile(s.v, path, data).0));
    }
  }

  lemma NotSoundBy(s: VfsState)
    requires !WellFormed(s.v)
    ensures !Sound(s)
  {
    hide WellFormed, Sound;
    if Sound(s) {
      SoundIsWellFormed(s);
    }
  }

  lemma MkdirHarmful(s: VfsState, l: Layout, path: seq<byte>)
    requires GoodState(s, l) && s.v.Valid() && ParentDir(s.v, path).Some? && Mkdir(s.v, path).1.Ok?
    requires !Harmless(s, MkdirOp(path))
    ensures !Sound(s.(v := Mkdir(s.v, path).0))
  {
    hide Good, FindFrom, WalkDirs, Slots, Follow, FdsOk, FdsNumbered, Sound, MakeDir, Storable, RoomFor, Room;
    var d := AtParent(s.v, l, path);
    UpperClean(NamePart(path));
    RoomThere(s.v, l, d);
    MakeDirExact(s.v, l, d, ToUpper(NamePart(path)));
    NotSoundBy(s.(v := Mkdir(s.v, path).0));
  }

  lemma DeleteHarmful(s: VfsState, l: Layout, path: seq<byte>)
    requires GoodState(s, l) && s.v.Valid() && ParentDir(s.v, path).Some? && Delete(s.v, path).1.Ok?
    requires !Harmless(s, DeleteOp(path))
    ensures !Sound(s.(v := Delete(s.v, path).0))
  {
    hide Good, FindFrom, WalkDirs, Slots, Follow, FdsOk, FdsNumbered, Sound, Delete, IsDotEntry, IsDirectory,
         FirstCluster, Idle, EmptyDir, NotOpen, Target, WellFormed;
    DeleteExact(s.v, l, path);
    var e := Target(s.v, path).value;
    if !IsDotEntry(e) && !NotOpen(s.table, FirstCluster(e)) {
      DeleteOpenBreaks(s, l, path);
    } else {
      NotSoundBy(s.(v := Delete(s.v, path).0));
    }
  }

  lemma OpenHarmful(s: VfsState, l: Layout, path: seq<byte>, mode: FileMode)
    requires GoodState(s, l) && s.v.Valid() && Reached(s, OpenOp(path, mode)) && Open(s, path, mode).1.Ok?
    requires !Harmless(s, OpenOp(path, mode))
    ensures !Sound(Open(s, path, mode).0)
  {
    hide Good, FindFrom, WalkDirs, Slots, Follow, FdsOk, FdsNumbered, Sound, CreateFresh, Storable, RoomFor, Room,
         FirstCluster, IsDirectory, FileSize;
    var full := Canonicalize(s.cwd, path);
    var d := AtParent(s.v, l, full);
    UpperClean(NamePart(full));
    RoomThere(s.v, l, d);
    FreshExact(s.v, l, d, ToUpper(NamePart(full)), []);
    NotSoundBy(Open(s, path, mode).0);
  }

  /** MAIN: a call that reaches its parent through directories and returns Ok leaves a sound state if
      and only if it is harmless. */
  lemma StepExact(s: VfsState, op: Op)
    requires Sound(s) && s.v.Valid() && Reached(s, op) && Step(s, op).1
    ensures Sound(Step(s, op).0) <==> Harmless(s, op)
  {
    hide Good, FdsOk, FdsNumbered, Reached, Harmless, CreateFile, Mkdir, Delete, Open, WriteFd, Sound, StaysReadable;
    if Harmless(s, op) {
      StepKeeps(s, op);
    } else {
      var l := LayoutOf(s);
      StepHarmful(s, l, op);
    }
  }

  lemma LayoutOf(s: VfsState) returns (l: Layout)
    requires Sound(s)
    ensures GoodState(s, l)
  {
    hide GoodState;
    l :| GoodState(s, l);
  }

  lemma StepHarmful(s: VfsState, l: Layout, op: Op)
    requires GoodState(s, l) && s.v.Valid() && Reached(s, op) && Step(s, op).1 && !Harmless(s, op)
    ensures !Sound(Step(s, op).0)
  {
    hide GoodState, CreateFile, Mkdir, Delete, Open, WriteFd, Sound, StaysReadable, Target, ParentDir, TakesEntry,
         Idle;
    match op {
      case CreateOp(path, data) => CreateHarmful(s, l, path, data);
      case MkdirOp(path) => MkdirHarmful(s, l, path);
      case DeleteOp(path) => DeleteHarmful(s, l, path);
      case OpenOp(path, mode) => OpenHarmful(s, l, path, mode);
      case WriteOp(fd, data) =>
        WriteTooLong(s, l, fd, data);
        NotSoundBy(WriteFd(s, fd, data).0);
      case CloseOp(fd) =>
    }
  }

  /** Every call of the run reaches its parent through directories and returns Ok, and every state it
      passes is sound. */
  ghost predicate RunSound(s: VfsState, ops: seq<Op>)
    decreases |ops|
  {
    && Sound(s)
    && (ops != [] ==> s.v.Valid() && Reached(s, ops[0]) && Step(s, ops[0]).1 && RunSound(Step(s, ops[0]).0, ops[1..]))
  }

  /** MAIN: of the runs of such calls from a sound state, exactly those of harmless calls pass sound
      states only. */
  lemma {:induction false} RunExact(s: VfsState, ops: seq<Op>)
    requires Sound(s)
    ensures RunAllowed(s, ops) <==> RunSound(s, ops)
    decreases |ops|
  {
    hide Sound, Reached, Harmless, Step;
    if ops != [] && s.v.Valid() && Reached(s, ops[0]) && Step(s, ops[0]).1 {
      StepExact(s, ops[0]);
      if Sound(Step(s, ops[0]).0) {
        RunExact(Step(s, ops[0]).0, ops[1..]);
      }
    }
  }
}
