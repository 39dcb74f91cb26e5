// What create_file, mkdir, delete, open and write do to a well-formed volume.
module Operations {
  import opened Wrappers
  import opened Bytes
  import opened Chains
  import opened Volumes
  import opened DirEntries
  import opened Directory
  import opened Paths
  import opened VfsSpec
  import opened Storage
  import opened Tree
  import opened Invariant

  /** A name whose stored form is a visible entry: its first byte is neither the end marker nor the
      deletion mark. */
  predicate Storable(name: seq<byte>) { name != [] && name[0] != 0 && name[0] != DELETED }

  /** A directory without live entries. */
  ghost predicate NothingLive(slots: seq<DirEntry>) { forall i :: 0 <= i < |slots| ==> !Live(slots[i]) }

  /** The record made for a new file or directory. */
  lemma NewEntryFields(n: seq<byte>, attributes: byte, cluster: nat, size: nat)
    requires Storable(n) && NoLower(n) && cluster < U32 && size < U32
    requires attributes == ATTR_ARCHIVE || attributes == ATTR_DIRECTORY
    ensures var e := NewEntry(n, attributes, cluster, size);
            && Live(e) && FirstCluster(e) == cluster && FileSize(e) == size
            && (IsDirectory(e) <==> attributes == ATTR_DIRECTORY)
            && NoLower(FullNameUpper(e))
            && FullNameUpper(e) == FullNameUpper(WithName83(Zeros(32), n))
  {
    var r := WithName83(Zeros(32), n);
    var a := WithAttributes(r, attributes);
    var e := NewEntry(n, attributes, cluster, size);
    ClusterAndSize(a, cluster, size);
    assert e[..20] == a[..20];
    SameNameFields(r, e);
    assert e[11] == a[11] == attributes;
    NameFieldBytes(n);
    assert e[..8] == NameField(n);
    assert e[0] == NameField(n)[0];
  }

  lemma SameNameFields(r: DirEntry, e: DirEntry)
    requires forall i :: 0 <= i < 11 ==> e[i] == r[i]
    ensures FullNameUpper(e) == FullNameUpper(r)
    ensures e[..8] == r[..8]
  {
    assert e[..8] == r[..8] && e[8..11] == r[8..11];
  }

  /** Name fields hold no dot, so no new entry is taken for "." or "..". */
  lemma NameFieldBytes(n: seq<byte>)
    requires Storable(n) && NoLower(n)
    ensures NameField(n)[0] != 0 && NameField(n)[0] != DELETED
    ensures NameField(n) != Field([DOT], 8) && NameField(n) != Field([DOT, DOT], 8)
    ensures NoLower(FullNameUpper(WithName83(Zeros(32), n)))
  {
    hide Trim, DotPos, FullNameUpper;
    assert Field([DOT], 8)[0] == DOT && Field([DOT, DOT], 8)[0] == DOT;
    assert NameField(n)[0] == if DotPos(n) > 0 then n[0] else SPACE;
    StoredNameNoLower(n);
  }

  lemma StoredNameNoLower(n: seq<byte>)
    requires n != [] && NoLower(n)
    ensures NoLower(FullNameUpper(WithName83(Zeros(32), n)))
  {
    hide Trim, DotPos, Field, FullNameUpper;
    StoredFullName(Zeros(32), n);
    FieldNoLower(n[..DotPos(n)], 8);
    if DotPos(n) < |n| - 1 {
      FieldNoLower(n[DotPos(n) + 1..], 3);
    } else {
      FieldNoLower([], 3);
    }
  }

  lemma FieldNoLower(s: seq<byte>, width: nat)
    requires NoLower(s)
    ensures NoLower(Field(s, width)) && NoLower(Trim(Field(s, width)))
  {
  }

  // -- Creating a file ------------------------------------------------------------------------------

  /** After `allocate_and_write` the volume holds one chain more, not yet owned by an entry. */
  lemma NewFileStored(v: Volume, chains: map<nat, seq<nat>>, home: map<nat, nat>, dirs: map<nat, seq<DirEntry>>,
                      data: seq<byte>)
    requires Stored(v, chains, home, dirs) && WriteNewFile(v, data).1.Ok?
    ensures LowestFree(v.fat).Ok?
    ensures var v', c, cs := WriteNewFile(v, data).0, WriteNewFile(v, data).1.value, NewChain(v, data);
            && c !in chains && c < |v.fat|
            && cs != []
            && Stored(v', chains[c := cs], Rehome(home, c, cs), dirs)
            && OthersKept(v, v', chains, chains[c := cs], c, c)
            && v'.root == v.root && v'.csz == v.csz && |v'.fat| == |v.fat|
  {
    hide FatOk, ChainAt, Rehome, FirstFree, WriteClusters;
    var v', c, cs := WriteNewFile(v, data).0, WriteNewFile(v, data).1.value, NewChain(v, data);
    CreateEffect(v, data);
    assert 2 <= c < |v.fat| && v.fat[c] == FREE;
    FreeIsNoHead(v.fat, chains, home, c);
    DirsAreHeads(v, chains, home, dirs);
    hide WriteNewFile, NewChain, IsChain;
    NewMembersInRange(v, v', [], cs);
    StoredRechain(v, v', chains, home, dirs, c, cs);
    ConfinedChange(v, v', chains, chains[c := cs], home, c, cs);
  }

  /** `l1` is `l` with one chain more, headed by `c`, which is a directory without live entries when
      its entry `e` is to say so. */
  ghost predicate OneMore(l: Layout, l1: Layout, c: nat, e: DirEntry) {
    && c !in l.chains && l1.chains.Keys == l.chains.Keys + {c}
    && (if IsDirectory(e) then c in l1.dirs && l1.dirs == l.dirs[c := l1.dirs[c]] && DirOk(l1.dirs[c])
       && NothingLive(l1.dirs[c])
        else l1.dirs == l.dirs)
  }

  /** The entry for a chain just made completes the invariant again. */
  lemma EntryKeeps(l: Layout, v1: Volume, l1: Layout, d: nat, c: nat, e: DirEntry) returns (v': Volume, l': Layout)
    requires TreeOk(v1.root, l.chains.Keys, l.dirs, l.owner) && OneMore(l, l1, c, e)
    requires v1.Valid() && Stored(v1, l1.chains, l1.home, l1.dirs)
    requires Live(e) && NoLower(FullNameUpper(e)) && FirstCluster(e) == c
    requires d in l.dirs && d in l1.chains && RoomFor(l.dirs[d], |l1.chains[d]|) && IsChain(v1.fat, l1.chains[d])
    requires AddEntry(v1, l1.chains[d], e).1.Ok?
    ensures v' == AddEntry(v1, l1.chains[d], e).0 && Good(v', l')
    ensures v'.root == v1.root && v'.csz == v1.csz && |v'.fat| == |v1.fat|
    ensures EntryAdded(l.dirs[d], WithEntry(l.dirs[d], v1.csz, e), EntrySlot(l.dirs[d]), e)
    ensures l'.dirs == l1.dirs[d := WithEntry(l.dirs[d], v1.csz, e)] && l'.chains.Keys == l.chains.Keys + {c}
    ensures OthersKept(v1, v', l1.chains, l'.chains, d, d)
  {
    hide FatOk, ChainAt, Rehome, IsChain, InRange, NoDup, AddEntry, TreeOk, Stored, Live, IsDirectory, FirstCluster,
         NoLower, FullNameUpper, WithEntry, DirOk, NothingLive, HoleFrom;
    TreeDirOk(v1.root, l.chains.Keys, l.dirs, l.owner, d);
    AddedEntry(l.dirs[d], v1.csz, e);
    var slots', k := WithEntry(l.dirs[d], v1.csz, e), EntrySlot(l.dirs[d]);
    ChainInRange(v1.fat, l1.chains[d]);
    v' := AddEntry(v1, l1.chains[d], e).0;
    var chains', home' := AddStored(v1, l1.chains, l1.home, l1.dirs, d, e);
    l' := Layout(chains', home', l1.dirs[d := slots'], l.owner[c := (d, k)]);
    TreeAddAt(v1.root, l.chains.Keys, l.dirs, l.owner, d, slots', k, e, c, l'.dirs);
  }

  lemma TreeAddAt(root: nat, heads: set<nat>, dirs: map<nat, seq<DirEntry>>, owner: map<nat, (nat, nat)>,
                  d: nat, slots': seq<DirEntry>, k: nat, e: DirEntry, h: nat, dirs': map<nat, seq<DirEntry>>)
    requires TreeOk(root, heads, dirs, owner) && d in dirs && h !in heads
    requires EntryAdded(dirs[d], slots', k, e) && Live(e) && FirstCluster(e) == h
    requires IsDirectory(e) ==> h in dirs' && DirOk(dirs'[h]) && NothingLive(dirs'[h])
    requires dirs' == (if IsDirectory(e) then dirs[h := dirs'[h]] else dirs)[d := slots']
    ensures TreeOk(root, heads + {h}, dirs', owner[h := (d, k)])
  {
    hide DirOk, Live, IsDirectory, FirstCluster, EntryAdded;
    assert d != h by { TreeDirOk(root, heads, dirs, owner, d); }
    hide TreeOk;
    assert IsDirectory(e) ==> dirs' == dirs[d := slots'][h := dirs'[h]];
    TreeAdd(root, heads, dirs, owner, d, slots', k, e, h, dirs');
  }

  /** A new file, its chain and its entry. */
  lemma FreshKeeps(v: Volume, l: Layout, d: nat, n: seq<byte>, data: seq<byte>)
    returns (l': Layout, slots': seq<DirEntry>, k: nat)
    requires Good(v, l) && d in l.dirs && d in l.chains && RoomFor(l.dirs[d], |l.chains[d]|)
    requires Storable(n) && NoLower(n)
    requires CreateFresh(v, d, n, data).1.Ok?
    ensures WriteNewFile(v, data).1.Ok?
    ensures var (v', r) := CreateFresh(v, d, n, data);
            var c := r.value;
            && Good(v', l') && v'.root == v.root && v'.csz == v.csz
            && c < U32 && c !in l.chains
            && l'.dirs == l.dirs[d := slots']
            && k == EntrySlot(l.dirs[d])
            && EntryAdded(l.dirs[d], slots', k, NewEntry(n, ATTR_ARCHIVE, c, |data| % U32))
            && l'.chains.Keys == l.chains.Keys + {c}
            && OthersKept(v, v', l.chains, l'.chains, d, d)
            && l'.chains[c] == NewChain(v, data)
            && InRange(l'.chains[c], |v'.data|) && InRange(l'.chains[c], |WriteNewFile(v, data).0.data|)
            && Content(v'.data, l'.chains[c]) == Content(WriteNewFile(v, data).0.data, l'.chains[c])
  {
    hide FatOk, ChainAt, Rehome, IsChain, InRange, NoDup, AddEntry, WriteNewFile, NewChain, TreeOk, Stored, NewEntry,
         WithEntry, HoleFrom, Live, NoLower, FullNameUpper, IsDirectory, FirstCluster, DirOk, Follow;
    StoredValid(v, l.chains, l.home, l.dirs);
    NewFileStored(v, l.chains, l.home, l.dirs, data);
    var v1, c := WriteNewFile(v, data).0, WriteNewFile(v, data).1.value;
    var chains1, home1 := l.chains[c := NewChain(v, data)], Rehome(l.home, c, NewChain(v, data));
    StoredValid(v1, chains1, home1, l.dirs);
    StoredChain(v1, chains1, home1, l.dirs, d);
    StoredChain(v1, chains1, home1, l.dirs, c);
    var e := NewEntry(n, ATTR_ARCHIVE, c, |data| % U32);
    NewEntryFields(n, ATTR_ARCHIVE, c, |data| % U32);
    slots', k := WithEntry(l.dirs[d], v.csz, e), EntrySlot(l.dirs[d]);
    var v' := AddEntry(v1, chains1[d], e).0;
    assert CreateFresh(v, d, n, data) == (v', Ok(c));
    var v2;
    v2, l' := EntryKeeps(l, v1, Layout(chains1, home1, l.dirs, l.owner), d, c, e);
    OthersKeptTransitive(v, v1, v', l.chains, chains1, l'.chains, c, c, d, d, d, d);
    KeptContent(v1, v', chains1, l'.chains, c);
  }

  lemma StoredValid(v: Volume, chains: map<nat, seq<nat>>, home: map<nat, nat>, dirs: map<nat, seq<DirEntry>>)
    requires Stored(v, chains, home, dirs)
    ensures v.Valid()
  {
  }

  lemma TreeOfGood(v: Volume, l: Layout)
    requires Good(v, l)
    ensures TreeOk(v.root, l.chains.Keys, l.dirs, l.owner)
  {
  }

  lemma TreeDirOk(root: nat, heads: set<nat>, dirs: map<nat, seq<DirEntry>>, owner: map<nat, (nat, nat)>, d: nat)
    requires TreeOk(root, heads, dirs, owner) && d in dirs
    ensures DirOk(dirs[d]) && d in heads
  {
  }

  /** A kept chain holds the bytes it held. */
  lemma KeptContent(v: Volume, v': Volume, chains: map<nat, seq<nat>>, chains': map<nat, seq<nat>>, h: nat)
    requires h in chains && InRange(chains[h], |v.data|) && |v'.data| == |v.data|
    requires ChainKept(v, v', chains, chains', h)
    ensures h in chains' && chains'[h] == chains[h] && InRange(chains'[h], |v'.data|)
    ensures Content(v'.data, chains'[h]) == Content(v.data, chains[h])
  {
    ContentFrame(v.data, v'.data, chains[h]);
  }

  // -- Making a directory -----------------------------------------------------------------------------

  lemma DotEntryFields(dots: nat, cluster: nat)
    requires 1 <= dots <= 2
    ensures var e := DotEntry(dots, cluster);
            && !IsEnd(e) && !Skipped(e) && IsDotEntry(e) && IsDirectory(e) && NoLower(FullNameUpper(e))
  {
    var name := Field(seq(dots, _ => DOT), 8);
    var e := DotEntry(dots, cluster);
    assert dots == 1 ==> seq(dots, _ => DOT) == [DOT];
    assert dots == 2 ==> seq(dots, _ => DOT) == [DOT, DOT];
    assert e[..8] == name;
    assert e[8] == 0 && e[11] == ATTR_DIRECTORY;
    assert NoLower(name);
    TrimNoLower(name);
  }

  lemma TrimNoLower(s: seq<byte>)
    requires NoLower(s)
    ensures NoLower(Trim(s))
  {
  }

  /** A new directory holds its two dot records and end markers. */
  lemma NewDirSlots(csz: nat, self: nat, parent: nat)
    requires csz >= 64 && csz % 32 == 0
    ensures var s := SlotsOf(NewDirBlock(csz, self, parent));
            && |s| >= 2 && s[0] == DotEntry(1, self) && s[1] == DotEntry(2, parent)
            && (forall i :: 2 <= i < |s| ==> IsEnd(s[i]))
            && DirOk(s) && NothingLive(s)
  {
    hide FullNameUpper, IsDotEntry, IsDirectory, NoLower, Skipped, DirOk, NothingLive;
    var z := Zeros(csz);
    SpliceSlots(z, 0, DotEntry(1, self));
    SpliceSlots(Splice(z, 0, DotEntry(1, self)), 1, DotEntry(2, parent));
    DotEntryFields(1, self);
    DotEntryFields(2, parent);
    DotsThenEnds(SlotsOf(NewDirBlock(csz, self, parent)));
  }

  /** Two dot records and end markers are a directory that holds nothing. */
  lemma DotsThenEnds(s: seq<DirEntry>)
    requires |s| >= 2 && forall i :: 2 <= i < |s| ==> IsEnd(s[i])
    requires forall i :: 0 <= i < 2 ==>
               !IsEnd(s[i]) && IsDotEntry(s[i]) && IsDirectory(s[i]) && NoLower(FullNameUpper(s[i]))
    ensures DirOk(s) && NothingLive(s)
  {
    hide FullNameUpper, IsDotEntry, IsDirectory, NoLower;
  }

  /** The volume once the cluster of a new directory is marked and filled. */
  ghost function WithNewDir(v: Volume, c: nat, d: nat): Volume
    requires v.Valid() && c < |v.fat|
  {
    v.(fat := v.fat[c := EOC], data := v.data[c := NewDirBlock(v.csz, c, d)])
  }

  /** A new directory, its chain, its dot records and its entry. */
  lemma MakeDirKeeps(v: Volume, l: Layout, d: nat, n: seq<byte>)
    returns (l': Layout, slots': seq<DirEntry>, k: nat, c: nat)
    requires Good(v, l) && d in l.dirs && d in l.chains && RoomFor(l.dirs[d], |l.chains[d]|)
    requires Storable(n) && NoLower(n)
    requires MakeDir(v, d, n).1.Ok?
    ensures var v' := MakeDir(v, d, n).0;
            && Good(v', l') && v'.root == v.root && v'.csz == v.csz
            && c < U32 && c !in l.chains && c != d
            && l'.dirs == l.dirs[d := slots'][c := SlotsOf(NewDirBlock(v.csz, c, d))]
            && EntryAdded(l.dirs[d], slots', k, NewEntry(n, ATTR_DIRECTORY, c, 0))
            && l'.chains.Keys == l.chains.Keys + {c}
            && OthersKept(v, v', l.chains, l'.chains, d, d)
  {
    hide FatOk, ChainAt, IsChain, InRange, NoDup, AddEntry, TreeOk, Stored, NewEntry, FirstFree, NewDirBlock,
         SlotsOf, WithEntry, HoleFrom, Live, NoLower, FullNameUpper, IsDirectory, FirstCluster, DirOk, NothingLive,
         Follow, OneMore;
    StoredValid(v, l.chains, l.home, l.dirs);
    c := LowestFree(v.fat).value;
    var e := NewEntry(n, ATTR_DIRECTORY, c, 0);
    NewEntryFields(n, ATTR_DIRECTORY, c, 0);
    var v1 := WithNewDir(v, c, d);
    var l1 := NewDirStored(v, l, d, c, e);
    slots', k := WithEntry(l.dirs[d], v.csz, e), EntrySlot(l.dirs[d]);
    assert MakeDir(v, d, n).0 == AddEntry(v1, l.chains[d], e).0 && AddEntry(v1, l.chains[d], e).1.Ok?;
    var v';
    v', l' := EntryKeeps(l, v1, l1, d, c, e);
    OthersKeptTransitive(v, v1, v', l.chains, l1.chains, l'.chains, c, c, d, d, d, d);
  }

  /** The new directory before it has an entry: its chain is there and no other is touched. */
  lemma NewDirStored(v: Volume, l: Layout, d: nat, c: nat, e: DirEntry) returns (l1: Layout)
    requires Good(v, l) && v.Valid() && d in l.dirs && d in l.chains
    requires 2 <= c < |v.fat| && v.fat[c] == FREE && IsDirectory(e)
    ensures var v1 := WithNewDir(v, c, d);
            && v1.Valid() && Stored(v1, l1.chains, l1.home, l1.dirs)
            && d in l1.chains && l1.chains[d] == l.chains[d] && InRange(l.chains[d], |v1.fat|)
            && IsChain(v1.fat, l.chains[d])
            && Readable(v1.fat, d) && ChainOf(v1.fat, d) == l.chains[d]
            && OthersKept(v, v1, l.chains, l1.chains, c, c)
    ensures c != d && c !in l.chains && OneMore(l, l1, c, e)
            && l1.dirs == l.dirs[c := SlotsOf(NewDirBlock(v.csz, c, d))]
  {
    hide FatOk, ChainAt, Rehome, IsChain, TreeOk, SlotsOf, NewDirBlock, DirOk, Follow, IsDirectory, NothingLive,
         Stored;
    StoredFatOk(v, l.chains, l.home, l.dirs);
    FreeIsNoHead(v.fat, l.chains, l.home, c);
    var v1, block := WithNewDir(v, c, d), NewDirBlock(v.csz, c, d);
    StoredNewDir(v, l.chains, l.home, l.dirs, c, block);
    NewDirSlots(v.csz, c, d);
    l1 := Layout(l.chains[c := [c]], Rehome(l.home, c, [c]), l.dirs[c := SlotsOf(block)], l.owner);
    StoredValid(v1, l1.chains, l1.home, l1.dirs);
    StoredChain(v1, l1.chains, l1.home, l1.dirs, d);
    ChainInRange(v1.fat, l.chains[d]);
    ConfinedChange(v, v1, l.chains, l1.chains, l.home, c, [c]);
  }

  lemma StoredFatOk(v: Volume, chains: map<nat, seq<nat>>, home: map<nat, nat>, dirs: map<nat, seq<DirEntry>>)
    requires Stored(v, chains, home, dirs)
    ensures FatOk(v.fat, chains, home)
  {
  }

  // -- Finding an entry -------------------------------------------------------------------------------

  /** An entry found by name in a directory of the tree, and not one of its dot records, owns a chain. */
  lemma FoundIsLive(v: Volume, l: Layout, d: nat, n: seq<byte>, k: nat)
    requires Good(v, l) && d in l.dirs && FindFrom(l.dirs[d], 0, n) == Some(k) && !IsDotEntry(l.dirs[d][k])
    ensures LiveAt(l.dirs, d, k)
    ensures var e := l.dirs[d][k];
            var h := FirstCluster(e);
            && h in l.chains && h != v.root && (IsDirectory(e) <==> h in l.dirs)
            && h >= 2 && Chained(v.fat, h) && Readable(v.fat, h) && ChainOf(v.fat, h) == l.chains[h]
  {
    hide FatOk, ChainAt, FullNameUpper, IsDotEntry, DirOk;
    var h := FirstCluster(l.dirs[d][k]);
    assert LiveAt(l.dirs, d, k);
    assert EntryOk(v.root, l.chains.Keys, l.dirs, l.owner, d, k);
    StoredChain(v, l.chains, l.home, l.dirs, h);
    assert l.chains[h][0] == h;
  }

  /** A record whose first twenty bytes agree with another's is the same to every scan. */
  lemma SameFlags(e: DirEntry, e': DirEntry)
    requires e'[..20] == e[..20]
    ensures IsEnd(e') == IsEnd(e) && Skipped(e') == Skipped(e) && IsDirectory(e') == IsDirectory(e)
    ensures IsDotEntry(e') == IsDotEntry(e) && Live(e') == Live(e) && FullNameUpper(e') == FullNameUpper(e)
  {
    assert forall i :: 0 <= i < 20 ==> e'[i] == e'[..20][i] && e[i] == e[..20][i];
    assert e'[..8] == e[..8] && e'[8..11] == e[8..11];
  }

  lemma DirOkRedirected(slots: seq<DirEntry>, k: nat, e': DirEntry)
    requires DirOk(slots) && k < |slots| && !IsEnd(slots[k]) && !Skipped(slots[k]) && e'[..20] == slots[k][..20]
    ensures DirOk(WithSlot(slots, k, e'))
  {
    SameFlags(slots[k], e');
    hide FullNameUpper, NoLower, IsDotEntry, IsDirectory;
    DirOkWithSlot(slots, k, e');
  }

  // -- Overwriting a file ---------------------------------------------------------------------------

  /** A record redirected to the chain that now stands for the one it headed. */
  lemma RedirectKeeps(l: Layout, v: Volume, chains: map<nat, seq<nat>>, home: map<nat, nat>, d: nat, k: nat,
                      e': DirEntry)
    returns (v': Volume, l': Layout)
    requires TreeOk(v.root, l.chains.Keys, l.dirs, l.owner) && LiveAt(l.dirs, d, k) && e'[..20] == l.dirs[d][k][..20]
    requires Stored(v, chains, home, l.dirs) && v.Valid() && d in chains && InRange(chains[d], |v.data|)
    requires Slots(v.data, chains[d]) == l.dirs[d]
    requires var h, c := FirstCluster(l.dirs[d][k]), FirstCluster(e');
             && chains.Keys == l.chains.Keys - {h} + {c}
             && (c == h || (c !in l.chains && !IsDirectory(l.dirs[d][k])))
    ensures v' == v.(data := SetSlot(v.data, chains[d], k, e')) && v'.Valid()
    ensures Good(v', l') && l'.chains == chains && l'.dirs == l.dirs[d := WithSlot(l.dirs[d], k, e')]
    ensures OthersKept(v, v', chains, chains, d, d)
  {
    hide FatOk, ChainAt, IsChain, InRange, NoDup, TreeOk, Stored, SetSlot, Slots, IsDotEntry, FullNameUpper, Live,
         IsDirectory, FirstCluster, DirOk;
    var e, slots' := l.dirs[d][k], WithSlot(l.dirs[d], k, e');
    var h, c := FirstCluster(e), FirstCluster(e');
    TreeDirOk(v.root, l.chains.Keys, l.dirs, l.owner, d);
    SameFlags(e, e');
    LiveSeen(e);
    DirOkRedirected(l.dirs[d], k, e');
    TreeRedirect(v.root, l.chains.Keys, l.dirs, l.owner, d, k, e', slots');
    StoredSetSlot(v, chains, home, l.dirs, d, k, e');
    v' := v.(data := SetSlot(v.data, chains[d], k, e'));
    l' := Layout(chains, home, l.dirs[d := slots'], (l.owner - {h})[c := (d, k)]);
    StoredValid(v', chains, home, l'.dirs);
    StoredFatOk(v, chains, home, l.dirs);
    ChainFacts(v.fat, chains, home, d);
    SetSlotEffect(v.data, chains[d], k, e');
    ConfinedChange(v, v', chains, chains, home, d, chains[d]);
  }

  lemma LiveSeen(e: DirEntry)
    requires Live(e)
    ensures !IsEnd(e) && !Skipped(e)
  {
  }

  lemma OverwriteKeeps(v: Volume, l: Layout, d: nat, n: seq<byte>, k: nat, data: seq<byte>)
    returns (l': Layout, c: nat)
    requires Good(v, l) && d in l.dirs && FindFrom(l.dirs[d], 0, n) == Some(k) && !IsDirectory(l.dirs[d][k])
    requires Overwrite(v, d, n, l.dirs[d][k], data).1.Ok?
    ensures LiveAt(l.dirs, d, k) && Readable(v.fat, FirstCluster(l.dirs[d][k]))
    ensures WriteNewFile(Freed(v, FirstCluster(l.dirs[d][k])), data).1.Ok?
    ensures var e := l.dirs[d][k];
            var h, v' := FirstCluster(e), Overwrite(v, d, n, e, data).0;
            var v1 := Freed(v, h);
            && Good(v', l') && v'.root == v.root && v'.csz == v.csz
            && c == WriteNewFile(v1, data).1.value
            && c < U32 && c !in l.chains.Keys - {h} && h !in l.dirs
            && l'.dirs == l.dirs[d := WithSlot(l.dirs[d], k, WithFileSize(WithFirstCluster(e, c), |data| % U32))]
            && l'.chains.Keys == l.chains.Keys - {h} + {c}
            && OthersKept(v, v', l.chains, l'.chains, d, h)
            && v1.csz == v.csz
            && l'.chains[c] == NewChain(v1, data)
            && InRange(l'.chains[c], |v'.data|) && InRange(l'.chains[c], |WriteNewFile(v1, data).0.data|)
            && Content(v'.data, l'.chains[c]) == Content(WriteNewFile(v1, data).0.data, l'.chains[c])
  {
    hide FatOk, ChainAt, Rehome, IsChain, InRange, NoDup, WriteNewFile, NewChain, TreeOk, Stored, Free, SetSlot,
         Slots, Follow, IsDotEntry, FullNameUpper, Live, IsDirectory, FirstCluster, WithFileSize, WithFirstCluster,
         FindPast;
    StoredValid(v, l.chains, l.home, l.dirs);
    TreeDirOk(v.root, l.chains.Keys, l.dirs, l.owner, d);
    NotDot(l.dirs[d], k, n);
    FoundIsLive(v, l, d, n, k);
    var e := l.dirs[d][k];
    var h := FirstCluster(e);
    var chains1 := FileFreed(v, l, h);
    var v1 := Freed(v, h);
    NewFileStored(v1, chains1, l.home, l.dirs, data);
    var v2 := WriteNewFile(v1, data).0;
    c := WriteNewFile(v1, data).1.value;
    var chains2, home2 := chains1[c := NewChain(v1, data)], Rehome(l.home, c, NewChain(v1, data));
    StoredValid(v2, chains2, home2, l.dirs);
    StoredDir(v2, chains2, home2, l.dirs, d);
    StoredChain(v2, chains2, home2, l.dirs, c);
    var e' := WithFileSize(WithFirstCluster(e, c), |data| % U32);
    ClusterAndSize(e, c, |data| % U32);
    DirOkParts(l.dirs[d]);
    ScansAgree(l.dirs[d], 0, n);
    var v';
    v', l' := RedirectKeeps(l, v2, chains2, home2, d, k, e');
    assert Overwrite(v, d, n, e, data).0 == v';
    OthersKeptTransitive(v1, v2, v', chains1, chains2, chains2, c, c, d, d, d, d);
    OthersKeptTransitive(v, v1, v', l.chains, chains1, chains2, h, h, d, d, d, h);
    KeptContent(v2, v', chains2, chains2, c);
  }

  /** A file's chain freed: the rest of the volume is stored as it was. */
  lemma FileFreed(v: Volume, l: Layout, h: nat) returns (chains': map<nat, seq<nat>>)
    requires Good(v, l) && v.Valid() && h in l.chains && h !in l.dirs && Readable(v.fat, h)
    ensures chains' == l.chains - {h} && Stored(Freed(v, h), chains', l.home, l.dirs)
    ensures Freed(v, h).root == v.root && Freed(v, h).csz == v.csz && |Freed(v, h).fat| == |v.fat|
    ensures OthersKept(v, Freed(v, h), l.chains, chains', h, h)
  {
    hide FatOk, ChainAt, IsChain, InRange, NoDup, TreeOk, Stored, Free, Follow;
    StoredChain(v, l.chains, l.home, l.dirs, h);
    StoredFree(v, l.chains, l.home, l.dirs, h);
    StoredFatOk(v, l.chains, l.home, l.dirs);
    FreedIs(v, h);
    chains' := l.chains - {h};
    ConfinedChange(v, Freed(v, h), l.chains, chains', l.home, h, l.chains[h]);
  }

  lemma StoredDir(v: Volume, chains: map<nat, seq<nat>>, home: map<nat, nat>, dirs: map<nat, seq<DirEntry>>, d: nat)
    requires Stored(v, chains, home, dirs) && d in dirs
    ensures d in chains && IsChain(v.fat, chains[d]) && InRange(chains[d], |v.data|) && NoDup(chains[d])
    ensures Slots(v.data, chains[d]) == dirs[d]
    ensures Chained(v.fat, d) && Readable(v.fat, d) && ChainOf(v.fat, d) == chains[d]
  {
    assert DirAt(v, chains, d, dirs[d]);
    StoredChain(v, chains, home, dirs, d);
  }

  /** In a well-kept directory a found entry that is no directory is no dot record. */
  lemma NotDot(slots: seq<DirEntry>, k: nat, n: seq<byte>)
    requires DirOk(slots) && FindFrom(slots, 0, n) == Some(k) && !IsDirectory(slots[k])
    ensures !IsDotEntry(slots[k])
  {
  }

  // -- Deleting ---------------------------------------------------------------------------------------

  /** `v` after the record in slot `k` of directory `d` is marked deleted and the chain it names freed. */
  ghost function Removed(v: Volume, l: Layout, d: nat, k: nat): Volume
    requires Good(v, l) && d in l.dirs && k < |l.dirs[d]| && FirstCluster(l.dirs[d][k]) in l.chains
  {
    StoredDir(v, l.chains, l.home, l.dirs, d);
    var h := FirstCluster(l.dirs[d][k]);
    StoredChain(v, l.chains, l.home, l.dirs, h);
    v.(data := SetSlot(v.data, l.chains[d], k, Tombstone(l.dirs[d][k])), fat := Free(v.fat, l.chains[h]))
  }

  /** Whatever the record, the table stays a set of chains, one fewer, and no other is touched. */
  lemma RemovedStored(v: Volume, l: Layout, d: nat, k: nat)
    requires Good(v, l) && d in l.dirs && k < |l.dirs[d]| && FirstCluster(l.dirs[d][k]) in l.chains
    ensures var v', h := Removed(v, l, d, k), FirstCluster(l.dirs[d][k]);
            && v'.root == v.root && v'.csz == v.csz
            && Stored(v', l.chains - {h}, l.home, l.dirs[d := WithSlot(l.dirs[d], k, Tombstone(l.dirs[d][k]))] - {h})
            && OthersKept(v, v', l.chains, l.chains - {h}, d, h)
  {
    hide FatOk, ChainAt, IsChain, InRange, NoDup, TreeOk, Stored, Free, SetSlot, Slots, Follow, FirstCluster;
    var e := l.dirs[d][k];
    var h, t := FirstCluster(e), Tombstone(e);
    var dirs1 := l.dirs[d := WithSlot(l.dirs[d], k, t)];
    StoredValid(v, l.chains, l.home, l.dirs);
    StoredDir(v, l.chains, l.home, l.dirs, d);
    StoredFatOk(v, l.chains, l.home, l.dirs);
    StoredSetSlot(v, l.chains, l.home, l.dirs, d, k, t);
    var v1 := v.(data := SetSlot(v.data, l.chains[d], k, t));
    StoredForget(v1, l.chains, l.home, dirs1, h);
    StoredFree(v1, l.chains, l.home, dirs1 - {h}, h);
    var v', chains' := v1.(fat := Free(v1.fat, l.chains[h])), l.chains - {h};
    assert v' == Removed(v, l, d, k);
    StoredValid(v1, l.chains, l.home, dirs1);
    StoredValid(v', chains', l.home, dirs1 - {h});
    SetSlotEffect(v.data, l.chains[d], k, t);
    ConfinedChange(v, v1, l.chains, l.chains, l.home, d, l.chains[d]);
    ConfinedChange(v1, v', l.chains, chains', l.home, h, l.chains[h]);
    OthersKeptTransitive(v, v1, v', l.chains, l.chains, chains', d, d, h, h, d, h);
  }

  /** Removing a file or an empty directory keeps the invariant, frees exactly its chain, and
      touches no other chain. */
  lemma RemovedKeeps(v: Volume, l: Layout, d: nat, n: seq<byte>, k: nat) returns (l': Layout)
    requires Good(v, l) && d in l.dirs && FindFrom(l.dirs[d], 0, n) == Some(k) && !IsDotEntry(l.dirs[d][k])
    requires IsDirectory(l.dirs[d][k]) ==>
               var h := FirstCluster(l.dirs[d][k]); h in l.dirs && NothingLive(l.dirs[h])
    ensures LiveAt(l.dirs, d, k) && FirstCluster(l.dirs[d][k]) in l.chains
    ensures var h, v' := FirstCluster(l.dirs[d][k]), Removed(v, l, d, k);
            && h != d
            && Good(v', l') && v'.root == v.root && v'.csz == v.csz
            && l'.dirs == l.dirs[d := WithSlot(l.dirs[d], k, Tombstone(l.dirs[d][k]))] - {h}
            && l'.chains == l.chains - {h}
            && OthersKept(v, v', l.chains, l'.chains, d, h)
            && |FreeSet(v'.fat)| == |FreeSet(v.fat)| + |l.chains[h]|
  {
    hide FatOk, ChainAt, IsChain, InRange, NoDup, TreeOk, Stored, Free, SetSlot, Slots, Follow, IsDotEntry,
         FullNameUpper, Live, IsDirectory, FirstCluster, FreeSet;
    FoundIsLive(v, l, d, n, k);
    var e := l.dirs[d][k];
    var h, t := FirstCluster(e), Tombstone(e);
    var slots' := WithSlot(l.dirs[d], k, t);
    TreeDirOk(v.root, l.chains.Keys, l.dirs, l.owner, d);
    DirOkParts(l.dirs[d]);
    RemoveVisible(l.dirs[d], k, n);
    DirOkWithSlot(l.dirs[d], k, t);
    TreeRemove(v.root, l.chains.Keys, l.dirs, l.owner, d, k, slots');
    RemovedStored(v, l, d, k);
    l' := Layout(l.chains - {h}, l.home, l.dirs[d := slots'] - {h}, l.owner - {h});
    assert l'.chains.Keys == l.chains.Keys - {h};
    StoredFatOk(v, l.chains, l.home, l.dirs);
    ChainFacts(v.fat, l.chains, l.home, h);
    FreeCount(v.fat, l.chains[h]);
  }

  lemma StoredForget(v: Volume, chains: map<nat, seq<nat>>, home: map<nat, nat>, dirs: map<nat, seq<DirEntry>>, h: nat)
    requires Stored(v, chains, home, dirs)
    ensures Stored(v, chains, home, dirs - {h})
  {
    hide FatOk;
    forall d | d in dirs - {h}
      ensures DirAt(v, chains, d, (dirs - {h})[d])
    {
      assert DirAt(v, chains, d, dirs[d]);
    }
  }

  // -- Changing a size -------------------------------------------------------------------------------

  /** A record that owned nothing replaced by one that owns nothing. */
  lemma TreeUnowned(root: nat, heads: set<nat>, dirs: map<nat, seq<DirEntry>>, owner: map<nat, (nat, nat)>,
                    d: nat, k: nat, slots': seq<DirEntry>)
    requires TreeOk(root, heads, dirs, owner) && d in dirs && k < |dirs[d]| && |slots'| == |dirs[d]|
    requires forall i :: 0 <= i < |slots'| && i != k ==> slots'[i] == dirs[d][i]
    requires !Live(dirs[d][k]) && !Live(slots'[k]) && DirOk(slots')
    ensures TreeOk(root, heads, dirs[d := slots'], owner)
  {
    hide DirOk, Live, IsDirectory, FirstCluster, Rooted;
    var dirs' := dirs[d := slots'];
    assert dirs'.Keys == dirs.Keys;
    forall g: nat, i: nat | LiveAt(dirs', g, i)
      ensures EntryOk(root, heads, dirs', owner, g, i)
    {
      assert LiveAt(dirs, g, i);
      assert EntryOk(root, heads, dirs, owner, g, i);
    }
    forall x | x in heads && x != root
      ensures OwnedAt(dirs', owner, x)
    {
      assert OwnedAt(dirs, owner, x);
    }
  }

  lemma UpdateSizeKeeps(v: Volume, l: Layout, d: nat, n: seq<byte>, size: nat) returns (l': Layout)
    requires Good(v, l) && d in l.dirs && size < U32
    ensures d in l.chains && InRange(l.chains[d], |v.data|) && v.Valid()
    ensures var v' := UpdateSize(v, l.chains[d], n, size);
            var k := FindFrom(l.dirs[d], 0, n);
            && Good(v', l') && v'.root == v.root && v'.csz == v.csz && v'.fat == v.fat
            && l'.chains == l.chains
            && l'.dirs == (if k.None? then l.dirs
                           else l.dirs[d := WithSlot(l.dirs[d], k.value, WithFileSize(l.dirs[d][k.value], size))])
            && OthersKept(v, v', l.chains, l.chains, d, d)
  {
    hide FatOk, ChainAt, IsChain, InRange, NoDup, TreeOk, Stored, SetSlot, Slots, Follow, IsDotEntry, FullNameUpper,
         Live, IsDirectory, FirstCluster, WithFileSize;
    StoredValid(v, l.chains, l.home, l.dirs);
    StoredDir(v, l.chains, l.home, l.dirs, d);
    StoredFatOk(v, l.chains, l.home, l.dirs);
    var found := FindFrom(l.dirs[d], 0, n);
    if found.None? {
      l' := l;
      ConfinedChange(v, v, l.chains, l.chains, l.home, d, l.chains[d]);
    } else {
      var k := found.value;
      var e := l.dirs[d][k];
      var e' := WithFileSize(e, size);
      var slots' := WithSlot(l.dirs[d], k, e');
      ClusterAndSize(e, 0, size);
      assert e'[..20] == e'[..28][..20] == e[..20];
      SameFlags(e, e');
      TreeDirOk(v.root, l.chains.Keys, l.dirs, l.owner, d);
      DirOkRedirected(l.dirs[d], k, e');
      var v' := v.(data := SetSlot(v.data, l.chains[d], k, e'));
      assert UpdateSize(v, l.chains[d], n, size) == v';
      if Live(e) {
        var h := FirstCluster(e);
        LiveOwner(v, l, d, k);
        assert l.chains.Keys - {h} + {h} == l.chains.Keys;
        var v1;
        v1, l' := RedirectKeeps(l, v, l.chains, l.home, d, k, e');
      } else {
        UnownedKeeps(v, l, d, k, e');
        l' := l.(dirs := l.dirs[d := slots']);
      }
    }
  }

  lemma LiveOwner(v: Volume, l: Layout, d: nat, k: nat)
    requires Good(v, l) && LiveAt(l.dirs, d, k)
    ensures FirstCluster(l.dirs[d][k]) in l.chains && FirstCluster(l.dirs[d][k]) != v.root
    ensures FirstCluster(l.dirs[d][k]) in l.owner && l.owner[FirstCluster(l.dirs[d][k])] == (d, k)
    ensures IsDirectory(l.dirs[d][k]) <==> FirstCluster(l.dirs[d][k]) in l.dirs
  {
    hide Stored, DirOk, Live, IsDirectory, FirstCluster, Rooted;
    assert EntryOk(v.root, l.chains.Keys, l.dirs, l.owner, d, k);
  }

  /** A dot record, or any other that owns nothing, replaced by one that owns nothing. */
  lemma UnownedKeeps(v: Volume, l: Layout, d: nat, k: nat, e': DirEntry)
    requires Good(v, l) && d in l.dirs && k < |l.dirs[d]| && !Live(l.dirs[d][k]) && !Live(e')
    requires DirOk(WithSlot(l.dirs[d], k, e'))
    ensures d in l.chains && InRange(l.chains[d], |v.data|) && k < |Slots(v.data, l.chains[d])|
    ensures var v' := v.(data := SetSlot(v.data, l.chains[d], k, e'));
            && Good(v', l.(dirs := l.dirs[d := WithSlot(l.dirs[d], k, e')])) && v'.Valid()
            && OthersKept(v, v', l.chains, l.chains, d, d)
  {
    hide FatOk, ChainAt, IsChain, InRange, NoDup, TreeOk, Stored, SetSlot, Slots, Live, DirOk;
    StoredValid(v, l.chains, l.home, l.dirs);
    StoredDir(v, l.chains, l.home, l.dirs, d);
    StoredFatOk(v, l.chains, l.home, l.dirs);
    var slots' := WithSlot(l.dirs[d], k, e');
    StoredSetSlot(v, l.chains, l.home, l.dirs, d, k, e');
    TreeUnowned(v.root, l.chains.Keys, l.dirs, l.owner, d, k, slots');
    var v' := v.(data := SetSlot(v.data, l.chains[d], k, e'));
    StoredValid(v', l.chains, l.home, l.dirs[d := slots']);
    SetSlotEffect(v.data, l.chains[d], k, e');
    ConfinedChange(v, v', l.chains, l.chains, l.home, d, l.chains[d]);
  }

  // -- Writing file data ------------------------------------------------------------------------------

  lemma WriteKeeps(v: Volume, l: Layout, h: nat, payload: seq<byte>) returns (l': Layout)
    requires Good(v, l) && h in l.chains && h !in l.dirs
    requires v.Valid() && IsChain(v.fat, l.chains[h]) && WriteClusters(v, l.chains[h], payload).1.Ok?
    requires |ChainAfterWrite(v, l.chains[h], payload)| <= MAX_CHAIN
    ensures var v', cs := WriteClusters(v, l.chains[h], payload).0, ChainAfterWrite(v, l.chains[h], payload);
            && Good(v', l') && v'.root == v.root && v'.csz == v.csz
            && l'.dirs == l.dirs && l'.chains == l.chains[h := cs]
            && OthersKept(v, v', l.chains, l'.chains, h, h)
  {
    hide FatOk, ChainAt, NoDup, TreeOk, Stored, Slots, Rehome, FirstFree, InRange;
    var cs := ChainAfterWrite(v, l.chains[h], payload);
    WriteEffect(v, l.chains[h], payload);
    var v' := WriteClusters(v, l.chains[h], payload).0;
    hide WriteClusters, ChainAfterWrite, IsChain;
    StoredChain(v, l.chains, l.home, l.dirs, h);
    StoredFatOk(v, l.chains, l.home, l.dirs);
    assert cs[0] == h;
    assert forall c :: c in l.chains[h] ==> c in cs;
    StoredRechain(v, v', l.chains, l.home, l.dirs, h, cs);
    l' := Layout(l.chains[h := cs], Rehome(l.home, h, cs), l.dirs, l.owner);
    assert l'.chains.Keys == l.chains.Keys;
    NewMembersInRange(v, v', l.chains[h], cs);
    ConfinedChange(v, v', l.chains, l'.chains, l.home, h, cs);
  }
}
