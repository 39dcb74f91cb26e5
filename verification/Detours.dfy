// Deleting and opening through a component that is a file: the bytes of the file are read as records.
module Detours {
  import opened Wrappers
  import opened Bytes
  import opened Chains
  import opened Volumes
  import opened DirEntries
  import opened Directory
  import opened Paths
  import opened VfsSpec
  import opened Storage
  import opened Tree
  import opened Invariant
  import opened Operations
  import opened Runs
  import opened Exactness

  // -- Freeing where no record goes -------------------------------------------------------------------

  /** The walk from `h` freed, every record kept: the volume stays well formed exactly when no chain went
      through `h`. */
  lemma FreedExact(v: Volume, l: Layout, h: nat)
    requires Good(v, l) && v.Valid() && h >= 2 && Readable(v.fat, h)
    ensures WellFormed(Freed(v, h)) <==> Idle(v.fat, h)
  {
    hide Good, Follow, Free;
    FreedIs(v, h);
    ReadableInTable(v.fat, h);
    if Idle(v.fat, h) {
      IdleChain(v.fat, h);
      GoodFreeIdle(v, l, h);
    } else {
      forall l' | Good(Freed(v, h), l')
        ensures false
      {
        if h in l.chains {
          HeadFreed(v, l, h, l');
        } else {
          GoodFatOk(Freed(v, h), l');
          CutDangles(v, l, h, Freed(v, h).fat, l');
        }
      }
    }
  }

  lemma HeadFreed(v: Volume, l: Layout, h: nat, l': Layout)
    requires Good(v, l) && v.Valid() && h in l.chains && Readable(v.fat, h)
    ensures !Good(Freed(v, h), l')
  {
    hide TreeOk, FatOk, Follow, Free, IsChain, InRange;
    var v' := Freed(v, h);
    FreedIs(v, h);
    StoredChain(v, l.chains, l.home, l.dirs, h);
    StoredForget(v, l.chains, l.home, l.dirs, h);
    StoredFree(v, l.chains, l.home, l.dirs - {h}, h);
    hide Stored, Good;
    if Good(v', l') {
      SameStorage(v', l.chains - {h}, l.home, l.dirs - {h}, l');
      forall g | g in l.dirs && g in l'.dirs
        ensures LiveKept(l.dirs[g], l'.dirs[g])
      {
        DirIsHead(v', l', g);
        assert g in l.dirs - {h};
      }
      HeadStays(v, l, v', l', h);
    }
  }

  /** A slot changed in a chain that is no directory changes nothing the layout speaks of. */
  lemma FileSlotSet(v: Volume, l: Layout, d: nat, k: nat, e: DirEntry)
    requires Good(v, l) && v.Valid() && d in l.chains && d !in l.dirs
    requires InRange(l.chains[d], |v.data|) && k < |Slots(v.data, l.chains[d])|
    ensures Good(v.(data := SetSlot(v.data, l.chains[d], k, e)), l)
    ensures v.(data := SetSlot(v.data, l.chains[d], k, e)).Valid()
  {
    hide FatOk, TreeOk, Slots, SetSlot, InRange, ChainAt;
    StoredAlso(v, l.chains, l.home, l.dirs, d);
    var dirs1 := l.dirs[d := Slots(v.data, l.chains[d])];
    var v1 := v.(data := SetSlot(v.data, l.chains[d], k, e));
    StoredSetSlot(v, l.chains, l.home, dirs1, d, k, e);
    var dirs2 := dirs1[d := WithSlot(dirs1[d], k, e)];
    StoredForget(v1, l.chains, l.home, dirs2, d);
    assert dirs2 - {d} == l.dirs;
    StoredValid(v1, l.chains, l.home, l.dirs);
  }

  // -- Deleting ---------------------------------------------------------------------------------------

  /** MAIN: an Ok `delete` whose parent part leads to a file keeps the volume well formed if and only if the
      bytes taken for a record name no cluster in use. */
  lemma DeleteDetourExact(v: Volume, l: Layout, path: seq<byte>, d: nat)
    requires Good(v, l) && v.Valid() && ResolveParent(v, path) == Ok((d, NamePart(path)))
    requires d in l.chains && d !in l.dirs && Delete(v, path).1.Ok?
    ensures NamePart(path) != [] && ChainOf(v.fat, d) == l.chains[d] && InRange(l.chains[d], |v.data|)
    ensures var r := FindEntry(v, l.chains[d], ToUpper(NamePart(path)));
            r.Some? && (WellFormed(Delete(v, path).0) <==> Idle(v.fat, FirstCluster(r.value)))
  {
    hide Good, ResolveParent, FindFrom, Slots, Follow, FirstCluster, SetSlot, Freed, WellFormed, Idle;
    GoodChain(v, l, d);
    ChainInRange(v.fat, l.chains[d]);
    var slots := Slots(v.data, l.chains[d]);
    var k := FindFrom(slots, 0, ToUpper(NamePart(path))).value;
    FileSlotSet(v, l, d, k, Tombstone(slots[k]));
    var v1 := v.(data := SetSlot(v.data, l.chains[d], k, Tombstone(slots[k])));
    WellFormedBy(v1, l);
    SmallIsIdle(v.fat, FirstCluster(slots[k]));
    if FirstCluster(slots[k]) >= 2 {
      FreedExact(v1, l, FirstCluster(slots[k]));
    }
  }

  lemma WellFormedBy(v: Volume, l: Layout)
    requires Good(v, l)
    ensures WellFormed(v)
  {
  }

  lemma SmallIsIdle(fat: seq<nat>, h: nat)
    ensures h < 2 ==> Idle(fat, h)
  {
  }

  // -- Opening ----------------------------------------------------------------------------------------

  /** `h` heads the chain of a file of the volume. */
  ghost predicate HeadsFile(l: Layout, h: nat) { h in l.chains && h !in l.dirs }

  /** MAIN: an Ok `open` whose parent part leads to a file leaves a sound state if and only if the bytes of
      the file hold a record of the name, and it is opened for reading or names the first cluster of a file. */
  lemma OpenDetourExact(s: VfsState, l: Layout, path: seq<byte>, mode: FileMode, d: nat)
    requires GoodState(s, l) && s.v.Valid() && d in l.chains && d !in l.dirs && Open(s, path, mode).1.Ok?
    requires var full := Canonicalize(s.cwd, path);
             NamePart(full) != [] && ResolveParent(s.v, full) == Ok((d, NamePart(full)))
    ensures ChainOf(s.v.fat, d) == l.chains[d] && InRange(l.chains[d], |s.v.data|)
    ensures var r := FindEntry(s.v, l.chains[d], ToUpper(NamePart(Canonicalize(s.cwd, path))));
            Sound(Open(s, path, mode).0) <==> r.Some? && (mode == Read || HeadsFile(l, FirstCluster(r.value)))
  {
    hide Good, ResolveParent, FindEntry, Follow, FirstCluster, FileSize, IsDirectory, CreateFresh, Sound, WellFormed,
         FdsNumbered, RoomFor, Storable;
    var full := Canonicalize(s.cwd, path);
    var n := ToUpper(NamePart(full));
    GoodChain(s.v, l, d);
    ChainInRange(s.v.fat, l.chains[d]);
    var r := FindEntry(s.v, l.chains[d], n);
    var s' := Open(s, path, mode).0;
    if r.Some? {
      DescriptorAdded(s, l, full, mode, FileSize(r.value), FirstCluster(r.value));
    } else {
      UpperClean(NamePart(full));
      FreshExact(s.v, l, d, n, []);
      NotSoundBy(s');
    }
  }

  lemma DescriptorAdded(s: VfsState, l: Layout, path: seq<byte>, mode: FileMode, size: nat, cluster: nat)
    requires GoodState(s, l)
    ensures Sound(WithDescriptor(s, path, mode, size, cluster)) <==> mode == Read || HeadsFile(l, cluster)
  {
    hide Good;
    var s' := WithDescriptor(s, path, mode, size, cluster);
    var f := FileDescriptor(s.nextFd, path, mode, 0, size, cluster);
    assert f in s'.table && forall g :: g in s'.table ==> g in s.table || g == f;
    if mode == Read || HeadsFile(l, cluster) {
      assert GoodState(s', l);
    }
    if Sound(s') {
      var l' := LayoutOf(s');
      LayoutUnique(s.v, l, l');
    }
  }
}
