// The whole invariant of a volume, and the changes that leave most of its chains alone.
module Invariant {
  import opened Wrappers
  import opened Chains
  import opened Volumes
  import opened DirEntries
  import opened Directory
  import opened Paths
  import opened VfsSpec
  import opened Storage
  import opened Tree

  /** Which chains the volume holds, which of them are directories with which slots, and which
      directory entry owns each chain. */
  datatype Layout = Layout(chains: map<nat, seq<nat>>, home: map<nat, nat>, dirs: map<nat, seq<DirEntry>>,
                           owner: map<nat, (nat, nat)>)

  /** The FAT is a set of disjoint, acyclic, in-range chains ended by end-of-chain marks that cover all
      used clusters, and each is headed by the root or by exactly one live directory entry. */
  ghost predicate Good(v: Volume, l: Layout) {
    && Stored(v, l.chains, l.home, l.dirs)
    && TreeOk(v.root, l.chains.Keys, l.dirs, l.owner)
  }

  ghost predicate WellFormed(v: Volume) {
    exists l: Layout :: Good(v, l)
  }

  /** Every chain but those of `a` and `b` is kept, and so are the bytes of its clusters. */
  ghost predicate OthersKept(v: Volume, v': Volume, chains: map<nat, seq<nat>>, chains': map<nat, seq<nat>>, a: nat,
                             b: nat) {
    && |v'.data| == |v.data|
    && (forall h :: h in chains && h != a && h != b ==> ChainKept(v, v', chains, chains', h))
  }

  ghost predicate ChainKept(v: Volume, v': Volume, chains: map<nat, seq<nat>>, chains': map<nat, seq<nat>>, h: nat)
    requires h in chains
  {
    && h in chains' && chains'[h] == chains[h]
    && (forall c :: c in chains[h] ==> 0 <= c < |v.data| && c < |v'.data| && v'.data[c] == v.data[c])
  }

  lemma OthersKeptTransitive(v: Volume, v1: Volume, v2: Volume, chains: map<nat, seq<nat>>, chains1: map<nat, seq<nat>>,
                             chains2: map<nat, seq<nat>>, a: nat, b: nat, a': nat, b': nat, x: nat, y: nat)
    requires OthersKept(v, v1, chains, chains1, a, b) && OthersKept(v1, v2, chains1, chains2, a', b')
    requires forall h :: h in chains && h != x && h != y ==> h != a && h != b && h != a' && h != b'
    ensures OthersKept(v, v2, chains, chains2, x, y)
  {
    forall h | h in chains && h != x && h != y
      ensures ChainKept(v, v2, chains, chains2, h)
    {
      assert ChainKept(v, v1, chains, chains1, h);
      assert ChainKept(v1, v2, chains1, chains2, h);
    }
  }

  /** A change confined to the chain of `h` and free clusters keeps all other chains. */
  lemma ConfinedChange(v: Volume, v': Volume, chains: map<nat, seq<nat>>, chains': map<nat, seq<nat>>,
                       home: map<nat, nat>, h: nat, touched: seq<nat>)
    requires v.Valid() && v'.Valid() && |v'.fat| == |v.fat| && FatOk(v.fat, chains, home)
    requires forall c :: c in touched && c !in OldChain(chains, h) ==> 0 <= c < |v.fat| && v.fat[c] == FREE
    requires forall c :: 0 <= c < |v.data| && c !in touched ==> v'.data[c] == v.data[c]
    requires forall g :: g in chains && g != h ==> g in chains' && chains'[g] == chains[g]
    ensures OthersKept(v, v', chains, chains', h, h)
  {
    hide FatOk, ChainAt;
    forall g | g in chains && g != h
      ensures ChainKept(v, v', chains, chains', g)
    {
      forall c | c in chains[g]
        ensures 0 <= c < |v.data| && v'.data[c] == v.data[c]
      {
        ApartFrom(v.fat, chains, home, g, h, c);
      }
    }
  }

  // -- Adding an entry ----------------------------------------------------------------------------------

  lemma DirOkWithSlot(slots: seq<DirEntry>, k: nat, e: DirEntry)
    requires DirOk(slots) && k < |slots|
    requires EndOk(WithSlot(slots, k, e))
    requires !IsEnd(e) && !Skipped(e) ==> NoLower(FullNameUpper(e)) && (IsDotEntry(e) ==> IsDirectory(e))
    ensures DirOk(WithSlot(slots, k, e))
  {
    hide FullNameUpper, IsDotEntry, IsDirectory, NoLower;
  }

  lemma DirOkAppended(slots: seq<DirEntry>, added: seq<DirEntry>)
    requires DirOk(slots) && added != [] && EndOk(slots + added)
    requires NoLower(FullNameUpper(added[0])) && !IsDotEntry(added[0])
    requires forall i :: 1 <= i < |added| ==> IsEnd(added[i])
    ensures DirOk(slots + added)
  {
    hide FullNameUpper, IsDotEntry, IsDirectory, NoLower;
  }

  /** The slots of a directory after `add_entry`: the first hole filled, or a fresh cluster behind. */
  ghost function WithEntry(slots: seq<DirEntry>, csz: nat, e: DirEntry): seq<DirEntry>
    requires csz >= 64
  {
    var hole := HoleFrom(slots, 0);
    if hole.Some? then WithSlot(slots, hole.value, e) else slots + SlotsOf(FreshDirBlock(csz, e))
  }

  /** Where the new entry then sits. */
  function EntrySlot(slots: seq<DirEntry>): nat {
    var hole := HoleFrom(slots, 0);
    if hole.Some? then hole.value else |slots|
  }

  /** A directory of `n` clusters takes one more entry without growing past what `read_chain` follows. */
  predicate RoomFor(slots: seq<DirEntry>, n: nat) { HoleFrom(slots, 0).Some? || n < MAX_CHAIN }

  /** `add_entry` with room for the entry. */
  lemma AddStored(v: Volume, chains: map<nat, seq<nat>>, home: map<nat, nat>, dirs: map<nat, seq<DirEntry>>, d: nat,
                  e: DirEntry)
    returns (chains': map<nat, seq<nat>>, home': map<nat, nat>)
    requires Stored(v, chains, home, dirs) && d in dirs && d in chains && RoomFor(dirs[d], |chains[d]|)
    requires IsChain(v.fat, chains[d]) && AddEntry(v, chains[d], e).1.Ok?
    ensures var v' := AddEntry(v, chains[d], e).0;
            && Stored(v', chains', home', dirs[d := WithEntry(dirs[d], v.csz, e)])
            && v'.root == v.root && v'.csz == v.csz && |v'.fat| == |v.fat|
            && OthersKept(v, v', chains, chains', d, d)
    ensures chains'.Keys == chains.Keys
  {
    hide FatOk, ChainAt, IsChain, InRange, NoDup, Slots, SlotsOf, SetSlot, Rehome, FirstFree;
    assert DirAt(v, chains, d, dirs[d]);
    ChainFacts(v.fat, chains, home, d);
    var slots, cs := dirs[d], chains[d];
    var v' := AddEntry(v, cs, e).0;
    var hole := HoleFrom(slots, 0);
    if hole.Some? {
      chains', home' := chains, home;
      StoredSetSlot(v, chains, home, dirs, d, hole.value, e);
      SetSlotEffect(v.data, cs, hole.value, e);
      ConfinedChange(v, v', chains, chains', home, d, cs);
    } else {
      var c := LowestFree(v.fat).value;
      var block := FreshDirBlock(v.csz, e);
      chains', home' := chains[d := cs + [c]], Rehome(home, d, cs + [c]);
      StoredAppend(v, chains, home, dirs, d, c, block);
      AppendedChain(v, cs, c, block);
      NewMembersInRange(v, v', cs, cs + [c]);
      ConfinedChange(v, v', chains, chains', home, d, cs + [c]);
    }
  }

  /** Without room the chain of the directory becomes longer than `read_chain` follows. */
  lemma AddTooLong(v: Volume, chains: map<nat, seq<nat>>, home: map<nat, nat>, d: nat, e: DirEntry,
                   chains': map<nat, seq<nat>>, home': map<nat, nat>)
    requires v.Valid() && FatOk(v.fat, chains, home) && d in chains && InRange(chains[d], |v.data|)
    requires !RoomFor(Slots(v.data, chains[d]), |chains[d]|) && AddEntry(v, chains[d], e).1.Ok?
    ensures !FatOk(AddEntry(v, chains[d], e).0.fat, chains', home')
  {
    hide FatOk, IsChain, InRange, NoDup, Slots, FirstFree;
    ChainFacts(v.fat, chains, home, d);
    var cs, c := chains[d], LowestFree(v.fat).value;
    var v' := AddEntry(v, cs, e).0;
    AppendedChain(v, cs, c, FreshDirBlock(v.csz, e));
    assert v' == Appended(v, cs, c, FreshDirBlock(v.csz, e));
    TooLong(v.fat, chains, home, v'.fat, cs + [c], chains', home');
  }

  /** A live record so added is one entry more. */
  lemma AddedEntry(slots: seq<DirEntry>, csz: nat, e: DirEntry)
    requires csz >= 64 && DirOk(slots) && Live(e) && NoLower(FullNameUpper(e))
    ensures EntryAdded(slots, WithEntry(slots, csz, e), EntrySlot(slots), e)
  {
    hide SlotsOf, DirOk, FullNameUpper, NoLower, IsDotEntry, FreshDirBlock;
    DirOkParts(slots);
    var hole := HoleFrom(slots, 0);
    if hole.Some? {
      AddVisible(slots, hole.value, e);
      DirOkWithSlot(slots, hole.value, e);
    } else {
      FreshDirSlots(csz, e);
      AppendVisible(slots, SlotsOf(FreshDirBlock(csz, e)));
      DirOkAppended(slots, SlotsOf(FreshDirBlock(csz, e)));
    }
  }

  lemma DirOkParts(slots: seq<DirEntry>)
    requires DirOk(slots)
    ensures EndOk(slots) && Canonical(slots)
  {
  }
}
