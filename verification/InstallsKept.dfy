// The host tool and the kernel's guarantees: a volume the tool installed a file in is well formed again,
// and every other file reads as before.
module InstallsKept {
  import opened Wrappers
  import opened Bytes
  import opened Chains
  import opened Volumes
  import opened DirEntries
  import opened Directory
  import opened Paths
  import opened VfsSpec
  import opened Storage
  import opened Tree
  import opened Invariant
  import opened Operations
  import opened TreePaths
  import opened Runs
  import opened Refinement
  import opened Contents
  import opened Installs

  /** Storing and linking the clusters taken adds one chain. */
  lemma StagedChain(v: Volume, l: Layout, payload: seq<byte>) returns (l1: Layout, c: nat)
    requires Good(v, l) && v.Valid() && Refusal(v, payload).None? && Wanted(|payload|, v.csz) <= MAX_CHAIN
    ensures var v1, alloc := Staged(v, payload), FreeClusters(v.fat, 2, Wanted(|payload|, v.csz));
            && alloc != [] && c == alloc[0] && c !in l.chains
            && Stored(v1, l1.chains, l1.home, l1.dirs) && l1.dirs == l.dirs
            && l1.chains == l.chains[c := alloc] && OthersKept(v, v1, l.chains, l1.chains, c, c)
  {
    hide FreeClusters, Store, Link, TreeOk, FatOk, IsChain, Rehome, NoDup;
    var alloc := FreeClusters(v.fat, 2, Wanted(|payload|, v.csz));
    var v1 := Staged(v, payload);
    c := alloc[0];
    FreeIsNoHead(v.fat, l.chains, l.home, c);
    LinkMakesChain(v.fat, alloc);
    DirsAreHeads(v, l.chains, l.home, l.dirs);
    assert ChainChanged(v, v1, [], alloc);
    StoredRechain(v, v1, l.chains, l.home, l.dirs, c, alloc);
    NewMembersInRange(v, v1, [], alloc);
    ConfinedChange(v, v1, l.chains, l.chains[c := alloc], l.home, c, alloc);
    l1 := Layout(l.chains[c := alloc], Rehome(l.home, c, alloc), l.dirs, l.owner);
  }

  /** The entry the tool writes owns its chain. */
  lemma ToolEntryLive(name: seq<byte>, cluster: nat, size: nat)
    requires cluster < 0x1_0000 && size < U32 && GoodName(name)
    ensures |EntryBytes(name, cluster, size)| == 32
    ensures var e: DirEntry := EntryBytes(name, cluster, size);
            && Live(e) && !IsDirectory(e) && FirstCluster(e) == cluster && FileSize(e) == size
            && FullNameUpper(e) == name && NoLower(name)
  {
    hide DotPos, EntryBytes, ToolExt, FullNameUpper, Fits83, ExtOf;
    EntryFields(name, cluster, size);
    var e: DirEntry := EntryBytes(name, cluster, size);
    ToolNameRoundTrip(name, e);
    FirstNoDot(name);
    assert Field([DOT], 8)[0] == DOT && Field([DOT, DOT], 8)[0] == DOT;
    UpperClean(name);
  }

  lemma FirstNoDot(name: seq<byte>)
    ensures Field(FirstPart(name), 8)[0] != DOT
  {
  }

  /** The state after an install, seen from the directories. */
  lemma InstalledState(v: Volume, l: Layout, payload: seq<byte>, name: seq<byte>)
    returns (l': Layout, c: nat, k: nat, e: DirEntry)
    requires Good(v, l) && v.Valid() && v.root < |v.fat| && GoodName(name) && Wanted(|payload|, v.csz) <= MAX_CHAIN
    requires 2 <= v.root && Installed(v, payload, name).Ok?
    ensures v.root in l.dirs && v.root in l'.dirs
    ensures var v' := Installed(v, payload, name).value;
            && v'.Valid() && Good(v', l') && v'.root == v.root && v'.csz == v.csz
            && l'.dirs == l.dirs[v.root := l'.dirs[v.root]]
            && DirOk(l.dirs[v.root]) && k == EntrySlot(l.dirs[v.root])
            && EntryAdded(l.dirs[v.root], l'.dirs[v.root], k, e) && Live(e) && FullNameUpper(e) == name
            && OthersKept(v, v', l.chains, l'.chains, v.root, v.root)
  {
    hide FreeClusters, EntryBytes, FatOk, TreeOk, IsChain, HoleFrom, Slots, Staged, GoodName, FullNameUpper, Live,
         DirOk, EntryAdded, IsDirectory, FirstCluster, NoLower, Stored, WithEntry, ChainAt, Installed, AddEntry;
    InstalledUnlessRefusedHere(v, payload, name);
    var l1;
    l1, c := StagedChain(v, l, payload);
    var v1, alloc := Staged(v, payload), FreeClusters(v.fat, 2, Wanted(|payload|, v.csz));
    RootInTree(v, l);
    var d := v.root;
    StoredDir(v1, l1.chains, l1.home, l1.dirs, d);
    ToolEntryLive(name, alloc[0], |payload|);
    e := EntryBytes(name, alloc[0], |payload|);
    StoredChain(v1, l1.chains, l1.home, l1.dirs, d);
    ToolAddsEntry(v, payload, name, l1.chains[d], e);
    TreeOfGood(v, l);
    GoodDirOk(v, l, d);
    var v';
    v', l' := EntryKeeps(l, v1, l1, d, c, e);
    k := EntrySlot(l.dirs[d]);
    GoodValid(v', l');
    OthersKeptTransitive(v, v1, v', l.chains, l1.chains, l'.chains, c, c, d, d, d, d);
  }

  lemma InstalledUnlessRefusedHere(v: Volume, payload: seq<byte>, name: seq<byte>)
    requires v.Valid() && 2 <= v.root < |v.fat| && GoodName(name) && Installed(v, payload, name).Ok?
    ensures Refusal(v, payload).None? && DotPos(name) < |name|
  {
  }

  /** Writing the entry in the root's first hole is what `add_entry` does. */
  lemma ToolAddsEntry(v: Volume, payload: seq<byte>, name: seq<byte>, cs: seq<nat>, e: DirEntry)
    requires v.Valid() && 2 <= v.root < |v.fat| && DotPos(name) < |name| && Installed(v, payload, name).Ok?
    requires var v1, alloc := Staged(v, payload), FreeClusters(v.fat, 2, Wanted(|payload|, v.csz));
             IsChain(v1.fat, cs) && cs[0] == v.root && e == EntryBytes(name, alloc[0], |payload|)
    ensures InRange(cs, |Staged(v, payload).fat|) && HoleFrom(Slots(Staged(v, payload).data, cs), 0).Some?
    ensures AddEntry(Staged(v, payload), cs, e) == (Installed(v, payload, name).value, Ok(()))
  {
    hide HoleFrom, Slots, SetSlot, Staged, EntryBytes, FreeClusters, Splice;
    HoleInRoot(Staged(v, payload), cs, e);
  }

  /** MAIN: the volume with the file installed is well formed again. */
  lemma InstalledIsWellFormed(v: Volume, l: Layout, payload: seq<byte>, name: seq<byte>)
    requires Good(v, l) && v.Valid() && 2 <= v.root < |v.fat| && GoodName(name) && Wanted(|payload|, v.csz) <= MAX_CHAIN
    requires Installed(v, payload, name).Ok?
    ensures WellFormed(Installed(v, payload, name).value)
  {
    hide Good, Installed, GoodName;
    var l', c, k, e := InstalledState(v, l, payload, name);
  }

  /** MAIN: and every file of the tree not of that name in the root reads as before, as long as its path
      still leads to its directory. */
  lemma InstalledKeepsOthers(v: Volume, l: Layout, payload: seq<byte>, name: seq<byte>, q: seq<byte>)
    requires Good(v, l) && v.Valid() && 2 <= v.root < |v.fat| && GoodName(name) && Wanted(|payload|, v.csz) <= MAX_CHAIN
    requires Installed(v, payload, name).Ok? && ParentDir(v, q).Some?
    requires ParentDir(v, q) != Some(v.root) || ToUpper(NamePart(q)) != name
    ensures var v' := Installed(v, payload, name).value;
            v'.Valid() && (ParentDir(v', q) == ParentDir(v, q) ==> ReadFileContent(v', q) == ReadFileContent(v, q))
  {
    hide Good, Installed, GoodName, WalkDirs, FileKept, ReadFileContent, Wanted;
    InstalledUnlessRefusedHere(v, payload, name);
    ParentInTree(v, l, q);
    var l' := InstalledSpares(v, l, payload, name, ParentDir(v, q).value, ToUpper(NamePart(q)));
    var v' := Installed(v, payload, name).value;
    if ParentDir(v', q) == ParentDir(v, q) {
      ReadKept(v, l, v', l', q);
    }
  }

  lemma InstalledSpares(v: Volume, l: Layout, payload: seq<byte>, name: seq<byte>, g: nat, m: seq<byte>)
    returns (l': Layout)
    requires Good(v, l) && v.Valid() && 2 <= v.root < |v.fat| && GoodName(name) && Wanted(|payload|, v.csz) <= MAX_CHAIN
    requires Installed(v, payload, name).Ok? && g in l.dirs && (g != v.root || m != name)
    ensures var v' := Installed(v, payload, name).value;
            Good(v', l') && v'.Valid() && FileKept(v, l, v', l', g, m)
  {
    hide Good, Installed, GoodName, FindFrom, Live, EntryAdded, DirOk, FullNameUpper, IsDirectory, FirstCluster,
         EntrySlot, Wanted, OthersKept, ChainKept;
    InstalledUnlessRefusedHere(v, payload, name);
    var c, k, e;
    l', c, k, e := InstalledState(v, l, payload, name);
    AddedLookups(l.dirs[v.root], l'.dirs[v.root], k, e, m);
    FoundFileKept(v, l, Installed(v, payload, name).value, l', g, m, v.root, v.root);
  }

  /** A name that was not there moves no path. */
  lemma InstalledParents(v: Volume, l: Layout, payload: seq<byte>, name: seq<byte>, q: seq<byte>)
    requires Good(v, l) && v.Valid() && 2 <= v.root < |v.fat| && GoodName(name) && Wanted(|payload|, v.csz) <= MAX_CHAIN
    requires Installed(v, payload, name).Ok? && v.root in l.dirs && FindFrom(l.dirs[v.root], 0, name).None?
    ensures Installed(v, payload, name).value.Valid()
    ensures ParentDir(v, q).Some? ==> ParentDir(Installed(v, payload, name).value, q) == ParentDir(v, q)
  {
    hide Good, Installed, GoodName, WalkDirs, FindFrom, Live, EntryAdded, DirOk, FullNameUpper, IsDirectory,
         ScanKept, EntrySlot;
    InstalledUnlessRefusedHere(v, payload, name);
    var l', c, k, e := InstalledState(v, l, payload, name);
    AddedScans(l.dirs[v.root], l'.dirs[v.root], k, e);
    ParentKept(v, l, Installed(v, payload, name).value, l', v.root, q);
  }
}
