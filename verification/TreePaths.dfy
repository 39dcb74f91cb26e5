// Paths that lead through directories only. The source never checks that an intermediate component
// is a directory; walking through a file would take its bytes for directory slots.
module TreePaths {
  import opened Wrappers
  import opened Bytes
  import opened Chains
  import opened Volumes
  import opened DirEntries
  import opened Directory
  import opened Paths
  import opened Storage
  import opened Tree
  import opened Invariant

  /** The directory a path leads to from `cur` when every step enters a directory. */
  function WalkDirs(v: Volume, cur: nat, remaining: seq<byte>): Option<nat>
    requires v.Valid()
    decreases |remaining|
  {
    if remaining == [] then Some(cur)
    else if SkippedComponent(Head(remaining)) then WalkDirs(v, cur, Rest(remaining))
    else if Head(remaining) == [DOT, DOT] then WalkDirs(v, v.root, Rest(remaining))
    else if !Readable(v.fat, cur) then None
    else
      match LookUp(DirListing(v, cur), Head(remaining))
      case None => None
      case Some(info) => if info.isDir then WalkDirs(v, info.cluster, Rest(remaining)) else None
  }

  /** The directory holding the last component of `path`, reached through directories only. */
  function ParentDir(v: Volume, path: seq<byte>): Option<nat>
    requires v.Valid()
  {
    WalkDirs(v, v.root, TrimSlashes(ParentPath(path)))
  }

  /** The same walk on the directories themselves. */
  ghost function TreeWalk(dirs: map<nat, seq<DirEntry>>, root: nat, cur: nat, remaining: seq<byte>): Option<nat>
    decreases |remaining|
  {
    if cur !in dirs then None
    else if remaining == [] then Some(cur)
    else if SkippedComponent(Head(remaining)) then TreeWalk(dirs, root, cur, Rest(remaining))
    else if Head(remaining) == [DOT, DOT] then TreeWalk(dirs, root, root, Rest(remaining))
    else
      match LookUp(Listing(dirs[cur], 0), Head(remaining))
      case None => None
      case Some(info) => if info.isDir then TreeWalk(dirs, root, info.cluster, Rest(remaining)) else None
  }

  ghost function TreeParent(dirs: map<nat, seq<DirEntry>>, root: nat, path: seq<byte>): Option<nat> {
    TreeWalk(dirs, root, root, TrimSlashes(ParentPath(path)))
  }

  /** Every listed entry sits in some slot a listing shows. */
  lemma {:induction false} ListedSlot(slots: seq<DirEntry>, i: nat, info: DirEntryInfo) returns (k: nat)
    requires info in Listing(slots, i)
    ensures i <= k < |slots| && info == InfoOf(slots[k])
    ensures !IsEnd(slots[k]) && !Skipped(slots[k]) && !IsDots(FullName(slots[k]))
    decreases |slots| - i
  {
    hide FullName;
    if Skipped(slots[i]) || IsDots(FullName(slots[i])) {
      k := ListedSlot(slots, i + 1, info);
    } else if info == InfoOf(slots[i]) {
      k := i;
    } else {
      k := ListedSlot(slots, i + 1, info);
    }
  }

  /** Dot records are never listed. */
  lemma DotEntryIsDots(e: DirEntry)
    requires IsDotEntry(e)
    ensures IsDots(FullName(e))
  {
    var name := e[..8];
    if name == Field([DOT], 8) {
      TrimField([DOT], 8);
      assert FullNameUpper(e) == [DOT] + [] == [DOT];
    } else {
      TrimField([DOT, DOT], 8);
      assert FullNameUpper(e) == [DOT, DOT] + [] == [DOT, DOT];
    }
    DotsUpper(FullNameUpper(e));
  }

  /** Every live directory entry leads to a directory. */
  ghost predicate Enterable(root: nat, dirs: map<nat, seq<DirEntry>>) {
    root in dirs
    && forall d: nat, k: nat :: LiveAt(dirs, d, k) && IsDirectory(dirs[d][k]) ==> FirstCluster(dirs[d][k]) in dirs
  }

  lemma TreeEnterable(root: nat, heads: set<nat>, dirs: map<nat, seq<DirEntry>>, owner: map<nat, (nat, nat)>)
    requires TreeOk(root, heads, dirs, owner)
    ensures Enterable(root, dirs)
  {
    hide DirOk, Live, IsDirectory, FirstCluster, Rooted;
    forall d: nat, k: nat | LiveAt(dirs, d, k) && IsDirectory(dirs[d][k])
      ensures FirstCluster(dirs[d][k]) in dirs
    {
      assert EntryOk(root, heads, dirs, owner, d, k);
    }
  }

  /** A listed directory is one of these. */
  lemma ListedDirEnterable(root: nat, dirs: map<nat, seq<DirEntry>>, d: nat, info: DirEntryInfo)
    requires Enterable(root, dirs) && d in dirs && info in Listing(dirs[d], 0) && info.isDir
    ensures info.cluster in dirs
  {
    hide FullName, FullNameUpper, IsDotEntry, Skipped, Listing;
    var k := ListedSlot(dirs[d], 0, info);
    if IsDotEntry(dirs[d][k]) {
      DotEntryIsDots(dirs[d][k]);
    }
    assert LiveAt(dirs, d, k);
  }

  lemma ListingStored(v: Volume, chains: map<nat, seq<nat>>, home: map<nat, nat>, dirs: map<nat, seq<DirEntry>>, d: nat)
    requires Stored(v, chains, home, dirs) && d in dirs
    ensures v.Valid() && Readable(v.fat, d) && DirListing(v, d) == Listing(dirs[d], 0)
  {
    hide FatOk;
    assert DirAt(v, chains, d, dirs[d]);
    StoredChain(v, chains, home, dirs, d);
  }

  lemma ListingInTree(v: Volume, l: Layout, d: nat)
    requires Good(v, l) && d in l.dirs
    ensures v.Valid() && Readable(v.fat, d) && DirListing(v, d) == Listing(l.dirs[d], 0)
  {
    hide Stored, TreeOk;
    ListingStored(v, l.chains, l.home, l.dirs, d);
  }

  /** The walk on the volume is the walk on its directories, and it ends where resolution does. */
  lemma {:induction false} WalkIsTreeWalk(v: Volume, chains: map<nat, seq<nat>>, home: map<nat, nat>,
                                          dirs: map<nat, seq<DirEntry>>, cur: nat, remaining: seq<byte>)
    requires Stored(v, chains, home, dirs) && Enterable(v.root, dirs) && cur in dirs && v.Valid()
    ensures WalkDirs(v, cur, remaining) == TreeWalk(dirs, v.root, cur, remaining)
    ensures var w := WalkDirs(v, cur, remaining);
            w.Some? ==> w.value in dirs && ResolveFrom(v, cur, remaining) == Ok(w.value)
    decreases |remaining|
  {
    hide Stored, Listing, LookUp, Readable, DirListing;
    ListingStored(v, chains, home, dirs, cur);
    if remaining != [] {
      var h, rest := Head(remaining), Rest(remaining);
      if SkippedComponent(h) {
        WalkIsTreeWalk(v, chains, home, dirs, cur, rest);
      } else if h == [DOT, DOT] {
        DotDotGoesToRoot(v, cur);
        WalkIsTreeWalk(v, chains, home, dirs, v.root, rest);
      } else {
        var found := LookUp(DirListing(v, cur), h);
        if found.Some? && found.value.isDir {
          ListedDirEnterable(v.root, dirs, cur, found.value);
          WalkIsTreeWalk(v, chains, home, dirs, found.value.cluster, rest);
        }
      }
    }
  }

  /** A parent reached through directories is one of them, and `resolve_parent` finds it. */
  lemma ParentStored(v: Volume, chains: map<nat, seq<nat>>, home: map<nat, nat>, dirs: map<nat, seq<DirEntry>>,
                     path: seq<byte>)
    requires Stored(v, chains, home, dirs) && Enterable(v.root, dirs)
    ensures v.Valid() && ParentDir(v, path) == TreeParent(dirs, v.root, path)
    ensures ParentDir(v, path).Some? ==>
              var d := ParentDir(v, path).value;
              && d in dirs && d in chains
              && ResolveParent(v, path) == Ok((d, NamePart(path)))
              && Readable(v.fat, d) && Chained(v.fat, d) && ChainOf(v.fat, d) == chains[d]
              && InRange(chains[d], |v.data|)
              && Slots(v.data, chains[d]) == dirs[d]
  {
    hide FatOk, WalkDirs, TreeWalk;
    WalkIsTreeWalk(v, chains, home, dirs, v.root, TrimSlashes(ParentPath(path)));
    var p := ParentDir(v, path);
    if p.Some? {
      assert DirAt(v, chains, p.value, dirs[p.value]);
      StoredChain(v, chains, home, dirs, p.value);
    }
  }

  /** A parent reached through directories is a directory of the tree, and `resolve_parent` finds it. */
  lemma ParentInTree(v: Volume, l: Layout, path: seq<byte>)
    requires Good(v, l)
    ensures v.Valid() && ParentDir(v, path) == TreeParent(l.dirs, v.root, path)
    ensures ParentDir(v, path).Some? ==>
              var d := ParentDir(v, path).value;
              && d in l.dirs
              && ResolveParent(v, path) == Ok((d, NamePart(path)))
              && Readable(v.fat, d) && Chained(v.fat, d) && ChainOf(v.fat, d) == l.chains[d]
              && InRange(l.chains[d], |v.data|)
              && Slots(v.data, l.chains[d]) == l.dirs[d]
  {
    hide Stored, TreeOk, Enterable, WalkDirs, TreeWalk;
    TreeEnterable(v.root, l.chains.Keys, l.dirs, l.owner);
    ParentStored(v, l.chains, l.home, l.dirs, path);
  }

  lemma RootInTree(v: Volume, l: Layout)
    requires Good(v, l)
    ensures v.root in l.dirs && v.Valid()
  {
  }

  /** The walk over the components a path has. */
  function WalkSteps(v: Volume, cur: nat, steps: seq<seq<byte>>): Option<nat>
    requires v.Valid()
    decreases |steps|
  {
    if steps == [] then Some(cur)
    else if steps[0] == [DOT, DOT] then WalkSteps(v, v.root, steps[1..])
    else if !Readable(v.fat, cur) then None
    else
      match LookUp(DirListing(v, cur), steps[0])
      case None => None
      case Some(info) => if info.isDir then WalkSteps(v, info.cluster, steps[1..]) else None
  }

  lemma {:induction false} WalkIsSteps(v: Volume, cur: nat, remaining: seq<byte>)
    requires v.Valid()
    ensures WalkDirs(v, cur, remaining) == WalkSteps(v, cur, Steps(remaining))
    decreases |remaining|
  {
    hide LookUp, DirListing, Readable, Steps;
    StepsUnfold(remaining);
    if remaining != [] {
      var h, rest := Head(remaining), Rest(remaining);
      assert [] + Steps(rest) == Steps(rest) && ([h] + Steps(rest))[1..] == Steps(rest);
      if SkippedComponent(h) {
        WalkIsSteps(v, cur, rest);
      } else if h == [DOT, DOT] {
        WalkIsSteps(v, v.root, rest);
      } else if Readable(v.fat, cur) {
        var found := LookUp(DirListing(v, cur), h);
        if found.Some? && found.value.isDir {
          WalkIsSteps(v, found.value.cluster, rest);
        }
      }
    }
  }

  lemma {:induction false} WalkStepsConcat(v: Volume, cur: nat, a: seq<seq<byte>>, b: seq<seq<byte>>)
    requires v.Valid()
    ensures WalkSteps(v, cur, a + b)
            == var r := WalkSteps(v, cur, a); if r.Some? then WalkSteps(v, r.value, b) else None
    decreases |a|
  {
    hide LookUp, DirListing, Readable;
    if a == [] {
      assert a + b == b;
    } else {
      assert (a + b)[0] == a[0] && (a + b)[1..] == a[1..] + b;
      if a[0] == [DOT, DOT] {
        WalkStepsConcat(v, v.root, a[1..], b);
      } else if Readable(v.fat, cur) {
        var found := LookUp(DirListing(v, cur), a[0]);
        if found.Some? && found.value.isDir {
          WalkStepsConcat(v, found.value.cluster, a[1..], b);
        }
      }
    }
  }

  /** The parent of a path is found by walking the components of what precedes its name. */
  lemma ParentIsSteps(v: Volume, path: seq<byte>)
    requires v.Valid()
    ensures ParentDir(v, path) == WalkSteps(v, v.root, Steps(ParentPath(path)))
  {
    hide WalkDirs, WalkSteps, Steps;
    WalkIsSteps(v, v.root, TrimSlashes(ParentPath(path)));
    StepsTrim(ParentPath(path));
  }

  /** When a path has no name part, the whole of it is walked like its parent. */
  lemma WalkWholePath(v: Volume, path: seq<byte>)
    requires v.Valid() && NamePart(path) == []
    ensures WalkDirs(v, v.root, TrimSlashes(path)) == ParentDir(v, path)
  {
    hide WalkDirs, WalkSteps, Steps;
    WalkIsSteps(v, v.root, TrimSlashes(path));
    StepsTrim(path);
    StepsOfParent(path);
    assert Steps(ParentPath(path)) + [] == Steps(ParentPath(path));
    ParentIsSteps(v, path);
  }

  /** One step further down: the parent of `path/n` is the directory `path` names in its own parent. */
  lemma ParentOfChild(v: Volume, path: seq<byte>, n: seq<byte>)
    requires v.Valid() && ParentDir(v, path).Some? && Readable(v.fat, ParentDir(v, path).value)
    requires !SkippedComponent(NamePart(path)) && NamePart(path) != [DOT, DOT]
    requires n != [] && forall i :: 0 <= i < |n| ==> n[i] != SLASH
    ensures NamePart(path + [SLASH] + n) == n
    ensures var info := LookUp(DirListing(v, ParentDir(v, path).value), NamePart(path));
            ParentDir(v, path + [SLASH] + n)
            == if info.Some? && info.value.isDir then Some(info.value.cluster) else None
  {
    hide WalkDirs, WalkSteps, Steps, LookUp, DirListing;
    ChildPath(path, n);
    ParentIsSteps(v, path + [SLASH] + n);
    ParentIsSteps(v, path);
    StepsOfParent(path);
    WalkStepsConcat(v, v.root, Steps(ParentPath(path)), [NamePart(path)]);
    OneWalkStep(v, ParentDir(v, path).value, NamePart(path));
  }

  lemma OneWalkStep(v: Volume, cur: nat, n: seq<byte>)
    requires v.Valid() && n != [DOT, DOT] && Readable(v.fat, cur)
    ensures var info := LookUp(DirListing(v, cur), n);
            WalkSteps(v, cur, [n]) == if info.Some? && info.value.isDir then Some(info.value.cluster) else None
  {
    hide LookUp, DirListing;
    assert [n][1..] == [];
    var info := LookUp(DirListing(v, cur), n);
    if info.Some? && info.value.isDir {
      assert WalkSteps(v, info.value.cluster, []) == Some(info.value.cluster);
    }
  }
}
