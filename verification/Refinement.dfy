// The volume as a map from paths to bytes: what reading back gives after creating, deleting and
// appending, and that no other file's content changes.
module Refinement {
  import opened Wrappers
  import opened Bytes
  import opened Chains
  import opened Volumes
  import opened DirEntries
  import opened Directory
  import opened Paths
  import opened VfsSpec
  import opened Storage
  import opened Tree
  import opened Invariant
  import opened Operations
  import opened TreePaths
  import opened Runs

  // -- Lookups after one slot changed -----------------------------------------------------------------

  /** In a directory with nothing behind its end marker, the scan finds the first match anywhere. */
  lemma FirstMatch(slots: seq<DirEntry>, m: seq<byte>, i: nat)
    requires EndOk(slots) && i < |slots| && Matches(slots[i], m)
    requires forall j :: 0 <= j < i ==> !Matches(slots[j], m)
    ensures FindFrom(slots, 0, m) == Some(i)
  {
    hide FullNameUpper, Skipped;
    assert forall j :: 0 <= j < i && IsEnd(slots[j]) ==> IsEnd(slots[i]);
    FindReaches(slots, m, 0, i);
  }

  lemma {:induction false} FindReaches(slots: seq<DirEntry>, m: seq<byte>, c: nat, i: nat)
    requires c <= i < |slots| && Matches(slots[i], m)
    requires forall j :: c <= j < i ==> !IsEnd(slots[j]) && !Matches(slots[j], m)
    ensures FindFrom(slots, c, m) == Some(i)
    decreases i - c
  {
    if c < i {
      FindReaches(slots, m, c + 1, i);
    }
  }

  lemma NoMatch(slots: seq<DirEntry>, m: seq<byte>)
    requires forall j :: 0 <= j < |slots| ==> !Matches(slots[j], m)
    ensures FindFrom(slots, 0, m).None?
  {
  }

  /** With nothing behind the end marker, a scan that finds nothing has missed no match. */
  lemma {:induction false} FindNone(slots: seq<DirEntry>, m: seq<byte>, i: nat)
    requires EndOk(slots) && FindFrom(slots, i, m).None?
    ensures forall j :: i <= j < |slots| ==> !Matches(slots[j], m)
    decreases |slots| - i
  {
    hide FullNameUpper, Skipped;
    if i < |slots| {
      if IsEnd(slots[i]) {
        assert forall j :: i <= j < |slots| ==> IsEnd(slots[j]);
      } else {
        FindNone(slots, m, i + 1);
      }
    }
  }

  /** A new entry leaves the lookup of every other name; its own name leads to it unless an older record
      of the name comes first. */
  lemma AddedFind(slots: seq<DirEntry>, slots': seq<DirEntry>, k: nat, e: DirEntry, m: seq<byte>)
    requires EndOk(slots) && EntryAdded(slots, slots', k, e) && !IsEnd(e) && !Skipped(e)
    ensures var r := FindFrom(slots, 0, m);
            FindFrom(slots', 0, m) == if m == FullNameUpper(e) && !(r.Some? && r.value < k) then Some(k) else r
    ensures var r := FindFrom(slots, 0, m);
            r.Some? ==> r.value != k && r.value < |slots'| && slots'[r.value] == slots[r.value]
  {
    hide FullNameUpper, Skipped, Canonical;
    var r := FindFrom(slots, 0, m);
    if r.None? {
      FindNone(slots, m, 0);
    }
    if m == FullNameUpper(e) && !(r.Some? && r.value < k) {
      FirstMatch(slots', m, k);
    } else if r.Some? {
      FirstMatch(slots', m, r.value);
    } else {
      NoMatch(slots', m);
    }
  }

  /** Replacing a record by one with the same name and flags moves no lookup. */
  lemma RedirectedFind(slots: seq<DirEntry>, k: nat, e': DirEntry, m: seq<byte>)
    requires k < |slots| && e'[..20] == slots[k][..20]
    ensures FindFrom(WithSlot(slots, k, e'), 0, m) == FindFrom(slots, 0, m)
  {
    SameFlags(slots[k], e');
    SameScan(slots, WithSlot(slots, k, e'), m, 0);
  }

  lemma {:induction false} SameScan(slots: seq<DirEntry>, slots': seq<DirEntry>, m: seq<byte>, i: nat)
    requires |slots'| == |slots|
    requires forall j :: 0 <= j < |slots| ==>
               IsEnd(slots'[j]) == IsEnd(slots[j]) && Matches(slots'[j], m) == Matches(slots[j], m)
    ensures FindFrom(slots', i, m) == FindFrom(slots, i, m)
    decreases |slots| - i
  {
    if i < |slots| {
      SameScan(slots, slots', m, i + 1);
    }
  }

  /** Deleting the first match moves no other name's lookup; under the name itself the next match
      comes to light. */
  lemma RemovedFind(slots: seq<DirEntry>, n: seq<byte>, k: nat, m: seq<byte>)
    requires FindFrom(slots, 0, n) == Some(k)
    ensures var slots' := WithSlot(slots, k, Tombstone(slots[k]));
            && (m != n ==> FindFrom(slots', 0, m) == FindFrom(slots, 0, m) && FindFrom(slots, 0, m) != Some(k))
            && FindFrom(slots', 0, n) == FindFrom(slots, k + 1, n)
  {
    hide FullNameUpper, Skipped;
    var slots' := WithSlot(slots, k, Tombstone(slots[k]));
    TombstoneMatchesNothing(slots[k]);
    if m != n {
      SameScan(slots, slots', m, 0);
    }
    SameTail(slots, slots', n, k, k + 1);
    SkipsTo(slots', n, 0, k);
  }

  lemma TombstoneMatchesNothing(e: DirEntry)
    ensures forall m :: !Matches(Tombstone(e), m)
  {
  }

  lemma {:induction false} SameTail(slots: seq<DirEntry>, slots': seq<DirEntry>, m: seq<byte>, k: nat, i: nat)
    requires |slots'| == |slots| && k < i && forall j :: k < j < |slots| ==> slots'[j] == slots[j]
    ensures FindFrom(slots', i, m) == FindFrom(slots, i, m)
    decreases |slots| - i
  {
    if i < |slots| {
      SameTail(slots, slots', m, k, i + 1);
    }
  }

  /** Slots that neither match nor end the scan are passed over. */
  lemma {:induction false} SkipsTo(slots: seq<DirEntry>, m: seq<byte>, i: nat, k: nat)
    requires i <= k < |slots| && forall j :: i <= j <= k ==> !IsEnd(slots[j]) && !Matches(slots[j], m)
    ensures FindFrom(slots, i, m) == FindFrom(slots, k + 1, m)
    decreases k - i
  {
    if i < k {
      SkipsTo(slots, m, i + 1, k);
    }
  }

  // -- Walks after one directory changed --------------------------------------------------------------

  /** A step into a directory leads to the same directory afterwards. */
  ghost predicate StepKept(dirs: map<nat, seq<DirEntry>>, dirs': map<nat, seq<DirEntry>>, g: nat, component: seq<byte>)
    requires g in dirs
  {
    var before := LookUp(Listing(dirs[g], 0), component);
    before.Some? && before.value.isDir ==>
      && g in dirs'
      && var after := LookUp(Listing(dirs'[g], 0), component);
         after.Some? && after.value.isDir && after.value.cluster == before.value.cluster
  }

  lemma {:induction false} WalkKept(dirs: map<nat, seq<DirEntry>>, dirs': map<nat, seq<DirEntry>>, root: nat,
                                    cur: nat, remaining: seq<byte>)
    requires dirs.Keys <= dirs'.Keys
    requires forall g, c :: g in dirs && !IsDots(c) ==> StepKept(dirs, dirs', g, c)
    requires TreeWalk(dirs, root, cur, remaining).Some?
    ensures TreeWalk(dirs', root, cur, remaining) == TreeWalk(dirs, root, cur, remaining)
    decreases |remaining|
  {
    hide Listing, LookUp;
    if remaining != [] {
      var h, rest := Head(remaining), Rest(remaining);
      if SkippedComponent(h) {
        WalkKept(dirs, dirs', root, cur, rest);
      } else if h == [DOT, DOT] {
        WalkKept(dirs, dirs', root, root, rest);
      } else {
        assert StepKept(dirs, dirs', cur, h);
        WalkKept(dirs, dirs', root, LookUp(Listing(dirs[cur], 0), h).value.cluster, rest);
      }
    }
  }

  /** Steps are kept when the scan of every directory finds, under every name, either the same record,
      or a file before. */
  ghost predicate ScanKept(slots: seq<DirEntry>, slots': seq<DirEntry>, m: seq<byte>) {
    var r := FindFrom(slots, 0, m);
    r.Some? && IsDirectory(slots[r.value]) ==>
      && FindFrom(slots', 0, m) == r && r.value < |slots'|
      && IsDirectory(slots'[r.value]) && FirstCluster(slots'[r.value]) == FirstCluster(slots[r.value])
  }

  lemma ScanKeptStep(dirs: map<nat, seq<DirEntry>>, dirs': map<nat, seq<DirEntry>>, g: nat, component: seq<byte>)
    requires g in dirs && g in dirs' && DirOk(dirs[g]) && DirOk(dirs'[g]) && !IsDots(component)
    requires ScanKept(dirs[g], dirs'[g], ToUpper(component))
    ensures StepKept(dirs, dirs', g, component)
  {
    hide FullNameUpper, FullName, Listing, LookUp, FindFrom, IsDirectory, FirstCluster, FileSize;
    LookUpIsFind(dirs[g], 0, component);
    LookUpIsFind(dirs'[g], 0, component);
  }

  /** When only directory `d` changed and its scans are kept, every walk through directories ends
      where it did. */
  lemma ParentKept(v: Volume, l: Layout, v': Volume, l': Layout, d: nat, q: seq<byte>)
    requires Good(v, l) && Good(v', l') && v'.root == v.root
    requires l.dirs.Keys <= l'.dirs.Keys && forall g :: g in l.dirs && g != d ==> l'.dirs[g] == l.dirs[g]
    requires d in l.dirs && forall m :: ScanKept(l.dirs[d], l'.dirs[d], m)
    ensures v.Valid() && v'.Valid()
    ensures ParentDir(v, q).Some? ==> ParentDir(v', q) == ParentDir(v, q)
  {
    hide Stored, DirOk, Listing, LookUp, FindFrom;
    ParentInTree(v, l, q);
    ParentInTree(v', l', q);
    forall g, c | g in l.dirs && !IsDots(c)
      ensures StepKept(l.dirs, l'.dirs, g, c)
    {
      if g == d {
        ScanKeptStep(l.dirs, l'.dirs, g, c);
      }
    }
    if ParentDir(v, q).Some? {
      WalkKept(l.dirs, l'.dirs, v.root, v.root, TrimSlashes(ParentPath(q)));
    }
  }

  // -- Content by directory and name ------------------------------------------------------------------

  /** What reading the file named `m` in directory `d` gives. */
  ghost function ContentAt(v: Volume, l: Layout, d: nat, m: seq<byte>): Result<seq<byte>, VfsError>
    requires d in l.dirs
  {
    var r := FindFrom(l.dirs[d], 0, m);
    if r.None? then Err(NotFound)
    else
      var e := l.dirs[d][r.value];
      if IsDirectory(e) then Err(NotAFile)
      else if FileSize(e) == 0 then Ok([])
      else ChainBytes(v, l, FirstCluster(e), FileSize(e))
  }

  ghost function ChainBytes(v: Volume, l: Layout, h: nat, size: nat): Result<seq<byte>, VfsError> {
    if h in l.chains && InRange(l.chains[h], |v.data|) then Ok(Window(Content(v.data, l.chains[h]), 0, size))
        else Err(LeavesFat)
  }

  /** `read_file_content` depends on the parent directory and the upper-cased name only. */
  lemma ReadIsContentAt(v: Volume, l: Layout, q: seq<byte>)
    requires Good(v, l) && v.Valid() && ParentDir(v, q).Some?
    ensures ParentDir(v, q).value in l.dirs
    ensures ReadFileContent(v, q)
            == if NamePart(q) == [] then Ok([]) else ContentAt(v, l, ParentDir(v, q).value, ToUpper(NamePart(q)))
  {
    hide Good, Slots, FindFrom, WalkDirs, Follow, FullNameUpper, IsDotEntry, IsDirectory, FirstCluster, FileSize,
         Content;
    var d := AtParent(v, l, q);
    var n := ToUpper(NamePart(q));
    var k := FindFrom(l.dirs[d], 0, n);
    if NamePart(q) != [] && k.Some? && !IsDirectory(l.dirs[d][k.value]) {
      GoodDirOk(v, l, d);
      NotDot(l.dirs[d], k.value, n);
      FoundIsLive(v, l, d, n, k.value);
      var h := FirstCluster(l.dirs[d][k.value]);
      GoodChain(v, l, h);
    }
  }

  /** The file named `m` in directory `d`, if there is one, keeps its record and its chain. */
  ghost predicate FileKept(v: Volume, l: Layout, v': Volume, l': Layout, d: nat, m: seq<byte>) {
    && d in l.dirs && d in l'.dirs && |v'.data| == |v.data|
    && FindFrom(l'.dirs[d], 0, m) == FindFrom(l.dirs[d], 0, m)
    && var r := FindFrom(l.dirs[d], 0, m);
       r.Some? ==>
         var e := l.dirs[d][r.value];
         && r.value < |l'.dirs[d]| && l'.dirs[d][r.value] == e
         && (!IsDirectory(e) && FirstCluster(e) in l.chains ==> ChainKept(v, v', l.chains, l'.chains, FirstCluster(e)))
  }

  /** Then it reads the same. */
  lemma ContentKept(v: Volume, l: Layout, v': Volume, l': Layout, d: nat, m: seq<byte>)
    requires Good(v, l) && FileKept(v, l, v', l', d, m)
    ensures ContentAt(v', l', d, m) == ContentAt(v, l, d, m)
  {
    hide FindFrom, FullNameUpper, IsDotEntry, IsDirectory, FirstCluster, FileSize, DirOk, Good, Content, IsChain,
         Follow;
    var r := FindFrom(l.dirs[d], 0, m);
    if r.Some? && !IsDirectory(l.dirs[d][r.value]) {
      GoodDirOk(v, l, d);
      NotDot(l.dirs[d], r.value, m);
      FoundIsLive(v, l, d, m, r.value);
      var h := FirstCluster(l.dirs[d][r.value]);
      GoodChain(v, l, h);
      GoodValid(v, l);
      KeptContent(v, v', l.chains, l'.chains, h);
    }
  }

  /** A path that still leads to its directory reads the same file as before. */
  lemma ReadKept(v: Volume, l: Layout, v': Volume, l': Layout, q: seq<byte>)
    requires Good(v, l) && Good(v', l') && v.Valid() && v'.Valid()
    requires ParentDir(v, q).Some? && ParentDir(v', q) == ParentDir(v, q)
    requires FileKept(v, l, v', l', ParentDir(v, q).value, ToUpper(NamePart(q)))
    ensures ReadFileContent(v', q) == ReadFileContent(v, q)
  {
    hide Good, WalkDirs, ReadFileContent, ContentAt, FileKept;
    ReadIsContentAt(v, l, q);
    ReadIsContentAt(v', l', q);
    ContentKept(v, l, v', l', ParentDir(v, q).value, ToUpper(NamePart(q)));
  }

  /** The chain of a found file is kept when it is neither `a` nor `b`. */
  lemma FoundFileKept(v: Volume, l: Layout, v': Volume, l': Layout, g: nat, m: seq<byte>, a: nat, b: nat)
    requires Good(v, l) && g in l.dirs && a in l.dirs && OthersKept(v, v', l.chains, l'.chains, a, b)
    requires var r := FindFrom(l.dirs[g], 0, m);
             r.Some? && b !in l.dirs && !IsDirectory(l.dirs[g][r.value]) ==> FirstCluster(l.dirs[g][r.value]) != b
    ensures |v'.data| == |v.data|
    ensures var r := FindFrom(l.dirs[g], 0, m);
            r.Some? && !IsDirectory(l.dirs[g][r.value]) && FirstCluster(l.dirs[g][r.value]) in l.chains ==>
              ChainKept(v, v', l.chains, l'.chains, FirstCluster(l.dirs[g][r.value]))
  {
    hide FindFrom, FullNameUpper, IsDotEntry, IsDirectory, FirstCluster, DirOk, Stored, TreeOk;
    var r := FindFrom(l.dirs[g], 0, m);
    if r.Some? && !IsDirectory(l.dirs[g][r.value]) {
      GoodDirOk(v, l, g);
      NotDot(l.dirs[g], r.value, m);
      FoundIsLive(v, l, g, m, r.value);
    }
  }
}
