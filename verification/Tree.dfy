// The directory half of the volume invariant: every chain but the root's is headed by exactly one
// live directory entry, and every live entry heads a chain.
module Tree {
  import opened DirEntries
  import opened Directory
  import opened Paths

  /** The "." and ".." records, by their raw name and blank extension. */
  predicate IsDotEntry(e: DirEntry) {
    (e[..8] == Field([DOT], 8) || e[..8] == Field([DOT, DOT], 8)) && Ends(e[8])
  }

  /** An entry that owns a chain. */
  predicate Live(e: DirEntry) { !IsEnd(e) && !Skipped(e) && !IsDotEntry(e) }

  /** Nothing behind the end marker, upper-case names, and dot records that are directories. */
  ghost predicate DirOk(slots: seq<DirEntry>) {
    && EndOk(slots)
    && Canonical(slots)
    && (forall i :: 0 <= i < |slots| && !IsEnd(slots[i]) && !Skipped(slots[i]) && IsDotEntry(slots[i]) ==>
       IsDirectory(slots[i]))
  }

  ghost predicate LiveAt(dirs: map<nat, seq<DirEntry>>, d: nat, k: nat) {
    d in dirs && k < |dirs[d]| && Live(dirs[d][k])
  }

  /** The chain a live entry heads is known, is its own, and is a directory exactly when the entry says so. */
  ghost predicate EntryOk(root: nat, heads: set<nat>, dirs: map<nat, seq<DirEntry>>, owner: map<nat, (nat, nat)>,
                          d: nat, k: nat)
    requires LiveAt(dirs, d, k)
  {
    var c := FirstCluster(dirs[d][k]);
    && c in heads && c != root
    && (IsDirectory(dirs[d][k]) <==> c in dirs)
    && c in owner && owner[c] == (d, k)
  }

  /** The head `h` is owned by the live entry recorded for it. */
  ghost predicate OwnedAt(dirs: map<nat, seq<DirEntry>>, owner: map<nat, (nat, nat)>, h: nat) {
    && h in owner
    && LiveAt(dirs, owner[h].0, owner[h].1)
    && FirstCluster(dirs[owner[h].0][owner[h].1]) == h
  }

  ghost predicate TreeOk(root: nat, heads: set<nat>, dirs: map<nat, seq<DirEntry>>, owner: map<nat, (nat, nat)>) {
    && root in dirs
    && dirs.Keys <= heads
    && (forall d :: d in dirs ==> DirOk(dirs[d]))
    && (forall d: nat, k: nat :: LiveAt(dirs, d, k) ==> EntryOk(root, heads, dirs, owner, d, k))
    && (forall h :: h in heads && h != root ==> OwnedAt(dirs, owner, h))
    && Rooted(root, dirs.Keys, owner)
  }

  // -- Every directory hangs below the root -----------------------------------------------------------

  ghost function RankOf(rank: map<nat, nat>, d: nat): nat { if d in rank then rank[d] else 0 }

  /** The directory holding the entry of `h` has a lower rank than `h`. */
  ghost predicate OwnerLower(owner: map<nat, (nat, nat)>, rank: map<nat, nat>, h: nat) {
    h in owner && RankOf(rank, owner[h].0) < RankOf(rank, h)
  }

  ghost predicate Ranked(root: nat, dirs: set<nat>, owner: map<nat, (nat, nat)>, rank: map<nat, nat>) {
    forall h :: h in dirs && h != root ==> OwnerLower(owner, rank, h)
  }

  /** Going up from a directory to the one that holds its entry ends at the root: no directory is its
      own ancestor. */
  ghost predicate Rooted(root: nat, dirs: set<nat>, owner: map<nat, (nat, nat)>) {
    exists rank: map<nat, nat> :: Ranked(root, dirs, owner, rank)
  }

  /** `d` is reached from the root by entering live directory entries, `n` of them. */
  ghost predicate Below(root: nat, dirs: map<nat, seq<DirEntry>>, d: nat, n: nat)
    decreases n
  {
    d in dirs &&
    if n == 0 then d == root
    else exists g: nat, k: nat :: LiveAt(dirs, g, k) && IsDirectory(dirs[g][k]) && FirstCluster(dirs[g][k]) == d
                                  && Below(root, dirs, g, n - 1)
  }

  /** Every directory of the tree is reached from the root. */
  lemma EveryDirReached(root: nat, heads: set<nat>, dirs: map<nat, seq<DirEntry>>, owner: map<nat, (nat, nat)>, d: nat)
    requires TreeOk(root, heads, dirs, owner) && d in dirs
    ensures exists n: nat :: Below(root, dirs, d, n)
  {
    hide DirOk, Live;
    var rank :| Ranked(root, dirs.Keys, owner, rank);
    var n := RankedReached(root, heads, dirs, owner, rank, d);
  }

  lemma {:induction false} RankedReached(root: nat, heads: set<nat>, dirs: map<nat, seq<DirEntry>>,
                                         owner: map<nat, (nat, nat)>, rank: map<nat, nat>, d: nat)
    returns (n: nat)
    requires TreeOk(root, heads, dirs, owner) && d in dirs && Ranked(root, dirs.Keys, owner, rank)
    ensures Below(root, dirs, d, n)
    decreases RankOf(rank, d)
  {
    hide DirOk, Live, IsDirectory, FirstCluster, Rooted;
    if d == root {
      n := 0;
    } else {
      assert OwnedAt(dirs, owner, d) && OwnerLower(owner, rank, d);
      var g, k := owner[d].0, owner[d].1;
      assert EntryOk(root, heads, dirs, owner, g, k);
      var m := RankedReached(root, heads, dirs, owner, rank, g);
      n := m + 1;
    }
  }

  /** A new head, entered from a directory that was there. */
  lemma RootedAdd(root: nat, dirs: set<nat>, owner: map<nat, (nat, nat)>, dirs': set<nat>, h: nat, d: nat, k: nat)
    requires Rooted(root, dirs, owner) && h !in dirs && d != h && dirs' <= dirs + {h}
    requires forall x :: x in dirs && x != root ==> x in owner && owner[x].0 != h
    ensures Rooted(root, dirs', owner[h := (d, k)])
  {
    var rank :| Ranked(root, dirs, owner, rank);
    var rank' := rank[h := RankOf(rank, d) + 1];
    forall x | x in dirs' && x != root
      ensures OwnerLower(owner[h := (d, k)], rank', x)
    {
      if x != h {
        assert OwnerLower(owner, rank, x);
      }
    }
    assert Ranked(root, dirs', owner[h := (d, k)], rank');
  }

  /** Fewer directories, each entered from where it was. */
  lemma RootedSub(root: nat, dirs: set<nat>, owner: map<nat, (nat, nat)>, dirs': set<nat>, owner': map<nat, (nat, nat)>)
    requires Rooted(root, dirs, owner) && dirs' <= dirs
    requires forall x :: x in dirs' && x != root && x in owner ==> x in owner' && owner'[x].0 == owner[x].0
    ensures Rooted(root, dirs', owner')
  {
    var rank :| Ranked(root, dirs, owner, rank);
    forall x | x in dirs' && x != root
      ensures OwnerLower(owner', rank, x)
    {
      assert OwnerLower(owner, rank, x);
    }
    assert Ranked(root, dirs', owner', rank);
  }

  /** Directories other than the root have an entry in a directory. */
  lemma OwnersAreDirs(root: nat, heads: set<nat>, dirs: map<nat, seq<DirEntry>>, owner: map<nat, (nat, nat)>)
    requires TreeOk(root, heads, dirs, owner)
    ensures Rooted(root, dirs.Keys, owner)
    ensures forall x :: x in dirs && x != root ==> x in owner && owner[x].0 in dirs
  {
    hide DirOk, Live, IsDirectory, FirstCluster, Rooted;
    forall x | x in dirs && x != root
      ensures x in owner && owner[x].0 in dirs
    {
      assert OwnedAt(dirs, owner, x);
    }
  }

  /** Two live entries never share a chain. */
  lemma OwnersDistinct(root: nat, heads: set<nat>, dirs: map<nat, seq<DirEntry>>, owner: map<nat, (nat, nat)>,
                       d: nat, k: nat, d': nat, k': nat)
    requires TreeOk(root, heads, dirs, owner) && LiveAt(dirs, d, k) && LiveAt(dirs, d', k')
    requires FirstCluster(dirs[d][k]) == FirstCluster(dirs[d'][k'])
    ensures d == d' && k == k'
  {
    assert EntryOk(root, heads, dirs, owner, d, k) && EntryOk(root, heads, dirs, owner, d', k');
  }

  // -- One slot changed -------------------------------------------------------------------------------

  /** `slots'` is `slots` with `e` at `k`, in an end marker's or a skipped record's place, and end markers beyond the
      old end. */
  ghost predicate EntryAdded(slots: seq<DirEntry>, slots': seq<DirEntry>, k: nat, e: DirEntry) {
    && |slots| <= |slots'| && k < |slots'| && slots'[k] == e
    && (forall i :: 0 <= i < |slots| && i != k ==> slots'[i] == slots[i])
    && (forall i :: |slots| <= i < |slots'| && i != k ==> IsEnd(slots'[i]))
    && (k < |slots| ==> IsEnd(slots[k]) || Skipped(slots[k]))
    && DirOk(slots')
  }

  /** A new entry, owning the new head `h`, in directory `d`; `sub` holds the slots of `h` when the
      entry is a directory. */
  lemma TreeAdd(root: nat, heads: set<nat>, dirs: map<nat, seq<DirEntry>>, owner: map<nat, (nat, nat)>,
                d: nat, slots': seq<DirEntry>, k: nat, e: DirEntry, h: nat, dirs': map<nat, seq<DirEntry>>)
    requires TreeOk(root, heads, dirs, owner) && d in dirs && h !in heads
    requires EntryAdded(dirs[d], slots', k, e) && Live(e) && FirstCluster(e) == h
    requires IsDirectory(e) ==> h in dirs'
    requires dirs' == if IsDirectory(e) then dirs[d := slots'][h := dirs'[h]] else dirs[d := slots']
    requires IsDirectory(e) ==> DirOk(dirs'[h]) && forall i :: 0 <= i < |dirs'[h]| ==> !Live(dirs'[h][i])
    ensures TreeOk(root, heads + {h}, dirs', owner[h := (d, k)])
  {
    hide DirOk, Live, IsDirectory, FirstCluster, IsEnd, EntryAdded, Rooted;
    var heads', owner' := heads + {h}, owner[h := (d, k)];
    AddedParts(dirs[d], slots', k, e);
    OwnersAreDirs(root, heads, dirs, owner);
    RootedAdd(root, dirs.Keys, owner, dirs'.Keys, h, d, k);
    forall g: nat, i: nat | LiveAt(dirs', g, i)
      ensures EntryOk(root, heads', dirs', owner', g, i)
    {
      if !(g == d && i == k) {
        EndNotLive(dirs'[g][i]);
        OldEntryKept(root, heads, dirs, owner, d, slots', k, e, h, dirs', g, i);
      }
    }
    forall x | x in heads' && x != root
      ensures OwnedAt(dirs', owner', x)
    {
      if x != h {
        OldOwnerKept(root, heads, dirs, owner, d, slots', k, e, h, dirs', x);
      }
    }
  }

  lemma AddedParts(slots: seq<DirEntry>, slots': seq<DirEntry>, k: nat, e: DirEntry)
    requires EntryAdded(slots, slots', k, e)
    ensures |slots| <= |slots'| && k < |slots'| && slots'[k] == e && DirOk(slots')
  {
  }

  lemma OldEntryKept(root: nat, heads: set<nat>, dirs: map<nat, seq<DirEntry>>, owner: map<nat, (nat, nat)>,
                     d: nat, slots': seq<DirEntry>, k: nat, e: DirEntry, h: nat, dirs': map<nat, seq<DirEntry>>,
                         g: nat, i: nat)
    requires TreeOk(root, heads, dirs, owner) && d in dirs && h !in heads && EntryAdded(dirs[d], slots', k, e)
    requires h in dirs' ==> forall i :: 0 <= i < |dirs'[h]| ==> !Live(dirs'[h][i])
    requires dirs' == dirs[d := slots'] || (h in dirs' && dirs' == dirs[d := slots'][h := dirs'[h]])
    requires LiveAt(dirs', g, i) && !(g == d && i == k) && !IsEnd(dirs'[g][i])
    ensures EntryOk(root, heads + {h}, dirs', owner[h := (d, k)], g, i)
  {
    hide DirOk, Live, IsDirectory, FirstCluster, IsEnd, Rooted;
    assert LiveAt(dirs, g, i);
    assert EntryOk(root, heads, dirs, owner, g, i);
  }

  lemma OldOwnerKept(root: nat, heads: set<nat>, dirs: map<nat, seq<DirEntry>>, owner: map<nat, (nat, nat)>,
                     d: nat, slots': seq<DirEntry>, k: nat, e: DirEntry, h: nat, dirs': map<nat, seq<DirEntry>>, x: nat)
    requires TreeOk(root, heads, dirs, owner) && d in dirs && h !in heads && EntryAdded(dirs[d], slots', k, e)
    requires dirs' == dirs[d := slots'] || (h in dirs' && dirs' == dirs[d := slots'][h := dirs'[h]])
    requires x in heads && x != root
    ensures OwnedAt(dirs', owner[h := (d, k)], x)
  {
    hide DirOk, IsDirectory, FirstCluster, IsDotEntry, Rooted;
    assert OwnedAt(dirs, owner, x);
  }

  lemma EndNotLive(e: DirEntry)
    ensures IsEnd(e) ==> !Live(e)
  {
  }

  /** A live entry removed together with the chain it owns. */
  lemma TreeRemove(root: nat, heads: set<nat>, dirs: map<nat, seq<DirEntry>>, owner: map<nat, (nat, nat)>,
                   d: nat, k: nat, slots': seq<DirEntry>)
    requires TreeOk(root, heads, dirs, owner) && LiveAt(dirs, d, k)
    requires slots' == WithSlot(dirs[d], k, Tombstone(dirs[d][k])) && DirOk(slots')
    requires var h := FirstCluster(dirs[d][k]); h in dirs ==> forall i :: 0 <= i < |dirs[h]| ==> !Live(dirs[h][i])
    ensures var h := FirstCluster(dirs[d][k]);
            h in heads && h != root && TreeOk(root, heads - {h}, dirs[d := slots'] - {h}, owner - {h})
  {
    hide DirOk, Live, IsDirectory, FirstCluster, IsEnd, Rooted;
    var h := FirstCluster(dirs[d][k]);
    var heads', dirs', owner' := heads - {h}, dirs[d := slots'] - {h}, owner - {h};
    RootedSub(root, dirs.Keys, owner, dirs'.Keys, owner');
    assert EntryOk(root, heads, dirs, owner, d, k);
    assert d != h;
    TombstoneNotLive(dirs[d][k]);
    hide Tombstone, Matches;
    assert forall x :: x in dirs' ==> DirOk(dirs'[x]);
    forall g: nat, i: nat | LiveAt(dirs', g, i)
      ensures EntryOk(root, heads', dirs', owner', g, i)
    {
      assert !(g == d && i == k);
      EntryKept(root, heads, dirs, owner, d, k, slots', heads', dirs', owner', g, i);
    }
    forall x | x in heads' && x != root
      ensures OwnedAt(dirs', owner', x)
    {
      OwnerKept(root, heads, dirs, owner, d, k, slots', dirs', owner', x);
    }
  }

  /** An entry other than the changed one stays right. */
  lemma EntryKept(root: nat, heads: set<nat>, dirs: map<nat, seq<DirEntry>>, owner: map<nat, (nat, nat)>,
                  d: nat, k: nat, slots': seq<DirEntry>,
                  heads': set<nat>, dirs': map<nat, seq<DirEntry>>, owner': map<nat, (nat, nat)>, g: nat, i: nat)
    requires TreeOk(root, heads, dirs, owner) && LiveAt(dirs, d, k)
    requires |slots'| == |dirs[d]| && forall j :: 0 <= j < |slots'| && j != k ==> slots'[j] == dirs[d][j]
    requires var h := FirstCluster(dirs[d][k]);
             && (forall x :: x in heads && x != h ==> x in heads')
             && (forall x :: x in heads && x in owner && x != h ==> x in owner' && owner'[x] == owner[x])
             && (forall x :: x in dirs' ==> x in dirs && dirs'[x] == if x == d then slots' else dirs[x])
             && (forall x :: x in dirs && x != h ==> x in dirs')
    requires LiveAt(dirs', g, i) && !(g == d && i == k)
    ensures EntryOk(root, heads', dirs', owner', g, i)
  {
    hide DirOk, Live, IsDirectory, FirstCluster, IsEnd, Rooted;
    assert LiveAt(dirs, g, i);
    assert EntryOk(root, heads, dirs, owner, g, i);
    assert EntryOk(root, heads, dirs, owner, d, k);
  }

  /** So does the ownership of any other head. */
  lemma OwnerKept(root: nat, heads: set<nat>, dirs: map<nat, seq<DirEntry>>, owner: map<nat, (nat, nat)>,
                  d: nat, k: nat, slots': seq<DirEntry>,
                  dirs': map<nat, seq<DirEntry>>, owner': map<nat, (nat, nat)>, x: nat)
    requires TreeOk(root, heads, dirs, owner) && LiveAt(dirs, d, k)
    requires |slots'| == |dirs[d]| && forall j :: 0 <= j < |slots'| && j != k ==> slots'[j] == dirs[d][j]
    requires var h := FirstCluster(dirs[d][k]);
             && x in heads && x != root && x != h
             && (forall y :: y in heads && y in owner && y != h ==> y in owner' && owner'[y] == owner[y])
             && (forall y :: y in dirs && y != h ==> y in dirs' && dirs'[y] == if y == d then slots' else dirs[y])
             && (h in dirs && h !in dirs' ==> forall i :: 0 <= i < |dirs[h]| ==> !Live(dirs[h][i]))
             && (h in dirs && h in dirs' ==> dirs'[h] == if h == d then slots' else dirs[h])
    ensures OwnedAt(dirs', owner', x)
  {
    hide DirOk, Live, IsDirectory, FirstCluster, IsEnd, Rooted;
    assert OwnedAt(dirs, owner, x);
    assert owner[x] != (d, k);
  }

  lemma TombstoneNotLive(e: DirEntry)
    ensures !Live(Tombstone(e))
  {
  }

  /** An entry's chain exchanged for a new one (or kept), its size changed, nothing else. */
  lemma TreeRedirect(root: nat, heads: set<nat>, dirs: map<nat, seq<DirEntry>>, owner: map<nat, (nat, nat)>,
                     d: nat, k: nat, e': DirEntry, slots': seq<DirEntry>)
    requires TreeOk(root, heads, dirs, owner) && LiveAt(dirs, d, k)
    requires slots' == WithSlot(dirs[d], k, e') && DirOk(slots')
    requires Live(e') && (IsDirectory(e') <==> IsDirectory(dirs[d][k]))
    requires FirstCluster(e') == FirstCluster(dirs[d][k]) || (FirstCluster(e') !in heads && !IsDirectory(e'))
    ensures var h, h' := FirstCluster(dirs[d][k]), FirstCluster(e');
            h in heads && h != root && (IsDirectory(e') <==> h in dirs)
            && TreeOk(root, heads - {h} + {h'}, dirs[d := slots'], (owner - {h})[h' := (d, k)])
  {
    hide DirOk, Live, IsDirectory, FirstCluster, IsEnd, Rooted;
    var h, h' := FirstCluster(dirs[d][k]), FirstCluster(e');
    var heads', dirs', owner' := heads - {h} + {h'}, dirs[d := slots'], (owner - {h})[h' := (d, k)];
    assert EntryOk(root, heads, dirs, owner, d, k);
    RootedSub(root, dirs.Keys, owner, dirs'.Keys, owner');
    forall g: nat, i: nat | LiveAt(dirs', g, i)
      ensures EntryOk(root, heads', dirs', owner', g, i)
    {
      if !(g == d && i == k) {
        EntryKept(root, heads, dirs, owner, d, k, slots', heads', dirs', owner', g, i);
      }
    }
    forall x | x in heads' && x != root
      ensures OwnedAt(dirs', owner', x)
    {
      if x != h' {
        OwnerKept(root, heads, dirs, owner, d, k, slots', dirs', owner', x);
      }
    }
  }
}
