// The storage half of the volume invariant: the FAT is a set of disjoint well-formed chains that
// cover every used cluster, and the directories hold known slots.
module Storage {
  import opened Bytes
  import opened Chains
  import opened Volumes
  import opened DirEntries
  import opened Directory

  /** A chain kept under its first cluster, with every cluster of it at home there. */
  ghost predicate ChainAt(fat: seq<nat>, chains: map<nat, seq<nat>>, home: map<nat, nat>, h: nat)
    requires h in chains
  {
    && IsChain(fat, chains[h]) && chains[h][0] == h && |chains[h]| <= MAX_CHAIN
    && (forall c :: c in chains[h] ==> c in home && home[c] == h)
  }

  ghost predicate HomeAt(chains: map<nat, seq<nat>>, home: map<nat, nat>, c: nat) {
    c in home && home[c] in chains && c in chains[home[c]]
  }

  /** Chains are well-formed, disjoint (a cluster has one home) and cover every cluster that is
      neither free nor marked bad. */
  ghost predicate FatOk(fat: seq<nat>, chains: map<nat, seq<nat>>, home: map<nat, nat>) {
    && (forall h :: h in chains ==> ChainAt(fat, chains, home, h))
    && (forall c: nat :: 2 <= c < |fat| && fat[c] != FREE && fat[c] != BAD ==> HomeAt(chains, home, c))
  }

  /** `home` once the chain of `h` is `cs`. */
  ghost function Rehome(home: map<nat, nat>, h: nat, cs: seq<nat>): (r: map<nat, nat>)
    ensures forall c :: c in r <==> c in home || c in cs
    ensures forall c :: c in r ==> r[c] == if c in cs then h else home[c]
  {
    map c | c in home.Keys + (set x | x in cs) :: if c in cs then h else home[c]
  }

  ghost function OldChain(chains: map<nat, seq<nat>>, h: nat): seq<nat> {
    if h in chains then chains[h] else []
  }

  lemma MemberInRange(cs: seq<nat>, n: nat, c: nat)
    requires InRange(cs, n) && c in cs
    ensures 2 <= c < n
  {
    var i :| 0 <= i < |cs| && cs[i] == c;
    assert 2 <= cs[i];
  }

  /** A chain whose clusters keep their words is still a chain. */
  lemma ChainFrame(fat: seq<nat>, fat': seq<nat>, cs: seq<nat>)
    requires IsChain(fat, cs) && |fat'| == |fat|
    requires forall c :: c in cs ==> 0 <= c < |fat| && fat'[c] == fat[c]
    ensures IsChain(fat', cs)
  {
    forall i: nat | i + 1 < |cs|
      ensures LinkAt(fat', cs, i)
    {
      assert LinkAt(fat, cs, i);
      assert cs[i] in cs;
    }
  }

  /** Clusters of other chains are neither in the old chain of `h` nor free. */
  lemma ApartFrom(fat: seq<nat>, chains: map<nat, seq<nat>>, home: map<nat, nat>, g: nat, h: nat, c: nat)
    requires FatOk(fat, chains, home) && g in chains && g != h && c in chains[g]
    ensures 2 <= c < |fat| && fat[c] != FREE && c !in OldChain(chains, h)
    ensures c in home && home[c] == g
  {
    assert ChainAt(fat, chains, home, g);
    ChainNotFree(fat, chains[g], c);
    if h in chains {
      assert ChainAt(fat, chains, home, h);
    }
  }

  lemma ChainFacts(fat: seq<nat>, chains: map<nat, seq<nat>>, home: map<nat, nat>, h: nat)
    requires FatOk(fat, chains, home) && h in chains
    ensures ChainAt(fat, chains, home, h)
    ensures IsChain(fat, chains[h]) && chains[h] != [] && chains[h][0] == h && |chains[h]| <= MAX_CHAIN
    ensures InRange(chains[h], |fat|) && NoDup(chains[h]) && 2 <= chains[h][|chains[h]| - 1] < |fat|
  {
    assert ChainAt(fat, chains, home, h);
  }

  /** A chain none of whose clusters is written stays as it was. */
  lemma OtherChain(fat: seq<nat>, fat': seq<nat>, chains: map<nat, seq<nat>>, home: map<nat, nat>, h: nat, cs: seq<nat>,
                   g: nat, chains': map<nat, seq<nat>>, home': map<nat, nat>)
    requires FatOk(fat, chains, home) && |fat'| == |fat| && g in chains && g != h
    requires g in chains' && chains'[g] == chains[g]
    requires forall c :: c in cs && c !in OldChain(chains, h) ==> 0 <= c < |fat| && fat[c] == FREE
    requires forall c :: 0 <= c < |fat| && c !in cs ==> fat'[c] == fat[c]
    requires forall c :: c in home && c !in cs ==> c in home' && home'[c] == home[c]
    ensures ChainAt(fat', chains', home', g)
  {
    forall c | c in chains[g]
      ensures 0 <= c < |fat| && fat'[c] == fat[c] && c in home' && home'[c] == g
    {
      ApartFrom(fat, chains, home, g, h, c);
    }
    assert ChainAt(fat, chains, home, g);
    ChainFrame(fat, fat', chains[g]);
  }

  /** Replacing one chain by another (a new one, a longer one) keeps the FAT a set of disjoint
      chains, when the new clusters were free and dropped clusters become free. */
  lemma Rechain(fat: seq<nat>, fat': seq<nat>, chains: map<nat, seq<nat>>, home: map<nat, nat>, h: nat, cs: seq<nat>)
    requires FatOk(fat, chains, home) && |fat'| == |fat|
    requires IsChain(fat', cs) && cs[0] == h && |cs| <= MAX_CHAIN
    requires forall c :: c in cs && c !in OldChain(chains, h) ==> 0 <= c < |fat| && fat[c] == FREE
    requires forall c :: c in OldChain(chains, h) ==> c in cs
    requires forall c :: 0 <= c < |fat| && c !in cs ==> fat'[c] == fat[c]
    ensures FatOk(fat', chains[h := cs], Rehome(home, h, cs))
  {
    hide IsChain;
    var chains', home' := chains[h := cs], Rehome(home, h, cs);
    forall g | g in chains'
      ensures ChainAt(fat', chains', home', g)
    {
      if g != h {
        OtherChain(fat, fat', chains, home, h, cs, g, chains', home');
      }
    }
    forall c: nat | 2 <= c < |fat'| && fat'[c] != FREE && fat'[c] != BAD
      ensures HomeAt(chains', home', c)
    {
      if c !in cs {
        assert HomeAt(chains, home, c);
      }
    }
  }

  /** So does dropping a chain whose clusters become free. */
  lemma Unchain(fat: seq<nat>, chains: map<nat, seq<nat>>, home: map<nat, nat>, h: nat)
    requires FatOk(fat, chains, home) && h in chains
    ensures IsChain(fat, chains[h])
    ensures FatOk(Free(fat, chains[h]), chains - {h}, home)
  {
    hide IsChain, InRange, NoDup, Free;
    ChainFacts(fat, chains, home, h);
    var fat', chains' := Free(fat, chains[h]), chains - {h};
    forall g | g in chains'
      ensures ChainAt(fat', chains', home, g)
    {
      OtherChain(fat, fat', chains, home, h, chains[h], g, chains', home);
    }
    forall c: nat | 2 <= c < |fat'| && fat'[c] != FREE && fat'[c] != BAD
      ensures HomeAt(chains', home, c)
    {
      assert HomeAt(chains, home, c);
    }
  }

  // -- The table decides which chains there are -------------------------------------------------------

  lemma ChainInRange(fat: seq<nat>, cs: seq<nat>)
    requires IsChain(fat, cs)
    ensures InRange(cs, |fat|)
  {
  }

  lemma PrevLink(fat: seq<nat>, cs: seq<nat>, j: nat)
    requires IsChain(fat, cs) && 0 < j < |cs|
    ensures 2 <= cs[j - 1] < |fat| && fat[cs[j - 1]] == cs[j]
  {
    assert LinkAt(fat, cs, j - 1);
  }

  /** A cluster that leads on stands in some chain before the one it leads to. */
  lemma NextInChain(fat: seq<nat>, chains: map<nat, seq<nat>>, home: map<nat, nat>, p: nat) returns (g: nat, j: nat)
    requires FatOk(fat, chains, home) && 2 <= p < |fat| && fat[p] != FREE && fat[p] < BAD
    ensures g in chains && IsChain(fat, chains[g]) && 0 < j < |chains[g]| && chains[g][j] == fat[p]
  {
    assert HomeAt(chains, home, p);
    g := home[p];
    ChainFacts(fat, chains, home, g);
    hide FatOk, IsChain, NoDup, InRange;
    j := NextOf(fat, chains[g], p);
  }

  lemma NextOf(fat: seq<nat>, cs: seq<nat>, p: nat) returns (j: nat)
    requires IsChain(fat, cs) && p in cs && 2 <= p < |fat| && fat[p] < BAD
    ensures 0 < j < |cs| && cs[j] == fat[p]
  {
    var i :| 0 <= i < |cs| && cs[i] == p;
    j := i + 1;
    assert i != |cs| - 1;
    PrevLink(fat, cs, j);
  }

  /** So it leads to a used cluster. */
  lemma NoDanglingLink(fat: seq<nat>, chains: map<nat, seq<nat>>, home: map<nat, nat>, p: nat)
    requires FatOk(fat, chains, home) && 2 <= p < |fat| && fat[p] != FREE && fat[p] < BAD
    ensures 2 <= fat[p] < |fat| && fat[fat[p]] != FREE
  {
    hide FatOk, IsChain;
    var g, j := NextInChain(fat, chains, home, p);
    ChainNotFree(fat, chains[g], chains[g][j]);
  }

  /** No word points at the first cluster of a chain. */
  lemma HeadUnlinked(fat: seq<nat>, chains: map<nat, seq<nat>>, home: map<nat, nat>, h: nat, p: nat)
    requires FatOk(fat, chains, home) && h in chains && 2 <= p < |fat| <= BAD
    ensures fat[p] != h
  {
    hide FatOk, IsChain;
    ChainFacts(fat, chains, home, h);
    if fat[p] == h {
      var g, j := NextInChain(fat, chains, home, p);
      HeadIsFirst(fat, chains, home, h, g, j);
    }
  }

  lemma HeadIsFirst(fat: seq<nat>, chains: map<nat, seq<nat>>, home: map<nat, nat>, h: nat, g: nat, j: nat)
    requires FatOk(fat, chains, home) && h in chains && g in chains && j < |chains[g]| && chains[g][j] == h
    ensures g == h && j == 0
  {
    hide Linked;
    assert ChainAt(fat, chains, home, h) && ChainAt(fat, chains, home, g);
    assert h in chains[g] && chains[h][0] in chains[h];
  }

  /** A used cluster at which no word points heads a chain. */
  lemma UnlinkedIsHead(fat: seq<nat>, chains: map<nat, seq<nat>>, home: map<nat, nat>, h: nat)
    requires FatOk(fat, chains, home) && 2 <= h < |fat| && fat[h] != FREE && fat[h] != BAD
    requires forall p :: 2 <= p < |fat| ==> fat[p] != h
    ensures h in chains
  {
    assert HomeAt(chains, home, h);
    var cs := chains[home[h]];
    ChainFacts(fat, chains, home, home[h]);
    var j :| 0 <= j < |cs| && cs[j] == h;
    hide FatOk, IsChain;
    if j > 0 {
      PrevLink(fat, cs, j);
    }
  }

  lemma HeadIn(fat: seq<nat>, chains: map<nat, seq<nat>>, home: map<nat, nat>,
               chains': map<nat, seq<nat>>, home': map<nat, nat>, h: nat)
    requires FatOk(fat, chains, home) && FatOk(fat, chains', home') && |fat| <= BAD && h in chains
    ensures h in chains' && chains'[h] == chains[h]
  {
    hide FatOk, IsChain;
    ChainFacts(fat, chains, home, h);
    assert h in chains[h];
    ChainNotFree(fat, chains[h], h);
    ChainNotBad(fat, chains[h], h);
    forall p | 2 <= p < |fat|
      ensures fat[p] != h
    {
      HeadUnlinked(fat, chains, home, h, p);
    }
    UnlinkedIsHead(fat, chains', home', h);
    ChainFacts(fat, chains', home', h);
    ChainedIff(fat, chains[h]);
    ChainedIff(fat, chains'[h]);
  }

  lemma ChainNotBad(fat: seq<nat>, cs: seq<nat>, c: nat)
    requires IsChain(fat, cs) && c in cs && |fat| <= BAD
    ensures 2 <= c < |fat| && fat[c] != BAD
  {
    var i :| 0 <= i < |cs| && cs[i] == c;
    if i < |cs| - 1 {
      assert LinkAt(fat, cs, i);
    }
  }

  /** A table splits into chains in one way. */
  lemma ChainsUnique(fat: seq<nat>, chains: map<nat, seq<nat>>, home: map<nat, nat>,
                     chains': map<nat, seq<nat>>, home': map<nat, nat>)
    requires FatOk(fat, chains, home) && FatOk(fat, chains', home') && |fat| <= BAD
    ensures chains' == chains
  {
    hide FatOk;
    forall h | h in chains
      ensures h in chains' && chains'[h] == chains[h]
    {
      HeadIn(fat, chains, home, chains', home', h);
    }
    forall h | h in chains'
      ensures h in chains
    {
      HeadIn(fat, chains', home', chains, home, h);
    }
  }

  /** A chain longer than `read_chain` follows is in no such table. */
  lemma TooLong(fat: seq<nat>, chains: map<nat, seq<nat>>, home: map<nat, nat>, fat': seq<nat>, cs: seq<nat>,
                chains': map<nat, seq<nat>>, home': map<nat, nat>)
    requires FatOk(fat, chains, home) && |fat'| == |fat| <= BAD
    requires IsChain(fat', cs) && cs[0] in chains && |cs| > MAX_CHAIN
    requires forall c :: 2 <= c < |fat| && c !in cs ==> fat'[c] == fat[c]
    ensures !FatOk(fat', chains', home')
  {
    hide FatOk, Follow;
    var h := cs[0];
    assert h in cs;
    ChainNotFree(fat', cs, h);
    ChainNotBad(fat', cs, h);
    if FatOk(fat', chains', home') {
      forall p | 2 <= p < |fat'|
        ensures fat'[p] != h
      {
        if p in cs {
          ChainSkipsHead(fat', cs, p);
        } else {
          HeadUnlinked(fat, chains, home, h, p);
        }
      }
      UnlinkedIsHead(fat', chains', home', h);
      ChainFacts(fat', chains', home', h);
      ChainedIff(fat', chains'[h]);
      CutWalk(fat', cs);
    }
  }

  lemma ChainSkipsHead(fat: seq<nat>, cs: seq<nat>, p: nat)
    requires IsChain(fat, cs) && p in cs && |fat| <= BAD
    ensures 2 <= p < |fat| && fat[p] != cs[0]
  {
    var j :| 0 <= j < |cs| && cs[j] == p;
    if j + 1 < |cs| {
      assert LinkAt(fat, cs, j);
    }
  }

  /** What `read_chain` returns of an over-long chain: its first 100001 clusters, which are no chain. */
  lemma CutWalk(fat: seq<nat>, cs: seq<nat>)
    requires IsChain(fat, cs) && |cs| > MAX_CHAIN && |fat| <= BAD
    ensures ChainOf(fat, cs[0]) == cs[..MAX_CHAIN] && !IsChain(fat, cs[..MAX_CHAIN])
  {
    hide Follow;
    var cut := cs[..MAX_CHAIN];
    forall i: nat | i + 1 < |cut|
      ensures LinkAt(fat, cut, i)
    {
      assert LinkAt(fat, cs, i);
    }
    assert LinkAt(fat, cs, MAX_CHAIN - 1);
    assert Walked(fat, cut[0], cut);
    FollowIsWalk(fat, cut[0], cut);
  }

  // -- Directories ------------------------------------------------------------------------------------

  ghost predicate DirAt(v: Volume, chains: map<nat, seq<nat>>, d: nat, slots: seq<DirEntry>) {
    d in chains && InRange(chains[d], |v.data|) && Slots(v.data, chains[d]) == slots
  }

  /** The volume holds these chains, and these directories among them. */
  ghost predicate Stored(v: Volume, chains: map<nat, seq<nat>>, home: map<nat, nat>, dirs: map<nat, seq<DirEntry>>) {
    && v.Valid()
    && FatOk(v.fat, chains, home)
    && (forall d :: d in dirs ==> DirAt(v, chains, d, dirs[d]))
  }

  /** What `read_chain` finds at a head is the chain kept there. */
  lemma StoredChain(v: Volume, chains: map<nat, seq<nat>>, home: map<nat, nat>, dirs: map<nat, seq<DirEntry>>, h: nat)
    requires Stored(v, chains, home, dirs) && h in chains
    ensures IsChain(v.fat, chains[h]) && |chains[h]| <= MAX_CHAIN && chains[h][0] == h
    ensures Chained(v.fat, h) && Readable(v.fat, h) && ChainOf(v.fat, h) == chains[h]
  {
    assert ChainAt(v.fat, chains, home, h);
    ChainedIff(v.fat, chains[h]);
    ChainedReadable(v.fat, h);
  }

  /** A directory outside `touched` keeps its slots. */
  lemma DirFrame(v: Volume, v': Volume, chains: map<nat, seq<nat>>, home: map<nat, nat>, h: nat, d: nat,
                 slots: seq<DirEntry>, touched: seq<nat>)
    requires v.Valid() && v'.Valid() && |v'.fat| == |v.fat|
    requires FatOk(v.fat, chains, home) && d != h && DirAt(v, chains, d, slots)
    requires forall c :: c in touched && c !in OldChain(chains, h) ==> 0 <= c < |v.fat| && v.fat[c] == FREE
    requires forall c :: 0 <= c < |v.data| && c !in touched ==> v'.data[c] == v.data[c]
    ensures DirAt(v', chains, d, slots)
  {
    hide Slots, IsChain;
    forall c | c in chains[d]
      ensures 0 <= c < |v.data| && v'.data[c] == v.data[c]
    {
      ApartFrom(v.fat, chains, home, d, h, c);
    }
    SlotsFrame(v.data, v'.data, chains[d]);
  }

  /** A file written, made or grown. */
  lemma StoredRechain(v: Volume, v': Volume, chains: map<nat, seq<nat>>, home: map<nat, nat>,
                      dirs: map<nat, seq<DirEntry>>, h: nat, cs: seq<nat>)
    requires Stored(v, chains, home, dirs) && h !in dirs
    requires ChainChanged(v, v', OldChain(chains, h), cs) && cs[0] == h && |cs| <= MAX_CHAIN
    requires forall c :: c in OldChain(chains, h) ==> c in cs
    ensures Stored(v', chains[h := cs], Rehome(home, h, cs), dirs)
  {
    NewMembersInRange(v, v', OldChain(chains, h), cs);
    Rechain(v.fat, v'.fat, chains, home, h, cs);
    forall d | d in dirs
      ensures DirAt(v', chains[h := cs], d, dirs[d])
    {
      assert DirAt(v, chains, d, dirs[d]);
      DirFrame(v, v', chains, home, h, d, dirs[d], cs);
    }
  }

  lemma NewMembersInRange(v: Volume, v': Volume, old': seq<nat>, cs: seq<nat>)
    requires v.Valid() && ChainChanged(v, v', old', cs)
    ensures forall c :: c in cs && c !in old' ==> 0 <= c < |v.fat| && v.fat[c] == FREE
  {
    forall c | c in cs
      ensures 2 <= c < |v.fat|
    {
      MemberInRange(cs, |v'.fat|, c);
    }
  }

  lemma FreeBound(fat: seq<nat>, cs: seq<nat>)
    requires InRange(cs, |fat|)
    requires forall c :: 0 <= c < |fat| ==> fat[c] < 0x1000_0000
    ensures forall c :: 0 <= c < |fat| ==> Free(fat, cs)[c] < 0x1000_0000
  {
  }

  /** A file's chain freed. */
  lemma StoredFree(v: Volume, chains: map<nat, seq<nat>>, home: map<nat, nat>, dirs: map<nat, seq<DirEntry>>, h: nat)
    requires Stored(v, chains, home, dirs) && h in chains && h !in dirs
    ensures InRange(chains[h], |v.fat|)
    ensures Stored(v.(fat := Free(v.fat, chains[h])), chains - {h}, home, dirs)
  {
    hide FatOk, ChainAt, IsChain, InRange, NoDup, Slots, Free;
    ChainFacts(v.fat, chains, home, h);
    Unchain(v.fat, chains, home, h);
    var v' := v.(fat := Free(v.fat, chains[h]));
    FreeBound(v.fat, chains[h]);
    forall d | d in dirs
      ensures DirAt(v', chains - {h}, d, dirs[d])
    {
      assert DirAt(v, chains, d, dirs[d]);
    }
  }

  /** A slot of a directory overwritten. */
  lemma StoredSetSlot(v: Volume, chains: map<nat, seq<nat>>, home: map<nat, nat>, dirs: map<nat, seq<DirEntry>>,
                      d: nat, k: nat, e: DirEntry)
    requires Stored(v, chains, home, dirs) && d in dirs && k < |dirs[d]|
    ensures DirAt(v, chains, d, dirs[d])
    ensures Stored(v.(data := SetSlot(v.data, chains[d], k, e)), chains, home, dirs[d := WithSlot(dirs[d], k, e)])
  {
    hide FatOk, ChainAt, IsChain, InRange, NoDup, Slots, SetSlot;
    assert DirAt(v, chains, d, dirs[d]);
    ChainFacts(v.fat, chains, home, d);
    SetSlotEffect(v.data, chains[d], k, e);
    var v' := v.(data := SetSlot(v.data, chains[d], k, e));
    assert DirAt(v', chains, d, WithSlot(dirs[d], k, e));
    forall g | g in dirs && g != d
      ensures DirAt(v', chains, g, dirs[g])
    {
      assert DirAt(v, chains, g, dirs[g]);
      DirFrame(v, v', chains, home, d, g, dirs[g], chains[d]);
    }
  }

  /** Freeing a cluster that is free or bad already changes no chain. */
  lemma FreeIdle(fat: seq<nat>, chains: map<nat, seq<nat>>, home: map<nat, nat>, c: nat)
    requires FatOk(fat, chains, home) && 2 <= c < |fat| <= BAD && (fat[c] == FREE || fat[c] == BAD)
    ensures FatOk(fat[c := FREE], chains, home)
  {
    hide IsChain;
    forall h | h in chains
      ensures ChainAt(fat[c := FREE], chains, home, h)
    {
      assert ChainAt(fat, chains, home, h);
      OutsideChain(fat, chains[h], c);
      ChainInRange(fat, chains[h]);
      ChainFrame(fat, fat[c := FREE], chains[h]);
    }
    forall x: nat | 2 <= x < |fat| && fat[c := FREE][x] != FREE && fat[c := FREE][x] != BAD
      ensures HomeAt(chains, home, x)
    {
      assert fat[x] != FREE && fat[x] != BAD;
    }
  }

  lemma OutsideChain(fat: seq<nat>, cs: seq<nat>, c: nat)
    requires IsChain(fat, cs) && |fat| <= BAD && c < |fat| && (fat[c] == FREE || fat[c] == BAD)
    ensures c !in cs
  {
    hide IsChain;
    if c in cs {
      ChainNotFree(fat, cs, c);
      ChainNotBad(fat, cs, c);
    }
  }

  /** The FAT after a chain got one cluster more at its end. */
  lemma AppendChain(fat: seq<nat>, cs: seq<nat>, c: nat)
    requires IsChain(fat, cs) && 2 <= c < |fat| && fat[c] == FREE
    ensures IsChain(fat[cs[|cs| - 1] := c][c := EOC], cs + [c])
  {
    NewClusterOutside(fat, cs, c);
    var fat', grown := fat[cs[|cs| - 1] := c][c := EOC], cs + [c];
    forall i: nat | i + 1 < |grown|
      ensures LinkAt(fat', grown, i)
    {
      if i + 1 < |cs| {
        assert LinkAt(fat, cs, i);
        assert cs[i] != cs[|cs| - 1];
      }
    }
  }

  /** `v` with cluster `c`, holding `block`, linked behind the chain `cs`. */
  ghost function Appended(v: Volume, cs: seq<nat>, c: nat, block: seq<byte>): Volume
    requires cs != [] && cs[|cs| - 1] < |v.fat| && c < |v.fat| && c < |v.data|
  {
    v.(fat := v.fat[cs[|cs| - 1] := c][c := EOC], data := v.data[c := block])
  }

  lemma AppendedChain(v: Volume, cs: seq<nat>, c: nat, block: seq<byte>)
    requires v.Valid() && IsChain(v.fat, cs) && 2 <= c < |v.fat| && v.fat[c] == FREE && |block| == v.csz
    ensures 2 <= cs[|cs| - 1] < |v.fat|
    ensures ChainChanged(v, Appended(v, cs, c, block), cs, cs + [c])
    ensures forall x :: x in cs ==> x in cs + [c]
    ensures c !in cs
  {
    NewClusterOutside(v.fat, cs, c);
    AppendChain(v.fat, cs, c);
    assert cs[|cs| - 1] in cs + [c] && c in cs + [c] by {
      assert (cs + [c])[|cs| - 1] == cs[|cs| - 1] && (cs + [c])[|cs|] == c;
    }
  }

  /** A directory grown by one fresh cluster. */
  lemma StoredAppend(v: Volume, chains: map<nat, seq<nat>>, home: map<nat, nat>, dirs: map<nat, seq<DirEntry>>,
                     d: nat, c: nat, block: seq<byte>)
    requires Stored(v, chains, home, dirs) && d in dirs && 2 <= c < |v.fat| && v.fat[c] == FREE
    requires |block| == v.csz && d in chains && |chains[d]| < MAX_CHAIN
    ensures chains[d] != [] && chains[d][|chains[d]| - 1] < |v.fat|
    ensures Stored(Appended(v, chains[d], c, block), chains[d := chains[d] + [c]], Rehome(home, d, chains[d] + [c]),
                   dirs[d := dirs[d] + SlotsOf(block)])
  {
    hide FatOk, ChainAt, IsChain, InRange, NoDup, Slots, SlotsOf, Rehome;
    assert DirAt(v, chains, d, dirs[d]);
    ChainFacts(v.fat, chains, home, d);
    var cs := chains[d];
    var grown, v' := cs + [c], Appended(v, cs, c, block);
    AppendedChain(v, cs, c, block);
    NewMembersInRange(v, v', cs, grown);
    Rechain(v.fat, v'.fat, chains, home, d, grown);
    AppendSlots(v.data, cs, c, block);
    forall g | g in dirs && g != d
      ensures DirAt(v', chains[d := grown], g, dirs[g])
    {
      assert DirAt(v, chains, g, dirs[g]);
      DirFrame(v, v', chains, home, d, g, dirs[g], grown);
    }
  }

  lemma AppendSlots(data: seq<seq<byte>>, cs: seq<nat>, c: nat, block: seq<byte>)
    requires InRange(cs, |data|) && 2 <= c < |data| && c !in cs
    ensures InRange(cs + [c], |data|)
    ensures Slots(data[c := block], cs + [c]) == Slots(data, cs) + SlotsOf(block)
  {
    SlotsFrame(data, data[c := block], cs);
    SlotsSnoc(data[c := block], cs, c);
  }

  /** A free cluster heads no chain. */
  lemma FreeIsNoHead(fat: seq<nat>, chains: map<nat, seq<nat>>, home: map<nat, nat>, c: nat)
    requires FatOk(fat, chains, home) && 2 <= c < |fat| && fat[c] == FREE
    ensures c !in chains
  {
    hide FatOk, IsChain;
    if c in chains {
      ChainFacts(fat, chains, home, c);
      ChainNotFree(fat, chains[c], chains[c][0]);
    }
  }

  lemma DirsAreHeads(v: Volume, chains: map<nat, seq<nat>>, home: map<nat, nat>, dirs: map<nat, seq<DirEntry>>)
    requires Stored(v, chains, home, dirs)
    ensures forall d :: d in dirs ==> d in chains
  {
    forall d | d in dirs
      ensures d in chains
    {
      assert DirAt(v, chains, d, dirs[d]);
    }
  }

  /** A new one-cluster chain made a directory. */
  lemma StoredNewDir(v: Volume, chains: map<nat, seq<nat>>, home: map<nat, nat>, dirs: map<nat, seq<DirEntry>>,
                     c: nat, block: seq<byte>)
    requires Stored(v, chains, home, dirs) && 2 <= c < |v.fat| && v.fat[c] == FREE && |block| == v.csz
    ensures c !in chains
    ensures Stored(v.(fat := v.fat[c := EOC], data := v.data[c := block]),
                   chains[c := [c]], Rehome(home, c, [c]), dirs[c := SlotsOf(block)])
  {
    FreeIsNoHead(v.fat, chains, home, c);
    DirsAreHeads(v, chains, home, dirs);
    var v' := v.(fat := v.fat[c := EOC], data := v.data[c := block]);
    NewChainChanged(v, c, block);
    hide FatOk, IsChain, Slots, SlotsOf, ChainChanged;
    StoredRechain(v, v', chains, home, dirs, c, [c]);
    OneClusterSlots(v'.data, c);
    assert DirAt(v', chains[c := [c]], c, SlotsOf(block));
  }

  lemma NewChainChanged(v: Volume, c: nat, block: seq<byte>)
    requires v.Valid() && 2 <= c < |v.fat| && v.fat[c] == FREE && |block| == v.csz
    ensures ChainChanged(v, v.(fat := v.fat[c := EOC], data := v.data[c := block]), [], [c])
  {
  }

  lemma OneClusterSlots(data: seq<seq<byte>>, c: nat)
    requires 2 <= c < |data|
    ensures InRange([c], |data|) && Slots(data, [c]) == SlotsOf(data[c])
  {
    assert [c][..0] == [];
    assert Slots(data, [c]) == Slots(data, []) + SlotsOf(data[c]);
  }
}
