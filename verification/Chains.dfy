// Cluster chains over a table of 28-bit FAT words: following a chain, allocating, linking and
// freeing. Nothing here knows about bytes; Device.dfy ties the table to the sectors.
module Chains {
  import opened Wrappers

  const EOC: nat := 0x0FFF_FFF8
  const BAD: nat := 0x0FFF_FFF7
  const FREE: nat := 0
  /** `read_chain` stops once it has collected this many clusters. */
  const MAX_CHAIN: nat := 100001

  predicate NoDup(cs: seq<nat>) {
    forall i, j :: 0 <= i < j < |cs| ==> cs[i] != cs[j]
  }

  predicate InRange(cs: seq<nat>, n: nat) {
    forall i :: 0 <= i < |cs| ==> 2 <= cs[i] < n
  }

  /** The word of the `i`-th cluster is the number of the next one. */
  predicate LinkAt(words: seq<nat>, cs: seq<nat>, i: nat)
    requires InRange(cs, |words|) && i + 1 < |cs|
  {
    words[cs[i]] == cs[i + 1]
  }

  /** Every cluster but the last is linked to its successor. */
  predicate Linked(words: seq<nat>, cs: seq<nat>)
    requires InRange(cs, |words|)
  {
    forall i: nat :: i + 1 < |cs| ==> LinkAt(words, cs, i)
  }

  lemma LinkedSnoc(words: seq<nat>, cs: seq<nat>, c: nat)
    requires InRange(cs, |words|) && Linked(words, cs) && 2 <= c < |words|
    requires cs != [] ==> words[cs[|cs| - 1]] == c
    ensures InRange(cs + [c], |words|) && Linked(words, cs + [c])
  {
    forall i: nat | i + 1 < |cs + [c]|
      ensures LinkAt(words, cs + [c], i)
    {
      if i + 1 < |cs| {
        assert LinkAt(words, cs, i);
      }
    }
  }

  /** `cs` is a well-formed chain: in range, acyclic, linked, and ended by an end-of-chain word. */
  predicate IsChain(fat: seq<nat>, cs: seq<nat>) {
    && 0 < |cs|
    && InRange(cs, |fat|)
    && NoDup(cs)
    && Linked(fat, cs)
    && fat[cs[|cs| - 1]] >= EOC
  }

  // -- Following a chain ----------------------------------------------------------------------

  /** The loop of `read_chain`, entered with `acc` collected and `cur` to be visited next. A word
      beyond `words` stands for a FAT sector the device cannot read. */
  function Follow(words: seq<nat>, acc: seq<nat>, cur: nat): Result<seq<nat>, string>
    requires |acc| < MAX_CHAIN
    decreases MAX_CHAIN - |acc|
  {
    if cur < 2 then Ok(acc)
    else
      var chain := acc + [cur];
      if cur >= |words| then Err("Sector read failed")
      else
        var next := words[cur];
        if next >= EOC || next == BAD || next == 0 then Ok(chain)
        else if next < 2 || next == cur then Ok(chain)
        else if next in chain then Ok(chain)
        else if |chain| > 100000 then Ok(chain)
        else Follow(words, chain, next)
  }

  /** What a correct chain reader may stop at. */
  ghost predicate Stops(words: seq<nat>, chain: seq<nat>)
    requires 0 < |chain| && chain[|chain| - 1] < |words|
  {
    var next := words[chain[|chain| - 1]];
    next >= BAD || next < 2 || next in chain || |chain| == MAX_CHAIN
  }

  /** Independent description of a chain walk from `start`: no duplicate, every neighbour a FAT
      link, bounded, and stopped only at an end, a bad or free mark, a revisited cluster or the limit. */
  ghost predicate Walked(words: seq<nat>, start: nat, chain: seq<nat>) {
    if start < 2 then chain == []
    else
      && 0 < |chain| <= MAX_CHAIN
      && chain[0] == start
      && InRange(chain, |words|)
      && NoDup(chain)
      && Linked(words, chain)
      && (forall i :: 1 <= i < |chain| ==> chain[i] < BAD)
      && Stops(words, chain)
  }

  /** `acc` followed by `cur` is the beginning of some walk. */
  ghost predicate Trail(words: seq<nat>, acc: seq<nat>, cur: nat) {
    && |acc| < MAX_CHAIN
    && InRange(acc, |words|)
    && 2 <= cur
    && NoDup(acc) && cur !in acc
    && Linked(words, acc)
    && (forall i :: 1 <= i < |acc| ==> acc[i] < BAD)
    && (acc != [] ==> words[acc[|acc| - 1]] == cur && cur < BAD)
  }

  lemma {:induction false} FollowSound(words: seq<nat>, acc: seq<nat>, cur: nat)
    requires Trail(words, acc, cur)
    ensures Follow(words, acc, cur).Ok? ==>
              var chain := Follow(words, acc, cur).value;
              acc + [cur] <= chain && Walked(words, (acc + [cur])[0], chain)
    decreases MAX_CHAIN - |acc|
  {
    var chain := acc + [cur];
    if cur < |words| {
      LinkedSnoc(words, acc, cur);
      var next := words[cur];
      if !(next >= BAD || next < 2 || next == cur || next in chain || |chain| > 100000) {
        FollowSound(words, chain, next);
        assert (chain + [next])[0] == chain[0];
        if Follow(words, chain, next).Ok? {
          assert chain + [next] <= Follow(words, chain, next).value;
        }
      }
    }
  }

  lemma {:induction false} FollowComplete(words: seq<nat>, chain: seq<nat>, k: nat)
    requires k < |chain| && chain[0] >= 2 && Walked(words, chain[0], chain)
    ensures Follow(words, chain[..k], chain[k]) == Ok(chain)
    decreases |chain| - k
  {
    assert chain[..k] + [chain[k]] == chain[..k + 1];
    if k + 1 < |chain| {
      assert LinkAt(words, chain, k);
      FollowComplete(words, chain, k + 1);
    } else {
      assert chain[..k + 1] == chain;
    }
  }

  /** On every table, cyclic or damaged, `read_chain` returns exactly the one walk there is. */
  lemma FollowIsWalk(words: seq<nat>, start: nat, chain: seq<nat>)
    ensures Follow(words, [], start) == Ok(chain) <==> Walked(words, start, chain)
  {
    if start >= 2 {
      if Follow(words, [], start) == Ok(chain) {
        FollowSound(words, [], start);
        assert ([] + [start])[0] == start;
      }
      if Walked(words, start, chain) {
        FollowComplete(words, chain, 0);
        assert chain[..0] == [];
      }
    }
  }

  /** A failing walk has a readable, linked beginning that leads to a word the device lacks. */
  lemma {:induction false} FollowFails(words: seq<nat>, acc: seq<nat>, cur: nat) returns (trail: seq<nat>, bad: nat)
    requires Trail(words, acc, cur) && Follow(words, acc, cur).Err?
    ensures acc <= trail && Trail(words, trail, bad) && bad >= |words|
    ensures acc == trail ==> bad == cur
    ensures acc != trail ==> acc + [cur] <= trail
    decreases MAX_CHAIN - |acc|
  {
    if cur >= |words| {
      trail, bad := acc, cur;
    } else {
      var chain := acc + [cur];
      LinkedSnoc(words, acc, cur);
      trail, bad := FollowFails(words, chain, words[cur]);
    }
  }

  lemma ChainIsWalk(fat: seq<nat>, words: seq<nat>, cs: seq<nat>)
    requires IsChain(fat, cs) && |cs| <= MAX_CHAIN && fat <= words && |fat| <= BAD
    ensures Walked(words, cs[0], cs)
  {
    forall i: nat | i + 1 < |cs|
      ensures LinkAt(words, cs, i)
    {
      assert LinkAt(fat, cs, i);
    }
  }

  /** On a well-formed chain within the limit the whole chain is returned. */
  lemma FollowWhole(fat: seq<nat>, words: seq<nat>, cs: seq<nat>)
    requires IsChain(fat, cs) && |cs| <= MAX_CHAIN && fat <= words && |fat| <= BAD
    ensures Follow(words, [], cs[0]) == Ok(cs)
  {
    ChainIsWalk(fat, words, cs);
    FollowIsWalk(words, cs[0], cs);
  }

  /** The clusters `read_chain` finds; the empty list when it fails. */
  function ChainOf(fat: seq<nat>, start: nat): seq<nat> {
    var r := Follow(fat, [], start);
    if r.Ok? then r.value else []
  }

  /** `start` heads a well-formed chain that `read_chain` sees whole. */
  predicate Chained(fat: seq<nat>, start: nat) {
    var cs := ChainOf(fat, start);
    IsChain(fat, cs) && |cs| <= MAX_CHAIN && cs[0] == start
  }

  lemma ChainedIff(fat: seq<nat>, cs: seq<nat>)
    requires IsChain(fat, cs) && |cs| <= MAX_CHAIN && |fat| <= BAD
    ensures ChainOf(fat, cs[0]) == cs && Chained(fat, cs[0])
  {
    FollowWhole(fat, fat, cs);
  }

  /** Every table lookup of a walk from `start` succeeds. */
  predicate Readable(fat: seq<nat>, start: nat) {
    Follow(fat, [], start).Ok?
  }

  lemma ReadableWalk(fat: seq<nat>, start: nat)
    requires Readable(fat, start)
    ensures Walked(fat, start, ChainOf(fat, start))
    ensures InRange(ChainOf(fat, start), |fat|) && NoDup(ChainOf(fat, start)) && |ChainOf(fat, start)| <= MAX_CHAIN
  {
    FollowIsWalk(fat, start, ChainOf(fat, start));
  }

  lemma ChainedReadable(fat: seq<nat>, start: nat)
    requires Chained(fat, start)
    ensures Readable(fat, start)
  {
  }

  /** A walk inside the table does not depend on what follows the table. */
  lemma {:induction false} FollowPrefix(fat: seq<nat>, words: seq<nat>, acc: seq<nat>, cur: nat)
    requires fat <= words && |acc| < MAX_CHAIN && Follow(fat, acc, cur).Ok?
    ensures Follow(words, acc, cur) == Follow(fat, acc, cur)
    decreases MAX_CHAIN - |acc|
  {
    if 2 <= cur {
      var next := fat[cur];
      assert words[cur] == next;
      var chain := acc + [cur];
      if !(next >= BAD || next < 2 || next in chain || |chain| > 100000) {
        FollowPrefix(fat, words, chain, next);
      }
    }
  }

  // -- Allocation -------------------------------------------------------------------------------

  /** The scan of `alloc_cluster`: the lowest free cluster at or above `from`. */
  function FirstFree(fat: seq<nat>, from: nat): (r: Option<nat>)
    ensures r.Some? ==> from <= r.value < |fat| && fat[r.value] == FREE
    ensures r.Some? ==> forall c :: from <= c < r.value ==> fat[c] != FREE
    ensures r.None? ==> forall c :: from <= c < |fat| ==> fat[c] != FREE
    decreases |fat| - from
  {
    if from >= |fat| then None
    else if fat[from] == FREE then Some(from)
    else FirstFree(fat, from + 1)
  }

  /** `alloc_cluster` without its zeroing of the data: the table is not written. */
  function LowestFree(fat: seq<nat>): (r: Result<nat, string>)
    ensures r.Ok? ==> 2 <= r.value < |fat| && fat[r.value] == FREE
  {
    if |fat| < 4 then Err("No clusters available")
    else
      match FirstFree(fat, 2)
      case Some(c) => Ok(c)
      case None => Err("No free clusters")
  }

  // -- Linking and freeing ------------------------------------------------------------------------

  /** The linking loop of `write_file_data`: each cluster to its successor, the last to EOC. */
  function Link(fat: seq<nat>, cs: seq<nat>): (r: seq<nat>)
    requires InRange(cs, |fat|)
    ensures |r| == |fat|
    ensures forall c :: 0 <= c < |fat| && c !in cs ==> r[c] == fat[c]
    decreases |cs|
  {
    if cs == [] then fat
    else if |cs| == 1 then fat[cs[0] := EOC]
    else
      assert forall c :: c in cs[1..] ==> c in cs;
      Link(fat[cs[0] := cs[1]], cs[1..])
  }

  lemma {:induction false} LinkMakesChain(fat: seq<nat>, cs: seq<nat>)
    requires InRange(cs, |fat|) && NoDup(cs) && cs != []
    ensures IsChain(Link(fat, cs), cs)
    ensures Link(fat, cs)[cs[|cs| - 1]] == EOC
    decreases |cs|
  {
    if |cs| > 1 {
      var f1, rest := fat[cs[0] := cs[1]], cs[1..];
      LinkMakesChain(f1, rest);
      var r := Link(fat, cs);
      assert r == Link(f1, rest);
      assert cs[0] !in rest;
      assert r[cs[0]] == cs[1];
      forall i: nat | i + 1 < |cs|
        ensures LinkAt(r, cs, i)
      {
        if i > 0 {
          assert LinkAt(r, rest, i - 1);
        }
      }
    }
  }

  /** `n` copies of one cluster: what the growth loop appends when it needs `n` more. */
  function Copies(c: nat, n: nat): (r: seq<nat>)
    ensures |r| == n && forall i :: 0 <= i < n ==> r[i] == c
  {
    seq(n, _ => c)
  }

  /** Linking a chain with its one new cluster repeated gives the same table as linking it once. */
  lemma {:induction false} LinkCopies(fat: seq<nat>, cs: seq<nat>, c: nat, n: nat)
    requires InRange(cs, |fat|) && 2 <= c < |fat| && n > 0
    ensures InRange(cs + Copies(c, n), |fat|) && InRange(cs + [c], |fat|)
    ensures Link(fat, cs + Copies(c, n)) == Link(fat, cs + [c])
    decreases |cs|, n
  {
    var long, short := cs + Copies(c, n), cs + [c];
    if cs == [] {
      if n == 1 {
        assert long == short;
      } else {
        assert long[1..] == [] + Copies(c, n - 1);
        LinkCopies(fat[c := c], [], c, n - 1);
        assert [] + [c] == [c];
        assert fat[c := c][c := EOC] == fat[c := EOC];
      }
    } else {
      assert long[1..] == cs[1..] + Copies(c, n);
      assert short[1..] == cs[1..] + [c];
      assert long[1] == short[1];
      LinkCopies(fat[cs[0] := long[1]], cs[1..], c, n);
    }
  }

  /** `free_chain`'s loop. */
  function Free(fat: seq<nat>, cs: seq<nat>): (r: seq<nat>)
    requires InRange(cs, |fat|)
    ensures |r| == |fat|
    ensures forall c :: 0 <= c < |fat| ==> r[c] == if c in cs then FREE else fat[c]
    decreases |cs|
  {
    if cs == [] then fat
    else
      assert forall c :: c in cs <==> c in cs[..|cs| - 1] || c == cs[|cs| - 1];
      Free(fat, cs[..|cs| - 1])[cs[|cs| - 1] := FREE]
  }

  // -- Counting free clusters -------------------------------------------------------------------

  ghost function FreeSet(fat: seq<nat>): set<nat> {
    set c: nat | 2 <= c < |fat| && fat[c] == FREE
  }

  ghost function Members(cs: seq<nat>): set<nat> {
    set c | c in cs
  }

  lemma {:induction false} MembersOfNoDup(cs: seq<nat>)
    requires NoDup(cs)
    ensures |Members(cs)| == |cs|
    decreases |cs|
  {
    if cs != [] {
      var init, last := cs[..|cs| - 1], cs[|cs| - 1];
      MembersOfNoDup(init);
      assert Members(cs) == Members(init) + {last};
      assert last !in Members(init);
    }
  }

  lemma ChainNotFree(fat: seq<nat>, cs: seq<nat>, c: nat)
    requires IsChain(fat, cs) && c in cs
    ensures 2 <= c < |fat| && fat[c] != FREE
  {
    var i :| 0 <= i < |cs| && cs[i] == c;
    if i < |cs| - 1 {
      assert LinkAt(fat, cs, i);
    }
  }

  /** Freeing a chain makes exactly its clusters free, so the free count rises by its length. */
  lemma FreeCount(fat: seq<nat>, cs: seq<nat>)
    requires IsChain(fat, cs)
    ensures FreeSet(Free(fat, cs)) == FreeSet(fat) + Members(cs)
    ensures |FreeSet(Free(fat, cs))| == |FreeSet(fat)| + |cs|
  {
    var before, after, freed := FreeSet(fat), FreeSet(Free(fat, cs)), Members(cs);
    forall c | c in freed
      ensures c in after && c !in before
    {
      ChainNotFree(fat, cs, c);
    }
    assert after == before + freed;
    MembersOfNoDup(cs);
  }
}
