// What tearing a process's address space down does to the frames.
module Teardown {
  import opened Bitmap
  import opened Frames
  import opened Paging
  import opened UserPtr
  import Regions

  /** `free_page`: the frame of the address goes back when it is tracked and reserved; otherwise the free
      is rejected and nothing changes. */
  function FreeAt(p: Pool, addr: nat): Pool {
    var f := addr / PAGE_SIZE;
    if f < |p.used| && p.used[f] then GiveBack(p, f, 1) else p
  }

  /** A free of this address would be answered with a double-free error. */
  predicate AlreadyFree(p: Pool, addr: nat) {
    addr / PAGE_SIZE < |p.used| && !p.used[addr / PAGE_SIZE]
  }

  function FreeAll(p: Pool, addrs: seq<nat>): Pool {
    if addrs == [] then p else FreeAt(FreeAll(p, addrs[..|addrs| - 1]), addrs[|addrs| - 1])
  }

  /** Entries of a table that the teardown visits: the lower half of the top level, all elsewhere. */
  function Limit(level: nat): nat { if level == 4 then 256 else 512 }

  /** The frames of the 4 KiB pages under one entry. */
  function EntryLeaves(e: Entry, level: nat): seq<nat>
    requires 1 <= level <= 4 && EntryShaped(e, level)
    decreases level, 0
  {
    if !e.flags.present || e.flags.huge then []
    else if level > 1 then
      assert Shaped(e.table, level - 1);
      Leaves(e.table, level - 1, Limit(level - 1))
    else [e.addr]
  }

  /** The frames of the 4 KiB pages under the first `n` entries, in walk order. */
  function Leaves(es: seq<Entry>, level: nat, n: nat): seq<nat>
    requires 1 <= level <= 4 && Shaped(es, level) && n <= 512
    decreases level, n + 1
  {
    if n == 0 then [] else Leaves(es, level, n - 1) + EntryLeaves(es[n - 1], level)
  }

  lemma {:induction false} FreeAllConcat(p: Pool, a: seq<nat>, b: seq<nat>)
    ensures FreeAll(p, a + b) == FreeAll(FreeAll(p, a), b)
    decreases |b|
  {
    if b == [] {
      assert a + b == a;
    } else {
      assert (a + b)[..|a + b| - 1] == a + b[..|b| - 1];
      FreeAllConcat(p, a, b[..|b| - 1]);
    }
  }

  /** The frame numbers of some addresses. */
  ghost predicate Hits(addrs: seq<nat>, f: nat) {
    exists i :: 0 <= i < |addrs| && addrs[i] / PAGE_SIZE == f
  }

  /** Whatever is freed, and however often: exactly the frames named become free, all others keep
      their flag, and the hint stays free or the frame count. */
  lemma {:induction false} FreeAllFrees(p: Pool, addrs: seq<nat>)
    requires HintOk(p.used, p.next)
    ensures var q := FreeAll(p, addrs);
            && |q.used| == |p.used| && HintOk(q.used, q.next)
            && forall f: nat :: f < |p.used| ==> (q.used[f] <==> p.used[f] && !Hits(addrs, f))
    decreases |addrs|
  {
    if addrs != [] {
      var n := |addrs| - 1;
      FreeAllFrees(p, addrs[..n]);
      forall f: nat | f < |p.used|
        ensures Hits(addrs, f) <==> Hits(addrs[..n], f) || addrs[n] / PAGE_SIZE == f
      {
        HitsSnoc(addrs, f);
      }
    }
  }

  lemma HitsSnoc(addrs: seq<nat>, f: nat)
    requires addrs != []
    ensures var n := |addrs| - 1; Hits(addrs, f) <==> Hits(addrs[..n], f) || addrs[n] / PAGE_SIZE == f
  {
    var n := |addrs| - 1;
    if Hits(addrs[..n], f) {
      var i :| 0 <= i < n && addrs[..n][i] / PAGE_SIZE == f;
      assert addrs[i] / PAGE_SIZE == f;
    }
    if Hits(addrs, f) && addrs[n] / PAGE_SIZE != f {
      var i :| 0 <= i < |addrs| && addrs[i] / PAGE_SIZE == f;
      assert addrs[..n][i] / PAGE_SIZE == f;
    }
  }

  /** The addresses lie in different frames, all tracked and reserved. */
  ghost predicate Owned(p: Pool, addrs: seq<nat>) {
    && (forall i :: 0 <= i < |addrs| ==> addrs[i] / PAGE_SIZE < |p.used| && p.used[addrs[i] / PAGE_SIZE])
    && (forall i, j :: 0 <= i < j < |addrs| ==> addrs[i] / PAGE_SIZE != addrs[j] / PAGE_SIZE)
  }

  lemma {:induction false} FreeAllCount(p: Pool, addrs: seq<nat>)
    requires HintOk(p.used, p.next) && Owned(p, addrs)
    ensures Count(FreeAll(p, addrs).used) == Count(p.used) - |addrs|
    decreases |addrs|
  {
    hide Hits, Count, WithRange;
    if addrs != [] {
      var n := |addrs| - 1;
      OwnedInit(p, addrs);
      FreeAllCount(p, addrs[..n]);
      FreeAllFrees(p, addrs[..n]);
      var q, f := FreeAll(p, addrs[..n]), addrs[n] / PAGE_SIZE;
      CountUpdate(q.used, f, false);
      assert GiveBack(q, f, 1).used == q.used[f := false];
    } else {
      assert FreeAll(p, addrs) == p;
    }
  }

  lemma OwnedInit(p: Pool, addrs: seq<nat>)
    requires Owned(p, addrs) && addrs != []
    ensures var n := |addrs| - 1;
            && Owned(p, addrs[..n]) && !Hits(addrs[..n], addrs[n] / PAGE_SIZE)
            && addrs[n] / PAGE_SIZE < |p.used| && p.used[addrs[n] / PAGE_SIZE]
  {
  }

  /** Every address in `extra` has a frame that `addrs` frees already, so freeing it again is rejected. */
  lemma {:induction false} FreeAgain(p: Pool, addrs: seq<nat>, extra: seq<nat>)
    requires HintOk(p.used, p.next)
    requires forall i :: 0 <= i < |extra| ==> Hits(addrs, extra[i] / PAGE_SIZE)
    ensures FreeAll(p, addrs + extra) == FreeAll(p, addrs)
    decreases |extra|
  {
    FreeAllFrees(p, addrs);
    if extra == [] {
      assert addrs + extra == addrs;
    } else {
      var n := |extra| - 1;
      FreeAgain(p, addrs, extra[..n]);
      assert (addrs + extra)[..|addrs + extra| - 1] == addrs + extra[..n];
      var f := extra[n] / PAGE_SIZE;
      assert Hits(addrs, f);
    }
  }

  /** `free_process_address_space`: nothing for a process without tables, else the pages and the PML4. */
  function FreeSpace(p: Pool, root: seq<Entry>, pml4: nat): Pool
    requires pml4 != 0 ==> Shaped(root, 4)
  {
    if pml4 == 0 then p else FreeAll(p, Leaves(root, 4, 256) + [pml4])
  }

  /** The stacks an exiting process still names. */
  function Stacks(userStack: nat, kernelStack: nat): seq<nat> {
    (if userStack != 0 then [userStack] else []) + (if kernelStack != 0 then [kernelStack] else [])
  }

  /** All that `exit_process` frees. */
  function FreeProcess(p: Pool, root: seq<Entry>, pml4: nat, userStack: nat, kernelStack: nat): Pool
    requires pml4 != 0 ==> Shaped(root, 4)
  {
    FreeAll(FreeSpace(p, root, pml4), Stacks(userStack, kernelStack))
  }

  /** MAIN: for a process whose 4 KiB pages and PML4 lie in different reserved frames and whose stacks
      are two of these pages, exit frees exactly the pages and the PML4: the population count drops by
      their number plus one, each stack's second free is rejected, and every frame that is none of them
      keeps its flag, the frames of the tables in between and of the upper half among them. */
  lemma TeardownIsExact(p: Pool, root: seq<Entry>, pml4: nat, userStack: nat, kernelStack: nat)
    requires Shaped(root, 4) && HintOk(p.used, p.next) && pml4 != 0
    requires Owned(p, Leaves(root, 4, 256) + [pml4])
    requires forall s :: s in Stacks(userStack, kernelStack) ==> Hits(Leaves(root, 4, 256), s / PAGE_SIZE)
    ensures var q := FreeProcess(p, root, pml4, userStack, kernelStack);
            && q == FreeSpace(p, root, pml4)
            && |q.used| == |p.used| && HintOk(q.used, q.next)
            && Count(q.used) == Count(p.used) - (|Leaves(root, 4, 256)| + 1)
            && (forall f: nat :: f < |p.used| ==>
                  (q.used[f] <==> p.used[f] && !Hits(Leaves(root, 4, 256), f) && f != pml4 / PAGE_SIZE))
            && (forall s :: s in Stacks(userStack, kernelStack) ==> AlreadyFree(q, s))
  {
    hide Shaped, Leaves, FreeAll, Count, Hits;
    var leaves, stacks := Leaves(root, 4, 256), Stacks(userStack, kernelStack);
    var all := leaves + [pml4];
    FreeAllFrees(p, all);
    FreeAllCount(p, all);
    assert all[..|all| - 1] == leaves;
    forall f: nat
      ensures Hits(all, f) <==> Hits(leaves, f) || f == pml4 / PAGE_SIZE
    {
      HitsSnoc(all, f);
    }
    FreeAllConcat(p, all, stacks);
    forall i | 0 <= i < |stacks|
      ensures Hits(all, stacks[i] / PAGE_SIZE)
    {
      assert stacks[i] in stacks;
    }
    FreeAgain(p, all, stacks);
    forall s | s in stacks
      ensures AlreadyFree(FreeAll(p, all), s)
    {
      HitTracked(p, leaves, pml4, s / PAGE_SIZE);
    }
  }

  lemma HitTracked(p: Pool, leaves: seq<nat>, pml4: nat, f: nat)
    requires Owned(p, leaves + [pml4]) && Hits(leaves, f)
    ensures f < |p.used|
  {
    var i :| 0 <= i < |leaves| && leaves[i] / PAGE_SIZE == f;
    assert (leaves + [pml4])[i] == leaves[i];
  }

  /** So a frame that holds a table of the address space stays allocated, unless it is also one of its
      pages or its PML4: the teardown returns no intermediate table, whatever its comments say. */
  lemma TablesStayAllocated(p: Pool, root: seq<Entry>, pml4: nat, f: nat)
    requires Shaped(root, 4) && HintOk(p.used, p.next) && pml4 != 0 && f < |p.used|
    ensures |FreeSpace(p, root, pml4).used| == |p.used|
    ensures FreeSpace(p, root, pml4).used[f] <==> p.used[f] && !Hits(Leaves(root, 4, 256), f) && f != pml4 / PAGE_SIZE
  {
    hide Shaped, Leaves, FreeAll, Hits;
    var all := Leaves(root, 4, 256) + [pml4];
    FreeAllFrees(p, all);
    HitsSnoc(all, f);
    assert all[..|all| - 1] == Leaves(root, 4, 256);
  }

  // -- The leaves are the pages ---------------------------------------------------------------------------

  /** Every 4 KiB page a walk can reach in the lower half has its frame among those freed. */
  lemma {:induction false} LeafIsFreed(es: seq<Entry>, level: nat, n: nat, v: nat)
    requires 1 <= level <= 4 && Formed(es, level) && Shaped(es, level) && n <= 512 && Index(v, level) < n
    requires LeafAt(es, level, v).Some? && LeafAt(es, level, v).value.size == PAGE_SIZE
    ensures LeafAt(es, level, v).value.phys in Leaves(es, level, n)
    decreases level, n
  {
    hide Index, Leaves;
    LeavesNext(es, level, n);
    var i := Index(v, level);
    if i < n - 1 {
      LeafIsFreed(es, level, n - 1, v);
    } else {
      var e := es[i];
      assert EntryFormed(e, level) && EntryShaped(e, level);
      if IsTable(e, level) {
        assert Shaped(e.table, level - 1);
        LeafIsFreed(e.table, level - 1, 512, v);
      }
    }
  }

  /** Every frame freed is the frame of a 4 KiB page that a walk reaches: `v` is its address, `base` the
      first address under the table. */
  lemma {:induction false} FreedIsLeaf(es: seq<Entry>, level: nat, n: nat, base: nat, k: nat) returns (v: nat)
    requires 1 <= level <= 4 && Formed(es, level) && Shaped(es, level) && n <= 512
    requires base % Regions.TableSpan(level) == 0
    requires k < |Leaves(es, level, n)|
    ensures base <= v < Regions.EntryBase(base, n, level) && v < base + Regions.TableSpan(level)
    ensures LeafAt(es, level, v).Some? && LeafAt(es, level, v).value.size == PAGE_SIZE
    ensures LeafAt(es, level, v).value.phys == Leaves(es, level, n)[k]
    decreases level, n
  {
    hide Index, Leaves;
    LeavesNext(es, level, n);
    var before := Leaves(es, level, n - 1);
    if k < |before| {
      v := FreedIsLeaf(es, level, n - 1, base, k);
    } else {
      var e := es[n - 1];
      assert EntryFormed(e, level) && EntryShaped(e, level);
      var b := Regions.EntryBase(base, n - 1, level);
      EntryInTable(base, n - 1, level);
      if level == 1 {
        v := b;
      } else {
        assert Shaped(e.table, level - 1);
        v := FreedIsLeaf(e.table, level - 1, 512, b, k - |before|);
      }
      Regions.IndexUnder(base, n - 1, level, v);
    }
  }

  /** The 4 KiB page a walk for `v` ends in lies in frame `f`. */
  ghost predicate PageIn(root: seq<Entry>, v: nat, f: nat)
    requires Formed(root, 4)
  {
    var m := LeafAt(root, 4, v);
    m.Some? && m.value.size == PAGE_SIZE && m.value.phys / PAGE_SIZE == f
  }

  /** MAIN: a frame is among those freed exactly when some address of the lower half is mapped to it by a
      4 KiB page. */
  lemma FreedArePages(root: seq<Entry>, f: nat)
    requires Formed(root, 4)
    ensures Shaped(root, 4)
    ensures Hits(Leaves(root, 4, 256), f) <==> exists v: nat :: v < LOWER_HALF_END && PageIn(root, v, f)
  {
    hide Formed, Shaped, Leaves, LeafAt, Index;
    FormedIsShaped(root, 4);
    var leaves := Leaves(root, 4, 256);
    if Hits(leaves, f) {
      var k :| 0 <= k < |leaves| && leaves[k] / PAGE_SIZE == f;
      var v := FreedIsLeaf(root, 4, 256, 0, k);
      assert v < LOWER_HALF_END && PageIn(root, v, f);
    }
    if exists v: nat :: v < LOWER_HALF_END && PageIn(root, v, f) {
      var v: nat :| v < LOWER_HALF_END && PageIn(root, v, f);
      LowerIndex(v);
      LeafIsFreed(root, 4, 256, v);
      var phys := LeafAt(root, 4, v).value.phys;
      var k :| 0 <= k < |leaves| && leaves[k] == phys;
    }
  }

  lemma LowerIndex(v: nat)
    requires v < LOWER_HALF_END
    ensures Index(v, 4) < 256
  {
  }

  lemma LeavesNext(es: seq<Entry>, level: nat, n: nat)
    requires 1 <= level <= 4 && Shaped(es, level) && n <= 512
    ensures n == 0 ==> Leaves(es, level, n) == []
    ensures n > 0 ==>
              && EntryShaped(es[n - 1], level)
              && Leaves(es, level, n) == Leaves(es, level, n - 1) + EntryLeaves(es[n - 1], level)
  {
  }

  lemma EntryInTable(base: nat, i: nat, level: nat)
    requires 1 <= level <= 4 && i < 512 && base % Regions.TableSpan(level) == 0
    ensures var b := Regions.EntryBase(base, i, level);
            && base <= b && b + Size(level) == Regions.EntryBase(base, i + 1, level)
            && b + Size(level) <= base + Regions.TableSpan(level)
            && b % Size(level) == 0
            && (level > 1 ==>
                  && Regions.TableSpan(level - 1) == Size(level)
                  && Regions.EntryBase(b, 512, level - 1) == b + Size(level))
  {
    Regions.IndexUnder(base, i, level, base);
  }
}
