// The region index of the virtual memory manager: lookup, removal, and the walk that fills it at boot.
module Regions {
  import opened Wrappers
  import opened Paging
  import Multiples

  datatype MappedRegion = MappedRegion(virtualAddr: nat, physicalAddr: nat, size: nat, flags: Flags,
                                       description: string) {
    predicate Covers(v: nat) { virtualAddr <= v < virtualAddr + size }

    function Span(): Mapping { Mapping(virtualAddr, physicalAddr, size) }
  }

  /** `get_mapping`: the first region that covers `v`. */
  function GetMapping(rs: seq<MappedRegion>, v: nat): (r: Option<MappedRegion>)
    ensures r.Some? ==> r.value in rs && r.value.Covers(v)
    ensures r.None? ==> forall q :: q in rs ==> !q.Covers(v)
  {
    if rs == [] then None
    else if rs[0].Covers(v) then Some(rs[0])
    else GetMapping(rs[1..], v)
  }

  /** The addresses and the physical start of the region found, without its flags and description. */
  function Looked(rs: seq<MappedRegion>, v: nat): Option<Mapping> {
    var r := GetMapping(rs, v);
    if r.None? then None else Some(r.value.Span())
  }

  /** `retain` with the test of `unmap_page`: the regions that do not cover `v`. */
  function Retain(rs: seq<MappedRegion>, v: nat): (r: seq<MappedRegion>)
    ensures forall q :: q in r <==> q in rs && !q.Covers(v)
  {
    if rs == [] then []
    else (if rs[0].Covers(v) then [] else [rs[0]]) + Retain(rs[1..], v)
  }

  predicate Disjoint(a: MappedRegion, b: MappedRegion) {
    a.virtualAddr + a.size <= b.virtualAddr || b.virtualAddr + b.size <= a.virtualAddr
  }

  /** Regions are pairwise disjoint. */
  ghost predicate Apart(rs: seq<MappedRegion>) {
    rs == [] || ((forall q :: q in rs[1..] ==> Disjoint(rs[0], q)) && Apart(rs[1..]))
  }

  lemma {:induction false} ApartMeansDisjoint(rs: seq<MappedRegion>, i: nat, j: nat)
    requires Apart(rs) && i < j < |rs|
    ensures Disjoint(rs[i], rs[j])
    decreases |rs|
  {
    if i == 0 {
      assert rs[j] == rs[1..][j - 1];
    } else {
      ApartMeansDisjoint(rs[1..], i - 1, j - 1);
    }
  }

  lemma {:induction false} ApartConcat(a: seq<MappedRegion>, b: seq<MappedRegion>)
    requires Apart(a) && Apart(b) && forall p, q :: p in a && q in b ==> Disjoint(p, q)
    ensures Apart(a + b)
    decreases |a|
  {
    if a == [] {
      assert a + b == b;
    } else {
      assert (a + b)[1..] == a[1..] + b;
      ApartConcat(a[1..], b);
    }
  }

  lemma {:induction false} LookupConcat(a: seq<MappedRegion>, b: seq<MappedRegion>, v: nat)
    ensures GetMapping(a + b, v) == if GetMapping(a, v).Some? then GetMapping(a, v) else GetMapping(b, v)
    decreases |a|
  {
    if a == [] {
      assert a + b == b;
    } else {
      assert (a + b)[1..] == a[1..] + b;
      LookupConcat(a[1..], b, v);
    }
  }

  /** Removing what covers `x` from disjoint regions hides exactly the region found at `x`. */
  lemma {:induction false} RetainLookup(rs: seq<MappedRegion>, x: nat, v: nat)
    requires Apart(rs)
    ensures Apart(Retain(rs, x))
    ensures var r := GetMapping(rs, v);
            GetMapping(Retain(rs, x), v) == if r.Some? && r.value.Covers(x) then None else r
    decreases |rs|
  {
    if rs != [] {
      RetainLookup(rs[1..], x, v);
      var rest := Retain(rs[1..], x);
      if !rs[0].Covers(x) {
        assert ([rs[0]] + rest)[1..] == rest;
      } else {
        assert [] + rest == rest;
      }
    }
  }

  lemma ApartSnoc(rs: seq<MappedRegion>, r: MappedRegion)
    requires Apart(rs) && forall q :: q in rs ==> Disjoint(q, r)
    ensures Apart(rs + [r])
  {
    assert [r][1..] == [];
    assert Apart([r]);
    ApartConcat(rs, [r]);
  }

  // -- Sizes ----------------------------------------------------------------------------------------------

  function TotalSize(rs: seq<MappedRegion>): nat {
    if rs == [] then 0 else TotalSize(rs[..|rs| - 1]) + rs[|rs| - 1].size
  }

  lemma {:induction false} TotalSizeConcat(a: seq<MappedRegion>, b: seq<MappedRegion>)
    ensures TotalSize(a + b) == TotalSize(a) + TotalSize(b)
    decreases |b|
  {
    if b == [] {
      assert a + b == a;
    } else {
      assert (a + b)[..|a + b| - 1] == a + b[..|b| - 1];
      TotalSizeConcat(a, b[..|b| - 1]);
    }
  }

  // -- Discovery ------------------------------------------------------------------------------------------

  /** Bytes under a whole table of the given level. */
  function TableSpan(level: nat): nat
    requires 1 <= level <= 4
  {
    if level == 4 then VIRTUAL_END else Size(level + 1)
  }

  /** First address under entry `i` of a table whose first address is `base`. */
  function EntryBase(base: nat, i: nat, level: nat): nat
    requires 1 <= level <= 4
  {
    if level == 1 then base + i * PAGE_SIZE
    else if level == 2 then base + i * LARGE_SIZE
    else if level == 3 then base + i * HUGE_SIZE
    else base + i * PML4_SPAN
  }

  function BootName(level: nat): string {
    if level == 1 then "boot 4 KiB page" else if level == 2 then "boot 2 MiB page" else "boot 1 GiB page"
  }

  /** The regions of the leaves under one entry, whose first address is `base`. */
  function EntryRegions(e: Entry, level: nat, base: nat): seq<MappedRegion>
    requires 1 <= level <= 4
    decreases level, 0
  {
    if !e.flags.present then []
    else if IsLeaf(e, level) then [MappedRegion(base, e.addr, Size(level), e.flags, BootName(level))]
    else Discover(e.table, level - 1, base, |e.table|)
  }

  /** The regions of the leaves under the first `n` entries, in walk order. */
  function Discover(es: seq<Entry>, level: nat, base: nat, n: nat): seq<MappedRegion>
    requires 1 <= level <= 4 && n <= |es|
    decreases level, n + 1
  {
    if n == 0 then []
    else Discover(es, level, base, n - 1) + EntryRegions(es[n - 1], level, EntryBase(base, n - 1, level))
  }

  /** Every region lies in `[lo, hi)` and holds at least one page. */
  ghost predicate Inside(rs: seq<MappedRegion>, lo: nat, hi: nat) {
    forall r :: r in rs ==> lo <= r.virtualAddr && r.virtualAddr + r.size <= hi && r.size >= PAGE_SIZE
  }

  lemma {:induction false} DiscoverInside(es: seq<Entry>, level: nat, base: nat, n: nat)
    requires 1 <= level <= 4 && Formed(es, level) && n <= 512
    ensures Inside(Discover(es, level, base, n), base, EntryBase(base, n, level))
    ensures Apart(Discover(es, level, base, n))
    decreases level, n + 1
  {
    if n > 0 {
      DiscoverInside(es, level, base, n - 1);
      var e, b := es[n - 1], EntryBase(base, n - 1, level);
      EntryInside(e, level, b);
      ApartConcat(Discover(es, level, base, n - 1), EntryRegions(e, level, b));
    }
  }

  lemma EntryInside(e: Entry, level: nat, base: nat)
    requires 1 <= level <= 4 && EntryFormed(e, level)
    ensures Inside(EntryRegions(e, level, base), base, base + Size(level))
    ensures Apart(EntryRegions(e, level, base))
    decreases level, 0
  {
    if IsTable(e, level) {
      DiscoverInside(e.table, level - 1, base, 512);
    }
  }

  /** What the walk at boot finds at `v` is the leaf a translation of `v` ends in. */
  lemma {:induction false} DiscoverLookup(es: seq<Entry>, level: nat, base: nat, n: nat, v: nat)
    requires 1 <= level <= 4 && Formed(es, level) && n <= 512
    requires base % TableSpan(level) == 0 && base <= v < base + TableSpan(level)
    ensures Looked(Discover(es, level, base, n), v) == if Index(v, level) < n then LeafAt(es, level, v) else None
    decreases level, n + 1
  {
    if n > 0 {
      var e, b := es[n - 1], EntryBase(base, n - 1, level);
      DiscoverLookup(es, level, base, n - 1, v);
      LookupConcat(Discover(es, level, base, n - 1), EntryRegions(e, level, b), v);
      IndexUnder(base, n - 1, level, v);
      EntryInside(e, level, b);
      if Index(v, level) == n - 1 {
        EntryLookup(es, level, b, v);
      }
    }
  }

  lemma IndexUnderSize(n: nat, d: nat, s: nat, i: nat)
    requires s > 0 && d < 512 * s && i < 512 && n % 512 == 0
    ensures (n * s + d) / s % 512 == i <==> i * s <= d < i * s + s
  {
    Multiples.DivShift(n, d, s);
    Multiples.DivIs(d, s, i);
    DivBelow(d, s, 512);
    Residue(n, d / s);
  }

  lemma DivBelow(d: nat, s: nat, n: nat)
    requires s > 0 && d < n * s
    ensures d / s < n
  {
    if d / s > n {
      Multiples.MulStep(n, d / s, s);
    }
  }

  lemma Residue(n: nat, q: nat)
    requires n % 512 == 0 && q < 512
    ensures (n + q) % 512 == q
  {
  }

  lemma IndexUnder(base: nat, i: nat, level: nat, v: nat)
    requires 1 <= level <= 4 && i < 512
    requires base % TableSpan(level) == 0 && base <= v < base + TableSpan(level)
    ensures var b := EntryBase(base, i, level);
            && b % Size(level) == 0
            && (b <= v < b + Size(level) <==> Index(v, level) == i)
  {
    var n := base / Size(level);
    BaseInEntries(base, level);
    IndexUnderSize(n, v - base, Size(level), i);
    assert EntryBase(base, i, level) == base + i * Size(level);
    Multiples.DivShift(i, base, Size(level));
  }

  lemma BaseInEntries(base: nat, level: nat)
    requires 1 <= level <= 4 && base % TableSpan(level) == 0
    ensures var n := base / Size(level); base == n * Size(level) && n % 512 == 0 && base % Size(level) == 0
    ensures TableSpan(level) == 512 * Size(level)
  {
    assert TableSpan(level) == 512 * Size(level);
    WholeTables(base, Size(level));
  }

  lemma WholeTables(base: nat, s: nat)
    requires s > 0 && base % (512 * s) == 0
    ensures var n := base / s; base == n * s && n % 512 == 0 && base % s == 0
  {
    var k := base / (512 * s);
    Multiples.DivBounds(base, 512 * s);
    assert base == k * (512 * s) == (512 * k) * s;
    Multiples.DivUnique(base, s, 512 * k, 0);
  }

  lemma EntryLookup(es: seq<Entry>, level: nat, base: nat, v: nat)
    requires 1 <= level <= 4 && Formed(es, level)
    requires base % Size(level) == 0 && base <= v < base + Size(level)
    ensures Looked(EntryRegions(es[Index(v, level)], level, base), v) == LeafAt(es, level, v)
    decreases level, 0
  {
    hide Index, Discover;
    var e := es[Index(v, level)];
    assert EntryFormed(e, level);
    if IsTable(e, level) {
      DiscoverLookup(e.table, level - 1, base, 512, v);
    } else if e.flags.present {
      BlockStart(base, level, v);
    }
  }

  lemma BlockStart(base: nat, level: nat, v: nat)
    requires 1 <= level <= 4 && base % Size(level) == 0 && base <= v < base + Size(level)
    ensures v - v % Size(level) == base
  {
  }

  // -- The upper half at boot -------------------------------------------------------------------------------

  /** No page is mapped by the entries of the upper half. */
  predicate LowerLeaves(root: seq<Entry>)
    requires |root| == 512
  {
    forall i :: 256 <= i < 512 ==> EntryPages(root[i], 4) == 0
  }

  /** Where no page is mapped no region is found, and nothing translates. */
  lemma {:induction false} NoPagesNoRegions(e: Entry, level: nat, base: nat)
    requires 1 <= level <= 4
    ensures EntryPages(e, level) == 0 <==> EntryRegions(e, level, base) == []
    decreases level, 0
  {
    if IsTable(e, level) {
      NoPagesBelow(e.table, level - 1, base, |e.table|);
    }
  }

  lemma {:induction false} NoPagesBelow(es: seq<Entry>, level: nat, base: nat, n: nat)
    requires 1 <= level <= 4 && n <= |es|
    ensures Pages(es, level, n) == 0 <==> Discover(es, level, base, n) == []
    decreases level, n + 1
  {
    if n > 0 {
      NoPagesBelow(es, level, base, n - 1);
      NoPagesNoRegions(es[n - 1], level, EntryBase(base, n - 1, level));
    }
  }

  lemma {:induction false} NoPagesNoLeaf(es: seq<Entry>, level: nat, v: nat)
    requires 1 <= level <= 4 && Formed(es, level) && EntryPages(es[Index(v, level)], level) == 0
    ensures LeafAt(es, level, v).None?
    decreases level
  {
    hide Index;
    var e := es[Index(v, level)];
    assert EntryFormed(e, level);
    if IsTable(e, level) {
      OneOfNone(e.table, level - 1, 512, Index(v, level - 1));
      NoPagesNoLeaf(e.table, level - 1, v);
    }
  }

  lemma {:induction false} OneOfNone(es: seq<Entry>, level: nat, n: nat, i: nat)
    requires 1 <= level <= 4 && n <= |es| && i < n && Pages(es, level, n) == 0
    ensures EntryPages(es[i], level) == 0
    decreases n
  {
    if i < n - 1 {
      OneOfNone(es, level, n - 1, i);
    }
  }

  /** Then the walk records nothing behind the lower half. */
  lemma {:induction false} DiscoverLower(root: seq<Entry>, n: nat)
    requires |root| == 512 && LowerLeaves(root) && 256 <= n <= 512
    ensures Discover(root, 4, 0, n) == Discover(root, 4, 0, 256)
    decreases n
  {
    hide EntryRegions, EntryPages;
    if n > 256 {
      DiscoverLower(root, n - 1);
      NoPagesNoRegions(root[n - 1], 4, EntryBase(0, n - 1, 4));
      DiscoverOne(root, n - 1);
    }
  }

  lemma DiscoverOne(root: seq<Entry>, n: nat)
    requires n < |root|
    ensures Discover(root, 4, 0, n + 1) == Discover(root, 4, 0, n) + EntryRegions(root[n], 4, EntryBase(0, n, 4))
  {
  }

  /** The walk at boot names canonical addresses only, so `VirtAddr::new` does not panic in it, exactly
      when no page is mapped in the upper half. */
  lemma BootIsCanonical(root: seq<Entry>)
    requires Formed(root, 4)
    ensures LowerLeaves(root) <==> forall r :: r in Discover(root, 4, 0, 512) ==> Canonical(r.virtualAddr)
  {
    hide Discover, EntryFormed, EntryPages;
    if LowerLeaves(root) {
      DiscoverLower(root, 512);
      DiscoverInside(root, 4, 0, 256);
    } else {
      var i :| 256 <= i < 512 && EntryPages(root[i], 4) != 0;
      var r := UpperRegion(root, i, 512);
      assert !Canonical(r.virtualAddr);
    }
  }

  lemma {:induction false} UpperRegion(root: seq<Entry>, i: nat, n: nat) returns (r: MappedRegion)
    requires Formed(root, 4) && 256 <= i < n <= 512 && EntryPages(root[i], 4) != 0
    ensures r in Discover(root, 4, 0, n) && LOWER_HALF_END <= r.virtualAddr < VIRTUAL_END
    decreases n
  {
    hide EntryFormed, EntryRegions, EntryPages, Discover;
    DiscoverOne(root, n - 1);
    if i < n - 1 {
      r := UpperRegion(root, i, n - 1);
    } else {
      var base := EntryBase(0, i, 4);
      NoPagesNoRegions(root[i], 4, base);
      FormedAt(root, 4, i);
      EntryInside(root[i], 4, base);
      r := EntryRegions(root[i], 4, base)[0];
      assert r in EntryRegions(root[i], 4, base);
    }
  }

  /** Every page under the table lies in the lower half, so the walk below may form its address. */
  ghost predicate LowerTable(es: seq<Entry>, level: nat, base: nat)
    requires 1 <= level <= 4 && |es| == 512
  {
    forall i :: 0 <= i < 512 && EntryPages(es[i], level) != 0 ==>
        EntryBase(base, i, level) + Size(level) <= LOWER_HALF_END
  }

  lemma LowerRoot(root: seq<Entry>)
    requires |root| == 512 && LowerLeaves(root)
    ensures LowerTable(root, 4, 0)
  {
  }

  lemma LowerBelow(es: seq<Entry>, level: nat, base: nat, i: nat)
    requires 1 <= level <= 4 && Formed(es, level) && LowerTable(es, level, base) && i < 512 && IsTable(es[i], level)
    ensures Formed(es[i].table, level - 1) && LowerTable(es[i].table, level - 1, EntryBase(base, i, level))
  {
    FormedAt(es, level, i);
    var below, b := es[i].table, EntryBase(base, i, level);
    forall j | 0 <= j < 512 && EntryPages(below[j], level - 1) != 0
      ensures EntryBase(b, j, level - 1) + Size(level - 1) <= LOWER_HALF_END
    {
      if EntryPages(es[i], level) == 0 {
        OneOfNone(below, level - 1, 512, j);
      } else {
        assert b + Size(level) <= LOWER_HALF_END;
      }
    }
  }

  lemma FormedAt(es: seq<Entry>, level: nat, i: nat)
    requires 1 <= level <= 4 && Formed(es, level) && i < 512
    ensures EntryFormed(es[i], level)
  {
  }

  lemma {:induction false} DiscoverSizes(es: seq<Entry>, level: nat, base: nat, n: nat)
    requires 1 <= level <= 4 && Formed(es, level) && n <= 512
    ensures TotalSize(Discover(es, level, base, n)) == PAGE_SIZE * Pages(es, level, n)
    decreases level, n + 1
  {
    if n > 0 {
      var e, b := es[n - 1], EntryBase(base, n - 1, level);
      assert EntryFormed(e, level);
      DiscoverSizes(es, level, base, n - 1);
      TotalSizeConcat(Discover(es, level, base, n - 1), EntryRegions(e, level, b));
      if IsTable(e, level) {
        DiscoverSizes(e.table, level - 1, b, 512);
      } else if e.flags.present {
        var r := MappedRegion(b, e.addr, Size(level), e.flags, BootName(level));
        assert [r][..0] == [];
        assert TotalSize([r]) == Size(level);
      }
    }
  }
}
