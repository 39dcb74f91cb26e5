// Four-level page tables as a tree, with the walks of the x86_64 crate that the kernel calls: mapping a
// 4 KiB page, unmapping one, and translating an address.
module Paging {
  import opened Wrappers
  import opened Frames
  import Multiples

  const PAGE_SIZE: nat := 4096
  const LARGE_SIZE: nat := 0x20_0000
  const HUGE_SIZE: nat := 0x4000_0000
  const PML4_SPAN: nat := 0x80_0000_0000
  /** Addresses a four-level walk distinguishes. */
  const VIRTUAL_END: nat := 0x1_0000_0000_0000
  const LOWER_HALF_END: nat := 0x8000_0000_0000
  const KERNEL_START: nat := 0xFFFF_8000_0000_0000
  const ADDRESS_END: nat := 0x1_0000_0000_0000_0000

  /** The addresses that `VirtAddr::new` takes; it panics on all others. */
  predicate Canonical(v: nat) { v < LOWER_HALF_END || KERNEL_START <= v < ADDRESS_END }

  /** `VirtAddr::new` where it does not panic. */
  function VirtAddrNew(addr: nat): nat
    requires Canonical(addr)
  {
    addr
  }

  /** So many pages from `virt` on, all at such addresses. */
  predicate CanonicalRange(virt: nat, count: nat) {
    virt + count * PAGE_SIZE <= LOWER_HALF_END || (KERNEL_START <= virt && virt + count * PAGE_SIZE <= ADDRESS_END)
  }

  /** The flags the kernel's code looks at; `rest` stands for the others. */
  datatype Flags = Flags(present: bool, writable: bool, user: bool, huge: bool, rest: nat)

  /** An entry: its address and flags, and the table found at that address when it points to one. */
  datatype Entry = Entry(addr: nat, flags: Flags, table: seq<Entry>)

  const UNUSED: Entry := Entry(0, Flags(false, false, false, false, 0), [])

  function EmptyTable(): seq<Entry> { seq(512, _ => UNUSED) }

  /** Bytes under one entry of a table of the given level. */
  function Size(level: nat): nat
    requires 1 <= level <= 4
  {
    if level == 1 then PAGE_SIZE else if level == 2 then LARGE_SIZE else if level == 3 then HUGE_SIZE else PML4_SPAN
  }

  /** The entry of a table of the given level that a walk for `v` follows. */
  function Index(v: nat, level: nat): (r: nat)
    requires 1 <= level <= 4
    ensures r < 512
  {
    v / Size(level) % 512
  }

  /** The entry maps memory itself rather than pointing to a table. */
  predicate IsLeaf(e: Entry, level: nat) {
    e.flags.present && (level == 1 || e.flags.huge)
  }

  predicate IsTable(e: Entry, level: nat) {
    e.flags.present && level > 1 && !e.flags.huge
  }

  /** 512 entries, absent ones all zero; large pages only at levels 2 and 3 and aligned to their size. */
  ghost predicate Formed(es: seq<Entry>, level: nat)
    requires 1 <= level <= 4
    decreases level, 1
  {
    |es| == 512 && forall i :: 0 <= i < 512 ==> EntryFormed(es[i], level)
  }

  ghost predicate EntryFormed(e: Entry, level: nat)
    requires 1 <= level <= 4
    decreases level, 0
  {
    && (!e.flags.present ==> e == UNUSED)
    && (e.flags.present && e.flags.huge ==> level == 2 || level == 3)
    && (IsLeaf(e, level) ==> e.addr % Size(level) == 0 && e.table == [])
    && (IsTable(e, level) ==> Formed(e.table, level - 1))
  }

  /** A stretch of addresses mapped by one leaf. */
  datatype Mapping = Mapping(virt: nat, phys: nat, size: nat) {
    predicate Covers(v: nat) { virt <= v < virt + size }
  }

  /** The leaf a walk for `v` ends in. */
  function LeafAt(es: seq<Entry>, level: nat, v: nat): Option<Mapping>
    requires 1 <= level <= 4 && Formed(es, level)
    decreases level
  {
    var e := es[Index(v, level)];
    assert EntryFormed(e, level);
    if !e.flags.present then None
    else if IsLeaf(e, level) then Some(Mapping(v - v % Size(level), e.addr, Size(level)))
    else LeafAt(e.table, level - 1, v)
  }

  /** `translate_addr`. */
  function TranslateAddr(root: seq<Entry>, v: nat): Option<nat>
    requires Formed(root, 4)
  {
    var m := LeafAt(root, 4, v);
    if m.None? then None else Some(m.value.phys + (v - m.value.virt))
  }

  // -- Walks that take the same path ----------------------------------------------------------------

  /** From the given level down, walks for `v` and `w` take the same entries. */
  predicate SamePath(v: nat, w: nat, level: nat)
    requires 1 <= level <= 4
  {
    Index(v, level) == Index(w, level) && (level > 1 ==> SamePath(v, w, level - 1))
  }

  /** For canonical addresses walks agree exactly within a page. */
  lemma SamePathIsSamePage(v: nat, w: nat)
    requires Canonical(v) && Canonical(w)
    ensures SamePath(v, w, 4) <==> v / PAGE_SIZE == w / PAGE_SIZE
  {
    WalkedBits(v);
    WalkedBits(w);
    assert SamePath(v, w, 4) <==> Index(v, 4) == Index(w, 4) && SamePath(v, w, 3);
    assert SamePath(v, w, 3) <==> Index(v, 3) == Index(w, 3) && SamePath(v, w, 2);
    assert SamePath(v, w, 2) <==> Index(v, 2) == Index(w, 2) && SamePath(v, w, 1);
  }

  /** The bits above those a walk looks at, as sign extension sets them in the upper half. */
  const EXTENSION: nat := 0xFFFF_0000_0000_0000

  /** Sign extension keeps the bits a walk looks at; the top one of these tells the halves apart. */
  lemma WalkedBits(v: nat)
    requires Canonical(v)
    ensures v / PAGE_SIZE == 0x800_0000 * Index(v, 4) + 0x4_0000 * Index(v, 3) + 0x200 * Index(v, 2) + Index(v, 1)
                             + if v < LOWER_HALF_END then 0 else 0xF_FFF0_0000_0000
    ensures v < LOWER_HALF_END <==> Index(v, 4) < 256
  {
    hide Index;
    if v < LOWER_HALF_END {
      IndicesMakePage(v);
      TopIndex(v);
    } else {
      var u := v - EXTENSION;
      IndicesMakePage(u);
      TopIndex(u);
      Extended(u);
    }
  }

  lemma TopIndex(u: nat)
    requires u < VIRTUAL_END
    ensures u < LOWER_HALF_END <==> Index(u, 4) < 256
  {
    assert u / PML4_SPAN < 512;
  }

  lemma Extended(u: nat)
    ensures (u + EXTENSION) / PAGE_SIZE == u / PAGE_SIZE + 0xF_FFF0_0000_0000
    ensures forall level :: 1 <= level <= 4 ==> Index(u + EXTENSION, level) == Index(u, level)
  {
    hide Index;
    ExtendedAt(u, 1, 0xF_FFF0_0000_0000);
    ExtendedAt(u, 2, 0x7FF_F800_0000);
    ExtendedAt(u, 3, 0x3_FFFC_0000);
    ExtendedAt(u, 4, 0x1FF_FE00);
  }

  lemma ExtendedAt(u: nat, level: nat, n: nat)
    requires 1 <= level <= 4 && n % 512 == 0 && n * Size(level) == EXTENSION
    ensures (u + EXTENSION) / Size(level) == u / Size(level) + n && Index(u + EXTENSION, level) == Index(u, level)
  {
    HighBits(u, Size(level), n);
  }

  lemma HighBits(u: nat, s: nat, n: nat)
    requires s > 0 && n % 512 == 0
    ensures (n * s + u) / s == n + u / s && (n * s + u) / s % 512 == u / s % 512
  {
    Multiples.DivShift(n, u, s);
    SameResidue(n, u / s);
  }

  lemma SameResidue(n: nat, q: nat)
    requires n % 512 == 0
    ensures (n + q) % 512 == q % 512
  {
  }

  lemma IndicesMakePage(v: nat)
    requires v < VIRTUAL_END
    ensures v / PAGE_SIZE == 0x800_0000 * Index(v, 4) + 0x4_0000 * Index(v, 3) + 0x200 * Index(v, 2) + Index(v, 1)
  {
    var p := v / PAGE_SIZE;
    assert v / LARGE_SIZE == p / 512;
    assert v / HUGE_SIZE == p / 512 / 512;
    assert v / PML4_SPAN == p / 512 / 512 / 512;
  }

  /** Two addresses under the same leaf take the same path down to it. */
  lemma SameBlockSameIndex(v: nat, w: nat, leaf: nat, level: nat)
    requires 1 <= leaf <= level <= 4
    requires v / Size(leaf) == w / Size(leaf)
    ensures v / Size(level) == w / Size(level) && Index(v, level) == Index(w, level)
  {
    if leaf == 1 {
      assert v / LARGE_SIZE == v / PAGE_SIZE / 512 && w / LARGE_SIZE == w / PAGE_SIZE / 512;
    }
    if leaf <= 2 {
      assert v / HUGE_SIZE == v / LARGE_SIZE / 512 && w / HUGE_SIZE == w / LARGE_SIZE / 512;
    }
    if leaf <= 3 {
      assert v / PML4_SPAN == v / HUGE_SIZE / 512 && w / PML4_SPAN == w / HUGE_SIZE / 512;
    }
  }

  /** The leaf covers the address it was reached from, and is the leaf of every address it covers. */
  lemma {:induction false} LeafCovers(es: seq<Entry>, level: nat, v: nat)
    requires 1 <= level <= 4 && Formed(es, level)
    ensures var m := LeafAt(es, level, v);
            m.Some? ==>
              && m.value.Covers(v) && m.value.size >= PAGE_SIZE && m.value.virt % m.value.size == 0
              && m.value.size <= Size(level)
    ensures var m := LeafAt(es, level, v);
            m.Some? ==> m.value.size == PAGE_SIZE || m.value.size == LARGE_SIZE || m.value.size == HUGE_SIZE
    decreases level
  {
    hide Index;
    var e := es[Index(v, level)];
    assert EntryFormed(e, level);
    if IsTable(e, level) {
      LeafCovers(e.table, level - 1, v);
    } else {
      BlockOf(v, Size(level));
    }
  }

  lemma BlockOf(v: nat, s: nat)
    requires s > 0
    ensures v - v % s <= v < v - v % s + s && (v - v % s) % s == 0
  {
    Multiples.DivBounds(v, s);
    Multiples.DivUnique(v - v % s, s, v / s, 0);
  }

  lemma {:induction false} LeafIsShared(es: seq<Entry>, level: nat, v: nat, w: nat)
    requires 1 <= level <= 4 && Formed(es, level)
    requires LeafAt(es, level, v).Some? && LeafAt(es, level, v).value.Covers(w)
    ensures LeafAt(es, level, w) == LeafAt(es, level, v)
    decreases level
  {
    var e := es[Index(v, level)];
    assert EntryFormed(e, level);
    if IsTable(e, level) {
      LeafIsShared(e.table, level - 1, v, w);
      var m := LeafAt(e.table, level - 1, v).value;
      LeafCovers(e.table, level - 1, v);
      SameLeafBlock(m, v, w, level);
    } else {
      assert v / Size(level) == w / Size(level);
    }
  }

  lemma SameLeafBlock(m: Mapping, v: nat, w: nat, level: nat)
    requires 1 <= level <= 4 && m.size <= Size(level)
    requires m.size == PAGE_SIZE || m.size == LARGE_SIZE || m.size == HUGE_SIZE
    requires m.virt % m.size == 0 && m.Covers(v) && m.Covers(w)
    ensures Index(v, level) == Index(w, level)
  {
    var leaf := if m.size == PAGE_SIZE then 1 else if m.size == LARGE_SIZE then 2 else 3;
    assert v / Size(leaf) == m.virt / Size(leaf) == w / Size(leaf);
    SameBlockSameIndex(v, w, leaf, level);
  }

  // -- Counting mapped pages ----------------------------------------------------------------------------

  /** 4 KiB pages mapped under one entry. */
  function EntryPages(e: Entry, level: nat): nat
    requires 1 <= level <= 4
    decreases level, 0
  {
    if !e.flags.present then 0
    else if level == 1 then 1
    else if e.flags.huge then (if level == 2 then 512 else 512 * 512)
    else Pages(e.table, level - 1, |e.table|)
  }

  /** 4 KiB pages mapped under the first `n` entries. */
  function Pages(es: seq<Entry>, level: nat, n: nat): nat
    requires 1 <= level <= 4 && n <= |es|
    decreases level, n + 1
  {
    if n == 0 then 0 else Pages(es, level, n - 1) + EntryPages(es[n - 1], level)
  }

  lemma {:induction false} PagesUpdate(es: seq<Entry>, level: nat, n: nat, i: nat, e: Entry)
    requires 1 <= level <= 4 && n <= |es| && i < |es|
    ensures Pages(es[i := e], level, n)
            == if i < n then Pages(es, level, n) - EntryPages(es[i], level) + EntryPages(e, level)
                else Pages(es, level, n)
    decreases n
  {
    if n > 0 {
      PagesUpdate(es, level, n - 1, i, e);
    }
  }

  lemma {:induction false} EmptyPages(level: nat, n: nat)
    requires 1 <= level <= 4 && n <= 512
    ensures Pages(EmptyTable(), level, n) == 0
    decreases n
  {
    if n > 0 {
      EmptyPages(level, n - 1);
    }
  }

  // -- Table frames -------------------------------------------------------------------------------------

  /** How many entries under this one point to a table at frame address `f`. */
  function EntryTables(e: Entry, level: nat, f: nat): nat
    requires 1 <= level <= 4
    decreases level, 0
  {
    if IsTable(e, level) then (if e.addr == f then 1 else 0) + Tables(e.table, level - 1, |e.table|, f) else 0
  }

  function Tables(es: seq<Entry>, level: nat, n: nat, f: nat): nat
    requires 1 <= level <= 4 && n <= |es|
    decreases level, n + 1
  {
    if n == 0 then 0 else Tables(es, level, n - 1, f) + EntryTables(es[n - 1], level, f)
  }

  lemma {:induction false} TablesUpdate(es: seq<Entry>, level: nat, n: nat, f: nat, i: nat, e: Entry)
    requires 1 <= level <= 4 && n <= |es| && i < |es|
    ensures Tables(es[i := e], level, n, f)
            == if i < n then Tables(es, level, n, f) - EntryTables(es[i], level, f) + EntryTables(e, level, f)
                else Tables(es, level, n, f)
    decreases n
  {
    if n > 0 {
      TablesUpdate(es, level, n - 1, f, i, e);
    }
  }

  lemma {:induction false} EmptyTables(level: nat, n: nat, f: nat)
    requires 1 <= level <= 4 && n <= 512
    ensures Tables(EmptyTable(), level, n, f) == 0
    decreases n
  {
    if n > 0 {
      EmptyTables(level, n - 1, f);
    }
  }

  // -- Mapping a page -----------------------------------------------------------------------------------

  datatype MapError = FrameAllocationFailed | ParentEntryHugePage | PageAlreadyMapped

  /** What a mapping attempt leaves: its answer, the table and the frame pool. */
  datatype Mapped = Mapped(result: Result<(), MapError>, table: seq<Entry>, pool: Pool)

  /** Flags of a table on the way to a page mapped with `flags`. */
  function ParentFlags(flags: Flags): Flags {
    Flags(flags.present, flags.writable, flags.user, false, 0)
  }

  /** A table's flags after a page with `flags` was mapped below it. */
  function WithParent(was: Flags, flags: Flags): Flags {
    was.(present := was.present || flags.present, writable := was.writable || flags.writable,
         user := was.user || flags.user)
  }

  /** `map_to`, from the table of the given level down: missing tables come from the frame pool. */
  function MapTo(es: seq<Entry>, level: nat, v: nat, phys: nat, flags: Flags, pool: Pool): (m: Mapped)
    requires 1 <= level <= 4 && Formed(es, level) && pool.next <= |pool.used|
    ensures |m.table| == 512
    decreases level
  {
    var i := Index(v, level);
    var e := es[i];
    assert EntryFormed(e, level);
    if level == 1 then
      if e != UNUSED then Mapped(Err(PageAlreadyMapped), es, pool)
      else Mapped(Ok(()), es[i := Entry(phys, flags, [])], pool)
    else if e == UNUSED then
      if pool.next == |pool.used| then Mapped(Err(FrameAllocationFailed), es, pool)
      else
        EmptyFormed(level - 1);
        var m := MapTo(EmptyTable(), level - 1, v, phys, flags, TakeOne(pool));
        Mapped(m.result, es[i := Entry(pool.next * PAGE_SIZE, ParentFlags(flags), m.table)], m.pool)
    else
      var e' := e.(flags := WithParent(e.flags, flags));
      if e.flags.huge then Mapped(Err(ParentEntryHugePage), es[i := e'], pool)
      else
        var m := MapTo(e.table, level - 1, v, phys, flags, pool);
        Mapped(m.result, es[i := e'.(table := m.table)], m.pool)
  }

  lemma EmptyFormed(level: nat)
    requires 1 <= level <= 4
    ensures Formed(EmptyTable(), level)
  {
  }

  /** Flags a caller may map with: present, and no large page. */
  predicate Mappable(flags: Flags) { flags.present && !flags.huge }

  lemma {:induction false} MapToFormed(es: seq<Entry>, level: nat, v: nat, phys: nat, flags: Flags, pool: Pool)
    requires 1 <= level <= 4 && Formed(es, level) && pool.next <= |pool.used|
    requires Mappable(flags) && phys % PAGE_SIZE == 0
    ensures Formed(MapTo(es, level, v, phys, flags, pool).table, level)
    decreases level
  {
    var e := es[Index(v, level)];
    assert EntryFormed(e, level);
    if level > 1 {
      if e == UNUSED {
        EmptyFormed(level - 1);
        if pool.next < |pool.used| {
          MapToFormed(EmptyTable(), level - 1, v, phys, flags, TakeOne(pool));
        }
      } else if !e.flags.huge {
        MapToFormed(e.table, level - 1, v, phys, flags, pool);
      }
    }
  }

  /** The answer is decided by the leaf that was there: a page already mapped, a larger page in the way,
      or success, unless the frame pool runs dry on the way. */
  lemma {:induction false} MapToAnswer(es: seq<Entry>, level: nat, v: nat, phys: nat, flags: Flags, pool: Pool)
    requires 1 <= level <= 4 && Formed(es, level) && pool.next <= |pool.used|
    ensures var was, m := LeafAt(es, level, v), MapTo(es, level, v, phys, flags, pool);
            && (was.Some? && was.value.size == PAGE_SIZE <==> m.result == Err(PageAlreadyMapped))
            && (was.Some? && was.value.size != PAGE_SIZE <==> m.result == Err(ParentEntryHugePage))
            && (was.None? <==> m.result.Ok? || m.result == Err(FrameAllocationFailed))
            && (m.result == Err(FrameAllocationFailed) ==> m.pool.next == |m.pool.used|)
    decreases level
  {
    var e := es[Index(v, level)];
    assert EntryFormed(e, level);
    if level > 1 {
      if e == UNUSED {
        EmptyFormed(level - 1);
        if pool.next < |pool.used| {
          MapToAnswer(EmptyTable(), level - 1, v, phys, flags, TakeOne(pool));
          EmptyLeaf(level - 1, v);
        }
      } else if !e.flags.huge {
        MapToAnswer(e.table, level - 1, v, phys, flags, pool);
      }
    }
  }

  /** Tables a walk for `v` finds missing. */
  function MissingTables(es: seq<Entry>, level: nat, v: nat): nat
    requires 1 <= level <= 4 && Formed(es, level)
    decreases level
  {
    var e := es[Index(v, level)];
    assert EntryFormed(e, level);
    if level == 1 then 0
    else if e == UNUSED then level - 1
    else if e.flags.huge then 0
    else MissingTables(e.table, level - 1, v)
  }

  /** A mapping succeeds exactly when nothing is mapped at `v` and the pool has a frame for every missing
      table. */
  lemma {:induction false} MapToSucceeds(es: seq<Entry>, level: nat, v: nat, phys: nat, flags: Flags, pool: Pool)
    requires 1 <= level <= 4 && Formed(es, level) && HintOk(pool.used, pool.next)
    ensures MapTo(es, level, v, phys, flags, pool).result.Ok?
            <==> LeafAt(es, level, v).None? && MissingTables(es, level, v) <= Available(pool)
    decreases level
  {
    hide Index, NextFree, FreeFrom, TakeOne;
    var e := es[Index(v, level)];
    assert EntryFormed(e, level);
    if level > 1 {
      if e == UNUSED {
        EmptyFormed(level - 1);
        EmptyMissing(level - 1, v);
        EmptyLeaf(level - 1, v);
        if pool.next < |pool.used| {
          TakenOne(pool);
          TakenHint(pool);
          MapToSucceeds(EmptyTable(), level - 1, v, phys, flags, TakeOne(pool));
        } else {
          NoneAvailable(pool);
        }
      } else if !e.flags.huge {
        MapToSucceeds(e.table, level - 1, v, phys, flags, pool);
      }
    }
  }

  lemma TakenHint(pool: Pool)
    requires pool.next < |pool.used|
    ensures HintOk(TakeOne(pool).used, TakeOne(pool).next)
  {
  }

  lemma NoneAvailable(pool: Pool)
    requires pool.next == |pool.used|
    ensures Available(pool) == 0
  {
  }

  lemma EmptyMissing(level: nat, v: nat)
    requires 1 <= level <= 4
    ensures Formed(EmptyTable(), level) && MissingTables(EmptyTable(), level, v) == level - 1
  {
  }

  lemma EmptyLeaf(level: nat, v: nat)
    requires 1 <= level <= 4
    ensures Formed(EmptyTable(), level) && LeafAt(EmptyTable(), level, v) == None
  {
  }

  /** A successful mapping changes the leaf of exactly the addresses of that page; a failed one changes
      no leaf, even when it left new tables behind. */
  lemma {:induction false} MapToLeaves(es: seq<Entry>, level: nat, v: nat, phys: nat, flags: Flags, pool: Pool, w: nat)
    requires 1 <= level <= 4 && Formed(es, level) && pool.next <= |pool.used|
    requires Mappable(flags) && phys % PAGE_SIZE == 0
    requires Formed(MapTo(es, level, v, phys, flags, pool).table, level)
    ensures var m := MapTo(es, level, v, phys, flags, pool);
            LeafAt(m.table, level, w)
            == if m.result.Ok? && SamePath(v, w, level) then Some(Mapping(w - w % PAGE_SIZE, phys, PAGE_SIZE))
                else LeafAt(es, level, w)
    decreases level
  {
    var i, j := Index(v, level), Index(w, level);
    var e := es[i];
    assert EntryFormed(e, level);
    var m := MapTo(es, level, v, phys, flags, pool);
    assert EntryFormed(m.table[i], level);
    if level > 1 && i == j {
      if e == UNUSED {
        EmptyLeaf(level - 1, w);
        if pool.next < |pool.used| {
          MapToLeaves(EmptyTable(), level - 1, v, phys, flags, TakeOne(pool), w);
        }
      } else if !e.flags.huge {
        MapToLeaves(e.table, level - 1, v, phys, flags, pool, w);
      }
    }
  }

  /** `get_flags`: the flags of the leaf a walk for `v` ends in. */
  function LeafFlags(es: seq<Entry>, level: nat, v: nat): Option<Flags>
    requires 1 <= level <= 4 && Formed(es, level)
    decreases level
  {
    var e := es[Index(v, level)];
    assert EntryFormed(e, level);
    if !e.flags.present then None
    else if IsLeaf(e, level) then Some(e.flags)
    else LeafFlags(e.table, level - 1, v)
  }

  /** The walk for `v` ends in a 4 KiB page with these flags, and no table on the way withholds write or
      user access that they grant. */
  ghost predicate PathPermits(es: seq<Entry>, level: nat, v: nat, flags: Flags)
    requires 1 <= level <= 4 && Formed(es, level)
    decreases level
  {
    var e := es[Index(v, level)];
    assert EntryFormed(e, level);
    if level == 1 then e.flags == flags
    else
      && IsTable(e, level) && (flags.writable ==> e.flags.writable) && (flags.user ==> e.flags.user)
      && PathPermits(e.table, level - 1, v, flags)
  }

  lemma {:induction false} MapToPermits(es: seq<Entry>, level: nat, v: nat, phys: nat, flags: Flags, pool: Pool)
    requires 1 <= level <= 4 && Formed(es, level) && pool.next <= |pool.used| && Mappable(flags)
    requires Formed(MapTo(es, level, v, phys, flags, pool).table, level)
    requires MapTo(es, level, v, phys, flags, pool).result.Ok?
    ensures PathPermits(MapTo(es, level, v, phys, flags, pool).table, level, v, flags)
    decreases level
  {
    var i := Index(v, level);
    var e := es[i];
    assert EntryFormed(e, level);
    assert EntryFormed(MapTo(es, level, v, phys, flags, pool).table[i], level);
    if level > 1 {
      if e == UNUSED {
        EmptyFormed(level - 1);
        MapToPermits(EmptyTable(), level - 1, v, phys, flags, TakeOne(pool));
      } else {
        MapToPermits(e.table, level - 1, v, phys, flags, pool);
      }
    }
  }

  lemma TakeOneBounds(pool: Pool)
    requires pool.next <= |pool.used|
    ensures TakeOne(pool).next <= |TakeOne(pool).used|
  {
  }

  /** The flags of all other pages stay, with one exception. */
  lemma {:induction false} MapToFlags(es: seq<Entry>, level: nat, v: nat, phys: nat, flags: Flags, pool: Pool, w: nat)
    requires 1 <= level <= 4 && Formed(es, level) && pool.next <= |pool.used|
    requires Formed(MapTo(es, level, v, phys, flags, pool).table, level)
    ensures var m := MapTo(es, level, v, phys, flags, pool);
            m.result != Err(ParentEntryHugePage) && !(m.result.Ok? && SamePath(v, w, level)) ==>
              LeafFlags(m.table, level, w) == LeafFlags(es, level, w)
    decreases level
  {
    hide NextFree, TakeOne, Index;
    var i := Index(v, level);
    var e := es[i];
    assert EntryFormed(e, level);
    var m := MapTo(es, level, v, phys, flags, pool);
    assert EntryFormed(m.table[i], level);
    if level > 1 && i == Index(w, level) {
      if e == UNUSED {
        EmptyFormed(level - 1);
        if pool.next < |pool.used| {
          TakeOneBounds(pool);
          MapToFlags(EmptyTable(), level - 1, v, phys, flags, TakeOne(pool), w);
        }
      } else if !e.flags.huge {
        MapToFlags(e.table, level - 1, v, phys, flags, pool, w);
      }
    }
  }

  /** The exception: an attempt to map inside a large page fails but leaves that page with the write and
      user access that were asked for. */
  lemma {:induction false} FailedMapWidens(es: seq<Entry>, level: nat, v: nat, phys: nat, flags: Flags, pool: Pool)
    requires 1 <= level <= 4 && Formed(es, level) && pool.next <= |pool.used|
    requires Formed(MapTo(es, level, v, phys, flags, pool).table, level)
    requires MapTo(es, level, v, phys, flags, pool).result == Err(ParentEntryHugePage)
    ensures LeafFlags(es, level, v).Some?
    ensures LeafFlags(MapTo(es, level, v, phys, flags, pool).table, level, v)
            == Some(WithParent(LeafFlags(es, level, v).value, flags))
    decreases level
  {
    var i := Index(v, level);
    var e := es[i];
    assert EntryFormed(e, level);
    assert EntryFormed(MapTo(es, level, v, phys, flags, pool).table[i], level);
    if level > 1 {
      if e == UNUSED {
        EmptyFormed(level - 1);
        EmptyLeaf(level - 1, v);
        MapToAnswer(EmptyTable(), level - 1, v, phys, flags, TakeOne(pool));
      } else if !e.flags.huge {
        FailedMapWidens(e.table, level - 1, v, phys, flags, pool);
      }
    }
  }

  lemma {:induction false} MapToPages(es: seq<Entry>, level: nat, v: nat, phys: nat, flags: Flags, pool: Pool)
    requires 1 <= level <= 4 && Formed(es, level) && pool.next <= |pool.used| && Mappable(flags)
    ensures var m := MapTo(es, level, v, phys, flags, pool);
            Pages(m.table, level, 512) == Pages(es, level, 512) + if m.result.Ok? then 1 else 0
    decreases level
  {
    hide Pages, NextFree;
    var i := Index(v, level);
    var e := es[i];
    assert EntryFormed(e, level);
    var m := MapTo(es, level, v, phys, flags, pool);
    assert m.table == es[i := m.table[i]];
    PagesUpdate(es, level, 512, i, m.table[i]);
    if level > 1 {
      if e == UNUSED {
        EmptyFormed(level - 1);
        EmptyPages(level - 1, 512);
        if pool.next < |pool.used| {
          MapToPages(EmptyTable(), level - 1, v, phys, flags, TakeOne(pool));
        }
      } else if !e.flags.huge {
        MapToPages(e.table, level - 1, v, phys, flags, pool);
      }
    }
  }

  lemma {:induction false} MapToHint(es: seq<Entry>, level: nat, v: nat, phys: nat, flags: Flags, pool: Pool)
    requires 1 <= level <= 4 && Formed(es, level) && HintOk(pool.used, pool.next)
    ensures var m := MapTo(es, level, v, phys, flags, pool);
            HintOk(m.pool.used, m.pool.next) && |m.pool.used| == |pool.used|
    decreases level
  {
    var e := es[Index(v, level)];
    assert EntryFormed(e, level);
    if level > 1 {
      if e == UNUSED {
        EmptyFormed(level - 1);
        if pool.next < |pool.used| {
          MapToHint(EmptyTable(), level - 1, v, phys, flags, TakeOne(pool));
        }
      } else if !e.flags.huge {
        MapToHint(e.table, level - 1, v, phys, flags, pool);
      }
    }
  }

  /** Frames taken from the pool become tables, one each, and no other frame does. */
  lemma {:induction false} MapToTables(es: seq<Entry>, level: nat, v: nat, phys: nat, flags: Flags, pool: Pool,
                                       frame: nat)
    requires 1 <= level <= 4 && Formed(es, level) && HintOk(pool.used, pool.next) && Mappable(flags)
    requires frame < |pool.used|
    ensures var m := MapTo(es, level, v, phys, flags, pool);
            && |m.pool.used| == |pool.used|
            && (pool.used[frame] ==> m.pool.used[frame])
            && Tables(m.table, level, 512, frame * PAGE_SIZE)
               == Tables(es, level, 512, frame * PAGE_SIZE) + if m.pool.used[frame] && !pool.used[frame] then 1 else 0
    decreases level
  {
    hide Tables, NextFree;
    var i := Index(v, level);
    var e := es[i];
    assert EntryFormed(e, level);
    var m := MapTo(es, level, v, phys, flags, pool);
    assert m.table == es[i := m.table[i]];
    TablesUpdate(es, level, 512, frame * PAGE_SIZE, i, m.table[i]);
    if level > 1 {
      if e == UNUSED {
        EmptyFormed(level - 1);
        EmptyTables(level - 1, 512, frame * PAGE_SIZE);
        if pool.next < |pool.used| {
          MapToTables(EmptyTable(), level - 1, v, phys, flags, TakeOne(pool), frame);
        }
      } else if !e.flags.huge {
        MapToTables(e.table, level - 1, v, phys, flags, pool, frame);
      }
    }
  }

  // -- Unmapping a page ---------------------------------------------------------------------------------

  datatype UnmapError = PageNotMapped | ParentIsHugePage

  /** `unmap`, from the table of the given level down: the frame that was mapped, and the table. */
  function Unmap(es: seq<Entry>, level: nat, v: nat): (r: (Result<nat, UnmapError>, seq<Entry>))
    requires 1 <= level <= 4 && Formed(es, level)
    ensures |r.1| == 512
    decreases level
  {
    var i := Index(v, level);
    var e := es[i];
    assert EntryFormed(e, level);
    if !e.flags.present then (Err(PageNotMapped), es)
    else if level == 1 then (Ok(e.addr), es[i := UNUSED])
    else if e.flags.huge then (Err(ParentIsHugePage), es)
    else
      var (r, table) := Unmap(e.table, level - 1, v);
      (r, es[i := e.(table := table)])
  }

  lemma {:induction false} UnmapFormed(es: seq<Entry>, level: nat, v: nat)
    requires 1 <= level <= 4 && Formed(es, level)
    ensures Formed(Unmap(es, level, v).1, level)
    decreases level
  {
    var e := es[Index(v, level)];
    assert EntryFormed(e, level);
    if IsTable(e, level) {
      UnmapFormed(e.table, level - 1, v);
    }
  }

  lemma {:induction false} UnmapAnswer(es: seq<Entry>, level: nat, v: nat)
    requires 1 <= level <= 4 && Formed(es, level)
    ensures var was, r := LeafAt(es, level, v), Unmap(es, level, v).0;
            && (was.None? <==> r == Err(PageNotMapped))
            && (was.Some? && was.value.size != PAGE_SIZE <==> r == Err(ParentIsHugePage))
            && (was.Some? && was.value.size == PAGE_SIZE <==> r.Ok?)
            && (r.Ok? ==> was.value.phys == r.value)
    decreases level
  {
    var e := es[Index(v, level)];
    assert EntryFormed(e, level);
    if IsTable(e, level) {
      UnmapAnswer(e.table, level - 1, v);
    }
  }

  lemma {:induction false} UnmapLeaves(es: seq<Entry>, level: nat, v: nat, w: nat)
    requires 1 <= level <= 4 && Formed(es, level) && Formed(Unmap(es, level, v).1, level)
    ensures var (r, es') := Unmap(es, level, v);
            LeafAt(es', level, w) == if r.Ok? && SamePath(v, w, level) then None else LeafAt(es, level, w)
    decreases level
  {
    var i := Index(v, level);
    var e := es[i];
    assert EntryFormed(e, level);
    assert EntryFormed(Unmap(es, level, v).1[i], level);
    if IsTable(e, level) && i == Index(w, level) {
      UnmapLeaves(e.table, level - 1, v, w);
    }
  }

  lemma {:induction false} UnmapPages(es: seq<Entry>, level: nat, v: nat)
    requires 1 <= level <= 4 && Formed(es, level)
    ensures var (r, es') := Unmap(es, level, v);
            Pages(es', level, 512) + (if r.Ok? then 1 else 0) == Pages(es, level, 512)
    decreases level
  {
    var i := Index(v, level);
    var e := es[i];
    assert EntryFormed(e, level);
    var es' := Unmap(es, level, v).1;
    assert es' == es[i := es'[i]];
    PagesUpdate(es, level, 512, i, es'[i]);
    if IsTable(e, level) {
      UnmapPages(e.table, level - 1, v);
    }
  }

  lemma {:induction false} UnmapTables(es: seq<Entry>, level: nat, v: nat, f: nat)
    requires 1 <= level <= 4 && Formed(es, level)
    ensures Tables(Unmap(es, level, v).1, level, 512, f) == Tables(es, level, 512, f)
    decreases level
  {
    var i := Index(v, level);
    var e := es[i];
    assert EntryFormed(e, level);
    var es' := Unmap(es, level, v).1;
    assert es' == es[i := es'[i]];
    TablesUpdate(es, level, 512, f, i, es'[i]);
    if IsTable(e, level) {
      UnmapTables(e.table, level - 1, v, f);
    }
  }
}
