// The virtual memory manager of kernel/src/memory/vmm.rs over the frame allocator.
module Vmm {
  import opened Wrappers
  import opened Paging
  import opened Regions
  import VmmSpec
  import opened PhysMem

  class VirtualMemoryManager {
    /** The entries of the PML4, with the tables below them. */
    var pageTable: seq<Entry>
    var mappedRegions: seq<MappedRegion>
    var stats: VmmSpec.VmmStatistics
    /** Where frames for new tables come from. */
    const pmm: PhysicalFrameAllocator

    ghost function State(): VmmSpec.Vmm
      requires pmm.Shape()
      reads this, pmm, pmm.bitmap
    {
      VmmSpec.Vmm(pageTable, mappedRegions, stats, pmm.State())
    }

    ghost predicate Valid()
      reads this, pmm, pmm.bitmap
    {
      pmm.Valid() && VmmSpec.Sound(State())
    }

    /** Takes over the tables the boot code built. */
    constructor (root: seq<Entry>, pmm: PhysicalFrameAllocator)
      requires Formed(root, 4) && LowerLeaves(root) && pmm.Valid()
      ensures Valid() && this.pmm == pmm && State() == VmmSpec.Boot(root, pmm.State())
    {
      pageTable := root;
      mappedRegions := [];
      stats := VmmSpec.VmmStatistics(0, 0, 0, 0, 0, 0);
      this.pmm := pmm;
      new;
      DiscoverExistingMappings();
      VmmSpec.BootSound(root, pmm.State());
    }

    // -- Walks over all four levels -------------------------------------------------------------------

    /** Records every leaf of the boot tables. */
    method DiscoverExistingMappings()
      requires Formed(pageTable, 4) && LowerLeaves(pageTable) && mappedRegions == []
               && stats == VmmSpec.VmmStatistics(0, 0, 0, 0, 0, 0)
      modifies this`mappedRegions, this`stats
      ensures mappedRegions == Discover(pageTable, 4, 0, 512)
      ensures var n := Pages(pageTable, 4, 512); stats == VmmSpec.VmmStatistics(n, n * PAGE_SIZE, 0, 0, 0, 0)
    {
      hide Discover, Pages, EntryFormed, LowerLeaves, LowerTable;
      LowerRoot(pageTable);
      DiscoverTable(pageTable, 4, 0);
      assert [] + Discover(pageTable, 4, 0, 512) == Discover(pageTable, 4, 0, 512);
      stats := stats.(totalMappedBytes := stats.totalMappedPages * PAGE_SIZE);
    }

    /** One table of the walk, whose first entry lies at `base`. */
    method DiscoverTable(es: seq<Entry>, level: nat, base: nat)
      requires 1 <= level <= 4 && Formed(es, level) && LowerTable(es, level, base)
      modifies this`mappedRegions, this`stats
      ensures mappedRegions == old(mappedRegions) + Discover(es, level, base, 512)
      ensures stats == old(stats).(totalMappedPages := old(stats).totalMappedPages + Pages(es, level, 512))
      decreases level
    {
      hide EntryBase, Size, Discover, Pages, LowerTable;
      DiscoverNone(es, level, base);
      for i := 0 to 512
        modifies this`mappedRegions, this`stats
        invariant mappedRegions == old(mappedRegions) + Discover(es, level, base, i)
        invariant stats == old(stats).(totalMappedPages := old(stats).totalMappedPages + Pages(es, level, i))
      {
        var e := es[i];
        assert EntryFormed(e, level);
        var virt := EntryBase(base, i, level);
        DiscoverNext(es, level, base, i);
        ghost var found := mappedRegions;
        assert found + EntryRegions(e, level, virt) == old(mappedRegions) + Discover(es, level, base, i + 1);
        if !e.flags.present {
          continue;
        }
        if level == 1 || e.flags.huge {
          LeafIsLower(es, level, base, i);
          mappedRegions := mappedRegions
              + [MappedRegion(VirtAddrNew(virt), e.addr, Size(level), e.flags, BootName(level))];
          stats := stats.(totalMappedPages := stats.totalMappedPages + Size(level) / PAGE_SIZE);
          continue;
        }
        LowerBelow(es, level, base, i);
        DiscoverTable(e.table, level - 1, virt);
      }
    }

    static lemma LeafIsLower(es: seq<Entry>, level: nat, base: nat, i: nat)
      requires 1 <= level <= 4 && Formed(es, level) && LowerTable(es, level, base) && i < 512 && IsLeaf(es[i], level)
      ensures Canonical(EntryBase(base, i, level))
    {
      FormedAt(es, level, i);
    }

    static lemma DiscoverNone(es: seq<Entry>, level: nat, base: nat)
      requires 1 <= level <= 4
      ensures Discover(es, level, base, 0) == [] && Pages(es, level, 0) == 0
    {
    }

    static lemma DiscoverNext(es: seq<Entry>, level: nat, base: nat, i: nat)
      requires 1 <= level <= 4 && i < |es| && EntryFormed(es[i], level)
      ensures var e, virt := es[i], EntryBase(base, i, level);
              && Discover(es, level, base, i + 1) == Discover(es, level, base, i) + EntryRegions(e, level, virt)
              && Pages(es, level, i + 1) == Pages(es, level, i) + EntryPages(e, level)
              && (IsLeaf(e, level) ==> EntryPages(e, level) == Size(level) / PAGE_SIZE)
    {
    }

    /** Counts the 4 KiB pages mapped under one table. */
    method CountMappedPages(es: seq<Entry>, level: nat) returns (count: nat)
      requires 1 <= level <= 4 && Formed(es, level)
      ensures count == Pages(es, level, 512)
      decreases level
    {
      hide Size, Discover, Pages;
      DiscoverNone(es, level, 0);
      count := 0;
      for i := 0 to 512
        invariant count == Pages(es, level, i)
      {
        var e := es[i];
        assert EntryFormed(e, level);
        DiscoverNext(es, level, 0, i);
        if !e.flags.present {
          continue;
        }
        if level == 1 || e.flags.huge {
          count := count + Size(level) / PAGE_SIZE;
          continue;
        }
        var below := CountMappedPages(e.table, level - 1);
        count := count + below;
      }
    }

    /** Compares a fresh walk with the tracked count: true in every state this class can reach. */
    method Validate() returns (r: bool)
      requires Valid()
      ensures r
    {
      var walked := CountMappedPages(pageTable, 4);
      r := walked == stats.totalMappedPages;
    }

    function Translate(virt: nat): Option<nat>
      requires Formed(pageTable, 4)
      reads this
    {
      TranslateAddr(pageTable, virt)
    }

    /** The region covering an address, and with it where the address translates to. */
    method GetMapping(virt: nat) returns (r: Option<MappedRegion>)
      requires Valid() && Canonical(virt)
      ensures r.Some? <==> Translate(virt).Some?
      ensures r.Some? ==> r.value in mappedRegions
      ensures r.Some? ==> Translate(virt) == Some(r.value.physicalAddr + (virt - r.value.virtualAddr))
    {
      hide Formed, LeafAt, Pages, TotalSize, Apart;
      for i := 0 to |mappedRegions|
        invariant Regions.GetMapping(mappedRegions, virt) == Regions.GetMapping(mappedRegions[i..], virt)
      {
        assert mappedRegions[i..][1..] == mappedRegions[i + 1..];
        if mappedRegions[i].Covers(virt) {
          assert Looked(mappedRegions, virt) == LeafAt(pageTable, 4, virt);
          return Some(mappedRegions[i]);
        }
      }
      assert Looked(mappedRegions, virt) == LeafAt(pageTable, 4, virt);
      r := None;
    }

    // -- The mapper -------------------------------------------------------------------------------------

    /** `map_to` from one table down, with missing tables taken from the allocator. */
    method MapTo(es: seq<Entry>, level: nat, virt: nat, phys: nat, flags: Flags)
      returns (r: Result<(), MapError>, table: seq<Entry>)
      requires 1 <= level <= 4 && Formed(es, level) && pmm.Valid()
      modifies pmm, pmm.bitmap
      ensures pmm.Valid()
      ensures Mapped(r, table, pmm.State()) == Paging.MapTo(es, level, virt, phys, flags, old(pmm.State()))
      decreases level
    {
      var i := Index(virt, level);
      var e := es[i];
      assert EntryFormed(e, level);
      if level == 1 {
        if e != UNUSED {
          return Err(PageAlreadyMapped), es;
        }
        return Ok(()), es[i := Entry(phys, flags, [])];
      }
      if e == UNUSED {
        var frame := pmm.AllocateFrame();
        if frame.None? {
          return Err(FrameAllocationFailed), es;
        }
        EmptyFormed(level - 1);
        var below;
        r, below := MapTo(EmptyTable(), level - 1, virt, phys, flags);
        return r, es[i := Entry(frame.value, ParentFlags(flags), below)];
      }
      e := e.(flags := WithParent(e.flags, flags));
      if e.flags.huge {
        return Err(ParentEntryHugePage), es[i := e];
      }
      var below;
      r, below := MapTo(e.table, level - 1, virt, phys, flags);
      table := es[i := e.(table := below)];
    }

    // -- Mapping operations --------------------------------------------------------------------------------

    method MapPage(virt: nat, phys: nat, flags: Flags) returns (r: Result<(), VmmSpec.VmmError>)
      requires Valid() && Mappable(flags) && Canonical(virt)
      modifies this, pmm, pmm.bitmap
      ensures Valid() && (State(), r) == VmmSpec.MapPage(old(State()), virt, phys, flags)
    {
      hide Formed, Paging.MapTo, VmmSpec.Agree, Apart, Pages, TotalSize;
      if virt % PAGE_SIZE != 0 || phys % PAGE_SIZE != 0 {
        return Err(VmmSpec.InvalidAddress);
      }
      VmmSpec.TrackSound(State(), virt, phys, flags, "user mapped");
      var m, table := MapTo(pageTable, 4, virt, phys, flags);
      pageTable := table;
      if m.Err? {
        return Err(VmmSpec.MapAnswer(m.error));
      }
      mappedRegions := mappedRegions + [MappedRegion(virt, phys, PAGE_SIZE, flags, "user mapped")];
      stats := VmmSpec.Counted(stats);
      r := Ok(());
    }

    method UnmapPage(virt: nat) returns (r: Result<nat, VmmSpec.VmmError>)
      requires Valid() && Canonical(virt)
      modifies this
      ensures Valid() && (State(), r) == VmmSpec.UnmapPage(old(State()), virt)
    {
      hide Formed, Unmap, VmmSpec.Agree, Apart, Pages, TotalSize;
      if virt % PAGE_SIZE != 0 {
        return Err(VmmSpec.InvalidAddress);
      }
      VmmSpec.UnmapSound(State(), virt);
      var (u, table) := Unmap(pageTable, 4, virt);
      pageTable := table;
      if u.Err? {
        return Err(VmmSpec.UnmapAnswerOf(u.error));
      }
      mappedRegions := Retain(mappedRegions, virt);
      stats := VmmSpec.Uncounted(stats);
      r := Ok(u.value);
    }

    /** Unmaps and maps again; when the second step fails the page stays unmapped. */
    method RemapPage(virt: nat, newPhys: nat, flags: Flags) returns (r: Result<nat, VmmSpec.VmmError>)
      requires Valid() && Mappable(flags) && Canonical(virt)
      modifies this, pmm, pmm.bitmap
      ensures Valid() && (State(), r) == VmmSpec.RemapPage(old(State()), virt, newPhys, flags)
    {
      hide Formed, VmmSpec.MapPage, VmmSpec.UnmapPage, VmmSpec.Agree, Apart, Pages, TotalSize;
      r := UnmapPage(virt);
      if r.Err? {
        return r;
      }
      var m := MapPage(virt, newPhys, flags);
      if m.Err? {
        return Err(m.error);
      }
      stats := stats.(remapCount := stats.remapCount + 1);
    }

    /** Maps page after page and stops at the first that fails, leaving the earlier ones mapped. */
    method MapRegion(virt: nat, phys: nat, count: nat, flags: Flags) returns (r: Result<(), VmmSpec.VmmError>)
      requires Valid() && Mappable(flags) && CanonicalRange(virt, count)
      modifies this, pmm, pmm.bitmap
      ensures Valid() && (State(), r) == VmmSpec.MapRegion(old(State()), virt, phys, count, flags)
    {
      hide Formed, VmmSpec.MapPage, VmmSpec.Agree, Apart, Pages, TotalSize;
      if virt % PAGE_SIZE != 0 || phys % PAGE_SIZE != 0 {
        return Err(VmmSpec.InvalidAddress);
      }
      for i := 0 to count
        invariant Valid()
        invariant VmmSpec.MapPages(old(State()), virt, phys, count, flags)
                  == VmmSpec.MapPages(State(), virt + i * PAGE_SIZE, phys + i * PAGE_SIZE, count - i, flags)
      {
        r := MapPage(virt + i * PAGE_SIZE, phys + i * PAGE_SIZE, flags);
        if r.Err? {
          return r;
        }
      }
      r := Ok(());
    }

    method UnmapRegion(virt: nat, count: nat) returns (r: Result<(), VmmSpec.VmmError>)
      requires Valid() && CanonicalRange(virt, count)
      modifies this
      ensures Valid() && (State(), r) == VmmSpec.UnmapRegion(old(State()), virt, count)
    {
      hide Formed, VmmSpec.UnmapPage, VmmSpec.Agree, Apart, Pages, TotalSize;
      if virt % PAGE_SIZE != 0 {
        return Err(VmmSpec.InvalidAddress);
      }
      for i := 0 to count
        invariant Valid()
        invariant VmmSpec.UnmapPages(old(State()), virt, count)
                  == VmmSpec.UnmapPages(State(), virt + i * PAGE_SIZE, count - i)
      {
        var _ := UnmapPage(virt + i * PAGE_SIZE);
      }
      r := Ok(());
    }

    /** Maps every page of the range to itself, skipping what translates already. */
    method IdentityMap(phys: nat, count: nat, flags: Flags) returns (r: Result<(), VmmSpec.VmmError>)
      requires Valid() && Mappable(flags) && phys + count * PAGE_SIZE <= LOWER_HALF_END
      modifies this, pmm, pmm.bitmap
      ensures Valid() && (State(), r) == VmmSpec.IdentityMap(old(State()), phys, count, flags)
    {
      hide Formed, VmmSpec.IdentityPage, VmmSpec.Agree, Apart, Pages, TotalSize, TranslateAddr;
      if phys % PAGE_SIZE != 0 {
        return Err(VmmSpec.InvalidAddress);
      }
      for i := 0 to count
        invariant Valid()
        invariant VmmSpec.IdentityPages(old(State()), phys, count, flags)
                  == VmmSpec.IdentityPages(State(), phys + i * PAGE_SIZE, count - i, flags)
      {
        r := MapIdentityPage(phys + i * PAGE_SIZE, flags);
        if r.Err? {
          return r;
        }
      }
      r := Ok(());
    }

    /** The body of the loop of `identity_map`. */
    method MapIdentityPage(phys: nat, flags: Flags) returns (r: Result<(), VmmSpec.VmmError>)
      requires Valid() && Mappable(flags) && phys % PAGE_SIZE == 0 && phys + PAGE_SIZE <= LOWER_HALF_END
      modifies this, pmm, pmm.bitmap
      ensures Valid() && (State(), r) == VmmSpec.IdentityPage(old(State()), phys, flags)
    {
      hide Paging.MapTo, VmmSpec.Agree, Apart, Pages, TotalSize, TranslateAddr, EntryFormed;
      var t := Translate(phys);
      if t.Some? {
        return Ok(());
      }
      VmmSpec.TrackSound(State(), phys, phys, flags, "identity map");
      var m, table := MapTo(pageTable, 4, phys, phys, flags);
      pageTable := table;
      if m.Ok? {
        mappedRegions := mappedRegions + [MappedRegion(phys, phys, PAGE_SIZE, flags, "identity map")];
        stats := VmmSpec.Counted(stats);
        return Ok(());
      }
      if m.error == PageAlreadyMapped {
        return Ok(());
      }
      r := Err(VmmSpec.MapAnswer(m.error));
    }
  }
}
