// What each call of the virtual memory manager does to its state, and what every call keeps.
module VmmSpec {
  import opened Wrappers
  import opened Frames
  import Multiples
  import opened Paging
  import opened Regions

  datatype VmmError = InvalidAddress | AlreadyMapped | NotMapped | OutOfMemory | ParentHuge

  datatype VmmStatistics = VmmStatistics(totalMappedPages: nat, totalMappedBytes: nat, mapCount: nat, unmapCount: nat,
                                         remapCount: nat, tlbFlushCount: nat)

  /** The page tables under the PML4, the region index, the statistics, and the frames tables come from. */
  datatype Vmm = Vmm(root: seq<Entry>, regions: seq<MappedRegion>, stats: VmmStatistics, pool: Pool)

  // -- The calls ----------------------------------------------------------------------------------------

  function Counted(stats: VmmStatistics): VmmStatistics {
    stats.(totalMappedPages := stats.totalMappedPages + 1, totalMappedBytes := stats.totalMappedBytes + PAGE_SIZE,
           mapCount := stats.mapCount + 1, tlbFlushCount := stats.tlbFlushCount + 1)
  }

  function SaturatingSub(a: nat, b: nat): nat { if a < b then 0 else a - b }

  function Uncounted(stats: VmmStatistics): VmmStatistics {
    stats.(totalMappedPages := SaturatingSub(stats.totalMappedPages, 1),
           totalMappedBytes := SaturatingSub(stats.totalMappedBytes, PAGE_SIZE),
           unmapCount := stats.unmapCount + 1, tlbFlushCount := stats.tlbFlushCount + 1)
  }

  function MapAnswer(e: MapError): VmmError {
    match e
    case FrameAllocationFailed => OutOfMemory
    case ParentEntryHugePage => ParentHuge
    case PageAlreadyMapped => AlreadyMapped
  }

  function UnmapAnswerOf(e: UnmapError): VmmError {
    match e
    case PageNotMapped => NotMapped
    case ParentIsHugePage => ParentHuge
  }

  /** The state after `map_to` on the page at `virt`, tracked under `name` when it succeeded. */
  function Track(s: Vmm, virt: nat, phys: nat, flags: Flags, name: string): (Vmm, Result<(), MapError>)
    requires Ready(s)
  {
    var m := MapTo(s.root, 4, virt, phys, flags, s.pool);
    if m.result.Err? then (s.(root := m.table, pool := m.pool), m.result)
    else (Vmm(m.table, s.regions + [MappedRegion(virt, phys, PAGE_SIZE, flags, name)], Counted(s.stats), m.pool),
        m.result)
  }

  function MapPage(s: Vmm, virt: nat, phys: nat, flags: Flags): (Vmm, Result<(), VmmError>)
    requires Ready(s)
  {
    if virt % PAGE_SIZE != 0 || phys % PAGE_SIZE != 0 then (s, Err(InvalidAddress))
    else
      var (s', r) := Track(s, virt, phys, flags, "user mapped");
      (s', if r.Ok? then Ok(()) else Err(MapAnswer(r.error)))
  }

  function UnmapPage(s: Vmm, virt: nat): (Vmm, Result<nat, VmmError>)
    requires Ready(s)
  {
    if virt % PAGE_SIZE != 0 then (s, Err(InvalidAddress))
    else
      var (r, table) := Unmap(s.root, 4, virt);
      if r.Err? then (s.(root := table), Err(UnmapAnswerOf(r.error)))
      else (Vmm(table, Retain(s.regions, virt), Uncounted(s.stats), s.pool), Ok(r.value))
  }

  function RemapPage(s: Vmm, virt: nat, newPhys: nat, flags: Flags): (Vmm, Result<nat, VmmError>)
    requires Ready(s)
  {
    var (s1, old1) := UnmapPage(s, virt);
    if old1.Err? then (s1, old1)
    else
      UnmapReady(s, virt);
      var (s2, r) := MapPage(s1, virt, newPhys, flags);
      if r.Err? then (s2, Err(r.error))
      else (s2.(stats := s2.stats.(remapCount := s2.stats.remapCount + 1)), old1)
  }

  /** `map_region` once its addresses were found aligned: stops at the first page that fails. */
  function MapPages(s: Vmm, virt: nat, phys: nat, count: nat, flags: Flags): (Vmm, Result<(), VmmError>)
    requires Ready(s) && Mappable(flags)
    decreases count
  {
    if count == 0 then (s, Ok(()))
    else
      MapReady(s, virt, phys, flags);
      var (s', r) := MapPage(s, virt, phys, flags);
      if r.Err? then (s', r) else MapPages(s', virt + PAGE_SIZE, phys + PAGE_SIZE, count - 1, flags)
  }

  function MapRegion(s: Vmm, virt: nat, phys: nat, count: nat, flags: Flags): (Vmm, Result<(), VmmError>)
    requires Ready(s) && Mappable(flags)
  {
    if virt % PAGE_SIZE != 0 || phys % PAGE_SIZE != 0 then (s, Err(InvalidAddress))
    else MapPages(s, virt, phys, count, flags)
  }

  /** `unmap_region` ignores the answers for single pages. */
  function UnmapPages(s: Vmm, virt: nat, count: nat): Vmm
    requires Ready(s)
    decreases count
  {
    if count == 0 then s
    else
      UnmapReady(s, virt);
      UnmapPages(UnmapPage(s, virt).0, virt + PAGE_SIZE, count - 1)
  }

  function UnmapRegion(s: Vmm, virt: nat, count: nat): (Vmm, Result<(), VmmError>)
    requires Ready(s)
  {
    if virt % PAGE_SIZE != 0 then (s, Err(InvalidAddress)) else (UnmapPages(s, virt, count), Ok(()))
  }

  /** One page of `identity_map`: skipped when its address translates already. */
  function IdentityPage(s: Vmm, phys: nat, flags: Flags): (Vmm, Result<(), VmmError>)
    requires Ready(s)
  {
    if TranslateAddr(s.root, phys).Some? then (s, Ok(()))
    else
      var (s', r) := Track(s, phys, phys, flags, "identity map");
      (s', if r.Ok? || r.error == PageAlreadyMapped then Ok(()) else Err(MapAnswer(r.error)))
  }

  function IdentityPages(s: Vmm, phys: nat, count: nat, flags: Flags): (Vmm, Result<(), VmmError>)
    requires Ready(s) && Mappable(flags) && phys % PAGE_SIZE == 0
    decreases count
  {
    if count == 0 then (s, Ok(()))
    else
      IdentityReady(s, phys, flags);
      NextPage(phys);
      var step := IdentityPage(s, phys, flags);
      if step.1.Err? then step else IdentityPages(step.0, phys + PAGE_SIZE, count - 1, flags)
  }

  lemma NextPage(phys: nat)
    requires phys % PAGE_SIZE == 0
    ensures (phys + PAGE_SIZE) % PAGE_SIZE == 0
  {
  }

  function IdentityMap(s: Vmm, phys: nat, count: nat, flags: Flags): (Vmm, Result<(), VmmError>)
    requires Ready(s) && Mappable(flags)
  {
    if phys % PAGE_SIZE != 0 then (s, Err(InvalidAddress)) else IdentityPages(s, phys, count, flags)
  }

  /** `init`: the tables the boot code left, and every leaf in them as a region. */
  function Boot(root: seq<Entry>, pool: Pool): Vmm
    requires |root| == 512
  {
    var pages := Pages(root, 4, 512);
    Vmm(root, Discover(root, 4, 0, 512), VmmStatistics(pages, pages * PAGE_SIZE, 0, 0, 0, 0), pool)
  }

  // -- Tables stay well formed ----------------------------------------------------------------------------

  /** What the walks need: well-formed tables and a pool whose hint is a frame, free, or the frame count. */
  ghost predicate Ready(s: Vmm) {
    Formed(s.root, 4) && HintOk(s.pool.used, s.pool.next)
  }

  lemma TrackReady(s: Vmm, virt: nat, phys: nat, flags: Flags, name: string)
    requires Ready(s) && Mappable(flags) && phys % PAGE_SIZE == 0
    ensures Ready(Track(s, virt, phys, flags, name).0)
  {
    hide Formed, MapTo, Tables;
    MapToFormed(s.root, 4, virt, phys, flags, s.pool);
    MapToHint(s.root, 4, virt, phys, flags, s.pool);
  }

  lemma MapReady(s: Vmm, virt: nat, phys: nat, flags: Flags)
    requires Ready(s) && Mappable(flags)
    ensures Ready(MapPage(s, virt, phys, flags).0)
  {
    if phys % PAGE_SIZE == 0 {
      TrackReady(s, virt, phys, flags, "user mapped");
    }
  }

  lemma UnmapReady(s: Vmm, virt: nat)
    requires Ready(s)
    ensures Ready(UnmapPage(s, virt).0)
  {
    UnmapFormed(s.root, 4, virt);
  }

  lemma IdentityReady(s: Vmm, phys: nat, flags: Flags)
    requires Ready(s) && Mappable(flags) && phys % PAGE_SIZE == 0
    ensures Ready(IdentityPage(s, phys, flags).0)
  {
    TrackReady(s, phys, phys, flags, "identity map");
  }

  // -- The invariant ----------------------------------------------------------------------------------------

  /** The index and the tables agree on every canonical address. */
  ghost predicate Agree(root: seq<Entry>, regions: seq<MappedRegion>)
    requires Formed(root, 4)
  {
    forall v: nat :: Canonical(v) ==> Looked(regions, v) == LeafAt(root, 4, v)
  }

  ghost predicate Sound(s: Vmm) {
    && Ready(s)
    && Apart(s.regions)
    && Inside(s.regions, 0, ADDRESS_END)
    && Agree(s.root, s.regions)
    && s.stats.totalMappedPages == Pages(s.root, 4, 512)
    && s.stats.totalMappedBytes == PAGE_SIZE * s.stats.totalMappedPages
    && TotalSize(s.regions) == s.stats.totalMappedBytes
  }

  lemma BootSound(root: seq<Entry>, pool: Pool)
    requires Formed(root, 4) && LowerLeaves(root) && HintOk(pool.used, pool.next)
    ensures Sound(Boot(root, pool))
  {
    hide Discover, LeafAt, GetMapping, EntryFormed, LowerLeaves;
    DiscoverInside(root, 4, 0, 512);
    DiscoverSizes(root, 4, 0, 512);
    forall v: nat | Canonical(v)
      ensures Looked(Discover(root, 4, 0, 512), v) == LeafAt(root, 4, v)
    {
      BootAgrees(root, v);
    }
  }

  lemma BootAgrees(root: seq<Entry>, v: nat)
    requires Formed(root, 4) && LowerLeaves(root) && Canonical(v)
    ensures Looked(Discover(root, 4, 0, 512), v) == LeafAt(root, 4, v)
  {
    hide Discover, LeafAt, EntryFormed, Index, EntryPages;
    if v < LOWER_HALF_END {
      DiscoverLookup(root, 4, 0, 512, v);
    } else {
      WalkedBits(v);
      NoPagesNoLeaf(root, 4, v);
      DiscoverLower(root, 512);
      DiscoverInside(root, 4, 0, 256);
    }
  }

  /** The new page's region is disjoint from all others, since no address of it was mapped. */
  lemma NewRegionApart(s: Vmm, virt: nat, r: MappedRegion)
    requires Sound(s) && r in s.regions
    requires virt % PAGE_SIZE == 0 && Canonical(virt) && LeafAt(s.root, 4, virt) == None
    ensures r.virtualAddr + r.size <= virt || virt + PAGE_SIZE <= r.virtualAddr
  {
    hide Formed, LeafAt, Apart, Pages, TotalSize;
    var v := if r.virtualAddr < virt then virt else r.virtualAddr;
    if r.Covers(v) && v < virt + PAGE_SIZE {
      assert Looked(s.regions, v).Some?;
      assert LeafAt(s.root, 4, v).Some?;
      LeafAtPage(s.root, v, virt);
    }
  }

  /** A leaf that covers one address of a page covers all of the page. */
  lemma LeafAtPage(root: seq<Entry>, v: nat, virt: nat)
    requires Formed(root, 4) && LeafAt(root, 4, v).Some?
    requires virt % PAGE_SIZE == 0 && virt <= v < virt + PAGE_SIZE
    ensures LeafAt(root, 4, virt) == LeafAt(root, 4, v)
  {
    hide Formed, LeafAt;
    LeafCovers(root, 4, v);
    var m := LeafAt(root, 4, v).value;
    CoversPage(m, v, virt);
    LeafIsShared(root, 4, v, virt);
  }

  /** A leaf that covers an address of a page covers the page. */
  lemma CoversPage(m: Mapping, v: nat, virt: nat)
    requires m.size == PAGE_SIZE || m.size == LARGE_SIZE || m.size == HUGE_SIZE
    requires m.virt % m.size == 0 && m.Covers(v)
    requires virt % PAGE_SIZE == 0 && virt <= v < virt + PAGE_SIZE
    ensures forall w :: virt <= w < virt + PAGE_SIZE ==> m.Covers(w)
  {
    WholePages(m.virt, m.size);
    PagesNest(m.virt / PAGE_SIZE, m.size / PAGE_SIZE, virt / PAGE_SIZE, v);
  }

  lemma WholePages(start: nat, s: nat)
    requires s == PAGE_SIZE || s == LARGE_SIZE || s == HUGE_SIZE
    requires start % s == 0
    ensures start == PAGE_SIZE * (start / PAGE_SIZE) && s == PAGE_SIZE * (s / PAGE_SIZE)
  {
    var q := start / s;
    Multiples.DivBounds(start, s);
    if s == LARGE_SIZE {
      Multiples.DivUnique(start, PAGE_SIZE, 512 * q, 0);
    } else if s == HUGE_SIZE {
      Multiples.DivUnique(start, PAGE_SIZE, 512 * 512 * q, 0);
    }
  }

  lemma PagesNest(a: nat, k: nat, p: nat, v: nat)
    requires PAGE_SIZE * a <= v < PAGE_SIZE * a + PAGE_SIZE * k && PAGE_SIZE * p <= v < PAGE_SIZE * p + PAGE_SIZE
    ensures PAGE_SIZE * a <= PAGE_SIZE * p && PAGE_SIZE * p + PAGE_SIZE <= PAGE_SIZE * a + PAGE_SIZE * k
  {
  }

  lemma TrackSound(s: Vmm, virt: nat, phys: nat, flags: Flags, name: string)
    requires Sound(s) && Mappable(flags)
    requires virt % PAGE_SIZE == 0 && phys % PAGE_SIZE == 0 && Canonical(virt)
    ensures Sound(Track(s, virt, phys, flags, name).0)
  {
    hide Formed, LeafAt, GetMapping, MapTo, Pages, Tables, SamePath, Apart, TotalSize;
    TrackReady(s, virt, phys, flags, name);
    MapToAnswer(s.root, 4, virt, phys, flags, s.pool);
    MapToPages(s.root, 4, virt, phys, flags, s.pool);
    var m := MapTo(s.root, 4, virt, phys, flags, s.pool);
    var r := MappedRegion(virt, phys, PAGE_SIZE, flags, name);
    if m.result.Ok? {
      forall q | q in s.regions
        ensures Disjoint(q, r)
      {
        NewRegionApart(s, virt, q);
      }
      ApartSnoc(s.regions, r);
      TotalSizeConcat(s.regions, [r]);
      OneSize(r);
    }
    forall v: nat | Canonical(v)
      ensures Looked(if m.result.Ok? then s.regions + [r] else s.regions, v) == LeafAt(m.table, 4, v)
    {
      TrackAgrees(s, virt, phys, flags, r, v);
    }
  }

  lemma OneSize(r: MappedRegion)
    ensures TotalSize([r]) == r.size
  {
    assert [r][..0] == [];
  }

  lemma TrackAgrees(s: Vmm, virt: nat, phys: nat, flags: Flags, r: MappedRegion, v: nat)
    requires Ready(s) && Agree(s.root, s.regions) && Mappable(flags)
    requires virt % PAGE_SIZE == 0 && phys % PAGE_SIZE == 0 && Canonical(virt) && Canonical(v)
    requires r.Span() == Mapping(virt, phys, PAGE_SIZE)
    requires Formed(MapTo(s.root, 4, virt, phys, flags, s.pool).table, 4)
    ensures var m := MapTo(s.root, 4, virt, phys, flags, s.pool);
            Looked(if m.result.Ok? then s.regions + [r] else s.regions, v) == LeafAt(m.table, 4, v)
  {
    hide Formed, LeafAt, MapTo, SamePath;
    MapToLeaves(s.root, 4, virt, phys, flags, s.pool, v);
    SamePathIsSamePage(virt, v);
    LookupConcat(s.regions, [r], v);
    MapToAnswer(s.root, 4, virt, phys, flags, s.pool);
    if virt <= v < virt + PAGE_SIZE && LeafAt(s.root, 4, v).Some? {
      LeafAtPage(s.root, v, virt);
    }
  }

  lemma UnmapSound(s: Vmm, virt: nat)
    requires Sound(s) && Canonical(virt)
    ensures Sound(UnmapPage(s, virt).0)
  {
    hide Formed, LeafAt, GetMapping, Unmap, Pages, SamePath, Apart, TotalSize;
    if virt % PAGE_SIZE == 0 {
      UnmapReady(s, virt);
      UnmapAnswer(s.root, 4, virt);
      UnmapPages1(s, virt);
      var (r, table) := Unmap(s.root, 4, virt);
      forall v: nat | Canonical(v)
        ensures Looked(if r.Ok? then Retain(s.regions, virt) else s.regions, v) == LeafAt(table, 4, v)
      {
        UnmapAgrees(s, virt, v);
      }
      if r.Ok? {
        RetainLookup(s.regions, virt, virt);
        RetainSize(s.regions, virt);
        assert Looked(s.regions, virt).Some?;
      }
    }
  }

  /** The count of mapped pages never saturates. */
  lemma UnmapPages1(s: Vmm, virt: nat)
    requires Sound(s) && Canonical(virt) && virt % PAGE_SIZE == 0
    ensures var (r, table) := Unmap(s.root, 4, virt);
            && Pages(table, 4, 512) == Pages(s.root, 4, 512) - (if r.Ok? then 1 else 0)
            && (r.Ok? ==> LeafAt(s.root, 4, virt) == Some(Mapping(virt, r.value, PAGE_SIZE)))
  {
    hide Formed, Pages;
    Paging.UnmapPages(s.root, 4, virt);
    UnmapAnswer(s.root, 4, virt);
    LeafCovers(s.root, 4, virt);
  }

  /** Removing what covers `x` from disjoint regions removes the size of the one region found there. */
  lemma {:induction false} RetainSize(rs: seq<MappedRegion>, x: nat)
    requires Apart(rs)
    ensures TotalSize(Retain(rs, x))
            == TotalSize(rs) - (if GetMapping(rs, x).Some? then GetMapping(rs, x).value.size else 0)
    decreases |rs|
  {
    if rs != [] {
      RetainSize(rs[1..], x);
      assert rs == [rs[0]] + rs[1..];
      TotalSizeConcat([rs[0]], rs[1..]);
      OneSize(rs[0]);
      if rs[0].Covers(x) {
        assert [] + Retain(rs[1..], x) == Retain(rs[1..], x);
      } else {
        TotalSizeConcat([rs[0]], Retain(rs[1..], x));
      }
    }
  }

  lemma UnmapAgrees(s: Vmm, virt: nat, v: nat)
    requires Sound(s) && virt % PAGE_SIZE == 0 && Canonical(virt) && Canonical(v)
    requires Formed(Unmap(s.root, 4, virt).1, 4)
    ensures var (r, table) := Unmap(s.root, 4, virt);
            Looked(if r.Ok? then Retain(s.regions, virt) else s.regions, v) == LeafAt(table, 4, v)
  {
    hide Formed, Pages, Unmap, LeafAt, SamePath, TotalSize, Apart;
    UnmapLeaves(s.root, 4, virt, v);
    SamePathIsSamePage(virt, v);
    UnmapPages1(s, virt);
    RetainLookup(s.regions, virt, v);
    if Unmap(s.root, 4, virt).0.Ok? {
      assert LeafAt(s.root, 4, virt) == Some(Mapping(virt, Unmap(s.root, 4, virt).0.value, PAGE_SIZE));
      LeafElsewhere(s.root, virt, v);
    }
  }

  /** Under a mapped page at `virt`, another address has the same leaf exactly when it lies in that page. */
  lemma LeafElsewhere(root: seq<Entry>, virt: nat, v: nat)
    requires Formed(root, 4) && LeafAt(root, 4, virt).Some?
    requires LeafAt(root, 4, virt).value.virt == virt && LeafAt(root, 4, virt).value.size == PAGE_SIZE
    ensures virt <= v < virt + PAGE_SIZE ==> LeafAt(root, 4, v) == LeafAt(root, 4, virt)
    ensures LeafAt(root, 4, v).Some? && LeafAt(root, 4, v).value.Covers(virt) ==> virt <= v < virt + PAGE_SIZE
  {
    hide Formed, LeafAt;
    if virt <= v < virt + PAGE_SIZE {
      LeafIsShared(root, 4, virt, v);
    }
    LeafCovers(root, 4, v);
    if LeafAt(root, 4, v).Some? && LeafAt(root, 4, v).value.Covers(virt) {
      LeafIsShared(root, 4, v, virt);
    }
  }
}
