// Whole runs of the virtual memory manager from the boot tables on.
module VmmRuns {
  import opened Wrappers
  import opened Bitmap
  import opened Frames
  import opened Paging
  import opened Regions
  import opened UserPtr
  import opened VmmSpec

  datatype Call =
    | Map(virt: nat, phys: nat, flags: Flags)
    | UnmapOne(virt: nat)
    | Remap(virt: nat, phys: nat, flags: Flags)
    | MapMany(virt: nat, phys: nat, count: nat, flags: Flags)
    | UnmapMany(virt: nat, count: nat)
    | Identity(phys: nat, count: nat, flags: Flags)

  /** All pages of the call lie at canonical addresses, and its flags have PRESENT and not HUGE_PAGE. */
  predicate Allowed(c: Call) {
    match c
    case Map(virt, _, flags) => Canonical(virt) && Mappable(flags)
    case UnmapOne(virt) => Canonical(virt)
    case Remap(virt, _, flags) => Canonical(virt) && Mappable(flags)
    case MapMany(virt, _, count, flags) => CanonicalRange(virt, count) && Mappable(flags)
    case UnmapMany(virt, count) => CanonicalRange(virt, count)
    case Identity(phys, count, flags) => phys + count * PAGE_SIZE <= LOWER_HALF_END && Mappable(flags)
  }

  function Step(s: Vmm, c: Call): Vmm
    requires Ready(s) && Allowed(c)
  {
    match c
    case Map(virt, phys, flags) => MapPage(s, virt, phys, flags).0
    case UnmapOne(virt) => UnmapPage(s, virt).0
    case Remap(virt, phys, flags) => RemapPage(s, virt, phys, flags).0
    case MapMany(virt, phys, count, flags) => MapRegion(s, virt, phys, count, flags).0
    case UnmapMany(virt, count) => UnmapRegion(s, virt, count).0
    case Identity(phys, count, flags) => IdentityMap(s, phys, count, flags).0
  }

  /** Between two states: frames taken from the pool stay taken, each became exactly one table, and no
      other frame gained or lost a table. */
  ghost predicate TablesGrow(s: Vmm, s': Vmm)
    requires Ready(s) && Ready(s')
  {
    && |s'.pool.used| == |s.pool.used|
    && forall f: nat :: f < |s.pool.used| ==> TableGrows(s, s', f)
  }

  ghost predicate TableGrows(s: Vmm, s': Vmm, f: nat)
    requires Ready(s) && Ready(s') && f < |s.pool.used| && |s'.pool.used| == |s.pool.used|
  {
    && (s.pool.used[f] ==> s'.pool.used[f])
    && Tables(s'.root, 4, 512, f * PAGE_SIZE)
       == Tables(s.root, 4, 512, f * PAGE_SIZE) + One(s'.pool.used[f] && !s.pool.used[f])
  }

  /** What one call keeps. */
  ghost predicate Keeps(s: Vmm, s': Vmm) {
    Ready(s) && Ready(s') && Sound(s') && TablesGrow(s, s')
  }

  lemma KeepsTrans(a: Vmm, b: Vmm, c: Vmm)
    requires Keeps(a, b) && Keeps(b, c)
    ensures Keeps(a, c)
  {
    hide Ready, Sound, Tables;
    forall f: nat | f < |a.pool.used|
      ensures TableGrows(a, c, f)
    {
      assert TableGrows(a, b, f) && TableGrows(b, c, f);
    }
  }

  lemma KeepsSelf(s: Vmm)
    requires Sound(s)
    ensures Keeps(s, s)
  {
    hide Tables;
  }

  lemma TrackKeeps(s: Vmm, virt: nat, phys: nat, flags: Flags, name: string)
    requires Sound(s) && Mappable(flags)
    requires virt % PAGE_SIZE == 0 && phys % PAGE_SIZE == 0 && Canonical(virt)
    ensures Keeps(s, Track(s, virt, phys, flags, name).0)
  {
    hide Formed, LeafAt, GetMapping, MapTo, Pages, Tables, Apart, TotalSize, Agree;
    TrackSound(s, virt, phys, flags, name);
    var s' := Track(s, virt, phys, flags, name).0;
    MapToHint(s.root, 4, virt, phys, flags, s.pool);
    forall f: nat | f < |s.pool.used|
      ensures TableGrows(s, s', f)
    {
      MapToTables(s.root, 4, virt, phys, flags, s.pool, f);
    }
  }

  lemma MapKeeps(s: Vmm, virt: nat, phys: nat, flags: Flags)
    requires Sound(s) && Mappable(flags) && Canonical(virt)
    ensures Keeps(s, MapPage(s, virt, phys, flags).0)
  {
    hide Sound, Track, Ready, TablesGrow;
    if virt % PAGE_SIZE == 0 && phys % PAGE_SIZE == 0 {
      TrackKeeps(s, virt, phys, flags, "user mapped");
    } else {
      KeepsSelf(s);
    }
  }

  lemma UnmapKeeps(s: Vmm, virt: nat)
    requires Sound(s) && Canonical(virt)
    ensures Keeps(s, UnmapPage(s, virt).0)
  {
    hide Formed, LeafAt, GetMapping, Unmap, Pages, Tables, Apart, TotalSize, Agree;
    UnmapSound(s, virt);
    var s' := UnmapPage(s, virt).0;
    forall f: nat | f < |s.pool.used|
      ensures TableGrows(s, s', f)
    {
      UnmapTables(s.root, 4, virt, f * PAGE_SIZE);
    }
  }

  lemma RemapKeeps(s: Vmm, virt: nat, phys: nat, flags: Flags)
    requires Sound(s) && Mappable(flags) && Canonical(virt)
    ensures Keeps(s, RemapPage(s, virt, phys, flags).0)
  {
    hide Formed, LeafAt, GetMapping, UnmapPage, MapPage, Pages, Tables, Apart, TotalSize, Agree;
    UnmapKeeps(s, virt);
    var s1 := UnmapPage(s, virt).0;
    MapKeeps(s1, virt, phys, flags);
    var s2 := MapPage(s1, virt, phys, flags).0;
    KeepsTrans(s, s1, s2);
    StatsKeep(s, s2, s2.stats.remapCount + 1);
  }

  lemma StatsKeep(s: Vmm, s': Vmm, n: nat)
    requires Keeps(s, s')
    ensures Keeps(s, s'.(stats := s'.stats.(remapCount := n)))
  {
    hide Formed, Agree, Pages, Tables, Apart, TotalSize;
    var s'' := s'.(stats := s'.stats.(remapCount := n));
    forall f: nat | f < |s.pool.used|
      ensures TableGrows(s, s'', f)
    {
      assert TableGrows(s, s', f);
    }
  }

  lemma {:induction false} MapPagesKeeps(s: Vmm, virt: nat, phys: nat, count: nat, flags: Flags)
    requires Sound(s) && Mappable(flags) && CanonicalRange(virt, count)
    ensures Keeps(s, MapPages(s, virt, phys, count, flags).0)
    decreases count
  {
    hide Sound, MapPage, Ready, TablesGrow;
    if count == 0 {
      KeepsSelf(s);
    } else {
      MapKeeps(s, virt, phys, flags);
      var s' := MapPage(s, virt, phys, flags).0;
      if MapPage(s, virt, phys, flags).1.Ok? {
        MapPagesKeeps(s', virt + PAGE_SIZE, phys + PAGE_SIZE, count - 1, flags);
        KeepsTrans(s, s', MapPages(s', virt + PAGE_SIZE, phys + PAGE_SIZE, count - 1, flags).0);
      }
    }
  }

  lemma {:induction false} UnmapPagesKeeps(s: Vmm, virt: nat, count: nat)
    requires Sound(s) && CanonicalRange(virt, count)
    ensures Keeps(s, VmmSpec.UnmapPages(s, virt, count))
    decreases count
  {
    hide Sound, UnmapPage, Ready, TablesGrow;
    if count == 0 {
      KeepsSelf(s);
    } else {
      UnmapKeeps(s, virt);
      var s' := UnmapPage(s, virt).0;
      UnmapPagesKeeps(s', virt + PAGE_SIZE, count - 1);
      KeepsTrans(s, s', VmmSpec.UnmapPages(s', virt + PAGE_SIZE, count - 1));
    }
  }

  lemma IdentityPageKeeps(s: Vmm, phys: nat, flags: Flags)
    requires Sound(s) && Mappable(flags) && phys % PAGE_SIZE == 0 && phys + PAGE_SIZE <= LOWER_HALF_END
    ensures Keeps(s, IdentityPage(s, phys, flags).0)
  {
    hide Agree, Formed, Track, TablesGrow, TranslateAddr;
    if TranslateAddr(s.root, phys).Some? {
      KeepsSelf(s);
    } else {
      TrackKeeps(s, phys, phys, flags, "identity map");
    }
  }

  lemma {:induction false} IdentityPagesKeeps(s: Vmm, phys: nat, count: nat, flags: Flags)
    requires Sound(s) && Mappable(flags) && phys % PAGE_SIZE == 0 && phys + count * PAGE_SIZE <= LOWER_HALF_END
    ensures Keeps(s, IdentityPages(s, phys, count, flags).0)
    decreases count
  {
    hide Sound, IdentityPage, Ready, TablesGrow;
    if count == 0 {
      KeepsSelf(s);
    } else {
      IdentityPageKeeps(s, phys, flags);
      var s' := IdentityPage(s, phys, flags).0;
      if IdentityPage(s, phys, flags).1.Ok? {
        IdentityPagesKeeps(s', phys + PAGE_SIZE, count - 1, flags);
        KeepsTrans(s, s', IdentityPages(s', phys + PAGE_SIZE, count - 1, flags).0);
      }
    }
  }

  lemma StepKeeps(s: Vmm, c: Call)
    requires Sound(s) && Allowed(c)
    ensures Keeps(s, Step(s, c))
  {
    hide Sound, Ready, TablesGrow, MapPage, UnmapPage, RemapPage, MapPages, IdentityPages;
    match c {
      case Map(virt, phys, flags) => MapKeeps(s, virt, phys, flags);
      case UnmapOne(virt) => UnmapKeeps(s, virt);
      case Remap(virt, phys, flags) => RemapKeeps(s, virt, phys, flags);
      case MapMany(virt, phys, count, flags) =>
        KeepsSelf(s);
        MapPagesKeeps(s, virt, phys, count, flags);
      case UnmapMany(virt, count) =>
        KeepsSelf(s);
        UnmapPagesKeeps(s, virt, count);
      case Identity(phys, count, flags) =>
        KeepsSelf(s);
        if phys % PAGE_SIZE == 0 {
          IdentityPagesKeeps(s, phys, count, flags);
        }
    }
  }

  ghost function Run(s: Vmm, calls: seq<Call>): Vmm
    requires Sound(s) && forall c :: c in calls ==> Allowed(c)
    decreases |calls|
  {
    if calls == [] then s
    else
      StepKeeps(s, calls[0]);
      Run(Step(s, calls[0]), calls[1..])
  }

  lemma {:induction false} RunKeeps(s: Vmm, calls: seq<Call>)
    requires Sound(s) && forall c :: c in calls ==> Allowed(c)
    ensures Keeps(s, Run(s, calls))
    decreases |calls|
  {
    hide Sound, Ready, Step, TablesGrow;
    if calls == [] {
      KeepsSelf(s);
    } else {
      StepKeeps(s, calls[0]);
      var s' := Step(s, calls[0]);
      RunKeeps(s', calls[1..]);
      KeepsTrans(s, s', Run(s', calls[1..]));
    }
  }

  /** So two tables, the PML4 among them, never come to share a tracked frame, and no table sits in a
      frame the allocator would still hand out, once that is so at boot. */
  lemma TablesStayApart(s: Vmm, s': Vmm, pml4: nat, f: nat)
    requires Ready(s) && Ready(s') && TablesGrow(s, s') && f < |s.pool.used|
    requires Tables(s.root, 4, 512, f * PAGE_SIZE) + One(f == pml4) <= One(s.pool.used[f])
    ensures f < |s'.pool.used| && Tables(s'.root, 4, 512, f * PAGE_SIZE) + One(f == pml4) <= One(s'.pool.used[f])
  {
    hide Tables, Formed;
    assert TableGrows(s, s', f);
  }

  /** What a sound state means for its users. */
  lemma SoundMeans(s: Vmm, v: nat)
    requires Sound(s) && Canonical(v)
    ensures var r, t := GetMapping(s.regions, v), TranslateAddr(s.root, v);
            && (r.Some? <==> t.Some?)
            && (r.Some? ==> t == Some(r.value.physicalAddr + (v - r.value.virtualAddr)))
    ensures s.stats.totalMappedPages == Pages(s.root, 4, 512)
    ensures forall i: nat, j: nat :: i < j < |s.regions| ==> Disjoint(s.regions[i], s.regions[j])
  {
    hide Formed, LeafAt, Pages, TotalSize, Apart;
    assert Looked(s.regions, v) == LeafAt(s.root, 4, v);
    forall i: nat, j: nat | i < j < |s.regions|
      ensures Disjoint(s.regions[i], s.regions[j])
    {
      ApartMeansDisjoint(s.regions, i, j);
    }
  }

  /** MAIN: from any well-formed boot tables without pages in the upper half, whatever is mapped, unmapped,
      remapped or identity-mapped, the region index and the tables agree at every address, regions stay pairwise
      disjoint, the page count the manager keeps is the one a walk counts, and every frame it took from
      the allocator is exactly one table. */
  lemma BootRunsAgree(root: seq<Entry>, pool: Pool, calls: seq<Call>, v: nat)
    requires Formed(root, 4) && LowerLeaves(root) && HintOk(pool.used, pool.next) && Canonical(v)
    requires forall c :: c in calls ==> Allowed(c)
    ensures Sound(Boot(root, pool))
    ensures var s := Run(Boot(root, pool), calls);
            && Ready(s)
            && (GetMapping(s.regions, v).Some? <==> TranslateAddr(s.root, v).Some?)
            && (GetMapping(s.regions, v).Some? ==>
                  var r := GetMapping(s.regions, v).value;
                  TranslateAddr(s.root, v) == Some(r.physicalAddr + (v - r.virtualAddr)))
            && s.stats.totalMappedPages == Pages(s.root, 4, 512)
            && (forall i: nat, j: nat :: i < j < |s.regions| ==> Disjoint(s.regions[i], s.regions[j]))
            && Ready(Boot(root, pool)) && TablesGrow(Boot(root, pool), s)
  {
    hide EntryFormed, Run, TranslateAddr, GetMapping, Pages, TablesGrow, Sound, Discover;
    BootSound(root, pool);
    RunKeeps(Boot(root, pool), calls);
    SoundMeans(Run(Boot(root, pool), calls), v);
  }

  // -- What single calls achieve ----------------------------------------------------------------------------

  /** A 4 KiB page is mapped at `v`. */
  predicate PageAt(root: seq<Entry>, v: nat)
    requires Formed(root, 4)
  {
    var m := LeafAt(root, 4, v);
    m.Some? && m.value.size == PAGE_SIZE
  }

  /** A large page is mapped at `v`. */
  predicate LargeAt(root: seq<Entry>, v: nat)
    requires Formed(root, 4)
  {
    var m := LeafAt(root, 4, v);
    m.Some? && m.value.size != PAGE_SIZE
  }

  /** MAIN: `map_page` on aligned addresses succeeds exactly when nothing is mapped there and the allocator
      has a frame for every table missing on the way; then the page translates to the frame and every
      other address as before. When it fails no translation changes. */
  lemma MapPageMeans(s: Vmm, virt: nat, phys: nat, flags: Flags, v: nat)
    requires Sound(s) && Mappable(flags) && Canonical(virt) && Canonical(v)
    ensures var (s', r) := MapPage(s, virt, phys, flags);
            && Ready(s')
            && (r == Err(InvalidAddress) <==> virt % PAGE_SIZE != 0 || phys % PAGE_SIZE != 0)
            && (r.Ok? <==> virt % PAGE_SIZE == 0 && phys % PAGE_SIZE == 0 && TranslateAddr(s.root, virt).None?
                           && MissingTables(s.root, 4, virt) <= Available(s.pool))
            && (r == Err(AlreadyMapped) <==> virt % PAGE_SIZE == 0 && phys % PAGE_SIZE == 0 && PageAt(s.root, virt))
            && (r == Err(ParentHuge) <==> virt % PAGE_SIZE == 0 && phys % PAGE_SIZE == 0 && LargeAt(s.root, virt))
            && (r == Err(OutOfMemory) ==> s'.pool.next == |s'.pool.used|)
            && (r.Ok? || r == Err(InvalidAddress) || r == Err(AlreadyMapped) || r == Err(ParentHuge)
               || r == Err(OutOfMemory))
            && TranslateAddr(s'.root, v)
               == if r.Ok? && virt <= v < virt + PAGE_SIZE then Some(phys + (v - virt)) else TranslateAddr(s.root, v)
  {
    hide Formed, LeafAt, MapTo, SamePath, Pages, Apart, TotalSize, GetMapping;
    MapReady(s, virt, phys, flags);
    if virt % PAGE_SIZE == 0 && phys % PAGE_SIZE == 0 {
      MapToAnswer(s.root, 4, virt, phys, flags, s.pool);
      MapToSucceeds(s.root, 4, virt, phys, flags, s.pool);
      MapToLeaves(s.root, 4, virt, phys, flags, s.pool, v);
      SamePathIsSamePage(virt, v);
    }
  }

  /** MAIN: a page just mapped has the flags asked for, no table above it withholds them, and the user-range
      check accepts exactly the pages mapped for users. */
  lemma MappedPageIsAccessible(s: Vmm, virt: nat, phys: nat, flags: Flags, v: nat)
    requires Sound(s) && Mappable(flags) && virt + PAGE_SIZE <= LOWER_HALF_END
    requires MapPage(s, virt, phys, flags).1.Ok? && virt <= v < virt + PAGE_SIZE
    ensures var root := MapPage(s, virt, phys, flags).0.root;
            && Formed(root, 4) && PathPermits(root, 4, virt, flags)
            && Shaped(root, 4) && (Accepted(root, v) <==> flags.user)
  {
    hide Formed, Shaped, MapTo, PathPermits, Agree, Apart, Pages, TotalSize;
    MapReady(s, virt, phys, flags);
    MapToPermits(s.root, 4, virt, phys, flags, s.pool);
    var root := MapPage(s, virt, phys, flags).0.root;
    FormedIsShaped(root, 4);
    MappedStride(root, 4, virt, flags);
    PageAlike(root, virt, v);
  }

  /** `unmap_page` gives back the frame that was mapped and clears exactly that page. */
  lemma UnmapPageMeans(s: Vmm, virt: nat, v: nat)
    requires Sound(s) && Canonical(virt) && Canonical(v)
    ensures var (s', r) := UnmapPage(s, virt);
            && Ready(s')
            && (r.Ok? ==> TranslateAddr(s.root, virt) == Some(r.value))
            && (r.Ok? <==> virt % PAGE_SIZE == 0 && PageAt(s.root, virt))
            && (r == Err(InvalidAddress) <==> virt % PAGE_SIZE != 0)
            && (r == Err(NotMapped) <==> virt % PAGE_SIZE == 0 && TranslateAddr(s.root, virt).None?)
            && (r == Err(ParentHuge) <==> virt % PAGE_SIZE == 0 && LargeAt(s.root, virt))
            && (r == Err(ParentHuge) ==>
                  GetMapping(s.regions, virt).Some? && GetMapping(s.regions, virt).value.size > PAGE_SIZE)
            && (r.Ok? || r == Err(InvalidAddress) || r == Err(NotMapped) || r == Err(ParentHuge))
            && TranslateAddr(s'.root, v)
               == if r.Ok? && virt <= v < virt + PAGE_SIZE then None else TranslateAddr(s.root, v)
  {
    hide Formed, LeafAt, Unmap, SamePath, Pages, Apart, TotalSize, GetMapping;
    UnmapReady(s, virt);
    if virt % PAGE_SIZE == 0 {
      UnmapAnswer(s.root, 4, virt);
      UnmapLeaves(s.root, 4, virt, v);
      SamePathIsSamePage(virt, v);
      LeafCovers(s.root, 4, virt);
      assert Looked(s.regions, virt) == LeafAt(s.root, 4, virt);
    }
  }

  /** `remap_page` succeeds exactly when a 4 KiB page is mapped and the new frame is aligned; with an
      unaligned new frame the old mapping is lost although the call reports an error. */
  lemma RemapPageMeans(s: Vmm, virt: nat, phys: nat, flags: Flags, v: nat)
    requires Sound(s) && Mappable(flags) && Canonical(virt) && Canonical(v)
    ensures var (s', r) := RemapPage(s, virt, phys, flags);
            var was := UnmapPage(s, virt).1;
            && Ready(s')
            && (r.Ok? <==> was.Ok? && phys % PAGE_SIZE == 0)
            && (r.Ok? ==> r == was)
            && TranslateAddr(s'.root, v)
               == if was.Ok? && virt <= v < virt + PAGE_SIZE then (if r.Ok? then Some(phys + (v - virt)) else None)
                  else TranslateAddr(s.root, v)
  {
    hide Formed, TranslateAddr, UnmapPage, MapPage, Agree, Apart, Pages, TotalSize;
    UnmapPageMeans(s, virt, v);
    UnmapPageMeans(s, virt, virt);
    UnmapSound(s, virt);
    var s1 := UnmapPage(s, virt).0;
    MapPageMeans(s1, virt, phys, flags, v);
    MapPageMeans(s1, virt, phys, flags, virt);
    if UnmapPage(s, virt).1.Ok? {
      RemapNeedsNoFrame(s, virt, phys, flags);
    }
  }

  /** The tables down to an unmapped page are still there, so mapping it again takes no frame. */
  lemma RemapNeedsNoFrame(s: Vmm, virt: nat, phys: nat, flags: Flags)
    requires Sound(s) && UnmapPage(s, virt).1.Ok?
    ensures virt % PAGE_SIZE == 0
    ensures Ready(UnmapPage(s, virt).0)
    ensures var r := MapPage(UnmapPage(s, virt).0, virt, phys, flags).1; r != Err(OutOfMemory)
  {
    hide Formed, Unmap, MapTo;
    UnmapReady(s, virt);
    RefillNeedsNoFrame(s.root, 4, virt, phys, flags, s.pool);
  }

  lemma {:induction false} RefillNeedsNoFrame(es: seq<Entry>, level: nat, v: nat, phys: nat, flags: Flags, pool: Pool)
    requires 1 <= level <= 4 && Formed(es, level) && Unmap(es, level, v).0.Ok? && pool.next <= |pool.used|
    requires Formed(Unmap(es, level, v).1, level)
    ensures MapTo(Unmap(es, level, v).1, level, v, phys, flags, pool).result.Ok?
    decreases level
  {
    var i := Index(v, level);
    assert EntryFormed(es[i], level);
    assert EntryFormed(Unmap(es, level, v).1[i], level);
    if level > 1 {
      RefillNeedsNoFrame(es[i].table, level - 1, v, phys, flags, pool);
    }
  }

  /** A region mapped whole translates page by page to consecutive frames. */
  lemma {:induction false} MapPagesMeans(s: Vmm, virt: nat, phys: nat, count: nat, flags: Flags, v: nat)
    requires Sound(s) && Mappable(flags) && CanonicalRange(virt, count) && Canonical(v)
    requires MapPages(s, virt, phys, count, flags).1.Ok?
    ensures var s' := MapPages(s, virt, phys, count, flags).0;
            && Ready(s')
            && TranslateAddr(s'.root, v)
               == if virt <= v < virt + count * PAGE_SIZE then Some(phys + (v - virt)) else TranslateAddr(s.root, v)
    decreases count
  {
    hide Formed, TranslateAddr, MapPage, Agree, Apart, Pages, TotalSize;
    if count > 0 {
      MapPageMeans(s, virt, phys, flags, v);
      MapKeeps(s, virt, phys, flags);
      MapPagesMeans(MapPage(s, virt, phys, flags).0, virt + PAGE_SIZE, phys + PAGE_SIZE, count - 1, flags, v);
    }
  }

  /** When `map_region` stops, the pages before the one that failed are mapped, and the answer is that page's. */
  lemma {:induction false} MapPagesStop(s: Vmm, virt: nat, phys: nat, count: nat, flags: Flags) returns (k: nat)
    requires Sound(s) && Mappable(flags) && CanonicalRange(virt, count) && MapPages(s, virt, phys, count, flags).1.Err?
    ensures k < count && MapPages(s, virt, phys, k, flags).1.Ok?
    ensures var s1 := MapPages(s, virt, phys, k, flags).0;
            && Ready(s1)
            && MapPages(s, virt, phys, count, flags) == MapPage(s1, virt + k * PAGE_SIZE, phys + k * PAGE_SIZE, flags)
    decreases count
  {
    hide Sound, MapPage, Ready;
    MapKeeps(s, virt, phys, flags);
    if MapPage(s, virt, phys, flags).1.Err? {
      k := 0;
    } else {
      k := MapPagesStop(MapPage(s, virt, phys, flags).0, virt + PAGE_SIZE, phys + PAGE_SIZE, count - 1, flags);
      k := k + 1;
    }
  }

  /** MAIN: `unmap_region` clears every 4 KiB page of the range and nothing else: large pages in it stay. */
  lemma {:induction false} UnmapPagesMeans(s: Vmm, virt: nat, count: nat, v: nat)
    requires Sound(s) && virt % PAGE_SIZE == 0 && CanonicalRange(virt, count) && Canonical(v)
    ensures var s' := VmmSpec.UnmapPages(s, virt, count);
            && Ready(s')
            && LeafAt(s'.root, 4, v)
               == if virt <= v < virt + count * PAGE_SIZE && PageAt(s.root, v) then None else LeafAt(s.root, 4, v)
    decreases count
  {
    hide Formed, LeafAt, UnmapPage, Agree, Apart, Pages, TotalSize;
    if count > 0 {
      UnmapLeaf(s, virt, v);
      UnmapKeeps(s, virt);
      NextPage(virt);
      UnmapPagesMeans(UnmapPage(s, virt).0, virt + PAGE_SIZE, count - 1, v);
    }
  }

  lemma UnmapLeaf(s: Vmm, virt: nat, v: nat)
    requires Sound(s) && virt % PAGE_SIZE == 0 && Canonical(virt) && Canonical(v)
    ensures var s' := UnmapPage(s, virt).0;
            && Ready(s')
            && LeafAt(s'.root, 4, v)
               == if virt <= v < virt + PAGE_SIZE && PageAt(s.root, v) then None else LeafAt(s.root, 4, v)
  {
    hide Formed, LeafAt, Unmap, SamePath, Pages, Apart, TotalSize, GetMapping, Agree;
    UnmapReady(s, virt);
    UnmapAnswer(s.root, 4, virt);
    UnmapLeaves(s.root, 4, virt, v);
    SamePathIsSamePage(virt, v);
    if virt <= v < virt + PAGE_SIZE {
      PageMappedAlike(s.root, virt, v);
      if LeafAt(s.root, 4, v).Some? {
        LeafAtPage(s.root, v, virt);
      }
    }
  }

  /** After `identity_map` reports success, every address of the range translates: to itself where nothing
      was mapped before, and as before elsewhere. */
  lemma {:induction false} IdentityPagesMeans(s: Vmm, phys: nat, count: nat, flags: Flags, v: nat)
    requires Sound(s) && Mappable(flags) && phys % PAGE_SIZE == 0
    requires phys + count * PAGE_SIZE <= LOWER_HALF_END && Canonical(v)
    requires IdentityPages(s, phys, count, flags).1.Ok?
    ensures var s' := IdentityPages(s, phys, count, flags).0;
            && Ready(s')
            && TranslateAddr(s'.root, v)
               == if phys <= v < phys + count * PAGE_SIZE && TranslateAddr(s.root, v).None? then Some(v)
                  else TranslateAddr(s.root, v)
    decreases count
  {
    hide Formed, TranslateAddr, IdentityPage, Agree, Apart, Pages, TotalSize;
    if count > 0 {
      IdentityPageMeans(s, phys, flags, v);
      IdentityPageKeeps(s, phys, flags);
      IdentityPagesMeans(IdentityPage(s, phys, flags).0, phys + PAGE_SIZE, count - 1, flags, v);
    }
  }

  /** When `identity_map` stops, it has run out of frames, and the pages before are done. */
  lemma {:induction false} IdentityPagesStop(s: Vmm, phys: nat, count: nat, flags: Flags) returns (k: nat)
    requires Sound(s) && Mappable(flags) && phys % PAGE_SIZE == 0 && phys + count * PAGE_SIZE <= LOWER_HALF_END
    requires IdentityPages(s, phys, count, flags).1.Err?
    ensures k < count && IdentityPages(s, phys, k, flags).1.Ok?
    ensures IdentityPages(s, phys, count, flags).1 == Err(OutOfMemory)
    decreases count
  {
    hide Agree, Apart, TotalSize, Pages, IdentityPage, Formed, TranslateAddr;
    IdentityPageMeans(s, phys, flags, phys);
    if IdentityPage(s, phys, flags).1.Err? {
      k := 0;
    } else {
      IdentityPageKeeps(s, phys, flags);
      NextPage(phys);
      k := IdentityPagesStop(IdentityPage(s, phys, flags).0, phys + PAGE_SIZE, count - 1, flags);
      k := k + 1;
    }
  }

  lemma IdentityPageMeans(s: Vmm, phys: nat, flags: Flags, v: nat)
    requires Sound(s) && Mappable(flags) && phys % PAGE_SIZE == 0
    requires phys + PAGE_SIZE <= LOWER_HALF_END && Canonical(v)
    ensures var (s', r) := IdentityPage(s, phys, flags);
            && Ready(s')
            && (r.Ok? ==> TranslateAddr(s'.root, v)
                          == if phys <= v < phys + PAGE_SIZE && TranslateAddr(s.root, v).None? then Some(v)
                             else TranslateAddr(s.root, v))
            && (r.Err? ==> r == Err(OutOfMemory) && TranslateAddr(s.root, phys).None?
                           && TranslateAddr(s'.root, v) == TranslateAddr(s.root, v))
  {
    hide Formed, LeafAt, MapTo, SamePath, Pages, Apart, TotalSize, GetMapping, Agree;
    IdentityReady(s, phys, flags);
    MapToAnswer(s.root, 4, phys, phys, flags, s.pool);
    MapToFormed(s.root, 4, phys, phys, flags, s.pool);
    MapToLeaves(s.root, 4, phys, phys, flags, s.pool, v);
    SamePathIsSamePage(phys, v);
    if phys <= v < phys + PAGE_SIZE {
      PageMappedAlike(s.root, phys, v);
    }
  }

  /** Either all of a page is mapped or none of it. */
  lemma PageMappedAlike(root: seq<Entry>, virt: nat, v: nat)
    requires Formed(root, 4) && virt % PAGE_SIZE == 0 && virt <= v < virt + PAGE_SIZE
    ensures LeafAt(root, 4, virt).Some? <==> LeafAt(root, 4, v).Some?
  {
    hide Formed, LeafAt;
    if LeafAt(root, 4, v).Some? {
      LeafAtPage(root, v, virt);
    }
    if LeafAt(root, 4, virt).Some? {
      LeafCovers(root, 4, virt);
      CoversPage(LeafAt(root, 4, virt).value, virt, virt);
      LeafIsShared(root, 4, virt, v);
    }
  }

  // -- Counters -------------------------------------------------------------------------------------------

  /** Between two states pages mapped and unmapped are counted one by one, each with one flush of its page's
      TLB entry. */
  ghost predicate Balanced(s: Vmm, s': Vmm) {
    && s'.stats.totalMappedPages + s'.stats.unmapCount + s.stats.mapCount
       == s.stats.totalMappedPages + s.stats.unmapCount + s'.stats.mapCount
    && s'.stats.tlbFlushCount + s.stats.mapCount + s.stats.unmapCount
       == s.stats.tlbFlushCount + s'.stats.mapCount + s'.stats.unmapCount
    && s'.stats.mapCount >= s.stats.mapCount && s'.stats.unmapCount >= s.stats.unmapCount
  }

  /** One page mapped or unmapped is one more of its kind. */
  lemma CountsOne(s: Vmm, virt: nat, phys: nat, flags: Flags, name: string)
    requires Sound(s) && Mappable(flags) && Canonical(virt)
    ensures var (s', r) := Track(s, virt, phys, flags, name);
            && Balanced(s, s') && s'.stats.remapCount == s.stats.remapCount
            && s'.stats.mapCount == s.stats.mapCount + One(r.Ok?) && s'.stats.unmapCount == s.stats.unmapCount
    ensures var (s', r) := UnmapPage(s, virt);
            && Balanced(s, s') && s'.stats.remapCount == s.stats.remapCount
            && s'.stats.unmapCount == s.stats.unmapCount + One(r.Ok?) && s'.stats.mapCount == s.stats.mapCount
  {
    hide Formed, MapTo, Unmap, Pages, Apart, TotalSize, Agree;
    if virt % PAGE_SIZE == 0 {
      UnmapPages1(s, virt);
    }
  }

  /** `remap_page` counts as an unmapping and a mapping, and once more when it succeeds. */
  lemma RemapCounts(s: Vmm, virt: nat, phys: nat, flags: Flags)
    requires Sound(s) && Mappable(flags) && Canonical(virt)
    ensures var (s', r) := RemapPage(s, virt, phys, flags);
            && Balanced(s, s') && s'.stats.remapCount == s.stats.remapCount + One(r.Ok?)
            && s'.stats.mapCount == s.stats.mapCount + One(r.Ok?)
            && s'.stats.unmapCount == s.stats.unmapCount + One(UnmapPage(s, virt).1.Ok?)
  {
    hide Sound, Track, UnmapPage, Ready;
    CountsOne(s, virt, phys, flags, "user mapped");
    UnmapKeeps(s, virt);
    CountsOne(UnmapPage(s, virt).0, virt, phys, flags, "user mapped");
  }

  lemma {:induction false} MapPagesCount(s: Vmm, virt: nat, phys: nat, count: nat, flags: Flags)
    requires Sound(s) && Mappable(flags) && CanonicalRange(virt, count)
    ensures var (s', r) := MapPages(s, virt, phys, count, flags);
            && Balanced(s, s') && (r.Ok? ==> s'.stats.mapCount == s.stats.mapCount + count)
    decreases count
  {
    hide Sound, Track, Ready;
    if count > 0 {
      CountsOne(s, virt, phys, flags, "user mapped");
      MapKeeps(s, virt, phys, flags);
      if MapPage(s, virt, phys, flags).1.Ok? {
        MapPagesCount(MapPage(s, virt, phys, flags).0, virt + PAGE_SIZE, phys + PAGE_SIZE, count - 1, flags);
      }
    }
  }

  lemma {:induction false} UnmapPagesCount(s: Vmm, virt: nat, count: nat)
    requires Sound(s) && CanonicalRange(virt, count)
    ensures Balanced(s, VmmSpec.UnmapPages(s, virt, count))
    decreases count
  {
    hide Sound, UnmapPage, Ready;
    if count > 0 {
      CountsOne(s, virt, 0, Flags(true, false, false, false, 0), "");
      UnmapKeeps(s, virt);
      UnmapPagesCount(UnmapPage(s, virt).0, virt + PAGE_SIZE, count - 1);
    }
  }

  lemma {:induction false} IdentityPagesCount(s: Vmm, phys: nat, count: nat, flags: Flags)
    requires Sound(s) && Mappable(flags) && phys % PAGE_SIZE == 0 && phys + count * PAGE_SIZE <= LOWER_HALF_END
    ensures Balanced(s, IdentityPages(s, phys, count, flags).0)
    decreases count
  {
    hide Sound, Track, Ready, TranslateAddr;
    if count > 0 {
      CountsOne(s, phys, phys, flags, "identity map");
      IdentityPageKeeps(s, phys, flags);
      if IdentityPage(s, phys, flags).1.Ok? {
        IdentityPagesCount(IdentityPage(s, phys, flags).0, phys + PAGE_SIZE, count - 1, flags);
      }
    }
  }

  lemma StepCounts(s: Vmm, c: Call)
    requires Sound(s) && Allowed(c)
    ensures Balanced(s, Step(s, c))
  {
    hide Sound, Ready, Track, UnmapPage, RemapPage, MapPages, IdentityPages;
    match c {
      case Map(virt, phys, flags) => CountsOne(s, virt, phys, flags, "user mapped");
      case UnmapOne(virt) => CountsOne(s, virt, 0, Flags(true, false, false, false, 0), "");
      case Remap(virt, phys, flags) => RemapCounts(s, virt, phys, flags);
      case MapMany(virt, phys, count, flags) => MapPagesCount(s, virt, phys, count, flags);
      case UnmapMany(virt, count) => UnmapPagesCount(s, virt, count);
      case Identity(phys, count, flags) =>
        if phys % PAGE_SIZE == 0 {
          IdentityPagesCount(s, phys, count, flags);
        }
    }
  }

  /** MAIN: over every run the pages mapped at the end are those at the start and the mappings counted, less
      the unmappings counted, and the TLB was flushed once for each of these. */
  lemma {:induction false} RunCounts(s: Vmm, calls: seq<Call>)
    requires Sound(s) && forall c :: c in calls ==> Allowed(c)
    ensures Balanced(s, Run(s, calls))
    decreases |calls|
  {
    hide Sound, Step;
    if calls != [] {
      StepKeeps(s, calls[0]);
      StepCounts(s, calls[0]);
      RunCounts(Step(s, calls[0]), calls[1..]);
    }
  }

  /** MAIN: from boot on, the pages mapped and those ever unmapped are the pages mapped at boot and those ever
      mapped since; the manager keeps all three numbers right. */
  lemma BootRunsCount(root: seq<Entry>, pool: Pool, calls: seq<Call>)
    requires Formed(root, 4) && LowerLeaves(root) && HintOk(pool.used, pool.next)
    requires forall c :: c in calls ==> Allowed(c)
    ensures Sound(Boot(root, pool))
    ensures var s := Run(Boot(root, pool), calls);
            && Ready(s)
            && Pages(s.root, 4, 512) + s.stats.unmapCount == Pages(root, 4, 512) + s.stats.mapCount
            && s.stats.tlbFlushCount == s.stats.mapCount + s.stats.unmapCount
            && s.stats.totalMappedBytes == PAGE_SIZE * Pages(s.root, 4, 512)
  {
    hide Formed, Run, Pages, Discover, Agree, Apart, TotalSize;
    TableSize(root);
    BootSound(root, pool);
    RunCounts(Boot(root, pool), calls);
    RunKeeps(Boot(root, pool), calls);
  }

  lemma TableSize(root: seq<Entry>)
    requires Formed(root, 4)
    ensures |root| == 512
  {
  }

  /** An unaligned region is refused before anything is done, however short it is. */
  lemma UnalignedRegions(s: Vmm, virt: nat, phys: nat, count: nat, flags: Flags)
    requires Ready(s) && Mappable(flags)
    ensures virt % PAGE_SIZE != 0 || phys % PAGE_SIZE != 0 ==>
              MapRegion(s, virt, phys, count, flags) == (s, Err(InvalidAddress))
    ensures virt % PAGE_SIZE != 0 ==> UnmapRegion(s, virt, count) == (s, Err(InvalidAddress))
    ensures phys % PAGE_SIZE != 0 ==> IdentityMap(s, phys, count, flags) == (s, Err(InvalidAddress))
    ensures virt % PAGE_SIZE == 0 ==> UnmapRegion(s, virt, count).1.Ok?
    ensures virt % PAGE_SIZE == 0 && phys % PAGE_SIZE == 0 ==> MapRegion(s, virt, phys, 0, flags).1.Ok?
  {
    hide Formed;
  }
}
