// The flags of mapped pages: what a page grants after the call that mapped it, that no other call takes it
// away, and how far the region index agrees with the tables over whole runs.
module VmmFlags {
  import opened Wrappers
  import opened Frames
  import opened Paging
  import opened Regions
  import opened UserPtr
  import opened VmmSpec
  import opened VmmRuns

  // -- Walks ------------------------------------------------------------------------------------------

  lemma FormedSize(es: seq<Entry>, level: nat)
    requires 1 <= level <= 4 && Formed(es, level)
    ensures |es| == 512
  {
  }

  /** A page just mapped grants its flags on every address whose walk is the same. */
  lemma {:induction false} MapToPermitsAt(es: seq<Entry>, level: nat, v: nat, phys: nat, flags: Flags, pool: Pool,
                                          w: nat)
    requires 1 <= level <= 4 && Formed(es, level) && pool.next <= |pool.used| && Mappable(flags)
    requires Formed(MapTo(es, level, v, phys, flags, pool).table, level) && SamePath(v, w, level)
    requires MapTo(es, level, v, phys, flags, pool).result.Ok?
    ensures PathPermits(MapTo(es, level, v, phys, flags, pool).table, level, w, flags)
    decreases level
  {
    hide Index, NextFree, TakeOne;
    var i := Index(v, level);
    var e := es[i];
    assert EntryFormed(e, level);
    assert EntryFormed(MapTo(es, level, v, phys, flags, pool).table[i], level);
    if level > 1 {
      if e == UNUSED {
        EmptyFormed(level - 1);
        TakeOneBounds(pool);
        MapToPermitsAt(EmptyTable(), level - 1, v, phys, flags, TakeOne(pool), w);
      } else {
        MapToPermitsAt(e.table, level - 1, v, phys, flags, pool, w);
      }
    }
  }

  /** A page that is mapped keeps what it grants through every mapping attempt. */
  lemma {:induction false} MapToKeepsPermits(es: seq<Entry>, level: nat, v: nat, phys: nat, flags: Flags, pool: Pool,
                                             w: nat, granted: Flags)
    requires 1 <= level <= 4 && Formed(es, level) && pool.next <= |pool.used| && granted.present
    requires Formed(MapTo(es, level, v, phys, flags, pool).table, level)
    requires PathPermits(es, level, w, granted)
    ensures PathPermits(MapTo(es, level, v, phys, flags, pool).table, level, w, granted)
    decreases level
  {
    hide Index, NextFree, TakeOne, Formed;
    FormedSize(es, level);
    var i, j := Index(v, level), Index(w, level);
    var e := es[i];
    FormedAt(es, level, j);
    FormedAt(MapTo(es, level, v, phys, flags, pool).table, level, j);
    if level > 1 && i == j {
      MapToKeepsPermits(e.table, level - 1, v, phys, flags, pool, w, granted);
    }
  }

  lemma {:induction false} UnmapKeepsPermits(es: seq<Entry>, level: nat, v: nat, w: nat, granted: Flags)
    requires 1 <= level <= 4 && Formed(es, level) && Formed(Unmap(es, level, v).1, level)
    requires PathPermits(es, level, w, granted) && granted.present && !SamePath(v, w, level)
    ensures PathPermits(Unmap(es, level, v).1, level, w, granted)
    decreases level
  {
    hide Index;
    var i := Index(v, level);
    var e := es[i];
    assert EntryFormed(e, level);
    assert EntryFormed(Unmap(es, level, v).1[i], level);
    if level > 1 && i == Index(w, level) {
      UnmapKeepsPermits(e.table, level - 1, v, w, granted);
    }
  }

  /** A page that grants something is mapped, as a 4 KiB page with those flags. */
  lemma {:induction false} PermitsLeaf(es: seq<Entry>, level: nat, w: nat, granted: Flags)
    requires 1 <= level <= 4 && Formed(es, level) && PathPermits(es, level, w, granted) && granted.present
    ensures LeafAt(es, level, w).Some? && LeafAt(es, level, w).value.size == PAGE_SIZE
    ensures LeafFlags(es, level, w) == Some(granted)
    decreases level
  {
    var e := es[Index(w, level)];
    assert EntryFormed(e, level);
    if level > 1 {
      PermitsLeaf(e.table, level - 1, w, granted);
    }
  }

  /** On the way to `v` every table grants write and user access if it did before or `flags` ask for it, and
      nothing else changed in it. */
  ghost predicate TablesGrant(es: seq<Entry>, es': seq<Entry>, level: nat, v: nat, flags: Flags)
    requires 1 <= level <= 4 && Formed(es, level) && Formed(es', level)
    decreases level
  {
    var i := Index(v, level);
    assert EntryFormed(es[i], level) && EntryFormed(es'[i], level);
    level == 1
    || (var was, now := es[i].flags, es'[i].flags;
        && now.present && now.writable == (was.writable || flags.writable) && now.user == (was.user || flags.user)
        && now.huge == was.huge && now.rest == was.rest && !now.huge
        && if IsTable(es[i], level) then TablesGrant(es[i].table, es'[i].table, level - 1, v, flags)
           else
             EmptyFormed(level - 1);
             TablesGrant(EmptyTable(), es'[i].table, level - 1, v, flags))
  }

  /** A successful mapping gives the tables on its way exactly the access asked for on top of what they had; a
      table made for it starts from none. */
  lemma {:induction false} MapToTablesGrant(es: seq<Entry>, level: nat, v: nat, phys: nat, flags: Flags, pool: Pool)
    requires 1 <= level <= 4 && Formed(es, level) && pool.next <= |pool.used| && Mappable(flags)
    requires Formed(MapTo(es, level, v, phys, flags, pool).table, level)
    requires MapTo(es, level, v, phys, flags, pool).result.Ok?
    ensures TablesGrant(es, MapTo(es, level, v, phys, flags, pool).table, level, v, flags)
    decreases level
  {
    hide Index, NextFree, TakeOne, Formed;
    FormedSize(es, level);
    var i := Index(v, level);
    var e := es[i];
    FormedAt(es, level, i);
    FormedAt(MapTo(es, level, v, phys, flags, pool).table, level, i);
    if level > 1 {
      if e == UNUSED {
        EmptyFormed(level - 1);
        TakeOneBounds(pool);
        MapToTablesGrant(EmptyTable(), level - 1, v, phys, flags, TakeOne(pool));
      } else {
        MapToTablesGrant(e.table, level - 1, v, phys, flags, pool);
      }
    }
  }

  // -- What a page grants -----------------------------------------------------------------------------

  /** At `v` a 4 KiB page is mapped with these flags, no table above it withholds them, and the region
      recorded there has them too, under this name. */
  ghost predicate Grants(s: Vmm, v: nat, flags: Flags, name: string) {
    && Ready(s) && PathPermits(s.root, 4, v, flags)
    && var r := GetMapping(s.regions, v);
       r.Some? && r.value.flags == flags && r.value.description == name && r.value.size == PAGE_SIZE
  }

  /** The user-range check then accepts the page exactly when it is a user's. */
  lemma GrantsAccepted(s: Vmm, v: nat, flags: Flags, name: string)
    requires Grants(s, v, flags, name) && flags.present
    ensures Shaped(s.root, 4) && (Accepted(s.root, v) <==> flags.user)
  {
    hide Formed, Shaped, PathPermits, GetMapping;
    FormedIsShaped(s.root, 4);
    MappedStride(s.root, 4, v, flags);
  }

  lemma TrackGrants(s: Vmm, virt: nat, phys: nat, flags: Flags, name: string, v: nat)
    requires Sound(s) && Mappable(flags) && virt % PAGE_SIZE == 0 && phys % PAGE_SIZE == 0 && Canonical(virt)
    requires Track(s, virt, phys, flags, name).1.Ok? && Canonical(v) && virt <= v < virt + PAGE_SIZE
    ensures Grants(Track(s, virt, phys, flags, name).0, v, flags, name)
  {
    hide Formed, LeafAt, MapTo, SamePath, Pages, Apart, TotalSize, PathPermits;
    TrackReady(s, virt, phys, flags, name);
    SamePathIsSamePage(virt, v);
    MapToPermitsAt(s.root, 4, virt, phys, flags, s.pool, v);
    MapToAnswer(s.root, 4, virt, phys, flags, s.pool);
    if LeafAt(s.root, 4, v).Some? {
      LeafAtPage(s.root, v, virt);
    }
    assert Looked(s.regions, v) == LeafAt(s.root, 4, v);
    LookupConcat(s.regions, [MappedRegion(virt, phys, PAGE_SIZE, flags, name)], v);
  }

  lemma TrackKeepsGrants(s: Vmm, virt: nat, phys: nat, flags: Flags, name: string, v: nat, f: Flags, n: string)
    requires Sound(s) && Mappable(flags) && phys % PAGE_SIZE == 0 && Grants(s, v, f, n) && f.present
    ensures Grants(Track(s, virt, phys, flags, name).0, v, f, n)
  {
    hide Formed, LeafAt, MapTo, Pages, Apart, TotalSize, PathPermits, Agree;
    TrackReady(s, virt, phys, flags, name);
    MapToKeepsPermits(s.root, 4, virt, phys, flags, s.pool, v, f);
    LookupConcat(s.regions, [MappedRegion(virt, phys, PAGE_SIZE, flags, name)], v);
  }

  lemma MapPageKeepsGrants(s: Vmm, virt: nat, phys: nat, flags: Flags, v: nat, f: Flags, n: string)
    requires Sound(s) && Mappable(flags) && Grants(s, v, f, n) && f.present
    ensures Grants(MapPage(s, virt, phys, flags).0, v, f, n)
  {
    hide Sound, Grants, Track;
    if virt % PAGE_SIZE == 0 && phys % PAGE_SIZE == 0 {
      TrackKeepsGrants(s, virt, phys, flags, "user mapped", v, f, n);
    }
  }

  lemma UnmapKeepsGrants(s: Vmm, virt: nat, v: nat, f: Flags, n: string)
    requires Sound(s) && Canonical(virt) && Canonical(v) && Grants(s, v, f, n) && f.present
    requires v < virt || virt + PAGE_SIZE <= v
    ensures Grants(UnmapPage(s, virt).0, v, f, n)
  {
    hide Formed, LeafAt, Unmap, SamePath, Pages, TotalSize, PathPermits, Apart;
    UnmapReady(s, virt);
    if virt % PAGE_SIZE == 0 {
      SamePathIsSamePage(virt, v);
      UnmapKeepsPermits(s.root, 4, virt, v, f);
      RetainLookup(s.regions, virt, v);
      RegionElsewhere(s, virt, v, f, n);
    }
  }

  /** The region of a page does not cover another page. */
  lemma RegionElsewhere(s: Vmm, virt: nat, v: nat, f: Flags, n: string)
    requires Sound(s) && Canonical(v) && Grants(s, v, f, n) && f.present && virt % PAGE_SIZE == 0
    requires v < virt || virt + PAGE_SIZE <= v
    ensures !GetMapping(s.regions, v).value.Covers(virt)
  {
    hide Formed, LeafAt, Pages, TotalSize, Apart, PathPermits;
    assert Looked(s.regions, v) == LeafAt(s.root, 4, v);
    LeafCovers(s.root, 4, v);
  }

  // -- Single calls -------------------------------------------------------------------------------------

  /** A page mapped by `map_page` has the flags asked for, in the tables and in the index. */
  lemma MapPageGrants(s: Vmm, virt: nat, phys: nat, flags: Flags, v: nat)
    requires Sound(s) && Mappable(flags) && Canonical(virt) && Canonical(v)
    requires MapPage(s, virt, phys, flags).1.Ok? && virt <= v < virt + PAGE_SIZE
    ensures Grants(MapPage(s, virt, phys, flags).0, v, flags, "user mapped")
  {
    hide Sound, Track, Grants;
    TrackGrants(s, virt, phys, flags, "user mapped", v);
  }

  /** MAIN: after an Ok `remap_page` the page has the flags asked for, in the tables and in the index, and
      the user-range check accepts it exactly when it was remapped for users. */
  lemma RemapPageGrants(s: Vmm, virt: nat, phys: nat, flags: Flags, v: nat)
    requires Sound(s) && Mappable(flags) && Canonical(virt) && Canonical(v)
    requires RemapPage(s, virt, phys, flags).1.Ok? && virt <= v < virt + PAGE_SIZE
    ensures var s' := RemapPage(s, virt, phys, flags).0;
            && Grants(s', v, flags, "user mapped")
            && Shaped(s'.root, 4) && (Accepted(s'.root, v) <==> flags.user)
  {
    hide Agree, Apart, TotalSize, Pages, MapPage, UnmapPage, Formed, PathPermits, GetMapping, Shaped;
    UnmapSound(s, virt);
    MapPageGrants(UnmapPage(s, virt).0, virt, phys, flags, v);
    GrantsAccepted(RemapPage(s, virt, phys, flags).0, v, flags, "user mapped");
  }

  /** Remapping leaves every other page what it grants. */
  lemma RemapKeepsGrants(s: Vmm, virt: nat, phys: nat, flags: Flags, v: nat, f: Flags, n: string)
    requires Sound(s) && Mappable(flags) && Canonical(virt) && Canonical(v) && Grants(s, v, f, n) && f.present
    requires v < virt || virt + PAGE_SIZE <= v
    ensures Grants(RemapPage(s, virt, phys, flags).0, v, f, n)
  {
    hide Agree, Apart, TotalSize, Pages, MapPage, UnmapPage, Formed, PathPermits, GetMapping;
    UnmapSound(s, virt);
    UnmapKeepsGrants(s, virt, v, f, n);
    MapPageKeepsGrants(UnmapPage(s, virt).0, virt, phys, flags, v, f, n);
  }

  lemma {:induction false} MapPagesKeepGrants(s: Vmm, virt: nat, phys: nat, count: nat, flags: Flags, v: nat, f: Flags,
                                              n: string)
    requires Sound(s) && Mappable(flags) && CanonicalRange(virt, count) && Grants(s, v, f, n) && f.present
    ensures Grants(MapPages(s, virt, phys, count, flags).0, v, f, n)
    decreases count
  {
    hide Sound, Grants, MapPage;
    if count > 0 {
      MapPageKeepsGrants(s, virt, phys, flags, v, f, n);
      MapKeeps(s, virt, phys, flags);
      if MapPage(s, virt, phys, flags).1.Ok? {
        MapPagesKeepGrants(MapPage(s, virt, phys, flags).0, virt + PAGE_SIZE, phys + PAGE_SIZE, count - 1, flags, v, f,
                           n);
      }
    }
  }

  /** MAIN: a region mapped whole has the flags asked for on every page. */
  lemma {:induction false} MapPagesGrant(s: Vmm, virt: nat, phys: nat, count: nat, flags: Flags, v: nat)
    requires Sound(s) && Mappable(flags) && CanonicalRange(virt, count) && Canonical(v)
    requires MapPages(s, virt, phys, count, flags).1.Ok? && virt <= v < virt + count * PAGE_SIZE
    ensures Grants(MapPages(s, virt, phys, count, flags).0, v, flags, "user mapped")
    decreases count
  {
    hide Sound, Grants, MapPage;
    MapKeeps(s, virt, phys, flags);
    var s' := MapPage(s, virt, phys, flags).0;
    if v < virt + PAGE_SIZE {
      MapPageGrants(s, virt, phys, flags, v);
      MapPagesKeepGrants(s', virt + PAGE_SIZE, phys + PAGE_SIZE, count - 1, flags, v, flags, "user mapped");
    } else {
      MapPagesGrant(s', virt + PAGE_SIZE, phys + PAGE_SIZE, count - 1, flags, v);
    }
  }

  lemma IdentityKeepsGrants(s: Vmm, phys: nat, flags: Flags, v: nat, f: Flags, n: string)
    requires Sound(s) && Mappable(flags) && phys % PAGE_SIZE == 0 && Grants(s, v, f, n) && f.present
    ensures Grants(IdentityPage(s, phys, flags).0, v, f, n)
  {
    hide Agree, Apart, TotalSize, Pages, Track, Formed, Grants, TranslateAddr;
    if TranslateAddr(s.root, phys).None? {
      TrackKeepsGrants(s, phys, phys, flags, "identity map", v, f, n);
    }
  }

  lemma {:induction false} IdentityPagesKeepGrants(s: Vmm, phys: nat, count: nat, flags: Flags, v: nat, f: Flags,
                                                   n: string)
    requires Sound(s) && Mappable(flags) && phys % PAGE_SIZE == 0 && phys + count * PAGE_SIZE <= LOWER_HALF_END
    requires Grants(s, v, f, n) && f.present
    ensures Grants(IdentityPages(s, phys, count, flags).0, v, f, n)
    decreases count
  {
    hide Sound, Grants, IdentityPage;
    if count > 0 {
      IdentityKeepsGrants(s, phys, flags, v, f, n);
      IdentityPageKeeps(s, phys, flags);
      if IdentityPage(s, phys, flags).1.Ok? {
        IdentityPagesKeepGrants(IdentityPage(s, phys, flags).0, phys + PAGE_SIZE, count - 1, flags, v, f, n);
      }
    }
  }

  /** MAIN: after an Ok `identity_map`, every page of the range that was not mapped before has the flags asked
      for; what was mapped before grants what it did. */
  lemma {:induction false} IdentityPagesGrant(s: Vmm, phys: nat, count: nat, flags: Flags, v: nat)
    requires Sound(s) && Mappable(flags) && phys % PAGE_SIZE == 0 && phys + count * PAGE_SIZE <= LOWER_HALF_END
    requires IdentityPages(s, phys, count, flags).1.Ok? && phys <= v < phys + count * PAGE_SIZE
    requires TranslateAddr(s.root, v).None?
    ensures Grants(IdentityPages(s, phys, count, flags).0, v, flags, "identity map")
    decreases count
  {
    hide Sound, Grants, IdentityPage, TranslateAddr;
    IdentityPageKeeps(s, phys, flags);
    var s' := IdentityPage(s, phys, flags).0;
    if v < phys + PAGE_SIZE {
      IdentityPageGrants(s, phys, flags, v);
      IdentityPagesKeepGrants(s', phys + PAGE_SIZE, count - 1, flags, v, flags, "identity map");
    } else {
      IdentityPageMeans(s, phys, flags, v);
      IdentityPagesGrant(s', phys + PAGE_SIZE, count - 1, flags, v);
    }
  }

  lemma IdentityPageGrants(s: Vmm, phys: nat, flags: Flags, v: nat)
    requires Sound(s) && Mappable(flags) && phys % PAGE_SIZE == 0 && phys + PAGE_SIZE <= LOWER_HALF_END
    requires IdentityPage(s, phys, flags).1.Ok? && phys <= v < phys + PAGE_SIZE && TranslateAddr(s.root, v).None?
    ensures Grants(IdentityPage(s, phys, flags).0, v, flags, "identity map")
  {
    hide Formed, LeafAt, MapTo, Agree, Apart, TotalSize, Pages, Grants;
    PageMappedAlike(s.root, phys, v);
    MapToAnswer(s.root, 4, phys, phys, flags, s.pool);
    TrackGrants(s, phys, phys, flags, "identity map", v);
  }

  // -- The index and the tables over whole runs ---------------------------------------------------------

  /** `t` is `f`, perhaps with write or user access more. */
  predicate Widened(f: Flags, t: Flags) {
    t == f.(writable := t.writable, user := t.user) && (f.writable ==> t.writable) && (f.user ==> t.user)
  }

  /** An attempt that fails inside a large page takes no access away from any page, and changes no 4 KiB one. */
  lemma {:induction false} HugeWidens(es: seq<Entry>, level: nat, v: nat, phys: nat, flags: Flags, pool: Pool, w: nat)
    requires 1 <= level <= 4 && Formed(es, level) && pool.next <= |pool.used|
    requires Formed(MapTo(es, level, v, phys, flags, pool).table, level) && LeafAt(es, level, w).Some?
    requires MapTo(es, level, v, phys, flags, pool).result == Err(ParentEntryHugePage)
    ensures var was, now := LeafFlags(es, level, w), LeafFlags(MapTo(es, level, v, phys, flags, pool).table, level, w);
            && was.Some? && now.Some? && Widened(was.value, now.value)
            && (LeafAt(es, level, w).value.size == PAGE_SIZE ==> now == was)
    decreases level
  {
    hide NextFree, TakeOne, Index, Formed;
    LeafHasFlags(es, level, w);
    FormedSize(es, level);
    var i, j := Index(v, level), Index(w, level);
    var e := es[i];
    var m := MapTo(es, level, v, phys, flags, pool);
    FormedAt(es, level, j);
    FormedAt(m.table, level, j);
    if i == j && level > 1 && IsTable(e, level) {
      HugeWidens(e.table, level - 1, v, phys, flags, pool, w);
    }
  }

  lemma {:induction false} LeafHasFlags(es: seq<Entry>, level: nat, w: nat)
    requires 1 <= level <= 4 && Formed(es, level)
    ensures LeafFlags(es, level, w).Some? <==> LeafAt(es, level, w).Some?
    decreases level
  {
    var e := es[Index(w, level)];
    assert EntryFormed(e, level);
    if IsTable(e, level) {
      LeafHasFlags(e.table, level - 1, w);
    }
  }

  lemma {:induction false} UnmapFlags(es: seq<Entry>, level: nat, v: nat, w: nat)
    requires 1 <= level <= 4 && Formed(es, level) && Formed(Unmap(es, level, v).1, level)
    ensures var (r, es') := Unmap(es, level, v);
            LeafFlags(es', level, w) == if r.Ok? && SamePath(v, w, level) then None else LeafFlags(es, level, w)
    decreases level
  {
    hide Index;
    var i := Index(v, level);
    var e := es[i];
    assert EntryFormed(e, level);
    assert EntryFormed(Unmap(es, level, v).1[i], level);
    if IsTable(e, level) && i == Index(w, level) {
      UnmapFlags(e.table, level - 1, v, w);
    }
  }

  /** The region found at `v`, if any, has the flags of the page there; a large page may have come to grant
      more than its region says. */
  ghost predicate FlagsAt(s: Vmm, v: nat)
    requires Ready(s)
  {
    var r := GetMapping(s.regions, v);
    r.Some? ==>
      var t := LeafFlags(s.root, 4, v);
      t.Some? && Widened(r.value.flags, t.value) && (r.value.size == PAGE_SIZE ==> t.value == r.value.flags)
  }

  ghost predicate FlagsAgree(s: Vmm) {
    Ready(s) && forall v: nat :: Canonical(v) ==> FlagsAt(s, v)
  }

  lemma TrackFlags(s: Vmm, virt: nat, phys: nat, flags: Flags, name: string)
    requires Sound(s) && Mappable(flags) && virt % PAGE_SIZE == 0 && phys % PAGE_SIZE == 0 && Canonical(virt)
    requires FlagsAgree(s)
    ensures FlagsAgree(Track(s, virt, phys, flags, name).0)
  {
    hide Sound, Formed, Track, Grants, FlagsAt;
    TrackReady(s, virt, phys, flags, name);
    forall v: nat | Canonical(v)
      ensures FlagsAt(Track(s, virt, phys, flags, name).0, v)
    {
      assert FlagsAt(s, v);
      TrackFlagsAt(s, virt, phys, flags, name, v);
    }
  }

  lemma TrackFlagsAt(s: Vmm, virt: nat, phys: nat, flags: Flags, name: string, v: nat)
    requires Sound(s) && Mappable(flags) && virt % PAGE_SIZE == 0 && phys % PAGE_SIZE == 0 && Canonical(virt)
    requires Canonical(v) && FlagsAt(s, v)
    ensures Ready(Track(s, virt, phys, flags, name).0) && FlagsAt(Track(s, virt, phys, flags, name).0, v)
  {
    hide Formed, LeafAt, LeafFlags, MapTo, Pages, Apart, TotalSize, PathPermits, SamePath;
    var (s', r) := Track(s, virt, phys, flags, name);
    TrackReady(s, virt, phys, flags, name);
    SamePathIsSamePage(virt, v);
    LookupConcat(s.regions, [MappedRegion(virt, phys, PAGE_SIZE, flags, name)], v);
    if r.Ok? && virt <= v < virt + PAGE_SIZE {
      TrackGrants(s, virt, phys, flags, name, v);
      PermitsLeaf(s'.root, 4, v, flags);
    } else {
      assert Looked(s.regions, v) == LeafAt(s.root, 4, v);
      if r == Err(ParentEntryHugePage) {
        if LeafAt(s.root, 4, v).Some? {
          HugeWidens(s.root, 4, virt, phys, flags, s.pool, v);
        }
      } else {
        MapToFlags(s.root, 4, virt, phys, flags, s.pool, v);
      }
    }
  }

  lemma UnmapFlagsAgree(s: Vmm, virt: nat)
    requires Sound(s) && Canonical(virt) && FlagsAgree(s)
    ensures FlagsAgree(UnmapPage(s, virt).0)
  {
    hide Formed, LeafAt, LeafFlags, Unmap, Pages, TotalSize, SamePath, Apart, Agree;
    UnmapReady(s, virt);
    if virt % PAGE_SIZE == 0 {
      var s' := UnmapPage(s, virt).0;
      UnmapSound(s, virt);
      forall v: nat | Canonical(v)
        ensures FlagsAt(s', v)
      {
        assert FlagsAt(s, v);
        SamePathIsSamePage(virt, v);
        UnmapFlags(s.root, 4, virt, v);
        RetainLookup(s.regions, virt, v);
        if UnmapPage(s, virt).1.Ok? && virt <= v < virt + PAGE_SIZE {
          UnmappedRegion(s, virt, v);
        }
      }
    }
  }

  /** After an Ok unmapping no region is found on the page. */
  lemma UnmappedRegion(s: Vmm, virt: nat, v: nat)
    requires Sound(s) && Canonical(virt) && Canonical(v) && virt % PAGE_SIZE == 0 && UnmapPage(s, virt).1.Ok?
    requires virt <= v < virt + PAGE_SIZE
    ensures GetMapping(UnmapPage(s, virt).0.regions, v).None?
  {
    hide Formed, LeafAt, UnmapPage, Pages, TotalSize, SamePath, Apart;
    UnmapSound(s, virt);
    UnmapPageMeans(s, virt, virt);
    UnmapLeaf(s, virt, v);
    var s' := UnmapPage(s, virt).0;
    assert Looked(s'.regions, v) == LeafAt(s'.root, 4, v);
    PageAlikeLeaf(s, virt, v);
  }

  lemma PageAlikeLeaf(s: Vmm, virt: nat, v: nat)
    requires Ready(s) && virt % PAGE_SIZE == 0 && virt <= v < virt + PAGE_SIZE && PageAt(s.root, virt)
    ensures PageAt(s.root, v)
  {
    hide Formed, LeafAt;
    PageMappedAlike(s.root, virt, v);
    LeafAtPage(s.root, v, virt);
  }

  /** The region found at boot for an address has the flags of its page and is named after its size. */
  ghost predicate FoundFlags(rs: seq<MappedRegion>, es: seq<Entry>, level: nat, v: nat)
    requires 1 <= level <= 4 && Formed(es, level)
  {
    var r := GetMapping(rs, v);
    r.Some? ==>
      && LeafFlags(es, level, v) == Some(r.value.flags)
      && (r.value.size == PAGE_SIZE ==> r.value.description == "boot 4 KiB page")
      && (r.value.size == LARGE_SIZE ==> r.value.description == "boot 2 MiB page")
      && (r.value.size == HUGE_SIZE ==> r.value.description == "boot 1 GiB page")
  }

  lemma {:induction false} DiscoverFlags(es: seq<Entry>, level: nat, base: nat, n: nat, v: nat)
    requires 1 <= level <= 4 && Formed(es, level) && n <= 512
    requires base % TableSpan(level) == 0 && base <= v < base + TableSpan(level)
    ensures FoundFlags(Discover(es, level, base, n), es, level, v)
    decreases level, n + 1
  {
    hide Index, LeafFlags;
    if n > 0 {
      var e, b := es[n - 1], EntryBase(base, n - 1, level);
      DiscoverFlags(es, level, base, n - 1, v);
      LookupConcat(Discover(es, level, base, n - 1), EntryRegions(e, level, b), v);
      IndexUnder(base, n - 1, level, v);
      EntryInside(e, level, b);
      if Index(v, level) == n - 1 {
        EntryFlags(es, level, b, v);
      }
    }
  }

  lemma EntryFlags(es: seq<Entry>, level: nat, base: nat, v: nat)
    requires 1 <= level <= 4 && Formed(es, level)
    requires base % Size(level) == 0 && base <= v < base + Size(level)
    ensures FoundFlags(EntryRegions(es[Index(v, level)], level, base), es, level, v)
    decreases level, 0
  {
    hide Index, Discover;
    var e := es[Index(v, level)];
    assert EntryFormed(e, level);
    if IsTable(e, level) {
      DiscoverFlags(e.table, level - 1, base, 512, v);
    }
  }

  lemma BootFlags(root: seq<Entry>, pool: Pool)
    requires Formed(root, 4) && LowerLeaves(root) && HintOk(pool.used, pool.next)
    ensures FlagsAgree(Boot(root, pool))
  {
    hide Discover, LeafFlags, EntryFormed, LowerLeaves, GetMapping, Widened;
    var s := Boot(root, pool);
    forall v: nat | Canonical(v)
      ensures FlagsAt(s, v)
    {
      BootFlagsAt(root, v);
      SameIsWidened();
    }
  }

  lemma SameIsWidened()
    ensures forall f :: Widened(f, f)
  {
  }

  /** What `init` records for an address. */
  lemma BootFlagsAt(root: seq<Entry>, v: nat)
    requires Formed(root, 4) && LowerLeaves(root) && Canonical(v)
    ensures FoundFlags(Discover(root, 4, 0, 512), root, 4, v)
  {
    hide Discover, LeafFlags, LeafAt, EntryFormed, GetMapping;
    if v < LOWER_HALF_END {
      DiscoverFlags(root, 4, 0, 512, v);
    } else {
      BootAgrees(root, v);
      WalkedBits(v);
      NoPagesNoLeaf(root, 4, v);
    }
  }

  // -- Runs -------------------------------------------------------------------------------------------

  lemma MapPageFlags(s: Vmm, virt: nat, phys: nat, flags: Flags)
    requires Sound(s) && Mappable(flags) && Canonical(virt) && FlagsAgree(s)
    ensures FlagsAgree(MapPage(s, virt, phys, flags).0)
  {
    hide Sound, FlagsAgree, Track;
    if virt % PAGE_SIZE == 0 && phys % PAGE_SIZE == 0 {
      TrackFlags(s, virt, phys, flags, "user mapped");
    }
  }

  lemma StatsFlags(s: Vmm, stats: VmmStatistics)
    requires FlagsAgree(s)
    ensures FlagsAgree(s.(stats := stats))
  {
    hide Formed, LeafFlags, GetMapping;
    forall v: nat | Canonical(v)
      ensures FlagsAt(s.(stats := stats), v)
    {
      assert FlagsAt(s, v);
    }
  }

  lemma RemapFlags(s: Vmm, virt: nat, phys: nat, flags: Flags)
    requires Sound(s) && Mappable(flags) && Canonical(virt) && FlagsAgree(s)
    ensures FlagsAgree(RemapPage(s, virt, phys, flags).0)
  {
    hide Sound, FlagsAgree, MapPage, UnmapPage;
    UnmapKeeps(s, virt);
    UnmapFlagsAgree(s, virt);
    var s1 := UnmapPage(s, virt).0;
    MapPageFlags(s1, virt, phys, flags);
    StatsFlags(MapPage(s1, virt, phys, flags).0, RemapPage(s, virt, phys, flags).0.stats);
  }

  lemma {:induction false} MapPagesFlags(s: Vmm, virt: nat, phys: nat, count: nat, flags: Flags)
    requires Sound(s) && Mappable(flags) && CanonicalRange(virt, count) && FlagsAgree(s)
    ensures FlagsAgree(MapPages(s, virt, phys, count, flags).0)
    decreases count
  {
    hide Sound, FlagsAgree, MapPage;
    if count > 0 {
      MapPageFlags(s, virt, phys, flags);
      MapKeeps(s, virt, phys, flags);
      if MapPage(s, virt, phys, flags).1.Ok? {
        MapPagesFlags(MapPage(s, virt, phys, flags).0, virt + PAGE_SIZE, phys + PAGE_SIZE, count - 1, flags);
      }
    }
  }

  lemma {:induction false} UnmapPagesFlags(s: Vmm, virt: nat, count: nat)
    requires Sound(s) && CanonicalRange(virt, count) && FlagsAgree(s)
    ensures FlagsAgree(VmmSpec.UnmapPages(s, virt, count))
    decreases count
  {
    hide Sound, FlagsAgree, UnmapPage;
    if count > 0 {
      UnmapFlagsAgree(s, virt);
      UnmapKeeps(s, virt);
      UnmapPagesFlags(UnmapPage(s, virt).0, virt + PAGE_SIZE, count - 1);
    }
  }

  lemma IdentityPageFlags(s: Vmm, phys: nat, flags: Flags)
    requires Sound(s) && Mappable(flags) && phys % PAGE_SIZE == 0 && phys + PAGE_SIZE <= LOWER_HALF_END
    requires FlagsAgree(s)
    ensures FlagsAgree(IdentityPage(s, phys, flags).0)
  {
    hide Agree, Apart, FlagsAgree, Track, TranslateAddr, Formed;
    if TranslateAddr(s.root, phys).None? {
      TrackFlags(s, phys, phys, flags, "identity map");
    }
  }

  lemma {:induction false} IdentityPagesFlags(s: Vmm, phys: nat, count: nat, flags: Flags)
    requires Sound(s) && Mappable(flags) && phys % PAGE_SIZE == 0 && phys + count * PAGE_SIZE <= LOWER_HALF_END
    requires FlagsAgree(s)
    ensures FlagsAgree(IdentityPages(s, phys, count, flags).0)
    decreases count
  {
    hide Sound, FlagsAgree, IdentityPage;
    if count > 0 {
      IdentityPageFlags(s, phys, flags);
      IdentityPageKeeps(s, phys, flags);
      if IdentityPage(s, phys, flags).1.Ok? {
        IdentityPagesFlags(IdentityPage(s, phys, flags).0, phys + PAGE_SIZE, count - 1, flags);
      }
    }
  }

  lemma StepFlags(s: Vmm, c: Call)
    requires Sound(s) && Allowed(c) && FlagsAgree(s)
    ensures FlagsAgree(Step(s, c))
  {
    hide Sound, FlagsAgree, MapPage, UnmapPage, RemapPage, MapPages, IdentityPages;
    match c {
      case Map(virt, phys, flags) => MapPageFlags(s, virt, phys, flags);
      case UnmapOne(virt) => UnmapFlagsAgree(s, virt);
      case Remap(virt, phys, flags) => RemapFlags(s, virt, phys, flags);
      case MapMany(virt, phys, count, flags) => MapPagesFlags(s, virt, phys, count, flags);
      case UnmapMany(virt, count) => UnmapPagesFlags(s, virt, count);
      case Identity(phys, count, flags) =>
        if phys % PAGE_SIZE == 0 {
          IdentityPagesFlags(s, phys, count, flags);
        }
    }
  }

  lemma {:induction false} RunFlags(s: Vmm, calls: seq<Call>)
    requires Sound(s) && FlagsAgree(s) && forall c :: c in calls ==> Allowed(c)
    ensures FlagsAgree(Run(s, calls))
    decreases |calls|
  {
    hide Sound, FlagsAgree, Step;
    if calls != [] {
      StepKeeps(s, calls[0]);
      StepFlags(s, calls[0]);
      RunFlags(Step(s, calls[0]), calls[1..]);
    }
  }

  /** MAIN: from any well-formed boot tables without pages in the upper half, through every run of calls, a
      region of one 4 KiB page has exactly the flags of the page, and the page of any other region has its
      region's flags, with write or user access more at most. */
  lemma BootRunsFlags(root: seq<Entry>, pool: Pool, calls: seq<Call>, v: nat)
    requires Formed(root, 4) && LowerLeaves(root) && HintOk(pool.used, pool.next) && Canonical(v)
    requires forall c :: c in calls ==> Allowed(c)
    ensures Sound(Boot(root, pool))
    ensures var s := Run(Boot(root, pool), calls);
            && Ready(s)
            && (GetMapping(s.regions, v).Some? ==>
                  var r, t := GetMapping(s.regions, v).value, LeafFlags(s.root, 4, v);
                  && t.Some? && Widened(r.flags, t.value)
                  && (r.size == PAGE_SIZE ==> t.value == r.flags))
  {
    hide Sound, Formed, Run, LeafFlags, GetMapping, Discover;
    FormedSize(root, 4);
    BootSound(root, pool);
    BootFlags(root, pool);
    RunFlags(Boot(root, pool), calls);
    assert FlagsAt(Run(Boot(root, pool), calls), v);
  }
}
