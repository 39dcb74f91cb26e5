// Page tables and manager states at which the failures stated elsewhere happen: a large page opened to
// users, a page at boot that has no canonical address yet, and a mapping lost by `remap_page`.
module PageWitnesses {
  import opened Wrappers
  import opened Frames
  import opened Paging
  import opened Regions
  import opened VmmSpec
  import opened VmmRuns

  const KERNEL: Flags := Flags(true, true, false, false, 0)

  /** A table with one entry and nothing else. */
  function Single(i: nat, e: Entry): (es: seq<Entry>)
    requires i < 512
    ensures |es| == 512 && es[i] == e && forall j :: 0 <= j < 512 && j != i ==> es[j] == UNUSED
  {
    EmptyTable()[i := e]
  }

  lemma SingleFormed(i: nat, e: Entry, level: nat)
    requires i < 512 && 1 <= level <= 4 && EntryFormed(e, level)
    ensures Formed(Single(i, e), level)
  {
    EmptyFormed(level);
  }

  lemma SinglePages(i: nat, e: Entry, level: nat)
    requires i < 512 && 1 <= level <= 4
    ensures Pages(Single(i, e), level, 512) == EntryPages(e, level)
  {
    EmptyPages(level, 512);
    PagesUpdate(EmptyTable(), level, 512, i, e);
  }

  lemma FirstIndex()
    ensures forall level :: 1 <= level <= 4 ==> Index(0, level) == 0
  {
  }

  /** MAIN: the kernel's large page at address 0, after an attempt to map a user page inside it that failed,
      is open to users. */
  lemma WidenedPage() returns (es: seq<Entry>, flags: Flags)
    ensures Formed(es, 4) && LeafAt(es, 4, 0) == Some(Mapping(0, 0, LARGE_SIZE)) && Mappable(flags)
    ensures LeafFlags(es, 4, 0).Some? && !LeafFlags(es, 4, 0).value.user
    ensures var m := MapTo(es, 4, 0, 0, flags, Pool([], 0));
            && m.result == Err(ParentEntryHugePage) && Formed(m.table, 4)
            && LeafFlags(m.table, 4, 0).Some? && LeafFlags(m.table, 4, 0).value.user
  {
    hide Single, Index;
    FirstIndex();
    flags := KERNEL.(user := true);
    var large := Entry(0, KERNEL.(huge := true), []);
    var pd := Single(0, large);
    SingleFormed(0, large, 2);
    var pdpt := Single(0, Entry(0x3000, KERNEL, pd));
    SingleFormed(0, Entry(0x3000, KERNEL, pd), 3);
    es := Single(0, Entry(0x2000, KERNEL, pdpt));
    SingleFormed(0, Entry(0x2000, KERNEL, pdpt), 4);
    assert LeafAt(pd, 2, 0) == Some(Mapping(0, 0, LARGE_SIZE)) && LeafFlags(pd, 2, 0) == Some(large.flags);
    assert LeafAt(pdpt, 3, 0) == LeafAt(pd, 2, 0) && LeafFlags(pdpt, 3, 0) == LeafFlags(pd, 2, 0);
    assert LeafAt(es, 4, 0) == LeafAt(pdpt, 3, 0) && LeafFlags(es, 4, 0) == LeafFlags(pdpt, 3, 0);
    MapToFormed(es, 4, 0, 0, flags, Pool([], 0));
    MapToAnswer(es, 4, 0, 0, flags, Pool([], 0));
    FailedMapWidens(es, 4, 0, 0, flags, Pool([], 0));
  }

  /** MAIN: well-formed boot tables with one large page of 1 GiB under entry 256 of the top level; the
      walk at boot forms an address for it that is not canonical, where `VirtAddr::new` panics. */
  lemma UpperBootPage() returns (root: seq<Entry>)
    ensures Formed(root, 4) && !LowerLeaves(root)
    ensures exists r :: r in Discover(root, 4, 0, 512) && !Canonical(r.virtualAddr)
  {
    hide Single, Discover;
    var large := Entry(0, KERNEL.(huge := true), []);
    var pdpt := Single(0, large);
    SingleFormed(0, large, 3);
    SinglePages(0, large, 3);
    var upper := Entry(0x2000, KERNEL, pdpt);
    root := Single(256, upper);
    SingleFormed(256, upper, 4);
    assert EntryPages(root[256], 4) == Pages(pdpt, 3, 512);
    BootIsCanonical(root);
  }

  /** Tables that map one 4 KiB page, at address 0. */
  lemma OnePage() returns (root: seq<Entry>)
    ensures |root| == 512 && Formed(root, 4) && LowerLeaves(root)
    ensures LeafAt(root, 4, 0) == Some(Mapping(0, 0x5000, PAGE_SIZE))
  {
    hide Single, Index;
    FirstIndex();
    var leaf := Entry(0x5000, KERNEL, []);
    var pt := Single(0, leaf);
    SingleFormed(0, leaf, 1);
    var pd := Single(0, Entry(0x4000, KERNEL, pt));
    SingleFormed(0, Entry(0x4000, KERNEL, pt), 2);
    var pdpt := Single(0, Entry(0x3000, KERNEL, pd));
    SingleFormed(0, Entry(0x3000, KERNEL, pd), 3);
    root := Single(0, Entry(0x2000, KERNEL, pdpt));
    SingleFormed(0, Entry(0x2000, KERNEL, pdpt), 4);
    assert LeafAt(pt, 1, 0) == Some(Mapping(0, 0x5000, PAGE_SIZE));
    assert LeafAt(pd, 2, 0) == LeafAt(pt, 1, 0);
    assert LeafAt(pdpt, 3, 0) == LeafAt(pd, 2, 0);
    assert LeafAt(root, 4, 0) == LeafAt(pdpt, 3, 0);
  }

  /** MAIN: a manager just started maps address 0 to a frame; `remap_page` to an unaligned address answers
      an error, and nothing is mapped at 0 any more. */
  lemma UnalignedRemap() returns (s: Vmm)
    ensures Sound(s) && Ready(s) && TranslateAddr(s.root, 0) == Some(0x5000)
    ensures var (s', r) := RemapPage(s, 0, 0x6001, KERNEL);
            r == Err(InvalidAddress) && Ready(s') && TranslateAddr(s'.root, 0).None?
  {
    hide Formed, LeafAt, Discover, LowerLeaves, Pages, Unmap, MapTo;
    var root := OnePage();
    s := Boot(root, Pool([], 0));
    BootSound(root, Pool([], 0));
    UnmapAnswer(root, 4, 0);
    UnmapReady(s, 0);
    RemapPageMeans(s, 0, 0x6001, KERNEL, 0);
  }
}
