// The check of user-space ranges in kernel/src/process/mod.rs.
module UserPtr {
  import opened Wrappers
  import opened Paging

  const U64_MAX: nat := 0xFFFF_FFFF_FFFF_FFFF

  /** 512 entries, and a table of such entries wherever a walk goes on. */
  ghost predicate Shaped(es: seq<Entry>, level: nat)
    requires 1 <= level <= 4
    decreases level, 1
  {
    |es| == 512 && forall i :: 0 <= i < 512 ==> EntryShaped(es[i], level)
  }

  ghost predicate EntryShaped(e: Entry, level: nat)
    requires 1 <= level <= 4
    decreases level, 0
  {
    Descends(e, level) ==> Shaped(e.table, level - 1)
  }

  /** The check follows the entry to a table; it does not look at the large-page bit of the top level. */
  predicate Descends(e: Entry, level: nat) {
    e.flags.present && level > 1 && (level == 4 || !e.flags.huge)
  }

  lemma {:induction false} FormedIsShaped(es: seq<Entry>, level: nat)
    requires 1 <= level <= 4 && Formed(es, level)
    ensures Shaped(es, level)
    decreases level
  {
    forall i | 0 <= i < 512
      ensures EntryShaped(es[i], level)
    {
      assert EntryFormed(es[i], level);
      if Descends(es[i], level) {
        FormedIsShaped(es[i].table, level - 1);
      }
    }
  }

  /** How far the check may advance from `v`: the size of the page it lies in, or 0 when that page is not
      accepted. Large pages are accepted whatever their flags, 4 KiB pages with the user flag. */
  function Stride(es: seq<Entry>, level: nat, v: nat): nat
    requires 1 <= level <= 4 && Shaped(es, level)
    decreases level
  {
    var e := es[Index(v, level)];
    assert EntryShaped(e, level);
    if !e.flags.present then 0
    else if Descends(e, level) then Stride(e.table, level - 1, v)
    else if level > 1 then Size(level)
    else if e.flags.user then PAGE_SIZE else 0
  }

  predicate Accepted(root: seq<Entry>, v: nat)
    requires Shaped(root, 4)
  {
    Stride(root, 4, v) > 0
  }

  /** What a call comes to: an answer, or a panic on an address that is not canonical. */
  datatype Verdict = Answer(ok: bool) | Panic

  /** The page-by-page walk. */
  function NaiveWalk(root: seq<Entry>, addr: nat, endPage: nat): Verdict
    requires Shaped(root, 4)
    decreases if addr <= endPage then endPage - addr + 1 else 0
  {
    if addr > endPage then Answer(true)
    else if addr >= LOWER_HALF_END then Panic
    else if !Accepted(root, addr) then Answer(false)
    else NaiveWalk(root, addr + PAGE_SIZE, endPage)
  }

  /** The checks before the walk, and then the page-by-page walk. */
  function CheckedWalk(root: seq<Entry>, ptr: nat, len: nat): Verdict
    requires Shaped(root, 4)
  {
    if ptr == 0 || len == 0 || ptr >= KERNEL_START then Answer(false)
    else
      var end := if ptr + len > U64_MAX then U64_MAX else ptr + len;
      if end > KERNEL_START then Answer(false)
      else NaiveWalk(root, ptr - ptr % PAGE_SIZE, (end - 1) - (end - 1) % PAGE_SIZE)
  }

  /** A stride is one of the page sizes, and all addresses of the page share it. */
  lemma {:induction false} StrideShared(es: seq<Entry>, level: nat, v: nat, w: nat)
    requires 1 <= level <= 4 && Shaped(es, level)
    requires var s := Stride(es, level, v); s > 0 && v / s == w / s
    ensures var s := Stride(es, level, v);
            && Stride(es, level, w) == s
            && (s == PAGE_SIZE || s == LARGE_SIZE || s == HUGE_SIZE) && s <= Size(level)
    decreases level
  {
    var e := es[Index(v, level)];
    assert EntryShaped(e, level);
    StrideSize(es, level, v);
    var s := Stride(es, level, v);
    SameBlockSameIndex(v, w, if s == PAGE_SIZE then 1 else if s == LARGE_SIZE then 2 else 3, level);
    if Descends(e, level) {
      StrideShared(e.table, level - 1, v, w);
    }
  }

  lemma {:induction false} StrideSize(es: seq<Entry>, level: nat, v: nat)
    requires 1 <= level <= 4 && Shaped(es, level)
    ensures var s := Stride(es, level, v); s == 0 || s == PAGE_SIZE || s == LARGE_SIZE || s == HUGE_SIZE
    ensures Stride(es, level, v) <= Size(level)
    decreases level
  {
    var e := es[Index(v, level)];
    assert EntryShaped(e, level);
    if Descends(e, level) {
      StrideSize(e.table, level - 1, v);
    }
  }

  /** The walk may jump over pages that are all accepted. */
  lemma {:induction false} WalkSkips(root: seq<Entry>, addr: nat, next: nat, endPage: nat)
    requires Shaped(root, 4)
    requires addr % PAGE_SIZE == 0 && next % PAGE_SIZE == 0 && addr <= next <= LOWER_HALF_END
    requires forall v: nat :: addr <= v < next ==> Accepted(root, v)
    ensures NaiveWalk(root, addr, endPage) == NaiveWalk(root, next, endPage)
    decreases next - addr
  {
    hide Shaped, Accepted;
    if addr < next && addr <= endPage {
      assert Accepted(root, addr);
      WalkSkips(root, addr + PAGE_SIZE, next, endPage);
    }
  }

  /** The address after the page of size `s` that `addr` lies in. */
  function After(addr: nat, s: nat): nat
    requires s > 0
  {
    addr - addr % s + s
  }

  /** One step of the check, over a page of whatever size, agrees with the page-by-page walk. */
  lemma StrideAgrees(root: seq<Entry>, addr: nat, endPage: nat)
    requires Shaped(root, 4) && addr % PAGE_SIZE == 0 && addr < LOWER_HALF_END && Accepted(root, addr)
    ensures var next := After(addr, Stride(root, 4, addr));
            && addr < next <= LOWER_HALF_END && next % PAGE_SIZE == 0
            && NaiveWalk(root, addr, endPage) == NaiveWalk(root, next, endPage)
  {
    hide Shaped, Stride, NaiveWalk;
    StrideSize(root, 4, addr);
    var s := Stride(root, 4, addr);
    var next := After(addr, s);
    AfterBounds(addr, s);
    forall v: nat | addr <= v < next
      ensures Accepted(root, v)
    {
      SameBlock(addr, v, s);
      StrideShared(root, 4, addr, v);
    }
    WalkSkips(root, addr, next, endPage);
  }

  lemma AfterBounds(addr: nat, s: nat)
    requires s == PAGE_SIZE || s == LARGE_SIZE || s == HUGE_SIZE
    requires addr % PAGE_SIZE == 0 && addr < LOWER_HALF_END
    ensures addr < After(addr, s) <= LOWER_HALF_END && After(addr, s) % PAGE_SIZE == 0
  {
    hide After;
    if s == PAGE_SIZE {
      AfterPage(addr);
    } else if s == LARGE_SIZE {
      AfterLarge(addr);
    } else {
      AfterHuge(addr);
    }
  }

  lemma AfterPage(addr: nat)
    requires addr % PAGE_SIZE == 0 && addr < LOWER_HALF_END
    ensures addr < After(addr, PAGE_SIZE) <= LOWER_HALF_END && After(addr, PAGE_SIZE) % PAGE_SIZE == 0
  {
  }

  lemma AfterLarge(addr: nat)
    requires addr < LOWER_HALF_END
    ensures addr < After(addr, LARGE_SIZE) <= LOWER_HALF_END && After(addr, LARGE_SIZE) % PAGE_SIZE == 0
  {
    var q := addr / LARGE_SIZE;
    assert After(addr, LARGE_SIZE) == (q + 1) * LARGE_SIZE;
  }

  lemma AfterHuge(addr: nat)
    requires addr < LOWER_HALF_END
    ensures addr < After(addr, HUGE_SIZE) <= LOWER_HALF_END && After(addr, HUGE_SIZE) % PAGE_SIZE == 0
  {
    var q := addr / HUGE_SIZE;
    assert After(addr, HUGE_SIZE) == (q + 1) * HUGE_SIZE;
  }

  lemma SameBlock(addr: nat, v: nat, s: nat)
    requires s == PAGE_SIZE || s == LARGE_SIZE || s == HUGE_SIZE
    requires addr <= v < After(addr, s)
    ensures addr / s == v / s
  {
    if s == PAGE_SIZE {
    } else if s == LARGE_SIZE {
    } else {
    }
  }

  /** `validate_user_ptr`: advances by 4 KiB, 2 MiB or 1 GiB, and gives on every pointer and length what
      the page-by-page walk gives. */
  method ValidateUserPtr(root: seq<Entry>, ptr: nat, len: nat) returns (r: Verdict)
    requires Shaped(root, 4) && ptr <= U64_MAX && len <= U64_MAX
    ensures r == CheckedWalk(root, ptr, len)
  {
    hide Shaped, Stride, Accepted;
    if ptr == 0 || len == 0 {
      return Answer(false);
    }
    if ptr >= KERNEL_START {
      return Answer(false);
    }
    var end := if ptr + len > U64_MAX then U64_MAX else ptr + len;
    if end < ptr || end > KERNEL_START {
      return Answer(false);
    }
    var addr := ptr - ptr % PAGE_SIZE;
    var endPage := (end - 1) - (end - 1) % PAGE_SIZE;
    while addr <= endPage
      invariant addr % PAGE_SIZE == 0
      invariant NaiveWalk(root, addr, endPage) == CheckedWalk(root, ptr, len)
      decreases endPage + HUGE_SIZE - addr
    {
      if addr >= LOWER_HALF_END {
        return Panic;
      }
      var next := NextAddress(root, addr);
      if next.None? {
        return Answer(false);
      }
      StrideAgrees(root, addr, endPage);
      addr := next.value;
    }
    r := Answer(true);
  }

  /** The body of the loop: the walk for one address, and where the check goes on. */
  method NextAddress(root: seq<Entry>, addr: nat) returns (next: Option<nat>)
    requires Shaped(root, 4) && addr % PAGE_SIZE == 0
    ensures next == if Accepted(root, addr) then Some(After(addr, Stride(root, 4, addr))) else None
  {
    var p4 := root[Index(addr, 4)];
    assert EntryShaped(p4, 4);
    if !p4.flags.present {
      return None;
    }
    var p3 := p4.table[Index(addr, 3)];
    assert EntryShaped(p3, 3);
    if !p3.flags.present {
      return None;
    }
    if p3.flags.huge {
      return Some(addr - addr % HUGE_SIZE + HUGE_SIZE);
    }
    var p2 := p3.table[Index(addr, 2)];
    assert EntryShaped(p2, 2);
    if !p2.flags.present {
      return None;
    }
    if p2.flags.huge {
      return Some(addr - addr % LARGE_SIZE + LARGE_SIZE);
    }
    var p1 := p2.table[Index(addr, 1)];
    if !p1.flags.present {
      return None;
    }
    if !p1.flags.user {
      return None;
    }
    next := Some(addr + PAGE_SIZE);
  }

  // -- What a verdict says about bytes --------------------------------------------------------------------

  lemma {:induction false} WalkMeans(root: seq<Entry>, addr: nat, endPage: nat)
    requires Shaped(root, 4) && addr % PAGE_SIZE == 0 && endPage % PAGE_SIZE == 0
    requires endPage + PAGE_SIZE <= LOWER_HALF_END
    ensures NaiveWalk(root, addr, endPage)
            == Answer(forall v: nat :: addr <= v < endPage + PAGE_SIZE ==> Accepted(root, v))
    decreases if addr <= endPage then endPage - addr + 1 else 0
  {
    hide Shaped, Stride, Accepted;
    if addr <= endPage {
      WalkMeans(root, addr + PAGE_SIZE, endPage);
      forall v: nat | addr <= v < addr + PAGE_SIZE
        ensures Accepted(root, v) == Accepted(root, addr)
      {
        PageAlike(root, addr, v);
      }
    }
  }

  /** All addresses of a 4 KiB page are accepted, or none. */
  lemma PageAlike(root: seq<Entry>, addr: nat, v: nat)
    requires Shaped(root, 4) && addr % PAGE_SIZE == 0 && addr <= v < addr + PAGE_SIZE
    ensures Accepted(root, v) == Accepted(root, addr)
  {
    hide Shaped, Stride;
    StrideSize(root, 4, addr);
    StrideSize(root, 4, v);
    if Accepted(root, addr) {
      PageInBlock(addr, v, Stride(root, 4, addr));
      StrideShared(root, 4, addr, v);
    } else if Accepted(root, v) {
      PageInBlock(addr, v, Stride(root, 4, v));
      StrideShared(root, 4, v, addr);
    }
  }

  lemma PageInBlock(addr: nat, v: nat, s: nat)
    requires s == PAGE_SIZE || s == LARGE_SIZE || s == HUGE_SIZE
    requires addr % PAGE_SIZE == 0 && addr <= v < addr + PAGE_SIZE
    ensures addr / s == v / s
  {
    if s == PAGE_SIZE {
    } else if s == LARGE_SIZE {
      assert addr / LARGE_SIZE == addr / PAGE_SIZE / 512 && v / LARGE_SIZE == v / PAGE_SIZE / 512;
    } else {
      assert addr / HUGE_SIZE == addr / PAGE_SIZE / 512 / 512 && v / HUGE_SIZE == v / PAGE_SIZE / 512 / 512;
    }
  }

  /** MAIN: a non-empty range ending in the lower half is accepted exactly when every byte of it lies in
      an accepted page, and the check never panics on it. */
  lemma RangeAccepted(root: seq<Entry>, ptr: nat, len: nat)
    requires Shaped(root, 4) && ptr > 0 && len > 0 && ptr + len <= LOWER_HALF_END
    ensures CheckedWalk(root, ptr, len) == Answer(forall v: nat :: ptr <= v < ptr + len ==> Accepted(root, v))
  {
    hide Shaped, Stride, NaiveWalk, Accepted;
    var end := ptr + len;
    var first, last := ptr - ptr % PAGE_SIZE, (end - 1) - (end - 1) % PAGE_SIZE;
    WalkMeans(root, first, last);
    forall v: nat | first <= v < last + PAGE_SIZE && (forall u: nat :: ptr <= u < end ==> Accepted(root, u))
      ensures Accepted(root, v)
    {
      var page := v - v % PAGE_SIZE;
      var u := if page < ptr then ptr else page;
      assert Accepted(root, u);
      PageAlike(root, page, u);
      PageAlike(root, page, v);
    }
  }

  /** Outside such ranges: what starts in the kernel's half or reaches into it is refused, and the check
      panics only on addresses that are not canonical. */
  lemma OtherRanges(root: seq<Entry>, ptr: nat, len: nat)
    requires Shaped(root, 4) && ptr <= U64_MAX && len <= U64_MAX
    ensures ptr == 0 || len == 0 || ptr >= KERNEL_START || ptr + len > KERNEL_START ==>
            CheckedWalk(root, ptr, len) == Answer(false)
    ensures CheckedWalk(root, ptr, len) == Panic ==> LOWER_HALF_END < ptr + len <= KERNEL_START
    ensures CheckedWalk(root, ptr, len) == Answer(true) ==> ptr > 0 && len > 0 && ptr + len <= LOWER_HALF_END
  {
    hide Shaped, Stride, NaiveWalk, Accepted;
    if 0 < ptr < KERNEL_START && len > 0 && ptr + len <= KERNEL_START {
      var end := ptr + len;
      WalkPanics(root, ptr - ptr % PAGE_SIZE, (end - 1) - (end - 1) % PAGE_SIZE);
    }
  }

  lemma {:induction false} WalkPanics(root: seq<Entry>, addr: nat, endPage: nat)
    requires Shaped(root, 4) && addr % PAGE_SIZE == 0 && endPage % PAGE_SIZE == 0
    ensures NaiveWalk(root, addr, endPage) == Panic ==> endPage >= LOWER_HALF_END
    ensures NaiveWalk(root, addr, endPage) == Answer(true) ==> endPage < LOWER_HALF_END || addr > endPage
    decreases if addr <= endPage then endPage - addr + 1 else 0
  {
    hide Shaped, Stride, Accepted;
    if addr <= endPage && addr < LOWER_HALF_END {
      WalkPanics(root, addr + PAGE_SIZE, endPage);
    }
  }

  // -- The check and the mapper ---------------------------------------------------------------------------

  lemma {:induction false} MappedStride(es: seq<Entry>, level: nat, v: nat, flags: Flags)
    requires 1 <= level <= 4 && Formed(es, level) && Shaped(es, level) && flags.present
             && PathPermits(es, level, v, flags)
    ensures Stride(es, level, v) == if flags.user then PAGE_SIZE else 0
    decreases level
  {
    var e := es[Index(v, level)];
    assert EntryFormed(e, level) && EntryShaped(e, level);
    if level > 1 {
      MappedStride(e.table, level - 1, v, flags);
    }
  }
}
