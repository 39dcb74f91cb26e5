// A directory as the flat list of its slots: scanning, adding, removing and updating entries.
// Dir.dfy has the imperative form.
module Directory {
  import opened Wrappers
  import opened Bytes
  import opened Chains
  import opened Volumes
  import opened DirEntries

  // -- Slots ------------------------------------------------------------------------------------------

  function SlotAt(block: seq<byte>, j: nat): DirEntry
    requires 32 * j + 32 <= |block|
  {
    block[32 * j..32 * j + 32]
  }

  /** The 32-byte slots of one cluster. */
  function SlotsOf(block: seq<byte>): (r: seq<DirEntry>)
    ensures |r| == |block| / 32
    ensures forall j :: 0 <= j < |r| ==> r[j] == SlotAt(block, j)
  {
    seq(|block| / 32, j requires 0 <= j < |block| / 32 => SlotAt(block, j))
  }

  /** The slots of a directory, cluster after cluster. */
  function Slots(data: seq<seq<byte>>, cs: seq<nat>): seq<DirEntry>
    requires InRange(cs, |data|)
    decreases |cs|
  {
    if cs == [] then []
    else Slots(data, cs[..|cs| - 1]) + SlotsOf(data[cs[|cs| - 1]])
  }

  lemma SlotsSnoc(data: seq<seq<byte>>, cs: seq<nat>, c: nat)
    requires InRange(cs, |data|) && 2 <= c < |data|
    ensures InRange(cs + [c], |data|) && Slots(data, cs + [c]) == Slots(data, cs) + SlotsOf(data[c])
  {
    assert (cs + [c])[..|cs|] == cs;
  }

  lemma {:induction false} SlotsFrame(data: seq<seq<byte>>, data': seq<seq<byte>>, cs: seq<nat>)
    requires InRange(cs, |data|) && |data'| == |data|
    requires forall c :: c in cs ==> data'[c] == data[c]
    ensures Slots(data', cs) == Slots(data, cs)
    decreases |cs|
  {
    if cs != [] {
      SlotsFrame(data, data', cs[..|cs| - 1]);
    }
  }

  /** The slots before cluster `k` of a directory are the beginning of its slots. */
  lemma {:induction false} SlotsPrefix(data: seq<seq<byte>>, cs: seq<nat>, k: nat)
    requires InRange(cs, |data|) && k <= |cs|
    ensures Slots(data, cs[..k]) <= Slots(data, cs)
    decreases |cs|
  {
    if k == |cs| {
      assert cs[..k] == cs;
    } else {
      assert cs[..|cs| - 1][..k] == cs[..k];
      SlotsPrefix(data, cs[..|cs| - 1], k);
    }
  }

  /** Slot `j` of the `ci`-th cluster is slot `|slots before that cluster| + j` of the directory. */
  lemma SlotIndex(data: seq<seq<byte>>, cs: seq<nat>, ci: nat, j: nat)
    requires InRange(cs, |data|) && ci < |cs| && j < |data[cs[ci]]| / 32
    ensures var base := |Slots(data, cs[..ci])|;
            base + j < |Slots(data, cs)| && Slots(data, cs)[base + j] == SlotAt(data[cs[ci]], j)
  {
    assert cs[..ci] + [cs[ci]] == cs[..ci + 1];
    SlotsSnoc(data, cs[..ci], cs[ci]);
    SlotsPrefix(data, cs, ci + 1);
  }

  /** Slot `k` of a directory overwritten on disk. */
  function SetSlot(data: seq<seq<byte>>, cs: seq<nat>, k: nat, e: DirEntry): (r: seq<seq<byte>>)
    requires InRange(cs, |data|) && k < |Slots(data, cs)|
    ensures |r| == |data|
    decreases |cs|
  {
    var init, last := cs[..|cs| - 1], cs[|cs| - 1];
    var base := |Slots(data, init)|;
    if k < base then SetSlot(data, init, k, e)
    else data[last := Splice(data[last], 32 * (k - base), e)]
  }

  /** The slots with the `k`-th replaced. */
  function WithSlot(slots: seq<DirEntry>, k: nat, e: DirEntry): (r: seq<DirEntry>)
    requires k < |slots|
    ensures r == slots[k := e]
  {
    slots[..k] + [e] + slots[k + 1..]
  }

  lemma SpliceSlots(block: seq<byte>, j: nat, e: DirEntry)
    requires j < |block| / 32
    ensures SlotsOf(Splice(block, 32 * j, e)) == SlotsOf(block)[j := e]
  {
    var spliced := Splice(block, 32 * j, e);
    forall i | 0 <= i < |block| / 32
      ensures SlotAt(spliced, i) == SlotsOf(block)[j := e][i]
    {
      SpliceSlice(block, 32 * j, e, 32 * i, 32 * i + 32);
    }
  }

  /** Overwriting a slot changes that slot of the directory, no cluster outside it, and no size. */
  lemma {:induction false} SetSlotEffect(data: seq<seq<byte>>, cs: seq<nat>, k: nat, e: DirEntry)
    requires InRange(cs, |data|) && NoDup(cs) && k < |Slots(data, cs)|
    ensures Slots(SetSlot(data, cs, k, e), cs) == Slots(data, cs)[k := e]
    ensures forall c :: 0 <= c < |data| && c !in cs ==> SetSlot(data, cs, k, e)[c] == data[c]
    ensures forall c :: 0 <= c < |data| ==> |SetSlot(data, cs, k, e)[c]| == |data[c]|
    decreases |cs|
  {
    var init, last := cs[..|cs| - 1], cs[|cs| - 1];
    var base := |Slots(data, init)|;
    var data' := SetSlot(data, cs, k, e);
    assert last !in init;
    if k < base {
      SetSlotEffect(data, init, k, e);
      assert data' == SetSlot(data, init, k, e);
      assert data'[last] == data[last];
    } else {
      SpliceSlots(data[last], k - base, e);
      SlotsFrame(data, data', init);
    }
  }

  /** The write the scanning loops do: the cluster they are in, at the slot they are at. */
  lemma {:induction false} SetSlotAt(data: seq<seq<byte>>, cs: seq<nat>, ci: nat, j: nat, e: DirEntry)
    requires InRange(cs, |data|) && ci < |cs| && j < |data[cs[ci]]| / 32
    ensures |Slots(data, cs[..ci])| + j < |Slots(data, cs)|
    ensures SetSlot(data, cs, |Slots(data, cs[..ci])| + j, e) == data[cs[ci] := Splice(data[cs[ci]], 32 * j, e)]
    decreases |cs|
  {
    SlotIndex(data, cs, ci, j);
    var init := cs[..|cs| - 1];
    if ci < |cs| - 1 {
      assert init[..ci] == cs[..ci];
      SetSlotAt(data, init, ci, j, e);
    }
  }

  // -- Scanning -------------------------------------------------------------------------------------

  predicate Matches(e: DirEntry, name: seq<byte>) { !IsEnd(e) && !Skipped(e) && FullNameUpper(e) == name }

  /** The scan of `find_entry`, `remove_entry` and `update_file_size`: the first match before the
      first end marker. */
  function FindFrom(slots: seq<DirEntry>, i: nat, name: seq<byte>): (r: Option<nat>)
    ensures r.Some? ==> i <= r.value < |slots| && Matches(slots[r.value], name)
    ensures r.Some? ==> forall j :: i <= j < r.value ==> !IsEnd(slots[j]) && !Matches(slots[j], name)
    ensures r.None? ==>
              forall j :: i <= j < |slots| && Matches(slots[j], name) ==> exists e :: i <= e < j && IsEnd(slots[e])
    decreases |slots| - i
  {
    if i >= |slots| || IsEnd(slots[i]) then None
    else if Matches(slots[i], name) then Some(i)
    else FindFrom(slots, i + 1, name)
  }

  /** One step of it. */
  lemma FindStep(slots: seq<DirEntry>, i: nat, name: seq<byte>)
    requires i < |slots|
    ensures FindFrom(slots, i, name)
            == if IsEnd(slots[i]) then None else if Matches(slots[i], name) then Some(i)
               else FindFrom(slots, i + 1, name)
  {
  }

  /** The scan of `update_dir_entry`, which steps over end markers. */
  function FindPast(slots: seq<DirEntry>, i: nat, name: seq<byte>): (r: Option<nat>)
    ensures r.Some? ==> i <= r.value < |slots| && Matches(slots[r.value], name)
    ensures r.Some? ==> forall j :: i <= j < r.value ==> !Matches(slots[j], name)
    ensures r.None? ==> forall j :: i <= j < |slots| ==> !Matches(slots[j], name)
    decreases |slots| - i
  {
    if i >= |slots| then None
    else if Matches(slots[i], name) then Some(i)
    else FindPast(slots, i + 1, name)
  }

  lemma PastStep(slots: seq<DirEntry>, i: nat, name: seq<byte>)
    requires i < |slots|
    ensures FindPast(slots, i, name) == if Matches(slots[i], name) then Some(i) else FindPast(slots, i + 1, name)
  {
  }

  /** The scan of `add_entry`: the first end marker or deleted slot. */
  function HoleFrom(slots: seq<DirEntry>, i: nat): (r: Option<nat>)
    ensures r.Some? ==> i <= r.value < |slots| && (IsEnd(slots[r.value]) || IsDeleted(slots[r.value]))
    ensures r.Some? ==> forall j :: i <= j < r.value ==> !IsEnd(slots[j]) && !IsDeleted(slots[j])
    ensures r.None? ==> forall j :: i <= j < |slots| ==> !IsEnd(slots[j]) && !IsDeleted(slots[j])
    decreases |slots| - i
  {
    if i >= |slots| then None
    else if IsEnd(slots[i]) || IsDeleted(slots[i]) then Some(i)
    else HoleFrom(slots, i + 1)
  }

  /** After the first end marker there are only end markers. */
  ghost predicate EndOk(slots: seq<DirEntry>) {
    forall i, j :: 0 <= i < j < |slots| && IsEnd(slots[i]) ==> IsEnd(slots[j])
  }

  /** With nothing behind the end marker both scans pick the same slot. */
  lemma {:induction false} ScansAgree(slots: seq<DirEntry>, i: nat, name: seq<byte>)
    requires EndOk(slots)
    ensures FindPast(slots, i, name) == FindFrom(slots, i, name)
    decreases |slots| - i
  {
    if i < |slots| {
      if IsEnd(slots[i]) {
        assert forall j :: i <= j < |slots| ==> IsEnd(slots[j]);
      } else if !Matches(slots[i], name) {
        ScansAgree(slots, i + 1, name);
      }
    }
  }

  /** The entries a listing may show: those before the first end marker that no scan skips. */
  function Visible(slots: seq<DirEntry>): seq<DirEntry> {
    if slots == [] || IsEnd(slots[0]) then []
    else (if Skipped(slots[0]) then [] else [slots[0]]) + Visible(slots[1..])
  }

  lemma {:induction false} VisibleSplit(slots: seq<DirEntry>, k: nat)
    requires k <= |slots|
    requires forall i :: 0 <= i < k ==> !IsEnd(slots[i])
    ensures Visible(slots) == Visible(slots[..k]) + Visible(slots[k..])
    decreases k
  {
    if k == 0 {
      assert slots[k..] == slots;
    } else {
      VisibleSplit(slots[1..], k - 1);
      assert slots[1..][..k - 1] == slots[..k][1..];
      assert slots[1..][k - 1..] == slots[k..];
    }
  }

  lemma VisibleAround(slots: seq<DirEntry>, k: nat, e: DirEntry)
    requires k < |slots| && !IsEnd(e)
    requires forall i :: 0 <= i < k ==> !IsEnd(slots[i])
    ensures Visible(slots[k := e])
            == Visible(slots[..k]) + (if Skipped(e) then [] else [e]) + Visible(slots[k + 1..])
  {
    var s := slots[k := e];
    VisibleSplit(s, k);
    assert s[..k] == slots[..k];
    assert s[k..][1..] == slots[k + 1..];
    assert s[k..][0] == e;
  }

  lemma EndsVisible(slots: seq<DirEntry>, k: nat)
    requires k < |slots| && EndOk(slots) && IsEnd(slots[k])
    ensures Visible(slots[k..]) == [] && Visible(slots[k + 1..]) == []
  {
    assert slots[k..][0] == slots[k];
    if k + 1 < |slots| {
      assert slots[k + 1..][0] == slots[k + 1];
    }
  }

  /** Filling the first hole adds exactly the new entry to what is visible and keeps the rest, in order. */
  lemma AddVisible(slots: seq<DirEntry>, k: nat, e: DirEntry)
    requires EndOk(slots) && HoleFrom(slots, 0) == Some(k) && !IsEnd(e) && !Skipped(e)
    ensures EndOk(slots[k := e])
    ensures Visible(slots) == Visible(slots[..k]) + Visible(slots[k + 1..])
    ensures Visible(slots[k := e]) == Visible(slots[..k]) + [e] + Visible(slots[k + 1..])
  {
    VisibleAround(slots, k, e);
    if IsEnd(slots[k]) {
      EndsVisible(slots, k);
      VisibleSplit(slots, k);
    } else {
      VisibleAround(slots, k, slots[k]);
      assert slots[k := slots[k]] == slots;
    }
  }

  /** So does appending a fresh cluster when there is no hole. */
  lemma AppendVisible(slots: seq<DirEntry>, added: seq<DirEntry>)
    requires HoleFrom(slots, 0).None? && added != [] && !IsEnd(added[0]) && !Skipped(added[0])
    requires forall i :: 1 <= i < |added| ==> IsEnd(added[i])
    ensures EndOk(slots + added)
    ensures Visible(slots + added) == Visible(slots) + [added[0]]
  {
    VisibleSplit(slots + added, |slots|);
    assert (slots + added)[..|slots|] == slots;
    assert (slots + added)[|slots|..] == added;
    if |added| > 1 {
      assert added[1..][0] == added[1];
    }
    assert Visible(added[1..]) == [];
  }

  /** Deleting the first match hides exactly that entry. */
  lemma RemoveVisible(slots: seq<DirEntry>, k: nat, name: seq<byte>)
    requires EndOk(slots) && FindFrom(slots, 0, name) == Some(k)
    ensures EndOk(slots[k := Tombstone(slots[k])])
    ensures Visible(slots) == Visible(slots[..k]) + [slots[k]] + Visible(slots[k + 1..])
    ensures Visible(slots[k := Tombstone(slots[k])]) == Visible(slots[..k]) + Visible(slots[k + 1..])
    ensures forall i :: 0 <= i < k ==> !Matches(slots[i], name)
  {
    VisibleAround(slots, k, slots[k]);
    assert slots[k := slots[k]] == slots;
    VisibleAround(slots, k, Tombstone(slots[k]));
  }

  /** A removed entry: its first byte becomes the deletion mark. */
  function Tombstone(e: DirEntry): (r: DirEntry)
    ensures IsDeleted(r) && !IsEnd(r)
    ensures r[0] == 0xE5 && r[1..] == e[1..]
  {
    e[0 := DELETED]
  }

  /** What a listing reports of an entry; `name` is in lower case. */
  datatype DirEntryInfo = DirEntryInfo(name: seq<byte>, isDir: bool, size: nat, cluster: nat)

  predicate IsDots(name: seq<byte>) { name == [DOT] || name == [DOT, DOT] }

  function InfoOf(e: DirEntry): DirEntryInfo {
    DirEntryInfo(FullName(e), IsDirectory(e), FileSize(e), FirstCluster(e))
  }

  /** The loop of `read_dir_entries` from slot `i` on. */
  function Listing(slots: seq<DirEntry>, i: nat): seq<DirEntryInfo>
    decreases |slots| - i
  {
    if i >= |slots| || IsEnd(slots[i]) then []
    else if Skipped(slots[i]) || IsDots(FullName(slots[i])) then Listing(slots, i + 1)
    else [InfoOf(slots[i])] + Listing(slots, i + 1)
  }

  // -- Operations on a directory in a volume ---------------------------------------------------------

  function FindEntry(v: Volume, cs: seq<nat>, name: seq<byte>): (r: Option<DirEntry>)
    requires v.Valid() && InRange(cs, |v.data|)
  {
    var slots := Slots(v.data, cs);
    match FindFrom(slots, 0, name)
    case Some(k) => Some(slots[k])
    case None => None
  }

  /** A cluster holding one entry and otherwise end markers. */
  function FreshDirBlock(csz: nat, e: DirEntry): (r: seq<byte>)
    requires csz >= 32
    ensures |r| == csz
  {
    Splice(Zeros(csz), 0, e)
  }

  lemma FreshDirSlots(csz: nat, e: DirEntry)
    requires csz >= 32
    ensures var s := SlotsOf(FreshDirBlock(csz, e));
            s != [] && s[0] == e && forall i :: 1 <= i < |s| ==> IsEnd(s[i])
  {
    SpliceSlots(Zeros(csz), 0, e);
  }

  /** `add_entry` in the directory with clusters `cs`. */
  function AddEntry(v: Volume, cs: seq<nat>, e: DirEntry): (r: (Volume, Result<(), string>))
    requires v.Valid() && InRange(cs, |v.fat|)
  {
    match HoleFrom(Slots(v.data, cs), 0)
    case Some(k) => (v.(data := SetSlot(v.data, cs, k, e)), Ok(()))
    case None =>
      match LowestFree(v.fat)
      case Err(err) => (v, Err(err))
      case Ok(c) =>
        if cs == [] then (v.(data := v.data[c := Zeros(v.csz)]), Err("Empty chain"))
        else
          (v.(fat := v.fat[cs[|cs| - 1] := c][c := EOC], data := v.data[c := FreshDirBlock(v.csz, e)]), Ok(()))
  }

  function RemoveEntry(v: Volume, cs: seq<nat>, name: seq<byte>): (r: (Volume, Result<DirEntry, string>))
    requires v.Valid() && InRange(cs, |v.data|)
  {
    var slots := Slots(v.data, cs);
    match FindFrom(slots, 0, name)
    case None => (v, Err("File not found"))
    case Some(k) => (v.(data := SetSlot(v.data, cs, k, Tombstone(slots[k]))), Ok(slots[k]))
  }

  /** `update_dir_entry`: cluster and size of the entry named `name`; false when there is none. */
  function UpdateEntry(v: Volume, cs: seq<nat>, name: seq<byte>, cluster: nat, size: nat): (r: (Volume, bool))
    requires v.Valid() && InRange(cs, |v.data|) && size < 0x1_0000_0000
  {
    var slots := Slots(v.data, cs);
    match FindPast(slots, 0, name)
    case None => (v, false)
    case Some(k) =>
      (v.(data := SetSlot(v.data, cs, k, WithFileSize(WithFirstCluster(slots[k], cluster), size))), true)
  }

  /** The size update of `update_file_size`; nothing happens when the entry is missing. */
  function UpdateSize(v: Volume, cs: seq<nat>, name: seq<byte>, size: nat): Volume
    requires v.Valid() && InRange(cs, |v.data|) && size < 0x1_0000_0000
  {
    var slots := Slots(v.data, cs);
    match FindFrom(slots, 0, name)
    case None => v
    case Some(k) => v.(data := SetSlot(v.data, cs, k, WithFileSize(slots[k], size)))
  }
}
