// kernel/src/fs/fat32/dir.rs: the nested loops over clusters and slots.
module Dir {
  import opened Wrappers
  import opened Bytes
  import opened Chains
  import opened Volumes
  import opened Bpb
  import opened Device
  import opened SectorWrites
  import opened Fat
  import opened DirEntries
  import opened Directory

  /** Moving to the next cluster moves on by one cluster's worth of slots. */
  lemma NextBase(v: Volume, chain: seq<nat>, ci: nat)
    requires v.Valid() && InRange(chain, |v.data|) && ci < |chain|
    ensures |Slots(v.data, chain[..ci + 1])| == |Slots(v.data, chain[..ci])| + v.csz / 32
  {
    assert chain[..ci] + [chain[ci]] == chain[..ci + 1];
    SlotsSnoc(v.data, chain[..ci], chain[ci]);
  }

  lemma NoSlots(data: seq<seq<byte>>, chain: seq<nat>)
    requires chain == []
    ensures |Slots(data, chain)| == 0
  {
  }

  lemma Whole<T>(s: seq<T>)
    ensures s[..|s|] == s
  {
  }

  lemma UpdateTwice<T>(s: seq<T>, i: nat, a: T, b: T)
    requires i < |s|
    ensures s[i := a][i := b] == s[i := b]
  {
  }

  method ReadDirEntries(fs: Fat32Fs, dirCluster: nat) returns (r: Result<seq<DirEntryInfo>, string>)
    requires fs.Valid() && Readable(fs.Vol().fat, dirCluster)
    ensures InRange(ChainOf(fs.Vol().fat, dirCluster), |fs.Vol().data|)
    ensures r == Ok(Listing(Slots(fs.Vol().data, ChainOf(fs.Vol().fat, dirCluster)), 0))
  {
    hide Abs, Words, Follow, Slots, FullNameUpper, Walked, SlotsOf;
    ghost var v := fs.Vol();
    ReadableWalk(v.fat, dirCluster);
    ReadableWords(fs.bpb, fs.device.sectors, dirCluster);
    var read := ReadChain(fs, dirCluster);
    if read.Err? {
      return Err("Sector read failed");
    }
    var chain := read.value;
    var clusterSize := fs.bpb.ClusterSize();
    var entriesPerCluster := clusterSize / 32;
    var result: seq<DirEntryInfo> := [];
    ghost var slots, base := Slots(v.data, chain), 0;
    NoSlots(v.data, chain[..0]);
    for ci := 0 to |chain|
      invariant base == |Slots(v.data, chain[..ci])|
      invariant Listing(slots, 0) == result + Listing(slots, base)
    {
      var clusterBuf := ReadCluster(fs, chain[ci], clusterSize);
      if clusterBuf.Err? {
        return Err("Sector read failed");
      }
      assert clusterBuf.value == v.data[chain[ci]];
      for i := 0 to entriesPerCluster
        invariant Listing(slots, 0) == result + Listing(slots, base + i)
      {
        SlotIndex(v.data, chain, ci, i);
        var entry := SlotAt(clusterBuf.value, i);
        if IsEnd(entry) {
          assert result + [] == result;
          return Ok(result);
        }
        if IsDeleted(entry) || IsLongName(entry) || IsVolumeLabel(entry) {
          continue;
        }
        var upper := ComputeFullNameUpper(entry);
        var name := ToLower(upper);
        if IsDots(name) {
          continue;
        }
        assert name == FullName(entry);
        result := result + [DirEntryInfo(name, IsDirectory(entry), FileSize(entry), FirstCluster(entry))];
      }
      NextBase(v, chain, ci);
      base := base + entriesPerCluster;
    }
    Whole(chain);
    assert Listing(slots, |slots|) == [] && result + [] == result;
    r := Ok(result);
  }

  method FindEntry(fs: Fat32Fs, dirCluster: nat, nameUpper: seq<byte>) returns (r: Result<Option<DirEntry>, string>)
    requires fs.Valid() && Readable(fs.Vol().fat, dirCluster)
    ensures InRange(ChainOf(fs.Vol().fat, dirCluster), |fs.Vol().data|)
    ensures r == Ok(Directory.FindEntry(fs.Vol(), ChainOf(fs.Vol().fat, dirCluster), nameUpper))
  {
    hide FindFrom, Abs, Words, Follow, Slots, FullNameUpper, Walked, SlotsOf, SlotAt;
    ghost var v := fs.Vol();
    ReadableWalk(v.fat, dirCluster);
    ReadableWords(fs.bpb, fs.device.sectors, dirCluster);
    var read := ReadChain(fs, dirCluster);
    if read.Err? {
      return Err("Sector read failed");
    }
    var chain := read.value;
    var clusterSize := fs.bpb.ClusterSize();
    var entriesPerCluster := clusterSize / 32;
    ghost var slots, base := Slots(v.data, chain), 0;
    NoSlots(v.data, chain[..0]);
    for ci := 0 to |chain|
      invariant base == |Slots(v.data, chain[..ci])|
      invariant FindFrom(slots, 0, nameUpper) == FindFrom(slots, base, nameUpper)
    {
      var clusterBuf := ReadCluster(fs, chain[ci], clusterSize);
      if clusterBuf.Err? {
        return Err("Sector read failed");
      }
      assert clusterBuf.value == v.data[chain[ci]];
      for i := 0 to entriesPerCluster
        invariant FindFrom(slots, 0, nameUpper) == FindFrom(slots, base + i, nameUpper)
      {
        SlotIndex(v.data, chain, ci, i);
        FindStep(slots, base + i, nameUpper);
        var entry := SlotAt(clusterBuf.value, i);
        if IsEnd(entry) {
          return Ok(None);
        }
        if IsDeleted(entry) || IsLongName(entry) || IsVolumeLabel(entry) {
          continue;
        }
        var entryName := ComputeFullNameUpper(entry);
        if entryName == nameUpper {
          return Ok(Some(entry));
        }
      }
      NextBase(v, chain, ci);
      base := base + entriesPerCluster;
    }
    Whole(chain);
    r := Ok(None);
  }

  /** Writes a cluster back with slot `i` replaced: slot `base + i` of the directory changes. */
  method WriteSlot(fs: Fat32Fs, ghost chain: seq<nat>, ghost ci: nat, cluster: nat, clusterBuf: seq<byte>, i: nat,
                   e: DirEntry)
    returns (r: Result<(), string>)
    requires fs.Valid() && InRange(chain, |fs.Vol().data|) && ci < |chain| && cluster == chain[ci]
    requires clusterBuf == fs.Vol().data[cluster] && i < |clusterBuf| / 32
    modifies fs.device
    ensures fs.Valid() && Kept(fs.bpb, old(fs.device.sectors), fs.device.sectors)
    ensures r.Ok?
    ensures |Slots(old(fs.Vol()).data, chain[..ci])| + i < |Slots(old(fs.Vol()).data, chain)|
    ensures fs.Vol()
            == var v := old(fs.Vol()); v.(data := SetSlot(v.data, chain, |Slots(v.data, chain[..ci])| + i, e))
  {
    hide Abs, Slots, SetSlot, Kept;
    SetSlotAt(fs.Vol().data, chain, ci, i, e);
    var newBuf := Splice(clusterBuf, 32 * i, e);
    Whole(newBuf);
    r := WriteCluster(fs, cluster, newBuf);
  }

  method AddEntry(fs: Fat32Fs, dirCluster: nat, newEntry: DirEntry) returns (r: Result<(), string>)
    requires fs.Valid() && Readable(fs.Vol().fat, dirCluster)
    modifies fs.device
    ensures fs.Valid() && Kept(fs.bpb, old(fs.device.sectors), fs.device.sectors)
    ensures InRange(ChainOf(old(fs.Vol()).fat, dirCluster), |old(fs.Vol()).fat|)
    ensures var spec := Directory.AddEntry(old(fs.Vol()), ChainOf(old(fs.Vol()).fat, dirCluster), newEntry);
            r.Ok? == spec.1.Ok? && fs.Vol() == spec.0
  {
    hide Abs, Words, Follow, Slots, Kept, SetSlot, NoDup, Linked, FirstFree, Walked, SlotAt, SlotsOf;
    ghost var d, v := fs.device.sectors, fs.Vol();
    KeptBelowData(fs.bpb, d, d);
    FatFits(fs.bpb, |d|);
    ReadableWalk(v.fat, dirCluster);
    ReadableWords(fs.bpb, d, dirCluster);
    var read := ReadChain(fs, dirCluster);
    if read.Err? {
      return Err("Sector read failed");
    }
    var chain := read.value;
    var clusterSize := fs.bpb.ClusterSize();
    var entriesPerCluster := clusterSize / 32;
    ghost var slots, base := Slots(v.data, chain), 0;
    NoSlots(v.data, chain[..0]);
    for ci := 0 to |chain|
      invariant fs.device.sectors == d
      invariant base == |Slots(v.data, chain[..ci])|
      invariant HoleFrom(slots, 0) == HoleFrom(slots, base)
    {
      var clusterBuf := ReadCluster(fs, chain[ci], clusterSize);
      if clusterBuf.Err? {
        return Err("Sector read failed");
      }
      assert clusterBuf.value == v.data[chain[ci]];
      for i := 0 to entriesPerCluster
        invariant fs.device.sectors == d
        invariant HoleFrom(slots, 0) == HoleFrom(slots, base + i)
      {
        SlotIndex(v.data, chain, ci, i);
        var entry := SlotAt(clusterBuf.value, i);
        if IsEnd(entry) || IsDeleted(entry) {
          r := WriteSlot(fs, chain, ci, chain[ci], clusterBuf.value, i, newEntry);
          return;
        }
      }
      NextBase(v, chain, ci);
      base := base + entriesPerCluster;
    }
    Whole(chain);
    assert HoleFrom(slots, 0).None?;
    r := AppendCluster(fs, chain, newEntry);
  }

  /** The tail of `add_entry`: no hole, so the directory grows by one zeroed cluster. */
  method AppendCluster(fs: Fat32Fs, chain: seq<nat>, newEntry: DirEntry) returns (r: Result<(), string>)
    requires fs.Valid() && InRange(chain, |fs.Vol().fat|)
    modifies fs.device
    ensures fs.Valid() && Kept(fs.bpb, old(fs.device.sectors), fs.device.sectors)
    ensures var v := old(fs.Vol());
            match LowestFree(v.fat)
            case Err(_) => r.Err? && fs.Vol() == v
            case Ok(c) =>
              if chain == [] then r.Err? && fs.Vol() == v.(data := v.data[c := Zeros(v.csz)])
              else r.Ok? && fs.Vol() == v.(fat := v.fat[chain[|chain| - 1] := c][c := EOC],
                                                  data := v.data[c := FreshDirBlock(v.csz, newEntry)])
  {
    hide Abs, Words, Kept, LowestFree, FreshDirBlock, SlotsOf, WithFatWord;
    ghost var d, v := fs.device.sectors, fs.Vol();
    FatFits(fs.bpb, |d|);
    var alloc := AllocCluster(fs);
    if alloc.Err? {
      return Err("No free clusters");
    }
    var newCluster := alloc.value;
    ghost var zeroed := v.data[newCluster := Zeros(v.csz)];
    var clusterBuf := FreshDirBlock(fs.bpb.ClusterSize(), newEntry);
    if chain == [] {
      return Err("Empty chain");
    }
    var lastCluster := chain[|chain| - 1];
    ghost var d1 := fs.device.sectors;
    r := WriteFatEntry(fs, lastCluster, newCluster);
    KeptTransitive(fs.bpb, d, d1, fs.device.sectors);
    if r.Err? {
      return;
    }
    ghost var d2, linked := fs.device.sectors, v.fat[lastCluster := newCluster];
    assert fs.Vol() == v.(fat := linked, data := zeroed);
    r := WriteFatEntry(fs, newCluster, EOC);
    KeptTransitive(fs.bpb, d, d2, fs.device.sectors);
    if r.Err? {
      return;
    }
    ghost var d3 := fs.device.sectors;
    assert fs.Vol() == v.(fat := linked[newCluster := EOC], data := zeroed);
    Whole(clusterBuf);
    UpdateTwice(v.data, newCluster, Zeros(v.csz), clusterBuf);
    r := WriteCluster(fs, newCluster, clusterBuf);
    KeptTransitive(fs.bpb, d, d3, fs.device.sectors);
  }

  method RemoveEntry(fs: Fat32Fs, dirCluster: nat, nameUpper: seq<byte>) returns (r: Result<DirEntry, string>)
    requires fs.Valid() && Readable(fs.Vol().fat, dirCluster)
    modifies fs.device
    ensures fs.Valid() && Kept(fs.bpb, old(fs.device.sectors), fs.device.sectors)
    ensures InRange(ChainOf(old(fs.Vol()).fat, dirCluster), |old(fs.Vol()).data|)
    ensures var spec := Directory.RemoveEntry(old(fs.Vol()), ChainOf(old(fs.Vol()).fat, dirCluster), nameUpper);
            r == spec.1 && fs.Vol() == spec.0
  {
    hide FindFrom, Abs, Words, Follow, Slots, Kept, SetSlot, FullNameUpper, Walked, SlotsOf, Splice;
    ghost var d, v := fs.device.sectors, fs.Vol();
    KeptBelowData(fs.bpb, d, d);
    ReadableWalk(v.fat, dirCluster);
    ReadableWords(fs.bpb, d, dirCluster);
    var read := ReadChain(fs, dirCluster);
    if read.Err? {
      return Err("Sector read failed");
    }
    var chain := read.value;
    var clusterSize := fs.bpb.ClusterSize();
    var entriesPerCluster := clusterSize / 32;
    ghost var slots, base := Slots(v.data, chain), 0;
    NoSlots(v.data, chain[..0]);
    for ci := 0 to |chain|
      invariant fs.device.sectors == d
      invariant base == |Slots(v.data, chain[..ci])|
      invariant FindFrom(slots, 0, nameUpper) == FindFrom(slots, base, nameUpper)
    {
      var clusterBuf := ReadCluster(fs, chain[ci], clusterSize);
      if clusterBuf.Err? {
        return Err("Sector read failed");
      }
      assert clusterBuf.value == v.data[chain[ci]];
      for i := 0 to entriesPerCluster
        invariant fs.device.sectors == d
        invariant FindFrom(slots, 0, nameUpper) == FindFrom(slots, base + i, nameUpper)
      {
        SlotIndex(v.data, chain, ci, i);
        FindStep(slots, base + i, nameUpper);
        var entry := SlotAt(clusterBuf.value, i);
        if IsEnd(entry) {
          return Err("File not found");
        }
        if IsDeleted(entry) || IsLongName(entry) || IsVolumeLabel(entry) {
          continue;
        }
        var entryName := ComputeFullNameUpper(entry);
        if entryName == nameUpper {
          var removed := entry;
          var w := WriteSlot(fs, chain, ci, chain[ci], clusterBuf.value, i, entry[0 := DELETED]);
          if w.Err? {
            return Err("Sector write failed");
          }
          return Ok(removed);
        }
      }
      NextBase(v, chain, ci);
      base := base + entriesPerCluster;
    }
    Whole(chain);
    r := Err("File not found");
  }
}
