// kernel/src/fs/fat32/fat.rs, and the cluster I/O it needs from kernel/src/fs/fat32/mod.rs.
module Fat {
  import opened Wrappers
  import opened Bytes
  import opened Chains
  import opened Volumes
  import opened Bpb
  import opened Device
  import opened SectorWrites

  // -- Cluster I/O ---------------------------------------------------------------------------------

  method ReadCluster(fs: Fat32Fs, cluster: nat, size: nat) returns (r: Result<seq<byte>, string>)
    requires fs.Valid() && 2 <= cluster < |fs.Vol().fat|
    ensures size < fs.bpb.ClusterSize() ==> r == Err("Buffer too small for cluster")
    ensures size >= fs.bpb.ClusterSize() ==> r == Ok(fs.Vol().data[cluster] + Zeros(size - fs.bpb.ClusterSize()))
  {
    var clusterSize := fs.bpb.ClusterSize();
    if size < clusterSize {
      return Err("Buffer too small for cluster");
    }
    var buf := Zeros(size);
    var sector := fs.bpb.ClusterToSector(cluster);
    fs.bpb.ClusterInside(|fs.device.sectors|, cluster);
    ghost var block := Block(fs.bpb, fs.device.sectors, cluster);
    for i := 0 to fs.bpb.sectorsPerCluster
      invariant |buf| == size
      invariant forall j :: 0 <= j < i * SECTOR ==> buf[j] == block[j]
      invariant forall j :: clusterSize <= j < size ==> buf[j] == 0
    {
      var offset := i * SECTOR;
      var data := fs.device.ReadSector(sector + i);
      if data.Err? {
        return Err("Sector read failed");
      }
      forall j | offset <= j < offset + SECTOR
        ensures block[j] == data.value[j - offset]
      {
        assert j / SECTOR == i && j % SECTOR == j - offset;
      }
      buf := Splice(buf, offset, data.value);
    }
    assert buf == block + Zeros(size - clusterSize);
    r := Ok(buf);
  }

  method WriteCluster(fs: Fat32Fs, cluster: nat, buf: seq<byte>) returns (r: Result<(), string>)
    requires fs.Valid() && 2 <= cluster < |fs.Vol().fat|
    modifies fs.device
    ensures fs.Valid() && Kept(fs.bpb, old(fs.device.sectors), fs.device.sectors)
    ensures r.Ok? <==> |buf| >= fs.bpb.ClusterSize()
    ensures fs.Vol() == if r.Ok? then old(fs.Vol()).(data := old(fs.Vol()).data[cluster := buf[..fs.bpb.ClusterSize()]])
                        else old(fs.Vol())
  {
    var clusterSize := fs.bpb.ClusterSize();
    ghost var d := fs.device.sectors;
    KeptBelowData(fs.bpb, d, d);
    if |buf| < clusterSize {
      return Err("Buffer too small for cluster");
    }
    var sector := fs.bpb.ClusterToSector(cluster);
    fs.bpb.ClusterInside(|d|, cluster);
    for i := 0 to fs.bpb.sectorsPerCluster
      invariant fs.device.sectors == WithCluster(fs.bpb, d, cluster, buf, i)
    {
      var offset := i * SECTOR;
      var w := fs.device.WriteSector(sector + i, buf[offset..offset + SECTOR]);
      assert fs.device.sectors == WithCluster(fs.bpb, d, cluster, buf, i + 1);
      if w.Err? {
        return Err("Sector write failed");
      }
    }
    ClusterKeeps(fs.bpb, d, cluster, buf, fs.bpb.sectorsPerCluster);
    ClusterAbs(fs.bpb, d, cluster, buf);
    r := Ok(());
  }

  // -- FAT words --------------------------------------------------------------------------------------

  /** Any cluster number may be asked for; those past the table read whatever the device holds there. */
  method ReadFatEntry(fs: Fat32Fs, cluster: nat) returns (r: Result<nat, string>)
    requires fs.Valid()
    ensures fs.bpb.FatStart() <= |fs.device.sectors|
    ensures var words := Words(fs.bpb, fs.device.sectors);
            r == if cluster < |words| then Ok(words[cluster]) else Err("Sector read failed")
  {
    FatFits(fs.bpb, |fs.device.sectors|);
    var eps := SECTOR / 4;
    var fatSector := cluster / eps;
    var fatOffset := cluster % eps * 4;
    var buf := fs.device.ReadSector(fs.bpb.FatStart() + fatSector);
    if buf.Err? {
      return Err("Sector read failed");
    }
    var value := GetLe32(buf.value, fatOffset);
    r := Ok(value % LOW28);
  }

  method WriteFatEntry(fs: Fat32Fs, cluster: nat, value: nat) returns (r: Result<(), string>)
    requires fs.Valid() && cluster < fs.bpb.fatSize * EPS
    modifies fs.device
    ensures fs.Valid() && Kept(fs.bpb, old(fs.device.sectors), fs.device.sectors)
    ensures r.Ok?
    ensures fs.device.sectors == WithFatWord(fs.bpb, old(fs.device.sectors), cluster, value)
    ensures cluster < |fs.Vol().fat| ==>
              fs.Vol() == old(fs.Vol()).(fat := old(fs.Vol()).fat[cluster := value % LOW28])
  {
    hide Abs, Kept;
    ghost var d := fs.device.sectors;
    FatFits(fs.bpb, |d|);
    var eps := SECTOR / 4;
    var fatSector := cluster / eps;
    var fatOffset := cluster % eps * 4;
    var read := fs.device.ReadSector(fs.bpb.FatStart() + fatSector);
    if read.Err? {
      return Err("Sector read failed");
    }
    var buf := read.value;
    var existing := GetLe32(buf, fatOffset);
    var newVal := MergeWord(existing, value);
    buf := Splice(buf, fatOffset, Le32(newVal));
    for copy := 0 to fs.bpb.numFats
      invariant fs.device.sectors == PatchFats(fs.bpb, d, fatSector, buf, copy)
    {
      fs.bpb.FatSectorInside(|d|, copy, fatSector);
      var sector := fs.bpb.FatSector(copy, fatSector);
      var w := fs.device.WriteSector(sector, buf);
      if w.Err? {
        return w;
      }
    }
    FatWordKeeps(fs.bpb, d, cluster, value);
    if cluster < fs.bpb.MaxCluster() + 2 {
      FatWordAbs(fs.bpb, d, cluster, value);
    }
    r := Ok(());
  }

  // -- Chains -------------------------------------------------------------------------------------------

  /** On every FAT content, damaged or not, this is the walk described by `Chains.Walked`. */
  method ReadChain(fs: Fat32Fs, startCluster: nat) returns (r: Result<seq<nat>, string>)
    requires fs.Valid()
    ensures fs.bpb.FatStart() <= |fs.device.sectors|
    ensures r == Follow(Words(fs.bpb, fs.device.sectors), [], startCluster)
  {
    hide Abs, Word;
    FatFits(fs.bpb, |fs.device.sectors|);
    ghost var words := Words(fs.bpb, fs.device.sectors);
    var chain: seq<nat> := [];
    var current: nat := startCluster;
    while true
      invariant |chain| < MAX_CHAIN
      invariant Follow(words, chain, current) == Follow(words, [], startCluster)
      decreases MAX_CHAIN - |chain|
    {
      if current < 2 {
        break;
      }
      chain := chain + [current];
      var entry := ReadFatEntry(fs, current);
      if entry.Err? {
        return Err("Sector read failed");
      }
      var next := entry.value;
      if next >= EOC || next == BAD || next == 0 {
        break;
      }
      if next < 2 || next == current {
        break;
      }
      if next in chain {
        break;
      }
      current := next;
      if |chain| > 100000 {
        break;
      }
    }
    r := Ok(chain);
  }

  /** A walk that stays inside the table is the one the volume's table gives. */
  lemma ReadableWords(b: Fat32Bpb, d: seq<Sector>, start: nat)
    requires b.WellFormed(|d|) && Readable(Abs(b, d).fat, start)
    ensures b.FatStart() <= |d|
    ensures Follow(Words(b, d), [], start) == Ok(ChainOf(Abs(b, d).fat, start))
  {
    FatFits(b, |d|);
    FollowPrefix(Abs(b, d).fat, Words(b, d), [], start);
  }

  /** Frees exactly the clusters `read_chain` returns, on damaged tables too. */
  method FreeChain(fs: Fat32Fs, startCluster: nat) returns (r: Result<(), string>)
    requires fs.Valid() && Readable(fs.Vol().fat, startCluster)
    modifies fs.device
    ensures fs.Valid() && Kept(fs.bpb, old(fs.device.sectors), fs.device.sectors)
    ensures r.Ok?
    ensures InRange(ChainOf(old(fs.Vol()).fat, startCluster), |old(fs.Vol()).fat|)
    ensures fs.Vol() == old(fs.Vol()).(fat := Free(old(fs.Vol()).fat, ChainOf(old(fs.Vol()).fat, startCluster)))
  {
    hide Abs, Word, Words, Kept, Follow, WithFatWord;
    ghost var v, d := fs.Vol(), fs.device.sectors;
    ReadableWalk(v.fat, startCluster);
    ReadableWords(fs.bpb, d, startCluster);
    KeptBelowData(fs.bpb, d, d);
    var read := ReadChain(fs, startCluster);
    if read.Err? {
      return Err("Sector read failed");
    }
    var chain := read.value;
    for i := 0 to |chain|
      invariant fs.Valid() && Kept(fs.bpb, d, fs.device.sectors)
      invariant fs.Vol() == v.(fat := Free(v.fat, chain[..i]))
    {
      ghost var before := fs.device.sectors;
      var w := WriteFatEntry(fs, chain[i], FREE);
      KeptTransitive(fs.bpb, d, before, fs.device.sectors);
      assert chain[..i + 1][..i] == chain[..i];
      if w.Err? {
        return w;
      }
    }
    assert chain[..|chain|] == chain;
    r := Ok(());
  }

  lemma FatIsWords(b: Fat32Bpb, d: seq<Sector>, c: nat)
    requires b.WellFormed(|d|) && c < |Abs(b, d).fat|
    ensures b.FatStart() <= |d| && c < |Words(b, d)| && Words(b, d)[c] == Abs(b, d).fat[c]
  {
    FatFits(b, |d|);
  }

  lemma FirstFreeStep(fat: seq<nat>, c: nat)
    ensures FirstFree(fat, c) == if c >= |fat| then None else if fat[c] == FREE then Some(c) else FirstFree(fat, c + 1)
  {
  }

  /** Returns the lowest free cluster, zeroed, WITHOUT marking it used. */
  method AllocCluster(fs: Fat32Fs) returns (r: Result<nat, string>)
    requires fs.Valid()
    modifies fs.device
    ensures fs.Valid() && Kept(fs.bpb, old(fs.device.sectors), fs.device.sectors)
    ensures var alloc := LowestFree(old(fs.Vol()).fat);
            && r.Ok? == alloc.Ok?
            && (r.Ok? ==> r.value == alloc.value)
            && fs.Vol()
               == if r.Ok? then old(fs.Vol()).(data := old(fs.Vol()).data[r.value := Zeros(fs.bpb.ClusterSize())])
                  else old(fs.Vol())
  {
    hide Abs, Words, Kept, FirstFree;
    ghost var v := fs.Vol();
    KeptBelowData(fs.bpb, fs.device.sectors, fs.device.sectors);
    FatFits(fs.bpb, |fs.device.sectors|);
    var dataSectors := if fs.bpb.totalSectors < fs.bpb.DataStart() then 0 else fs.bpb.totalSectors - fs.bpb.DataStart();
    if dataSectors == 0 {
      return Err("No data sectors");
    }
    var maxCluster := fs.bpb.MaxCluster();
    if maxCluster < 2 {
      return Err("No clusters available");
    }
    for cluster := 2 to maxCluster + 2
      invariant fs.Valid() && fs.Vol() == v && fs.device.sectors == old(fs.device.sectors)
      invariant FirstFree(v.fat, 2) == FirstFree(v.fat, cluster)
    {
      FatIsWords(fs.bpb, fs.device.sectors, cluster);
      FirstFreeStep(v.fat, cluster);
      var val := ReadFatEntry(fs, cluster);
      if val.Err? {
        return Err("Sector read failed");
      }
      if val.value == FREE {
        var clusterBuf := Zeros(fs.bpb.ClusterSize());
        assert clusterBuf[..fs.bpb.ClusterSize()] == clusterBuf;
        var w := WriteCluster(fs, cluster, clusterBuf);
        if w.Err? {
          return Err("Sector write failed");
        }
        return Ok(cluster);
      }
    }
    FirstFreeStep(v.fat, maxCluster + 2);
    r := Err("No free clusters");
  }
}
