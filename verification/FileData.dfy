// The file operations of kernel/src/fs/fat32/mod.rs.
module FileData {
  import opened Wrappers
  import opened Bytes
  import opened Multiples
  import opened Chains
  import opened Volumes
  import opened Bpb
  import opened Device
  import opened SectorWrites
  import opened Fat

  function Min(a: nat, b: nat): nat { if a < b then a else b }

  lemma {:induction false} ContentPrefix(data: seq<seq<byte>>, cs: seq<nat>, k: nat)
    requires InRange(cs, |data|) && k <= |cs|
    ensures Content(data, cs[..k]) <= Content(data, cs)
    decreases |cs|
  {
    if k == |cs| {
      assert cs[..k] == cs;
    } else {
      assert cs[..|cs| - 1][..k] == cs[..k];
      ContentPrefix(data, cs[..|cs| - 1], k);
    }
  }

  /** A buffer filled with as much of `content` as the size and the buffer allow. */
  function Filled(buf: seq<byte>, content: seq<byte>, size: nat): (r: seq<byte>)
    ensures |r| == |buf|
    ensures forall i :: 0 <= i < |r| ==> r[i] == if i < size && i < |content| then content[i] else buf[i]
  {
    var n := Min(Min(size, |buf|), |content|);
    content[..n] + buf[n..]
  }

  lemma FillStep(buf: seq<byte>, done: seq<byte>, block: seq<byte>, size: nat, toCopy: nat)
    requires |done| < size && |done| < |buf|
    requires toCopy == Min(Min(size - |done|, |block|), |buf| - |done|)
    ensures Splice(Filled(buf, done, size), |done|, block[..toCopy]) == Filled(buf, done + block, size)
    ensures |done| + toCopy == Min(Min(size, |buf|), |done + block|)
  {
  }

  lemma FillFull(buf: seq<byte>, done: seq<byte>, content: seq<byte>, size: nat)
    requires done <= content
    requires size <= |done| || |buf| <= |done|
    ensures Filled(buf, done, size) == Filled(buf, content, size)
  {
  }

  /** `read_file`: the chain's bytes, as many as the size, the buffer and the chain allow. */
  method ReadFile(fs: Fat32Fs, startCluster: nat, size: nat, buf: seq<byte>)
    returns (r: Result<nat, string>, out: seq<byte>)
    requires fs.Valid() && Readable(fs.Vol().fat, startCluster)
    ensures r.Ok? && InRange(ChainOf(fs.Vol().fat, startCluster), |fs.Vol().data|)
    ensures var content := Content(fs.Vol().data, ChainOf(fs.Vol().fat, startCluster));
            r.value == Min(Min(size, |buf|), |content|) && out == Filled(buf, content, size)
  {
    hide Abs, Words, Content, Follow, Filled;
    ghost var v := fs.Vol();
    ReadableWalk(v.fat, startCluster);
    ReadableWords(fs.bpb, fs.device.sectors, startCluster);
    out := buf;
    var read := ReadChain(fs, startCluster);
    if read.Err? {
      return Err("Sector read failed"), out;
    }
    var chain := read.value;
    var clusterSize := fs.bpb.ClusterSize();
    var offset, remaining := 0, size;
    ContentEmpty(v.data, chain[..0]);
    FilledEmpty(buf, size);
    for i := 0 to |chain|
      invariant var done := Content(v.data, chain[..i]);
                && offset == Min(Min(size, |buf|), |done|) && remaining == size - offset
                && |out| == |buf| && out == Filled(buf, done, size)
    {
      ghost var done := Content(v.data, chain[..i]);
      if remaining == 0 || offset >= |out| {
        ContentPrefix(v.data, chain, i);
        FillFull(buf, done, Content(v.data, chain), size);
        return Ok(offset), out;
      }
      var clusterBuf := ReadCluster(fs, chain[i], clusterSize);
      if clusterBuf.Err? {
        return Err("Sector read failed"), out;
      }
      assert clusterBuf.value == v.data[chain[i]];
      var toCopy := Min(Min(remaining, clusterSize), |out| - offset);
      FillStep(buf, done, v.data[chain[i]], size, toCopy);
      out := Splice(out, offset, clusterBuf.value[..toCopy]);
      offset := offset + toCopy;
      remaining := remaining - toCopy;
      assert chain[..i] + [chain[i]] == chain[..i + 1];
      ContentSnoc(v.data, chain[..i], chain[i]);
    }
    assert chain[..|chain|] == chain;
    r := Ok(offset);
  }

  lemma ContentEmpty(data: seq<seq<byte>>, cs: seq<nat>)
    requires cs == []
    ensures Content(data, cs) == []
  {
  }

  lemma FilledEmpty(buf: seq<byte>, size: nat)
    ensures Filled(buf, [], size) == buf
  {
  }

  /** One step of the data loop. */
  lemma StoreStep(data: seq<seq<byte>>, csz: nat, clusters: seq<nat>, i: nat, payload: seq<byte>)
    requires InRange(clusters, |data|) && i < |clusters|
    ensures InRange(clusters[i..], |data|) && InRange(clusters[i + 1..], |data|)
    ensures Store(data, csz, clusters[i..], payload, Span(i, csz))
            == Store(data[clusters[i] := Window(payload, Span(i, csz), csz)], csz, clusters[i + 1..], payload,
                Span(i + 1, csz))
  {
    assert clusters[i..][1..] == clusters[i + 1..];
  }

  /** One step of the linking loop. */
  lemma LinkStep(fat: seq<nat>, clusters: seq<nat>, i: nat)
    requires InRange(clusters, |fat|) && i < |clusters|
    ensures InRange(clusters[i..], |fat|) && InRange(clusters[i + 1..], |fat|)
    ensures var next := if i + 1 < |clusters| then clusters[i + 1] else EOC;
            Link(fat, clusters[i..]) == Link(fat[clusters[i] := next], clusters[i + 1..])
  {
    assert clusters[i..][1..] == clusters[i + 1..];
  }

  /** The growth loop of `write_file_data`. */
  method GrowClusters(fs: Fat32Fs, existing: seq<nat>, needed: nat) returns (r: Result<seq<nat>, string>)
    requires fs.Valid() && |existing| < needed
    modifies fs.device
    ensures fs.Valid() && Kept(fs.bpb, old(fs.device.sectors), fs.device.sectors)
    ensures var alloc := LowestFree(old(fs.Vol()).fat);
            && r.Ok? == alloc.Ok?
            && (r.Ok? ==> r.value == existing + Copies(alloc.value, needed - |existing|))
            && fs.Vol()
               == if r.Ok? then old(fs.Vol()).(data := old(fs.Vol()).data[alloc.value := Zeros(fs.bpb.ClusterSize())])
                  else old(fs.Vol())
  {
    hide Abs, Words, Kept, FirstFree;
    ghost var d, v := fs.device.sectors, fs.Vol();
    ghost var alloc := LowestFree(v.fat);
    KeptBelowData(fs.bpb, d, d);
    var clusters := existing;
    while |clusters| < needed
      invariant |existing| <= |clusters| <= needed
      invariant fs.Valid() && Kept(fs.bpb, d, fs.device.sectors)
      invariant |clusters| > |existing| ==> alloc.Ok?
      invariant clusters == if alloc.Ok? then existing + Copies(alloc.value, |clusters| - |existing|) else existing
      invariant fs.Vol()
                == if |clusters| > |existing| then v.(data := v.data[alloc.value := Zeros(fs.bpb.ClusterSize())]) else v
    {
      ghost var before := fs.device.sectors;
      var newCluster := AllocCluster(fs);
      KeptTransitive(fs.bpb, d, before, fs.device.sectors);
      if newCluster.Err? {
        return Err(newCluster.error);
      }
      clusters := clusters + [newCluster.value];
    }
    r := Ok(clusters);
  }

  /** The data loop of `write_file_data`. */
  method StoreClusters(fs: Fat32Fs, clusters: seq<nat>, data: seq<byte>) returns (r: Result<(), string>)
    requires fs.Valid() && InRange(clusters, |fs.Vol().data|)
    modifies fs.device
    ensures fs.Valid() && Kept(fs.bpb, old(fs.device.sectors), fs.device.sectors)
    ensures r.Ok?
    ensures fs.Vol() == old(fs.Vol()).(data := Store(old(fs.Vol()).data, fs.bpb.ClusterSize(), clusters, data, 0))
  {
    hide Abs, Words, Kept, Store;
    var clusterSize := fs.bpb.ClusterSize();
    ghost var d, v := fs.device.sectors, fs.Vol();
    KeptBelowData(fs.bpb, d, d);
    assert clusters[0..] == clusters;
    for i := 0 to |clusters|
      invariant fs.Valid() && Kept(fs.bpb, d, fs.device.sectors)
      invariant |fs.Vol().data| == |v.data| && InRange(clusters[i..], |v.data|)
      invariant fs.Vol() == v.(data := fs.Vol().data)
      invariant Store(fs.Vol().data, clusterSize, clusters[i..], data, Span(i, clusterSize))
                == Store(v.data, clusterSize, clusters, data, 0)
    {
      ghost var before, now := fs.device.sectors, fs.Vol().data;
      var clusterBuf := Zeros(clusterSize);
      var byteOffset := i * clusterSize;
      SpanIsProduct(i, clusterSize);
      if byteOffset < |data| {
        var toCopy := Min(|data| - byteOffset, clusterSize);
        clusterBuf := Splice(clusterBuf, 0, data[byteOffset..byteOffset + toCopy]);
      }
      assert clusterBuf == Window(data, Span(i, clusterSize), clusterSize);
      assert clusterBuf[..clusterSize] == clusterBuf;
      StoreStep(now, clusterSize, clusters, i, data);
      var w := WriteCluster(fs, clusters[i], clusterBuf);
      KeptTransitive(fs.bpb, d, before, fs.device.sectors);
      if w.Err? {
        return w;
      }
    }
    StoreNothing(fs.Vol().data, clusterSize, clusters[|clusters|..], data, Span(|clusters|, clusterSize));
    r := Ok(());
  }

  lemma StoreNothing(data: seq<seq<byte>>, csz: nat, cs: seq<nat>, payload: seq<byte>, off: nat)
    requires cs == []
    ensures Store(data, csz, cs, payload, off) == data
  {
  }

  /** The linking loop of `write_file_data`. */
  method LinkClusters(fs: Fat32Fs, clusters: seq<nat>) returns (r: Result<(), string>)
    requires fs.Valid() && InRange(clusters, |fs.Vol().fat|)
    modifies fs.device
    ensures fs.Valid() && Kept(fs.bpb, old(fs.device.sectors), fs.device.sectors)
    ensures r.Ok?
    ensures fs.Vol() == old(fs.Vol()).(fat := Link(old(fs.Vol()).fat, clusters))
  {
    hide Abs, Words, Kept, Link, WithFatWord;
    ghost var d, v := fs.device.sectors, fs.Vol();
    KeptBelowData(fs.bpb, d, d);
    FatFits(fs.bpb, |d|);
    assert clusters[0..] == clusters;
    for i := 0 to |clusters|
      invariant fs.Valid() && Kept(fs.bpb, d, fs.device.sectors)
      invariant |fs.Vol().fat| == |v.fat| && InRange(clusters[i..], |v.fat|)
      invariant fs.Vol() == v.(fat := fs.Vol().fat)
      invariant Link(fs.Vol().fat, clusters[i..]) == Link(v.fat, clusters)
    {
      ghost var before, now := fs.device.sectors, fs.Vol().fat;
      var next := if i + 1 < |clusters| then clusters[i + 1] else EOC;
      LinkStep(now, clusters, i);
      var w := WriteFatEntry(fs, clusters[i], next);
      KeptTransitive(fs.bpb, d, before, fs.device.sectors);
      if w.Err? {
        return w;
      }
    }
    LinkNothing(fs.Vol().fat, clusters[|clusters|..]);
    r := Ok(());
  }

  lemma LinkNothing(fat: seq<nat>, cs: seq<nat>)
    requires cs == []
    ensures Link(fat, cs) == fat
  {
  }

  /** `write_file_data`. The chain is never shortened: `clusters` starts as the whole old chain, so
      the source's last step, freeing what lies beyond `clusters`, has nothing to free. */
  method WriteFileData(fs: Fat32Fs, startCluster: nat, data: seq<byte>) returns (r: Result<(), string>)
    requires fs.Valid() && Readable(fs.Vol().fat, startCluster)
    modifies fs.device
    ensures fs.Valid() && Kept(fs.bpb, old(fs.device.sectors), fs.device.sectors)
    ensures InRange(ChainOf(old(fs.Vol()).fat, startCluster), |old(fs.Vol()).fat|)
    ensures var spec := WriteClusters(old(fs.Vol()), ChainOf(old(fs.Vol()).fat, startCluster), data);
            r.Ok? == spec.1.Ok? && fs.Vol() == spec.0
  {
    hide Abs, Words, Kept, FirstFree, Store, Link, Follow, NoDup, Linked, Walked, Needed, Copies;
    ghost var d, v := fs.device.sectors, fs.Vol();
    var clusterSize := fs.bpb.ClusterSize();
    var clustersNeeded := if data == [] then 0 else (|data| + clusterSize - 1) / clusterSize;
    NeededIsDivision(|data|, clusterSize);
    ReadableWalk(v.fat, startCluster);
    ReadableWords(fs.bpb, d, startCluster);
    var read := ReadChain(fs, startCluster);
    if read.Err? {
      return Err("Sector read failed");
    }
    var existing := read.value;
    var clusters := existing;
    KeptBelowData(fs.bpb, d, d);
    if |clusters| < clustersNeeded {
      var grown := GrowClusters(fs, clusters, clustersNeeded);
      if grown.Err? {
        return Err(grown.error);
      }
      clusters := grown.value;
      CopiesInRange(existing, LowestFree(v.fat).value, clustersNeeded - |existing|, |v.fat|);
    }
    assert |clusters| >= |existing|;
    ghost var d1 := fs.device.sectors;
    r := StoreClusters(fs, clusters, data);
    KeptTransitive(fs.bpb, d, d1, fs.device.sectors);
    if r.Err? {
      return;
    }
    ghost var d2 := fs.device.sectors;
    r := LinkClusters(fs, clusters);
    KeptTransitive(fs.bpb, d, d2, fs.device.sectors);
  }

  lemma CopiesInRange(existing: seq<nat>, c: nat, k: nat, n: nat)
    requires InRange(existing, n) && 2 <= c < n
    ensures InRange(existing + Copies(c, k), n)
  {
  }

  method AllocateAndWrite(fs: Fat32Fs, data: seq<byte>) returns (r: Result<nat, string>)
    requires fs.Valid()
    modifies fs.device
    ensures fs.Valid() && Kept(fs.bpb, old(fs.device.sectors), fs.device.sectors)
    ensures var spec := WriteNewFile(old(fs.Vol()), data);
            r.Ok? == spec.1.Ok? && (r.Ok? ==> r.value == spec.1.value) && fs.Vol() == spec.0
  {
    hide Abs, Words, Kept, FirstFree, Store, Link, WithFatWord;
    ghost var d, v := fs.device.sectors, fs.Vol();
    FatFits(fs.bpb, |d|);
    r := AllocCluster(fs);
    if r.Err? {
      return;
    }
    var first := r.value;
    ghost var d1 := fs.device.sectors;
    var marked := WriteFatEntry(fs, first, EOC);
    KeptTransitive(fs.bpb, d, d1, fs.device.sectors);
    if marked.Err? {
      return Err("Sector write failed");
    }
    ghost var d2 := fs.device.sectors;
    assert fs.Vol() == WithNewCluster(v, first);
    if data != [] {
      ChainedIff(fs.Vol().fat, [first]);
      var w := WriteFileData(fs, first, data);
      KeptTransitive(fs.bpb, d, d2, fs.device.sectors);
      if w.Err? {
        return Err(w.error);
      }
    }
    r := Ok(first);
  }
}
