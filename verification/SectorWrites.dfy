// What the two kinds of sector write do to the volume: a FAT word goes to every FAT copy, a
// cluster's bytes go to its own sectors, and neither touches anything else.
module SectorWrites {
  import opened Wrappers
  import opened Bytes
  import opened Bpb
  import opened Device

  /** All FAT copies hold the same sectors. */
  ghost predicate Mirrored(b: Fat32Bpb, d: seq<Sector>)
    requires b.WellFormed(|d|)
  {
    forall k: nat, off: nat :: k < b.numFats && off < b.fatSize ==> SameAsFirst(b, d, k, off)
  }

  ghost predicate SameAsFirst(b: Fat32Bpb, d: seq<Sector>, k: nat, off: nat)
    requires b.WellFormed(|d|) && k < b.numFats && off < b.fatSize
  {
    b.FatSectorInside(|d|, k, off);
    b.FatSectorInside(|d|, 0, off);
    d[b.FatSector(k, off)] == d[b.FatSector(0, off)]
  }

  /** What no operation of the file system may disturb: the sectors before the FAT, the agreement
      of the FAT copies, and the four reserved bits of every FAT word. */
  ghost predicate Kept(b: Fat32Bpb, d: seq<Sector>, d': seq<Sector>)
    requires b.WellFormed(|d|)
  {
    FatFits(b, |d|);
    && |d'| == |d|
    && (forall s :: 0 <= s < b.FatStart() ==> d'[s] == d[s])
    && (Mirrored(b, d) ==> Mirrored(b, d'))
    && (forall c: nat :: c < b.fatSize * EPS ==> TopBits(b, d', c) == TopBits(b, d, c))
  }

  ghost function TopBits(b: Fat32Bpb, d: seq<Sector>, c: nat): nat
    requires b.FatStart() + c / EPS < |d|
  {
    Word(b, d, c) / LOW28
  }

  lemma KeptTransitive(b: Fat32Bpb, d: seq<Sector>, d': seq<Sector>, d'': seq<Sector>)
    requires b.WellFormed(|d|) && Kept(b, d, d') && Kept(b, d', d'')
    ensures Kept(b, d, d'')
  {
    FatFits(b, |d|);
  }

  // -- FAT words --------------------------------------------------------------------------------------

  /** The copies loop of `write_fat_entry`: sector `off` of the first `k` FAT copies becomes `buf`. */
  ghost function PatchFats(b: Fat32Bpb, d: seq<Sector>, off: nat, buf: Sector, k: nat): (r: seq<Sector>)
    requires b.WellFormed(|d|) && off < b.fatSize && k <= b.numFats
    ensures |r| == |d|
  {
    if k == 0 then d
    else
      b.FatSectorInside(|d|, k - 1, off);
      PatchFats(b, d, off, buf, k - 1)[b.FatSector(k - 1, off) := buf]
  }

  lemma {:induction false} PatchedOutside(b: Fat32Bpb, d: seq<Sector>, off: nat, buf: Sector, k: nat, s: nat)
    requires b.WellFormed(|d|) && off < b.fatSize && k <= b.numFats
    requires s < b.FatStart() || b.DataStart() <= s < |d|
    ensures b.FatStart() <= |d|
    ensures PatchFats(b, d, off, buf, k)[s] == d[s]
  {
    FatFits(b, |d|);
    if k > 0 {
      b.FatSectorInside(|d|, k - 1, off);
      PatchedOutside(b, d, off, buf, k - 1, s);
    }
  }

  lemma {:induction false} PatchedInside(b: Fat32Bpb, d: seq<Sector>, off: nat, buf: Sector, k: nat, j: nat, o: nat)
    requires b.WellFormed(|d|) && off < b.fatSize && k <= b.numFats && j < b.numFats && o < b.fatSize
    ensures b.FatSector(j, o) < |d|
    ensures PatchFats(b, d, off, buf, k)[b.FatSector(j, o)] == if o == off && j < k then buf else d[b.FatSector(j, o)]
  {
    b.FatSectorInside(|d|, j, o);
    if k > 0 {
      PatchedInside(b, d, off, buf, k - 1, j, o);
      b.FatSectorInside(|d|, k - 1, off);
      if (j, o) != (k - 1, off) {
        b.FatSectorsDistinct(j, o, k - 1, off);
      }
    }
  }

  /** The word `write_fat_entry` stores: the value below the reserved bits already there. */
  function MergeWord(existing: nat, value: nat): (w: nat)
    requires existing < 0x1_0000_0000
    ensures w < 0x1_0000_0000 && w % LOW28 == value % LOW28 && w / LOW28 == existing / LOW28
  {
    existing / LOW28 * LOW28 + value % LOW28
  }

  /** The FAT sector holding cluster `c`'s word, with that word replaced. */
  ghost function PatchedSector(b: Fat32Bpb, d: seq<Sector>, c: nat, value: nat): Sector
    requires b.FatStart() + c / EPS < |d|
  {
    Splice(d[b.FatStart() + c / EPS], c % EPS * 4, Le32(MergeWord(Word(b, d, c), value)))
  }

  /** The sectors after `write_fat_entry`. */
  ghost function WithFatWord(b: Fat32Bpb, d: seq<Sector>, c: nat, value: nat): (r: seq<Sector>)
    requires b.WellFormed(|d|) && c < b.fatSize * EPS
    ensures |r| == |d|
  {
    FatFits(b, |d|);
    PatchFats(b, d, c / EPS, PatchedSector(b, d, c, value), b.numFats)
  }

  /** Every word of the table but the one written stays as it was, all 32 bits of it. */
  lemma WordAfterWrite(b: Fat32Bpb, d: seq<Sector>, c: nat, value: nat, x: nat)
    requires b.WellFormed(|d|) && c < b.fatSize * EPS && x < b.fatSize * EPS
    ensures b.FatStart() + b.fatSize <= |d|
    ensures Word(b, WithFatWord(b, d, c, value), x)
            == if x == c then MergeWord(Word(b, d, c), value) else Word(b, d, x)
  {
    FatFits(b, |d|);
    var buf := PatchedSector(b, d, c, value);
    PatchedInside(b, d, c / EPS, buf, b.numFats, 0, x / EPS);
    assert b.FatSector(0, x / EPS) == b.FatStart() + x / EPS;
    Le32Splice(d[b.FatStart() + c / EPS], c % EPS * 4, MergeWord(Word(b, d, c), value), x % EPS * 4);
  }

  lemma FatWordMirrored(b: Fat32Bpb, d: seq<Sector>, c: nat, value: nat)
    requires b.WellFormed(|d|) && c < b.fatSize * EPS && Mirrored(b, d)
    ensures Mirrored(b, WithFatWord(b, d, c, value))
  {
    FatFits(b, |d|);
    var buf := PatchedSector(b, d, c, value);
    forall k: nat, off: nat | k < b.numFats && off < b.fatSize
      ensures SameAsFirst(b, WithFatWord(b, d, c, value), k, off)
    {
      assert SameAsFirst(b, d, k, off);
      PatchedInside(b, d, c / EPS, buf, b.numFats, k, off);
      PatchedInside(b, d, c / EPS, buf, b.numFats, 0, off);
    }
  }

  lemma FatWordKeeps(b: Fat32Bpb, d: seq<Sector>, c: nat, value: nat)
    requires b.WellFormed(|d|) && c < b.fatSize * EPS
    ensures Kept(b, d, WithFatWord(b, d, c, value))
  {
    FatFits(b, |d|);
    var d' := WithFatWord(b, d, c, value);
    forall s | 0 <= s < b.FatStart()
      ensures d'[s] == d[s]
    {
      PatchedOutside(b, d, c / EPS, PatchedSector(b, d, c, value), b.numFats, s);
    }
    forall x: nat | x < b.fatSize * EPS
      ensures TopBits(b, d', x) == TopBits(b, d, x)
    {
      WordAfterWrite(b, d, c, value, x);
    }
    if Mirrored(b, d) {
      FatWordMirrored(b, d, c, value);
    }
  }

  /** The bytes of a cluster depend on its own sectors only. */
  lemma BlockFrame(b: Fat32Bpb, d: seq<Sector>, d': seq<Sector>, c: nat)
    requires c >= 2 && b.ClusterToSector(c) + b.sectorsPerCluster <= |d| == |d'|
    requires forall s :: b.ClusterToSector(c) <= s < b.ClusterToSector(c) + b.sectorsPerCluster ==> d'[s] == d[s]
    ensures Block(b, d', c) == Block(b, d, c)
  {
    forall i | 0 <= i < b.ClusterSize()
      ensures Block(b, d', c)[i] == Block(b, d, c)[i]
    {
      assert b.ClusterToSector(c) + i / SECTOR < b.ClusterToSector(c) + b.sectorsPerCluster;
    }
  }

  /** `write_fat_entry` changes one word of the table and no cluster's bytes. */
  lemma FatWordAbs(b: Fat32Bpb, d: seq<Sector>, c: nat, value: nat)
    requires b.WellFormed(|d|) && c < b.MaxCluster() + 2
    ensures var v := Abs(b, d);
            Abs(b, WithFatWord(b, d, c, value)) == v.(fat := v.fat[c := value % LOW28])
  {
    FatFits(b, |d|);
    var d', n := WithFatWord(b, d, c, value), b.MaxCluster() + 2;
    var v, v' := Abs(b, d), Abs(b, d');
    forall x: nat | x < n
      ensures v'.fat[x] == v.fat[c := value % LOW28][x]
    {
      WordAfterWrite(b, d, c, value, x);
    }
    assert v'.fat == v.fat[c := value % LOW28];
    forall x: nat | x < n
      ensures v'.data[x] == v.data[x]
    {
      if x >= 2 {
        b.ClusterInside(|d|, x);
        forall s | b.ClusterToSector(x) <= s < b.ClusterToSector(x) + b.sectorsPerCluster
          ensures d'[s] == d[s]
        {
          PatchedOutside(b, d, c / EPS, PatchedSector(b, d, c, value), b.numFats, s);
        }
        BlockFrame(b, d, d', x);
      }
    }
    assert v'.data == v.data;
  }

  // -- Cluster bytes -----------------------------------------------------------------------------------

  /** The `i`-th sector's worth of a buffer. */
  function BufSector(buf: seq<byte>, i: nat): Sector
    requires (i + 1) * SECTOR <= |buf|
  {
    buf[i * SECTOR..(i + 1) * SECTOR]
  }

  ghost function SectorAfter(d: seq<Sector>, first: nat, buf: seq<byte>, k: nat, s: nat): Sector
    requires s < |d| && k * SECTOR <= |buf|
  {
    if first <= s < first + k then BufSector(buf, s - first) else d[s]
  }

  /** The sectors after the first `k` sectors of cluster `c` have been written from `buf`. */
  ghost function WithCluster(b: Fat32Bpb, d: seq<Sector>, c: nat, buf: seq<byte>, k: nat): (r: seq<Sector>)
    requires c >= 2 && k * SECTOR <= |buf|
    ensures |r| == |d|
    ensures forall s :: 0 <= s < |d| ==>
              r[s] == if b.ClusterToSector(c) <= s < b.ClusterToSector(c) + k
                      then BufSector(buf, s - b.ClusterToSector(c)) else d[s]
  {
    seq(|d|, s requires 0 <= s < |d| => SectorAfter(d, b.ClusterToSector(c), buf, k, s))
  }

  lemma KeptBelowData(b: Fat32Bpb, d: seq<Sector>, d': seq<Sector>)
    requires b.WellFormed(|d|) && |d'| == |d|
    requires forall s :: 0 <= s < b.DataStart() ==> d'[s] == d[s]
    ensures Kept(b, d, d')
  {
    hide TopBits;
    FatFits(b, |d|);
    if Mirrored(b, d) {
      forall j: nat, off: nat | j < b.numFats && off < b.fatSize
        ensures SameAsFirst(b, d', j, off)
      {
        assert SameAsFirst(b, d, j, off);
        b.FatSectorInside(|d|, j, off);
        b.FatSectorInside(|d|, 0, off);
      }
    }
    forall x: nat | x < b.fatSize * EPS
      ensures TopBits(b, d', x) == TopBits(b, d, x)
    {
      b.FatSectorInside(|d|, 0, x / EPS);
      TopBitsFrame(b, d, d', x);
    }
  }

  lemma TopBitsFrame(b: Fat32Bpb, d: seq<Sector>, d': seq<Sector>, x: nat)
    requires b.FatStart() + x / EPS < |d| == |d'| && d'[b.FatStart() + x / EPS] == d[b.FatStart() + x / EPS]
    ensures TopBits(b, d', x) == TopBits(b, d, x)
  {
  }

  lemma ClusterKeeps(b: Fat32Bpb, d: seq<Sector>, c: nat, buf: seq<byte>, k: nat)
    requires b.WellFormed(|d|) && 2 <= c < b.MaxCluster() + 2 && k <= b.sectorsPerCluster && k * SECTOR <= |buf|
    ensures Kept(b, d, WithCluster(b, d, c, buf, k))
  {
    b.ClusterInside(|d|, c);
    KeptBelowData(b, d, WithCluster(b, d, c, buf, k));
  }

  /** `write_cluster` changes one cluster's bytes and no word of the table. */
  lemma ClusterAbs(b: Fat32Bpb, d: seq<Sector>, c: nat, buf: seq<byte>)
    requires b.WellFormed(|d|) && 2 <= c < b.MaxCluster() + 2 && b.ClusterSize() <= |buf|
    ensures var v := Abs(b, d);
            Abs(b, WithCluster(b, d, c, buf, b.sectorsPerCluster)) == v.(data := v.data[c := buf[..b.ClusterSize()]])
  {
    FatFits(b, |d|);
    b.ClusterInside(|d|, c);
    var d', n := WithCluster(b, d, c, buf, b.sectorsPerCluster), b.MaxCluster() + 2;
    var v, v' := Abs(b, d), Abs(b, d');
    forall x: nat | x < n
      ensures v'.fat[x] == v.fat[x]
    {
      b.FatSectorInside(|d|, 0, x / EPS);
    }
    assert v'.fat == v.fat;
    forall x: nat | x < n
      ensures v'.data[x] == v.data[c := buf[..b.ClusterSize()]][x]
    {
      if x == c {
        WrittenBlock(b, d, c, buf);
      } else if x >= 2 {
        b.ClusterInside(|d|, x);
        if x < c { b.ClustersDisjoint(x, c); } else { b.ClustersDisjoint(c, x); }
        BlockFrame(b, d, d', x);
      }
    }
    assert v'.data == v.data[c := buf[..b.ClusterSize()]];
  }

  lemma WrittenBlock(b: Fat32Bpb, d: seq<Sector>, c: nat, buf: seq<byte>)
    requires c >= 2 && b.ClusterToSector(c) + b.sectorsPerCluster <= |d| && b.ClusterSize() <= |buf|
    ensures Block(b, WithCluster(b, d, c, buf, b.sectorsPerCluster), c) == buf[..b.ClusterSize()]
  {
    var d' := WithCluster(b, d, c, buf, b.sectorsPerCluster);
    forall i | 0 <= i < b.ClusterSize()
      ensures Block(b, d', c)[i] == buf[i]
    {
      var q := i / SECTOR;
      assert d'[b.ClusterToSector(c) + q] == BufSector(buf, q);
    }
  }
}
