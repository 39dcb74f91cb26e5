// A disk image as one run of bytes, the way a host tool sees it, and the volume it holds.
module Images {
  import opened Bytes
  import opened Multiples
  import opened Volumes
  import opened Bpb
  import opened Device
  import opened SectorWrites

  /** The image cut into sectors, as the block device serves it. */
  function SectorsOf(img: seq<byte>): (d: seq<Sector>)
    ensures |d| == |img| / SECTOR
    ensures forall s :: 0 <= s < |d| ==> d[s] == img[SECTOR * s..SECTOR * s + SECTOR]
  {
    seq(|img| / SECTOR, s requires 0 <= s < |img| / SECTOR => img[SECTOR * s..SECTOR * s + SECTOR])
  }

  function WordOffset(b: Fat32Bpb, c: nat): nat { SECTOR * b.FatStart() + 4 * c }

  function BlockOffset(b: Fat32Bpb, c: nat): nat
    requires c >= 2
  {
    SECTOR * b.ClusterToSector(c)
  }

  lemma WordInside(b: Fat32Bpb, n: nat, c: nat)
    requires b.WellFormed(n) && c < b.fatSize * EPS
    ensures b.FatStart() + c / EPS < n
    ensures WordOffset(b, c) + 4 <= SECTOR * (b.FatStart() + b.fatSize) <= SECTOR * b.DataStart() <= SECTOR * n
  {
    FatFits(b, n);
    b.FatSectorInside(n, 0, b.fatSize - 1);
  }

  lemma BlockInside(b: Fat32Bpb, n: nat, c: nat)
    requires b.WellFormed(n) && 2 <= c < b.MaxCluster() + 2
    ensures SECTOR * b.DataStart() <= BlockOffset(b, c)
    ensures BlockOffset(b, c) + b.ClusterSize() <= SECTOR * n
  {
    b.ClusterInside(n, c);
  }

  lemma BlocksApart(b: Fat32Bpb, c: nat, c': nat)
    requires 2 <= c < c'
    ensures BlockOffset(b, c) + b.ClusterSize() <= BlockOffset(b, c')
  {
    b.ClustersDisjoint(c, c');
  }

  lemma ImageWord(b: Fat32Bpb, img: seq<byte>, c: nat)
    requires b.WellFormed(|img| / SECTOR) && c < b.fatSize * EPS
    ensures b.FatStart() + c / EPS < |img| / SECTOR && WordOffset(b, c) + 4 <= |img|
    ensures Word(b, SectorsOf(img), c) == GetLe32(img, WordOffset(b, c))
  {
    WordInside(b, |img| / SECTOR, c);
    var s := b.FatStart() + c / EPS;
    assert SECTOR * s + c % EPS * 4 == WordOffset(b, c);
    var off := c % EPS * 4;
    var sector := SectorsOf(img)[s];
    var at := WordOffset(b, c);
    assert sector[off] == img[at] && sector[off + 1] == img[at + 1];
    assert sector[off + 2] == img[at + 2] && sector[off + 3] == img[at + 3];
  }

  lemma ImageBlock(b: Fat32Bpb, img: seq<byte>, c: nat)
    requires b.WellFormed(|img| / SECTOR) && 2 <= c < b.MaxCluster() + 2
    ensures BlockOffset(b, c) + b.ClusterSize() <= |img|
    ensures Block(b, SectorsOf(img), c) == img[BlockOffset(b, c)..BlockOffset(b, c) + b.ClusterSize()]
  {
    var d, o := SectorsOf(img), BlockOffset(b, c);
    BlockInside(b, |img| / SECTOR, c);
    forall i | 0 <= i < b.ClusterSize()
      ensures Block(b, d, c)[i] == img[o + i]
    {
      b.ClusterInside(|d|, c);
      var s := b.ClusterToSector(c) + i / SECTOR;
      assert s < |d|;
      assert SECTOR * s + i % SECTOR == o + i;
    }
  }

  /** The volume the kernel sees on a device holding the image. */
  ghost function VolumeOf(b: Fat32Bpb, img: seq<byte>): (v: Volume)
    requires b.WellFormed(|img| / SECTOR)
    ensures v.Valid() && |v.fat| == b.MaxCluster() + 2 && v.csz == b.ClusterSize() && v.root == b.rootCluster
  {
    Abs(b, SectorsOf(img))
  }

  lemma VolumeWord(b: Fat32Bpb, img: seq<byte>, c: nat)
    requires b.WellFormed(|img| / SECTOR) && c < b.MaxCluster() + 2
    ensures WordOffset(b, c) + 4 <= |img|
    ensures VolumeOf(b, img).fat[c] == GetLe32(img, WordOffset(b, c)) % LOW28
  {
    ImageWord(b, img, c);
    FatFits(b, |img| / SECTOR);
  }

  lemma VolumeBlock(b: Fat32Bpb, img: seq<byte>, c: nat)
    requires b.WellFormed(|img| / SECTOR) && c < b.MaxCluster() + 2
    ensures c >= 2 ==> BlockOffset(b, c) + b.ClusterSize() <= |img|
    ensures VolumeOf(b, img).data[c]
            == if c < 2 then Zeros(b.ClusterSize()) else img[BlockOffset(b, c)..BlockOffset(b, c) + b.ClusterSize()]
  {
    if c >= 2 {
      ImageBlock(b, img, c);
    }
  }

  lemma SpliceWord(img: seq<byte>, off: nat, patch: seq<byte>, at: nat)
    requires off + |patch| <= |img| && at + 4 <= |img|
    requires at + 4 <= off || off + |patch| <= at
    ensures GetLe32(Splice(img, off, patch), at) == GetLe32(img, at)
  {
  }

  /** Overwriting bytes of one cluster changes that cluster and nothing else of the volume. */
  lemma BlockSplice(b: Fat32Bpb, img: seq<byte>, c: nat, off: nat, patch: seq<byte>)
    requires b.WellFormed(|img| / SECTOR) && 2 <= c < b.MaxCluster() + 2
    requires off + |patch| <= b.ClusterSize()
    ensures BlockOffset(b, c) + b.ClusterSize() <= |img|
    ensures var v := VolumeOf(b, img);
            VolumeOf(b, Splice(img, BlockOffset(b, c) + off, patch))
                == v.(data := v.data[c := Splice(v.data[c], off, patch)])
  {
    hide Abs, VolumeOf, Splice;
    BlockInside(b, |img| / SECTOR, c);
    var at := BlockOffset(b, c) + off;
    var img' := Splice(img, at, patch);
    var v, v', n := VolumeOf(b, img), VolumeOf(b, img'), b.MaxCluster() + 2;
    forall x: nat | x < n
      ensures v'.fat[x] == v.fat[x]
    {
      VolumeWord(b, img, x);
      VolumeWord(b, img', x);
      WordInside(b, |img| / SECTOR, x);
      SpliceWord(img, at, patch, WordOffset(b, x));
    }
    assert v'.fat == v.fat;
    forall x: nat | x < n
      ensures v'.data[x] == v.data[c := Splice(v.data[c], off, patch)][x]
    {
      VolumeBlock(b, img, x);
      VolumeBlock(b, img', x);
      if x >= 2 {
        BlockAfter(b, img, c, off, patch, x);
      }
    }
    assert v'.data == v.data[c := Splice(v.data[c], off, patch)];
  }

  lemma BlockAfter(b: Fat32Bpb, img: seq<byte>, c: nat, off: nat, patch: seq<byte>, x: nat)
    requires b.WellFormed(|img| / SECTOR) && 2 <= c < b.MaxCluster() + 2 && 2 <= x < b.MaxCluster() + 2
    requires off + |patch| <= b.ClusterSize()
    ensures BlockOffset(b, c) + b.ClusterSize() <= |img| && BlockOffset(b, x) + b.ClusterSize() <= |img|
    ensures var was := img[BlockOffset(b, x)..BlockOffset(b, x) + b.ClusterSize()];
            Splice(img, BlockOffset(b, c) + off, patch)[BlockOffset(b, x)..BlockOffset(b, x) + b.ClusterSize()]
            == if x == c then Splice(was, off, patch) else was
  {
    BlockInside(b, |img| / SECTOR, c);
    BlockInside(b, |img| / SECTOR, x);
    if x < c {
      BlocksApart(b, x, c);
    } else if c < x {
      BlocksApart(b, c, x);
    }
  }

  /** Overwriting bytes before the data area changes no cluster's bytes. */
  lemma FrontSplice(b: Fat32Bpb, img: seq<byte>, off: nat, patch: seq<byte>)
    requires b.WellFormed(|img| / SECTOR) && off + |patch| <= SECTOR * b.DataStart()
    ensures off + |patch| <= |img|
    ensures VolumeOf(b, Splice(img, off, patch)).data == VolumeOf(b, img).data
  {
    hide Abs, VolumeOf, Splice;
    var img' := Splice(img, off, patch);
    var v, v', n := VolumeOf(b, img), VolumeOf(b, img'), b.MaxCluster() + 2;
    forall x: nat | x < n
      ensures v'.data[x] == v.data[x]
    {
      VolumeBlock(b, img, x);
      VolumeBlock(b, img', x);
      if x >= 2 {
        BlockInside(b, |img| / SECTOR, x);
        SpliceSlice(img, off, patch, BlockOffset(b, x), BlockOffset(b, x) + b.ClusterSize());
      }
    }
  }

  /** Overwriting a word of the first FAT copy. */
  lemma StoreWord(b: Fat32Bpb, img: seq<byte>, c: nat, w: nat)
    requires b.WellFormed(|img| / SECTOR) && c < b.MaxCluster() + 2 && w < 0x1_0000_0000
    ensures WordOffset(b, c) + 4 <= |img|
    ensures var v := VolumeOf(b, img);
            VolumeOf(b, Splice(img, WordOffset(b, c), Le32(w))) == v.(fat := v.fat[c := w % LOW28])
  {
    hide Abs, VolumeOf, Splice;
    WordInside(b, |img| / SECTOR, c);
    FrontSplice(b, img, WordOffset(b, c), Le32(w));
    var img' := Splice(img, WordOffset(b, c), Le32(w));
    var v, v', n := VolumeOf(b, img), VolumeOf(b, img'), b.MaxCluster() + 2;
    forall x: nat | x < n
      ensures v'.fat[x] == v.fat[c := w % LOW28][x]
    {
      VolumeWord(b, img, x);
      VolumeWord(b, img', x);
      Le32Splice(img, WordOffset(b, c), w, WordOffset(b, x));
    }
    assert v'.fat == v.fat[c := w % LOW28];
  }

  /** Overwriting bytes between the first FAT copy and the data area changes nothing of the volume. */
  lemma BetweenSplice(b: Fat32Bpb, img: seq<byte>, off: nat, patch: seq<byte>)
    requires b.WellFormed(|img| / SECTOR)
    requires SECTOR * (b.FatStart() + b.fatSize) <= off && off + |patch| <= SECTOR * b.DataStart()
    ensures off + |patch| <= |img|
    ensures VolumeOf(b, Splice(img, off, patch)) == VolumeOf(b, img)
  {
    hide Abs, VolumeOf, Splice;
    FrontSplice(b, img, off, patch);
    var img' := Splice(img, off, patch);
    var v, v', n := VolumeOf(b, img), VolumeOf(b, img'), b.MaxCluster() + 2;
    forall x: nat | x < n
      ensures v'.fat[x] == v.fat[x]
    {
      VolumeWord(b, img, x);
      VolumeWord(b, img', x);
      WordInside(b, |img| / SECTOR, x);
      SpliceWord(img, off, patch, WordOffset(b, x));
    }
    assert v'.fat == v.fat;
  }

  lemma SliceOfSlice(img: seq<byte>, lo: nat, n: nat, off: nat, k: nat)
    requires lo + n <= |img| && off + k <= n
    ensures img[lo..lo + n][off..off + k] == img[lo + off..lo + off + k]
  {
    var a, b := img[lo..lo + n][off..off + k], img[lo + off..lo + off + k];
    forall i | 0 <= i < k
      ensures a[i] == b[i]
    {
      assert a[i] == img[lo..lo + n][off + i];
    }
  }

  lemma CopyAgrees(b: Fat32Bpb, img: seq<byte>, off: nat)
    requires off < b.fatSize && SECTOR * (b.FatStart() + 2 * b.fatSize) <= |img|
    requires var lo, n := SECTOR * b.FatStart(), SECTOR * b.fatSize; img[lo..lo + n] == img[lo + n..lo + n + n]
    ensures b.FatSector(1, off) < |SectorsOf(img)| && b.FatSector(0, off) < |SectorsOf(img)|
    ensures SectorsOf(img)[b.FatSector(1, off)] == SectorsOf(img)[b.FatSector(0, off)]
  {
    var lo, n := SECTOR * b.FatStart(), SECTOR * b.fatSize;
    var first, second := b.FatSector(0, off), b.FatSector(1, off);
    assert Span(1, b.fatSize) == Span(0, b.fatSize) + b.fatSize;
    assert second == first + b.fatSize;
    assert SECTOR * first == lo + SECTOR * off && SECTOR * second == lo + n + SECTOR * off;
    SliceOfSlice(img, lo, n, SECTOR * off, SECTOR);
    SliceOfSlice(img, lo + n, n, SECTOR * off, SECTOR);
  }

  /** With two copies whose bytes agree, the kernel sees mirrored FATs. */
  lemma CopiesMirrored(b: Fat32Bpb, img: seq<byte>)
    requires b.WellFormed(|img| / SECTOR) && b.numFats == 2
    requires SECTOR * (b.FatStart() + 2 * b.fatSize) <= |img|
    requires var lo, n := SECTOR * b.FatStart(), SECTOR * b.fatSize; img[lo..lo + n] == img[lo + n..lo + n + n]
    ensures Mirrored(b, SectorsOf(img))
  {
    var d := SectorsOf(img);
    forall k: nat, off: nat | k < b.numFats && off < b.fatSize
      ensures SameAsFirst(b, d, k, off)
    {
      b.FatSectorInside(|d|, k, off);
      b.FatSectorInside(|d|, 0, off);
      if k == 1 {
        CopyAgrees(b, img, off);
      }
    }
  }
}
