// tools/add_to_fat32.py: installing a file in an image from the host, byte by byte.
module AddToFat32 {
  import opened Wrappers
  import opened Bytes
  import opened Multiples
  import opened Chains
  import opened Volumes
  import opened Bpb
  import opened Device
  import opened SectorWrites
  import opened DirEntries
  import opened Directory
  import opened Images
  import opened Installs
  import opened Mounting
  import opened Vfs
  import VfsSpec

  /** The fields of the boot sector that the tool and the kernel use. */
  function Geometry(img: seq<byte>): Fat32Bpb
    requires |img| >= SECTOR
  {
    Fat32Bpb(img[13], GetLe16(img, 14), img[16], GetLe32(img, 36), GetLe32(img, 32), GetLe32(img, 44))
  }

  /** A well-formed volume of 512-byte sectors with at least two FAT copies. */
  ghost predicate ImageOk(img: seq<byte>) {
    && |img| >= SECTOR && GetLe16(img, 11) == SECTOR
    && var b := Geometry(img);
       && b.WellFormed(|img| / SECTOR) && b.numFats >= 2 && b.reservedSectors >= 1
       && 2 <= b.rootCluster < b.MaxCluster() + 2
  }

  lemma SameGeometry(img: seq<byte>, img': seq<byte>, n: nat)
    requires SECTOR <= n <= |img| && |img'| == |img| && img'[..n] == img[..n]
    ensures Geometry(img') == Geometry(img) && GetLe16(img', 11) == GetLe16(img, 11)
  {
    assert forall i :: 0 <= i < SECTOR ==> img'[..n][i] == img[..n][i];
  }

  /** The first `needed` clusters whose word is free. */
  method FindFreeClusters(b: Fat32Bpb, img: seq<byte>, needed: nat) returns (freeClusters: seq<nat>)
    requires b.WellFormed(|img| / SECTOR) && needed > 0
    ensures freeClusters == FreeClusters(VolumeOf(b, img).fat, 2, needed)
  {
    hide VolumeOf, Abs, FreeClusters, GetLe32;
    FatFits(b, |img| / SECTOR);
    var fatOffset, fatSizeBytes := b.FatStart() * SECTOR, b.fatSize * SECTOR;
    var fatData := img[fatOffset..fatOffset + fatSizeBytes];
    ghost var fat := VolumeOf(b, img).fat;
    freeClusters := [];
    var cluster := 2;
    while cluster < b.MaxCluster() + 2
      invariant cluster >= 2 && |freeClusters| < needed
      invariant FreeClusters(fat, 2, needed) == freeClusters + FreeClusters(fat, cluster, needed - |freeClusters|)
    {
      var entryOffset := cluster * 4;
      if entryOffset + 4 > fatSizeBytes {
        assert false;
        break;
      }
      VolumeWord(b, img, cluster);
      SliceWord(img, fatOffset, fatSizeBytes, entryOffset);
      FreeStep(fat, cluster, needed, freeClusters);
      var entry := GetLe32(fatData, entryOffset) % LOW28;
      if entry == 0 {
        freeClusters := freeClusters + [cluster];
      }
      if |freeClusters| >= needed {
        return;
      }
      cluster := cluster + 1;
    }
    FreeEnd(fat, cluster, needed - |freeClusters|);
  }

  /** One cluster of the scan, with `got` collected so far. */
  lemma FreeStep(fat: seq<nat>, c: nat, needed: nat, got: seq<nat>)
    requires c < |fat| && |got| < needed
    ensures var got' := if fat[c] == FREE then got + [c] else got;
            && got + FreeClusters(fat, c, needed - |got|) == got' + FreeClusters(fat, c + 1, needed - |got'|)
            && (|got'| == needed ==> got' + FreeClusters(fat, c + 1, 0) == got')
  {
    if fat[c] == FREE {
      assert got + ([c] + FreeClusters(fat, c + 1, needed - |got| - 1)) == (got + [c])
             + FreeClusters(fat, c + 1, needed - |got| - 1);
    }
  }

  lemma FreeEnd(fat: seq<nat>, c: nat, need: nat)
    requires c >= |fat|
    ensures FreeClusters(fat, c, need) == []
  {
  }

  lemma SliceWord(img: seq<byte>, lo: nat, n: nat, off: nat)
    requires lo + n <= |img| && off + 4 <= n
    ensures GetLe32(img[lo..lo + n], off) == GetLe32(img, lo + off)
  {
    var s := img[lo..lo + n];
    assert s[off] == img[lo + off] && s[off + 1] == img[lo + off + 1];
    assert s[off + 2] == img[lo + off + 2] && s[off + 3] == img[lo + off + 3];
  }

  /** Each cluster takes its zero-padded stretch of the file. */
  method StoreChunks(b: Fat32Bpb, img0: seq<byte>, alloc: seq<nat>, fileData: seq<byte>) returns (img: seq<byte>)
    requires b.WellFormed(|img0| / SECTOR) && InRange(alloc, b.MaxCluster() + 2)
    ensures |img| == |img0|
    ensures var v := VolumeOf(b, img0); VolumeOf(b, img) == v.(data := Store(v.data, v.csz, alloc, fileData, 0))
    ensures SECTOR * b.DataStart() <= |img| && img[..SECTOR * b.DataStart()] == img0[..SECTOR * b.DataStart()]
  {
    hide VolumeOf, Abs, Splice, Store;
    var clusterSize := b.ClusterSize();
    ghost var v := VolumeOf(b, img0);
    img := img0;
    StoreStart(v.data, v.csz, alloc, fileData);
    for i := 0 to |alloc|
      invariant |img| == |img0|
      invariant var w := VolumeOf(b, img);
                && w.(data := v.data) == v
                && Store(w.data, v.csz, alloc[i..], fileData, i * clusterSize)
                   == Store(v.data, v.csz, alloc, fileData, 0)
      invariant img[..SECTOR * b.DataStart()] == img0[..SECTOR * b.DataStart()]
    {
      var cluster := alloc[i];
      var dataOffset := i * clusterSize;
      var chunk := Window(fileData, dataOffset, clusterSize);
      var imgOffset := BlockOffset(b, cluster);
      ghost var w := VolumeOf(b, img);
      BlockInside(b, |img| / SECTOR, cluster);
      BlockSplice(b, img, cluster, 0, chunk);
      WholeSplice(w.data[cluster], chunk);
      StoreNext(w.data, v.csz, alloc, fileData, i);
      SpliceSlice(img, imgOffset, chunk, 0, SECTOR * b.DataStart());
      img := Splice(img, imgOffset, chunk);
    }
    StoreEnd(VolumeOf(b, img).data, v.csz, alloc, fileData);
  }

  lemma WholeSplice(s: seq<byte>, patch: seq<byte>)
    requires |patch| == |s|
    ensures Splice(s, 0, patch) == patch
  {
  }

  lemma StoreStart(data: seq<seq<byte>>, csz: nat, cs: seq<nat>, payload: seq<byte>)
    requires InRange(cs, |data|)
    ensures InRange(cs[0..], |data|) && Store(data, csz, cs[0..], payload, 0 * csz) == Store(data, csz, cs, payload, 0)
  {
    assert cs[0..] == cs;
  }

  lemma StoreNext(data: seq<seq<byte>>, csz: nat, cs: seq<nat>, payload: seq<byte>, i: nat)
    requires InRange(cs, |data|) && i < |cs|
    ensures InRange(cs[i..], |data|) && InRange(cs[i + 1..], |data|)
    ensures Store(data[cs[i] := Window(payload, i * csz, csz)], csz, cs[i + 1..], payload, (i + 1) * csz)
            == Store(data, csz, cs[i..], payload, i * csz)
  {
    hide Store, InRange;
    SuffixInRange(cs, |data|, i);
    SuffixInRange(cs, |data|, i + 1);
    StoreUnfold(data, csz, cs[i..], payload, i * csz);
    NextProduct(i, csz);
  }

  lemma NextProduct(i: nat, csz: nat)
    ensures (i + 1) * csz == i * csz + csz
  {
  }

  lemma SuffixInRange(cs: seq<nat>, n: nat, i: nat)
    requires InRange(cs, n) && i <= |cs|
    ensures InRange(cs[i..], n)
    ensures i < |cs| ==> 2 <= cs[i] < n && cs[i..] != [] && cs[i..][0] == cs[i] && cs[i..][1..] == cs[i + 1..]
  {
  }

  lemma StoreUnfold(data: seq<seq<byte>>, csz: nat, cs: seq<nat>, payload: seq<byte>, off: nat)
    requires InRange(cs, |data|) && cs != []
    ensures Store(data, csz, cs, payload, off)
            == Store(data[cs[0] := Window(payload, off, csz)], csz, cs[1..], payload, off + csz)
  {
  }

  lemma StoreEnd(data: seq<seq<byte>>, csz: nat, cs: seq<nat>, payload: seq<byte>)
    requires InRange(cs, |data|)
    ensures InRange(cs[|cs|..], |data|) && Store(data, csz, cs[|cs|..], payload, |cs| * csz) == data
  {
  }

  /** Each cluster's word names the next one, the last one ends the chain. */
  method LinkChain(b: Fat32Bpb, img0: seq<byte>, alloc: seq<nat>) returns (img: seq<byte>)
    requires b.WellFormed(|img0| / SECTOR) && InRange(alloc, b.MaxCluster() + 2)
    ensures |img| == |img0|
    ensures var v := VolumeOf(b, img0); VolumeOf(b, img) == v.(fat := Link(v.fat, alloc))
    ensures SECTOR * b.FatStart() <= |img| && img[..SECTOR * b.FatStart()] == img0[..SECTOR * b.FatStart()]
  {
    hide VolumeOf, Abs, Splice, Link;
    FatFits(b, |img0| / SECTOR);
    ghost var v := VolumeOf(b, img0);
    img := img0;
    LinkStart(v.fat, alloc);
    for i := 0 to |alloc|
      invariant |img| == |img0|
      invariant var w := VolumeOf(b, img); w.(fat := v.fat) == v && Link(w.fat, alloc[i..]) == Link(v.fat, alloc)
      invariant img[..SECTOR * b.FatStart()] == img0[..SECTOR * b.FatStart()]
    {
      var cluster := alloc[i];
      var entryOffset := WordOffset(b, cluster);
      ghost var w := VolumeOf(b, img);
      var word := if i < |alloc| - 1 then alloc[i + 1] % LOW28 else EOC;
      if i < |alloc| - 1 {
        LinkMiddle(w.fat, alloc, i);
      } else {
        LinkLast(w.fat, alloc, i);
      }
      WordInside(b, |img| / SECTOR, cluster);
      StoreWord(b, img, cluster, word);
      SpliceSlice(img, entryOffset, Le32(word), 0, SECTOR * b.FatStart());
      img := Splice(img, entryOffset, Le32(word));
    }
    LinkEnd(VolumeOf(b, img).fat, alloc);
  }

  lemma LinkStart(fat: seq<nat>, cs: seq<nat>)
    requires InRange(cs, |fat|)
    ensures InRange(cs[0..], |fat|) && Link(fat, cs[0..]) == Link(fat, cs)
  {
    assert cs[0..] == cs;
  }

  lemma LinkMiddle(fat: seq<nat>, cs: seq<nat>, i: nat)
    requires InRange(cs, |fat|) && i < |cs| - 1 && |fat| <= BAD
    ensures InRange(cs[i..], |fat|) && InRange(cs[i + 1..], |fat|)
    ensures cs[i + 1] % LOW28 == cs[i + 1]
    ensures Link(fat[cs[i] := cs[i + 1]], cs[i + 1..]) == Link(fat, cs[i..])
  {
    hide Link, InRange;
    SuffixInRange(cs, |fat|, i);
    SuffixInRange(cs, |fat|, i + 1);
    LinkUnfold(fat, cs[i..]);
    assert cs[i..][1] == cs[i + 1];
  }

  lemma LinkLast(fat: seq<nat>, cs: seq<nat>, i: nat)
    requires InRange(cs, |fat|) && i == |cs| - 1
    ensures InRange(cs[i..], |fat|) && InRange(cs[i + 1..], |fat|)
    ensures Link(fat[cs[i] := EOC], cs[i + 1..]) == Link(fat, cs[i..])
  {
    assert cs[i..] == [cs[i]] && cs[i + 1..] == [];
  }

  lemma LinkUnfold(fat: seq<nat>, cs: seq<nat>)
    requires InRange(cs, |fat|) && cs != []
    ensures Link(fat, cs) == if |cs| == 1 then fat[cs[0] := EOC] else Link(fat[cs[0] := cs[1]], cs[1..])
  {
  }

  lemma LinkEnd(fat: seq<nat>, cs: seq<nat>)
    requires InRange(cs, |fat|)
    ensures InRange(cs[|cs|..], |fat|) && Link(fat, cs[|cs|..]) == fat
  {
  }

  /** Copies the first FAT over the second. */
  method MirrorFat(b: Fat32Bpb, img0: seq<byte>) returns (img: seq<byte>)
    requires b.WellFormed(|img0| / SECTOR) && b.numFats >= 2
    ensures |img| == |img0| && VolumeOf(b, img) == VolumeOf(b, img0)
    ensures SECTOR * (b.FatStart() + 2 * b.fatSize) <= SECTOR * b.DataStart() <= |img|
    ensures img[..SECTOR * b.FatStart()] == img0[..SECTOR * b.FatStart()]
    ensures var lo, n := SECTOR * b.FatStart(), SECTOR * b.fatSize; img[lo..lo + n] == img[lo + n..lo + n + n]
  {
    hide VolumeOf, Abs, Splice;
    TwoCopies(b, |img0| / SECTOR);
    var fatOffset, fatSizeBytes := b.FatStart() * SECTOR, b.fatSize * SECTOR;
    var fat2Offset := (b.FatStart() + b.fatSize) * SECTOR;
    var copy := img0[fatOffset..fatOffset + fatSizeBytes];
    BetweenSplice(b, img0, fat2Offset, copy);
    SpliceSlice(img0, fat2Offset, copy, 0, fatOffset);
    SpliceSlice(img0, fat2Offset, copy, fatOffset, fatOffset + fatSizeBytes);
    SpliceSlice(img0, fat2Offset, copy, fat2Offset, fat2Offset + fatSizeBytes);
    img := Splice(img0, fat2Offset, copy);
  }

  lemma TwoCopies(b: Fat32Bpb, n: nat)
    requires b.WellFormed(n) && b.numFats >= 2
    ensures b.FatStart() + 2 * b.fatSize <= b.DataStart() <= n
  {
    assert Span(2, b.fatSize) == Span(1, b.fatSize) + b.fatSize == Span(0, b.fatSize) + b.fatSize + b.fatSize;
    SpanMono(2, b.numFats, b.fatSize);
  }

  /** The first end marker or deleted entry of the root directory's first cluster. */
  method FindSlot(b: Fat32Bpb, img: seq<byte>) returns (slot: Option<nat>)
    requires b.WellFormed(|img| / SECTOR) && 2 <= b.rootCluster < b.MaxCluster() + 2
    ensures slot == FreeSlot(VolumeOf(b, img))
  {
    hide VolumeOf, Abs;
    VolumeBlock(b, img, b.rootCluster);
    var rootOffset, clusterSize := BlockOffset(b, b.rootCluster), b.ClusterSize();
    ghost var slots := SlotsOf(VolumeOf(b, img).data[b.rootCluster]);
    for i := 0 to clusterSize / 32
      invariant HoleFrom(slots, 0) == HoleFrom(slots, i)
    {
      var entry := img[rootOffset + i * 32..rootOffset + (i + 1) * 32];
      SliceOfSlice(img, rootOffset, clusterSize, 32 * i, 32);
      assert entry == slots[i];
      if entry[0] == 0 || entry[0] == DELETED {
        return Some(i);
      }
    }
    slot := None;
  }

  /** The directory entry, field after field; without a dot the extension is a byte too long and the
      array grows with it. */
  method BuildEntry(fatName: seq<byte>, firstCluster: nat, size: nat) returns (dirEntry: seq<byte>)
    requires firstCluster < 0x1_0000 && size < 0x1_0000_0000
    ensures dirEntry == EntryBytes(fatName, firstCluster, size)
  {
    hide DotPos;
    var shortName, shortExt := Field(FirstPart(fatName), 8), ToolExt(fatName);
    dirEntry := Zeros(32);
    dirEntry := shortName + dirEntry[8..];
    dirEntry := dirEntry[..8] + shortExt + dirEntry[11..];
    assert dirEntry == shortName + shortExt + Zeros(21);
    dirEntry := dirEntry[11 := ATTR_ARCHIVE];
    dirEntry := Splice(dirEntry, 12, Zeros(14));
    dirEntry := Splice(dirEntry, 26, Le16(firstCluster));
    dirEntry := Splice(dirEntry, 28, Le32(size));
  }

  /** The image with the data stored, the chain linked and the second FAT rewritten. */
  ghost predicate Prepared(b: Fat32Bpb, img0: seq<byte>, img: seq<byte>) {
    && ImageOk(img) && Geometry(img) == b && |img| == |img0|
    && SECTOR * (b.FatStart() + 2 * b.fatSize) <= SECTOR * b.DataStart() <= |img|
    && img[..SECTOR * b.FatStart()] == img0[..SECTOR * b.FatStart()]
    && var lo, n := SECTOR * b.FatStart(), SECTOR * b.fatSize; img[lo..lo + n] == img[lo + n..lo + n + n]
  }

  method InstallData(b: Fat32Bpb, img0: seq<byte>, alloc: seq<nat>, fileData: seq<byte>) returns (img: seq<byte>)
    requires ImageOk(img0) && b == Geometry(img0) && InRange(alloc, b.MaxCluster() + 2)
    ensures Prepared(b, img0, img)
    ensures VolumeOf(b, img) == WithData(VolumeOf(b, img0), alloc, fileData)
  {
    hide VolumeOf, Abs, Splice, Store, Link;
    img := StoreChunks(b, img0, alloc, fileData);
    PrefixOfPrefix(img, img0, SECTOR * b.FatStart(), SECTOR * b.DataStart());
    img := LinkChain(b, img, alloc);
    img := MirrorFat(b, img);
    FrontKept(b, img0, img);
  }

  lemma PrefixOfPrefix(a: seq<byte>, c: seq<byte>, m: nat, n: nat)
    requires m <= n <= |a| && |a| == |c| && a[..n] == c[..n]
    ensures a[..m] == c[..m]
  {
    assert a[..n][..m] == a[..m] && c[..n][..m] == c[..m];
  }

  /** Assigns the entry to 32 bytes of the root directory; a longer entry makes the image longer. */
  method AssignEntry(b: Fat32Bpb, img0: seq<byte>, img: seq<byte>, slot: nat, dirEntry: seq<byte>)
    returns (r: seq<byte>)
    requires Prepared(b, img0, img) && ImageOk(img0) && b == Geometry(img0) && 32 * slot + 32 <= b.ClusterSize()
    ensures |r| == |img| + |dirEntry| - 32
    ensures |dirEntry| == 33 ==>
              forall c: nat :: b.rootCluster < c < b.MaxCluster() + 2 && 2 <= c ==>
                  LateAt(b, r, c, VolumeOf(b, img).data[c])
    ensures |dirEntry| == 32 ==>
              && ImageOk(r) && Geometry(r) == b && |r| == |img0|
              && r[..SECTOR * b.FatStart()] == img0[..SECTOR * b.FatStart()]
              && (b.numFats == 2 ==> Mirrored(b, SectorsOf(r)))
              && var v := VolumeOf(b, img);
                 VolumeOf(b, r) == v.(data := v.data[v.root := Splice(v.data[v.root], 32 * slot, dirEntry)])
  {
    hide VolumeOf, Abs, Splice, Mirrored, ImageOk, Geometry;
    RootInside(img);
    BlockInside(b, |img| / SECTOR, b.rootCluster);
    var dirOffset := BlockOffset(b, b.rootCluster) + 32 * slot;
    r := img[..dirOffset] + dirEntry + img[dirOffset + 32..];
    if |dirEntry| == 32 {
      AssignIsSplice(img, dirOffset, dirEntry);
      AssignedEntry(b, img0, img, slot, dirEntry);
    } else if |dirEntry| == 33 {
      forall c: nat | b.rootCluster < c < b.MaxCluster() + 2 && 2 <= c
        ensures LateAt(b, r, c, VolumeOf(b, img).data[c])
      {
        LateBlock(b, img, dirOffset, dirEntry, c);
      }
    }
  }

  lemma AssignedEntry(b: Fat32Bpb, img0: seq<byte>, img: seq<byte>, slot: nat, dirEntry: seq<byte>)
    requires Prepared(b, img0, img) && ImageOk(img0) && b == Geometry(img0) && 32 * slot + 32 <= b.ClusterSize()
    requires |dirEntry| == 32
    ensures BlockOffset(b, b.rootCluster) + 32 * slot + 32 <= |img|
    ensures var r := Splice(img, BlockOffset(b, b.rootCluster) + 32 * slot, dirEntry);
            && ImageOk(r) && Geometry(r) == b && |r| == |img0|
            && r[..SECTOR * b.FatStart()] == img0[..SECTOR * b.FatStart()]
            && (b.numFats == 2 ==> Mirrored(b, SectorsOf(r)))
            && var v := VolumeOf(b, img);
               VolumeOf(b, r) == v.(data := v.data[v.root := Splice(v.data[v.root], 32 * slot, dirEntry)])
  {
    hide VolumeOf, Abs, Splice, Mirrored, ImageOk, Geometry;
    RootInside(img);
    BlockInside(b, |img| / SECTOR, b.rootCluster);
    BlockSplice(b, img, b.rootCluster, 32 * slot, dirEntry);
    InstalledImage(b, img0, img, BlockOffset(b, b.rootCluster) + 32 * slot, dirEntry);
  }

  lemma RootInside(img: seq<byte>)
    requires ImageOk(img)
    ensures var b := Geometry(img); b.WellFormed(|img| / SECTOR) && 2 <= b.rootCluster < b.MaxCluster() + 2
  {
  }

  /** What a name without a dot leaves: an image one byte too long, in which every cluster behind the root
      directory's first one begins a byte too late. */
  ghost predicate Shifted(b: Fat32Bpb, img0: seq<byte>, fileData: seq<byte>, img: seq<byte>)
    requires b.WellFormed(|img0| / SECTOR)
  {
    && |img| == |img0| + 1
    && forall c: nat :: b.rootCluster < c < b.MaxCluster() + 2 && 2 <= c ==>
         LateAt(b, img, c, Installs.Staged(VolumeOf(b, img0), fileData).data[c])
  }

  ghost predicate LateAt(b: Fat32Bpb, img: seq<byte>, c: nat, block: seq<byte>)
    requires 2 <= c
  {
    var at := BlockOffset(b, c) + 1;
    at + |block| <= |img| && img[at..at + |block|] == block
  }

  lemma LateBlock(b: Fat32Bpb, img: seq<byte>, off: nat, patch: seq<byte>, c: nat)
    requires b.WellFormed(|img| / SECTOR) && |patch| == 33 && off + 32 <= |img|
    requires 2 <= b.rootCluster < c < b.MaxCluster() + 2 && off + 32 <= BlockOffset(b, b.rootCluster) + b.ClusterSize()
    ensures LateAt(b, img[..off] + patch + img[off + 32..], c, VolumeOf(b, img).data[c])
  {
    hide VolumeOf, Abs;
    VolumeBlock(b, img, c);
    BlocksApart(b, b.rootCluster, c);
    var r, at, n := img[..off] + patch + img[off + 32..], BlockOffset(b, c), b.ClusterSize();
    var late, block := r[at + 1..at + 1 + n], img[at..at + n];
    forall i | 0 <= i < n
      ensures late[i] == block[i]
    {
    }
  }

  /** A run of the tool: the image it writes back, or the error it ends with, after which the image file
      is as it was. */
  method AddFile(img0: seq<byte>, fileData: seq<byte>, name: seq<byte>) returns (r: Result<seq<byte>, ToolError>)
    requires ImageOk(img0)
    ensures var refusal := Refusal(VolumeOf(Geometry(img0), img0), fileData);
            && (r.Ok? <==> refusal.None?)
            && (r.Err? ==> refusal == Some(r.error))
    ensures var b, fatName := Geometry(img0), ToUpper(name);
            DotPos(fatName) < |fatName| && r.Ok? ==>
              && ImageOk(r.value) && Geometry(r.value) == b && |r.value| == |img0|
              && Ok(VolumeOf(b, r.value)) == Installed(VolumeOf(b, img0), fileData, fatName)
              && r.value[..SECTOR * b.reservedSectors] == img0[..SECTOR * b.reservedSectors]
              && (b.numFats == 2 ==> Mirrored(b, SectorsOf(r.value)))
    ensures var b, fatName := Geometry(img0), ToUpper(name);
            DotPos(fatName) == |fatName| && r.Ok? ==> Shifted(b, img0, fileData, r.value)
  {
    hide VolumeOf, Abs, Splice, DotPos, FreeClusters, Store, Link, EntryBytes, HoleFrom, ToUpper;
    var b := Geometry(img0);
    var fatName := ToUpper(name);
    ghost var v := VolumeOf(b, img0);
    var clusterSize := b.ClusterSize();
    NeededIsDivision(|fileData|, clusterSize);
    NeededBounds(|fileData|, clusterSize);
    var clustersNeeded := if |fileData| == 0 then 0 else (|fileData| + clusterSize - 1) / clusterSize;
    if clustersNeeded == 0 {
      clustersNeeded := 1;
    }
    assert clustersNeeded == Wanted(|fileData|, v.csz);
    var alloc := FindFreeClusters(b, img0, clustersNeeded);
    if |alloc| < clustersNeeded {
      return Err(NotEnoughClusters);
    }
    var img := InstallData(b, img0, alloc, fileData);
    var slot := FindSlot(b, img);
    if slot.None? {
      return Err(NoDirEntry);
    }
    if alloc[0] >= 0x1_0000 || |fileData| >= 0x1_0000_0000 {
      return Err(StructError);
    }
    var dirEntry := BuildEntry(fatName, alloc[0], |fileData|);
    img := AssignEntry(b, img0, img, slot.value, dirEntry);
    r := Ok(img);
  }

  lemma AssignIsSplice(img: seq<byte>, off: nat, patch: seq<byte>)
    requires |patch| == 32 && off + 32 <= |img|
    ensures img[..off] + patch + img[off + 32..] == Splice(img, off, patch)
  {
  }

  /** The sectors before the FAT survive the steps up to the mirroring. */
  lemma FrontKept(b: Fat32Bpb, img0: seq<byte>, img: seq<byte>)
    requires ImageOk(img0) && b == Geometry(img0) && |img| == |img0|
    requires SECTOR * b.FatStart() <= |img0| && img[..SECTOR * b.FatStart()] == img0[..SECTOR * b.FatStart()]
    ensures ImageOk(img) && Geometry(img) == b
  {
    SameGeometry(img0, img, SECTOR * b.FatStart());
  }

  /** The directory write keeps the boot sector, and the agreement of the FAT copies. */
  lemma InstalledImage(b: Fat32Bpb, img0: seq<byte>, before: seq<byte>, off: nat, patch: seq<byte>)
    requires ImageOk(img0) && b == Geometry(img0) && |before| == |img0|
    requires SECTOR * (b.FatStart() + 2 * b.fatSize) <= SECTOR * b.DataStart() <= off && off + |patch| <= |before|
    requires before[..SECTOR * b.FatStart()] == img0[..SECTOR * b.FatStart()]
    requires var lo, n := SECTOR * b.FatStart(), SECTOR * b.fatSize; before[lo..lo + n] == before[lo + n..lo + n + n]
    ensures var img := Splice(before, off, patch);
            && ImageOk(img) && Geometry(img) == b
            && img[..SECTOR * b.FatStart()] == img0[..SECTOR * b.FatStart()]
            && (b.numFats == 2 ==> Mirrored(b, SectorsOf(img)))
  {
    hide Mirrored, Splice;
    var img := Splice(before, off, patch);
    var lo, n := SECTOR * b.FatStart(), SECTOR * b.fatSize;
    SpliceSlice(before, off, patch, 0, lo);
    SpliceSlice(before, off, patch, lo, lo + n);
    SpliceSlice(before, off, patch, lo + n, lo + n + n);
    FrontKept(b, img0, img);
    if b.numFats == 2 {
      CopiesMirrored(b, img);
    }
  }

  /** Why a file put on an image is not read back. */
  datatype RoundTripError = ToolRefuses(tool: ToolError) | MountRefuses(mount: string)

  /** MAIN: the tool's image on a block device, mounted and read by the kernel: unless an older record of the
      name came before the first hole, `read_file_content` of the name gives the file the tool was given; it
      is refused exactly when the tool finds no space or the kernel does not take the image for FAT32. */
  method InstallThenRead(img0: seq<byte>, fileData: seq<byte>, name: seq<byte>, ghost root: seq<nat>)
    returns (r: Result<seq<byte>, RoundTripError>)
    requires ImageOk(img0) && GoodName(name)
    requires var v := VolumeOf(Geometry(img0), img0);
             && IsChain(v.fat, root) && |root| <= MAX_CHAIN && root[0] == v.root
             && !OlderRecord(Slots(v.data, root), name)
             && Needed(|fileData|, v.csz) <= MAX_CHAIN
    ensures r.Ok? ==> r.value == fileData
    ensures r.Ok? <==> Installed(VolumeOf(Geometry(img0), img0), fileData, name).Ok? && Recognised(img0)
  {
    hide VolumeOf, Installed, Refusal, Slots, FindFrom, OlderRecord, Content, Follow, Abs, FreeClusters, Linked, NoDup,
         Recognised, VfsSpec.ReadFileContent;
    ghost var v := VolumeOf(Geometry(img0), img0);
    InstalledUnlessRefused(v, fileData, name);
    var added := AddFile(img0, fileData, name);
    if added.Err? {
      return Err(ToolRefuses(added.error));
    }
    InstalledReadsBack(v, fileData, name, root);
    var img := added.value;
    var device := new BlockDevice(SectorsOf(img));
    SameBootSector(img0, img, SECTOR * Geometry(img0).reservedSectors);
    var mounted := Mount(device);
    if mounted.Err? {
      return Err(MountRefuses(mounted.error));
    }
    var fs := mounted.value;
    VolumeIsAbs(fs.bpb, img);
    var vfs := new VfsManager(fs);
    var content := vfs.ReadFileContent(name);
    r := Ok(content.value);
  }

  /** The kernel reads the fields the tool reads, from the first sector of the image. */
  lemma SameBootSector(img0: seq<byte>, img: seq<byte>, n: nat)
    requires ImageOk(img) && |img| == |img0| && SECTOR <= n <= |img| && img[..n] == img0[..n]
    ensures |SectorsOf(img)| > 0 && (Recognised(SectorsOf(img)[0]) <==> Recognised(img0))
    ensures Recognised(img0) ==> FromBytes(SectorsOf(img)[0]) == Some(Geometry(img))
  {
    hide NamesFat32;
    var boot := SectorsOf(img)[0];
    assert boot == img[..SECTOR];
    assert forall i :: 0 <= i < SECTOR ==> boot[i] == img[..n][i] == img0[..n][i] == img0[i];
    assert boot[82..90] == img0[82..90];
  }

  lemma VolumeIsAbs(b: Fat32Bpb, img: seq<byte>)
    requires b.WellFormed(|img| / SECTOR)
    ensures Abs(b, SectorsOf(img)) == VolumeOf(b, img)
  {
  }
}
