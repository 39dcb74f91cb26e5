// The block device, and the volume its sectors hold.
module Device {
  import opened Wrappers
  import opened Bytes
  import opened Volumes
  import opened Bpb

  /** The block device: sectors past its end cannot be read or written. */
  class BlockDevice {
    var sectors: seq<Sector>

    constructor (contents: seq<Sector>)
      ensures sectors == contents
    {
      sectors := contents;
    }

    method ReadSector(lba: nat) returns (r: Result<Sector, string>)
      ensures r == if lba < |sectors| then Ok(sectors[lba]) else Err("Sector read failed")
    {
      if lba >= |sectors| {
        return Err("Sector read failed");
      }
      r := Ok(sectors[lba]);
    }

    method WriteSector(lba: nat, buf: Sector) returns (r: Result<(), string>)
      modifies this
      ensures r.Ok? <==> lba < old(|sectors|)
      ensures sectors == if lba < old(|sectors|) then old(sectors)[lba := buf] else old(sectors)
    {
      if lba >= |sectors| {
        return Err("Sector write failed");
      }
      sectors := sectors[lba := buf];
      r := Ok(());
    }
  }

  /** A mounted file system: its geometry, read once, and the device it lives on. */
  datatype Fat32Fs = Fat32Fs(bpb: Fat32Bpb, device: BlockDevice) {
    ghost predicate Valid()
      reads device
    {
      bpb.WellFormed(|device.sectors|)
    }

    ghost function Vol(): (v: Volume)
      requires Valid()
      reads device
    {
      Abs(bpb, device.sectors)
    }
  }

  // -- The words of the FAT -----------------------------------------------------------------------

  const LOW28: nat := 0x1000_0000

  /** The stored 32-bit word of cluster `c`, in the first FAT copy. */
  ghost function Word(b: Fat32Bpb, d: seq<Sector>, c: nat): (w: nat)
    requires b.FatStart() + c / EPS < |d|
    ensures w < 0x1_0000_0000
  {
    GetLe32(d[b.FatStart() + c / EPS], c % EPS * 4)
  }

  /** Everything `read_fat_entry` can be asked for: the 28-bit words from the start of the FAT to
      the end of the device. */
  ghost function Words(b: Fat32Bpb, d: seq<Sector>): (r: seq<nat>)
    requires b.FatStart() <= |d|
    ensures |r| == (|d| - b.FatStart()) * EPS
    ensures forall c :: 0 <= c < |r| ==> r[c] == Word(b, d, c) % LOW28
  {
    seq((|d| - b.FatStart()) * EPS, c requires 0 <= c < (|d| - b.FatStart()) * EPS => Word(b, d, c) % LOW28)
  }

  /** The bytes of cluster `c`, sector after sector. */
  ghost function Block(b: Fat32Bpb, d: seq<Sector>, c: nat): (r: seq<byte>)
    requires c >= 2
    ensures |r| == b.ClusterSize()
  {
    seq(b.ClusterSize(),
        i requires 0 <= i < b.ClusterSize() => SectorByte(d, b.ClusterToSector(c) + i / SECTOR, i % SECTOR))
  }

  ghost function SectorByte(d: seq<Sector>, s: nat, off: nat): byte
    requires off < SECTOR
  {
    if s < |d| then d[s][off] else 0
  }

  ghost function BlockOrZeros(b: Fat32Bpb, d: seq<Sector>, c: nat): (r: seq<byte>)
    ensures |r| == b.ClusterSize()
  {
    if c < 2 then Zeros(b.ClusterSize()) else Block(b, d, c)
  }

  /** The bytes of all clusters; clusters 0 and 1 have table words but no bytes. */
  ghost function Blocks(b: Fat32Bpb, d: seq<Sector>, n: nat): (r: seq<seq<byte>>)
    ensures |r| == n
    ensures forall c :: 0 <= c < n ==> r[c] == BlockOrZeros(b, d, c)
  {
    seq(n, c requires 0 <= c => BlockOrZeros(b, d, c))
  }

  /** The volume held by the sectors `d`. */
  ghost function Abs(b: Fat32Bpb, d: seq<Sector>): (v: Volume)
    requires b.WellFormed(|d|)
    ensures v.Valid() && |v.fat| == b.MaxCluster() + 2 && v.csz == b.ClusterSize() && v.root == b.rootCluster
  {
    FatFits(b, |d|);
    Volume(b.ClusterSize(), b.rootCluster, Words(b, d)[..b.MaxCluster() + 2], Blocks(b, d, b.MaxCluster() + 2))
  }

  lemma FatFits(b: Fat32Bpb, n: nat)
    requires b.WellFormed(n)
    ensures b.FatStart() + b.fatSize <= n
    ensures b.MaxCluster() + 2 <= (n - b.FatStart()) * EPS
  {
    b.FatSectorInside(n, 0, b.fatSize - 1);
  }
}
