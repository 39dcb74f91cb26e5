// Volume geometry: where the FAT copies and the clusters lie among the sectors.
module Bpb {
  import opened Bytes
  import opened Multiples
  import opened Chains

  /** The device works in 512-byte sectors; so must the volume. */
  const SECTOR: nat := 512
  /** FAT words in a sector. */
  const EPS: nat := 128

  type Sector = s: seq<byte> | |s| == 512 witness Zeros(512)

  datatype Fat32Bpb = Fat32Bpb(sectorsPerCluster: nat, reservedSectors: nat, numFats: nat, fatSize: nat,
                     totalSectors: nat, rootCluster: nat)
  {
    function FatStart(): nat { reservedSectors }

    function DataStart(): nat { reservedSectors + Span(numFats, fatSize) }

    function ClusterSize(): nat { sectorsPerCluster * SECTOR }

    function ClusterToSector(cluster: nat): nat
      requires cluster >= 2
    {
      DataStart() + Span(cluster - 2, sectorsPerCluster)
    }

    /** Data clusters of the volume; they are numbered from 2. */
    function MaxCluster(): nat
      requires sectorsPerCluster > 0
    {
      Quot(if totalSectors < DataStart() then 0 else totalSectors - DataStart(), sectorsPerCluster)
    }

    /** The geometry fits a device of `n` sectors, and each FAT copy covers every cluster. */
    ghost predicate WellFormed(n: nat) {
      && 1 <= sectorsPerCluster <= 255 && 1 <= numFats <= 255
      && DataStart() <= totalSectors <= n < 0x1_0000_0000
      && MaxCluster() + 2 <= fatSize * EPS
      && MaxCluster() + 2 <= BAD
    }

    /** The geometry in the source's own arithmetic. */
    lemma GeometryFormulas(cluster: nat)
      requires sectorsPerCluster > 0 && cluster >= 2
      ensures DataStart() == reservedSectors + numFats * fatSize
      ensures ClusterToSector(cluster) == DataStart() + (cluster - 2) * sectorsPerCluster
      ensures DataStart() <= totalSectors ==> MaxCluster() == (totalSectors - DataStart()) / sectorsPerCluster
    {
      SpanIsProduct(numFats, fatSize);
      SpanIsProduct(cluster - 2, sectorsPerCluster);
      if DataStart() <= totalSectors {
        QuotIsDivision(totalSectors - DataStart(), sectorsPerCluster);
      }
    }

    /** Sector `off` of FAT copy `k`. */
    function FatSector(k: nat, off: nat): nat { FatStart() + off + Span(k, fatSize) }

    /** FAT copies lie between the reserved sectors and the data, and do not overlap. */
    lemma FatSectorInside(n: nat, k: nat, off: nat)
      requires WellFormed(n) && k < numFats && off < fatSize
      ensures FatStart() <= FatSector(k, off) < DataStart()
      ensures k > 0 ==> FatSector(k, off) >= FatStart() + fatSize
    {
      SpanMono(k, numFats, fatSize);
      SpanMono(0, k, fatSize);
    }

    lemma FatSectorsDistinct(k: nat, off: nat, k': nat, off': nat)
      requires off < fatSize && off' < fatSize && (k, off) != (k', off')
      ensures FatSector(k, off) != FatSector(k', off')
    {
      if k < k' {
        SpanMono(k, k', fatSize);
      } else if k' < k {
        SpanMono(k', k, fatSize);
      }
    }

    /** Every cluster lies in the data area. */
    lemma ClusterInside(n: nat, c: nat)
      requires WellFormed(n) && 2 <= c < MaxCluster() + 2
      ensures DataStart() <= ClusterToSector(c)
      ensures ClusterToSector(c) + sectorsPerCluster <= totalSectors
    {
      QuotBounds(totalSectors - DataStart(), sectorsPerCluster);
      SpanMono(c - 2, MaxCluster(), sectorsPerCluster);
    }

    /** Distinct clusters occupy disjoint sector ranges. */
    lemma ClustersDisjoint(c: nat, c': nat)
      requires 2 <= c < c'
      ensures ClusterToSector(c) + sectorsPerCluster <= ClusterToSector(c')
    {
      SpanMono(c - 2, c' - 2, sectorsPerCluster);
    }
  }
}
