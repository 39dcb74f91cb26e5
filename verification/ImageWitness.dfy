// A small image on which the host tool, given a name without a dot, moves what lies behind the root
// directory.
module ImageWitness {
  import opened Wrappers
  import opened Bytes
  import opened Multiples
  import opened Chains
  import opened Volumes
  import opened Bpb
  import opened DirEntries
  import opened Directory
  import opened Images
  import opened Installs
  import opened AddToFat32

  /** Eight sectors: a boot sector, two FAT copies of one sector, five clusters of one sector, the first
      of them the root directory, empty. */
  function ImageByte(i: nat): byte {
    if i == 12 then 2
    else if i == 13 || i == 14 || i == 36 then 1
    else if i == 16 || i == 44 then 2
    else if i == 32 then 8
    else if i == 520 || i == 1032 then 0xF8
    else if i == 521 || i == 522 || i == 1033 || i == 1034 then 0xFF
    else if i == 523 || i == 1035 then 0x0F
    else 0
  }

  function Image(): (img: seq<byte>)
    ensures |img| == 8 * SECTOR && forall i :: 0 <= i < |img| ==> img[i] == ImageByte(i)
  {
    seq(8 * SECTOR, i requires 0 <= i => ImageByte(i))
  }

  const PLAIN: Fat32Bpb := Fat32Bpb(1, 1, 2, 1, 8, 2)

  lemma ImageIsOk()
    ensures ImageOk(Image()) && Geometry(Image()) == PLAIN && PLAIN.WellFormed(8)
  {
    hide Image;
    assert Span(2, 1) == Span(1, 1) + 1 == Span(0, 1) + 1 + 1;
    QuotIsDivision(5, 1);
    var img := Image();
    assert GetLe16(img, 11) == 512 && GetLe16(img, 14) == 1;
    assert GetLe32(img, 36) == 1 && GetLe32(img, 32) == 8 && GetLe32(img, 44) == 2;
  }

  /** Its volume: the root's chain is one cluster, and the cluster behind it is free. */
  lemma ImageVolume()
    ensures PLAIN.WellFormed(|Image()| / SECTOR)
    ensures var v := VolumeOf(PLAIN, Image());
            && |v.fat| == 7 && v.csz == 512 && v.root == 2 && v.fat[2] != FREE && v.fat[3] == FREE
            && IsEnd(SlotAt(v.data[2], 0))
  {
    hide Image, VolumeOf;
    ImageIsOk();
    QuotIsDivision(5, 1);
    assert Span(2, 1) == Span(1, 1) + 1 == Span(0, 1) + 1 + 1;
    var img := Image();
    VolumeWord(PLAIN, img, 2);
    VolumeWord(PLAIN, img, 3);
    assert GetLe32(img, 520) == EOC && GetLe32(img, 524) == 0;
    VolumeBlock(PLAIN, img, 2);
    assert Span(0, 1) == 0 && BlockOffset(PLAIN, 2) == 1536;
    assert img[1536..2048][0] == img[1536] == 0;
  }

  /** The tool does not refuse an empty file. */
  lemma ImageTaken()
    ensures ImageOk(Image()) && Refusal(VolumeOf(Geometry(Image()), Image()), []).None?
  {
    hide Image, VolumeOf, Link, ImageOk;
    ImageIsOk();
    ImageVolume();
    var v := VolumeOf(PLAIN, Image());
    assert FreeClusters(v.fat, 4, 0) == [];
    assert FreeClusters(v.fat, 3, 1) == [3] + FreeClusters(v.fat, 4, 0) == [3];
    assert FreeClusters(v.fat, 2, 1) == [3];
    assert Staged(v, []).data[2] == v.data[2];
  }

  /** MAIN: the tool adds an empty file under the name A to a well-formed image and reports no error; the
      image is one byte longer, and the cluster behind the root directory begins a byte too late. */
  method DotlessName() returns (img: seq<byte>, r: Result<seq<byte>, ToolError>)
    ensures ImageOk(img) && r.Ok? && |r.value| == |img| + 1
    ensures Geometry(img).rootCluster == 2 && Geometry(img).MaxCluster() == 5
            && Shifted(Geometry(img), img, [], r.value)
  {
    hide Image, VolumeOf, ImageOk;
    ImageIsOk();
    ImageTaken();
    QuotIsDivision(5, 1);
    assert Span(2, 1) == Span(1, 1) + 1 == Span(0, 1) + 1 + 1;
    assert ToUpper([65]) == [65];
    assert DotPos([65]) == 1 by { assert [65][1..] == []; }
    img := Image();
    r := AddFile(img, [], [65]);
  }
}
