// Mounting: which boot sectors the kernel takes for FAT32, and what it keeps of them.
module Mounting {
  import opened Wrappers
  import opened Bytes
  import opened Bpb
  import opened Device

  // -- Text of the file system type -------------------------------------------------------------------

  predicate Between(s: seq<byte>, i: nat, lo: byte, hi: byte) { i < |s| && lo <= s[i] <= hi }

  /** Bytes of the UTF-8 sequence `s` begins with, 0 when there is none. */
  function Utf8Length(s: seq<byte>): (n: nat)
    ensures n <= |s|
  {
    if s == [] then 0
    else if s[0] < 0x80 then 1
    else if 0xC2 <= s[0] <= 0xDF then (if Between(s, 1, 0x80, 0xBF) then 2 else 0)
    else if 0xE0 <= s[0] <= 0xEF then
      (if Between(s, 1, if s[0] == 0xE0 then 0xA0 else 0x80, if s[0] == 0xED then 0x9F else 0xBF)
          && Between(s, 2, 0x80, 0xBF) then 3 else 0)
    else if 0xF0 <= s[0] <= 0xF4 then
      (if Between(s, 1, if s[0] == 0xF0 then 0x90 else 0x80, if s[0] == 0xF4 then 0x8F else 0xBF)
          && Between(s, 2, 0x80, 0xBF) && Between(s, 3, 0x80, 0xBF) then 4 else 0)
    else 0
  }

  predicate Utf8(s: seq<byte>) { s == [] || (Utf8Length(s) > 0 && Utf8(s[Utf8Length(s)..])) }

  /** "FAT32" in ASCII. */
  const FAT32: seq<byte> := [70, 65, 84, 51, 50]

  /** The eight bytes of the type name are text that starts with FAT32. */
  predicate NamesFat32(t: seq<byte>) { Utf8(t) && |t| >= 5 && t[..5] == FAT32 }

  // -- The boot sector --------------------------------------------------------------------------------

  /** The two FAT size fields and the type name say FAT32. */
  predicate Recognised(s: seq<byte>) {
    |s| >= 90 && GetLe16(s, 22) == 0 && GetLe32(s, 36) != 0 && NamesFat32(s[82..90])
  }

  /** `from_bytes`, of which the fields the file system uses are kept. */
  function FromBytes(s: seq<byte>): (r: Option<Fat32Bpb>)
    ensures r.Some? <==> Recognised(s)
    ensures r.Some? ==> r.value.fatSize > 0
  {
    if |s| < 90 then None
    else if GetLe16(s, 22) != 0 then None
    else if GetLe32(s, 36) == 0 then None
    else if !NamesFat32(s[82..90]) then None
    else Some(Fat32Bpb(s[13], GetLe16(s, 14), s[16], GetLe32(s, 36), GetLe32(s, 32), GetLe32(s, 44)))
  }

  /** The type name is recognised whenever it is FAT32 and three ASCII bytes. */
  lemma AsciiTail(t: seq<byte>)
    requires |t| == 8 && t[..5] == FAT32 && forall i :: 5 <= i < 8 ==> t[i] < 0x80
    ensures NamesFat32(t)
  {
    assert t[0] == t[..5][0] && t[1] == t[..5][1] && t[2] == t[..5][2] && t[3] == t[..5][3] && t[4] == t[..5][4];
    AllAscii(t);
  }

  lemma {:induction false} AllAscii(t: seq<byte>)
    requires forall i :: 0 <= i < |t| ==> t[i] < 0x80
    ensures Utf8(t)
    decreases |t|
  {
    if t != [] {
      AllAscii(t[1..]);
    }
  }

  method Mount(device: BlockDevice) returns (r: Result<Fat32Fs, string>)
    ensures r.Ok? <==> |device.sectors| > 0 && Recognised(device.sectors[0])
    ensures r.Ok? ==> r.value.device == device && FromBytes(device.sectors[0]) == Some(r.value.bpb)
    ensures r.Err? ==>
              r.error == if |device.sectors| == 0 then "Failed to read boot sector" else "Not a FAT32 filesystem"
  {
    var buf := device.ReadSector(0);
    if buf.Err? {
      return Err("Failed to read boot sector");
    }
    var bpb := FromBytes(buf.value);
    if bpb.None? {
      return Err("Not a FAT32 filesystem");
    }
    r := Ok(Fat32Fs(bpb.value, device));
  }
}
