// Bytes, little-endian words and the two buffer operations every layer uses:
// overwriting a stretch (`copy_from_slice`) and reading a zero-padded window.
module Bytes {

  type byte = b: int | 0 <= b < 256

  function Zeros(n: nat): (r: seq<byte>)
    ensures |r| == n && forall i :: 0 <= i < n ==> r[i] == 0
  {
    seq(n, _ => 0)
  }

  /** `s` with the bytes from `off` on replaced by `patch`. */
  function Splice(s: seq<byte>, off: nat, patch: seq<byte>): (r: seq<byte>)
    requires off + |patch| <= |s|
    ensures |r| == |s|
    ensures forall i :: 0 <= i < |s| ==> r[i] == if off <= i < off + |patch| then patch[i - off] else s[i]
  {
    s[..off] + patch + s[off + |patch|..]
  }

  lemma SpliceSlice(s: seq<byte>, off: nat, patch: seq<byte>, lo: nat, hi: nat)
    requires off + |patch| <= |s| && lo <= hi <= |s|
    ensures lo == off && hi == off + |patch| ==> Splice(s, off, patch)[lo..hi] == patch
    ensures hi <= off || off + |patch| <= lo ==> Splice(s, off, patch)[lo..hi] == s[lo..hi]
  {
  }

  /** The `n` bytes of `s` from `off` on, zeros standing for bytes past the end. */
  function Window(s: seq<byte>, off: nat, n: nat): (r: seq<byte>)
    ensures |r| == n
    ensures forall i :: 0 <= i < n ==> r[i] == if off + i < |s| then s[off + i] else 0
  {
    seq(n, i requires 0 <= i => if off + i < |s| then s[off + i] else 0)
  }

  lemma WindowSplit(s: seq<byte>, off: nat, m: nat, n: nat)
    ensures Window(s, off, m + n) == Window(s, off, m) + Window(s, off + m, n)
  {
  }

  function Le16(v: nat): (r: seq<byte>)
    requires v < 0x1_0000
    ensures |r| == 2
  {
    [v % 256, v / 256]
  }

  function Le32(v: nat): (r: seq<byte>)
    requires v < 0x1_0000_0000
    ensures |r| == 4
  {
    [v % 256, v / 256 % 256, v / 256 / 256 % 256, v / 256 / 256 / 256]
  }

  function GetLe16(s: seq<byte>, off: nat): (v: nat)
    requires off + 2 <= |s|
    ensures v < 0x1_0000
  {
    var b0: int, b1: int := s[off], s[off + 1];
    b0 + 0x100 * b1
  }

  function GetLe32(s: seq<byte>, off: nat): (v: nat)
    requires off + 4 <= |s|
    ensures v < 0x1_0000_0000
  {
    var b0: int, b1: int, b2: int, b3: int := s[off], s[off + 1], s[off + 2], s[off + 3];
    b0 + 0x100 * b1 + 0x1_0000 * b2 + 0x100_0000 * b3
  }

  lemma Recompose(v: nat)
    ensures v == v % 256 + 0x100 * (v / 256 % 256) + 0x1_0000 * (v / 256 / 256 % 256)
            + 0x100_0000 * (v / 256 / 256 / 256)
  {
    var a := v / 256;
    var b := a / 256;
    assert v == 256 * a + v % 256 && a == 256 * b + a % 256 && b == 256 * (b / 256) + b % 256;
  }

  /** Storing a word and reading it back, and leaving the words that do not overlap it. */
  lemma Le32Splice(s: seq<byte>, off: nat, v: nat, other: nat)
    requires off + 4 <= |s| && other + 4 <= |s| && v < 0x1_0000_0000
    ensures GetLe32(Splice(s, off, Le32(v)), off) == v
    ensures other + 4 <= off || off + 4 <= other ==>
              GetLe32(Splice(s, off, Le32(v)), other) == GetLe32(s, other)
  {
    Recompose(v);
  }

  lemma Le16Get(v: nat)
    requires v < 0x1_0000
    ensures GetLe16(Le16(v), 0) == v
  {
  }

  lemma Le32Get(v: nat)
    requires v < 0x1_0000_0000
    ensures GetLe32(Le32(v), 0) == v
  {
    Recompose(v);
  }
}
