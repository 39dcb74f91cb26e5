// Bits of the frame bitmap: reading, setting and clearing one, and counting the set ones.
module Bitmap {

  /** `1 << i`. */
  function Mask(i: nat): bv8
    requires i < 8
  {
    if i == 0 then 1 else if i == 1 then 2 else if i == 2 then 4 else if i == 3 then 8
    else if i == 4 then 16 else if i == 5 then 32 else if i == 6 then 64 else 128
  }

  predicate Bit(b: bv8, i: nat)
    requires i < 8
  {
    b & Mask(i) != 0
  }

  lemma SetBit(b: bv8, i: nat, j: nat)
    requires i < 8 && j < 8
    ensures Bit(b | Mask(i), j) <==> i == j || Bit(b, j)
  {
  }

  lemma ClearBit(b: bv8, i: nat, j: nat)
    requires i < 8 && j < 8
    ensures Bit(b & !Mask(i), j) <==> i != j && Bit(b, j)
  {
  }

  function One(c: bool): nat { if c then 1 else 0 }

  /** `count_ones`. */
  function CountOnes(b: bv8): nat {
    One(Bit(b, 0)) + One(Bit(b, 1)) + One(Bit(b, 2)) + One(Bit(b, 3))
    + One(Bit(b, 4)) + One(Bit(b, 5)) + One(Bit(b, 6)) + One(Bit(b, 7))
  }

  // -- Counting ---------------------------------------------------------------------------------------

  /** How many entries are true. */
  function Count(s: seq<bool>): nat {
    if s == [] then 0 else Count(s[..|s| - 1]) + One(s[|s| - 1])
  }

  lemma {:induction false} CountUpdate(s: seq<bool>, i: nat, c: bool)
    requires i < |s|
    ensures Count(s[i := c]) == Count(s) - One(s[i]) + One(c)
    decreases |s|
  {
    var n := |s| - 1;
    if i < n {
      CountUpdate(s[..n], i, c);
      assert s[i := c][..n] == s[..n][i := c];
    } else {
      assert s[i := c][..n] == s[..n];
    }
  }

  lemma {:induction false} CountConcat(a: seq<bool>, b: seq<bool>)
    ensures Count(a + b) == Count(a) + Count(b)
    decreases |b|
  {
    if b == [] {
      assert a + b == a;
    } else {
      var n := |b| - 1;
      assert (a + b)[..|a| + n] == a + b[..n];
      CountConcat(a, b[..n]);
    }
  }

  lemma {:induction false} CountBounds(s: seq<bool>)
    ensures Count(s) <= |s|
    ensures (exists i :: 0 <= i < |s| && s[i]) ==> Count(s) > 0
    decreases |s|
  {
    if s != [] {
      var n := |s| - 1;
      CountBounds(s[..n]);
      if exists i :: 0 <= i < |s| && s[i] {
        var i :| 0 <= i < |s| && s[i];
        if i < n {
          assert s[..n][i];
        }
      }
    }
  }

  lemma {:induction false} CountNone(s: seq<bool>)
    requires forall i :: 0 <= i < |s| ==> !s[i]
    ensures Count(s) == 0
    decreases |s|
  {
    if s != [] {
      CountNone(s[..|s| - 1]);
    }
  }

  /** The eight bits of a byte, lowest first. */
  function BitsOf(b: bv8): (r: seq<bool>)
    ensures |r| == 8 && forall i :: 0 <= i < 8 ==> r[i] == Bit(b, i)
  {
    seq(8, i requires 0 <= i < 8 => Bit(b, i))
  }

  lemma CountOnesIsCount(b: bv8)
    ensures CountOnes(b) == Count(BitsOf(b))
  {
    var s := BitsOf(b);
    assert s == [s[0], s[1], s[2], s[3], s[4], s[5], s[6], s[7]];
    Count8(s[0], s[1], s[2], s[3], s[4], s[5], s[6], s[7]);
  }

  lemma Count8(a: bool, b: bool, c: bool, d: bool, e: bool, f: bool, g: bool, h: bool)
    ensures Count([a, b, c, d, e, f, g, h])
            == One(a) + One(b) + One(c) + One(d) + One(e) + One(f) + One(g) + One(h)
  {
    Count4(a, b, c, d);
    Count4(e, f, g, h);
    CountConcat([a, b, c, d], [e, f, g, h]);
    assert [a, b, c, d] + [e, f, g, h] == [a, b, c, d, e, f, g, h];
  }

  lemma Count4(a: bool, b: bool, c: bool, d: bool)
    ensures Count([a, b, c, d]) == One(a) + One(b) + One(c) + One(d)
  {
    assert [a][..0] == [] && [a, b][..1] == [a] && [a, b, c][..2] == [a, b] && [a, b, c, d][..3] == [a, b, c];
    assert Count([a]) == One(a);
    assert Count([a, b]) == One(a) + One(b);
    assert Count([a, b, c]) == One(a) + One(b) + One(c);
  }

  /** Bit `f` of a run of bytes. */
  predicate BitAt(bytes: seq<bv8>, f: nat)
    requires f / 8 < |bytes|
  {
    Bit(bytes[f / 8], f % 8)
  }

  lemma SetInBytes(bytes: seq<bv8>, f: nat, after: seq<bv8>)
    requires f / 8 < |bytes| && after == bytes[f / 8 := bytes[f / 8] | Mask(f % 8)]
    ensures forall g: nat :: g < 8 * |bytes| ==> BitAt(after, g) == (g == f || BitAt(bytes, g))
  {
    hide Mask, Bit;
    forall g: nat | g < 8 * |bytes|
      ensures BitAt(after, g) == (g == f || BitAt(bytes, g))
    {
      if g / 8 == f / 8 {
        SetBit(bytes[f / 8], f % 8, g % 8);
      }
    }
  }

  lemma ClearInBytes(bytes: seq<bv8>, f: nat, after: seq<bv8>)
    requires f / 8 < |bytes| && after == bytes[f / 8 := bytes[f / 8] & !Mask(f % 8)]
    ensures forall g: nat :: g < 8 * |bytes| ==> BitAt(after, g) == (g != f && BitAt(bytes, g))
  {
    hide Mask, Bit;
    forall g: nat | g < 8 * |bytes|
      ensures BitAt(after, g) == (g != f && BitAt(bytes, g))
    {
      if g / 8 == f / 8 {
        ClearBit(bytes[f / 8], f % 8, g % 8);
      }
    }
  }

  /** The first `n` bits of a run of bytes. */
  function Bits(bytes: seq<bv8>, n: nat): (r: seq<bool>)
    requires n <= 8 * |bytes|
    ensures |r| == n
    ensures forall f :: 0 <= f < n ==> r[f] == BitAt(bytes, f)
  {
    seq(n, f requires 0 <= f < n => BitAt(bytes, f))
  }

  lemma BitsSnoc(bytes: seq<bv8>, b: bv8)
    ensures Bits(bytes + [b], 8 * |bytes| + 8) == Bits(bytes, 8 * |bytes|) + BitsOf(b)
  {
  }
}
