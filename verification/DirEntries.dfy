// Directory entries: the packed 32-byte record of kernel/src/fs/fat32/bpb.rs, its flags and its
// 8.3 name.
module DirEntries {
  import opened Bytes

  /** A record as it lies on disk: name 0-7, extension 8-10, attributes 11, cluster high half 20-21,
      cluster low half 26-27, file size 28-31. */
  type DirEntry = e: seq<byte> | |e| == 32 witness Zeros(32)

  const SPACE: byte := 32
  const DOT: byte := 46
  const DELETED: byte := 0xE5
  const ATTR_ARCHIVE: byte := 0x20
  const ATTR_DIRECTORY: byte := 0x10

  predicate IsEnd(e: DirEntry) { e[0] == 0 }

  predicate IsDeleted(e: DirEntry) { e[0] == DELETED }

  /** All four low attribute bits set. */
  predicate IsLongName(e: DirEntry) { e[11] % 16 == 15 }

  predicate IsVolumeLabel(e: DirEntry) { e[11] / 8 % 2 == 1 }

  predicate IsDirectory(e: DirEntry) { e[11] / 16 % 2 == 1 }

  /** Entries every scan of a directory steps over. */
  predicate Skipped(e: DirEntry) { IsDeleted(e) || IsLongName(e) || IsVolumeLabel(e) }

  function FirstCluster(e: DirEntry): (c: nat)
    ensures c < 0x1_0000_0000
  {
    0x1_0000 * GetLe16(e, 20) + GetLe16(e, 26)
  }

  function FileSize(e: DirEntry): nat { GetLe32(e, 28) }

  function WithFirstCluster(e: DirEntry, cluster: nat): DirEntry {
    Splice(Splice(e, 20, Le16(cluster / 0x1_0000 % 0x1_0000)), 26, Le16(cluster % 0x1_0000))
  }

  function WithFileSize(e: DirEntry, size: nat): DirEntry
    requires size < 0x1_0000_0000
  {
    Splice(e, 28, Le32(size))
  }

  function WithAttributes(e: DirEntry, attributes: byte): DirEntry { e[11 := attributes] }

  /** `set_first_cluster` and the size update are read back, and leave name and attributes alone. */
  lemma ClusterAndSize(e: DirEntry, cluster: nat, size: nat)
    requires cluster < 0x1_0000_0000 && size < 0x1_0000_0000
    ensures var e' := WithFileSize(WithFirstCluster(e, cluster), size);
            && FirstCluster(e') == cluster && FileSize(e') == size
            && e'[..20] == e[..20]
    ensures var e' := WithFileSize(e, size);
            && FirstCluster(e') == FirstCluster(e) && FileSize(e') == size && e'[..28] == e[..28]
    ensures FirstCluster(WithFirstCluster(e, cluster)) == cluster
    ensures WithFirstCluster(e, cluster)[..20] == e[..20] && FileSize(WithFirstCluster(e, cluster)) == FileSize(e)
  {
    var e1 := WithFirstCluster(e, cluster);
    Le16Get(cluster / 0x1_0000 % 0x1_0000);
    Le16Get(cluster % 0x1_0000);
    assert e1[20] == Le16(cluster / 0x1_0000 % 0x1_0000)[0] && e1[21] == Le16(cluster / 0x1_0000 % 0x1_0000)[1];
    assert e1[26] == Le16(cluster % 0x1_0000)[0] && e1[27] == Le16(cluster % 0x1_0000)[1];
    Le32Splice(e1, 28, size, 28);
    Le32Splice(e, 28, size, 28);
  }

  // -- 8.3 names --------------------------------------------------------------------------------------

  function ToUpper(s: seq<byte>): (r: seq<byte>)
    ensures |r| == |s|
  {
    seq(|s|, i requires 0 <= i < |s| => UpperByte(s[i]))
  }

  function UpperByte(b: byte): byte { if 97 <= b <= 122 then b - 32 else b }

  function LowerByte(b: byte): byte { if 65 <= b <= 90 then b + 32 else b }

  function ToLower(s: seq<byte>): (r: seq<byte>)
    ensures |r| == |s|
  {
    seq(|s|, i requires 0 <= i < |s| => LowerByte(s[i]))
  }

  /** A byte that ends a name or extension field. */
  predicate Ends(b: byte) { b == SPACE || b == 0 }

  /** A field's bytes up to the first space or NUL. */
  function Trim(s: seq<byte>): (r: seq<byte>)
    ensures r <= s
    ensures forall i :: 0 <= i < |r| ==> !Ends(r[i])
    ensures |r| < |s| ==> Ends(s[|r|])
  {
    if s == [] || Ends(s[0]) then [] else [s[0]] + Trim(s[1..])
  }

  function FullNameUpper(e: DirEntry): seq<byte> {
    Trim(e[..8]) + if Ends(e[8]) then [] else [DOT] + Trim(e[8..11])
  }

  function FullName(e: DirEntry): seq<byte> { ToLower(FullNameUpper(e)) }

  /** Position of the first dot, or the length. */
  function DotPos(n: seq<byte>): (p: nat)
    ensures p <= |n|
    ensures p < |n| ==> n[p] == DOT
    ensures forall i :: 0 <= i < p ==> n[i] != DOT
  {
    if n == [] || n[0] == DOT then 0 else 1 + DotPos(n[1..])
  }

  /** The first `width` bytes of `s`, padded with spaces. */
  function Field(s: seq<byte>, width: nat): (r: seq<byte>)
    ensures |r| == width
    ensures forall i :: 0 <= i < width ==> r[i] == if i < |s| then s[i] else SPACE
  {
    seq(width, i requires 0 <= i < width => if i < |s| then s[i] else SPACE)
  }

  function NameField(n: seq<byte>): seq<byte> { Field(n[..DotPos(n)], 8) }

  function ExtField(n: seq<byte>): seq<byte>
    requires n != []
  {
    if DotPos(n) < |n| - 1 then Field(n[DotPos(n) + 1..], 3) else Field([], 3)
  }

  function WithName83(e: DirEntry, n: seq<byte>): (r: DirEntry)
    requires n != []
    ensures r[..8] == NameField(n) && r[8..11] == ExtField(n) && r[11..] == e[11..]
  {
    NameField(n) + ExtField(n) + e[11..]
  }

  /** No byte of `s` would end a field. */
  predicate Clean(s: seq<byte>) {
    forall i :: 0 <= i < |s| ==> !Ends(s[i])
  }

  /** The part of a name before its first dot. */
  function BaseOf(n: seq<byte>): seq<byte> { n[..DotPos(n)] }

  /** The part after the first dot; nothing when there is no dot. */
  function ExtOf(n: seq<byte>): seq<byte> { if DotPos(n) < |n| then n[DotPos(n) + 1..] else [] }

  /** Names a record can hold without loss. */
  predicate Fits83(n: seq<byte>) {
    && n != []
    && |BaseOf(n)| <= 8 && Clean(BaseOf(n))
    && (DOT in n ==> 1 <= |ExtOf(n)| <= 3 && Clean(ExtOf(n)))
  }

  /** A field gives its text back exactly when the text fits and is clean. */
  lemma TrimField(s: seq<byte>, width: nat)
    ensures Trim(Field(s, width)) <= s
    ensures Trim(Field(s, width)) == s <==> |s| <= width && Clean(s)
  {
    var f := Field(s, width);
    var t := Trim(f);
    assert forall i :: |s| <= i < width ==> Ends(f[i]);
    assert forall i :: 0 <= i < |t| ==> t[i] == f[i];
    if |t| > 0 {
      assert !Ends(t[|t| - 1]);
    }
  }

  lemma StoredFullName(e: DirEntry, n: seq<byte>)
    requires n != []
    ensures FullNameUpper(WithName83(e, n))
            == Trim(NameField(n)) + if Ends(ExtField(n)[0]) then [] else [DOT] + Trim(ExtField(n))
  {
    var r := WithName83(e, n);
    assert r[8] == r[8..11][0];
  }

  lemma DotPosIn(n: seq<byte>)
    ensures DOT in n <==> DotPos(n) < |n|
  {
    if DotPos(n) < |n| {
      assert n[DotPos(n)] == DOT;
    }
  }

  /** Storing a non-empty name and printing it gives the name back exactly when it fits 8.3. */
  lemma Name83RoundTrip(e: DirEntry, n: seq<byte>)
    requires n != []
    ensures FullNameUpper(WithName83(e, n)) == n <==> Fits83(n)
  {
    hide Trim, DotPos, Clean;
    StoredFullName(e, n);
    DotPosIn(n);
    TrimField(BaseOf(n), 8);
    if DotPos(n) == |n| {
      assert Ends(ExtField(n)[0]) by {
        assert ExtField(n) == Field([], 3);
      }
      assert Trim(NameField(n)) + [] == Trim(NameField(n));
      assert BaseOf(n) == n;
    } else if ExtOf(n) == [] {
      assert Ends(ExtField(n)[0]) by {
        assert ExtField(n) == Field([], 3);
      }
      assert |Trim(NameField(n)) + []| < |n|;
    } else {
      DottedRoundTrip(Trim(NameField(n)), BaseOf(n), ExtOf(n));
      assert n == BaseOf(n) + [DOT] + ExtOf(n);
      assert ExtField(n) == Field(ExtOf(n), 3);
    }
  }

  /** The dotted case: `t` is what is left of the base, `ext` the text after the dot. */
  lemma DottedRoundTrip(t: seq<byte>, base: seq<byte>, ext: seq<byte>)
    requires t <= base && (forall i :: 0 <= i < |base| ==> base[i] != DOT) && ext != []
    ensures var f := Field(ext, 3);
            t + (if Ends(f[0]) then [] else [DOT] + Trim(f)) == base + [DOT] + ext
            <==> t == base && |ext| <= 3 && Clean(ext)
  {
    var f := Field(ext, 3);
    TrimField(ext, 3);
    assert f[0] == ext[0];
    if Ends(f[0]) {
      assert |t + []| < |base + [DOT] + ext|;
    } else {
      assert t + ([DOT] + Trim(f)) == t + [DOT] + Trim(f);
      if t + [DOT] + Trim(f) == base + [DOT] + ext {
        FirstDotSplits(t, Trim(f), base, ext);
      }
    }
  }

  /** A text whose first dot is known splits in one way. */
  lemma FirstDotSplits(t: seq<byte>, x: seq<byte>, base: seq<byte>, ext: seq<byte>)
    requires t + [DOT] + x == base + [DOT] + ext
    requires t <= base && (forall i :: 0 <= i < |base| ==> base[i] != DOT)
    ensures t == base && x == ext
  {
    var whole := t + [DOT] + x;
    assert whole[|t|] == DOT;
    assert forall i :: 0 <= i < |base| ==> whole[i] == base[i];
    assert t == base;
    assert x == whole[|t| + 1..] == ext;
  }

  // -- The loops that build and take apart names ---------------------------------------------------

  lemma TrimStep(field: seq<byte>, i: nat)
    requires i < |field|
    ensures Trim(field[i..]) == if Ends(field[i]) then [] else [field[i]] + Trim(field[i + 1..])
  {
    assert field[i..][1..] == field[i + 1..];
  }

  method TrimmedBytes(field: seq<byte>) returns (result: seq<byte>)
    ensures result == Trim(field)
  {
    hide Trim;
    result := [];
    assert field[0..] == field;
    for i := 0 to |field|
      invariant Trim(field) == result + Trim(field[i..])
    {
      var b := field[i];
      TrimStep(field, i);
      if b == SPACE || b == 0 {
        return;
      }
      result := result + [b];
    }
  }

  method ComputeFullNameUpper(e: DirEntry) returns (result: seq<byte>)
    ensures result == FullNameUpper(e)
  {
    result := TrimmedBytes(e[..8]);
    if e[8] != SPACE && e[8] != 0 {
      var ext := TrimmedBytes(e[8..11]);
      result := result + [DOT] + ext;
    }
  }

  method FindDot(nameUpper: seq<byte>) returns (dotPos: nat)
    ensures dotPos == DotPos(nameUpper)
  {
    dotPos := |nameUpper|;
    for i := 0 to |nameUpper|
      invariant dotPos == |nameUpper|
      invariant forall j :: 0 <= j < i ==> nameUpper[j] != DOT
    {
      if nameUpper[i] == DOT {
        dotPos := i;
        break;
      }
    }
  }

  /** `text` copied over the beginning of a field of spaces. */
  method FillField(width: nat, text: seq<byte>) returns (field: seq<byte>)
    ensures field == Field(text, width)
  {
    field := seq(width, _ => SPACE);
    var copyLen := if |text| < width then |text| else width;
    field := Splice(field, 0, text[..copyLen]);
  }

  method SetName83(e: DirEntry, nameUpper: seq<byte>) returns (r: DirEntry)
    requires nameUpper != []
    ensures r == WithName83(e, nameUpper)
  {
    hide DotPos, Field;
    var dotPos := FindDot(nameUpper);
    var name := FillField(8, nameUpper[..dotPos]);
    var ext;
    if dotPos < |nameUpper| - 1 {
      ext := FillField(3, nameUpper[dotPos + 1..]);
    } else {
      ext := FillField(3, []);
    }
    r := name + ext + e[11..];
  }
}
