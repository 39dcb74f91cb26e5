// Small volumes on which the failures stated elsewhere happen: a file that does not read back, two
// records of one name, a root directory freed, a name that is no name, a cluster lost by a call that
// fails, records kept in a file, and a descriptor led astray by an overwrite.
module Witnesses {
  import opened Wrappers
  import opened Bytes
  import opened Chains
  import opened Multiples
  import opened Volumes
  import opened DirEntries
  import opened Directory
  import opened Paths
  import opened VfsSpec
  import opened Storage
  import opened Tree
  import opened Invariant
  import opened Operations
  import opened TreePaths
  import opened Runs
  import opened Contents
  import opened Rewrites
  import opened Exactness
  import opened Failures
  import opened Detours
  import opened Errors

  // -- Names in the root directory --------------------------------------------------------------------

  predicate PlainName(n: seq<byte>) { n != [] && forall i :: 0 <= i < |n| ==> n[i] != SLASH }

  lemma RootPath(v: Volume, n: seq<byte>)
    requires v.Valid() && PlainName(n)
    ensures NamePart([SLASH] + n) == n && ParentDir(v, [SLASH] + n) == Some(v.root)
  {
    var p := [SLASH] + n;
    assert p[1..] == n;
    assert TrimSlashes(p) == n by { TrimNothing(n); }
    StartOfName([], n);
    assert [] + n == n && n[0..] == n;
    assert ParentPath(p) == [] && TrimSlashes([]) == [];
  }

  // -- When creating succeeds -------------------------------------------------------------------------

  /** With a hole in the directory, a new file needs one free cluster, and a second one when its data
      does not fit the first. */
  lemma CreateOkExactly(v: Volume, l: Layout, path: seq<byte>, data: seq<byte>, d: nat)
    requires Good(v, l) && v.Valid() && ParentDir(v, path) == Some(d) && NamePart(path) != [] && Target(v, path).None?
    requires d in l.dirs && HoleFrom(l.dirs[d], 0).Some?
    ensures CreateFile(v, path, data).1.Ok? <==> WriteNewFile(v, data).1.Ok?
    ensures CreateFile(v, path, data).1.Ok? ==> CreateFile(v, path, data).0.fat == WriteNewFile(v, data).0.fat
  {
    hide Good, FatOk, WriteNewFile, FindFrom, Slots, HoleFrom, NewEntry, SetSlot, WalkDirs, Follow, Rehome, NewChain,
         Overwrite;
    var d' := AtParent(v, l, path);
    if WriteNewFile(v, data).1.Ok? {
      var l1, c := FileMade(v, l, data);
      StoredDir(WriteNewFile(v, data).0, l1.chains, l1.home, l1.dirs, d);
    }
  }

  /** Free clusters `a` and `b` are enough for any data; one is for none. */
  lemma EnoughFree(v: Volume, data: seq<byte>, a: nat, b: nat)
    requires v.Valid() && 2 <= a < b < |v.fat| && v.fat[a] == FREE && (data != [] ==> v.fat[b] == FREE)
    ensures WriteNewFile(v, data).1.Ok?
    ensures data == [] ==> WriteNewFile(v, data).0.fat == v.fat[LowestFree(v.fat).value := EOC]
    ensures LowestFree(v.fat).Ok? && LowestFree(v.fat).value <= a
  {
    hide Store, Link, Needed;
    assert FirstFree(v.fat, 2).Some?;
    var c := LowestFree(v.fat).value;
    if data != [] {
      var v1 := WithNewCluster(v, c);
      assert v1.fat[if c == a then b else a] == FREE;
      assert FirstFree(v1.fat, 2).Some?;
    }
  }

  // -- A formatted volume -----------------------------------------------------------------------------

  /** Six free clusters of 64 bytes, so two slots in the root. */
  function Small(): (v: Volume)
    ensures v.Valid() && v.root == 2 && v.csz == 64 && |v.fat| == 8
    ensures v.fat[2] == EOC && forall c :: 3 <= c < 8 ==> v.fat[c] == FREE
  {
    Formatted(64, 2, 8)
  }

  lemma SmallLayout() returns (l: Layout)
    ensures Good(Small(), l) && l.chains == map[2 := [2]] && l.dirs.Keys == {2} && |l.dirs[2]| == 2
    ensures forall i :: 0 <= i < 2 ==> IsEnd(l.dirs[2][i])
  {
    hide Good;
    l := FormattedIsGood(64, 2, 8);
  }

  lemma EndsFirst(slots: seq<DirEntry>, n: seq<byte>)
    requires slots != [] && IsEnd(slots[0])
    ensures HoleFrom(slots, 0) == Some(0) && FindFrom(slots, 0, n).None?
  {
  }

  /** Its root takes any plain name that can be stored. */
  lemma SmallTakes(n: seq<byte>) returns (l: Layout)
    requires PlainName(n) && Storable(ToUpper(n))
    ensures Good(Small(), l) && l.chains == map[2 := [2]] && l.dirs.Keys == {2} && |l.dirs[2]| == 2
    ensures forall i :: 0 <= i < 2 ==> IsEnd(l.dirs[2][i])
    ensures HoleFrom(l.dirs[2], 0) == Some(0)
    ensures NamePart([SLASH] + n) == n && ParentDir(Small(), [SLASH] + n) == Some(2)
    ensures Target(Small(), [SLASH] + n).None? && TakesEntry(Small(), [SLASH] + n)
  {
    hide Good, FindFrom, HoleFrom, Slots, Follow, Small, NamePart, WalkDirs;
    l := SmallLayout();
    RootPath(Small(), n);
    EndsFirst(l.dirs[2], ToUpper(n));
    var d := AtParent(Small(), l, [SLASH] + n);
    RoomThere(Small(), l, 2);
  }

  // -- A file that does not read back -----------------------------------------------------------------

  const A: byte := 65

  lemma UpperA(n: nat)
    requires n > 0
    ensures var name := seq(n, _ => A); ToUpper(name) == name && PlainName(name) && Storable(name) && NoLower(name)
  {
  }

  lemma AFits()
    ensures Fits83([A])
  {
    assert DotPos([A]) == 1 by { assert [A][1..] == []; }
  }

  /** MAIN: on a volume just formatted a file of 129 bytes, all of them one, is created under the name A,
      `create_file` returns Ok, and the file does not read back. */
  lemma LostData()
    ensures var data := seq(129, _ => 1);
            && CreateFile(Small(), [SLASH, A], data).1.Ok?
            && CreateFile(Small(), [SLASH, A], data).0.Valid()
            && ReadFileContent(CreateFile(Small(), [SLASH, A], data).0, [SLASH, A]) != Ok(data)
  {
    hide Good, FindFrom, HoleFrom, Slots, Follow, Small, NamePart, WalkDirs, CreateFile, ReadFileContent, Fits83,
         TakesEntry, Target;
    var data: seq<byte> := seq(129, _ => 1);
    UpperA(1);
    assert seq(1, _ => A) == [A] && [SLASH] + [A] == [SLASH, A];
    var l := SmallTakes([A]);
    EnoughFree(Small(), data, 3, 4);
    CreateOkExactly(Small(), l, [SLASH, A], data, 2);
    AFits();
    CreateThenRead(Small(), l, [SLASH, A], data);
    assert data[64] == 1;
  }

  // -- Two records of one name ------------------------------------------------------------------------

  const B: byte := 66

  /** Eight letters A and one letter more: too long for a record. */
  function LongName(last: byte): seq<byte> { [A, A, A, A, A, A, A, A, last] }

  lemma LongNameFacts(last: byte)
    requires last == A || last == B
    ensures ToUpper(LongName(last)) == LongName(last) && PlainName(LongName(last)) && Storable(LongName(last))
    ensures !Fits83(LongName(last)) && StoredName(LongName(last)) == seq(8, _ => A)
    ensures LongName(last) != [] && seq(8, _ => A) != LongName(A) && seq(8, _ => A) != LongName(B)
  {
    hide FullNameUpper, Trim, Field;
    var n := LongName(last);
    assert forall i :: 0 <= i < 9 ==> n[i] == A || n[i] == last;
    assert ToUpper(n) == n;
    assert DOT !in n;
    DotPosIn(n);
    StoredFullName(Zeros(32), n);
    assert n[..DotPos(n)] == n;
    assert Field(n, 8) == Field(seq(8, _ => A), 8);
    assert ExtField(n) == Field([], 3);
    TrimField(seq(8, _ => A), 8);
    assert Trim(NameField(n)) + [] == Trim(NameField(n));
  }

  /** The volume after one file of at most a cluster is made in the root. */
  lemma OneMade(n: seq<byte>, data: seq<byte>) returns (v: Volume, l: Layout, e: DirEntry)
    requires PlainName(n) && ToUpper(n) == n && Storable(n) && |data| <= 64
    ensures CreateFile(Small(), [SLASH] + n, data).0 == v && CreateFile(Small(), [SLASH] + n, data).1.Ok?
    ensures Good(v, l) && v.Valid() && v.root == 2 && l.dirs.Keys == {2} && |v.fat| == 8
    ensures |l.dirs[2]| >= 2 && l.dirs[2][0] == e && IsEnd(l.dirs[2][1])
    ensures Live(e) && !IsDirectory(e) && FullNameUpper(e) == StoredName(n) && DirOk(l.dirs[2])
    ensures forall m :: FindFrom(l.dirs[2], 0, m) == if m == StoredName(n) then Some(0) else None
    ensures exists a, b :: 2 <= a < b < 8 && v.fat[a] == FREE && v.fat[b] == FREE
    ensures var h := FirstCluster(e);
            2 <= h < 8 && h in l.chains && l.chains[h] == [h] && v.csz == 64 && v.data[h] == Window(data, 0, 64)
  {
    hide Good, FindFrom, HoleFrom, Slots, Follow, Small, NamePart, WalkDirs, CreateFile, TakesEntry, Target,
         NewEntry, Live, DirOk, FullNameUpper, WriteNewFile, NewChain, Content, CreateFresh, IsDirectory, NoLower,
         FirstCluster, OthersKept;
    var path := [SLASH] + n;
    var l0 := SmallTakes(n);
    var c := SmallFilled(data);
    CreateOkExactly(Small(), l0, path, data, 2);
    var d, c', k;
    l, d, c', k, e := FreshState(Small(), l0, path, data);
    v := CreateFile(Small(), path, data).0;
    ContentOfOne(v.data, c);
    RootSlots(l0.dirs[2], l.dirs[2], e, n);
    GoodDirOk(v, l, 2);
    UpperClean(n);
    NewEntryFields(n, ATTR_ARCHIVE, c, |data| % U32);
    FreshHead(Small(), d, ToUpper(n), data);
  }

  lemma FreshHead(v: Volume, d: nat, n: seq<byte>, data: seq<byte>)
    requires v.Valid() && n != [] && CreateFresh(v, d, n, data).1.Ok?
    ensures WriteNewFile(v, data).1 == Ok(CreateFresh(v, d, n, data).1.value)
  {
    hide WriteNewFile, AddEntry, Follow, NewEntry;
  }

  lemma SmallFilled(data: seq<byte>) returns (c: nat)
    requires |data| <= 64
    ensures WriteNewFile(Small(), data).1 == Ok(c) && 2 <= c < 4 && NewChain(Small(), data) == [c]
    ensures var v1 := WriteNewFile(Small(), data).0;
            && |v1.fat| == |v1.data| == 8 && v1.fat[4] == FREE && v1.fat[5] == FREE
            && Content(v1.data, [c]) == Window(data, 0, 64)
  {
    hide Small, WriteNewFile, NewChain, Content;
    EnoughFree(Small(), data, 3, 4);
    OneClusterMade(Small(), data);
    c := WriteNewFile(Small(), data).1.value;
  }

  /** A file of at most one cluster takes that cluster and no other. */
  lemma OneClusterMade(v: Volume, data: seq<byte>)
    requires v.Valid() && WriteNewFile(v, data).1.Ok? && |data| <= v.csz
    ensures var v1, c := WriteNewFile(v, data).0, WriteNewFile(v, data).1.value;
            && c == LowestFree(v.fat).value && 2 <= c < |v.fat| == |v1.fat| == |v1.data|
            && NewChain(v, data) == [c]
            && v1.fat == v.fat[c := v1.fat[c]] && Content(v1.data, [c]) == Window(data, 0, v.csz)
  {
    hide Store, Link, FirstFree;
    var c := LowestFree(v.fat).value;
    var v0 := WithNewCluster(v, c);
    CreateEffect(v, data);
    assert Needed(|data|, v.csz) <= 1;
    assert Span(1, v.csz) == v.csz by { assert Span(0, v.csz) == 0; }
    if data == [] {
      ContentOfOne(v0.data, c);
      assert Zeros(v.csz) == Window(data, 0, v.csz);
    } else {
      WrittenContent(v0, [c], data);
    }
  }

  lemma ContentOfOne(data: seq<seq<byte>>, c: nat)
    requires 2 <= c < |data|
    ensures InRange([c], |data|) && Content(data, [c]) == data[c]
  {
    assert [c][..0] == [];
    assert Content(data, [c]) == Content(data, []) + data[c];
  }

  lemma RootSlots(slots: seq<DirEntry>, slots': seq<DirEntry>, e: DirEntry, n: seq<byte>)
    requires |slots| == 2 && (forall i :: 0 <= i < 2 ==> IsEnd(slots[i])) && DirOk(slots)
    requires EntryAdded(slots, slots', 0, e) && Live(e) && n != [] && FullNameUpper(e) == StoredName(n)
    ensures slots'[0] == e && IsEnd(slots'[1])
    ensures forall m :: FindFrom(slots', 0, m) == if m == StoredName(n) then Some(0) else None
  {
    hide FullNameUpper, FindFrom, IsDotEntry, DirOk;
    forall m
      ensures FindFrom(slots', 0, m) == if m == StoredName(n) then Some(0) else None
    {
      EndsFirst(slots, m);
      AddedLookups(slots, slots', 0, e, m);
    }
  }

  /** MAIN: two files made under names that agree in their first eight letters, both calls Ok, are two
      records of one name. */
  lemma TwoRecords()
    ensures var v1 := CreateFile(Small(), [SLASH] + LongName(A), []).0;
            && CreateFile(Small(), [SLASH] + LongName(A), []).1.Ok? && v1.Valid()
            && CreateFile(v1, [SLASH] + LongName(B), []).1.Ok?
            && var v2 := CreateFile(v1, [SLASH] + LongName(B), []).0;
               v2.Valid() && !OnlyRecord(v2, [SLASH] + seq(8, _ => A))
  {
    hide Good, FindFrom, HoleFrom, Slots, Follow, Small, NamePart, WalkDirs, CreateFile, TakesEntry, Target,
         NewEntry, Live, DirOk, FullNameUpper, WriteNewFile, NewChain, Content, CreateFresh, OnlyRecord, Fits83,
         StoredName, LongName, PlainName, Storable;
    var n, m, p := LongName(B), seq(8, _ => A), [SLASH] + LongName(B);
    LongNameFacts(A);
    LongNameFacts(B);
    var v1, l1, e1 := OneMade(LongName(A), []);
    RootPath(v1, n);
    SecondRoom(v1, l1, p);
    var a, b :| 2 <= a < b < 8 && v1.fat[a] == FREE && v1.fat[b] == FREE;
    EnoughFree(v1, [], a, b);
    CreateOkExactly(v1, l1, p, [], 2);
    var l2, d, c, k, e2 := FreshState(v1, l1, p, []);
    BothMatch(CreateFile(v1, p, []).0, l2, l1.dirs[2], e1, k, e2, m);
  }

  lemma SecondRoom(v: Volume, l: Layout, p: seq<byte>)
    requires Good(v, l) && v.Valid() && ParentDir(v, p) == Some(2) && 2 in l.dirs && |l.dirs[2]| >= 2
             && IsEnd(l.dirs[2][1])
    requires NamePart(p) != [] && Storable(ToUpper(NamePart(p))) && FindFrom(l.dirs[2], 0, ToUpper(NamePart(p))).None?
    ensures HoleFrom(l.dirs[2], 0).Some? && Target(v, p).None? && TakesEntry(v, p)
  {
    hide Good, FindFrom, Slots, Follow, WalkDirs;
    var d := AtParent(v, l, p);
    RoomThere(v, l, 2);
  }

  lemma BothMatch(v: Volume, l: Layout, slots: seq<DirEntry>, e1: DirEntry, k: nat, e2: DirEntry, m: seq<byte>)
    requires Good(v, l) && v.Valid() && v.root == 2 && 2 in l.dirs && m == seq(8, _ => A)
    requires slots != [] && slots[0] == e1 && Live(e1) && EntryAdded(slots, l.dirs[2], k, e2) && Live(e2)
    requires FullNameUpper(e1) == m && FullNameUpper(e2) == m
    ensures !OnlyRecord(v, [SLASH] + m)
  {
    hide Good, FindFrom, Slots, Follow, WalkDirs, FullNameUpper, IsDotEntry, DirOk, NamePart;
    RootPath(v, m);
    var d := AtParent(v, l, [SLASH] + m);
    assert ToUpper(m) == m;
    assert k != 0;
    assert Matches(l.dirs[2][0], m) && Matches(l.dirs[2][k], m);
  }

  // -- The root directory freed -----------------------------------------------------------------------

  /** With a hole in the parent, a new directory needs one free cluster. */
  lemma MkdirOkExactly(v: Volume, l: Layout, path: seq<byte>, d: nat)
    requires Good(v, l) && v.Valid() && ParentDir(v, path) == Some(d) && NamePart(path) != [] && Target(v, path).None?
    requires d in l.dirs && HoleFrom(l.dirs[d], 0).Some?
    ensures Mkdir(v, path).1.Ok? <==> LowestFree(v.fat).Ok?
  {
    hide Good, FatOk, FindFrom, Slots, HoleFrom, NewEntry, SetSlot, WalkDirs, Follow, FirstFree, NewDirBlock;
    var d' := AtParent(v, l, path);
    if LowestFree(v.fat).Ok? {
      var c := LowestFree(v.fat).value;
      var l1 := DirMade(v, l, d, c);
      StoredDir(WithNewDir(v, c, d), l1.chains, l1.home, l1.dirs, d);
    }
  }

  /** MAIN: on a volume just formatted, `mkdir` of A and then `delete` of A/.. both return Ok, and what is
      left is no well-formed volume: the record names the root. */
  lemma RootFreed()
    ensures Mkdir(Small(), [SLASH, A]).1.Ok? && Mkdir(Small(), [SLASH, A]).0.Valid()
    ensures var v, q := Mkdir(Small(), [SLASH, A]).0, [SLASH, A] + [SLASH] + [DOT, DOT];
            && WellFormed(v) && Target(v, q).Some? && FirstCluster(Target(v, q).value) == v.root
            && Delete(v, q).1.Ok? && !WellFormed(Delete(v, q).0)
  {
    hide Good, FindFrom, HoleFrom, Slots, Follow, Small, NamePart, WalkDirs, Mkdir, Fits83, TakesEntry, Target,
         FirstCluster, Delete, IsDotEntry, SlotsOf, NewDirBlock;
    UpperA(1);
    assert seq(1, _ => A) == [A] && [SLASH] + [A] == [SLASH, A];
    var l := SmallTakes([A]);
    EnoughFree(Small(), [], 3, 4);
    MkdirOkExactly(Small(), l, [SLASH, A], 2);
    AFits();
    var l', d, c := MkdirEntered(Small(), l, [SLASH, A], [DOT, DOT]);
    DotTarget(Mkdir(Small(), [SLASH, A]).0, l', [SLASH, A] + [SLASH] + [DOT, DOT], c, d);
    MkdirThenDeleteDots(Small(), l, [SLASH, A], [DOT, DOT]);
  }

  // -- A name that is no name -------------------------------------------------------------------------

  /** MAIN: on a volume just formatted a file is created under the one-byte name NUL or 0xE5; the call
      returns Ok, and what is left is no well-formed volume: no record shows the file's chain. */
  lemma UnstorableName(x: byte)
    requires x == 0 || x == 0xE5
    ensures CreateFile(Small(), [SLASH, x], []).1.Ok?
    ensures CreateFile(Small(), [SLASH, x], []).0.Valid() && !WellFormed(CreateFile(Small(), [SLASH, x], []).0)
  {
    hide Good, FindFrom, HoleFrom, Slots, Follow, Small, NamePart, WalkDirs, CreateFile, WellFormed, Storable, RoomFor;
    assert [SLASH] + [x] == [SLASH, x];
    var l := SmallLayout();
    RootPath(Small(), [x]);
    EndsFirst(l.dirs[2], [x]);
    assert ToUpper([x]) == [x] && !Storable([x]) by { UpperOfOne(x); }
    var d := AtParent(Small(), l, [SLASH, x]);
    EnoughFree(Small(), [], 3, 4);
    CreateOkExactly(Small(), l, [SLASH, x], [], 2);
    CreateAnywhereExact(Small(), l, [SLASH, x], 2, []);
    CreatedValid(Small(), l, [SLASH, x], [], 2);
  }

  /** A file made in a directory, whatever its name, leaves a volume of the same shape. */
  lemma CreatedValid(v: Volume, l: Layout, path: seq<byte>, data: seq<byte>, d: nat)
    requires Good(v, l) && v.Valid() && ParentDir(v, path) == Some(d) && d in l.dirs && NamePart(path) != []
    requires Target(v, path).None? && CreateFile(v, path, data).1.Ok?
    ensures CreateFile(v, path, data).0.Valid()
  {
    hide Good, FindFrom, Slots, Follow, WalkDirs, WriteNewFile, AddEntry, NewEntry, Stored, NamePart, Overwrite;
    var d' := AtParent(v, l, path);
    var l1, c := FileMade(v, l, data);
    var v1 := WriteNewFile(v, data).0;
    StoredChain(v1, l1.chains, l1.home, l1.dirs, d);
    ReadableWalk(v1.fat, d);
    AddedValid(v1, ChainOf(v1.fat, d), NewEntry(ToUpper(NamePart(path)), ATTR_ARCHIVE, c, |data| % U32));
  }

  lemma AddedValid(v: Volume, cs: seq<nat>, e: DirEntry)
    requires v.Valid() && InRange(cs, |v.data|) && NoDup(cs) && AddEntry(v, cs, e).1.Ok?
    ensures AddEntry(v, cs, e).0.Valid()
  {
    hide SetSlot, Slots, FreshDirBlock;
    var k := HoleFrom(Slots(v.data, cs), 0);
    if k.Some? {
      SetSlotEffect(v.data, cs, k.value, e);
    }
  }

  lemma UpperOfOne(x: byte)
    requires x == 0 || x == 0xE5
    ensures ToUpper([x]) == [x] && !Storable([x])
  {
  }

  // -- A cluster lost by a call that fails ------------------------------------------------------------

  /** MAIN: on a volume just formatted with one free cluster, `create_file` of 65 bytes answers NoSpace, and
      what is left is no well-formed volume: the cluster belongs to nobody. */
  lemma ClusterLost()
    ensures var (v, r) := CreateFile(Formatted(64, 2, 4), [SLASH, A], seq(65, _ => 1));
            Formatted(64, 2, 4).Valid() && r == Err(NoSpace) && !WellFormed(v)
  {
    hide Good, FindFrom, HoleFrom, Slots, Follow, NamePart, WalkDirs, WellFormed, Formatted, WriteNewFile, CreateFresh;
    var v, data: seq<byte> := Formatted(64, 2, 4), seq(65, _ => 1);
    UpperA(1);
    assert seq(1, _ => A) == [A] && [SLASH] + [A] == [SLASH, A];
    var l := FormattedIsGood(64, 2, 4);
    GoodValid(v, l);
    OneFree();
    RootPath(v, [A]);
    EndsFirst(l.dirs[2], [A]);
    var d := AtParent(v, l, [SLASH, A]);
    SecondMissing(v, data);
    FreshNoSpace(v, 2, [A], data);
    FreshFails(v, l, 2, [A], data);
  }

  lemma OneFree()
    ensures var v := Formatted(64, 2, 4);
            && v.Valid() && v.csz == 64 && v.root == 2 && |v.fat| == 4 && v.fat[2] == EOC && v.fat[3] == FREE
  {
  }

  lemma SecondMissing(v: Volume, data: seq<byte>)
    requires v.Valid() && v.csz == 64 && |v.fat| == 4 && v.fat[2] == EOC && v.fat[3] == FREE && |data| == 65
    ensures LowestFree(v.fat) == Ok(3) && WriteNewFile(v, data).1.Err?
  {
    hide Store, Link;
    assert FirstFree(v.fat, 2) == FirstFree(v.fat, 3) == Some(3);
    var fat := WithNewCluster(v, 3).fat;
    assert FirstFree(fat, 2) == FirstFree(fat, 3) == FirstFree(fat, 4) == None;
  }

  lemma FreshNoSpace(v: Volume, d: nat, n: seq<byte>, data: seq<byte>)
    requires v.Valid() && n != [] && WriteNewFile(v, data).1.Err?
    ensures CreateFresh(v, d, n, data).1 == Err(NoSpace)
  {
    hide WriteNewFile, Follow, AddEntry;
  }

  // -- Through a file ---------------------------------------------------------------------------------

  /** MAIN: with an empty file A in the root of a volume just formatted, `mkdir` and `create_file` of A/B
      return Ok, and each leaves no well-formed volume: the record of B is data of A. */
  lemma MadeThroughFile()
    ensures var (v, r) := CreateFile(Small(), [SLASH, A], []);
            var q := [SLASH, A] + [SLASH] + [B];
            && r.Ok? && v.Valid() && WellFormed(v)
            && Mkdir(v, q).1.Ok? && !WellFormed(Mkdir(v, q).0)
            && CreateFile(v, q, []).1.Ok? && !WellFormed(CreateFile(v, q, []).0)
  {
    hide Good, FindFrom, HoleFrom, Slots, Follow, Small, NamePart, WalkDirs, CreateFile, Mkdir, Target, FirstCluster,
         IsDirectory, FullNameUpper, Live, DirOk, Storable, NoLower, Fits83;
    UpperA(1);
    assert seq(1, _ => A) == [A] && [SLASH] + [A] == [SLASH, A];
    AFits();
    Name83RoundTrip(Zeros(32), [A]);
    var v, l, e := OneMade([A], []);
    var p := [SLASH, A];
    RootPath(v, [A]);
    var d := AtParent(v, l, p);
    var h := ParentThroughFile(v, l, p, [B]);
    var a, b :| 2 <= a < b < 8 && v.fat[a] == FREE && v.fat[b] == FREE;
    BFits();
    assert Window([], 0, 64) == Zeros(64);
    BelowFileOk(v, l, p + [SLASH] + [B], h, a, b);
    ThroughFileBreaks(v, l, p, [B], []);
  }

  /** MAIN: a file A in the root of a volume just formatted, made with 32 bytes that read as a record of B with
      the root's first cluster: `delete` of A/B returns Ok, and the root's chain is free. */
  lemma DeletedThroughFile()
    ensures var (v, r) := CreateFile(Small(), [SLASH, A], NewEntry([B], ATTR_ARCHIVE, 2, 0));
            var q := [SLASH, A] + [SLASH] + [B];
            && r.Ok? && v.Valid() && WellFormed(v)
            && Delete(v, q).1.Ok? && !WellFormed(Delete(v, q).0)
  {
    hide Good, FindFrom, HoleFrom, Slots, Follow, Small, NamePart, WalkDirs, CreateFile, Delete, Target, FirstCluster,
         IsDirectory, FullNameUpper, Live, DirOk, Storable, NoLower, Fits83, NewEntry, FindEntry, Idle;
    UpperA(1);
    assert seq(1, _ => A) == [A] && [SLASH] + [A] == [SLASH, A];
    AFits();
    Name83RoundTrip(Zeros(32), [A]);
    var record := NewEntry([B], ATTR_ARCHIVE, 2, 0);
    var v, l, e := OneMade([A], record);
    var p := [SLASH, A];
    RootPath(v, [A]);
    var d := AtParent(v, l, p);
    var h := ParentThroughFile(v, l, p, [B]);
    RecordDeleted(v, l, p + [SLASH] + [B], h, record);
  }

  lemma RecordDeleted(v: Volume, l: Layout, q: seq<byte>, h: nat, record: DirEntry)
    requires Good(v, l) && v.Valid() && v.root == 2 && ResolveParent(v, q) == Ok((h, [B])) && NamePart(q) == [B]
    requires h in l.chains && h !in l.dirs && l.chains[h] == [h] && 2 <= h < |v.fat|
    requires record == NewEntry([B], ATTR_ARCHIVE, 2, 0) && v.csz == 64 && v.data[h] == Window(record, 0, 64)
    ensures Delete(v, q).1.Ok? && !WellFormed(Delete(v, q).0)
  {
    hide Good, Slots, Follow, Storable, NoLower, Fits83, NewEntry, ResolveParent, FullNameUpper, FindFrom, SlotsOf,
         FirstCluster, SetSlot, NamePart, WellFormed, IsDirectory;
    BFits();
    NewEntryFields([B], ATTR_ARCHIVE, 2, 0);
    Name83RoundTrip(Zeros(32), [B]);
    GoodChain(v, l, h);
    OneClusterSlots(v.data, h);
    FirstSlotFound(v.data[h], record, [B]);
    RootInTree(v, l);
    DirIsHead(v, l, 2);
    GoodChain(v, l, 2);
    ChainInRange(v.fat, l.chains[2]);
    assert v.fat[2] != FREE && v.fat[2] != BAD by { HeadNotIdle(v, l, 2); }
    DeleteDetourExact(v, l, q, h);
  }

  lemma FirstSlotFound(block: seq<byte>, e: DirEntry, n: seq<byte>)
    requires |block| == 64 && block == Window(e, 0, 64) && Live(e) && FullNameUpper(e) == n
    ensures FindFrom(SlotsOf(block), 0, n) == Some(0) && SlotsOf(block)[0] == e
  {
    hide FullNameUpper, IsDotEntry;
    assert SlotAt(block, 0) == e;
  }

  /** A file whose one cluster is zero, taken for a directory. */
  ghost predicate ZeroFile(v: Volume, l: Layout, h: nat) {
    && Good(v, l) && v.Valid() && h in l.chains && l.chains[h] == [h]
    && 2 <= h < |v.fat| && v.csz == 64 && v.data[h] == Zeros(64)
  }

  /** The chain stays as it is when another is made. */
  lemma ZeroFileAfter(v: Volume, l: Layout, h: nat, v1: Volume, l1: Layout, c: nat, e: DirEntry)
    requires ZeroFile(v, l, h) && ChainMade(v, l, v1, l1, c) && l1.chains[h] == [h] && |v1.fat| == |v.fat|
    requires v1.data[h] == Zeros(64)
    ensures Readable(v1.fat, h) && ChainOf(v1.fat, h) == [h] && InRange([h], |v1.fat|) && AddEntry(v1, [h], e).1.Ok?
  {
    hide Good, Stored, FindFrom, HoleFrom, Slots, Follow, SlotsOf, SetSlot, NewDirBlock;
    ZeroSlots();
    StoredChain(v1, l1.chains, l1.home, l1.dirs, h);
    OneClusterSlots(v1.data, h);
    EndsFirst(SlotsOf(Zeros(64)), []);
  }

  lemma ZeroFileFinds(v: Volume, l: Layout, h: nat, n: seq<byte>)
    requires ZeroFile(v, l, h)
    ensures Readable(v.fat, h) && ChainOf(v.fat, h) == [h] && InRange([h], |v.fat|) && FindEntry(v, [h], n).None?
  {
    hide TreeOk, FatOk, FindFrom, HoleFrom, Slots, Follow, SlotsOf;
    ZeroSlots();
    StoredChain(v, l.chains, l.home, l.dirs, h);
    OneClusterSlots(v.data, h);
    EndsFirst(SlotsOf(Zeros(64)), n);
  }

  /** The new record goes to its first slot. */
  lemma BelowFileOk(v: Volume, l: Layout, q: seq<byte>, h: nat, a: nat, b: nat)
    requires ZeroFile(v, l, h) && ResolveParent(v, q) == Ok((h, [B]))
    requires 2 <= a < b < |v.fat| && v.fat[a] == FREE && v.fat[b] == FREE
    ensures Mkdir(v, q).1.Ok? && CreateFile(v, q, []).1.Ok?
    ensures ChainOf(v.fat, h) == [h] && InRange([h], |v.fat|) && FindEntry(v, [h], ToUpper([B])).None?
  {
    hide Good, Stored, FindEntry, Follow, ResolveParent, WriteNewFile, NewEntry, Overwrite, NewDirBlock, AddEntry,
         ChainMade, FirstFree;
    BFits();
    ZeroFileFinds(v, l, h, [B]);
    EnoughFree(v, [], a, b);
    var l1, c := FileMade(v, l, []);
    NewElsewhere(v, l, c, h);
    ZeroFileAfter(v, l, h, WriteNewFile(v, []).0, l1, c, NewEntry([B], ATTR_ARCHIVE, c, 0));
    var l2 := DirMade(v, l, h, c);
    ZeroFileAfter(v, l, h, WithNewDir(v, c, h), l2, c, NewEntry([B], ATTR_DIRECTORY, c, 0));
  }

  lemma ZeroSlots()
    ensures var slots := SlotsOf(Zeros(64)); |slots| == 2 && IsEnd(slots[0])
  {
  }

  lemma NewElsewhere(v: Volume, l: Layout, c: nat, h: nat)
    requires v.Valid() && WriteNewFile(v, []).1 == Ok(c) && Good(v, l) && h in l.chains && h < |v.data|
    ensures c == LowestFree(v.fat).value && 2 <= c < |v.fat| && v.fat[c] == FREE && c != h && LowestFree(v.fat).Ok?
    ensures var v1 := WriteNewFile(v, []).0; |v1.fat| == |v.fat| && |v1.data| == |v.data| && v1.data[h] == v.data[h]
  {
    hide TreeOk, FatOk, FirstFree;
    FreeIsNoHead(v.fat, l.chains, l.home, c);
  }

  // -- A descriptor led astray ------------------------------------------------------------------------

  /** The formatted volume with one empty file, B, on the chain of cluster 4. */
  lemma FileAtFour() returns (v: Volume, l: Layout)
    ensures Good(v, l) && v.Valid() && v.root == 2 && l.dirs.Keys == {2} && 4 in l.chains && |v.fat| == 8
    ensures v.fat[3] == FREE && v.fat[5] == FREE
    ensures FindFrom(l.dirs[2], 0, [B]) == Some(0) && l.dirs[2] != []
    ensures FirstCluster(l.dirs[2][0]) == 4 && !IsDirectory(l.dirs[2][0])
  {
    hide Good, FindFrom, HoleFrom, Slots, Follow, Small, Stored, TreeOk, NewEntry, Live, DirOk, FullNameUpper,
         IsDirectory, FirstCluster, AddEntry, IsChain, NoLower, WithEntry;
    var l0 := SmallLayout();
    var l1 := DirMade(Small(), l0, 2, 4);
    var v1 := WithNewDir(Small(), 4, 2);
    var e := NewEntry([B], ATTR_ARCHIVE, 4, 0);
    NewEntryFields([B], ATTR_ARCHIVE, 4, 0);
    BFits();
    EndsFirst(l0.dirs[2], [B]);
    StoredDir(v1, l1.chains, l1.home, l1.dirs, 2);
    HoleTaken(v1, l1.chains[2], e);
    TreeOfGood(Small(), l0);
    v, l := EntryKeeps(l0, v1, l1, 2, 4, e);
    GoodValid(v, l);
    GoodDirOk(Small(), l0, 2);
    AddedLookups(l0.dirs[2], l.dirs[2], 0, e, [B]);
  }

  lemma BFits()
    ensures Fits83([B]) && StoredName([B]) == [B] && NoLower([B]) && Storable([B]) && ToUpper([B]) == [B]
            && PlainName([B])
  {
    hide FullNameUpper, Trim;
    assert DotPos([B]) == 1 by { assert [B][1..] == []; }
    Name83RoundTrip(Zeros(32), [B]);
  }

  lemma HoleTaken(v: Volume, cs: seq<nat>, e: DirEntry)
    requires v.Valid() && InRange(cs, |v.fat|) && HoleFrom(Slots(v.data, cs), 0).Some?
    ensures AddEntry(v, cs, e).1.Ok? && AddEntry(v, cs, e).0.fat == v.fat
  {
    hide HoleFrom, Slots, SetSlot;
  }

  /** An overwrite succeeds exactly when a chain can be had once the old one is free. */
  lemma OverwriteOkExactly(v: Volume, l: Layout, path: seq<byte>, data: seq<byte>, d: nat, k: nat)
    requires Good(v, l) && v.Valid() && ParentDir(v, path) == Some(d) && NamePart(path) != [] && d in l.dirs
    requires FindFrom(l.dirs[d], 0, ToUpper(NamePart(path))) == Some(k) && !IsDirectory(l.dirs[d][k])
    ensures Readable(v.fat, FirstCluster(l.dirs[d][k]))
    ensures CreateFile(v, path, data).1.Ok? <==> WriteNewFile(Freed(v, FirstCluster(l.dirs[d][k])), data).1.Ok?
    ensures CreateFile(v, path, data).1.Ok? ==>
              CreateFile(v, path, data).0.fat == WriteNewFile(Freed(v, FirstCluster(l.dirs[d][k])), data).0.fat
  {
    hide FatOk, ChainAt, Rehome, IsChain, InRange, WriteNewFile, NewChain, TreeOk, Stored, Follow, FullNameUpper,
         FirstCluster, IsDirectory, IsDotEntry, DirOk, Freed, FindFrom, FindPast, Slots, WalkDirs, SetSlot,
         CreateFresh;
    var d' := AtParent(v, l, path);
    var n, h := ToUpper(NamePart(path)), FirstCluster(l.dirs[d][k]);
    GoodDirOk(v, l, d);
    NotDot(l.dirs[d], k, n);
    FoundIsLive(v, l, d, n, k);
    var chains1 := FileFreed(v, l, h);
    var v1 := Freed(v, h);
    if WriteNewFile(v1, data).1.Ok? {
      NewFileStored(v1, chains1, l.home, l.dirs, data);
      var v2, c, cs := WriteNewFile(v1, data).0, WriteNewFile(v1, data).1.value, NewChain(v1, data);
      StoredDir(v2, chains1[c := cs], Rehome(l.home, c, cs), l.dirs, d);
      DirOkParts(l.dirs[d]);
      ScansAgree(l.dirs[d], 0, n);
    }
  }

  /** MAIN: a sound state with B open for writing on cluster 4; `create_file` on B returns Ok, takes
      cluster 3, and the state is not sound any more. The volume still is well formed; the next write
      through the descriptor returns Ok too, and the volume is not well formed any more. */
  lemma OverwrittenOpen() returns (s: VfsState)
    ensures Sound(s) && s.v.Valid() && s.table == [FileDescriptor(3, [SLASH, B], Write, 0, 0, 4)]
    ensures var (v', r) := CreateFile(s.v, [SLASH, B], []);
            && r.Ok? && v'.Valid() && !Sound(s.(v := v')) && WellFormed(v')
            && WriteFd(s.(v := v'), 3, [1]).1.Ok? && !WellFormed(WriteFd(s.(v := v'), 3, [1]).0.v)
  {
    hide Good, FindFrom, CreateFile, FirstCluster, IsDirectory, Sound, Target, ParentDir, NamePart, Follow, WriteFd;
    var v, l := FileAtFour();
    s := VfsState(v, [FileDescriptor(3, [SLASH, B], Write, 0, 0, 4)], 4, [SLASH]);
    assert GoodState(s, l);
    SoundBy(s, l);
    var l' := OverwrittenOk(v, l);
    OverwriteExact(s, l, [SLASH, B], []);
    assert s.table[0] in s.table;
    StaleWriteBreaks(s.(v := CreateFile(v, [SLASH, B], []).0), l', 3, [1]);
  }

  lemma OverwrittenOk(v: Volume, l: Layout) returns (l': Layout)
    requires Good(v, l) && v.Valid() && v.root == 2 && l.dirs.Keys == {2} && 4 in l.chains && |v.fat| == 8
    requires v.fat[3] == FREE && v.fat[5] == FREE
    requires FindFrom(l.dirs[2], 0, [B]) == Some(0) && l.dirs[2] != []
    requires FirstCluster(l.dirs[2][0]) == 4 && !IsDirectory(l.dirs[2][0])
    ensures ParentDir(v, [SLASH, B]) == Some(2) && Target(v, [SLASH, B]) == Some(l.dirs[2][0])
    ensures CreateFile(v, [SLASH, B], []).1.Ok?
    ensures var v' := CreateFile(v, [SLASH, B], []).0;
            Good(v', l') && v'.Valid() && ParentDir(v', [SLASH, B]) == Some(2) && |v'.fat| == 8 && v'.fat[4] == FREE
  {
    hide Good, FindFrom, Slots, Follow, WalkDirs, CreateFile, FirstCluster, IsDirectory, NamePart, WriteNewFile,
         Freed, Free;
    BFits();
    RootPath(v, [B]);
    assert [SLASH] + [B] == [SLASH, B];
    var d := AtParent(v, l, [SLASH, B]);
    OverwriteOkExactly(v, l, [SLASH, B], [], 2, 0);
    FreedIs(v, 4);
    EnoughFree(Freed(v, 4), [], 3, 5);
    HeadInChain(v, l, 2, 0);
    var d1, k, c, h;
    l', d1, k, c, h := OverwriteState(v, l, [SLASH, B], []);
    RootPath(CreateFile(v, [SLASH, B], []).0, [B]);
  }
}
