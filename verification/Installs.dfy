// What tools/add_to_fat32.py does to the volume in an image, and what the kernel then reads.
module Installs {
  import opened Wrappers
  import opened Bytes
  import opened Multiples
  import opened Chains
  import opened Volumes
  import opened DirEntries
  import opened Directory
  import opened Paths
  import VfsSpec
  import Storage

  datatype ToolError = NotEnoughClusters | NoDirEntry | StructError

  /** The scan for free clusters: the lowest ones from `from` on, at most `need` of them. */
  function FreeClusters(fat: seq<nat>, from: nat, need: nat): (r: seq<nat>)
    ensures |r| <= need
    ensures forall i :: 0 <= i < |r| ==> from <= r[i] < |fat| && fat[r[i]] == FREE
    ensures NoDup(r)
    decreases |fat| - from
  {
    if need == 0 || from >= |fat| then []
    else if fat[from] == FREE then [from] + FreeClusters(fat, from + 1, need - 1)
    else FreeClusters(fat, from + 1, need)
  }

  /** Clusters the tool takes for `n` bytes: at least one. */
  function Wanted(n: nat, csz: nat): (k: nat)
    requires csz > 0
    ensures k > 0
  {
    if Needed(n, csz) == 0 then 1 else Needed(n, csz)
  }

  // -- The directory entry --------------------------------------------------------------------------------

  /** The parts of `split('.')`: up to the first dot, and from there to the next. */
  function FirstPart(name: seq<byte>): seq<byte> { BaseOf(name) }

  function SecondPart(name: seq<byte>): seq<byte> { BaseOf(ExtOf(name)) }

  /** The extension field; without a dot the tool writes four spaces. */
  function ToolExt(name: seq<byte>): seq<byte> {
    if DotPos(name) == |name| then [SPACE, SPACE, SPACE, SPACE] else Field(SecondPart(name), 3)
  }

  /** The entry as the tool builds it, from a 32-byte array whose name and extension it assigns by slices. */
  function EntryBytes(name: seq<byte>, cluster: nat, size: nat): (r: seq<byte>)
    requires cluster < 0x1_0000 && size < 0x1_0000_0000
    ensures |r| == if DotPos(name) == |name| then 33 else 32
  {
    var named := Field(FirstPart(name), 8) + ToolExt(name) + Zeros(21);
    Splice(Splice(Splice(named[11 := ATTR_ARCHIVE], 12, Zeros(14)), 26, Le16(cluster)), 28, Le32(size))
  }

  /** Where the parts of the entry lie. */
  lemma EntryLayout(name: seq<byte>, cluster: nat, size: nat)
    requires cluster < 0x1_0000 && size < 0x1_0000_0000 && DotPos(name) < |name|
    ensures |EntryBytes(name, cluster, size)| == 32
    ensures var e := EntryBytes(name, cluster, size);
            && e[..8] == Field(FirstPart(name), 8) && e[8..11] == ToolExt(name)
            && e[11] == ATTR_ARCHIVE && e[20] == 0 && e[21] == 0
            && e[26..28] == Le16(cluster) && e[28..32] == Le32(size)
  {
    hide DotPos, Splice, Le16, Le32;
    var named := Field(FirstPart(name), 8) + ToolExt(name) + Zeros(21);
    assert named[..8] == Field(FirstPart(name), 8) && named[8..11] == ToolExt(name);
  }

  /** A name with a dot gives an entry of 32 bytes that holds the cluster and the size and that no scan
      takes for an end marker, a deleted entry, a long name or a label. */
  lemma EntryFields(name: seq<byte>, cluster: nat, size: nat)
    requires cluster < 0x1_0000 && size < 0x1_0000_0000 && DotPos(name) < |name|
    requires forall i :: 0 <= i < |name| ==> 0 < name[i] < 128
    ensures |EntryBytes(name, cluster, size)| == 32
    ensures var e: DirEntry := EntryBytes(name, cluster, size);
            && FirstCluster(e) == cluster && FileSize(e) == size
            && !IsEnd(e) && !Skipped(e) && !IsDirectory(e)
            && e[..8] == Field(FirstPart(name), 8) && e[8..11] == ToolExt(name)
  {
    hide DotPos, EntryBytes, ToolExt;
    EntryLayout(name, cluster, size);
    var e: DirEntry := EntryBytes(name, cluster, size);
    assert e[26] == e[26..28][0] && e[27] == e[26..28][1];
    Le16Get(cluster);
    SizeField(e, size);
    assert e[0] == e[..8][0] == Field(FirstPart(name), 8)[0];
  }

  lemma SizeField(e: DirEntry, size: nat)
    requires size < 0x1_0000_0000 && e[28..32] == Le32(size)
    ensures FileSize(e) == size
  {
    Le32Get(size);
    var w := e[28..32];
    assert e[28] == w[0] && e[29] == w[1] && e[30] == w[2] && e[31] == w[3];
  }

  /** The name the kernel prints for an entry with these two fields. */
  function Printed(base: seq<byte>, second: seq<byte>): seq<byte> {
    var f := Field(second, 3);
    Trim(Field(base, 8)) + if Ends(f[0]) then [] else [DOT] + Trim(f)
  }

  lemma ToolPrinted(name: seq<byte>, e: DirEntry)
    requires DotPos(name) < |name| && e[..8] == Field(FirstPart(name), 8) && e[8..11] == ToolExt(name)
    ensures FullNameUpper(e) == Printed(BaseOf(name), SecondPart(name))
  {
    hide Trim, DotPos;
    assert e[8] == e[8..11][0];
  }

  lemma PrintedShort(base: seq<byte>, second: seq<byte>, ext: seq<byte>)
    requires |second| < |ext| || second == []
    ensures |Printed(base, second)| < |base + [DOT] + ext|
  {
    hide Trim;
    TrimField(base, 8);
    TrimField(second, 3);
  }

  lemma PrintedExact(base: seq<byte>, second: seq<byte>, ext: seq<byte>)
    requires second <= ext && forall i :: 0 <= i < |base| ==> base[i] != DOT
    ensures Printed(base, second) == base + [DOT] + ext
            <==> second == ext && 1 <= |ext| <= 3 && Clean(ext) && |base| <= 8 && Clean(base)
  {
    hide Trim, Clean, Field;
    if second != ext || ext == [] {
      PrintedShort(base, second, ext);
    } else {
      TrimField(base, 8);
      DottedRoundTrip(Trim(Field(base, 8)), base, ext);
    }
  }

  /** The kernel prints the name of the entry as the name the tool was given exactly when that name fits
      8.3 and has a single dot: what follows a second dot is lost. */
  lemma ToolNameRoundTrip(name: seq<byte>, e: DirEntry)
    requires DotPos(name) < |name| && e[..8] == Field(FirstPart(name), 8) && e[8..11] == ToolExt(name)
    ensures FullNameUpper(e) == name <==> Fits83(name) && DOT !in ExtOf(name)
  {
    hide Trim, DotPos, Clean, FullNameUpper, ToolExt, Field, Printed, Fits83, BaseOf, ExtOf;
    ToolPrinted(name, e);
    PartsOfName(name);
    PrintedExact(BaseOf(name), SecondPart(name), ExtOf(name));
  }

  lemma PartsOfName(name: seq<byte>)
    requires DotPos(name) < |name|
    ensures name == BaseOf(name) + [DOT] + ExtOf(name)
    ensures SecondPart(name) <= ExtOf(name) && forall i :: 0 <= i < |BaseOf(name)| ==> BaseOf(name)[i] != DOT
    ensures SecondPart(name) == ExtOf(name) <==> DOT !in ExtOf(name)
    ensures var ext := ExtOf(name);
            Fits83(name) <==> 1 <= |ext| <= 3 && Clean(ext) && |BaseOf(name)| <= 8 && Clean(BaseOf(name))
  {
    hide Trim, DotPos, Clean, Fits83;
    DotPosIn(ExtOf(name));
    FitsByParts(name);
  }

  lemma FitsByParts(name: seq<byte>)
    requires DotPos(name) < |name|
    ensures var ext := ExtOf(name);
            Fits83(name) <==> 1 <= |ext| <= 3 && Clean(ext) && |BaseOf(name)| <= 8 && Clean(BaseOf(name))
  {
    hide DotPos, Clean, ExtOf, BaseOf;
    DotPosIn(name);
  }

  // -- The volume afterwards ------------------------------------------------------------------------------

  /** The volume once the data is stored and the chain linked. */
  function WithData(v: Volume, alloc: seq<nat>, payload: seq<byte>): (v': Volume)
    requires v.Valid() && InRange(alloc, |v.fat|)
    ensures v'.Valid() && v'.csz == v.csz && v'.root == v.root && |v'.fat| == |v.fat|
  {
    StoreKeepsSizes(v.data, v.csz, alloc, payload, 0);
    LinkBound(v.fat, alloc);
    v.(fat := Link(v.fat, alloc), data := Store(v.data, v.csz, alloc, payload, 0))
  }

  /** The free slot the tool takes: it looks in the first cluster of the root directory only. */
  function FreeSlot(v: Volume): Option<nat>
    requires v.Valid() && 2 <= v.root < |v.fat|
  {
    HoleFrom(SlotsOf(v.data[v.root]), 0)
  }

  /** The volume before the directory entry is written. */
  function Staged(v: Volume, payload: seq<byte>): (v': Volume)
    requires v.Valid()
    ensures v'.Valid() && v'.csz == v.csz && v'.root == v.root && |v'.fat| == |v.fat|
  {
    WithData(v, FreeClusters(v.fat, 2, Wanted(|payload|, v.csz)), payload)
  }

  /** Why the tool ends without touching the image file: too few free clusters, no slot, or a first cluster
      or a length that does not fit its field. */
  function Refusal(v: Volume, payload: seq<byte>): (r: Option<ToolError>)
    requires v.Valid() && 2 <= v.root < |v.fat|
    ensures r.None? ==>
              var alloc := FreeClusters(v.fat, 2, Wanted(|payload|, v.csz));
              && |alloc| == Wanted(|payload|, v.csz) && alloc[0] < 0x1_0000 && |payload| < 0x1_0000_0000
              && FreeSlot(Staged(v, payload)).Some?
  {
    var alloc := FreeClusters(v.fat, 2, Wanted(|payload|, v.csz));
    if |alloc| < Wanted(|payload|, v.csz) then Some(NotEnoughClusters)
    else if FreeSlot(Staged(v, payload)).None? then Some(NoDirEntry)
    else if alloc[0] >= 0x1_0000 || |payload| >= 0x1_0000_0000 then Some(StructError)
    else None
  }

  /** The scan stops short only when it has found every free cluster. */
  lemma {:induction false} FoundAll(fat: seq<nat>, from: nat, need: nat)
    requires |FreeClusters(fat, from, need)| < need
    ensures forall c :: from <= c < |fat| && fat[c] == FREE ==> c in FreeClusters(fat, from, need)
    decreases |fat| - from
  {
    if from < |fat| {
      FoundAll(fat, from + 1, if fat[from] == FREE then need - 1 else need);
    }
  }

  /** MAIN: the tool refuses for want of clusters exactly when fewer are free than the file needs, and for want of a
      slot exactly when there are enough but the root's first cluster has neither end mark nor deleted entry. */
  lemma RefusalMeans(v: Volume, payload: seq<byte>)
    requires v.Valid() && 2 <= v.root < |v.fat|
    ensures var enough := |FreeSet(v.fat)| >= Wanted(|payload|, v.csz);
            var slots := SlotsOf(Staged(v, payload).data[v.root]);
            && (Refusal(v, payload) == Some(NotEnoughClusters) <==> !enough)
            && (Refusal(v, payload) == Some(NoDirEntry)
                <==> enough && forall i :: 0 <= i < |slots| ==> !IsEnd(slots[i]) && !IsDeleted(slots[i]))
  {
    hide FreeClusters, Staged, SlotsOf, Wanted;
    var need := Wanted(|payload|, v.csz);
    var alloc := FreeClusters(v.fat, 2, need);
    MembersOfNoDup(alloc);
    if |alloc| < need {
      FoundAll(v.fat, 2, need);
      assert Members(alloc) == FreeSet(v.fat);
    } else {
      FreeInRange(v.fat);
      Subsets(Members(alloc), FreeSet(v.fat));
    }
  }

  lemma FreeInRange(fat: seq<nat>)
    ensures forall c :: c in FreeSet(fat) <==> 2 <= c < |fat| && fat[c] == FREE
  {
  }

  lemma Subsets(a: set<nat>, b: set<nat>)
    requires a <= b
    ensures |a| <= |b|
  {
    assert b == a + (b - a);
    assert |b| == |a| + |b - a|;
  }

  /** The volume after a run of the tool on a name with a dot. */
  function Installed(v: Volume, payload: seq<byte>, name: seq<byte>): (r: Result<Volume, ToolError>)
    requires v.Valid() && 2 <= v.root < |v.fat| && DotPos(name) < |name|
  {
    var refusal := Refusal(v, payload);
    if refusal.Some? then Err(refusal.value)
    else
      var alloc := FreeClusters(v.fat, 2, Wanted(|payload|, v.csz));
      var v1 := Staged(v, payload);
      Ok(v1.(data := v1.data[v.root := Splice(v1.data[v.root], 32 * FreeSlot(v1).value,
          EntryBytes(name, alloc[0], |payload|))]))
  }

  lemma InstalledUnlessRefused(v: Volume, payload: seq<byte>, name: seq<byte>)
    requires v.Valid() && 2 <= v.root < |v.fat| && DotPos(name) < |name|
    ensures Installed(v, payload, name).Ok? <==> Refusal(v, payload).None?
  {
  }

  /** Clusters in use, whose words are not free, are none the tool allocates. */
  lemma AllocOutside(fat: seq<nat>, need: nat, cs: seq<nat>)
    requires IsChain(fat, cs)
    ensures var alloc := FreeClusters(fat, 2, need); forall c :: c in cs ==> c !in alloc
  {
    hide FreeClusters;
    var alloc := FreeClusters(fat, 2, need);
    forall c | c in cs
      ensures c !in alloc
    {
      ChainNotFree(fat, cs, c);
    }
  }

  /** Every chain there was is still there, and every chain but the root directory's has its bytes. */
  lemma ChainsKept(v: Volume, payload: seq<byte>, name: seq<byte>, cs: seq<nat>)
    requires v.Valid() && 2 <= v.root < |v.fat| && IsChain(v.fat, cs) && DotPos(name) < |name|
    requires Installed(v, payload, name).Ok?
    ensures var v' := Installed(v, payload, name).value;
            && |v'.fat| == |v.fat| && |v'.data| == |v.data|
            && IsChain(v'.fat, cs)
            && (v.root !in cs ==> Content(v'.data, cs) == Content(v.data, cs))
  {
    hide FreeClusters, Link, Store, Content, EntryBytes, HoleFrom;
    var alloc := FreeClusters(v.fat, 2, Wanted(|payload|, v.csz));
    AllocOutside(v.fat, Wanted(|payload|, v.csz), cs);
    var v' := Installed(v, payload, name).value;
    assert v'.fat == Link(v.fat, alloc);
    Storage.ChainFrame(v.fat, v'.fat, cs);
    if v.root !in cs {
      ContentFrame(v.data, v'.data, cs);
    }
  }

  /** The first hole of the root's first cluster is the first hole of the whole root directory. */
  lemma HoleInRoot(v: Volume, cs: seq<nat>, e: DirEntry)
    requires v.Valid() && IsChain(v.fat, cs) && cs[0] == v.root && FreeSlot(v).Some?
    ensures var k := FreeSlot(v).value;
            && HoleFrom(Slots(v.data, cs), 0) == Some(k)
            && k < |Slots(v.data, cs)| && 32 * k + 32 <= v.csz
            && SetSlot(v.data, cs, k, e) == v.data[v.root := Splice(v.data[v.root], 32 * k, e)]
  {
    hide SetSlot, HoleFrom, Splice, Slots;
    var first, slots, k := SlotsOf(v.data[v.root]), Slots(v.data, cs), FreeSlot(v).value;
    RootFirst(v.data, cs);
    assert slots[k] == first[k];
    assert forall i :: 0 <= i < k ==> slots[i] == first[i];
    HoleIsFirst(slots, k);
    SetSlotAt(v.data, cs, 0, k, e);
  }

  /** The slots of a directory's first cluster are the beginning of its slots. */
  lemma RootFirst(data: seq<seq<byte>>, cs: seq<nat>)
    requires InRange(cs, |data|) && cs != []
    ensures Slots(data, cs[..0]) == []
    ensures SlotsOf(data[cs[0]]) <= Slots(data, cs)
  {
    hide Slots, SlotsOf;
    NoSlots(data);
    assert cs[..0] == [] && cs[..0] + [cs[0]] == cs[..1];
    SlotsSnoc(data, cs[..0], cs[0]);
    SlotsPrefix(data, cs, 1);
    NothingBefore(SlotsOf(data[cs[0]]));
  }

  lemma NoSlots(data: seq<seq<byte>>)
    ensures Slots(data, []) == []
  {
  }

  lemma NothingBefore(s: seq<DirEntry>)
    ensures [] + s == s
  {
  }

  lemma HoleIsFirst(slots: seq<DirEntry>, k: nat)
    requires k < |slots| && (IsEnd(slots[k]) || IsDeleted(slots[k]))
    requires forall i :: 0 <= i < k ==> !IsEnd(slots[i]) && !IsDeleted(slots[i])
    ensures HoleFrom(slots, 0) == Some(k)
  {
  }

  /** A record of the name lies before the first hole. */
  predicate OlderRecord(slots: seq<DirEntry>, name: seq<byte>) {
    var r, hole := FindFrom(slots, 0, name), HoleFrom(slots, 0);
    r.Some? && (hole.Some? ==> r.value < hole.value)
  }

  /** An entry put into the first hole of a directory is the one found under its name, unless an older
      record of the name comes first. */
  lemma HoleIsFound(slots: seq<DirEntry>, k: nat, e: DirEntry, name: seq<byte>)
    requires HoleFrom(slots, 0) == Some(k) && Matches(e, name)
    ensures FindFrom(slots[k := e], 0, name) == if OlderRecord(slots, name) then FindFrom(slots, 0, name) else Some(k)
    ensures OlderRecord(slots, name) ==>
            slots[k := e][FindFrom(slots, 0, name).value] == slots[FindFrom(slots, 0, name).value]
  {
    hide HoleFrom, FindFrom, Matches;
    var after := slots[k := e];
    assert after[k] == e;
    assert !IsEnd(e) by {
      MatchIsLive(e, name);
    }
    assert forall j :: 0 <= j < k ==> after[j] == slots[j];
  }

  lemma MatchIsLive(e: DirEntry, name: seq<byte>)
    requires Matches(e, name)
    ensures !IsEnd(e)
  {
  }

  /** The clusters taken form a chain that holds the input, padded with zeros. */
  lemma DataStored(v: Volume, payload: seq<byte>)
    requires v.Valid()
    requires |FreeClusters(v.fat, 2, Wanted(|payload|, v.csz))| == Wanted(|payload|, v.csz)
    ensures var alloc := FreeClusters(v.fat, 2, Wanted(|payload|, v.csz));
            var v1 := WithData(v, alloc, payload);
            && IsChain(v1.fat, alloc)
            && Content(v1.data, alloc) == Window(payload, 0, Span(|alloc|, v.csz))
            && |payload| <= Span(|alloc|, v.csz)
  {
    hide FreeClusters, Store, Link, Content;
    var alloc := FreeClusters(v.fat, 2, Wanted(|payload|, v.csz));
    LinkMakesChain(v.fat, alloc);
    StoreStretches(v.data, v.csz, alloc, payload, |alloc|);
    assert alloc[..|alloc|] == alloc;
    NeededBounds(|payload|, v.csz);
  }

  /** Names the round trip is promised for: ASCII, upper case, fitting 8.3 with a single dot, no slash. */
  predicate GoodName(name: seq<byte>) {
    && Fits83(name) && DotPos(name) < |name| && DOT !in ExtOf(name)
    && ToUpper(name) == name && SLASH !in name
    && forall i :: 0 <= i < |name| ==> 0 < name[i] < 128
  }

  /** The root directory with clusters `root` has an entry for `name` whose chain is `alloc` and whose
      bytes, as many as its size, are `payload`. */
  ghost predicate Shows(v: Volume, root: seq<nat>, name: seq<byte>, alloc: seq<nat>, payload: seq<byte>) {
    && v.Valid() && IsChain(v.fat, root) && ChainOf(v.fat, v.root) == root && Readable(v.fat, v.root)
    && FindEntry(v, root, name).Some?
    && var e := FindEntry(v, root, name).value;
       && alloc != [] && FirstCluster(e) == alloc[0] && FileSize(e) == |payload| && !IsDirectory(e)
       && Readable(v.fat, alloc[0]) && ChainOf(v.fat, alloc[0]) == alloc
       && VfsSpec.ReadBack(v, alloc[0], |payload|) == payload
  }

  /** MAIN: whatever the tool installed, the kernel finds under its name in the root directory: the entry
      with the input's size, whose chain is the clusters taken, whose bytes are the input's. Where a record
      of the name came before the first hole, the kernel finds that one as before. */
  lemma InstalledIsFound(v: Volume, payload: seq<byte>, name: seq<byte>, root: seq<nat>)
    requires v.Valid() && IsChain(v.fat, root) && |root| <= MAX_CHAIN && root[0] == v.root && GoodName(name)
    requires Installed(v, payload, name).Ok? && Needed(|payload|, v.csz) <= MAX_CHAIN
    ensures var v' := Installed(v, payload, name).value;
            if OlderRecord(Slots(v.data, root), name)
            then v'.Valid() && InRange(root, |v'.data|) && FindEntry(v', root, name) == FindEntry(v, root, name)
            else Shows(v', root, name, FreeClusters(v.fat, 2, Wanted(|payload|, v.csz)), payload)
  {
    hide FreeClusters, Store, Link, Content, Slots, SetSlot, FindFrom, HoleFrom, Follow, EntryBytes, FullNameUpper,
         Linked, NoDup, Installed, VfsSpec.ReadBack, ToolExt, ExtOf, BaseOf, Fits83, OlderRecord;
    var alloc := FreeClusters(v.fat, 2, Wanted(|payload|, v.csz));
    var v1, v' := WithData(v, alloc, payload), Installed(v, payload, name).value;
    var e := InstalledEntry(v, payload, name);
    EntryIsFound(v, payload, name, root, e);
    DataIsRead(v, payload, name, root);
    ChainsKept(v, payload, name, root);
    ChainHead(v'.fat, root);
  }

  /** The entry the tool writes for a good name. */
  lemma InstalledEntry(v: Volume, payload: seq<byte>, name: seq<byte>) returns (e: DirEntry)
    requires v.Valid() && 2 <= v.root < |v.fat| && GoodName(name) && Installed(v, payload, name).Ok?
    ensures var alloc := FreeClusters(v.fat, 2, Wanted(|payload|, v.csz));
            && alloc != [] && alloc[0] < 0x1_0000 && |payload| < 0x1_0000_0000
            && e == EntryBytes(name, alloc[0], |payload|)
            && FirstCluster(e) == alloc[0] && FileSize(e) == |payload| && !IsDirectory(e) && Matches(e, name)
  {
    hide FreeClusters, Store, Link, HoleFrom, EntryBytes, FullNameUpper, DotPos, ExtOf, BaseOf, ToolExt;
    var alloc := FreeClusters(v.fat, 2, Wanted(|payload|, v.csz));
    EntryFields(name, alloc[0], |payload|);
    e := EntryBytes(name, alloc[0], |payload|);
    ToolNameRoundTrip(name, e);
  }

  lemma ChainHead(fat: seq<nat>, cs: seq<nat>)
    requires IsChain(fat, cs) && |cs| <= MAX_CHAIN && |fat| <= BAD
    ensures ChainOf(fat, cs[0]) == cs && Readable(fat, cs[0])
  {
    ChainedIff(fat, cs);
  }

  lemma EntryIsFound(v: Volume, payload: seq<byte>, name: seq<byte>, root: seq<nat>, e: DirEntry)
    requires v.Valid() && IsChain(v.fat, root) && root[0] == v.root
    requires DotPos(name) < |name| && Matches(e, name)
    requires Installed(v, payload, name).Ok?
    requires var alloc := FreeClusters(v.fat, 2, Wanted(|payload|, v.csz)); e == EntryBytes(name, alloc[0], |payload|)
    ensures var v' := Installed(v, payload, name).value;
            && v'.Valid() && v'.root == v.root && InRange(root, |v'.data|)
            && FindEntry(v', root, name) == if OlderRecord(Slots(v.data, root), name) then FindEntry(v, root, name)
               else Some(e)
  {
    hide FreeClusters, Store, Link, Slots, SetSlot, FindFrom, HoleFrom, EntryBytes, Matches, Linked, OlderRecord;
    var alloc := FreeClusters(v.fat, 2, Wanted(|payload|, v.csz));
    var v1, v' := WithData(v, alloc, payload), Installed(v, payload, name).value;
    AllocOutside(v.fat, Wanted(|payload|, v.csz), root);
    Storage.ChainFrame(v.fat, v1.fat, root);
    SlotsFrame(v.data, v1.data, root);
    HoleInRoot(v1, root, e);
    var k := FreeSlot(v1).value;
    InstalledValid(v1, v.root, 32 * k, e);
    assert v'.data == SetSlot(v1.data, root, k, e);
    SetSlotEffect(v1.data, root, k, e);
    HoleIsFound(Slots(v1.data, root), k, e, name);
  }

  lemma DataIsRead(v: Volume, payload: seq<byte>, name: seq<byte>, root: seq<nat>)
    requires v.Valid() && IsChain(v.fat, root) && root[0] == v.root && DotPos(name) < |name|
    requires Installed(v, payload, name).Ok? && Needed(|payload|, v.csz) <= MAX_CHAIN
    ensures var v' := Installed(v, payload, name).value;
            var alloc := FreeClusters(v.fat, 2, Wanted(|payload|, v.csz));
            && v'.Valid() && alloc != [] && Readable(v'.fat, alloc[0]) && ChainOf(v'.fat, alloc[0]) == alloc
            && VfsSpec.ReadBack(v', alloc[0], |payload|) == payload
  {
    hide FreeClusters, Store, Link, Content, HoleFrom, EntryBytes, Follow, Linked;
    var alloc := FreeClusters(v.fat, 2, Wanted(|payload|, v.csz));
    var v1, v' := WithData(v, alloc, payload), Installed(v, payload, name).value;
    DataStored(v, payload);
    InstalledValid(v1, v.root, 32 * FreeSlot(v1).value, EntryBytes(name, alloc[0], |payload|));
    ChainHead(v'.fat, alloc);
    AllocOutside(v.fat, Wanted(|payload|, v.csz), root);
    assert v.root !in alloc by {
      assert root[0] in root;
    }
    ContentFrame(v1.data, v'.data, alloc);
  }

  lemma InstalledValid(v: Volume, c: nat, off: nat, patch: seq<byte>)
    requires v.Valid() && 2 <= c < |v.fat| && off + |patch| <= v.csz
    ensures v.(data := v.data[c := Splice(v.data[c], off, patch)]).Valid()
  {
  }

  /** MAIN: so `read_file_content` of that name gives back exactly the bytes the tool was given, unless a
      record of the name came before the first hole. */
  lemma InstalledReadsBack(v: Volume, payload: seq<byte>, name: seq<byte>, root: seq<nat>)
    requires v.Valid() && IsChain(v.fat, root) && |root| <= MAX_CHAIN && root[0] == v.root
    requires GoodName(name) && !OlderRecord(Slots(v.data, root), name)
    requires Installed(v, payload, name).Ok? && Needed(|payload|, v.csz) <= MAX_CHAIN
    ensures var v' := Installed(v, payload, name).value;
            v'.Valid() && VfsSpec.ReadFileContent(v', name) == Ok(payload)
  {
    hide FreeClusters, Content, Slots, FindFrom, Follow, FullNameUpper, DotPos, Installed, WithData, Shows,
         OlderRecord, VfsSpec.ReadFileContent;
    InstalledIsFound(v, payload, name, root);
    BareName(name);
    ShownReads(Installed(v, payload, name).value, root, name, FreeClusters(v.fat, 2, Wanted(|payload|, v.csz)),
        payload);
  }

  /** What is shown is what `read_file_content` gives. */
  lemma ShownReads(v: Volume, root: seq<nat>, name: seq<byte>, alloc: seq<nat>, payload: seq<byte>)
    requires Shows(v, root, name, alloc, payload) && name != [] && ToUpper(name) == name
    requires ParentPath(name) == [] && NamePart(name) == name
    ensures v.Valid() && VfsSpec.ReadFileContent(v, name) == Ok(payload)
  {
    hide Follow, FindEntry, ResolveParent, ToUpper, Content;
    BareResolve(v, name);
    assert payload == [] ==> VfsSpec.ReadBack(v, alloc[0], |payload|) == [];
  }

  lemma BareResolve(v: Volume, name: seq<byte>)
    requires v.Valid() && ParentPath(name) == [] && NamePart(name) == name
    ensures ResolveParent(v, name) == Ok((v.root, name))
  {
  }

  /** A name without a slash lies in the root directory. */
  lemma BareName(name: seq<byte>)
    requires name != [] && SLASH !in name
    ensures ParentPath(name) == [] && NamePart(name) == name
  {
    assert TrimSlashes(name) == name;
    assert forall i :: 0 <= i < |name| ==> name[i] in name;
  }
}
