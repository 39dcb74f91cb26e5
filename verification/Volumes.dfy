// A volume as the upper layers see it: the table of FAT words and the bytes of every cluster.
// File data is written and read here; Device.dfy refines a volume to sectors.
module Volumes {
  import opened Wrappers
  import opened Bytes
  import opened Multiples
  import opened Chains

  datatype Volume = Volume(csz: nat, root: nat, fat: seq<nat>, data: seq<seq<byte>>) {
    /** Shape only: the FAT may hold anything. */
    ghost predicate Valid() {
      && csz % 32 == 0 && csz >= 64
      && |fat| == |data| && 2 <= |fat| <= BAD
      && (forall c :: 0 <= c < |fat| ==> fat[c] < 0x1000_0000)
      && (forall c :: 0 <= c < |data| ==> |data[c]| == csz)
    }
  }

  // -- Bytes of a chain ---------------------------------------------------------------------------

  /** The bytes of the clusters of a chain, in chain order. */
  function Content(data: seq<seq<byte>>, cs: seq<nat>): (r: seq<byte>)
    requires InRange(cs, |data|)
    decreases |cs|
  {
    if cs == [] then []
    else Content(data, cs[..|cs| - 1]) + data[cs[|cs| - 1]]
  }

  lemma {:induction false} ContentFrame(data: seq<seq<byte>>, data': seq<seq<byte>>, cs: seq<nat>)
    requires InRange(cs, |data|) && |data'| == |data|
    requires forall c :: c in cs ==> data'[c] == data[c]
    ensures Content(data', cs) == Content(data, cs)
    decreases |cs|
  {
    if cs != [] {
      ContentFrame(data, data', cs[..|cs| - 1]);
    }
  }

  lemma ContentSnoc(data: seq<seq<byte>>, cs: seq<nat>, c: nat)
    requires InRange(cs, |data|) && 2 <= c < |data|
    ensures InRange(cs + [c], |data|) && Content(data, cs + [c]) == Content(data, cs) + data[c]
  {
    assert (cs + [c])[..|cs|] == cs;
  }

  // -- Writing a file's data ------------------------------------------------------------------------

  /** Clusters it takes to hold `n` bytes. */
  function Needed(n: nat, csz: nat): nat
    requires csz > 0
  {
    if n == 0 then 0 else if n <= csz then 1 else 1 + Needed(n - csz, csz)
  }

  /** The rounded-up division the source computes. */
  lemma {:induction false} NeededIsDivision(n: nat, csz: nat)
    requires csz > 0
    ensures Needed(n, csz) == if n == 0 then 0 else (n + csz - 1) / csz
  {
    if n > csz {
      NeededIsDivision(n - csz, csz);
      DivStep(n + csz - 1, csz);
    } else if n > 0 {
      DivStep(csz + n - 1, csz);
      DivSmall(n - 1, csz);
    }
  }

  lemma {:induction false} NeededBounds(n: nat, csz: nat)
    requires csz > 0
    ensures n <= Span(Needed(n, csz), csz)
    ensures n > 0 ==> 0 < Needed(n, csz) && Span(Needed(n, csz) - 1, csz) < n
  {
    if n > csz {
      NeededBounds(n - csz, csz);
    }
  }

  lemma NeededAtMost(n: nat, csz: nat, k: nat)
    requires csz > 0
    ensures Needed(n, csz) <= k <==> n <= Span(k, csz)
  {
    NeededBounds(n, csz);
    var q := Needed(n, csz);
    if q <= k {
      SpanMono(q, k, csz);
    } else {
      SpanMono(k, q - 1, csz);
    }
  }

  /** The data loop of `write_file_data`: every cluster takes its zero-padded stretch of `payload`. */
  function Store(data: seq<seq<byte>>, csz: nat, cs: seq<nat>, payload: seq<byte>, off: nat): (r: seq<seq<byte>>)
    requires InRange(cs, |data|)
    ensures |r| == |data|
    ensures forall c :: 0 <= c < |data| && c !in cs ==> r[c] == data[c]
    decreases |cs|
  {
    if cs == [] then data
    else
      assert forall c :: c in cs[1..] ==> c in cs;
      Store(data[cs[0] := Window(payload, off, csz)], csz, cs[1..], payload, off + csz)
  }

  lemma {:induction false} StoreKeepsSizes(data: seq<seq<byte>>, csz: nat, cs: seq<nat>, payload: seq<byte>, off: nat)
    requires InRange(cs, |data|)
    requires forall c :: 0 <= c < |data| ==> |data[c]| == csz
    ensures forall c :: 0 <= c < |data| ==> |Store(data, csz, cs, payload, off)[c]| == csz
    decreases |cs|
  {
    if cs != [] {
      StoreKeepsSizes(data[cs[0] := Window(payload, off, csz)], csz, cs[1..], payload, off + csz);
    }
  }

  /** Position `i` is the last one of its cluster. */
  ghost predicate LastAt(cs: seq<nat>, i: nat)
    requires i < |cs|
  {
    forall j :: i < j < |cs| ==> cs[j] != cs[i]
  }

  lemma {:induction false} StoreAt(data: seq<seq<byte>>, csz: nat, cs: seq<nat>, payload: seq<byte>, off: nat,
                                    i: nat, at: nat)
    requires InRange(cs, |data|) && i < |cs| && LastAt(cs, i)
    requires at == off + Span(i, csz)
    ensures Store(data, csz, cs, payload, off)[cs[i]] == Window(payload, at, csz)
    decreases |cs|
  {
    var d1, rest := data[cs[0] := Window(payload, off, csz)], cs[1..];
    if i > 0 {
      assert rest[i - 1] == cs[i];
      StoreAt(d1, csz, rest, payload, off + csz, i - 1, at);
    }
  }

  /** Clusters holding consecutive stretches of `payload` hold a stretch of it together. */
  lemma {:induction false} ContentOfStretches(data: seq<seq<byte>>, csz: nat, cs: seq<nat>, payload: seq<byte>)
    requires InRange(cs, |data|)
    requires forall i :: 0 <= i < |cs| ==> data[cs[i]] == Window(payload, Span(i, csz), csz)
    ensures Content(data, cs) == Window(payload, 0, Span(|cs|, csz))
    decreases |cs|
  {
    if cs != [] {
      var n := |cs| - 1;
      ContentOfStretches(data, csz, cs[..n], payload);
      WindowSplit(payload, 0, Span(n, csz), csz);
    }
  }

  /** `write_file_data` on the chain `existing`. The growth loop asks `alloc_cluster` again without
      having linked its last answer, so every new cluster it appends is the same one. */
  function WriteClusters(v: Volume, existing: seq<nat>, payload: seq<byte>): (r: (Volume, Result<(), string>))
    requires v.Valid() && InRange(existing, |v.fat|)
  {
    var n := Needed(|payload|, v.csz);
    if n <= |existing| then
      (v.(fat := Link(v.fat, existing), data := Store(v.data, v.csz, existing, payload, 0)), Ok(()))
    else
      match LowestFree(v.fat)
      case Err(e) => (v, Err(e))
      case Ok(c) => (Grown(v, existing, c, n - |existing|, payload), Ok(()))
  }

  /** The volume once the growth loop has appended `c` `k` times and everything is written. */
  function Grown(v: Volume, existing: seq<nat>, c: nat, k: nat, payload: seq<byte>): Volume
    requires v.Valid() && InRange(existing, |v.fat|) && 2 <= c < |v.fat|
  {
    var clusters := existing + Copies(c, k);
    v.(fat := Link(v.fat, clusters), data := Store(v.data[c := Zeros(v.csz)], v.csz, clusters, payload, 0))
  }

  /** Whatever the list of clusters, the volume keeps its shape. */
  lemma WriteClustersValid(v: Volume, existing: seq<nat>, payload: seq<byte>)
    requires v.Valid() && InRange(existing, |v.fat|)
    ensures var v' := WriteClusters(v, existing, payload).0;
            v'.Valid() && v'.csz == v.csz && v'.root == v.root && |v'.fat| == |v.fat|
  {
    hide Link, Store;
    var n := Needed(|payload|, v.csz);
    if n <= |existing| {
      LinkBound(v.fat, existing);
      StoreKeepsSizes(v.data, v.csz, existing, payload, 0);
    } else if LowestFree(v.fat).Ok? {
      var c := LowestFree(v.fat).value;
      var clusters := existing + Copies(c, n - |existing|);
      LinkBound(v.fat, clusters);
      StoreKeepsSizes(v.data[c := Zeros(v.csz)], v.csz, clusters, payload, 0);
    }
  }

  /** The chain after `write_file_data`: the old one, with at most one cluster more. */
  function ChainAfterWrite(v: Volume, existing: seq<nat>, payload: seq<byte>): seq<nat>
    requires v.Valid()
  {
    var alloc := LowestFree(v.fat);
    if Needed(|payload|, v.csz) <= |existing| || alloc.Err? then existing else existing + [alloc.value]
  }

  /** `v'` is `v` with the chain `old'` become `cs`: free clusters may have been added, and every
      cluster outside it, table word and bytes, is as it was. */
  ghost predicate ChainChanged(v: Volume, v': Volume, old': seq<nat>, cs: seq<nat>)
    requires v.Valid()
  {
    && v'.Valid() && v'.csz == v.csz && v'.root == v.root && |v'.fat| == |v.fat|
    && IsChain(v'.fat, cs)
    && (forall c :: c in cs && c !in old' ==> v.fat[c] == FREE)
    && (forall c :: 0 <= c < |v.fat| && c !in cs ==> v'.fat[c] == v.fat[c])
    && (forall c :: 0 <= c < |v.fat| && c !in cs ==> v'.data[c] == v.data[c])
  }

  lemma FitEffect(v: Volume, existing: seq<nat>, payload: seq<byte>)
    requires v.Valid() && IsChain(v.fat, existing)
    requires Needed(|payload|, v.csz) <= |existing|
    ensures ChainChanged(v, WriteClusters(v, existing, payload).0, existing, existing)
    ensures Content(WriteClusters(v, existing, payload).0.data, existing) == Window(payload, 0, Span(|existing|, v.csz))
  {
    LinkMakesChain(v.fat, existing);
    LinkBound(v.fat, existing);
    StoreKeepsSizes(v.data, v.csz, existing, payload, 0);
    StoreStretches(v.data, v.csz, existing, payload, |existing|);
    assert existing[..|existing|] == existing;
  }

  /** The first `k` clusters of a no-duplicate beginning hold the payload's first stretches. */
  lemma StoreStretches(data: seq<seq<byte>>, csz: nat, clusters: seq<nat>, payload: seq<byte>, k: nat)
    requires InRange(clusters, |data|) && k <= |clusters|
    requires forall i :: 0 <= i < k ==> LastAt(clusters, i)
    ensures Content(Store(data, csz, clusters, payload, 0), clusters[..k]) == Window(payload, 0, Span(k, csz))
  {
    var stored := Store(data, csz, clusters, payload, 0);
    forall i | 0 <= i < k
      ensures stored[clusters[..k][i]] == Window(payload, Span(i, csz), csz)
    {
      StoreAt(data, csz, clusters, payload, 0, i, Span(i, csz));
    }
    ContentOfStretches(stored, csz, clusters[..k], payload);
  }

  lemma CopiesTail(existing: seq<nat>, c: nat, k: nat)
    requires NoDup(existing) && c !in existing && k > 0
    ensures var cl := existing + Copies(c, k);
            && cl[..|existing|] == existing
            && (forall i :: 0 <= i < |existing| ==> LastAt(cl, i))
            && LastAt(cl, |cl| - 1) && cl[|cl| - 1] == c
  {
  }

  lemma CopiesMembers(existing: seq<nat>, c: nat, k: nat, x: nat)
    requires k > 0
    ensures x in existing + Copies(c, k) <==> x in existing + [c]
  {
    if x == c {
      assert (existing + Copies(c, k))[|existing|] == c;
    }
  }

  lemma GrowFat(fat: seq<nat>, existing: seq<nat>, c: nat, k: nat)
    requires IsChain(fat, existing) && 2 <= c < |fat| <= BAD && fat[c] == FREE && k > 0
    requires forall x :: 0 <= x < |fat| ==> fat[x] < 0x1000_0000
    ensures InRange(existing + Copies(c, k), |fat|)
    ensures var fat' := Link(fat, existing + Copies(c, k));
            && IsChain(fat', existing + [c])
            && (forall x :: 0 <= x < |fat| ==> fat'[x] < 0x1000_0000)
            && (forall x :: 0 <= x < |fat| && x !in existing + [c] ==> fat'[x] == fat[x])
  {
    NewClusterOutside(fat, existing, c);
    LinkCopies(fat, existing, c, k);
    LinkMakesChain(fat, existing + [c]);
    LinkBound(fat, existing + [c]);
  }

  lemma GrowData(data: seq<seq<byte>>, csz: nat, existing: seq<nat>, c: nat, k: nat, payload: seq<byte>)
    requires InRange(existing + Copies(c, k), |data|) && k > 0
    requires forall x :: 0 <= x < |data| ==> |data[x]| == csz
    ensures 2 <= c < |data|
    ensures var data' := Store(data[c := Zeros(csz)], csz, existing + Copies(c, k), payload, 0);
            && (forall x :: 0 <= x < |data| ==> |data'[x]| == csz)
            && (forall x :: 0 <= x < |data| && x !in existing + [c] ==> data'[x] == data[x])
  {
    var clusters := existing + Copies(c, k);
    assert clusters[|existing|] == c;
    var data0 := data[c := Zeros(csz)];
    StoreKeepsSizes(data0, csz, clusters, payload, 0);
    forall x | 0 <= x < |data| && x !in existing + [c]
      ensures Store(data0, csz, clusters, payload, 0)[x] == data[x]
    {
      CopiesMembers(existing, c, k, x);
      assert x != c by {
        assert (existing + [c])[|existing|] == c;
      }
    }
  }

  lemma GrowEffect(v: Volume, existing: seq<nat>, c: nat, k: nat, payload: seq<byte>)
    requires v.Valid() && IsChain(v.fat, existing) && 2 <= c < |v.fat| && v.fat[c] == FREE && k > 0
    ensures ChainChanged(v, Grown(v, existing, c, k, payload), existing, existing + [c])
  {
    var v' := Grown(v, existing, c, k, payload);
    assert v'.fat == Link(v.fat, existing + Copies(c, k));
    assert v'.data == Store(v.data[c := Zeros(v.csz)], v.csz, existing + Copies(c, k), payload, 0);
    GrowFat(v.fat, existing, c, k);
    GrowData(v.data, v.csz, existing, c, k, payload);
    NewClusterOutside(v.fat, existing, c);
    assert v'.Valid();
    assert IsChain(v'.fat, existing + [c]);
    assert forall x :: x in existing + [c] && x !in existing ==> v.fat[x] == FREE;
    assert (forall x :: 0 <= x < |v.fat| && x !in existing + [c] ==> v'.fat[x] == v.fat[x]);
    assert (forall x :: 0 <= x < |v.fat| && x !in existing + [c] ==> v'.data[x] == v.data[x]);
  }

  lemma StoreLast(data: seq<seq<byte>>, csz: nat, clusters: seq<nat>, c: nat, payload: seq<byte>, last: nat)
    requires InRange(clusters, |data|) && 0 < |clusters| && clusters[|clusters| - 1] == c
    requires last == Span(|clusters| - 1, csz)
    ensures Store(data, csz, clusters, payload, 0)[c] == Window(payload, last, csz)
  {
    StoreAt(data, csz, clusters, payload, 0, |clusters| - 1, last);
  }

  /** The old clusters hold the first bytes of the payload, the new one the payload's LAST stretch. */
  lemma GrowContent(data: seq<seq<byte>>, csz: nat, clusters: seq<nat>, m: nat, c: nat, payload: seq<byte>, last: nat)
    requires InRange(clusters, |data|) && m < |clusters| && clusters[|clusters| - 1] == c
    requires forall i :: 0 <= i < m ==> LastAt(clusters, i)
    requires last == Span(|clusters| - 1, csz)
    ensures InRange(clusters[..m] + [c], |data|)
    ensures var data' := Store(data, csz, clusters, payload, 0);
            Content(data', clusters[..m] + [c]) == Window(payload, 0, Span(m, csz)) + Window(payload, last, csz)
  {
    var stored := Store(data, csz, clusters, payload, 0);
    var head, tail := Window(payload, 0, Span(m, csz)), Window(payload, last, csz);
    assert Content(stored, clusters[..m]) == head by {
      StoreStretches(data, csz, clusters, payload, m);
    }
    StoreLast(data, csz, clusters, c, payload, last);
    ContentSnoc(stored, clusters[..m], c);
  }

  lemma GrownContent(v: Volume, existing: seq<nat>, c: nat, k: nat, payload: seq<byte>, last: nat)
    requires v.Valid() && IsChain(v.fat, existing) && 2 <= c < |v.fat| && v.fat[c] == FREE && k > 0
    requires last == Span(|existing| + k - 1, v.csz)
    ensures InRange(existing + [c], |v.data|)
    ensures Content(Grown(v, existing, c, k, payload).data, existing + [c])
            == Window(payload, 0, Span(|existing|, v.csz)) + Window(payload, last, v.csz)
  {
    var clusters := existing + Copies(c, k);
    NewClusterOutside(v.fat, existing, c);
    CopiesTail(existing, c, k);
    assert clusters[..|existing|] == existing;
    GrowContent(v.data[c := Zeros(v.csz)], v.csz, clusters, |existing|, c, payload, last);
  }

  lemma NewClusterOutside(fat: seq<nat>, existing: seq<nat>, c: nat)
    requires IsChain(fat, existing) && 2 <= c < |fat| && fat[c] == FREE
    ensures c !in existing && InRange(existing + [c], |fat|) && NoDup(existing + [c])
  {
    if c in existing {
      ChainNotFree(fat, existing, c);
    }
  }

  lemma {:induction false} LinkBound(fat: seq<nat>, cs: seq<nat>)
    requires InRange(cs, |fat|) && |fat| <= BAD
    requires forall c :: 0 <= c < |fat| ==> fat[c] < 0x1000_0000
    ensures forall c :: 0 <= c < |fat| ==> Link(fat, cs)[c] < 0x1000_0000
    decreases |cs|
  {
    if |cs| > 1 {
      LinkBound(fat[cs[0] := cs[1]], cs[1..]);
    }
  }

  /** What any successful write leaves: a well-formed chain, at most one cluster longer, and every
      cluster outside it as it was. */
  lemma WriteEffect(v: Volume, existing: seq<nat>, payload: seq<byte>)
    requires v.Valid() && IsChain(v.fat, existing)
    requires WriteClusters(v, existing, payload).1.Ok?
    ensures var cs := ChainAfterWrite(v, existing, payload);
            && ChainChanged(v, WriteClusters(v, existing, payload).0, existing, cs)
            && existing <= cs && |cs| <= |existing| + 1
  {
    if Needed(|payload|, v.csz) <= |existing| {
      FitEffect(v, existing, payload);
    } else {
      var c, k := LowestFree(v.fat).value, Needed(|payload|, v.csz) - |existing|;
      GrowEffect(v, existing, c, k, payload);
    }
  }

  /** Bytes from offset `off` on are all zero. */
  predicate ZeroFrom(s: seq<byte>, off: nat) {
    forall i :: off <= i < |s| ==> s[i] == 0
  }

  /** The bytes a chain of `len` clusters holds after `payload` is written to it: the payload's
      first bytes, and in the one new cluster its last stretch. */
  function Written(payload: seq<byte>, len: nat, csz: nat): seq<byte>
    requires csz > 0
  {
    var n := Needed(|payload|, csz);
    if n <= len then Window(payload, 0, Span(len, csz))
    else Window(payload, 0, Span(len, csz)) + Window(payload, Span(n - 1, csz), csz)
  }

  lemma WrittenContent(v: Volume, existing: seq<nat>, payload: seq<byte>)
    requires v.Valid() && IsChain(v.fat, existing)
    requires WriteClusters(v, existing, payload).1.Ok?
    ensures InRange(ChainAfterWrite(v, existing, payload), |v.data|)
    ensures Content(WriteClusters(v, existing, payload).0.data, ChainAfterWrite(v, existing, payload))
            == Written(payload, |existing|, v.csz)
  {
    hide Content;
    var n := Needed(|payload|, v.csz);
    if n <= |existing| {
      FitEffect(v, existing, payload);
    } else {
      GrownContent(v, existing, LowestFree(v.fat).value, n - |existing|, payload, Span(n - 1, v.csz));
    }
  }

  lemma WrittenReadBack(payload: seq<byte>, len: nat, csz: nat)
    requires csz > 0
    ensures Window(Written(payload, len, csz), 0, |payload|) == payload
            <==> Needed(|payload|, csz) <= len + 1 || ZeroFrom(payload, Span(len, csz))
  {
    var n := Needed(|payload|, csz);
    NeededBounds(|payload|, csz);
    if n <= len {
      NeededAtMost(|payload|, csz, len);
      assert Window(Written(payload, len, csz), 0, |payload|) == payload;
    } else {
      SpanMono(len, n - 1, csz);
      StretchesReadBack(payload, Span(len, csz), Span(n - 1, csz), csz);
    }
  }

  /** A payload survives its write exactly when it needs at most one cluster more than the chain
      has, or is zero past the old chain. */
  lemma WriteReadBack(v: Volume, existing: seq<nat>, payload: seq<byte>)
    requires v.Valid() && IsChain(v.fat, existing)
    requires WriteClusters(v, existing, payload).1.Ok?
    ensures InRange(ChainAfterWrite(v, existing, payload), |v.data|)
    ensures var content := Content(WriteClusters(v, existing, payload).0.data, ChainAfterWrite(v, existing, payload));
            Window(content, 0, |payload|) == payload
            <==> Needed(|payload|, v.csz) <= |existing| + 1 || ZeroFrom(payload, Span(|existing|, v.csz))
  {
    WrittenContent(v, existing, payload);
    WrittenReadBack(payload, |existing|, v.csz);
  }

  /** A chain that once lost bytes of `w` does not hold `w` and more after the next write either. */
  lemma LossStays(held: seq<byte>, w: seq<byte>, more: seq<byte>, len: nat, csz: nat)
    requires csz > 0 && |held| == |w| && held != w && ZeroFrom(held, Span(len, csz))
    ensures Window(Written(held + more, len, csz), 0, |w + more|) != w + more
  {
    hide ZeroFrom, Window;
    var payload, n := held + more, Needed(|held + more|, csz);
    NeededBounds(|payload|, csz);
    if n <= len {
      WrittenReadBack(payload, len, csz);
      Prefixes(held, w, more);
    } else {
      SpanMono(len, n - 1, csz);
      StretchLossStays(held, w, more, Span(len, csz), Span(n - 1, csz), csz);
    }
  }

  lemma Prefixes(a: seq<byte>, b: seq<byte>, c: seq<byte>)
    requires |a| == |b| && a != b
    ensures a + c != b + c
  {
    assert (a + c)[..|a|] == a && (b + c)[..|b|] == b;
  }

  lemma StretchLossStays(held: seq<byte>, w: seq<byte>, more: seq<byte>, base: nat, last: nat, csz: nat)
    requires |held| == |w| && held != w && ZeroFrom(held, base)
    requires base <= last < |held + more| <= last + csz && (last == base || last >= base + csz)
    ensures Window(Window(held + more, 0, base) + Window(held + more, last, csz), 0, |w + more|) != w + more
  {
    var payload := held + more;
    var content := Window(payload, 0, base) + Window(payload, last, csz);
    var back := Window(content, 0, |w + more|);
    var i :| 0 <= i < |w| && held[i] != w[i];
    if base <= i && back[i] == w[i] {
      assert held[i] == 0 && i < base + csz;
      var j := last + (i - base);
      assert back[j] != (w + more)[j];
    } else {
      assert back[i] != (w + more)[i];
    }
  }

  /** The bytes of a chain, at most `n` of them taken, are zero past its clusters. */
  lemma ZeroPastChain(v: Volume, cs: seq<nat>, n: nat)
    requires v.Valid() && InRange(cs, |v.data|)
    ensures ZeroFrom(Window(Content(v.data, cs), 0, n), Span(|cs|, v.csz))
  {
    ContentSize(v, cs);
  }

  lemma {:induction false} ContentSize(v: Volume, cs: seq<nat>)
    requires v.Valid() && InRange(cs, |v.data|)
    ensures |Content(v.data, cs)| == Span(|cs|, v.csz)
    decreases |cs|
  {
    if cs != [] {
      ContentSize(v, cs[..|cs| - 1]);
    }
  }

  /** A head of `base` bytes followed by the stretch at `last` is the payload exactly when nothing
      but zeros was skipped. */
  lemma StretchesReadBack(payload: seq<byte>, base: nat, last: nat, csz: nat)
    requires base <= last < |payload| <= last + csz
    requires last == base || last >= base + csz
    ensures Window(Window(payload, 0, base) + Window(payload, last, csz), 0, |payload|) == payload
            <==> last == base || ZeroFrom(payload, base)
  {
    var content := Window(payload, 0, base) + Window(payload, last, csz);
    var back := Window(content, 0, |payload|);
    if last == base || ZeroFrom(payload, base) {
      assert back == payload;
    }
    if back == payload && last != base {
      forall i | base + csz <= i < |payload|
        ensures payload[i] == 0
      {
        assert back[i] == 0;
      }
      forall i | base <= i < |payload|
        ensures payload[i] == 0
      {
        if i < base + csz {
          assert back[i] == content[i];
        }
      }
    }
  }

  /** `allocate_and_write`. */
  function WriteNewFile(v: Volume, payload: seq<byte>): (r: (Volume, Result<nat, string>))
    requires v.Valid()
  {
    match LowestFree(v.fat)
    case Err(e) => (v, Err(e))
    case Ok(c) =>
      var v1 := WithNewCluster(v, c);
      if payload == [] then (v1, Ok(c))
      else
        var (v2, r) := WriteClusters(v1, [c], payload);
        (v2, if r.Ok? then Ok(c) else Err(r.error))
  }

  /** `v` with free cluster `c` zeroed and made a chain of its own. */
  function WithNewCluster(v: Volume, c: nat): (v': Volume)
    requires v.Valid() && 2 <= c < |v.fat|
    ensures v'.Valid() && IsChain(v'.fat, [c])
  {
    v.(fat := v.fat[c := EOC], data := v.data[c := Zeros(v.csz)])
  }

  /** The chain of a file just created: one cluster, and a second one when its data asks for more. */
  function NewChain(v: Volume, payload: seq<byte>): seq<nat>
    requires v.Valid() && LowestFree(v.fat).Ok?
  {
    var c := LowestFree(v.fat).value;
    if payload == [] then [c] else ChainAfterWrite(WithNewCluster(v, c), [c], payload)
  }

  /** A successful creation takes one or two free clusters and touches no other. */
  lemma CreateEffect(v: Volume, payload: seq<byte>)
    requires v.Valid() && WriteNewFile(v, payload).1.Ok?
    ensures var v', cs := WriteNewFile(v, payload).0, NewChain(v, payload);
            && ChainChanged(v, v', [], cs)
            && 1 <= |cs| <= 2 && cs[0] == WriteNewFile(v, payload).1.value
  {
    var c := LowestFree(v.fat).value;
    if payload != [] {
      WriteEffect(WithNewCluster(v, c), [c], payload);
    }
  }

  /** The data of a new file reads back exactly when it fits two clusters or is zero past the first. */
  lemma CreateReadBack(v: Volume, payload: seq<byte>)
    requires v.Valid() && WriteNewFile(v, payload).1.Ok?
    ensures InRange(NewChain(v, payload), |WriteNewFile(v, payload).0.data|)
    ensures var content := Content(WriteNewFile(v, payload).0.data, NewChain(v, payload));
            Window(content, 0, |payload|) == payload <==> |payload| <= 2 * v.csz || ZeroFrom(payload, v.csz)
  {
    hide Content, FirstFree, Store, Link;
    var c := LowestFree(v.fat).value;
    if payload != [] {
      WriteReadBack(WithNewCluster(v, c), [c], payload);
      TwoClusters(|payload|, v.csz);
    }
  }

  lemma TwoClusters(n: nat, csz: nat)
    requires csz > 0
    ensures Span(1, csz) == csz && (Needed(n, csz) <= 2 <==> n <= 2 * csz)
  {
    assert Span(1, csz) == Span(0, csz) + csz;
    assert Span(2, csz) == Span(1, csz) + csz;
    NeededAtMost(n, csz, 2);
  }
}
