// Path resolution of kernel/src/fs/vfs/mod.rs, as functions of the volume.
module Paths {
  import opened Wrappers
  import opened Bytes
  import opened Chains
  import opened Volumes
  import opened DirEntries
  import opened Directory

  const SLASH: byte := 47

  /** The source's errors, and `LeavesFat`, which is none of them: the model's answer where a chain leads
      out of the FAT and the source would go on reading whatever the device holds behind the table. */
  datatype VfsError =
    | NotFound | NotADirectory | NotAFile | AlreadyExists | PermissionDenied | IoError | NoSpace | InvalidPath
    | LeavesFat

  // -- Taking paths apart ---------------------------------------------------------------------------

  /** Position of the first slash, or the length. */
  function SlashPos(p: seq<byte>): (n: nat)
    ensures n <= |p|
    ensures n < |p| ==> p[n] == SLASH
    ensures forall i :: 0 <= i < n ==> p[i] != SLASH
  {
    if p == [] || p[0] == SLASH then 0 else 1 + SlashPos(p[1..])
  }

  function Head(p: seq<byte>): seq<byte> { p[..SlashPos(p)] }

  function Rest(p: seq<byte>): (r: seq<byte>)
    ensures p != [] ==> |r| < |p|
  {
    if SlashPos(p) < |p| then p[SlashPos(p) + 1..] else []
  }

  function TrimSlashes(p: seq<byte>): (r: seq<byte>)
    ensures r != [] ==> r[0] != SLASH
  {
    if p != [] && p[0] == SLASH then TrimSlashes(p[1..]) else p
  }

  lemma TrimNothing(p: seq<byte>)
    requires p == [] || p[0] != SLASH
    ensures TrimSlashes(p) == p
  {
  }

  /** Position just after the last slash; 0 when there is none. */
  function NameStart(p: seq<byte>): (n: nat)
    ensures n <= |p|
    ensures n > 0 ==> p[n - 1] == SLASH
    ensures forall i :: n <= i < |p| ==> p[i] != SLASH
  {
    if p == [] || p[|p| - 1] == SLASH then |p| else NameStart(p[..|p| - 1])
  }

  /** What `resolve_parent` resolves, and the name it hands back. */
  function ParentPath(path: seq<byte>): seq<byte> {
    var p := TrimSlashes(path);
    if NameStart(p) == 0 then [] else p[..NameStart(p) - 1]
  }

  function NamePart(path: seq<byte>): seq<byte> {
    var p := TrimSlashes(path);
    p[NameStart(p)..]
  }

  predicate SkippedComponent(c: seq<byte>) { c == [] || c == [DOT] }

  /** The components that resolution acts on: empty ones and "." are skipped. */
  function Steps(p: seq<byte>): seq<seq<byte>>
    decreases |p|
  {
    if p == [] then []
    else (if SkippedComponent(Head(p)) then [] else [Head(p)]) + Steps(Rest(p))
  }

  lemma {:induction false} StepsConcat(p: seq<byte>, q: seq<byte>)
    ensures Steps(p + [SLASH] + q) == Steps(p) + Steps(q)
    decreases |p|
  {
    hide SlashPos, Head, Rest, Steps, FirstStep, SlashEnds;
    HeadOfConcat(p, q);
    if p == [] {
      StepsUnfold(p + [SLASH] + q);
      StepsUnfold([]);
    } else if SlashEnds(p) {
      StepsConcat(Rest(p), q);
      StepsUnfold(p + [SLASH] + q);
      StepsUnfold(p);
      Assoc(FirstStep(p), Steps(Rest(p)), Steps(q));
    } else {
      StepsUnfold(p + [SLASH] + q);
      StepsUnfold(p);
      StepsUnfold([]);
    }
  }

  lemma Assoc<T>(a: seq<T>, b: seq<T>, c: seq<T>)
    ensures a + (b + c) == a + b + c
  {
  }

  function FirstStep(p: seq<byte>): seq<seq<byte>> { if SkippedComponent(Head(p)) then [] else [Head(p)] }

  lemma StepsUnfold(p: seq<byte>)
    ensures Steps(p) == if p == [] then [] else FirstStep(p) + Steps(Rest(p))
    ensures p == [] ==> FirstStep(p) == []
  {
    hide Rest;
  }

  predicate SlashEnds(p: seq<byte>) { SlashPos(p) < |p| }

  lemma HeadOfConcat(p: seq<byte>, q: seq<byte>)
    ensures Head(p + [SLASH] + q) == Head(p) && FirstStep(p + [SLASH] + q) == FirstStep(p)
    ensures Rest(p + [SLASH] + q) == if SlashEnds(p) then Rest(p) + [SLASH] + q else q
    ensures !SlashEnds(p) ==> Rest(p) == []
    ensures p == [] ==> Head(p) == [] && !SlashEnds(p)
  {
    hide SlashPos;
    var w := p + [SLASH] + q;
    assert forall i :: 0 <= i < |p| ==> w[i] == p[i];
    assert w[|p|] == SLASH;
    var n := SlashPos(p);
    assert SlashPos(w) == n;
    if n < |p| {
      assert w[n + 1..] == p[n + 1..] + [SLASH] + q;
    } else {
      assert w[n + 1..] == q;
    }
  }

  lemma {:induction false} StepsTrim(p: seq<byte>)
    ensures Steps(TrimSlashes(p)) == Steps(p)
    decreases |p|
  {
    if p != [] && p[0] == SLASH {
      assert SlashPos(p) == 0 && Rest(p) == p[1..];
      StepsTrim(p[1..]);
    }
  }

  lemma StepsOfName(n: seq<byte>)
    requires forall i :: 0 <= i < |n| ==> n[i] != SLASH
    ensures Steps(n) == if SkippedComponent(n) then [] else [n]
  {
    if n != [] {
      assert SlashPos(n) == |n| && Head(n) == n && Rest(n) == [];
      assert Steps([]) == [];
    }
  }

  /** A path's steps are its parent's steps and its name. */
  lemma StepsOfParent(path: seq<byte>)
    ensures Steps(path) == Steps(ParentPath(path)) + if SkippedComponent(NamePart(path)) then [] else [NamePart(path)]
  {
    hide SlashPos, Head, Rest, NameStart, TrimSlashes;
    var p := TrimSlashes(path);
    StepsTrim(path);
    StepsOfName(NamePart(path));
    if NameStart(p) == 0 {
      assert NamePart(path) == p;
      assert Steps([]) == [];
    } else {
      assert p == ParentPath(path) + [SLASH] + NamePart(path);
      StepsConcat(ParentPath(path), NamePart(path));
    }
  }

  /** The name at the end of a path: appended to `path`, `n` is the name and `path` leads to its parent. */
  lemma ChildPath(path: seq<byte>, n: seq<byte>)
    requires n != [] && forall i :: 0 <= i < |n| ==> n[i] != SLASH
    ensures NamePart(path + [SLASH] + n) == n
    ensures Steps(ParentPath(path + [SLASH] + n)) == Steps(path)
  {
    hide SlashPos, Head, Rest, NameStart, TrimSlashes, Steps;
    TrimChild(path, n);
    var p := TrimSlashes(path);
    StepsTrim(path);
    if p == [] {
      StartOfName([], n);
      assert [] + n == n && n[0..] == n;
    } else {
      StartOfName(p + [SLASH], n);
      assert (p + [SLASH] + n)[..|p|] == p;
      assert (p + [SLASH] + n)[|p| + 1..] == n;
    }
  }

  lemma {:induction false} TrimChild(path: seq<byte>, n: seq<byte>)
    requires n != [] && n[0] != SLASH
    ensures TrimSlashes(path + [SLASH] + n)
            == if TrimSlashes(path) == [] then n else TrimSlashes(path) + [SLASH] + n
    decreases |path|
  {
    var w := path + [SLASH] + n;
    if path == [] {
      assert w[1..] == n;
    } else if path[0] == SLASH {
      assert w[1..] == path[1..] + [SLASH] + n;
      TrimChild(path[1..], n);
    }
  }

  /** Behind a slash, or at the beginning, a text without slashes is the name. */
  lemma {:induction false} StartOfName(p: seq<byte>, n: seq<byte>)
    requires forall i :: 0 <= i < |n| ==> n[i] != SLASH
    requires p == [] || p[|p| - 1] == SLASH
    ensures NameStart(p + n) == |p|
    decreases |n|
  {
    if n == [] {
      assert p + n == p;
    } else {
      assert (p + n)[|p + n| - 1] == n[|n| - 1];
      assert (p + n)[..|p + n| - 1] == p + n[..|n| - 1];
      StartOfName(p, n[..|n| - 1]);
    }
  }

  // -- Lookup in one directory ------------------------------------------------------------------------

  /** The match of `resolve_path`: the first listed entry whose upper-cased name is the upper-cased
      component. */
  function LookUp(infos: seq<DirEntryInfo>, component: seq<byte>): (r: Option<DirEntryInfo>)
    ensures r.Some? ==> r.value in infos
  {
    if infos == [] then None
    else if ToUpper(infos[0].name) == ToUpper(component) then Some(infos[0])
    else LookUp(infos[1..], component)
  }

  /** The search for a ".." entry. */
  function LookUpDotDot(infos: seq<DirEntryInfo>): Option<nat> {
    if infos == [] then None
    else if infos[0].name == [DOT, DOT] then Some(infos[0].cluster)
    else LookUpDotDot(infos[1..])
  }

  function DirListing(v: Volume, dir: nat): seq<DirEntryInfo>
    requires v.Valid() && Readable(v.fat, dir)
  {
    ReadableWalk(v.fat, dir);
    Listing(Slots(v.data, ChainOf(v.fat, dir)), 0)
  }

  /** One step of resolution. */
  function Enter(v: Volume, cur: nat, component: seq<byte>): Result<nat, VfsError>
    requires v.Valid()
  {
    if component == [DOT, DOT] && cur == v.root then Ok(cur)
    else if !Readable(v.fat, cur) then Err(LeavesFat)
    else if component == [DOT, DOT] then
      match LookUpDotDot(DirListing(v, cur))
      case Some(c) => Ok(c)
      case None => Ok(v.root)
    else
      match LookUp(DirListing(v, cur), component)
      case Some(info) => Ok(info.cluster)
      case None => Err(NotFound)
  }

  /** Listings never show "..", so ".." always leads to the root. */
  lemma {:induction false} ListingHidesDots(slots: seq<DirEntry>, i: nat)
    ensures LookUpDotDot(Listing(slots, i)).None?
    ensures forall info :: info in Listing(slots, i) ==> !IsDots(info.name)
    decreases |slots| - i
  {
    if i < |slots| && !IsEnd(slots[i]) {
      ListingHidesDots(slots, i + 1);
    }
  }

  lemma DotDotGoesToRoot(v: Volume, cur: nat)
    requires v.Valid() && (cur == v.root || Readable(v.fat, cur))
    ensures Enter(v, cur, [DOT, DOT]) == Ok(v.root)
  {
    if cur != v.root {
      ReadableWalk(v.fat, cur);
      ListingHidesDots(Slots(v.data, ChainOf(v.fat, cur)), 0);
    }
  }

  // -- Resolution -----------------------------------------------------------------------------------

  /** The loop of `resolve_path`, with the path still to go. */
  function ResolveFrom(v: Volume, cur: nat, remaining: seq<byte>): Result<nat, VfsError>
    requires v.Valid()
    decreases |remaining|
  {
    if remaining == [] then Ok(cur)
    else if SkippedComponent(Head(remaining)) then ResolveFrom(v, cur, Rest(remaining))
    else
      match Enter(v, cur, Head(remaining))
      case Err(e) => Err(e)
      case Ok(next) => ResolveFrom(v, next, Rest(remaining))
  }

  function ResolvePath(v: Volume, path: seq<byte>): Result<nat, VfsError>
    requires v.Valid()
  {
    ResolveFrom(v, v.root, TrimSlashes(path))
  }

  function ResolveParent(v: Volume, path: seq<byte>): Result<(nat, seq<byte>), VfsError>
    requires v.Valid()
  {
    match ResolvePath(v, ParentPath(path))
    case Err(e) => Err(e)
    case Ok(c) => Ok((c, NamePart(path)))
  }

  /** Reference definition: directory lookup folded over the components. */
  function FoldSteps(v: Volume, cur: nat, steps: seq<seq<byte>>): Result<nat, VfsError>
    requires v.Valid()
    decreases |steps|
  {
    if steps == [] then Ok(cur)
    else
      match Enter(v, cur, steps[0])
      case Err(e) => Err(e)
      case Ok(next) => FoldSteps(v, next, steps[1..])
  }

  lemma {:induction false} FoldConcat(v: Volume, cur: nat, a: seq<seq<byte>>, b: seq<seq<byte>>)
    requires v.Valid()
    ensures FoldSteps(v, cur, a + b)
            == var r := FoldSteps(v, cur, a); if r.Ok? then FoldSteps(v, r.value, b) else r
    decreases |a|
  {
    if a == [] {
      assert a + b == b;
    } else {
      assert (a + b)[0] == a[0] && (a + b)[1..] == a[1..] + b;
      var step := Enter(v, cur, a[0]);
      if step.Ok? {
        FoldConcat(v, step.value, a[1..], b);
      }
    }
  }

  lemma {:induction false} ResolveFromIsFold(v: Volume, cur: nat, remaining: seq<byte>)
    requires v.Valid()
    ensures ResolveFrom(v, cur, remaining) == FoldSteps(v, cur, Steps(remaining))
    decreases |remaining|
  {
    hide Enter;
    if remaining != [] {
      var h, rest := Head(remaining), Rest(remaining);
      if SkippedComponent(h) {
        ResolveFromIsFold(v, cur, rest);
        assert Steps(remaining) == Steps(rest);
      } else {
        assert Steps(remaining) == [h] + Steps(rest);
        assert Steps(remaining)[1..] == Steps(rest);
        var step := Enter(v, cur, h);
        if step.Ok? {
          ResolveFromIsFold(v, step.value, rest);
        }
      }
    }
  }

  /** `resolve_path` is directory lookup folded over the slash-separated components. */
  lemma ResolveIsFold(v: Volume, path: seq<byte>)
    requires v.Valid()
    ensures ResolvePath(v, path) == FoldSteps(v, v.root, Steps(path))
  {
    ResolveFromIsFold(v, v.root, TrimSlashes(path));
    StepsTrim(path);
  }

  /** Resolving `p/q` is resolving `p`, then `q` from there. */
  lemma ResolveConcat(v: Volume, p: seq<byte>, q: seq<byte>)
    requires v.Valid()
    ensures ResolvePath(v, p + [SLASH] + q)
            == var r := ResolvePath(v, p); if r.Ok? then ResolveFrom(v, r.value, q) else r
  {
    hide Enter, FoldSteps, ResolveFrom;
    ResolveIsFold(v, p + [SLASH] + q);
    ResolveIsFold(v, p);
    StepsConcat(p, q);
    FoldConcat(v, v.root, Steps(p), Steps(q));
    var r := ResolvePath(v, p);
    if r.Ok? {
      ResolveFromIsFold(v, r.value, q);
    }
  }

  // -- Agreement with find_entry -----------------------------------------------------------------

  predicate NoLower(s: seq<byte>) { forall i :: 0 <= i < |s| ==> !(97 <= s[i] <= 122) }

  /** No visible name holds a lower-case letter, as the FAT specification demands of short names. */
  ghost predicate Canonical(slots: seq<DirEntry>) {
    forall i :: 0 <= i < |slots| && !IsEnd(slots[i]) && !Skipped(slots[i]) ==> NoLower(FullNameUpper(slots[i]))
  }

  lemma UpperLower(s: seq<byte>)
    requires NoLower(s)
    ensures ToUpper(ToLower(s)) == s
  {
  }

  lemma UpperClean(s: seq<byte>)
    ensures NoLower(ToUpper(s)) && ToUpper(ToUpper(s)) == ToUpper(s)
  {
  }

  lemma DotsUpper(s: seq<byte>)
    ensures IsDots(ToUpper(s)) <==> IsDots(s)
    ensures IsDots(ToLower(s)) <==> IsDots(s)
  {
    if IsDots(ToUpper(s)) {
      assert forall i :: 0 <= i < |s| ==> ToUpper(s)[i] == DOT;
      assert forall i :: 0 <= i < |s| ==> s[i] == ToUpper(s)[i];
    }
    if IsDots(ToLower(s)) {
      assert forall i :: 0 <= i < |s| ==> ToLower(s)[i] == DOT;
      assert forall i :: 0 <= i < |s| ==> s[i] == ToLower(s)[i];
    }
    if IsDots(s) {
      assert ToUpper(s) == s && ToLower(s) == s;
    }
  }

  /** For stored names without lower-case letters, the case-blind match of `resolve_path` and the
      exact match of `find_entry` pick the same entry. */
  lemma {:induction false} LookUpIsFind(slots: seq<DirEntry>, i: nat, name: seq<byte>)
    requires Canonical(slots) && !IsDots(name)
    ensures LookUp(Listing(slots, i), name)
            == var r := FindFrom(slots, i, ToUpper(name)); if r.Some? then Some(InfoOf(slots[r.value])) else None
    decreases |slots| - i
  {
    hide FullNameUpper;
    if i < |slots| && !IsEnd(slots[i]) {
      LookUpIsFind(slots, i + 1, name);
      var e := slots[i];
      if !Skipped(e) {
        UpperLower(FullNameUpper(e));
        DotsUpper(FullNameUpper(e));
        DotsUpper(name);
        if !IsDots(FullName(e)) {
          var l := [InfoOf(e)] + Listing(slots, i + 1);
          assert l[1..] == Listing(slots, i + 1);
        }
      }
    }
  }

  /** `resolve_path` on a proper name is `resolve_parent` followed by `find_entry`. */
  lemma ResolveIsParentThenFind(v: Volume, path: seq<byte>)
    requires v.Valid() && !SkippedComponent(NamePart(path)) && NamePart(path) != [DOT, DOT]
    requires ResolveParent(v, path).Ok? ==> Readable(v.fat, ResolveParent(v, path).value.0)
    requires ResolveParent(v, path).Ok? ==>
               var cs := ChainOf(v.fat, ResolveParent(v, path).value.0);
               InRange(cs, |v.data|) && Canonical(Slots(v.data, cs))
    ensures var parent := ResolveParent(v, path);
            && (parent.Err? ==> ResolvePath(v, path) == Err(parent.error))
            && (parent.Ok? ==>
                  var e := Directory.FindEntry(v, ChainOf(v.fat, parent.value.0), ToUpper(parent.value.1));
                  ResolvePath(v, path) == if e.Some? then Ok(FirstCluster(e.value)) else Err(NotFound))
  {
    hide ResolveFrom, Slots, Listing, FindFrom;
    ResolveIsFold(v, path);
    ResolveIsFold(v, ParentPath(path));
    StepsOfParent(path);
    FoldConcat(v, v.root, Steps(ParentPath(path)), [NamePart(path)]);
    var r := ResolvePath(v, ParentPath(path));
    if r.Ok? {
      OneStep(v, r.value, NamePart(path));
      LookUpIsFind(Slots(v.data, ChainOf(v.fat, r.value)), 0, NamePart(path));
    }
  }

  lemma OneStep(v: Volume, cur: nat, n: seq<byte>)
    requires v.Valid()
    ensures FoldSteps(v, cur, [n]) == Enter(v, cur, n)
  {
    assert [n][1..] == [];
    var step := Enter(v, cur, n);
    if step.Ok? {
      assert FoldSteps(v, step.value, []) == Ok(step.value);
    }
  }
}
