// Opening what exists, reading through a descriptor, and paths taken from the working directory.
module Descriptors {
  import opened Wrappers
  import opened Bytes
  import opened Chains
  import opened Volumes
  import opened DirEntries
  import opened Directory
  import opened Paths
  import opened VfsSpec
  import opened Tree
  import opened Invariant
  import opened Operations
  import opened TreePaths
  import opened Runs
  import opened Appends

  // -- Paths from the working directory -----------------------------------------------------------------

  /** MAIN: a relative path is followed from where the working directory leads, an absolute one from the root. */
  lemma CanonicalSteps(cwd: seq<byte>, path: seq<byte>)
    ensures Steps(Canonicalize(cwd, path))
            == if path != [] && path[0] == SLASH then Steps(path) else Steps(cwd) + Steps(path)
  {
    hide Steps;
    if path == [] || path[0] != SLASH {
      if cwd != [] && cwd[|cwd| - 1] == SLASH {
        var c := cwd[..|cwd| - 1];
        assert cwd == c + [SLASH] + [];
        assert cwd + path == c + [SLASH] + path;
        StepsConcat(c, []);
        StepsConcat(c, path);
        assert Steps([]) == [] by { StepsUnfold([]); }
        assert Steps(c) + [] == Steps(c);
      } else {
        StepsConcat(cwd, path);
      }
    }
  }

  lemma CanonicalResolves(v: Volume, cwd: seq<byte>, path: seq<byte>)
    requires v.Valid() && (path == [] || path[0] != SLASH)
    ensures ResolvePath(v, Canonicalize(cwd, path))
            == var r := ResolvePath(v, cwd); if r.Ok? then FoldSteps(v, r.value, Steps(path)) else r
  {
    hide Steps, Canonicalize, FoldSteps;
    CanonicalSteps(cwd, path);
    ResolveIsFold(v, Canonicalize(cwd, path));
    ResolveIsFold(v, cwd);
    FoldConcat(v, v.root, Steps(cwd), Steps(path));
  }

  // -- Opening what exists ------------------------------------------------------------------------------

  /** The record `read_file_content` reads. */
  lemma ContentRecord(v: Volume, path: seq<byte>, w: seq<byte>) returns (d: nat, e: DirEntry)
    requires v.Valid() && NamePart(path) != [] && ReadFileContent(v, path) == Ok(w)
    ensures ResolveParent(v, path) == Ok((d, NamePart(path))) && Readable(v.fat, d)
    ensures InRange(ChainOf(v.fat, d), |v.data|)
    ensures FindEntry(v, ChainOf(v.fat, d), ToUpper(NamePart(path))) == Some(e)
    ensures !IsDirectory(e) && FileSize(e) == |w|
    ensures w != [] ==> Readable(v.fat, FirstCluster(e)) && ReadBack(v, FirstCluster(e), |w|) == w
  {
    hide FindEntry, Follow, FirstCluster, FileSize, IsDirectory, ResolvePath, ReadBack;
    d := ResolveParent(v, path).value.0;
    ReadableWalk(v.fat, d);
    e := FindEntry(v, ChainOf(v.fat, d), ToUpper(NamePart(path))).value;
  }

  /** MAIN: opening a file that reads as `w`, in any mode but CreateNew, leaves the volume alone and adds one
      descriptor: numbered next, with that path and mode, at position 0, of the file's length, on the first
      cluster of the record found. With CreateNew it is refused. */
  lemma OpenExisting(s: VfsState, path: seq<byte>, mode: FileMode, w: seq<byte>) returns (d: nat, e: DirEntry)
    requires s.v.Valid() && NamePart(Canonicalize(s.cwd, path)) != []
    requires ReadFileContent(s.v, Canonicalize(s.cwd, path)) == Ok(w)
    ensures var full := Canonicalize(s.cwd, path);
            && ResolveParent(s.v, full) == Ok((d, NamePart(full))) && Readable(s.v.fat, d)
            && InRange(ChainOf(s.v.fat, d), |s.v.data|)
            && FindEntry(s.v, ChainOf(s.v.fat, d), ToUpper(NamePart(full))) == Some(e)
            && Open(s, path, mode)
               == if mode == CreateNew then (s, Err(AlreadyExists))
                  else (VfsState(s.v, s.table + [FileDescriptor(s.nextFd, full, mode, 0, |w|, FirstCluster(e))],
                                 s.nextFd + 1, s.cwd), Ok(s.nextFd))
  {
    hide FindEntry, Follow, FirstCluster, FileSize, IsDirectory, ResolveParent, ReadFileContent, CreateFresh, NamePart;
    d, e := ContentRecord(s.v, Canonicalize(s.cwd, path), w);
  }

  /** A path without a last name is opened for reading only, as the directory it leads to. */
  lemma OpenDirectory(s: VfsState, path: seq<byte>, mode: FileMode)
    requires s.v.Valid() && NamePart(Canonicalize(s.cwd, path)) == []
    requires ResolveParent(s.v, Canonicalize(s.cwd, path)).Ok?
    ensures var full := Canonicalize(s.cwd, path);
            Open(s, path, mode)
            == if mode != Read then (s, Err(InvalidPath))
               else if ResolvePath(s.v, full).Err? then (s, Err(ResolvePath(s.v, full).error))
               else (VfsState(s.v, s.table + [FileDescriptor(s.nextFd, full, Read, 0, 0, ResolvePath(s.v, full).value)],
                              s.nextFd + 1, s.cwd), Ok(s.nextFd))
  {
    hide ResolvePath;
  }

  // -- Reading ------------------------------------------------------------------------------------------

  /** Descriptor `fd` stands at position `p` of bytes `w`. */
  predicate StandsAt(s: VfsState, fd: nat, p: nat, w: seq<byte>)
    requires s.v.Valid()
  {
    var i := Position(s.table, fd);
    && i.Some?
    && var f := s.table[i.value];
       f.pos == p && f.size == |w| && (w != [] ==> Readable(s.v.fat, f.cluster) && ReadBack(s.v, f.cluster, |w|) == w)
  }

  /** MAIN: reading into a buffer of `n` bytes gives the next bytes, `n` of them or as many as are left. Nothing
      moves, so the same call gives the same bytes again. */
  lemma ReadGives(s: VfsState, fd: nat, p: nat, w: seq<byte>, n: nat)
    requires s.v.Valid() && StandsAt(s, fd, p, w)
    ensures ReadFd(s, fd, n) == Ok(if p < |w| then w[p..Least(p + n, |w|)] else [])
  {
    hide ReadBack, Follow;
  }

  /** MAIN: a file opened in any mode but CreateNew reads from its beginning, every time. */
  lemma OpenThenRead(s: VfsState, path: seq<byte>, mode: FileMode, w: seq<byte>, n: nat)
    requires s.v.Valid() && NamePart(Canonicalize(s.cwd, path)) != [] && FdsNumbered(s.table, s.nextFd)
    requires ReadFileContent(s.v, Canonicalize(s.cwd, path)) == Ok(w) && mode != CreateNew
    ensures Open(s, path, mode).1 == Ok(s.nextFd)
    ensures ReadFd(Open(s, path, mode).0, s.nextFd, n) == Ok(w[..Least(n, |w|)])
  {
    hide FindEntry, Follow, FirstCluster, ResolveParent, ReadFileContent, NamePart, ReadBack, Open, Canonicalize,
         IsDirectory, FileSize;
    var full := Canonicalize(s.cwd, path);
    var d, e := OpenExisting(s, path, mode, w);
    var d', e' := ContentRecord(s.v, full, w);
    PositionOfNew(s.table, FileDescriptor(s.nextFd, full, mode, 0, |w|, FirstCluster(e)));
    ReadGives(Open(s, path, mode).0, s.nextFd, 0, w, n);
  }

  /** A descriptor that holds its file stands in it. */
  lemma HoldsStands(s: VfsState, l: Layout, fd: nat, path: seq<byte>, p: nat, w: seq<byte>)
    requires HoldsAt(s, l, fd, path, p, w)
    ensures s.v.Valid() && StandsAt(s, fd, p, w)
  {
    hide Good, Content, RecordOf, WalkDirs, Follow;
    var h := FdCluster(s, fd);
    RecordChain(s.v, l, ParentDir(s.v, path).value, ToUpper(NamePart(path)), h, |w|);
    GoodChain(s.v, l, h);
  }

  // -- Opening, then writing ----------------------------------------------------------------------------

  /** A file opened for writing is held from its beginning. */
  lemma OpenHolds(s: VfsState, l: Layout, path: seq<byte>, mode: FileMode, w: seq<byte>)
    requires Good(s.v, l) && s.v.Valid() && FdsNumbered(s.table, s.nextFd) && (mode == Write || mode == Create)
    requires var full := Canonicalize(s.cwd, path);
             NamePart(full) != [] && ParentDir(s.v, full).Some? && ReadFileContent(s.v, full) == Ok(w)
    ensures HoldsAt(Open(s, path, mode).0, l, s.nextFd, Canonicalize(s.cwd, path), 0, w)
  {
    hide Good, FindFrom, Slots, Follow, FirstCluster, FileSize, IsDirectory, ResolveParent, ReadFileContent, NamePart,
         Open, Canonicalize, WalkDirs, Content, FullNameUpper, IsDotEntry, DirOk, IsChain;
    var full := Canonicalize(s.cwd, path);
    var d, e := OpenExisting(s, path, mode, w);
    var d', e' := ContentRecord(s.v, full, w);
    var g := AtParent(s.v, l, full);
    var k := FindFrom(l.dirs[g], 0, ToUpper(NamePart(full))).value;
    GoodDirOk(s.v, l, g);
    NotDot(l.dirs[g], k, ToUpper(NamePart(full)));
    FoundIsLive(s.v, l, g, ToUpper(NamePart(full)), k);
    GoodChain(s.v, l, FirstCluster(e));
    ReadableWalk(s.v.fat, FirstCluster(e));
    PositionOfNew(s.table, FileDescriptor(s.nextFd, full, mode, 0, |w|, FirstCluster(e)));
    SmallSize(e);
  }

  lemma SmallSize(e: DirEntry)
    ensures FileSize(e) < U32
  {
  }

  /** MAIN: a file that holds `w`, opened with Write or Create and written once, reads as the new bytes followed by
      zeros up to its old length, exactly when the new bytes survive on its chain; it is at least as long as
      before, and the descriptor stands behind the new bytes. */
  lemma OpenThenWrite(s: VfsState, l: Layout, path: seq<byte>, mode: FileMode, w: seq<byte>, data: seq<byte>,
                      full: seq<byte>, s1: VfsState, s2: VfsState)
    returns (l': Layout)
    requires Good(s.v, l) && s.v.Valid() && FdsNumbered(s.table, s.nextFd) && (mode == Write || mode == Create)
    requires full == Canonicalize(s.cwd, path) && NamePart(full) != [] && ParentDir(s.v, full).Some?
    requires ReadFileContent(s.v, full) == Ok(w) && |data| < U32 && s1 == Open(s, path, mode).0
    requires s1.v.Valid() && Allowed(s1, WriteOp(s.nextFd, data)) && WriteFd(s1, s.nextFd, data) == (s2, Ok(|data|))
    ensures s1.v == s.v && FdAt(s2, l', s.nextFd, full, |data|, Most(|w|, |data|))
    ensures s2.v.Valid()
    ensures ReadFileContent(s2.v, full) == Ok(data + Zeros(Most(|w|, |data|) - |data|))
            <==> Survives(s.v, FdCluster(s1, s.nextFd), data)
  {
    hide Good, ReadFileContent, NamePart, Open, Canonicalize, ParentDir, WriteFd, Survives, FdAt, Target, FileSize,
         StaysReadable, ResolveParent, FindEntry, HoldsAt, Allowed, Laid;
    var d, e := OpenExisting(s, path, mode, w);
    OpenHolds(s, l, path, mode, w);
    ReachedStays(s1, s.nextFd, data);
    l' := WriteInside(s1, l, s.nextFd, full, 0, w, data);
    ValidAt(s2, l', s.nextFd, full, |data|, Most(|w|, |data|));
    LaidFromStart(w, data);
  }

  lemma LaidFromStart(w: seq<byte>, data: seq<byte>)
    ensures Laid(w, 0, data) == data + Zeros(Most(|w|, |data|) - |data|)
    ensures Overlaid(w, 0, data) == data
  {
  }

  lemma ReachedStays(s: VfsState, fd: nat, data: seq<byte>)
    requires s.v.Valid() && Allowed(s, WriteOp(fd, data)) && WriteFd(s, fd, data).1.Ok?
    ensures Position(s.table, fd).Some? && StaysReadable(s.v, s.table[Position(s.table, fd).value], data)
  {
    hide StaysReadable, Follow, FullData, WriteClusters, UpdateFileSize;
  }
}
