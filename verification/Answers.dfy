// Which answer each file call gives in each situation.
module Answers {
  import opened Wrappers
  import opened Bytes
  import opened Chains
  import opened Volumes
  import opened DirEntries
  import opened Directory
  import opened Paths
  import opened VfsSpec
  import opened Storage
  import opened Tree
  import opened Invariant
  import opened Operations
  import opened TreePaths
  import opened Runs
  import opened Exactness
  import opened Errors

  // -- A parent that is not there -----------------------------------------------------------------------

  /** Resolution fails only because an entry is missing, or leaves the FAT. */
  lemma {:induction false} ResolveFails(v: Volume, cur: nat, remaining: seq<byte>)
    requires v.Valid() && ResolveFrom(v, cur, remaining).Err?
    ensures ResolveFrom(v, cur, remaining) == Err(NotFound) || ResolveFrom(v, cur, remaining) == Err(LeavesFat)
    decreases |remaining|
  {
    hide LookUp, LookUpDotDot, Listing, Follow;
    if remaining != [] {
      if SkippedComponent(Head(remaining)) {
        ResolveFails(v, cur, Rest(remaining));
      } else if Enter(v, cur, Head(remaining)).Ok? {
        ResolveFails(v, Enter(v, cur, Head(remaining)).value, Rest(remaining));
      }
    }
  }

  /** MAIN: where the parent of the path is missing every call answers NotFound and changes nothing. */
  lemma MissingParent(s: VfsState, path: seq<byte>, data: seq<byte>, size: nat)
    requires s.v.Valid() && ResolveParent(s.v, path).Err? && ResolveParent(s.v, path) != Err(LeavesFat) && size < U32
    ensures CreateFile(s.v, path, data) == (s.v, Err(NotFound)) && Mkdir(s.v, path) == (s.v, Err(NotFound))
    ensures Delete(s.v, path) == (s.v, Err(NotFound)) && ReadFileContent(s.v, path) == Err(NotFound)
    ensures UpdateFileSize(s.v, path, size) == (s.v, Err(NotFound))
    ensures forall p, mode :: Canonicalize(s.cwd, p) == path ==> Open(s, p, mode) == (s, Err(NotFound))
  {
    hide ResolveFrom;
    ResolveFails(s.v, s.v.root, TrimSlashes(ParentPath(path)));
  }

  // -- Making and deleting ------------------------------------------------------------------------------

  /** MAIN: what `create_file` answers: a path without a last name is refused as invalid, a directory of the name
      as no file; a new file fails for want of a cluster, or when its directory cannot grow; an overwrite for
      want of a second cluster. */
  lemma CreateAnswers(v: Volume, l: Layout, path: seq<byte>, data: seq<byte>)
    requires Good(v, l) && v.Valid() && ParentDir(v, path).Some?
    ensures var r, t := CreateFile(v, path, data).1, Target(v, path);
            if NamePart(path) == [] then r == Err(InvalidPath)
            else if t.None? then
              && (r == Err(NoSpace) <==> WriteNewFile(v, data).1.Err?)
              && (r.Ok? || r == Err(NoSpace) || r == Err(IoError))
            else if IsDirectory(t.value) then r == Err(NotAFile)
            else r.Ok? || r == Err(NoSpace)
  {
    hide Good, FindFrom, FirstCluster, WalkDirs, Slots, Follow, FullNameUpper, WriteNewFile, AddEntry, NewEntry,
         IsDirectory, IsDotEntry, DirOk, Overwrite, NamePart, Stored, FatOk, IsChain;
    var d := AtParent(v, l, path);
    if NamePart(path) != [] {
      if Target(v, path).None? {
        if WriteNewFile(v, data).1.Ok? {
          var l1, c := FileMade(v, l, data);
          StoredDir(WriteNewFile(v, data).0, l1.chains, l1.home, l1.dirs, d);
        }
      } else if !IsDirectory(Target(v, path).value) {
        OverwriteAnswers(v, l, d, ToUpper(NamePart(path)), data);
      }
    }
  }

  lemma OverwriteAnswers(v: Volume, l: Layout, d: nat, n: seq<byte>, data: seq<byte>)
    requires Good(v, l) && v.Valid() && d in l.dirs && FindFrom(l.dirs[d], 0, n).Some?
    requires !IsDirectory(l.dirs[d][FindFrom(l.dirs[d], 0, n).value])
    ensures var r := Overwrite(v, d, n, l.dirs[d][FindFrom(l.dirs[d], 0, n).value], data).1;
            r.Ok? || r == Err(NoSpace)
  {
    hide Good, FindFrom, FirstCluster, Slots, Follow, FullNameUpper, WriteNewFile, IsDirectory, IsDotEntry, DirOk,
         Freed, UpdateEntry;
    var k := FindFrom(l.dirs[d], 0, n).value;
    GoodDirOk(v, l, d);
    NotDot(l.dirs[d], k, n);
    FoundIsLive(v, l, d, n, k);
    if Overwrite(v, d, n, l.dirs[d][k], data).1.Err? {
      OverwriteErrs(v, l, d, n, k, data);
    }
  }

  /** MAIN: what `mkdir` answers: a name that is there already is refused, whatever it names. */
  lemma MkdirAnswers(v: Volume, l: Layout, path: seq<byte>)
    requires Good(v, l) && v.Valid() && ParentDir(v, path).Some?
    ensures var r := Mkdir(v, path).1;
            if NamePart(path) == [] then r == Err(InvalidPath)
            else if Target(v, path).Some? then r == Err(AlreadyExists)
            else if LowestFree(v.fat).Err? then r == Err(NoSpace)
            else r.Ok? || r == Err(IoError)
  {
    hide Good, FindFrom, WalkDirs, Slots, Follow, AddEntry, NewEntry, NamePart, Stored, FatOk, IsChain, NewDirBlock,
         FirstFree;
    var d := AtParent(v, l, path);
    if NamePart(path) != [] && Target(v, path).None? && LowestFree(v.fat).Ok? {
      var c := LowestFree(v.fat).value;
      var l1 := DirMade(v, l, d, c);
      StoredDir(WithNewDir(v, c, d), l1.chains, l1.home, l1.dirs, d);
    }
  }

  /** MAIN: what `delete` answers: a name that is not there is an I/O error, not a missing file. */
  lemma DeleteAnswers(v: Volume, l: Layout, path: seq<byte>)
    requires Good(v, l) && v.Valid() && ParentDir(v, path).Some?
    ensures var r := Delete(v, path).1;
            if NamePart(path) == [] then r == Err(InvalidPath)
            else if Target(v, path).None? then r == Err(IoError)
            else r.Ok? || (r == Err(LeavesFat) && IsDotEntry(Target(v, path).value))
  {
    hide Good, FindFrom, WalkDirs, Slots, Follow, NamePart, FirstCluster, SetSlot, IsDotEntry, Freed;
    var d := AtParent(v, l, path);
    if NamePart(path) != [] && Target(v, path).Some? && !IsDotEntry(Target(v, path).value) {
      var k := FindFrom(l.dirs[d], 0, ToUpper(NamePart(path))).value;
      FoundIsLive(v, l, d, ToUpper(NamePart(path)), k);
    }
  }

  // -- Reading and sizes --------------------------------------------------------------------------------

  /** MAIN: what `read_file_content` answers: nothing for a path without a last name, NotFound and NotAFile, and
      otherwise as many bytes as the record says. */
  lemma ReadAnswers(v: Volume, l: Layout, path: seq<byte>)
    requires Good(v, l) && v.Valid() && ParentDir(v, path).Some?
    ensures var r, t := ReadFileContent(v, path), Target(v, path);
            if NamePart(path) == [] then r == Ok([])
            else if t.None? then r == Err(NotFound)
            else if IsDirectory(t.value) then r == Err(NotAFile)
            else r.Ok? && |r.value| == FileSize(t.value)
  {
    hide Good, FindFrom, WalkDirs, Slots, Follow, NamePart, FirstCluster, FileSize, IsDirectory, FullNameUpper,
         IsDotEntry, DirOk;
    var d := AtParent(v, l, path);
    if NamePart(path) != [] && Target(v, path).Some? && !IsDirectory(Target(v, path).value) {
      var n := ToUpper(NamePart(path));
      var k := FindFrom(l.dirs[d], 0, n).value;
      GoodDirOk(v, l, d);
      NotDot(l.dirs[d], k, n);
      FoundIsLive(v, l, d, n, k);
    }
  }

  /** MAIN: `update_file_size` answers Ok whether the name is there or not; when it is not, or the path has no last
      name, nothing changes, and otherwise the first record of the name gets the size. */
  lemma SizeAnswers(v: Volume, l: Layout, path: seq<byte>, size: nat)
    requires Good(v, l) && v.Valid() && ParentDir(v, path).Some? && size < U32
    ensures UpdateFileSize(v, path, size).1.Ok?
    ensures NamePart(path) == [] || Target(v, path).None? ==> UpdateFileSize(v, path, size).0 == v
  {
    hide Good, FindFrom, WalkDirs, Slots, Follow, NamePart, SetSlot;
    var d := AtParent(v, l, path);
  }

  // -- Descriptors --------------------------------------------------------------------------------------

  /** MAIN: when `open` refuses, and that it then changes nothing: an existing name for CreateNew, a directory, and
      a missing name for Read and Write. */
  lemma OpenRefuses(s: VfsState, l: Layout, path: seq<byte>, mode: FileMode)
    requires Good(s.v, l) && s.v.Valid() && ParentDir(s.v, Canonicalize(s.cwd, path)).Some?
    requires NamePart(Canonicalize(s.cwd, path)) != []
    ensures var r, t := Open(s, path, mode), Target(s.v, Canonicalize(s.cwd, path));
            && (r.1 == Err(AlreadyExists) <==> t.Some? && mode == CreateNew)
            && (r.1 == Err(NotAFile) <==> t.Some? && mode != CreateNew && IsDirectory(t.value))
            && (r.1 == Err(NotFound) <==> t.None? && (mode == Read || mode == Write))
            && (t.Some? && mode != CreateNew && !IsDirectory(t.value) ==> r.1.Ok?)
            && (t.Some? || mode == Read || mode == Write ==> r.1.Ok? || r.0 == s)
            && r.1 != Err(InvalidPath) && r.1 != Err(PermissionDenied)
  {
    hide Good, FindFrom, WalkDirs, Slots, Follow, NamePart, FirstCluster, FileSize, IsDirectory, WriteNewFile, AddEntry,
         NewEntry, Canonicalize, Stored, FatOk, IsChain;
    var d := AtParent(s.v, l, Canonicalize(s.cwd, path));
  }

  /** MAIN: when `write` refuses: an unknown descriptor, one for reading, and one whose chain would need a cluster
      when none is free; then nothing changes. */
  lemma WriteAnswers(s: VfsState, l: Layout, fd: nat, data: seq<byte>)
    requires GoodState(s, l) && s.v.Valid() && Reached(s, WriteOp(fd, data))
    requires var i := Position(s.table, fd);
             i.Some? && s.table[i.value].mode != Read && LowestFree(s.v.fat).Ok? ==>
               StaysReadable(s.v, s.table[i.value], data)
    ensures var i, r := Position(s.table, fd), WriteFd(s, fd, data);
            && (r.1 == Err(NotFound) <==> i.None?)
            && (r.1 == Err(PermissionDenied) <==> i.Some? && s.table[i.value].mode == Read)
            && (r.1.Ok? || r.1 == Err(NotFound) || r.1 == Err(PermissionDenied) || r.1 == Err(IoError))
            && (r.1 == Err(IoError) ==> LowestFree(s.v.fat).Err?)
            && (r.1.Err? ==> r.0 == s)
  {
    hide Good, FdsOk, FdsNumbered, WriteFd, StaysReadable, FirstFree, ParentDir;
    var i := Position(s.table, fd);
    if i.None? || s.table[i.value].mode == Read {
      RefusedAs(s, fd, data);
    } else {
      if WriteFd(s, fd, data).1.Err? {
        WriteUnchanged(s, l, fd, data, i.value);
      }
      WriteNoSpace(s, l, fd, data, i.value);
    }
  }

  lemma RefusedAs(s: VfsState, fd: nat, data: seq<byte>)
    requires s.v.Valid() && (Position(s.table, fd).None? || s.table[Position(s.table, fd).value].mode == Read)
    ensures WriteFd(s, fd, data) == (s, Err(if Position(s.table, fd).None? then NotFound else PermissionDenied))
  {
    hide Follow, WriteClusters, FullData, UpdateFileSize;
  }

  lemma WriteNoSpace(s: VfsState, l: Layout, fd: nat, data: seq<byte>, i: nat)
    requires GoodState(s, l) && s.v.Valid() && Position(s.table, fd) == Some(i) && s.table[i].mode != Read
    requires ParentDir(s.v, s.table[i].path).Some?
    requires LowestFree(s.v.fat).Err? || StaysReadable(s.v, s.table[i], data)
    ensures var r := WriteFd(s, fd, data).1; r.Ok? || (r == Err(IoError) && LowestFree(s.v.fat).Err?)
  {
    hide Good, FdsOk, FdsNumbered, Follow, WriteClusters, FullData, FirstFree, ChainAfterWrite, UpdateSize, WalkDirs,
         IsChain, Needed, ResolveParent;
    var file := s.table[i];
    FdOnFile(l, s.table, i);
    GoodChain(s.v, l, file.cluster);
    ChainInRange(s.v.fat, l.chains[file.cluster]);
    var cs, full := l.chains[file.cluster], FullData(s.v, file, data);
    if WriteClusters(s.v, cs, full).1.Err? {
      GrowFails(s.v, cs, full);
    } else {
      WithinLimit(s.v, cs, full);
      var l1 := WriteKeeps(s.v, l, file.cluster, full);
      SamePlace(s.v, l, WriteClusters(s.v, cs, full).0, l1, file.path);
    }
  }
}
