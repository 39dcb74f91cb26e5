// The operations of kernel/src/fs/vfs/mod.rs as functions of the volume and the descriptor table,
// failures and what they leave behind included. Vfs.dfy has the imperative form.
//
// Where an operation would follow a chain that leaves the FAT, the functions answer LeavesFat; the
// methods exclude that answer. Chains damaged inside the table are followed as the source follows them.
module VfsSpec {
  import opened Wrappers
  import opened Bytes
  import opened Chains
  import opened Volumes
  import opened DirEntries
  import opened Directory
  import opened Paths

  const U32: nat := 0x1_0000_0000

  /** A zeroed record with name, attributes, cluster and size filled in. */
  function NewEntry(nameUpper: seq<byte>, attributes: byte, cluster: nat, size: nat): DirEntry
    requires nameUpper != [] && size < U32
  {
    WithFileSize(WithFirstCluster(WithAttributes(WithName83(Zeros(32), nameUpper), attributes), cluster), size)
  }

  // -- create_file ----------------------------------------------------------------------------------

  /** The overwrite branch: the old chain is freed first, then a new one is made and the entry
      redirected to it. */
  function Overwrite(v: Volume, dir: nat, nameUpper: seq<byte>, e: DirEntry,
                     data: seq<byte>): (r: (Volume, Result<(), VfsError>))
    requires v.Valid()
  {
    if FirstCluster(e) >= 2 && !Readable(v.fat, FirstCluster(e)) then (v, Err(LeavesFat))
    else
      var v1 := if FirstCluster(e) >= 2 then Freed(v, FirstCluster(e)) else v;
      var (v2, w) := WriteNewFile(v1, data);
      WriteNewFileValid(v1, data);
      if w.Err? then (v2, Err(NoSpace))
      else if !Readable(v2.fat, dir) then (v2, Err(LeavesFat))
      else
        ReadableWalk(v2.fat, dir);
        var (v3, found) := UpdateEntry(v2, ChainOf(v2.fat, dir), nameUpper, w.value, |data| % U32);
        (v3, if found then Ok(()) else Err(NotFound))
  }

  /** `free_chain`. */
  function Freed(v: Volume, start: nat): (v': Volume)
    requires v.Valid() && Readable(v.fat, start)
    ensures v'.Valid()
  {
    ReadableWalk(v.fat, start);
    v.(fat := Free(v.fat, ChainOf(v.fat, start)))
  }

  lemma FreedIs(v: Volume, h: nat)
    requires v.Valid() && Readable(v.fat, h)
    ensures InRange(ChainOf(v.fat, h), |v.fat|) && Freed(v, h) == v.(fat := Free(v.fat, ChainOf(v.fat, h)))
  {
    ReadableWalk(v.fat, h);
  }

  lemma WriteNewFileValid(v: Volume, data: seq<byte>)
    requires v.Valid()
    ensures WriteNewFile(v, data).0.Valid()
  {
    if WriteNewFile(v, data).1.Ok? {
      CreateEffect(v, data);
    }
  }

  /** The fresh branch: a new chain, then an entry for it. */
  function CreateFresh(v: Volume, dir: nat, nameUpper: seq<byte>, data: seq<byte>): (r: (Volume, Result<nat, VfsError>))
    requires v.Valid() && nameUpper != []
  {
    var (v1, w) := WriteNewFile(v, data);
    WriteNewFileValid(v, data);
    if w.Err? then (v1, Err(NoSpace))
    else if !Readable(v1.fat, dir) then (v1, Err(LeavesFat))
    else
      ReadableWalk(v1.fat, dir);
      var (v2, a) := AddEntry(v1, ChainOf(v1.fat, dir), NewEntry(nameUpper, ATTR_ARCHIVE, w.value, |data| % U32));
      (v2, if a.Ok? then Ok(w.value) else Err(IoError))
  }

  function CreateFile(v: Volume, path: seq<byte>, data: seq<byte>): (r: (Volume, Result<(), VfsError>))
    requires v.Valid()
  {
    match ResolveParent(v, path)
    case Err(e) => (v, Err(e))
    case Ok((dir, name)) =>
      if name == [] then (v, Err(InvalidPath))
      else if !Readable(v.fat, dir) then (v, Err(LeavesFat))
      else
        ReadableWalk(v.fat, dir);
        match FindEntry(v, ChainOf(v.fat, dir), ToUpper(name))
        case Some(e) => if IsDirectory(e) then (v, Err(NotAFile)) else Overwrite(v, dir, ToUpper(name), e, data)
        case None =>
          var (v', c) := CreateFresh(v, dir, ToUpper(name), data);
          (v', if c.Ok? then Ok(()) else Err(c.error))
  }

  // -- mkdir ------------------------------------------------------------------------------------------

  /** The "." and ".." records of a new directory. */
  function DotEntry(dots: nat, cluster: nat): DirEntry
    requires dots <= 8
  {
    WithFirstCluster(WithAttributes(Splice(Zeros(32), 0, Field(seq(dots, _ => DOT), 8)), ATTR_DIRECTORY), cluster)
  }

  function NewDirBlock(csz: nat, self: nat, parent: nat): (r: seq<byte>)
    requires csz >= 64
    ensures |r| == csz
  {
    Splice(Splice(Zeros(csz), 0, DotEntry(1, self)), 32, DotEntry(2, parent))
  }

  function Mkdir(v: Volume, path: seq<byte>): (r: (Volume, Result<(), VfsError>))
    requires v.Valid()
  {
    match ResolveParent(v, path)
    case Err(e) => (v, Err(e))
    case Ok((dir, name)) =>
      if name == [] then (v, Err(InvalidPath))
      else if !Readable(v.fat, dir) then (v, Err(LeavesFat))
      else
        ReadableWalk(v.fat, dir);
        match FindEntry(v, ChainOf(v.fat, dir), ToUpper(name))
        case Some(_) => (v, Err(AlreadyExists))
        case None => MakeDir(v, dir, ToUpper(name))
  }

  function MakeDir(v: Volume, dir: nat, nameUpper: seq<byte>): (r: (Volume, Result<(), VfsError>))
    requires v.Valid() && nameUpper != []
  {
    match LowestFree(v.fat)
    case Err(_) => (v, Err(NoSpace))
    case Ok(c) =>
      var v1 := v.(fat := v.fat[c := EOC], data := v.data[c := NewDirBlock(v.csz, c, dir)]);
      if !Readable(v1.fat, dir) then (v1, Err(LeavesFat))
      else
        ReadableWalk(v1.fat, dir);
        var (v2, a) := AddEntry(v1, ChainOf(v1.fat, dir), NewEntry(nameUpper, ATTR_DIRECTORY, c, 0));
        (v2, if a.Ok? then Ok(()) else Err(IoError))
  }

  // -- delete -----------------------------------------------------------------------------------------

  function Delete(v: Volume, path: seq<byte>): (r: (Volume, Result<(), VfsError>))
    requires v.Valid()
  {
    match ResolveParent(v, path)
    case Err(e) => (v, Err(e))
    case Ok((dir, name)) =>
      if name == [] then (v, Err(InvalidPath))
      else if !Readable(v.fat, dir) then (v, Err(LeavesFat))
      else
        ReadableWalk(v.fat, dir);
        RemoveEntryValid(v, ChainOf(v.fat, dir), ToUpper(name));
        match RemoveEntry(v, ChainOf(v.fat, dir), ToUpper(name))
        case (v1, Err(_)) => (v1, Err(IoError))
        case (v1, Ok(e)) =>
          if FirstCluster(e) < 2 then (v1, Ok(()))
          else if !Readable(v1.fat, FirstCluster(e)) then (v1, Err(LeavesFat))
          else (Freed(v1, FirstCluster(e)), Ok(()))
  }

  lemma RemoveEntryValid(v: Volume, cs: seq<nat>, name: seq<byte>)
    requires v.Valid() && InRange(cs, |v.data|) && NoDup(cs)
    ensures RemoveEntry(v, cs, name).0.Valid()
  {
    var slots := Slots(v.data, cs);
    var k := FindFrom(slots, 0, name);
    if k.Some? {
      SetSlotEffect(v.data, cs, k.value, Tombstone(slots[k.value]));
    }
  }

  // -- read_file_content ----------------------------------------------------------------------------

  function ReadFileContent(v: Volume, path: seq<byte>): Result<seq<byte>, VfsError>
    requires v.Valid()
  {
    match ResolveParent(v, path)
    case Err(e) => Err(e)
    case Ok((dir, name)) =>
      if name == [] then Ok([])
      else if !Readable(v.fat, dir) then Err(LeavesFat)
      else
        ReadableWalk(v.fat, dir);
        match FindEntry(v, ChainOf(v.fat, dir), ToUpper(name))
        case None => Err(NotFound)
        case Some(e) =>
          if IsDirectory(e) then Err(NotAFile)
          else if FileSize(e) == 0 then Ok([])
          else if !Readable(v.fat, FirstCluster(e)) then Err(LeavesFat)
          else Ok(ReadBack(v, FirstCluster(e), FileSize(e)))
  }

  /** A read of `size` bytes from `start` into a zeroed buffer of `size` bytes. */
  function ReadBack(v: Volume, start: nat, size: nat): (r: seq<byte>)
    requires v.Valid() && Readable(v.fat, start)
    ensures |r| == size
  {
    ReadableWalk(v.fat, start);
    Window(Content(v.data, ChainOf(v.fat, start)), 0, size)
  }

  // -- Descriptors ------------------------------------------------------------------------------------

  datatype FileMode = Read | Write | Create | CreateNew

  datatype FileDescriptor = FileDescriptor(fd: nat, path: seq<byte>, mode: FileMode, pos: nat, size: nat, cluster: nat)

  /** The mounted manager: volume, open files, next descriptor number, working directory. */
  datatype VfsState = VfsState(v: Volume, table: seq<FileDescriptor>, nextFd: nat, cwd: seq<byte>)

  function Canonicalize(cwd: seq<byte>, path: seq<byte>): seq<byte> {
    if path != [] && path[0] == SLASH then path
    else (if cwd != [] && cwd[|cwd| - 1] == SLASH then cwd else cwd + [SLASH]) + path
  }

  function WithDescriptor(s: VfsState, path: seq<byte>, mode: FileMode, size: nat, cluster: nat): VfsState {
    s.(table := s.table + [FileDescriptor(s.nextFd, path, mode, 0, size, cluster)], nextFd := s.nextFd + 1)
  }

  function Open(s: VfsState, path: seq<byte>, mode: FileMode): (r: (VfsState, Result<nat, VfsError>))
    requires s.v.Valid()
  {
    var full := Canonicalize(s.cwd, path);
    match ResolveParent(s.v, full)
    case Err(e) => (s, Err(e))
    case Ok((dir, name)) =>
      if name == [] then
        if mode == Read then
          match ResolvePath(s.v, full)
          case Err(e) => (s, Err(e))
          case Ok(c) => (WithDescriptor(s, full, mode, 0, c), Ok(s.nextFd))
        else (s, Err(InvalidPath))
      else if !Readable(s.v.fat, dir) then (s, Err(LeavesFat))
      else
        ReadableWalk(s.v.fat, dir);
        match FindEntry(s.v, ChainOf(s.v.fat, dir), ToUpper(name))
        case Some(e) =>
          if mode == CreateNew then (s, Err(AlreadyExists))
          else if IsDirectory(e) then (s, Err(NotAFile))
          else (WithDescriptor(s, full, mode, FileSize(e), FirstCluster(e)), Ok(s.nextFd))
        case None =>
          if mode == Read || mode == Write then (s, Err(NotFound))
          else
            var (v', c) := CreateFresh(s.v, dir, ToUpper(name), []);
            var s' := s.(v := v');
            if c.Err? then (s', Err(c.error))
            else (WithDescriptor(s', full, mode, 0, c.value), Ok(s.nextFd))
  }

  /** Index of the first descriptor numbered `fd`. */
  function Position(table: seq<FileDescriptor>, fd: nat): (r: Option<nat>)
    ensures r.Some? ==> r.value < |table| && table[r.value].fd == fd
    ensures r.None? ==> forall i :: 0 <= i < |table| ==> table[i].fd != fd
  {
    if table == [] then None
    else if table[0].fd == fd then Some(0)
    else
      match Position(table[1..], fd)
      case Some(i) =>
        assert table[i + 1] == table[1..][i];
        Some(i + 1)
      case None =>
        assert forall i :: 1 <= i < |table| ==> table[i] == table[1..][i - 1];
        None
  }

  /** What `write` hands to `write_file_data`: at position 0 the data alone, elsewhere the whole
      file with the data laid over it. */
  function FullData(v: Volume, file: FileDescriptor, data: seq<byte>): seq<byte>
    requires v.Valid() && Readable(v.fat, file.cluster)
  {
    if file.pos == 0 then data
    else
      var newEnd := file.pos + |data|;
      var bufSize := if newEnd < file.size then file.size else newEnd;
      ReadableWalk(v.fat, file.cluster);
      Splice(Window(Content(v.data,
          ChainOf(v.fat, file.cluster))[..Least(file.size, |Content(v.data, ChainOf(v.fat, file.cluster))|)], 0,
              bufSize),
             file.pos, data)
  }

  function Least(a: nat, b: nat): nat { if a < b then a else b }

  /** The descriptor after a write: the size field is 32 bits wide. */
  function Advanced(file: FileDescriptor, n: nat): FileDescriptor {
    var pos := file.pos + n;
    file.(pos := pos, size := (if pos < file.size then file.size else pos) % U32)
  }

  function UpdateFileSize(v: Volume, path: seq<byte>, size: nat): (r: (Volume, Result<(), VfsError>))
    requires v.Valid() && size < U32
  {
    match ResolveParent(v, path)
    case Err(e) => (v, Err(e))
    case Ok((dir, name)) =>
      if name == [] then (v, Ok(()))
      else if !Readable(v.fat, dir) then (v, Err(LeavesFat))
      else
        ReadableWalk(v.fat, dir);
        (UpdateSize(v, ChainOf(v.fat, dir), ToUpper(name), size), Ok(()))
  }

  function WriteFd(s: VfsState, fd: nat, data: seq<byte>): (r: (VfsState, Result<nat, VfsError>))
    requires s.v.Valid()
  {
    match Position(s.table, fd)
    case None => (s, Err(NotFound))
    case Some(i) =>
      var file := s.table[i];
      if file.mode == Read then (s, Err(PermissionDenied))
      else if !Readable(s.v.fat, file.cluster) then (s, Err(LeavesFat))
      else
        ReadableWalk(s.v.fat, file.cluster);
        var existing := ChainOf(s.v.fat, file.cluster);
        var full := FullData(s.v, file, data);
        var (v1, w) := WriteClusters(s.v, existing, full);
        if w.Err? then (s.(v := v1), Err(IoError))
        else
          WriteClustersValid(s.v, existing, full);
          var file' := Advanced(file, |data|);
          var s1 := s.(v := v1, table := s.table[i := file']);
          if file'.size == 0 then (s1, Ok(|data|))
          else
            var (v2, u) := UpdateFileSize(v1, file'.path, file'.size);
            (s1.(v := v2), if u.Ok? then Ok(|data|) else Err(u.error))
  }

  /** `read` into a buffer of `n` bytes: what it gets. The descriptor does not move. */
  function ReadFd(s: VfsState, fd: nat, n: nat): Result<seq<byte>, VfsError>
    requires s.v.Valid()
  {
    match Position(s.table, fd)
    case None => Err(NotFound)
    case Some(i) =>
      var file := s.table[i];
      if file.size <= file.pos then Ok([])
      else if !Readable(s.v.fat, file.cluster) then Err(LeavesFat)
      else Ok(ReadBack(s.v, file.cluster, file.size)[file.pos..Least(file.pos + n, file.size)])
  }

  function Close(s: VfsState, fd: nat): VfsState {
    s.(table := Retain(s.table, fd))
  }

  /** The descriptors other than `fd`. */
  function Retain(table: seq<FileDescriptor>, fd: nat): (r: seq<FileDescriptor>)
    ensures forall f :: f in r <==> f in table && f.fd != fd
  {
    if table == [] then []
    else (if table[0].fd == fd then [] else [table[0]]) + Retain(table[1..], fd)
  }

  // -- list_dir and stat --------------------------------------------------------------------------------

  datatype VfsNode = VfsNode(path: seq<byte>, isDir: bool, size: nat, cluster: nat)

  /** One node for each entry listed, in order. */
  function Nodes(infos: seq<DirEntryInfo>): (r: seq<VfsNode>)
    ensures |r| == |infos|
    ensures forall i :: 0 <= i < |r| ==>
              r[i] == VfsNode(infos[i].name, infos[i].isDir, infos[i].size, infos[i].cluster)
  {
    seq(|infos|, i requires 0 <= i < |infos| =>
      VfsNode(infos[i].name, infos[i].isDir, infos[i].size, infos[i].cluster))
  }

  function ListDir(v: Volume, path: seq<byte>): Result<seq<VfsNode>, VfsError>
    requires v.Valid()
  {
    match ResolvePath(v, path)
    case Err(e) => Err(e)
    case Ok(cluster) =>
      if !Readable(v.fat, cluster) then Err(LeavesFat) else Ok(Nodes(DirListing(v, cluster)))
  }

  /** `stat` resolves the path as it stands first, and then again from the working directory. */
  function Stat(s: VfsState, path: seq<byte>): Result<VfsNode, VfsError>
    requires s.v.Valid()
  {
    match ResolvePath(s.v, path)
    case Err(e) => Err(e)
    case Ok(cluster) =>
      var full := Canonicalize(s.cwd, path);
      match ResolveParent(s.v, full)
      case Err(e) => Err(e)
      case Ok((dir, name)) =>
        if name == [] then Ok(VfsNode(full, true, 0, cluster))
        else if !Readable(s.v.fat, dir) then Err(LeavesFat)
        else
          ReadableWalk(s.v.fat, dir);
          match FindEntry(s.v, ChainOf(s.v.fat, dir), ToUpper(name))
          case None => Err(NotFound)
          case Some(e) => Ok(VfsNode(full, IsDirectory(e), FileSize(e), FirstCluster(e)))
  }
}
