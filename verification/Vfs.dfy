// kernel/src/fs/vfs/mod.rs: the VFS manager.
module Vfs {
  import opened Wrappers
  import opened Bytes
  import opened Chains
  import opened Volumes
  import opened Bpb
  import opened Device
  import opened SectorWrites
  import opened Fat
  import opened FileData
  import opened DirEntries
  import opened Directory
  import opened Paths
  import opened VfsSpec
  import Dir

  class VfsManager {
    const fs: Fat32Fs
    const rootCluster: nat
    var fileTable: seq<FileDescriptor>
    var nextFd: nat
    var cwd: seq<byte>

    ghost predicate Valid()
      reads fs.device
    {
      fs.Valid() && rootCluster == fs.bpb.rootCluster
    }

    ghost function State(): VfsState
      requires Valid()
      reads this, fs.device
    {
      VfsState(fs.Vol(), fileTable, nextFd, cwd)
    }

    /** The manager as `init_vfs` mounts it. */
    constructor (fs: Fat32Fs)
      requires fs.Valid()
      ensures Valid() && this.fs == fs && State() == VfsState(fs.Vol(), [], 3, [SLASH])
    {
      this.fs := fs;
      rootCluster := fs.bpb.rootCluster;
      fileTable := [];
      nextFd := 3;
      cwd := [SLASH];
    }

    // -- Paths ------------------------------------------------------------------------------------------

    method ResolvePath(path: seq<byte>) returns (r: Result<nat, VfsError>)
      requires Valid() && Paths.ResolvePath(fs.Vol(), path) != Err(LeavesFat)
      ensures r == Paths.ResolvePath(fs.Vol(), path)
    {
      hide Abs, Follow, Listing, Slots;
      ghost var v := fs.Vol();
      var trimmed := TrimSlashes(path);
      if trimmed == [] || trimmed == [DOT] {
        RootOnly(v, trimmed);
        return Ok(rootCluster);
      }
      var currentCluster := rootCluster;
      var remaining := trimmed;
      while true
        invariant ResolveFrom(v, v.root, trimmed) == ResolveFrom(v, currentCluster, remaining)
        decreases |remaining|
      {
        if remaining == [] {
          return Ok(currentCluster);
        }
        var component, rest := Head(remaining), Rest(remaining);
        if component == [] || component == [DOT] {
          remaining := rest;
          continue;
        }
        if component == [DOT, DOT] {
          if currentCluster == rootCluster {
            remaining := rest;
            continue;
          }
          var entries := Dir.ReadDirEntries(fs, currentCluster);
          if entries.Err? {
            return Err(IoError);
          }
          var found := FindDotDot(entries.value);
          if found.Some? {
            currentCluster := found.value;
          } else {
            currentCluster := rootCluster;
          }
          remaining := rest;
          continue;
        }
        var entries := Dir.ReadDirEntries(fs, currentCluster);
        if entries.Err? {
          return Err(IoError);
        }
        var found := FindByName(entries.value, component);
        if found.None? {
          return Err(NotFound);
        }
        currentCluster := found.value.cluster;
        remaining := rest;
      }
    }

    lemma RootOnly(v: Volume, trimmed: seq<byte>)
      requires v.Valid() && (trimmed == [] || trimmed == [DOT])
      ensures ResolveFrom(v, v.root, trimmed) == Ok(v.root)
    {
      if trimmed == [DOT] {
        assert SlashPos([DOT]) == 1 && Head([DOT]) == [DOT] && Rest([DOT]) == [];
        assert ResolveFrom(v, v.root, []) == Ok(v.root);
      }
    }

    /** The search for ".." among listed entries. */
    static method FindDotDot(entries: seq<DirEntryInfo>) returns (r: Option<nat>)
      ensures r == LookUpDotDot(entries)
    {
      assert entries[0..] == entries;
      for i := 0 to |entries|
        invariant LookUpDotDot(entries) == LookUpDotDot(entries[i..])
      {
        assert entries[i..][1..] == entries[i + 1..];
        if entries[i].name == [DOT, DOT] {
          return Some(entries[i].cluster);
        }
      }
      r := None;
    }

    /** The case-blind search for a component among listed entries. */
    static method FindByName(entries: seq<DirEntryInfo>, component: seq<byte>) returns (r: Option<DirEntryInfo>)
      ensures r == LookUp(entries, component)
    {
      var upperName := ToUpper(component);
      assert entries[0..] == entries;
      for i := 0 to |entries|
        invariant LookUp(entries, component) == LookUp(entries[i..], component)
      {
        assert entries[i..][1..] == entries[i + 1..];
        var entryUpper := ToUpper(entries[i].name);
        if entryUpper == upperName {
          return Some(entries[i]);
        }
      }
      r := None;
    }

    method ResolveParent(path: seq<byte>) returns (r: Result<(nat, seq<byte>), VfsError>)
      requires Valid() && Paths.ResolveParent(fs.Vol(), path) != Err(LeavesFat)
      ensures r == Paths.ResolveParent(fs.Vol(), path)
    {
      hide Abs, ResolveFrom;
      var p := TrimSlashes(path);
      if p == [] {
        RootOnly(fs.Vol(), []);
        TrimNothing(ParentPath(path));
        return Ok((rootCluster, []));
      }
      var start := NameStart(p);
      if start == 0 {
        RootOnly(fs.Vol(), []);
        TrimNothing(ParentPath(path));
        return Ok((rootCluster, p));
      }
      var parent, name := p[..start - 1], p[start..];
      var cluster := ResolvePath(parent);
      if cluster.Err? {
        return Err(cluster.error);
      }
      r := Ok((cluster.value, name));
    }

    // -- Entry updates ---------------------------------------------------------------------------------

    method UpdateDirEntry(dirCluster: nat, nameUpper: seq<byte>, newCluster: nat, newSize: nat)
      returns (r: Result<(), VfsError>)
      requires Valid() && Readable(fs.Vol().fat, dirCluster) && newSize < U32
      modifies fs.device
      ensures Valid() && Kept(fs.bpb, old(fs.device.sectors), fs.device.sectors)
      ensures InRange(ChainOf(old(fs.Vol()).fat, dirCluster), |old(fs.Vol()).data|)
      ensures var spec := UpdateEntry(old(fs.Vol()), ChainOf(old(fs.Vol()).fat, dirCluster), nameUpper, newCluster,
              newSize);
              fs.Vol() == spec.0 && r == if spec.1 then Ok(()) else Err(NotFound)
    {
      hide FindPast, Abs, Words, Follow, Slots, Kept, SetSlot, FullNameUpper, Walked, SlotsOf, Splice, WithFileSize,
           WithFirstCluster;
      ghost var d, v := fs.device.sectors, fs.Vol();
      KeptBelowData(fs.bpb, d, d);
      ReadableWalk(v.fat, dirCluster);
      ReadableWords(fs.bpb, d, dirCluster);
      var read := ReadChain(fs, dirCluster);
      if read.Err? {
        return Err(IoError);
      }
      var chain := read.value;
      var clusterSize := fs.bpb.ClusterSize();
      var entriesPerCluster := clusterSize / 32;
      ghost var slots, base := Slots(v.data, chain), 0;
      Dir.NoSlots(v.data, chain[..0]);
      for ci := 0 to |chain|
        invariant fs.device.sectors == d
        invariant base == |Slots(v.data, chain[..ci])|
        invariant FindPast(slots, 0, nameUpper) == FindPast(slots, base, nameUpper)
      {
        var clusterBuf := ReadCluster(fs, chain[ci], clusterSize);
        if clusterBuf.Err? {
          return Err(IoError);
        }
        assert clusterBuf.value == v.data[chain[ci]];
        for i := 0 to entriesPerCluster
          invariant fs.device.sectors == d
          invariant FindPast(slots, 0, nameUpper) == FindPast(slots, base + i, nameUpper)
        {
          SlotIndex(v.data, chain, ci, i);
          PastStep(slots, base + i, nameUpper);
          var e := SlotAt(clusterBuf.value, i);
          if IsEnd(e) || IsDeleted(e) || IsLongName(e) || IsVolumeLabel(e) {
            continue;
          }
          var entryName := ComputeFullNameUpper(e);
          if entryName == nameUpper {
            e := WithFileSize(WithFirstCluster(e, newCluster), newSize);
            var w := Dir.WriteSlot(fs, chain, ci, chain[ci], clusterBuf.value, i, e);
            if w.Err? {
              return Err(IoError);
            }
            return Ok(());
          }
        }
        Dir.NextBase(v, chain, ci);
        base := base + entriesPerCluster;
      }
      Dir.Whole(chain);
      r := Err(NotFound);
    }

    /** The scan and size update of `update_file_size`; a missing entry is no error. */
    method UpdateSizeIn(dirCluster: nat, nameUpper: seq<byte>, newSize: nat) returns (r: Result<(), VfsError>)
      requires Valid() && Readable(fs.Vol().fat, dirCluster) && newSize < U32
      modifies fs.device
      ensures Valid() && Kept(fs.bpb, old(fs.device.sectors), fs.device.sectors)
      ensures InRange(ChainOf(old(fs.Vol()).fat, dirCluster), |old(fs.Vol()).data|)
      ensures r == Ok(())
      ensures fs.Vol() == UpdateSize(old(fs.Vol()), ChainOf(old(fs.Vol()).fat, dirCluster), nameUpper, newSize)
    {
      hide FindFrom, Abs, Words, Follow, Slots, Kept, SetSlot, FullNameUpper, Walked, SlotsOf, Splice, WithFileSize;
      ghost var d, v := fs.device.sectors, fs.Vol();
      KeptBelowData(fs.bpb, d, d);
      ReadableWalk(v.fat, dirCluster);
      ReadableWords(fs.bpb, d, dirCluster);
      var read := ReadChain(fs, dirCluster);
      if read.Err? {
        return Err(IoError);
      }
      var chain := read.value;
      var clusterSize := fs.bpb.ClusterSize();
      var entriesPerCluster := clusterSize / 32;
      ghost var slots, base := Slots(v.data, chain), 0;
      Dir.NoSlots(v.data, chain[..0]);
      for ci := 0 to |chain|
        invariant fs.device.sectors == d
        invariant base == |Slots(v.data, chain[..ci])|
        invariant FindFrom(slots, 0, nameUpper) == FindFrom(slots, base, nameUpper)
      {
        var clusterBuf := ReadCluster(fs, chain[ci], clusterSize);
        if clusterBuf.Err? {
          return Err(IoError);
        }
        assert clusterBuf.value == v.data[chain[ci]];
        for i := 0 to entriesPerCluster
          invariant fs.device.sectors == d
          invariant FindFrom(slots, 0, nameUpper) == FindFrom(slots, base + i, nameUpper)
        {
          SlotIndex(v.data, chain, ci, i);
          FindStep(slots, base + i, nameUpper);
          var entry := SlotAt(clusterBuf.value, i);
          if IsEnd(entry) {
            return Ok(());
          }
          if IsDeleted(entry) || IsLongName(entry) || IsVolumeLabel(entry) {
            continue;
          }
          var entryName := ComputeFullNameUpper(entry);
          if entryName == nameUpper {
            entry := WithFileSize(entry, newSize);
            var w := Dir.WriteSlot(fs, chain, ci, chain[ci], clusterBuf.value, i, entry);
            if w.Err? {
              return Err(IoError);
            }
            return Ok(());
          }
        }
        Dir.NextBase(v, chain, ci);
        base := base + entriesPerCluster;
      }
      Dir.Whole(chain);
      r := Ok(());
    }

    method UpdateFileSize(path: seq<byte>, newSize: nat) returns (r: Result<(), VfsError>)
      requires Valid() && newSize < U32 && VfsSpec.UpdateFileSize(fs.Vol(), path, newSize).1 != Err(LeavesFat)
      modifies fs.device
      ensures Valid() && Kept(fs.bpb, old(fs.device.sectors), fs.device.sectors)
      ensures (fs.Vol(), r) == VfsSpec.UpdateFileSize(old(fs.Vol()), path, newSize)
    {
      hide Abs, Kept, Paths.ResolveParent, Follow, UpdateSize, IsChain;
      ghost var d := fs.device.sectors;
      KeptBelowData(fs.bpb, d, d);
      var parent := ResolveParent(path);
      if parent.Err? {
        return Err(parent.error);
      }
      var (parentCluster, fileName) := parent.value;
      if fileName == [] {
        return Ok(());
      }
      r := UpdateSizeIn(parentCluster, ToUpper(fileName), newSize);
    }

    // -- Operations -------------------------------------------------------------------------------------

    method Mkdir(path: seq<byte>) returns (r: Result<(), VfsError>)
      requires Valid() && VfsSpec.Mkdir(fs.Vol(), path).1 != Err(LeavesFat)
      modifies fs.device
      ensures Valid() && Kept(fs.bpb, old(fs.device.sectors), fs.device.sectors)
      ensures (fs.Vol(), r) == VfsSpec.Mkdir(old(fs.Vol()), path)
    {
      hide Abs, Kept, Paths.ResolveParent, Follow, IsChain, MakeDir, Directory.FindEntry;
      ghost var d := fs.device.sectors;
      KeptBelowData(fs.bpb, d, d);
      var parent := ResolveParent(path);
      if parent.Err? {
        return Err(parent.error);
      }
      var (parentCluster, dirName) := parent.value;
      if dirName == [] {
        return Err(InvalidPath);
      }
      var upperName := ToUpper(dirName);
      var existing := Dir.FindEntry(fs, parentCluster, upperName);
      if existing.Err? {
        return Err(IoError);
      }
      if existing.value.Some? {
        return Err(AlreadyExists);
      }
      r := MakeNewDir(parentCluster, upperName);
    }

    /** The part of `mkdir` that writes: cluster, dot records, FAT mark, entry. */
    method MakeNewDir(parentCluster: nat, upperName: seq<byte>) returns (r: Result<(), VfsError>)
      requires Valid() && upperName != [] && MakeDir(fs.Vol(), parentCluster, upperName).1 != Err(LeavesFat)
      modifies fs.device
      ensures Valid() && Kept(fs.bpb, old(fs.device.sectors), fs.device.sectors)
      ensures (fs.Vol(), r) == MakeDir(old(fs.Vol()), parentCluster, upperName)
    {
      hide Abs, Kept, Follow, IsChain, LowestFree, Directory.AddEntry, WithFatWord, WithName83, WithFirstCluster,
           WithFileSize;
      ghost var d, v := fs.device.sectors, fs.Vol();
      FatFits(fs.bpb, |d|);
      var alloc := AllocCluster(fs);
      if alloc.Err? {
        return Err(NoSpace);
      }
      var newCluster := alloc.value;
      var clusterBuf := NewDirBlock(fs.bpb.ClusterSize(), newCluster, parentCluster);
      Dir.Whole(clusterBuf);
      ghost var d1 := fs.device.sectors;
      var w := WriteCluster(fs, newCluster, clusterBuf);
      KeptTransitive(fs.bpb, d, d1, fs.device.sectors);
      if w.Err? {
        return Err(IoError);
      }
      Dir.UpdateTwice(v.data, newCluster, Zeros(v.csz), clusterBuf);
      ghost var d2 := fs.device.sectors;
      w := WriteFatEntry(fs, newCluster, EOC);
      KeptTransitive(fs.bpb, d, d2, fs.device.sectors);
      if w.Err? {
        return Err(IoError);
      }
      ghost var d3 := fs.device.sectors;
      var newEntry: DirEntry := Zeros(32);
      newEntry := SetName83(newEntry, upperName);
      newEntry := WithAttributes(newEntry, ATTR_DIRECTORY);
      newEntry := WithFirstCluster(newEntry, newCluster);
      newEntry := WithFileSize(newEntry, 0);
      var added := Dir.AddEntry(fs, parentCluster, newEntry);
      KeptTransitive(fs.bpb, d, d3, fs.device.sectors);
      if added.Err? {
        return Err(IoError);
      }
      r := Ok(());
    }

    /** Allocates and writes a new file and adds its entry: the fresh branch shared by `open` and
        `create_file`. */
    method MakeNewFile(parentCluster: nat, upperName: seq<byte>, data: seq<byte>) returns (r: Result<nat, VfsError>)
      requires Valid() && upperName != [] && CreateFresh(fs.Vol(), parentCluster, upperName, data).1 != Err(LeavesFat)
      modifies fs.device
      ensures Valid() && Kept(fs.bpb, old(fs.device.sectors), fs.device.sectors)
      ensures (fs.Vol(), r) == CreateFresh(old(fs.Vol()), parentCluster, upperName, data)
    {
      hide Abs, Kept, Follow, IsChain, Directory.AddEntry, WriteNewFile, WithName83, WithFirstCluster, WithFileSize;
      ghost var d, v := fs.device.sectors, fs.Vol();
      var firstCluster := AllocateAndWrite(fs, data);
      if firstCluster.Err? {
        return Err(NoSpace);
      }
      ghost var d1 := fs.device.sectors;
      var newEntry: DirEntry := Zeros(32);
      newEntry := SetName83(newEntry, upperName);
      newEntry := WithAttributes(newEntry, ATTR_ARCHIVE);
      newEntry := WithFirstCluster(newEntry, firstCluster.value);
      newEntry := WithFileSize(newEntry, |data| % U32);
      var added := Dir.AddEntry(fs, parentCluster, newEntry);
      KeptTransitive(fs.bpb, d, d1, fs.device.sectors);
      if added.Err? {
        return Err(IoError);
      }
      r := Ok(firstCluster.value);
    }

    method CreateFile(path: seq<byte>, data: seq<byte>) returns (r: Result<(), VfsError>)
      requires Valid() && VfsSpec.CreateFile(fs.Vol(), path, data).1 != Err(LeavesFat)
      modifies fs.device
      ensures Valid() && Kept(fs.bpb, old(fs.device.sectors), fs.device.sectors)
      ensures (fs.Vol(), r) == VfsSpec.CreateFile(old(fs.Vol()), path, data)
    {
      hide Abs, Kept, Paths.ResolveParent, Follow, IsChain, FindFrom, Slots, Overwrite, CreateFresh;
      ghost var d := fs.device.sectors;
      KeptBelowData(fs.bpb, d, d);
      var parent := ResolveParent(path);
      if parent.Err? {
        return Err(parent.error);
      }
      var (parentCluster, fileName) := parent.value;
      if fileName == [] {
        return Err(InvalidPath);
      }
      var upperName := ToUpper(fileName);
      var existing := Dir.FindEntry(fs, parentCluster, upperName);
      if existing.Err? {
        return Err(IoError);
      }
      if existing.value.Some? {
        var entry := existing.value.value;
        if IsDirectory(entry) {
          return Err(NotAFile);
        }
        r := OverwriteFile(parentCluster, upperName, entry, data);
      } else {
        var made := MakeNewFile(parentCluster, upperName, data);
        r := if made.Ok? then Ok(()) else Err(made.error);
      }
    }

    /** The overwrite branch of `create_file`. */
    method OverwriteFile(parentCluster: nat, upperName: seq<byte>, entry: DirEntry, data: seq<byte>)
      returns (r: Result<(), VfsError>)
      requires Valid() && Overwrite(fs.Vol(), parentCluster, upperName, entry, data).1 != Err(LeavesFat)
      modifies fs.device
      ensures Valid() && Kept(fs.bpb, old(fs.device.sectors), fs.device.sectors)
      ensures (fs.Vol(), r) == Overwrite(old(fs.Vol()), parentCluster, upperName, entry, data)
    {
      hide Abs, Kept, Follow, IsChain, FirstFree, WriteNewFile, UpdateEntry, FirstCluster, Freed, WithFatWord;
      ghost var d, v := fs.device.sectors, fs.Vol();
      KeptBelowData(fs.bpb, d, d);
      FatFits(fs.bpb, |d|);
      var old' := FirstCluster(entry);
      if old' >= 2 {
        FreedIs(v, old');
        var f := FreeChain(fs, old');
        if f.Err? {
          return Err(IoError);
        }
      }
      ghost var d1, v1 := fs.device.sectors, fs.Vol();
      assert v1 == if old' >= 2 then Freed(v, old') else v;
      var newCluster: nat;
      if data == [] {
        WriteNothing(v1);
        var c := AllocCluster(fs);
        KeptTransitive(fs.bpb, d, d1, fs.device.sectors);
        if c.Err? {
          return Err(NoSpace);
        }
        ghost var d2 := fs.device.sectors;
        var w := WriteFatEntry(fs, c.value, EOC);
        KeptTransitive(fs.bpb, d, d2, fs.device.sectors);
        if w.Err? {
          return Err(IoError);
        }
        newCluster := c.value;
      } else {
        var c := AllocateAndWrite(fs, data);
        KeptTransitive(fs.bpb, d, d1, fs.device.sectors);
        if c.Err? {
          return Err(NoSpace);
        }
        newCluster := c.value;
      }
      ghost var d3 := fs.device.sectors;
      assert fs.Vol() == WriteNewFile(v1, data).0 && newCluster == WriteNewFile(v1, data).1.value;
      r := UpdateDirEntry(parentCluster, upperName, newCluster, |data| % U32);
      KeptTransitive(fs.bpb, d, d3, fs.device.sectors);
    }

    lemma WriteNothing(v: Volume)
      requires v.Valid()
      ensures WriteNewFile(v, []).1.Ok? == LowestFree(v.fat).Ok?
      ensures LowestFree(v.fat).Ok? ==>
                && WriteNewFile(v, []).1.value == LowestFree(v.fat).value
                && WriteNewFile(v, []).0 == WithNewCluster(v, LowestFree(v.fat).value)
      ensures LowestFree(v.fat).Err? ==> WriteNewFile(v, []).0 == v
    {
    }

    method Delete(path: seq<byte>) returns (r: Result<(), VfsError>)
      requires Valid() && VfsSpec.Delete(fs.Vol(), path).1 != Err(LeavesFat)
      modifies fs.device
      ensures Valid() && Kept(fs.bpb, old(fs.device.sectors), fs.device.sectors)
      ensures (fs.Vol(), r) == VfsSpec.Delete(old(fs.Vol()), path)
    {
      hide Abs, Kept, Paths.ResolveParent, Follow, IsChain, FindFrom, Slots, FirstCluster, Freed, SetSlot;
      ghost var d, v := fs.device.sectors, fs.Vol();
      KeptBelowData(fs.bpb, d, d);
      var parent := ResolveParent(path);
      if parent.Err? {
        return Err(parent.error);
      }
      var (parentCluster, fileName) := parent.value;
      if fileName == [] {
        return Err(InvalidPath);
      }
      var upperName := ToUpper(fileName);
      ReadableWalk(v.fat, parentCluster);
      RemoveKeepsFat(v, ChainOf(v.fat, parentCluster), upperName);
      var removed := Dir.RemoveEntry(fs, parentCluster, upperName);
      if removed.Err? {
        return Err(IoError);
      }
      ghost var d1, v1 := fs.device.sectors, fs.Vol();
      var first := FirstCluster(removed.value);
      if first >= 2 {
        FreedIs(v1, first);
        var f := FreeChain(fs, first);
        KeptTransitive(fs.bpb, d, d1, fs.device.sectors);
        if f.Err? {
          return Err(IoError);
        }
      }
      r := Ok(());
    }

    lemma RemoveKeepsFat(v: Volume, cs: seq<nat>, name: seq<byte>)
      requires v.Valid() && InRange(cs, |v.data|)
      ensures Directory.RemoveEntry(v, cs, name).0.fat == v.fat
      ensures var k := FindFrom(Slots(v.data, cs), 0, name);
              && Directory.RemoveEntry(v, cs, name).1.Ok? == k.Some?
              && (k.Some? ==> Directory.RemoveEntry(v, cs, name).1.value == Slots(v.data, cs)[k.value])
    {
    }

    method ReadFileContent(path: seq<byte>) returns (r: Result<seq<byte>, VfsError>)
      requires Valid() && VfsSpec.ReadFileContent(fs.Vol(), path) != Err(LeavesFat)
      ensures r == VfsSpec.ReadFileContent(fs.Vol(), path)
    {
      hide Abs, Paths.ResolveParent, Follow, IsChain, FindFrom, Slots, FirstCluster, FileSize, Content;
      ghost var v := fs.Vol();
      var parent := ResolveParent(path);
      if parent.Err? {
        return Err(parent.error);
      }
      var (parentCluster, fileName) := parent.value;
      if fileName == [] {
        return Ok([]);
      }
      var upperName := ToUpper(fileName);
      var found := Dir.FindEntry(fs, parentCluster, upperName);
      if found.Err? {
        return Err(IoError);
      }
      if found.value.None? {
        return Err(NotFound);
      }
      var entry := found.value.value;
      if IsDirectory(entry) {
        return Err(NotAFile);
      }
      if FileSize(entry) == 0 {
        return Ok([]);
      }
      var buf := Zeros(FileSize(entry));
      var read, out := ReadFile(fs, FirstCluster(entry), FileSize(entry), buf);
      if read.Err? {
        return Err(IoError);
      }
      ReadableWalk(v.fat, FirstCluster(entry));
      FilledIsWindow(Content(v.data, ChainOf(v.fat, FirstCluster(entry))), FileSize(entry));
      r := Ok(out);
    }

    lemma FilledIsWindow(content: seq<byte>, size: nat)
      ensures Filled(Zeros(size), content, size) == Window(content, 0, size)
    {
    }

    // -- list_dir and stat --------------------------------------------------------------------------------

    method ListDir(path: seq<byte>) returns (r: Result<seq<VfsNode>, VfsError>)
      requires Valid() && VfsSpec.ListDir(fs.Vol(), path) != Err(LeavesFat)
      ensures r == VfsSpec.ListDir(fs.Vol(), path)
    {
      hide Abs, Follow, Listing, Slots, Paths.ResolvePath;
      var cluster := ResolvePath(path);
      if cluster.Err? {
        return Err(cluster.error);
      }
      var entries := Dir.ReadDirEntries(fs, cluster.value);
      if entries.Err? {
        return Err(IoError);
      }
      var nodes: seq<VfsNode> := [];
      for i := 0 to |entries.value|
        invariant nodes == Nodes(entries.value)[..i]
      {
        var entry := entries.value[i];
        nodes := nodes + [VfsNode(entry.name, entry.isDir, entry.size, entry.cluster)];
      }
      assert nodes == Nodes(entries.value);
      r := Ok(nodes);
    }

    method Stat(path: seq<byte>) returns (r: Result<VfsNode, VfsError>)
      requires Valid() && VfsSpec.Stat(State(), path) != Err(LeavesFat)
      ensures r == VfsSpec.Stat(State(), path)
    {
      hide Abs, Follow, IsChain, FindFrom, Slots, FirstCluster, FileSize, Paths.ResolvePath, Paths.ResolveParent;
      var cluster := ResolvePath(path);
      if cluster.Err? {
        return Err(cluster.error);
      }
      var pathClean := Canonicalize(cwd, path);
      var parent := ResolveParent(pathClean);
      if parent.Err? {
        return Err(parent.error);
      }
      var (parentCluster, fileName) := parent.value;
      if fileName == [] {
        return Ok(VfsNode(pathClean, true, 0, cluster.value));
      }
      var found := Dir.FindEntry(fs, parentCluster, ToUpper(fileName));
      if found.Err? {
        return Err(IoError);
      }
      if found.value.None? {
        return Err(NotFound);
      }
      var entry := found.value.value;
      r := Ok(VfsNode(pathClean, IsDirectory(entry), FileSize(entry), FirstCluster(entry)));
    }

    // -- Descriptors ------------------------------------------------------------------------------------

    method AddDescriptor(path: seq<byte>, mode: FileMode, size: nat, cluster: nat) returns (fd: nat)
      requires Valid()
      modifies this
      ensures Valid() && fd == old(nextFd)
      ensures State() == WithDescriptor(old(State()), path, mode, size, cluster)
    {
      fd := nextFd;
      nextFd := nextFd + 1;
      fileTable := fileTable + [FileDescriptor(fd, path, mode, 0, size, cluster)];
    }

    method Open(path: seq<byte>, mode: FileMode) returns (r: Result<nat, VfsError>)
      requires Valid() && VfsSpec.Open(State(), path, mode).1 != Err(LeavesFat)
      modifies this, fs.device
      ensures Valid() && Kept(fs.bpb, old(fs.device.sectors), fs.device.sectors)
      ensures (State(), r) == VfsSpec.Open(old(State()), path, mode)
    {
      hide Abs, Kept, Paths.ResolveParent, Paths.ResolvePath, Follow, IsChain, FindFrom, Slots, FirstCluster,
           FileSize, CreateFresh;
      ghost var d := fs.device.sectors;
      var pathClean := Canonicalize(cwd, path);
      KeptBelowData(fs.bpb, d, d);
      var parent := ResolveParent(pathClean);
      if parent.Err? {
        return Err(parent.error);
      }
      var (parentCluster, fileName) := parent.value;
      var fd: nat;
      if fileName == [] {
        if mode == Read {
          var cluster := ResolvePath(pathClean);
          if cluster.Err? {
            return Err(cluster.error);
          }
          fd := AddDescriptor(pathClean, mode, 0, cluster.value);
          return Ok(fd);
        }
        return Err(InvalidPath);
      }
      var upperName := ToUpper(fileName);
      var existing := Dir.FindEntry(fs, parentCluster, upperName);
      if existing.Err? {
        return Err(IoError);
      }
      if existing.value.Some? {
        var entry := existing.value.value;
        if mode == CreateNew {
          return Err(AlreadyExists);
        }
        if IsDirectory(entry) {
          return Err(NotAFile);
        }
        fd := AddDescriptor(pathClean, mode, FileSize(entry), FirstCluster(entry));
        return Ok(fd);
      }
      if mode == Read || mode == Write {
        return Err(NotFound);
      }
      var firstCluster := MakeNewFile(parentCluster, upperName, []);
      if firstCluster.Err? {
        return Err(firstCluster.error);
      }
      fd := AddDescriptor(pathClean, mode, 0, firstCluster.value);
      r := Ok(fd);
    }

    /** The bytes `write` hands to `write_file_data`. */
    method ComposeData(file: FileDescriptor, data: seq<byte>) returns (r: Result<seq<byte>, VfsError>)
      requires Valid() && Readable(fs.Vol().fat, file.cluster)
      ensures r == Ok(FullData(fs.Vol(), file, data))
    {
      hide Abs, Follow, Content, Filled;
      if file.pos == 0 {
        return Ok(data);
      }
      var newEnd := file.pos + |data|;
      var bufSize := if newEnd < file.size then file.size else newEnd;
      var fullData := Zeros(bufSize);
      ReadableWalk(fs.Vol().fat, file.cluster);
      ghost var content := Content(fs.Vol().data, ChainOf(fs.Vol().fat, file.cluster));
      FilledIsPrefix(content, file.size, bufSize);
      if file.size > 0 {
        var read, out := ReadFile(fs, file.cluster, file.size, fullData);
        if read.Err? {
          return Err(IoError);
        }
        fullData := out;
      }
      fullData := Splice(fullData, file.pos, data);
      r := Ok(fullData);
    }

    lemma FilledIsPrefix(content: seq<byte>, size: nat, n: nat)
      requires size <= n
      ensures Filled(Zeros(n), content, size) == Window(content[..Least(size, |content|)], 0, n)
      ensures size == 0 ==> Zeros(n) == Window(content[..Least(size, |content|)], 0, n)
    {
    }

    method WriteTo(fd: nat, data: seq<byte>) returns (r: Result<nat, VfsError>)
      requires Valid() && WriteFd(State(), fd, data).1 != Err(LeavesFat)
      modifies this, fs.device
      ensures Valid() && Kept(fs.bpb, old(fs.device.sectors), fs.device.sectors)
      ensures (State(), r) == WriteFd(old(State()), fd, data)
    {
      hide Abs, Kept, Follow, IsChain, FullData, WriteClusters, VfsSpec.UpdateFileSize, Advanced;
      ghost var d, v := fs.device.sectors, fs.Vol();
      KeptBelowData(fs.bpb, d, d);
      var idx := Position(fileTable, fd);
      if idx.None? {
        return Err(NotFound);
      }
      var fileIdx := idx.value;
      var file := fileTable[fileIdx];
      if file.mode == Read {
        return Err(PermissionDenied);
      }
      var full := ComposeData(file, data);
      if full.Err? {
        return Err(IoError);
      }
      var w := WriteFileData(fs, file.cluster, full.value);
      if w.Err? {
        return Err(IoError);
      }
      ghost var d1 := fs.device.sectors;
      AdvancedSize(file, |data|);
      file := Advanced(file, |data|);
      fileTable := fileTable[fileIdx := file];
      if file.size > 0 {
        var u := UpdateFileSize(file.path, file.size);
        KeptTransitive(fs.bpb, d, d1, fs.device.sectors);
        if u.Err? {
          return Err(u.error);
        }
      }
      r := Ok(|data|);
    }

    lemma AdvancedSize(file: FileDescriptor, n: nat)
      ensures Advanced(file, n).size < U32
    {
    }

    /** `n` is the length of the caller's buffer. */
    method ReadFrom(fd: nat, n: nat) returns (r: Result<seq<byte>, VfsError>)
      requires Valid() && ReadFd(State(), fd, n) != Err(LeavesFat)
      ensures r == ReadFd(State(), fd, n)
    {
      hide Abs, Follow, Content, Filled;
      var idx := Position(fileTable, fd);
      if idx.None? {
        return Err(NotFound);
      }
      var file := fileTable[idx.value];
      var bytesLeft := if file.size < file.pos then 0 else file.size - file.pos;
      if bytesLeft == 0 {
        return Ok([]);
      }
      var toRead := if n < bytesLeft then n else bytesLeft;
      var fileBuf := Zeros(file.size);
      var read, out := ReadFile(fs, file.cluster, file.size, fileBuf);
      if read.Err? {
        return Err(IoError);
      }
      ReadableWalk(fs.Vol().fat, file.cluster);
      FilledIsWindow(Content(fs.Vol().data, ChainOf(fs.Vol().fat, file.cluster)), file.size);
      var end := if file.pos + toRead < file.size then file.pos + toRead else file.size;
      if end <= file.pos {
        assert out[file.pos..file.pos] == [];
        return Ok([]);
      }
      r := Ok(out[file.pos..end]);
    }

    method CloseFd(fd: nat)
      requires Valid()
      modifies this
      ensures Valid() && State() == Close(old(State()), fd)
    {
      fileTable := Retain(fileTable, fd);
    }
  }
}
