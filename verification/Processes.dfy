// Process exit in kernel/src/process/mod.rs: the process table and the return of frames.
module Processes {
  import opened Bitmap
  import opened Frames
  import opened Paging
  import opened PhysMem
  import opened Teardown
  import opened UserPtr

  const MAX_PROCESSES: nat := 8

  datatype ProcessState = Unused | Ready | Running | Blocked | Sleeping | Exited

  datatype ProcessControlBlock = ProcessControlBlock(
    pid: nat, state: ProcessState, kernelRsp: nat, userRsp: nat, pml4Phys: nat, elfEntry: nat, exitCode: int,
    kernelStackPhys: nat, userStackPhys: nat, sleepUntil: nat)

  /** The slot of a process that exited with `code`. */
  function AfterExit(proc: ProcessControlBlock, code: int): ProcessControlBlock {
    proc.(state := Exited, exitCode := code, kernelRsp := 0, kernelStackPhys := 0, userStackPhys := 0)
  }

  /** The first running process, or the number of slots. */
  function FirstRunning(table: seq<ProcessControlBlock>): (i: nat)
    ensures i <= |table| && (i < |table| ==> table[i].state == Running)
    ensures forall j :: 0 <= j < i ==> table[j].state != Running
  {
    if table == [] || table[0].state == Running then 0 else 1 + FirstRunning(table[1..])
  }

  class Kernel {
    const processTable: array<ProcessControlBlock>
    const pmm: PhysicalFrameAllocator
    /** The PML4 found at a physical address. */
    var memory: map<nat, seq<Entry>>
    var currentPid: nat
    var exitCode: int
    var exitRequested: bool

    /** Every process has its tables in memory. */
    ghost predicate Valid()
      reads this, processTable, pmm, pmm.bitmap
    {
      && processTable.Length == MAX_PROCESSES
      && {processTable as object} !! {pmm, pmm.bitmap}
      && pmm.Valid()
      && forall i :: 0 <= i < processTable.Length && processTable[i].pml4Phys != 0 ==>
           processTable[i].pml4Phys in memory && Shaped(memory[processTable[i].pml4Phys], 4)
    }

    constructor (pmm: PhysicalFrameAllocator)
      requires pmm.Valid()
      ensures Valid() && this.pmm == pmm && fresh(processTable)
      ensures forall i :: 0 <= i < processTable.Length ==> processTable[i].state == Unused
    {
      var empty := ProcessControlBlock(0, Unused, 0, 0, 0, 0, 0, 0, 0, 0);
      processTable := new ProcessControlBlock[MAX_PROCESSES](_ => empty);
      this.pmm := pmm;
      memory := map[];
      currentPid := 0;
      exitCode := 0;
      exitRequested := false;
    }

    /** Gives a frame back and drops the allocator's answer. */
    method FreePage(phys: nat)
      requires pmm.Valid()
      modifies pmm, pmm.bitmap
      ensures pmm.Valid() && pmm.State() == FreeAt(old(pmm.State()), phys)
    {
      hide Bits, Count;
      var _ := pmm.FreeFrame(phys);
    }

    /** Frees the 4 KiB pages below one table. */
    method FreeUserPageTables(table: seq<Entry>, level: nat)
      requires 1 <= level <= 4 && Shaped(table, level) && pmm.Valid()
      modifies pmm, pmm.bitmap
      ensures pmm.Valid() && pmm.State() == FreeAll(old(pmm.State()), Leaves(table, level, Limit(level)))
      decreases level
    {
      hide Shaped, Leaves, Bits, Count, FreeAll, HintOk;
      ghost var start := pmm.State();
      FreeNone(start);
      LeavesNext(table, level, 0);
      for idx := 0 to Limit(level)
        invariant pmm.Valid() && pmm.State() == FreeAll(start, Leaves(table, level, idx))
      {
        ShapedTable(table, level, idx);
        LeavesNext(table, level, idx + 1);
        FreeAllConcat(start, Leaves(table, level, idx), EntryLeaves(table[idx], level));
        var entry := table[idx];
        FreeNone(pmm.State());
        if !entry.flags.present {
          continue;
        }
        if entry.flags.huge {
          continue;
        }
        var childPhys := entry.addr;
        if level > 1 {
          FreeUserPageTables(entry.table, level - 1);
        }
        if level == 1 {
          FreeOneMore(pmm.State(), childPhys);
          FreePage(childPhys);
        }
      }
    }

    static lemma FreeNone(p: Pool)
      ensures FreeAll(p, []) == p
    {
    }

    static lemma FreeOneMore(p: Pool, addr: nat)
      ensures FreeAll(p, [addr]) == FreeAt(p, addr)
    {
      assert [addr][..0] == [];
    }

    static lemma ShapedTable(table: seq<Entry>, level: nat, idx: nat)
      requires 1 <= level <= 4 && Shaped(table, level) && idx < 512
      ensures |table| == 512
      ensures var e := table[idx];
              && EntryShaped(e, level)
              && (e.flags.present && !e.flags.huge && level > 1 ==> Shaped(e.table, level - 1))
    {
    }

    method FreeProcessAddressSpace(pml4Phys: nat)
      requires pmm.Valid()
      requires pml4Phys != 0 ==> pml4Phys in memory && Shaped(memory[pml4Phys], 4)
      modifies pmm, pmm.bitmap
      ensures pmm.Valid()
      ensures pmm.State() == FreeSpace(old(pmm.State()), if pml4Phys == 0 then [] else memory[pml4Phys], pml4Phys)
    {
      hide Shaped, Leaves, Bits, Count, FreeAll;
      if pml4Phys == 0 {
        return;
      }
      ghost var start := pmm.State();
      FreeUserPageTables(memory[pml4Phys], 4);
      FreeOneMore(pmm.State(), pml4Phys);
      FreePage(pml4Phys);
      FreeAllConcat(start, Leaves(memory[pml4Phys], 4, 256), [pml4Phys]);
    }

    /** Up to the switch back to the kernel's tables and stack. */
    method ExitProcess(code: int)
      requires Valid()
      modifies this`currentPid, this`exitCode, this`exitRequested, processTable, pmm, pmm.bitmap
      ensures Valid() && currentPid == 0 && exitCode == code && exitRequested
      ensures var i := FirstRunning(old(processTable[..]));
              (forall j :: 0 <= j < i ==> old(processTable[..])[j].state != Running)
              && if i < |old(processTable[..])| then
                   var was, now := old(processTable[..])[i], processTable[i];
                   && was.state == Running
                   && now.state == Exited && now.exitCode == code
                   && now.kernelRsp == 0 && now.kernelStackPhys == 0 && now.userStackPhys == 0
                   && now.pid == was.pid && now.userRsp == was.userRsp && now.pml4Phys == was.pml4Phys
                   && now.elfEntry == was.elfEntry && now.sleepUntil == was.sleepUntil
                 else i == |old(processTable[..])|
      ensures var i := FirstRunning(old(processTable[..]));
              if i == |old(processTable[..])| then
                processTable[..] == old(processTable[..]) && pmm.State() == old(pmm.State())
              else
                var proc := old(processTable[..])[i];
                && processTable[..] == old(processTable[..])[i := AfterExit(proc, code)]
                && pmm.State()
                   == FreeProcess(old(pmm.State()), if proc.pml4Phys == 0 then [] else memory[proc.pml4Phys],
                                  proc.pml4Phys, proc.userStackPhys, proc.kernelStackPhys)
    {
      hide Shaped, Leaves, Bits, BitAt, Count, FreeAll, HintOk;
      ghost var start := pmm.State();
      var i := FindRunning();
      var pml4Phys, kernelStackPhys, userStackPhys := 0, 0, 0;
      if i < processTable.Length {
        var proc := processTable[i];
        pml4Phys, kernelStackPhys, userStackPhys := proc.pml4Phys, proc.kernelStackPhys, proc.userStackPhys;
        processTable[i] := AfterExit(proc, code);
      }
      FreeProcessAddressSpace(pml4Phys);
      ghost var space := pmm.State();
      if userStackPhys != 0 {
        FreePage(userStackPhys);
      }
      if kernelStackPhys != 0 {
        FreePage(kernelStackPhys);
      }
      StacksFreed(space, userStackPhys, kernelStackPhys);
      currentPid := 0;
      exitCode := code;
      exitRequested := true;
    }

    static lemma StacksFreed(p: Pool, userStack: nat, kernelStack: nat)
      ensures FreeAll(p, Stacks(userStack, kernelStack))
              == (var q := if userStack != 0 then FreeAt(p, userStack) else p;
                  if kernelStack != 0 then FreeAt(q, kernelStack) else q)
    {
      FreeNone(p);
      if userStack != 0 {
        FreeOneMore(p, userStack);
        if kernelStack != 0 {
          assert [userStack, kernelStack][..1] == [userStack];
        }
      } else if kernelStack != 0 {
        FreeOneMore(p, kernelStack);
      }
    }

    method FindRunning() returns (i: nat)
      requires Valid()
      ensures i == FirstRunning(processTable[..])
    {
      i := 0;
      while i < processTable.Length
        invariant i <= processTable.Length
        invariant forall j :: 0 <= j < i ==> processTable[j].state != Running
      {
        if processTable[i].state == Running {
          break;
        }
        i := i + 1;
      }
    }
  }
}
