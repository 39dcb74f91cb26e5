// The physical frame allocator of kernel/src/memory/physmem.rs.
module PhysMem {
  import opened Wrappers
  import opened Bitmap
  import opened Frames

  const FRAME_SIZE: nat := 4096
  /** 4 GiB of frames. */
  const MAX_TRACKED_FRAMES: nat := 1048576

  datatype PmmError = InvalidFree | DoubleFree

  datatype MemoryStatistics = MemoryStatistics(allocationFailures: nat, doubleFreeAttempts: nat,
                                               invalidFreeAttempts: nat,
                                               freeBlockCount: nat, largestFreeBlock: nat)

  class PhysicalFrameAllocator {
    /** One bit per frame, set when the frame is reserved. */
    const bitmap: array<bv8>
    const totalFrames: nat
    var allocatedFrames: nat
    var nextFree: nat
    var stats: MemoryStatistics
    var validationEnabled: bool

    /** The bitmap is large enough, and no bit beyond the last frame is set. */
    ghost predicate Shape()
      reads bitmap
    {
      && (totalFrames + 7) / 8 <= bitmap.Length
      && (forall f :: totalFrames <= f < (totalFrames + 7) / 8 * 8 ==> !BitAt(bitmap[..], f))
    }

    ghost function Used(): (r: seq<bool>)
      requires Shape()
      reads bitmap
      ensures |r| == totalFrames
    {
      Bits(bitmap[..], totalFrames)
    }

    /** The counter equals the number of set bits and the hint is free or the frame count. */
    ghost predicate Valid()
      reads this, bitmap
    {
      Shape() && allocatedFrames == Count(Used()) && HintOk(Used(), nextFree)
    }

    ghost function State(): Pool
      requires Shape()
      reads this, bitmap
    {
      Pool(Used(), nextFree)
    }

    constructor (totalMemoryBytes: nat)
      ensures Valid() && fresh(bitmap) && validationEnabled
      ensures totalFrames == (if totalMemoryBytes / FRAME_SIZE < MAX_TRACKED_FRAMES then totalMemoryBytes / FRAME_SIZE
                              else MAX_TRACKED_FRAMES)
      ensures forall f :: 0 <= f < totalFrames ==> !Used()[f]
      ensures HintLowest(Used(), nextFree) && allocatedFrames == 0 && nextFree == 0
      ensures stats == MemoryStatistics(0, 0, 0, One(totalFrames > 0), totalFrames)
    {
      var total := totalMemoryBytes / FRAME_SIZE;
      if total > MAX_TRACKED_FRAMES {
        total := MAX_TRACKED_FRAMES;
      }
      totalFrames := total;
      allocatedFrames := 0;
      nextFree := 0;
      stats := MemoryStatistics(0, 0, 0, One(total > 0), total);
      validationEnabled := true;
      bitmap := new bv8[MAX_TRACKED_FRAMES / 8](_ => 0);
      new;
      CountNone(Used());
    }

    // -- Bitmap access ----------------------------------------------------------------------------------

    method IsFrameReserved(frame: nat) returns (r: bool)
      requires Shape()
      ensures r == if frame < totalFrames then Used()[frame] else true
    {
      if frame >= totalFrames {
        return true;
      }
      var byteIdx, bitIdx := frame / 8, frame % 8;
      r := bitmap[byteIdx] & Mask(bitIdx) != 0;
      assert BitAt(bitmap[..], frame) == Bit(bitmap[byteIdx], bitIdx);
    }

    method MarkFrameReserved(frame: nat)
      requires Shape()
      modifies bitmap
      ensures Shape()
      ensures Used() == if frame < totalFrames then old(Used())[frame := true] else old(Used())
    {
      hide BitAt, Count, Mask;
      if frame < totalFrames {
        var byteIdx, bitIdx := frame / 8, frame % 8;
        ghost var before := bitmap[..];
        bitmap[byteIdx] := bitmap[byteIdx] | Mask(bitIdx);
        SetInBytes(before, frame, bitmap[..]);
        assert Used() == old(Used())[frame := true];
      }
    }

    /** Clears the bit and moves the hint down to the frame when it lies below. */
    method MarkFrameFree(frame: nat)
      requires Shape()
      modifies bitmap, this`nextFree
      ensures Shape()
      ensures Used() == if frame < totalFrames then old(Used())[frame := false] else old(Used())
      ensures nextFree == if frame < totalFrames && frame < old(nextFree) then frame else old(nextFree)
    {
      hide BitAt, Count, Mask;
      if frame < totalFrames {
        var byteIdx, bitIdx := frame / 8, frame % 8;
        ghost var before := bitmap[..];
        bitmap[byteIdx] := bitmap[byteIdx] & !Mask(bitIdx);
        ClearInBytes(before, frame, bitmap[..]);
        assert Used() == old(Used())[frame := false];
        if frame < nextFree {
          nextFree := frame;
        }
      }
    }

    /** Moves the hint to the first free frame at or after it. */
    method AdvanceNextFree()
      requires Shape() && nextFree <= totalFrames
      modifies this`nextFree
      ensures nextFree == NextFree(Used(), old(nextFree))
    {
      while true
        invariant nextFree <= totalFrames
        invariant NextFree(Used(), nextFree) == NextFree(Used(), old(nextFree))
        decreases totalFrames - nextFree
      {
        if nextFree >= totalFrames {
          break;
        }
        var reserved := IsFrameReserved(nextFree);
        if !reserved {
          break;
        }
        nextFree := nextFree + 1;
      }
    }

    method RecalculateNextFree()
      requires Shape()
      modifies this`nextFree
      ensures nextFree == NextFree(Used(), 0)
    {
      nextFree := 0;
      AdvanceNextFree();
    }

    // -- Reservation ------------------------------------------------------------------------------------

    /** Reserves the frames touched by the byte range `[start, end)`; those already reserved are not
        counted again. */
    method ReserveRange(start: nat, end: nat)
      requires Valid()
      modifies this`allocatedFrames, this`nextFree, bitmap
      ensures Valid() && HintLowest(Used(), nextFree)
      ensures var endFrame := (end + FRAME_SIZE - 1) / FRAME_SIZE;
              var capped := if endFrame < totalFrames then endFrame else totalFrames;
              && State() == SetAside(old(State()), start / FRAME_SIZE, capped)
    {
      hide Bits, BitAt, Count, Mask, NextFree;
      var startFrame := start / FRAME_SIZE;
      var endFrame := (end + FRAME_SIZE - 1) / FRAME_SIZE;
      var cappedEnd := if endFrame < totalFrames then endFrame else totalFrames;
      ghost var used := Used();
      if startFrame < cappedEnd {
        for frame := startFrame to cappedEnd
          invariant Shape() && Used() == WithRange(used, startFrame, frame, true)
          invariant allocatedFrames == Count(Used())
        {
          var reserved := IsFrameReserved(frame);
          if !reserved {
            CountUpdate(Used(), frame, true);
            MarkFrameReserved(frame);
            allocatedFrames := allocatedFrames + 1;
          }
          assert Used() == WithRange(used, startFrame, frame + 1, true);
        }
      }
      assert Used() == WithRange(used, startFrame, cappedEnd, true);
      RecalculateNextFree();
    }

    // -- Allocation ------------------------------------------------------------------------------------

    /** Hands out the hinted frame; the address is the frame number times the frame size. */
    method AllocateFrame() returns (r: Option<nat>)
      requires Valid()
      modifies this, bitmap
      ensures Valid() && validationEnabled == old(validationEnabled)
      ensures r.None? <==> old(nextFree) == totalFrames
      ensures State() == TakeOne(old(State()))
      ensures stats == old(stats).(allocationFailures :=
                  old(stats).allocationFailures + One(r.None? && validationEnabled))
      ensures r.Some? ==> r.value == old(nextFree) * FRAME_SIZE && !old(Used())[old(nextFree)]
      ensures r.Some? ==> old(nextFree) < nextFree && allocatedFrames == old(allocatedFrames) + 1
      ensures r.Some? ==> forall f :: old(nextFree) < f < nextFree ==> old(Used())[f]
      ensures old(HintLowest(Used(), nextFree)) ==> HintLowest(Used(), nextFree)
    {
      hide Bits, BitAt, Count, Mask, NextFree;
      if nextFree >= totalFrames {
        if validationEnabled {
          stats := stats.(allocationFailures := stats.allocationFailures + 1);
        }
        return None;
      }
      var frame := nextFree;
      TakenHinted(State());
      CountUpdate(Used(), frame, true);
      MarkFrameReserved(frame);
      allocatedFrames := allocatedFrames + 1;
      AdvanceNextFree();
      r := Some(frame * FRAME_SIZE);
    }

    /** First-fit search from the hint, jumping past each reserved frame it meets. */
    method FindRun(count: nat) returns (r: Option<nat>)
      requires Valid() && count > 0
      ensures r == NaiveScan(Used(), nextFree, count)
    {
      hide Bits, BitAt, Count, Mask;
      ghost var used := Used();
      var startFrame := nextFree;
      while startFrame + count <= totalFrames
        invariant NaiveScan(used, nextFree, count) == NaiveScan(used, startFrame, count)
        decreases totalFrames + 1 - startFrame
      {
        var offset := 0;
        var allFree := true;
        while offset < count
          invariant offset <= count && allFree
          invariant forall f :: startFrame <= f < startFrame + offset ==> !used[f]
        {
          var reserved := IsFrameReserved(startFrame + offset);
          if reserved {
            allFree := false;
            break;
          }
          offset := offset + 1;
        }
        if allFree {
          assert FreeRun(used, startFrame, count);
          return Some(startFrame);
        }
        ScanJump(used, startFrame, offset, count);
        startFrame := startFrame + offset + 1;
      }
      r := None;
    }

    /** Marks a run that was found free, counts it and moves the hint past it. */
    method ClaimRun(startFrame: nat, count: nat)
      requires Valid() && startFrame + count <= totalFrames && FreeRun(Used(), startFrame, count)
      modifies this`allocatedFrames, this`nextFree, bitmap
      ensures Valid() && State() == TakeRun(old(State()), startFrame, count)
    {
      hide Bits, BitAt, Count, Mask;
      ghost var used := Used();
      CountRange(used, startFrame, startFrame + count, true);
      for offset := 0 to count
        modifies bitmap
        invariant Shape() && Used() == WithRange(used, startFrame, startFrame + offset, true)
      {
        MarkFrameReserved(startFrame + offset);
        assert Used() == WithRange(used, startFrame, startFrame + offset + 1, true);
      }
      allocatedFrames := allocatedFrames + count;
      nextFree := startFrame + count;
      AdvanceNextFree();
    }

    /** The lowest run of `count` free frames at or above the hint, or nothing exactly when there is none. */
    method AllocateFrames(count: nat) returns (r: Option<nat>)
      requires Valid()
      modifies this, bitmap
      ensures Valid() && validationEnabled == old(validationEnabled)
      ensures r.None? ==> State() == old(State())
      ensures stats == old(stats).(allocationFailures :=
                  old(stats).allocationFailures + One(r.None? && count > 0 && validationEnabled))
      ensures var s := NaiveScan(old(Used()), old(nextFree), count);
              && r == (if s.None? then None else Some(s.value * FRAME_SIZE))
              && (s.Some? ==> s.value + count <= totalFrames && State() == TakeRun(old(State()), s.value, count))
              && (s.Some? ==> allocatedFrames == old(allocatedFrames) + count && s.value + count <= nextFree
                              && forall f :: s.value + count <= f < nextFree ==> old(Used())[f])
    {
      hide Bits, BitAt, Count, Mask, NextFree;
      if count == 0 {
        return None;
      }
      if count > totalFrames {
        if validationEnabled {
          stats := stats.(allocationFailures := stats.allocationFailures + 1);
        }
        return None;
      }
      ghost var used := Used();
      NaiveScanIsLowest(used, nextFree, count);
      var found := FindRun(count);
      if found.Some? {
        var startFrame := found.value;
        TakenRun(State(), startFrame, count);
        CountRange(used, startFrame, startFrame + count, true);
        ClaimRun(startFrame, count);
        return Some(startFrame * FRAME_SIZE);
      }
      if validationEnabled {
        stats := stats.(allocationFailures := stats.allocationFailures + 1);
      }
      r := None;
    }

    // -- Deallocation ----------------------------------------------------------------------------------

    method FreeFrame(addr: nat) returns (r: Result<(), PmmError>)
      requires Valid()
      modifies this, bitmap
      ensures Valid() && validationEnabled == old(validationEnabled)
      ensures var frame := addr / FRAME_SIZE;
              && (frame >= totalFrames ==> r == Err(InvalidFree))
              && (frame < totalFrames && !old(Used())[frame] ==> r == Err(DoubleFree))
              && (r.Err? ==> State() == old(State()))
              && stats == old(stats).(
                   invalidFreeAttempts :=
                     old(stats).invalidFreeAttempts + One(validationEnabled && r == Err(InvalidFree)),
                   doubleFreeAttempts :=
                     old(stats).doubleFreeAttempts + One(validationEnabled && r == Err(DoubleFree)))
              && (frame < totalFrames && old(Used())[frame] ==>
                    && r == Ok(()) && State() == GiveBack(old(State()), frame, 1)
                    && allocatedFrames == old(allocatedFrames) - 1)
      ensures old(HintLowest(Used(), nextFree)) ==> HintLowest(Used(), nextFree)
    {
      hide Bits, BitAt, Count, Mask;
      var frame := addr / FRAME_SIZE;
      if frame >= totalFrames {
        if validationEnabled {
          stats := stats.(invalidFreeAttempts := stats.invalidFreeAttempts + 1);
        }
        return Err(InvalidFree);
      }
      var reserved := IsFrameReserved(frame);
      if !reserved {
        if validationEnabled {
          stats := stats.(doubleFreeAttempts := stats.doubleFreeAttempts + 1);
        }
        return Err(DoubleFree);
      }
      CountBounds(Used());
      CountUpdate(Used(), frame, false);
      MarkFrameFree(frame);
      assert Used() == WithRange(old(Used()), frame, frame + 1, false);
      allocatedFrames := allocatedFrames - 1;
      r := Ok(());
    }

    /** All frames of `[lo, hi)` are reserved. */
    ghost predicate AllReserved(lo: nat, hi: nat)
      requires Shape() && hi <= totalFrames
      reads bitmap
    {
      forall f :: lo <= f < hi ==> Used()[f]
    }

    method CheckReserved(lo: nat, hi: nat) returns (ok: bool)
      requires Shape() && lo <= hi <= totalFrames
      ensures ok <==> AllReserved(lo, hi)
    {
      for frame := lo to hi
        invariant forall f :: lo <= f < frame ==> Used()[f]
      {
        var reserved := IsFrameReserved(frame);
        if !reserved {
          return false;
        }
      }
      ok := true;
    }

    /** Marks a range free, whatever it holds. */
    method ClearRange(lo: nat, hi: nat)
      requires Shape() && lo <= hi <= totalFrames
      modifies bitmap, this`nextFree
      ensures Shape() && State() == GiveBack(old(State()), lo, hi - lo)
    {
      hide Bits, BitAt, Count, Mask;
      ghost var used, next := Used(), nextFree;
      for frame := lo to hi
        modifies bitmap, this`nextFree
        invariant Shape() && Used() == WithRange(used, lo, frame, false)
        invariant nextFree == if lo < frame && lo < next then lo else next
      {
        MarkFrameFree(frame);
        assert Used() == WithRange(used, lo, frame + 1, false);
      }
    }

    /** Frees a range or none of it. Without validation nothing is looked at: the whole range becomes free,
        and the counter stays right exactly when every frame of it was reserved. The counter must not fall
        below zero, where the subtraction of the source overflows. */
    method FreeFrames(addr: nat, count: nat) returns (r: Result<(), PmmError>)
      requires Valid()
      requires !validationEnabled && addr / FRAME_SIZE + count <= totalFrames ==> count <= allocatedFrames
      modifies this, bitmap
      ensures Shape() && validationEnabled == old(validationEnabled)
      ensures var lo, hi := addr / FRAME_SIZE, addr / FRAME_SIZE + count;
              && (hi > totalFrames <==> r == Err(InvalidFree))
              && (hi <= totalFrames && validationEnabled && !old(AllReserved(lo, hi)) <==> r == Err(DoubleFree))
              && (r.Err? ==> State() == old(State()) && allocatedFrames == old(allocatedFrames))
              && (r.Ok? ==>
                    State() == GiveBack(old(State()), lo, count) && allocatedFrames == old(allocatedFrames) - count)
              && stats == old(stats).(
                   invalidFreeAttempts :=
                     old(stats).invalidFreeAttempts + One(validationEnabled && r == Err(InvalidFree)),
                   doubleFreeAttempts :=
                     old(stats).doubleFreeAttempts + One(validationEnabled && r == Err(DoubleFree)))
              && (Valid() <==> r.Err? || old(AllReserved(lo, hi)))
      ensures old(HintLowest(Used(), nextFree)) ==> HintLowest(Used(), nextFree)
    {
      hide Bits, BitAt, Count, Mask;
      var startFrame := addr / FRAME_SIZE;
      var endFrame := startFrame + count;
      ghost var used := Used();
      if endFrame > totalFrames {
        if validationEnabled {
          stats := stats.(invalidFreeAttempts := stats.invalidFreeAttempts + 1);
        }
        return Err(InvalidFree);
      }
      if validationEnabled {
        var ok := CheckReserved(startFrame, endFrame);
        if !ok {
          stats := stats.(doubleFreeAttempts := stats.doubleFreeAttempts + 1);
          return Err(DoubleFree);
        }
      }
      ClearRangeCount(used, startFrame, endFrame);
      ClearRange(startFrame, endFrame);
      allocatedFrames := allocatedFrames - count;
      r := Ok(());
    }

    // -- Statistics and validation ---------------------------------------------------------------------

    /** Counts the maximal free runs and finds the longest. */
    method UpdateFragmentationStats()
      requires Shape()
      modifies this`stats
      ensures stats.freeBlockCount == RunCount(Used(), totalFrames)
      ensures LongestRun(Used(), totalFrames, stats.largestFreeBlock)
      ensures stats == old(stats).(freeBlockCount := stats.freeBlockCount, largestFreeBlock := stats.largestFreeBlock)
    {
      hide Bits, BitAt, Count, Mask;
      ghost var used := Used();
      var freeBlocks, largestBlock, currentBlock := 0, 0, 0;
      assert FreeRun(used, 0, 0);
      for frame := 0 to totalFrames
        invariant stats == old(stats)
        invariant currentBlock <= frame && FreeRun(used, frame - currentBlock, currentBlock)
        invariant currentBlock < frame ==> used[frame - currentBlock - 1]
        invariant RunCount(used, frame) == freeBlocks + One(currentBlock > 0)
        invariant LongestRun(used, frame, if currentBlock > largestBlock then currentBlock else largestBlock)
        invariant exists s: nat :: s + largestBlock <= frame && FreeRun(used, s, largestBlock)
      {
        var reserved := IsFrameReserved(frame);
        LongestStep(used, frame, if currentBlock > largestBlock then currentBlock else largestBlock, currentBlock);
        if !reserved {
          currentBlock := currentBlock + 1;
        } else if currentBlock > 0 {
          freeBlocks := freeBlocks + 1;
          if currentBlock > largestBlock {
            largestBlock := currentBlock;
          }
          currentBlock := 0;
        }
      }
      if currentBlock > 0 {
        freeBlocks := freeBlocks + 1;
        if currentBlock > largestBlock {
          largestBlock := currentBlock;
        }
      }
      stats := stats.(freeBlockCount := freeBlocks, largestFreeBlock := largestBlock);
    }

    /** How the longest run grows with one more frame, `cur` being the length of the run ending there. */
    static lemma LongestStep(used: seq<bool>, n: nat, m: nat, cur: nat)
      requires n < |used| && LongestRun(used, n, m) && cur <= n && FreeRun(used, n - cur, cur)
      requires cur < n ==> used[n - cur - 1]
      ensures LongestRun(used, n + 1, if used[n] || cur + 1 <= m then m else cur + 1)
    {
      var m' := if used[n] || cur + 1 <= m then m else cur + 1;
      var s: nat :| s + m <= n && FreeRun(used, s, m);
      if m' == m {
        assert s + m <= n + 1 && FreeRun(used, s, m);
      } else {
        assert FreeRun(used, n - cur, m');
      }
      forall t: nat, k: nat | t + k <= n + 1 && FreeRun(used, t, k)
        ensures k <= m'
      {
        if t + k == n + 1 && k > 0 && cur < n {
          assert used[n - cur - 1];
        }
      }
    }

    /** Counts set bits byte by byte and compares with the counter. */
    method ValidateBitmap() returns (r: bool)
      requires Shape()
      ensures r <==> allocatedFrames == Count(Used())
    {
      hide BitAt, CountOnes, Count, Bits;
      var counted := 0;
      var bitmapBytes := (totalFrames + 7) / 8;
      ghost var bytes := bitmap[..];
      EmptyBits(bytes[..0]);
      for i := 0 to bitmapBytes
        invariant counted == Count(Bits(bytes[..i], 8 * i))
      {
        var byte := bitmap[i];
        counted := counted + CountOnes(byte);
        CountByte(bytes, i);
      }
      PaddingCountsNothing(bytes, totalFrames);
      r := counted == allocatedFrames;
    }

    static lemma EmptyBits(bytes: seq<bv8>)
      ensures Count(Bits(bytes, 0)) == 0
    {
    }

    static lemma CountByte(bytes: seq<bv8>, i: nat)
      requires i < |bytes|
      ensures Count(Bits(bytes[..i + 1], 8 * (i + 1))) == Count(Bits(bytes[..i], 8 * i)) + CountOnes(bytes[i])
    {
      hide BitAt, CountOnes, Count;
      CountOnesIsCount(bytes[i]);
      BitsSnoc(bytes[..i], bytes[i]);
      assert bytes[..i + 1] == bytes[..i] + [bytes[i]];
      CountConcat(Bits(bytes[..i], 8 * i), BitsOf(bytes[i]));
    }

    static lemma PaddingCountsNothing(bytes: seq<bv8>, total: nat)
      requires (total + 7) / 8 <= |bytes|
      requires forall f :: total <= f < (total + 7) / 8 * 8 ==> !BitAt(bytes, f)
      ensures Count(Bits(bytes[..(total + 7) / 8], 8 * ((total + 7) / 8))) == Count(Bits(bytes, total))
    {
      var n := (total + 7) / 8;
      var all := Bits(bytes[..n], 8 * n);
      assert all[..total] == Bits(bytes, total);
      assert all == all[..total] + all[total..];
      forall i | 0 <= i < |all[total..]|
        ensures !all[total..][i]
      {
        assert !BitAt(bytes, total + i);
      }
      CountNone(all[total..]);
      CountConcat(all[..total], all[total..]);
    }
  }
}
