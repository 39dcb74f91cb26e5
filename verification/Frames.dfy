// Frames as a sequence of used flags: the specification of the allocator's searches and updates.
module Frames {
  import opened Wrappers
  import opened Bitmap

  /** `used` with the flags of `[lo, hi)` set to `c`. */
  function WithRange(used: seq<bool>, lo: nat, hi: nat, c: bool): (r: seq<bool>)
    requires hi <= |used|
    ensures |r| == |used|
    ensures forall f :: 0 <= f < |used| ==> r[f] == if lo <= f < hi then c else used[f]
  {
    seq(|used|, f requires 0 <= f < |used| => if lo <= f < hi then c else used[f])
  }

  /** The first free frame at or after `i`, or the number of frames. */
  function NextFree(used: seq<bool>, i: nat): (r: nat)
    requires i <= |used|
    ensures i <= r <= |used|
    ensures r < |used| ==> !used[r]
    ensures forall f :: i <= f < r ==> used[f]
    decreases |used| - i
  {
    if i < |used| && used[i] then NextFree(used, i + 1) else i
  }

  /** `[s, s + n)` are frames, all of them free. */
  ghost predicate FreeRun(used: seq<bool>, s: nat, n: nat) {
    s + n <= |used| && forall f :: s <= f < s + n ==> !used[f]
  }

  /** The naive first-fit scan: try every start from `s` on. */
  ghost function NaiveScan(used: seq<bool>, s: nat, n: nat): Option<nat>
    decreases |used| - s
  {
    if s + n > |used| || n == 0 then None
    else if FreeRun(used, s, n) then Some(s)
    else NaiveScan(used, s + 1, n)
  }

  /** The scan gives the lowest run at or above its start, and nothing exactly when there is none. */
  lemma {:induction false} NaiveScanIsLowest(used: seq<bool>, s: nat, n: nat)
    requires n > 0
    ensures var r := NaiveScan(used, s, n);
            && (r.Some? ==> s <= r.value && FreeRun(used, r.value, n) && forall t: nat :: s <= t < r.value ==>
               !FreeRun(used, t, n))
            && (r.None? ==> forall t: nat :: s <= t ==> !FreeRun(used, t, n))
    decreases |used| - s
  {
    if s + n <= |used| && !FreeRun(used, s, n) {
      NaiveScanIsLowest(used, s + 1, n);
    }
  }

  /** Meeting a reserved frame at `s + off`, the scan may jump past it. */
  lemma {:induction false} ScanJump(used: seq<bool>, s: nat, off: nat, n: nat)
    requires off < n && s + n <= |used| && used[s + off]
    ensures NaiveScan(used, s, n) == NaiveScan(used, s + off + 1, n)
    decreases off
  {
    assert !FreeRun(used, s, n);
    if off > 0 {
      if s + 1 + n <= |used| {
        ScanJump(used, s + 1, off - 1, n);
      }
    }
  }

  /** The hint is the frame count or a free frame: the invariant `allocate_frame` rests on, since it
      hands the hinted frame out without looking at its bit. */
  predicate HintOk(used: seq<bool>, next: nat) {
    next <= |used| && (next < |used| ==> !used[next])
  }

  /** No free frame lies below the hint. */
  ghost predicate HintLowest(used: seq<bool>, next: nat) {
    next <= |used| && forall f :: 0 <= f < next ==> used[f]
  }

  /** Free frames at or above `i`. */
  function FreeFrom(used: seq<bool>, i: nat): (n: nat)
    requires i <= |used|
    decreases |used| - i
  {
    if i == |used| then 0 else One(!used[i]) + FreeFrom(used, i + 1)
  }

  lemma {:induction false} FreeFromSkip(used: seq<bool>, i: nat, j: nat)
    requires i <= j <= |used| && forall f :: i <= f < j ==> used[f]
    ensures FreeFrom(used, i) == FreeFrom(used, j)
    decreases j - i
  {
    if i < j {
      FreeFromSkip(used, i + 1, j);
    }
  }

  lemma {:induction false} FreeFromAbove(used: seq<bool>, f: nat, i: nat)
    requires f < i <= |used|
    ensures FreeFrom(used[f := true], i) == FreeFrom(used, i)
    decreases |used| - i
  {
    if i < |used| {
      FreeFromAbove(used, f, i + 1);
    }
  }

  // -- What the allocator's calls do to the flags and the hint ------------------------------------------

  datatype Pool = Pool(used: seq<bool>, next: nat)

  /** `allocate_frame` when the hint is a frame: the hinted frame goes out. */
  function TakeOne(p: Pool): Pool
    requires p.next <= |p.used|
  {
    if p.next == |p.used| then p
    else
      var used' := p.used[p.next := true];
      Pool(used', NextFree(used', p.next))
  }

  /** Frames the pool can still give one by one. */
  function Available(p: Pool): nat
    requires p.next <= |p.used|
  {
    FreeFrom(p.used, p.next)
  }

  /** Each frame given leaves one fewer. */
  lemma TakenOne(p: Pool)
    requires HintOk(p.used, p.next) && p.next < |p.used|
    ensures TakeOne(p).next <= |TakeOne(p).used| && Available(p) == 1 + Available(TakeOne(p))
  {
    hide FreeFrom;
    var used' := p.used[p.next := true];
    FreeFromNext(p.used, p.next);
    FreeFromAbove(p.used, p.next, p.next + 1);
    FreeFromNext(used', p.next);
    FreeFromSkip(used', p.next, NextFree(used', p.next));
  }

  lemma FreeFromNext(used: seq<bool>, i: nat)
    requires i < |used|
    ensures FreeFrom(used, i) == One(!used[i]) + FreeFrom(used, i + 1)
  {
  }

  /** The hinted frame goes out and no other; the hint moves to the first free frame behind it. */
  lemma TakenHinted(p: Pool)
    requires p.next < |p.used|
    ensures var q := TakeOne(p);
            && q.used == p.used[p.next := true] && p.next < q.next && HintOk(q.used, q.next)
            && (forall f :: p.next < f < q.next ==> p.used[f])
  {
    var q := TakeOne(p);
    assert forall f :: p.next < f < q.next ==> q.used[f] == p.used[f];
  }

  /** `allocate_frames` when the search found the run at `s`. */
  function TakeRun(p: Pool, s: nat, n: nat): Pool
    requires s + n <= |p.used|
  {
    var used' := WithRange(p.used, s, s + n, true);
    Pool(used', NextFree(used', s + n))
  }

  /** The run goes out and no other frame; the hint moves to the first free frame behind the run, or to the
      frame count. */
  lemma TakenRun(p: Pool, s: nat, n: nat)
    requires s + n <= |p.used|
    ensures var q := TakeRun(p, s, n);
            && |q.used| == |p.used|
            && (forall f :: 0 <= f < |p.used| ==> q.used[f] == (p.used[f] || s <= f < s + n))
            && s + n <= q.next && HintOk(q.used, q.next)
            && (forall f :: s + n <= f < q.next ==> p.used[f])
  {
  }

  /** `free_frame` and `free_frames` on reserved frames. */
  function GiveBack(p: Pool, lo: nat, n: nat): Pool
    requires lo + n <= |p.used|
  {
    Pool(WithRange(p.used, lo, lo + n, false), if n > 0 && lo < p.next then lo else p.next)
  }

  /** `reserve_range` on the frames `[lo, hi)`. */
  function SetAside(p: Pool, lo: nat, hi: nat): Pool
    requires hi <= |p.used|
  {
    var used' := WithRange(p.used, lo, hi, true);
    Pool(used', NextFree(used', 0))
  }

  lemma {:induction false} CountRange(used: seq<bool>, lo: nat, hi: nat, c: bool)
    requires lo <= hi <= |used| && forall f :: lo <= f < hi ==> used[f] == !c
    ensures Count(WithRange(used, lo, hi, c)) == if c then Count(used) + (hi - lo) else Count(used) - (hi - lo)
    decreases hi - lo
  {
    hide WithRange, Count;
    if lo == hi {
      assert WithRange(used, lo, hi, c) == used;
    } else {
      CountRange(used, lo, hi - 1, c);
      var w := WithRange(used, lo, hi - 1, c);
      assert WithRange(used, lo, hi, c) == w[hi - 1 := c];
      CountUpdate(w, hi - 1, c);
    }
  }

  /** Clearing a range lowers the population count by its length exactly when every frame of it was
      reserved: what `free_frames` needs from its caller when validation is off. */
  lemma {:induction false} ClearRangeCount(used: seq<bool>, lo: nat, hi: nat)
    requires lo <= hi <= |used|
    ensures Count(WithRange(used, lo, hi, false)) >= Count(used) - (hi - lo)
    ensures Count(WithRange(used, lo, hi, false)) == Count(used) - (hi - lo) <==> forall f :: lo <= f < hi ==> used[f]
    decreases hi - lo
  {
    hide WithRange, Count;
    if lo == hi {
      assert WithRange(used, lo, hi, false) == used;
    } else {
      ClearRangeCount(used, lo, hi - 1);
      var w := WithRange(used, lo, hi - 1, false);
      assert WithRange(used, lo, hi, false) == w[hi - 1 := false];
      CountUpdate(w, hi - 1, false);
      assert w[hi - 1] == used[hi - 1];
    }
  }

  // -- Fragmentation ----------------------------------------------------------------------------------

  /** Frame `f` begins a maximal run of free frames. */
  predicate StartsRun(used: seq<bool>, f: nat)
    requires f < |used|
  {
    !used[f] && (f == 0 || used[f - 1])
  }

  /** Maximal free runs beginning below `n`. */
  function RunCount(used: seq<bool>, n: nat): nat
    requires n <= |used|
  {
    if n == 0 then 0 else RunCount(used, n - 1) + One(StartsRun(used, n - 1))
  }

  /** `m` is the length of the longest run of free frames ending at or before `n`. */
  ghost predicate LongestRun(used: seq<bool>, n: nat, m: nat)
    requires n <= |used|
  {
    && (exists s: nat :: s + m <= n && FreeRun(used, s, m))
    && (forall s: nat, k: nat :: s + k <= n && FreeRun(used, s, k) ==> k <= m)
  }
}
