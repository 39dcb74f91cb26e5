// Who holds which frame over whole runs of the allocator.
module Ownership {
  import opened Wrappers
  import opened Frames

  /** The allocator's flags and hint, the frames each client still holds of what it was given, the
      frames reserved by range, and the next client number. */
  datatype Ledger = Ledger(pool: Pool, held: map<nat, set<nat>>, reserved: set<nat>, nextId: nat)

  datatype Event =
    | AllocOne
    | AllocMany(count: nat)
    | FreeOne(id: nat, frame: nat)
    | FreeMany(id: nat, lo: nat, count: nat)
    | ReserveFrames(lo: nat, hi: nat)

  predicate Within(lo: nat, f: nat, hi: nat) { lo <= f < hi }

  ghost function Interval(lo: nat, hi: nat): (r: set<nat>)
    ensures forall f :: f in r <==> lo <= f < hi
  {
    set f: nat | f < hi && Within(lo, f, hi)
  }

  /** Owners free only what they hold, and no range is reserved over a live allocation. */
  ghost predicate Allowed(l: Ledger, e: Event) {
    match e
    case FreeOne(id, frame) => id in l.held && frame in l.held[id]
    case FreeMany(id, lo, count) => id in l.held && Interval(lo, lo + count) <= l.held[id]
    case ReserveFrames(lo, hi) =>
      hi <= |l.pool.used| && forall id :: id in l.held ==> l.held[id] !! Interval(lo, hi)
    case _ => true
  }

  /** Held frames are frames, and clients are numbered below the next number. */
  ghost predicate Sane(l: Ledger) {
    && l.pool.next <= |l.pool.used|
    && (forall id :: id in l.held ==> id < l.nextId)
    && (forall id, f :: id in l.held && f in l.held[id] ==> f < |l.pool.used|)
  }

  /** One call: the allocator's own effect on flags and hint, and what it gives or takes. */
  ghost function Step(l: Ledger, e: Event): Ledger
    requires Sane(l) && Allowed(l, e)
  {
    match e
    case AllocOne =>
      if l.pool.next == |l.pool.used| then l
      else Ledger(TakeOne(l.pool), l.held[l.nextId := {l.pool.next}], l.reserved, l.nextId + 1)
    case AllocMany(count) =>
      var s := NaiveScan(l.pool.used, l.pool.next, count);
      if s.None? || s.value + count > |l.pool.used| then l
      else Ledger(TakeRun(l.pool, s.value, count), l.held[l.nextId := Interval(s.value, s.value + count)],
          l.reserved, l.nextId + 1)
    case FreeOne(id, frame) =>
      Ledger(GiveBack(l.pool, frame, 1), l.held[id := l.held[id] - {frame}], l.reserved, l.nextId)
    case FreeMany(id, lo, count) =>
      if count == 0 then l
      else
        assert lo + count - 1 in Interval(lo, lo + count);
        Ledger(GiveBack(l.pool, lo, count), l.held[id := l.held[id] - Interval(lo, lo + count)], l.reserved, l.nextId)
    case ReserveFrames(lo, hi) =>
      Ledger(SetAside(l.pool, lo, hi), l.held, l.reserved + Interval(lo, hi), l.nextId)
  }

  datatype Holder = Nobody | Kernel | Client(id: nat)

  /** `who` says who holds each frame: a frame is used exactly when somebody does. */
  ghost predicate Accounts(l: Ledger, who: seq<Holder>) {
    && Sane(l)
    && |who| == |l.pool.used|
    && HintOk(l.pool.used, l.pool.next)
    && (forall f :: 0 <= f < |who| ==> l.pool.used[f] == (who[f] != Nobody))
    && (forall id, f :: id in l.held && f in l.held[id] ==> f < |who| && who[f] == Client(id))
    && (forall f :: f in l.reserved ==> f < |who| && who[f] == Kernel)
    && (forall f :: 0 <= f < |who| && who[f].Client? ==> who[f].id in l.held && f in l.held[who[f].id])
    && (forall f :: 0 <= f < |who| && who[f] == Kernel ==> f in l.reserved)
  }

  ghost predicate Safe(l: Ledger) {
    exists who: seq<Holder> :: Accounts(l, who)
  }

  /** Live allocations are pairwise disjoint, disjoint from the reserved frames, and marked used; and
      nothing else is. */
  ghost predicate Disjoint(l: Ledger) {
    && (forall i, j :: i in l.held && j in l.held && i != j ==> l.held[i] !! l.held[j])
    && (forall i :: i in l.held ==> l.held[i] !! l.reserved)
    && (forall f :: 0 <= f < |l.pool.used| ==>
          (l.pool.used[f] <==> f in l.reserved || exists i :: i in l.held && f in l.held[i]))
    && HintOk(l.pool.used, l.pool.next)
  }

  lemma SafeMeansDisjoint(l: Ledger)
    requires Safe(l)
    ensures Disjoint(l)
  {
    var who: seq<Holder> :| Accounts(l, who);
    forall i, j | i in l.held && j in l.held && i != j
      ensures l.held[i] !! l.held[j]
    {
      forall f | f in l.held[i]
        ensures f !in l.held[j]
      {
        assert who[f] == Client(i);
      }
    }
    forall f | 0 <= f < |l.pool.used|
      ensures l.pool.used[f] <==> f in l.reserved || exists i :: i in l.held && f in l.held[i]
    {
      if l.pool.used[f] && who[f].Client? {
        assert f in l.held[who[f].id];
      }
    }
  }

  /** `who` with the frames of `[lo, hi)` given to `h`. */
  ghost function Given(who: seq<Holder>, lo: nat, hi: nat, h: Holder): (r: seq<Holder>)
    requires hi <= |who|
    ensures |r| == |who|
    ensures forall f :: 0 <= f < |who| ==> r[f] == if lo <= f < hi then h else who[f]
  {
    seq(|who|, f requires 0 <= f < |who| => if lo <= f < hi then h else who[f])
  }

  lemma AllocOneSafe(l: Ledger, who: seq<Holder>) returns (who': seq<Holder>)
    requires Accounts(l, who)
    ensures Accounts(Step(l, AllocOne), who')
  {
    if l.pool.next == |l.pool.used| {
      who' := who;
    } else {
      who' := Given(who, l.pool.next, l.pool.next + 1, Client(l.nextId));
    }
  }

  lemma AllocManySafe(l: Ledger, who: seq<Holder>, count: nat) returns (who': seq<Holder>)
    requires Accounts(l, who)
    ensures Accounts(Step(l, AllocMany(count)), who')
  {
    who' := who;
    if count > 0 {
      NaiveScanIsLowest(l.pool.used, l.pool.next, count);
      var s := NaiveScan(l.pool.used, l.pool.next, count);
      if s.Some? {
        who' := Given(who, s.value, s.value + count, Client(l.nextId));
      }
    }
  }

  lemma FreeOneSafe(l: Ledger, who: seq<Holder>, id: nat, frame: nat) returns (who': seq<Holder>)
    requires Accounts(l, who) && Allowed(l, FreeOne(id, frame))
    ensures Accounts(Step(l, FreeOne(id, frame)), who')
  {
    who' := Given(who, frame, frame + 1, Nobody);
    var held' := l.held[id := l.held[id] - {frame}];
    assert who[frame] == Client(id);
    forall i, f | i in held' && f in held'[i]
      ensures f < |who| && f != frame && who[f] == Client(i)
    {
      assert f in l.held[i];
    }
  }

  lemma FreeManySafe(l: Ledger, who: seq<Holder>, id: nat, lo: nat, count: nat) returns (who': seq<Holder>)
    requires Accounts(l, who) && Allowed(l, FreeMany(id, lo, count))
    ensures Accounts(Step(l, FreeMany(id, lo, count)), who')
  {
    if count == 0 {
      who' := who;
    } else {
      assert lo + count - 1 in Interval(lo, lo + count);
      who' := Given(who, lo, lo + count, Nobody);
      forall f | lo <= f < lo + count
        ensures who[f] == Client(id)
      {
        assert f in Interval(lo, lo + count);
      }
    }
  }

  lemma ReserveSafe(l: Ledger, who: seq<Holder>, lo: nat, hi: nat) returns (who': seq<Holder>)
    requires Accounts(l, who) && Allowed(l, ReserveFrames(lo, hi))
    ensures Accounts(Step(l, ReserveFrames(lo, hi)), who')
  {
    who' := Given(who, lo, hi, Kernel);
    forall id, f | id in l.held && f in l.held[id]
      ensures !(lo <= f < hi)
    {
      assert f in Interval(lo, hi) <==> lo <= f < hi;
    }
  }

  lemma StepSafe(l: Ledger, e: Event)
    requires Safe(l) && Allowed(l, e)
    ensures Sane(l) && Safe(Step(l, e))
  {
    hide Step, Accounts;
    var who: seq<Holder> :| Accounts(l, who);
    AccountsSane(l, who);
    var who': seq<Holder>;
    match e {
      case AllocOne => who' := AllocOneSafe(l, who);
      case AllocMany(count) => who' := AllocManySafe(l, who, count);
      case FreeOne(id, frame) => who' := FreeOneSafe(l, who, id, frame);
      case FreeMany(id, lo, count) => who' := FreeManySafe(l, who, id, lo, count);
      case ReserveFrames(lo, hi) => who' := ReserveSafe(l, who, lo, hi);
    }
    assert Accounts(Step(l, e), who');
  }

  lemma AccountsSane(l: Ledger, who: seq<Holder>)
    requires Accounts(l, who)
    ensures Sane(l)
  {
  }

  ghost predicate RunAllowed(l: Ledger, events: seq<Event>)
    decreases |events|
  {
    events == [] || (Sane(l) && Allowed(l, events[0]) && RunAllowed(Step(l, events[0]), events[1..]))
  }

  ghost function Run(l: Ledger, events: seq<Event>): Ledger
    requires RunAllowed(l, events)
    decreases |events|
  {
    if events == [] then l else Run(Step(l, events[0]), events[1..])
  }

  lemma {:induction false} RunSafe(l: Ledger, events: seq<Event>)
    requires Safe(l) && RunAllowed(l, events)
    ensures Safe(Run(l, events))
    decreases |events|
  {
    hide Step, Allowed, Safe, Sane;
    if events != [] {
      StepSafe(l, events[0]);
      RunSafe(Step(l, events[0]), events[1..]);
    }
  }

  /** The allocator as `new` leaves it. */
  ghost function Initial(total: nat): Ledger {
    Ledger(Pool(seq(total, _ => false), 0), map[], {}, 0)
  }

  /** MAIN: in every state reachable from `new`, live allocations are pairwise disjoint and disjoint
      from the reserved frames, and the frames marked used are exactly these. */
  lemma RunsKeepOwnership(total: nat, events: seq<Event>)
    requires RunAllowed(Initial(total), events)
    ensures Disjoint(Run(Initial(total), events))
  {
    hide Step, Allowed, RunAllowed, Run, Disjoint;
    assert Accounts(Initial(total), seq(total, _ => Nobody));
    RunSafe(Initial(total), events);
    SafeMeansDisjoint(Run(Initial(total), events));
  }

  // -- First fit ---------------------------------------------------------------------------------------

  lemma StepKeepsLowest(l: Ledger, e: Event)
    requires Sane(l) && Allowed(l, e) && !e.AllocMany? && HintLowest(l.pool.used, l.pool.next)
    ensures var l' := Step(l, e); HintLowest(l'.pool.used, l'.pool.next)
  {
    if e.FreeMany? && e.count > 0 {
      assert e.lo + e.count - 1 in Interval(e.lo, e.lo + e.count);
    }
  }

  lemma {:induction false} RunKeepsLowest(l: Ledger, events: seq<Event>)
    requires Sane(l) && RunAllowed(l, events) && HintLowest(l.pool.used, l.pool.next)
    requires forall i :: 0 <= i < |events| ==> !events[i].AllocMany?
    ensures var l' := Run(l, events); HintLowest(l'.pool.used, l'.pool.next)
    decreases |events|
  {
    hide Step, Allowed, Sane, HintLowest;
    if events != [] {
      assert !events[0].AllocMany?;
      StepKeepsLowest(l, events[0]);
      var l' := Step(l, events[0]);
      if events[1..] == [] {
      } else {
        RunKeepsLowest(l', events[1..]);
      }
    }
  }

  /** MAIN: as long as no multi-frame allocation was made, every single allocation hands out the lowest
      free frame, and fails only when no frame is free. */
  lemma SingleAllocationsAreFirstFit(total: nat, events: seq<Event>)
    requires RunAllowed(Initial(total), events)
    requires forall i :: 0 <= i < |events| ==> !events[i].AllocMany?
    ensures var p := Run(Initial(total), events).pool;
            && (p.next < |p.used| ==> !p.used[p.next] && forall f :: 0 <= f < p.next ==> p.used[f])
            && (p.next >= |p.used| ==> forall f :: 0 <= f < |p.used| ==> p.used[f])
  {
    hide Step, Allowed, RunAllowed, Run;
    RunsKeepOwnership(total, events);
    RunKeepsLowest(Initial(total), events);
  }
}
