// The scancode ring buffer of kernel/src/terminal/mod.rs: a keyboard interrupt pushes between any two
// steps of the main loop's pop.
module Scancodes {
  import opened Bytes

  const SIZE: nat := 256

  /** Where the main loop stands inside a pop. */
  datatype PopState =
    | Idle
    | Loaded(head: nat)
    | Checked(head: nat)
    | Masked(head: nat)
    | Locked(head: nat)
    | Read(head: nat, code: byte)
    | Unlocked(head: nat, code: byte)
    | Unmasked(head: nat, code: byte)

  /** The shared buffer with its indices and lock, the interrupt flag, the main loop's place, and two
      histories: the codes the buffer accepted and the codes pops returned. */
  datatype Machine = Machine(buffer: seq<byte>, head: nat, tail: nat, locked: bool, interruptsOn: bool, pop: PopState,
                             accepted: seq<byte>, popped: seq<byte>)

  datatype Event = Push(code: byte) | PopStep

  predicate InBounds(m: Machine) {
    |m.buffer| == SIZE && m.head < SIZE && m.tail < SIZE
    && (!m.pop.Idle? ==> m.pop.head < SIZE)
  }

  /** A push that finds the buffer full, or nothing to push to, returns early. */
  predicate Full(m: Machine) { (m.tail + 1) % SIZE == m.head }

  /** What can happen next: an interrupt only while interrupts are on, and a step that takes the lock
      only while it is free; otherwise the one who wants it waits. */
  predicate Possible(m: Machine, e: Event) {
    match e
    case Push(_) => m.interruptsOn && (Full(m) || !m.locked)
    case PopStep => m.pop.Masked? ==> !m.locked
  }

  /** One push, which runs to its end, or one step of a pop. */
  function Step(m: Machine, e: Event): Machine
    requires InBounds(m) && Possible(m, e)
  {
    match e
    case Push(code) =>
      if Full(m) then m
      else m.(buffer := m.buffer[m.tail := code], tail := (m.tail + 1) % SIZE, accepted := m.accepted + [code])
    case PopStep =>
      match m.pop
      case Idle => m.(pop := Loaded(m.head))
      case Loaded(h) => m.(pop := if h == m.tail then Idle else Checked(h))
      case Checked(h) => m.(pop := Masked(h), interruptsOn := false)
      case Masked(h) => m.(pop := Locked(h), locked := true)
      case Locked(h) => m.(pop := Read(h, m.buffer[h]))
      case Read(h, c) => m.(pop := Unlocked(h, c), locked := false)
      case Unlocked(h, c) => m.(pop := Unmasked(h, c), interruptsOn := true)
      case Unmasked(h, c) => m.(pop := Idle, head := (h + 1) % SIZE, popped := m.popped + [c])
  }

  /** How many codes are queued. */
  function Queued(m: Machine): nat
    requires InBounds(m)
  {
    (m.tail + SIZE - m.head) % SIZE
  }

  /** The queued codes, oldest first. */
  function Queue(m: Machine): seq<byte>
    requires InBounds(m)
  {
    seq(Queued(m), i requires 0 <= i => m.buffer[(m.head + i) % SIZE])
  }

  ghost predicate Sound(m: Machine) {
    && InBounds(m)
    && m.popped + Queue(m) == m.accepted
    && (m.locked <==> m.pop.Locked? || m.pop.Read?)
    && (m.interruptsOn <==> !(m.pop.Masked? || m.pop.Locked? || m.pop.Read? || m.pop.Unlocked?))
    && (!m.pop.Idle? ==> m.pop.head == m.head)
    && (!m.pop.Idle? && !m.pop.Loaded? ==> Queued(m) > 0)
    && (m.pop.Read? || m.pop.Unlocked? || m.pop.Unmasked? ==> m.pop.code == m.buffer[m.head])
  }

  /** An accepted push adds its code at the end of the queue and leaves the slot a pop is working on. */
  lemma PushQueues(m: Machine, code: byte)
    requires Sound(m) && Possible(m, Push(code)) && !Full(m)
    ensures var m' := Step(m, Push(code));
            && InBounds(m') && Queued(m') == Queued(m) + 1
            && Queue(m') == Queue(m) + [code]
            && (Queued(m) > 0 ==> m'.buffer[m.head] == m.buffer[m.head])
  {
    hide Sound;
    SoundBounds(m);
    var m' := Step(m, Push(code));
    PushCounts(m.head, m.tail);
    forall i | 0 <= i < Queued(m)
      ensures Queue(m')[i] == Queue(m)[i]
    {
      SlotBeforeTail(m.head, m.tail, i);
    }
  }

  lemma SoundBounds(m: Machine)
    requires Sound(m)
    ensures InBounds(m)
  {
  }

  lemma PushCounts(head: nat, tail: nat)
    requires head < SIZE && tail < SIZE && (tail + 1) % SIZE != head
    ensures var n := (tail + SIZE - head) % SIZE;
            && ((tail + 1) % SIZE + SIZE - head) % SIZE == n + 1
            && (head + n) % SIZE == tail
            && (n > 0 ==> head != tail)
  {
    Distance(head, tail);
    Distance(head, (tail + 1) % SIZE);
  }

  /** The number of steps from `head` forward to `tail`. */
  lemma Distance(head: nat, tail: nat)
    requires head < SIZE && tail < SIZE
    ensures (tail + SIZE - head) % SIZE == if head <= tail then tail - head else tail + SIZE - head
  {
  }

  lemma SlotBeforeTail(head: nat, tail: nat, i: nat)
    requires head < SIZE && tail < SIZE && i < (tail + SIZE - head) % SIZE
    ensures (head + i) % SIZE != tail
  {
    Distance(head, tail);
  }

  /** The last step of a pop removes the oldest code, and that is the code it returns. */
  lemma PopDequeues(m: Machine)
    requires Sound(m) && m.pop.Unmasked?
    ensures var m' := Step(m, PopStep);
            && InBounds(m') && Queued(m') == Queued(m) - 1
            && Queue(m) == [m.pop.code] + Queue(m')
  {
    hide Sound;
    SoundPop(m);
    var m' := Step(m, PopStep);
    PopCounts(m.head, m.tail);
    assert Queue(m)[0] == m.buffer[m.head % SIZE] == m.pop.code;
    forall i | 0 <= i < Queued(m) - 1
      ensures Queue(m')[i] == Queue(m)[i + 1]
    {
      NextSlot(m.head, i);
    }
  }

  lemma SoundPop(m: Machine)
    requires Sound(m) && m.pop.Unmasked?
    ensures InBounds(m) && Queued(m) > 0 && m.pop.head == m.head && m.pop.code == m.buffer[m.head]
  {
  }

  lemma PopCounts(head: nat, tail: nat)
    requires head < SIZE && tail < SIZE && (tail + SIZE - head) % SIZE > 0
    ensures (tail + SIZE - (head + 1) % SIZE) % SIZE == (tail + SIZE - head) % SIZE - 1
  {
    Distance(head, tail);
    Distance((head + 1) % SIZE, tail);
  }

  lemma NextSlot(head: nat, i: nat)
    requires head < SIZE
    ensures ((head + 1) % SIZE + i) % SIZE == (head + (i + 1)) % SIZE
  {
  }

  lemma StepSound(m: Machine, e: Event)
    requires Sound(m) && Possible(m, e)
    ensures Sound(Step(m, e))
  {
    if e.Push? {
      if !Full(m) {
        PushQueues(m, e.code);
        assert m.popped + (Queue(m) + [e.code]) == (m.popped + Queue(m)) + [e.code];
      }
    } else if m.pop.Unmasked? {
      PopDequeues(m);
      var m' := Step(m, e);
      assert (m.popped + [m.pop.code]) + Queue(m') == m.popped + ([m.pop.code] + Queue(m'));
    } else {
      var m' := Step(m, e);
      assert Queue(m') == Queue(m);
    }
  }

  /** In a sound state nothing ever waits: a push that interrupts a pop finds the lock free, and so does
      the pop itself. */
  lemma NobodyWaits(m: Machine, code: byte)
    requires Sound(m)
    ensures m.interruptsOn ==> Possible(m, Push(code))
    ensures Possible(m, PopStep)
  {
  }

  /** At power on. */
  function Start(): Machine {
    Machine(seq(SIZE, _ => 0), 0, 0, false, true, Idle, [], [])
  }

  ghost predicate Feasible(m: Machine, events: seq<Event>)
    decreases |events|
  {
    events == [] || (InBounds(m) && Possible(m, events[0]) && Feasible(Step(m, events[0]), events[1..]))
  }

  ghost function Run(m: Machine, events: seq<Event>): Machine
    requires Feasible(m, events)
    decreases |events|
  {
    if events == [] then m else Run(Step(m, events[0]), events[1..])
  }

  lemma {:induction false} RunSound(m: Machine, events: seq<Event>)
    requires Sound(m) && Feasible(m, events)
    ensures Sound(Run(m, events))
    decreases |events|
  {
    hide Sound, Step;
    if events != [] {
      StepSound(m, events[0]);
      RunSound(Step(m, events[0]), events[1..]);
    }
  }

  /** MAIN: after any interleaving of pushes with the steps of pops, the codes popped followed by the
      codes queued are the codes accepted, in order; at most 255 are queued; and the code a pop has read
      is the oldest one queued. */
  lemma InOrder(events: seq<Event>)
    requires Feasible(Start(), events)
    ensures var m := Run(Start(), events);
            && InBounds(m)
            && m.popped + Queue(m) == m.accepted
            && Queued(m) <= 255
            && (m.pop.Read? || m.pop.Unlocked? || m.pop.Unmasked? ==> Queue(m) != [] && Queue(m)[0] == m.pop.code)
            && (m.locked ==> !m.interruptsOn)
  {
    hide Step;
    assert Queue(Start()) == [];
    RunSound(Start(), events);
  }

  /** MAIN: in every reachable state a push is refused exactly when 255 codes are queued, never waits for
      the lock, and never changes the slot a pop has checked. */
  lemma PushIsSafe(events: seq<Event>, code: byte)
    requires Feasible(Start(), events) && Run(Start(), events).interruptsOn
    ensures var m := Run(Start(), events);
            && InBounds(m) && !m.locked && Possible(m, Push(code))
            && var m' := Step(m, Push(code));
               && InBounds(m')
               && (Queued(m) == 255 ==> m' == m)
               && (Queued(m) < 255 ==> Queue(m') == Queue(m) + [code] && m'.accepted == m.accepted + [code])
               && (!m.pop.Idle? && !m.pop.Loaded? ==> m'.buffer[m.pop.head] == m.buffer[m.pop.head])
  {
    assert Queue(Start()) == [];
    RunSound(Start(), events);
    var m := Run(Start(), events);
    NobodyWaits(m, code);
    if !Full(m) {
      PushQueues(m, code);
    }
  }

  // -- The code -------------------------------------------------------------------------------------------

  /** The statics of the module, with the place of the main loop and the two histories as ghost state. */
  class ScancodeBuffer {
    const buffer: array<byte>
    var head: nat
    var tail: nat
    var locked: bool
    var interruptsOn: bool
    ghost var pop: PopState
    ghost var accepted: seq<byte>
    ghost var popped: seq<byte>

    ghost function State(): Machine
      reads this, buffer
    {
      Machine(buffer[..], head, tail, locked, interruptsOn, pop, accepted, popped)
    }

    ghost predicate Valid()
      reads this, buffer
    {
      Sound(State())
    }

    constructor ()
      ensures Valid() && State() == Start() && fresh(buffer)
    {
      buffer := new byte[SIZE](_ => 0);
      head, tail, locked, interruptsOn := 0, 0, false, true;
      pop, accepted, popped := Idle, [], [];
      new;
      assert buffer[..] == seq(SIZE, _ => 0);
      assert Queue(State()) == [];
    }

    /** `push_scancode`, run by the interrupt handler: the lock it takes is free. */
    method PushScancode(code: byte)
      requires Valid() && interruptsOn
      modifies this`tail, this`accepted, buffer
      ensures Valid() && State() == Step(old(State()), Push(code))
    {
      StepSound(State(), Push(code));
      var next := (tail + 1) % SIZE;
      if next == head {
        return;
      }
      assert !locked;
      buffer[tail] := code;
      tail := next;
      accepted := accepted + [code];
    }

    /** `pop_scancode` up to the point where a code is known to be there. */
    method PopLoad() returns (h: nat)
      requires Valid() && pop.Idle?
      modifies this`pop
      ensures Valid() && State() == Step(old(State()), PopStep) && pop == Loaded(h)
    {
      StepSound(State(), PopStep);
      h := head;
      pop := Loaded(h);
    }

    method PopCheck(h: nat) returns (empty: bool)
      requires Valid() && pop == Loaded(h)
      modifies this`pop
      ensures Valid() && State() == Step(old(State()), PopStep) && pop == if empty then Idle else Checked(h)
    {
      StepSound(State(), PopStep);
      empty := h == tail;
      pop := if empty then Idle else Checked(h);
    }

    /** The closure run without interrupts: five steps that no push can separate. */
    method PopRead(h: nat) returns (code: byte)
      requires Valid() && pop == Checked(h)
      modifies this`pop, this`locked, this`interruptsOn
      ensures Valid() && pop == Unmasked(h, code)
      ensures Feasible(old(State()), [PopStep, PopStep, PopStep, PopStep, PopStep])
      ensures State() == Run(old(State()), [PopStep, PopStep, PopStep, PopStep, PopStep])
    {
      ghost var m0 := State();
      StepSound(m0, PopStep);
      interruptsOn := false;
      pop := Masked(h);
      ghost var m1 := State();
      StepSound(m1, PopStep);
      assert !locked;
      locked := true;
      pop := Locked(h);
      ghost var m2 := State();
      StepSound(m2, PopStep);
      code := buffer[h];
      pop := Read(h, code);
      ghost var m3 := State();
      StepSound(m3, PopStep);
      locked := false;
      pop := Unlocked(h, code);
      ghost var m4 := State();
      StepSound(m4, PopStep);
      interruptsOn := true;
      pop := Unmasked(h, code);
      FiveSteps(m0, m1, m2, m3, m4, State());
    }

    static lemma FiveSteps(m0: Machine, m1: Machine, m2: Machine, m3: Machine, m4: Machine, m5: Machine)
      requires InBounds(m0) && Possible(m0, PopStep) && m1 == Step(m0, PopStep)
      requires InBounds(m1) && Possible(m1, PopStep) && m2 == Step(m1, PopStep)
      requires InBounds(m2) && Possible(m2, PopStep) && m3 == Step(m2, PopStep)
      requires InBounds(m3) && Possible(m3, PopStep) && m4 == Step(m3, PopStep)
      requires InBounds(m4) && Possible(m4, PopStep) && m5 == Step(m4, PopStep)
      ensures Feasible(m0, [PopStep, PopStep, PopStep, PopStep, PopStep])
      ensures Run(m0, [PopStep, PopStep, PopStep, PopStep, PopStep]) == m5
    {
      hide Step, Possible, InBounds;
      var p := [PopStep, PopStep, PopStep, PopStep, PopStep];
      assert p[1..] == [PopStep, PopStep, PopStep, PopStep];
      assert p[1..][1..] == [PopStep, PopStep, PopStep];
      assert p[1..][1..][1..] == [PopStep, PopStep];
      assert p[1..][1..][1..][1..] == [PopStep];
      assert p[1..][1..][1..][1..][1..] == [];
      assert Feasible(m5, []) && Feasible(m4, [PopStep]) && Feasible(m3, [PopStep, PopStep]);
      assert Feasible(m2, [PopStep, PopStep, PopStep]);
    }

    /** The last step: the head moves and the code goes out. */
    method PopStore(h: nat, code: byte)
      requires Valid() && pop == Unmasked(h, code)
      modifies this`head, this`pop, this`popped
      ensures Valid() && State() == Step(old(State()), PopStep)
      ensures popped == old(popped) + [code]
    {
      StepSound(State(), PopStep);
      var next := (h + 1) % SIZE;
      head := next;
      pop := Idle;
      popped := popped + [code];
    }
  }
}
