/** The global event device: five open handles, each with a filter and a ring of 32 events. */
module EventQueue {

  type Event = bv32

  const SIZE: nat := 32
  const MAX_OPEN: nat := 5

  predicate Matches(e: Event, filter: Event) { e & filter != 0 }

  /** An event matches a filter if they have a bit in common. */
  lemma MatchesEither(e: Event, f: Event, g: Event)
    ensures Matches(e, f | g) <==> Matches(e, f) || Matches(e, g)
  {
    Distributes(e, f, g);
    NothingSet(e & f, e & g);
  }

  lemma Distributes(e: Event, f: Event, g: Event)
    ensures e & (f | g) == (e & f) | (e & g)
  {
  }

  lemma NothingSet(x: Event, y: Event)
    ensures x | y == 0 <==> x == 0 && y == 0
  {
  }

  lemma MatchesNone(e: Event)
    ensures !Matches(e, !e)
  {
  }

  lemma MatchesAll(e: Event)
    ensures Matches(e, 0xFFFF_FFFF) <==> e != 0
  {
  }

  // ---------------------------------------------------------------- one reader, as values

  /** A reader's filter and the events waiting for it. */
  datatype Reader = Reader(filter: Event, queue: seq<Event>)

  function Offer(r: Reader, e: Event): Reader {
    if |r.queue| < SIZE && Matches(e, r.filter) then r.(queue := r.queue + [e]) else r
  }

  function OfferAll(r: Reader, es: seq<Event>): Reader
    decreases |es|
  {
    if es == [] then r else Offer(OfferAll(r, es[..|es| - 1]), es[|es| - 1])
  }

  datatype Op = Write(es: seq<Event>) | SetFilter(filter: Event) | Read

  /** A reader and what it has read so far. */
  datatype Session = Session(r: Reader, out: seq<Event>)

  function Step(s: Session, op: Op): Session {
    match op
    case Write(es) => s.(r := OfferAll(s.r, es))
    case SetFilter(f) => s.(r := s.r.(filter := f))
    case Read => if s.r.queue == [] then s
                 else Session(s.r.(queue := s.r.queue[1..]), s.out + [s.r.queue[0]])
  }

  function Run(ops: seq<Op>): Session
    decreases |ops|
  {
    if ops == [] then Session(Reader(0xFFFF_FFFF, []), []) else Step(Run(ops[..|ops| - 1]), ops[|ops| - 1])
  }

  /** The events a run owes its reader, told without any queue: those that matched the filter of their time, minus
      those that came while 32 were owed and unread. */
  datatype Owed = Owed(filter: Event, events: seq<Event>, read: nat)

  function Arrive(o: Owed, es: seq<Event>): Owed
    decreases |es|
  {
    if es == [] then o
    else
      var p, e := Arrive(o, es[..|es| - 1]), es[|es| - 1];
      if Matches(e, p.filter) && |p.events| < p.read + 32 then p.(events := p.events + [e]) else p
  }

  function Owe(ops: seq<Op>): Owed
    decreases |ops|
  {
    if ops == [] then Owed(0xFFFF_FFFF, [], 0) else
    var o := Owe(ops[..|ops| - 1]);
    match ops[|ops| - 1]
    case Write(es) => Arrive(o, es)
    case SetFilter(f) => o.(filter := f)
    case Read => if o.read < |o.events| then o.(read := o.read + 1) else o
  }

  ghost predicate Agree(s: Session, o: Owed) {
    && o.read <= |o.events| <= o.read + 32 && s.r.filter == o.filter
    && s.out == o.events[..o.read] && s.r.queue == o.events[o.read..]
  }

  lemma {:induction false} ArriveAgrees(s: Session, o: Owed, es: seq<Event>)
    requires Agree(s, o)
    ensures Agree(s.(r := OfferAll(s.r, es)), Arrive(o, es))
    decreases |es|
  {
    if es != [] { ArriveAgrees(s, o, es[..|es| - 1]); }
  }

  /** In every run a handle reads exactly the events owed to it, in order, and the rest is still queued. */
  lemma {:induction false} ReadsWhatIsOwed(ops: seq<Op>)
    ensures Agree(Run(ops), Owe(ops))
    decreases |ops|
  {
    if ops != [] {
      var front := ops[..|ops| - 1];
      ReadsWhatIsOwed(front);
      match ops[|ops| - 1]
      case Write(es) => ArriveAgrees(Run(front), Owe(front), es);
      case SetFilter(f) =>
      case Read =>
        var o := Owe(front);
        if o.read < |o.events| { assert o.events[..o.read + 1] == o.events[..o.read] + [o.events[o.read]]; }
    }
  }

  // ---------------------------------------------------------------- one handle, as the driver keeps it

  /** The n events of a ring from position `at` on. */
  function Ring(buffer: seq<Event>, at: nat, n: nat): seq<Event>
    requires |buffer| == SIZE
  {
    seq(n, i requires 0 <= i < n => buffer[(at + i) % SIZE])
  }

  lemma RingPut(buffer: seq<Event>, at: nat, n: nat, e: Event)
    requires |buffer| == SIZE && at < SIZE && n <= SIZE
    ensures n < SIZE ==> Ring(buffer[(at + n) % SIZE := e], at, n + 1) == Ring(buffer, at, n) + [e]
  {
  }

  lemma RingTake(buffer: seq<Event>, at: nat, n: nat)
    requires |buffer| == SIZE && at < SIZE && n <= SIZE
    ensures n > 0 ==> Ring(buffer, at, n)[0] == buffer[at]
    ensures n > 0 ==> Ring(buffer, (at + 1) % SIZE, n - 1) == Ring(buffer, at, n)[1..]
  {
  }

  lemma NextIndex(at: nat, n: nat)
    requires at < SIZE && 0 < n <= SIZE
    ensures (at + 1) % SIZE == if at + 1 == SIZE then 0 else at + 1
    ensures ((at + 1) % SIZE + (n - 1)) % SIZE == (at + n) % SIZE
  {
  }

  class Handle {
    var filter: Event
    const event: array<Event>
    var free: nat
    var ptr: nat
    var readPtr: nat

    ghost predicate Valid()
      reads this
    {
      && event.Length == SIZE && ptr < SIZE && readPtr < SIZE && free <= SIZE
      && ptr == (readPtr + (SIZE - free)) % SIZE
    }

    ghost function State(): Reader
      requires Valid()
      reads this, event
    {
      Reader(filter, Ring(event[..], readPtr, SIZE - free))
    }

    constructor ()
      ensures Valid() && fresh(event) && State() == Reader(0xFFFF_FFFF, [])
    {
      filter, free, ptr, readPtr := 0xFFFF_FFFF, SIZE, 0, 0;
      event := new Event[SIZE](_ => 0);
    }

    method Put(e: Event)
      requires Valid()
      modifies this, event
      ensures Valid() && State() == Offer(old(State()), e)
    {
      RingPut(event[..], readPtr, SIZE - free, e);
      if free > 0 && Matches(e, filter) {
        free := free - 1;
        event[ptr] := e;
        ptr := ptr + 1;
        if ptr == SIZE { ptr := 0; }
      }
    }

    /** The oldest event, or none. */
    method Take() returns (found: bool, e: Event)
      requires Valid()
      modifies this
      ensures Valid() && (found <==> old(State()).queue != [])
      ensures found ==> e == old(State()).queue[0] && State() == old(State()).(queue := old(State()).queue[1..])
      ensures !found ==> State() == old(State())
    {
      found, e := false, 0;
      RingTake(event[..], readPtr, SIZE - free);
      if free != SIZE {
        NextIndex(readPtr, SIZE - free);
        e := event[readPtr];
        free := free + 1;
        readPtr := readPtr + 1;
        if readPtr == SIZE { readPtr := 0; }
        found := true;
      }
    }

    method SetFilter(f: Event)
      requires Valid()
      modifies `filter
      ensures Valid() && State() == old(State()).(filter := f)
    {
      filter := f;
    }
  }

  // ---------------------------------------------------------------- the five handles

  function Occupied(slots: seq<Handle?>): nat
    decreases |slots|
  {
    if slots == [] then 0
    else Occupied(slots[..|slots| - 1]) + if slots[|slots| - 1] == null then 0 else 1
  }

  lemma {:induction false} OccupiedBound(slots: seq<Handle?>)
    ensures Occupied(slots) <= |slots| && (Occupied(slots) < |slots| <==> null in slots)
    decreases |slots|
  {
    if slots != [] {
      var front := slots[..|slots| - 1];
      OccupiedBound(front);
      assert slots == front + [slots[|slots| - 1]];
    }
  }

  lemma {:induction false} OccupiedUpdate(slots: seq<Handle?>, i: nat, h: Handle?)
    requires i < |slots|
    ensures Occupied(slots[i := h]) + (if slots[i] == null then 0 else 1) ==
      Occupied(slots) + if h == null then 0 else 1
    decreases |slots|
  {
    var front := slots[..|slots| - 1];
    if i == |slots| - 1 {
      assert slots[i := h][..i] == front;
    } else {
      OccupiedUpdate(front, i, h);
      assert slots[i := h][..|slots| - 1] == front[i := h];
    }
  }

  class EventDriver {
    var openHandle: nat
    const slots: array<Handle?>

    /** Slots hold different handles with different rings, and `openHandle` counts them. */
    ghost predicate Valid()
      reads this, slots, Handles(), Rings()
    {
      && slots.Length == MAX_OPEN && openHandle == Occupied(slots[..])
      && (forall i :: 0 <= i < MAX_OPEN && slots[i] != null ==> slots[i].Valid())
      && forall i, j :: 0 <= i < j < MAX_OPEN && slots[i] != null && slots[j] != null ==>
           slots[i] != slots[j] && slots[i].event != slots[j].event
    }

    ghost function Handles(): set<Handle>
      reads slots
    {
      set h: Handle | h in slots[..]
    }

    ghost function Rings(): set<array<Event>>
      reads slots
    {
      set h: Handle | h in slots[..] :: h.event
    }

    constructor ()
      ensures Valid() && fresh(slots) && openHandle == 0 && forall h :: h in slots[..] ==> h == null
    {
      openHandle := 0;
      slots := new Handle?[MAX_OPEN](_ => null);
      new;
      OccupiedNone(slots[..]);
    }

    /** Refused exactly when five handles are open; otherwise a slot is found for a fresh handle. */
    method Open() returns (h: Handle?)
      requires Valid()
      modifies this, slots
      ensures Valid()
      ensures h == null <==> old(openHandle) == 5
      ensures h == null ==> slots[..] == old(slots[..])
      ensures h != null ==> fresh(h) && fresh(h.event) && openHandle == old(openHandle) + 1 && h.Valid()
                            && h.State() == Reader(0xFFFF_FFFF, [])
      ensures h != null ==>
        exists i :: 0 <= i < MAX_OPEN && null !in old(slots[..i]) && old(slots[i]) == null
          && slots[..] == old(slots[..])[i := h]
    {
      if openHandle == MAX_OPEN { return null; }
      openHandle := openHandle + 1;
      var mine := new Handle();
      OccupiedBound(slots[..]);
      var i := 0;
      while slots[i] != null
        invariant 0 <= i < MAX_OPEN && null in slots[i..] && null !in slots[..i]
        decreases MAX_OPEN - i
      {
        assert slots[i..] == [slots[i]] + slots[i + 1..];
        i := i + 1;
      }
      OccupiedUpdate(slots[..], i, mine);
      slots[i] := mine;
      assert slots[..] == old(slots[..])[i := mine];
      h := mine;
    }

    method Release(h: Handle)
      requires Valid() && h in slots[..]
      modifies this, slots
      ensures Valid() && openHandle == old(openHandle) - 1
      ensures exists i :: 0 <= i < MAX_OPEN && old(slots[i]) == h && slots[..] == old(slots[..])[i := null]
    {
      var i := 0;
      while slots[i] != h
        invariant 0 <= i < MAX_OPEN && h in slots[i..]
        decreases MAX_OPEN - i
      {
        assert slots[i..] == [slots[i]] + slots[i + 1..];
        i := i + 1;
      }
      OccupiedUpdate(slots[..], i, null);
      OccupiedBound(slots[..]);
      openHandle := openHandle - 1;
      slots[i] := null;
      assert slots[..] == old(slots[..])[i := null];
    }

    /** Every open handle is offered every event, in order. */
    method WriteMessage(events: seq<Event>)
      requires Valid()
      modifies Handles(), Rings()
      ensures Valid()
      ensures forall i :: 0 <= i < MAX_OPEN && slots[i] != null ==>
        slots[i].State() == OfferAll(old(slots[i].State()), events)
    {
      for s := 0 to |events|
        invariant Valid()
        invariant forall i :: 0 <= i < MAX_OPEN && slots[i] != null ==>
          slots[i].State() == OfferAll(old(slots[i].State()), events[..s])
      {
        WriteOne(events[s]);
        assert events[..s + 1][..s] == events[..s];
      }
      assert events[..|events|] == events;
    }

    method WriteOne(e: Event)
      requires Valid()
      modifies Handles(), Rings()
      ensures Valid()
      ensures forall i :: 0 <= i < MAX_OPEN && slots[i] != null ==> slots[i].State() == Offer(old(slots[i].State()), e)
    {
      for i := 0 to MAX_OPEN
        invariant Valid()
        invariant forall k :: 0 <= k < MAX_OPEN && slots[k] != null ==>
          slots[k].State() == if k < i then Offer(old(slots[k].State()), e) else old(slots[k].State())
      {
        var h := slots[i];
        if h != null {
          assert h in slots[..];
          h.Put(e);
        }
      }
    }
  }

  lemma {:induction false} OccupiedNone(slots: seq<Handle?>)
    requires forall i :: 0 <= i < |slots| ==> slots[i] == null
    ensures Occupied(slots) == 0
    decreases |slots|
  {
    if slots != [] { OccupiedNone(slots[..|slots| - 1]); }
  }
}
