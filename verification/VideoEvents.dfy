/** The video event ring: it keeps the latest events and tells the reader when it has dropped some. */
module VideoEvents {

  const MAX: nat := 8

  datatype Aspect = Format43 | Format169 | Format221

  datatype Event = Event(w: nat, h: nat, aspect: Aspect)

  function AspectOf(ratio: nat): Aspect {
    match ratio case 3 => Format169 case 4 => Format221 case _ => Format43
  }

  datatype Answer = Got(e: Event) | Lost | Empty

  // ---------------------------------------------------------------- the ring as values

  datatype Pending = Pending(queue: seq<Event>, overflow: bool)

  function Add(p: Pending, e: Event): Pending {
    if |p.queue| == MAX - 1 then Pending(p.queue[1..] + [e], true) else p.(queue := p.queue + [e])
  }

  function Get(p: Pending): (Pending, Answer) {
    if p.overflow then (p.(overflow := false), Lost)
    else if p.queue == [] then (p, Empty)
    else (p.(queue := p.queue[1..]), Got(p.queue[0]))
  }

  // ---------------------------------------------------------------- runs

  datatype Op = AddOp(e: Event) | GetOp

  /** What the reader was told: an event, by its number in the order of adding, or that some were dropped, and how many
      had been dropped by then. */
  datatype Note = Delivered(index: nat, e: Event) | Gap(dropped: nat)

  /** A run so far: the ring, all events ever added, the number of the first one pending, how many were dropped, and the
      notes. */
  datatype Story = Story(p: Pending, added: seq<Event>, next: nat, dropped: nat, notes: seq<Note>)

  function Step(s: Story, op: Op): Story {
    match op
    case AddOp(e) =>
      var d := if |s.p.queue| == 7 then 1 else 0;
      Story(Add(s.p, e), s.added + [e], s.next + d, s.dropped + d, s.notes)
    case GetOp =>
      var (p, a) := Get(s.p);
      match a
      case Got(e) => Story(p, s.added, s.next + 1, s.dropped, s.notes + [Delivered(s.next, e)])
      case Lost => Story(p, s.added, s.next, s.dropped, s.notes + [Gap(s.dropped)])
      case Empty => s.(p := p)
  }

  function Run(ops: seq<Op>): Story
    decreases |ops|
  {
    if ops == [] then Story(Pending([], false), [], 0, 0, []) else Step(Run(ops[..|ops| - 1]), ops[|ops| - 1])
  }

  /** The number the reader expects next, unless it has just been told of a gap. */
  datatype Expectation = Next(index: nat) | Anything

  function Expected(notes: seq<Note>): Expectation {
    if notes == [] then Next(0)
    else match notes[|notes| - 1] case Delivered(i, _) => Next(i + 1) case Gap(_) => Anything
  }

  /** Every event comes with the number expected, or right after a report of a gap; and none comes twice. */
  ghost predicate NoSilentGap(notes: seq<Note>) {
    forall k :: 0 <= k < |notes| && notes[k].Delivered? ==>
      Expected(notes[..k]) == Anything || Expected(notes[..k]) == Next(notes[k].index)
  }

  /** How many dropped events the reports so far have covered. */
  function Reported(notes: seq<Note>): nat {
    if notes == [] then 0
    else match notes[|notes| - 1] case Gap(d) => d case Delivered(_, _) => Reported(notes[..|notes| - 1])
  }

  function DeliveredCount(notes: seq<Note>): nat {
    if notes == [] then 0
    else DeliveredCount(notes[..|notes| - 1]) + if notes[|notes| - 1].Delivered? then 1 else 0
  }

  /** No report of a gap comes without an event dropped since the report before. */
  ghost predicate NoFalseGap(notes: seq<Note>) {
    forall k :: 0 <= k < |notes| && notes[k].Gap? ==> notes[k].dropped > Reported(notes[..k])
  }

  ghost predicate Increasing(notes: seq<Note>) {
    forall i, k :: 0 <= i < k < |notes| && notes[i].Delivered? && notes[k].Delivered? ==>
      notes[i].index < notes[k].index
  }

  /** What every run keeps. */
  ghost predicate Sound(s: Story) {
    && s.next <= |s.added| && s.p.queue == s.added[s.next..] && |s.p.queue| <= 7
    && NoSilentGap(s.notes) && NoFalseGap(s.notes) && Increasing(s.notes)
    && s.next == DeliveredCount(s.notes) + s.dropped && s.dropped >= Reported(s.notes)
    && (s.p.overflow <==> s.dropped > Reported(s.notes))
    && (forall n :: n in s.notes && n.Delivered? ==> n.index < s.next && n.e == s.added[n.index])
    && (s.p.overflow || Expected(s.notes) == Anything || Expected(s.notes) == Next(s.next))
  }

  lemma NotesGrow(notes: seq<Note>, n: Note)
    requires NoSilentGap(notes) && NoFalseGap(notes) && Increasing(notes)
    requires n.Gap? ==> n.dropped > Reported(notes)
    requires n.Delivered? ==> Expected(notes) == Anything || Expected(notes) == Next(n.index)
    requires n.Delivered? ==> forall k :: 0 <= k < |notes| && notes[k].Delivered? ==> notes[k].index < n.index
    ensures NoSilentGap(notes + [n]) && NoFalseGap(notes + [n]) && Increasing(notes + [n])
    ensures Expected(notes + [n]) == match n case Delivered(i, _) => Next(i + 1) case Gap(_) => Anything
    ensures Reported(notes + [n]) == match n case Delivered(_, _) => Reported(notes) case Gap(d) => d
    ensures DeliveredCount(notes + [n]) == DeliveredCount(notes) + if n.Delivered? then 1 else 0
  {
    var all := notes + [n];
    assert all[..|notes|] == notes;
    forall k | 0 <= k < |notes| ensures all[..k] == notes[..k] && all[k] == notes[k] { }
  }

  lemma AddIsSound(s: Story, e: Event)
    requires Sound(s)
    ensures Sound(Step(s, AddOp(e)))
  {
  }

  lemma GetIsSound(s: Story)
    requires Sound(s)
    ensures Sound(Step(s, GetOp))
  {
    var (p, a) := Get(s.p);
    if a.Got? {
      NotesGrow(s.notes, Delivered(s.next, a.e));
    } else if a.Lost? {
      NotesGrow(s.notes, Gap(s.dropped));
    }
  }

  /** In every run the ring holds the latest undelivered events, at most seven; what is delivered is what was added, and
      all others but those pending were dropped; no event follows a gap that was not reported first, and a gap is
      reported only when events were dropped since the last report. */
  lemma {:induction false} NothingLostSilently(ops: seq<Op>)
    ensures Sound(Run(ops))
    decreases |ops|
  {
    if ops != [] {
      var front := Run(ops[..|ops| - 1]);
      NothingLostSilently(ops[..|ops| - 1]);
      match ops[|ops| - 1]
      case AddOp(e) => AddIsSound(front, e);
      case GetOp => GetIsSound(front);
    }
  }

  // ---------------------------------------------------------------- the ring as the driver keeps it

  class VideoEvents {
    const events: array<Event>
    var eventw: nat
    var eventr: nat
    var overflow: bool

    ghost predicate Valid() reads this { events.Length == MAX && eventw < MAX && eventr < MAX }

    ghost function State(): Pending
      requires Valid()
      reads this, events
    {
      Pending(Ring(events[..], eventr, Count(eventw, eventr)), overflow)
    }

    constructor ()
      ensures Valid() && State() == Pending([], false)
    {
      events := new Event[MAX](_ => Event(0, 0, Format43));
      eventw, eventr, overflow := 0, 0, false;
    }

    method AddEvent(width: nat, height: nat, ratio: nat)
      requires Valid()
      modifies this, events
      ensures Valid() && State() == Add(old(State()), Event(width, height,
                if ratio == 3 then Format169 else if ratio == 4 then Format221 else Format43))
    {
      var wp := (eventw + 1) % MAX;
      var e := Event(width, height, AspectOf(ratio));
      RingAdd(events[..], eventw, eventr, e);
      if wp == eventr {
        overflow := true;
        eventr := (eventr + 1) % MAX;
      }
      events[eventw] := e;
      eventw := wp;
    }

    method GetEvent() returns (a: Answer)
      requires Valid()
      modifies this
      ensures Valid() && (State(), a) == Get(old(State()))
    {
      if overflow {
        overflow := false;
        return Lost;
      }
      if eventw == eventr { return Empty; }
      a := Got(events[eventr]);
      Counting(eventw, eventr);
      RingTake(events[..], eventr, Count(eventw, eventr));
      eventr := (eventr + 1) % MAX;
    }
  }

  function Ring(buffer: seq<Event>, at: nat, n: nat): seq<Event>
    requires |buffer| == MAX
  {
    seq(n, i requires 0 <= i < n => buffer[(at + i) % MAX])
  }

  /** How many events wait between the two indices. */
  function Count(w: nat, r: nat): nat
    requires w < MAX && r < MAX
  {
    if w >= r then w - r else w + MAX - r
  }

  lemma Counting(w: nat, r: nat)
    requires w < MAX && r < MAX
    ensures w == (r + Count(w, r)) % MAX
    ensures (w + 1) % MAX == r <==> Count(w, r) == MAX - 1
    ensures Count(w, r) < MAX - 1 ==> Count((w + 1) % MAX, r) == Count(w, r) + 1
    ensures Count(w, r) == MAX - 1 ==> Count((w + 1) % MAX, (r + 1) % MAX) == MAX - 1
    ensures w != r ==> Count(w, (r + 1) % MAX) == Count(w, r) - 1
  {
  }

  lemma RingPut(buffer: seq<Event>, at: nat, n: nat, e: Event)
    requires |buffer| == MAX && at < MAX && n < MAX
    ensures Ring(buffer[(at + n) % MAX := e], at, n + 1) == Ring(buffer, at, n) + [e]
  {
  }

  lemma RingTake(buffer: seq<Event>, at: nat, n: nat)
    requires |buffer| == MAX && at < MAX && 0 < n <= MAX
    ensures Ring(buffer, at, n)[0] == buffer[at] && Ring(buffer, (at + 1) % MAX, n - 1) == Ring(buffer, at, n)[1..]
  {
  }

  lemma RingAdd(buffer: seq<Event>, w: nat, r: nat, e: Event)
    requires |buffer| == MAX && w < MAX && r < MAX
    ensures var now, wp, all := buffer[w := e], (w + 1) % MAX, Ring(buffer, r, Count(w, r));
      if wp == r then |all| == MAX - 1 && Ring(now, (r + 1) % MAX, Count(wp, (r + 1) % MAX)) == all[1..] + [e]
      else |all| < MAX - 1 && Ring(now, r, Count(wp, r)) == all + [e]
  {
    Counting(w, r);
    RingPut(buffer, r, Count(w, r), e);
    RingTake(buffer[w := e], r, Count(w, r) + 1);
  }
}
