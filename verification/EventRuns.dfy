/** Runs of the whole event driver: several readers that come and go, and the events written meanwhile. */
module EventRuns {
  import opened EventQueue

  datatype Act =
    | Opening
    | Releasing(slot: nat)
    | Filtering(slot: nat, filter: Event)
    | Reading(slot: nat)
    | Writing(es: seq<Event>)

  /** A slot is closed, or has seen these operations since it was opened. */
  datatype Slot = Closed | Opened(ops: seq<Op>)

  function Seeing(s: Slot, op: Op): Slot {
    if s.Opened? then Opened(s.ops + [op]) else Closed
  }

  function FirstClosed(slots: seq<Slot>): (i: nat)
    ensures i <= |slots| && (i < |slots| ==> slots[i].Closed?) && forall k :: 0 <= k < i ==> slots[k].Opened?
  {
    if slots == [] || slots[0].Closed? then 0 else 1 + FirstClosed(slots[1..])
  }

  /** Opening takes the first closed slot, if there is one; what is written is seen by every open slot. */
  function After(slots: seq<Slot>, act: Act): (r: seq<Slot>)
    ensures |r| == |slots|
  {
    match act
    case Opening =>
      var i := FirstClosed(slots);
      if i < |slots| then slots[i := Opened([])] else slots
    case Releasing(i) => if i < |slots| then slots[i := Closed] else slots
    case Filtering(i, f) => if i < |slots| then slots[i := Seeing(slots[i], SetFilter(f))] else slots
    case Reading(i) => if i < |slots| then slots[i := Seeing(slots[i], Read)] else slots
    case Writing(es) => seq(|slots|, i requires 0 <= i < |slots| => Seeing(slots[i], Write(es)))
  }

  function History(acts: seq<Act>): (r: seq<Slot>)
    ensures |r| == MAX_OPEN
    decreases |acts|
  {
    if acts == [] then seq(MAX_OPEN, _ => Closed) else After(History(acts[..|acts| - 1]), acts[|acts| - 1])
  }

  lemma RunOn(ops: seq<Op>, op: Op)
    ensures Run(ops + [op]) == Step(Run(ops), op)
  {
    assert (ops + [op])[..|ops|] == ops;
  }

  /** The driver is where the histories of its slots lead; `outs` is what each open slot has read. */
  ghost predicate Follows(d: EventDriver, slots: seq<Slot>, outs: seq<seq<Event>>)
    reads d, d.slots, d.Handles(), d.Rings()
  {
    && d.Valid() && |slots| == |outs| == MAX_OPEN
    && forall i {:trigger slots[i]} :: 0 <= i < MAX_OPEN ==>
         (slots[i].Closed? <==> d.slots[i] == null)
         && (d.slots[i] != null ==> Session(d.slots[i].State(), outs[i]) == Run(slots[i].ops))
  }

  /** Every handle was there before, or is new. */
  twostate predicate Grown(d: EventDriver)
    reads d.slots
  {
    forall i :: 0 <= i < d.slots.Length && d.slots[i] != null ==>
      d.slots[i] in old(d.slots[..]) || (fresh(d.slots[i]) && fresh(d.slots[i].event))
  }

  method OpenSlot(d: EventDriver, ghost slots: seq<Slot>, ghost outs: seq<seq<Event>>)
    returns (ghost outs': seq<seq<Event>>)
    requires Follows(d, slots, outs)
    modifies d, d.slots
    ensures Follows(d, After(slots, Opening), outs') && Grown(d)
  {
    OccupiedBound(d.slots[..]);
    var h := d.Open();
    outs' := outs;
    if h != null {
      ghost var i :| 0 <= i < MAX_OPEN && null !in old(d.slots[..i]) && old(d.slots[i]) == null
                     && d.slots[..] == old(d.slots[..])[i := h];
      forall k | 0 <= k < i ensures slots[k].Opened? { assert old(d.slots[..i])[k] != null; }
      assert slots[i].Closed?;
      assert FirstClosed(slots) == i;
      outs' := outs[i := []];
      assert forall k :: 0 <= k < MAX_OPEN ==> d.slots[k] == if k == i then h else old(d.slots[k]);
    } else {
      forall k | 0 <= k < MAX_OPEN ensures slots[k].Opened? { assert old(d.slots[..])[k] != null; }
    }
  }

  method ReleaseSlot(d: EventDriver, slot: nat, ghost slots: seq<Slot>, ghost outs: seq<seq<Event>>)
    requires Follows(d, slots, outs) && slot < MAX_OPEN
    modifies d, d.slots
    ensures Follows(d, After(slots, Releasing(slot)), outs) && Grown(d)
  {
    var h := d.slots[slot];
    if h != null {
      assert h in d.slots[..];
      d.Release(h);
      ghost var i :| 0 <= i < MAX_OPEN && old(d.slots[i]) == h && d.slots[..] == old(d.slots[..])[i := null];
      assert i == slot;
      assert forall k :: 0 <= k < MAX_OPEN ==> d.slots[k] == if k == i then null else old(d.slots[k]);
    }
  }

  method FilterSlot(d: EventDriver, slot: nat, f: Event, ghost slots: seq<Slot>, ghost outs: seq<seq<Event>>)
    requires Follows(d, slots, outs) && slot < MAX_OPEN
    modifies d.Handles()
    ensures Follows(d, After(slots, Filtering(slot, f)), outs)
  {
    var h := d.slots[slot];
    if h != null {
      assert h in d.slots[..];
      RunOn(slots[slot].ops, SetFilter(f));
      h.SetFilter(f);
    }
  }

  method ReadSlot(d: EventDriver, slot: nat, ghost slots: seq<Slot>, ghost outs: seq<seq<Event>>)
    returns (ghost outs': seq<seq<Event>>)
    requires Follows(d, slots, outs) && slot < MAX_OPEN
    modifies d.Handles()
    ensures Follows(d, After(slots, Reading(slot)), outs')
  {
    var h := d.slots[slot];
    outs' := outs;
    if h != null {
      assert h in d.slots[..];
      RunOn(slots[slot].ops, Read);
      var found, e := h.Take();
      if found { outs' := outs[slot := outs[slot] + [e]]; }
    }
  }

  method WriteSlots(d: EventDriver, es: seq<Event>, ghost slots: seq<Slot>, ghost outs: seq<seq<Event>>)
    requires Follows(d, slots, outs)
    modifies d.Handles(), d.Rings()
    ensures Follows(d, After(slots, Writing(es)), outs)
  {
    forall i | 0 <= i < MAX_OPEN && slots[i].Opened?
      ensures Run(slots[i].ops + [Write(es)]) == Step(Run(slots[i].ops), Write(es))
    {
      RunOn(slots[i].ops, Write(es));
    }
    d.WriteMessage(es);
  }

  method Perform(d: EventDriver, act: Act, ghost slots: seq<Slot>, ghost outs: seq<seq<Event>>)
    returns (ghost outs': seq<seq<Event>>)
    requires Follows(d, slots, outs)
    modifies d, d.slots, d.Handles(), d.Rings()
    ensures Follows(d, After(slots, act), outs') && Grown(d)
  {
    outs' := outs;
    match act {
      case Opening => outs' := OpenSlot(d, slots, outs);
      case Releasing(i) => if i < MAX_OPEN { ReleaseSlot(d, i, slots, outs); }
      case Filtering(i, f) => if i < MAX_OPEN { FilterSlot(d, i, f, slots, outs); }
      case Reading(i) => if i < MAX_OPEN { outs' := ReadSlot(d, i, slots, outs); }
      case Writing(es) => WriteSlots(d, es, slots, outs);
    }
  }

  /** In every run of the driver, each open handle has read exactly what it was owed since it was opened. */
  method Serve(acts: seq<Act>) returns (d: EventDriver, ghost outs: seq<seq<Event>>)
    ensures fresh(d) && Follows(d, History(acts), outs)
    ensures forall i {:trigger History(acts)[i]} :: 0 <= i < MAX_OPEN && d.slots[i] != null ==>
      Agree(Session(d.slots[i].State(), outs[i]), Owe(History(acts)[i].ops))
  {
    d := new EventDriver();
    outs := seq(MAX_OPEN, _ => []);
    forall i | 0 <= i < MAX_OPEN ensures d.slots[i] == null { assert d.slots[i] in d.slots[..]; }
    for n := 0 to |acts|
      invariant Follows(d, History(acts[..n]), outs)
      invariant fresh(d) && fresh(d.slots)
      invariant forall i :: 0 <= i < MAX_OPEN && d.slots[i] != null ==> fresh(d.slots[i]) && fresh(d.slots[i].event)
    {
      outs := Perform(d, acts[n], History(acts[..n]), outs);
      assert acts[..n + 1][..n] == acts[..n];
    }
    assert acts[..|acts|] == acts;
    forall i | 0 <= i < MAX_OPEN && d.slots[i] != null
      ensures Agree(Session(d.slots[i].State(), outs[i]), Owe(History(acts)[i].ops))
    {
      ReadsWhatIsOwed(History(acts)[i].ops);
    }
  }
}
