/** Interrupt lines of the graphics chip: allocation, and one pass of dispatching while more lines come up.
    A line is named by its place in the handler table, register * 16 + bit. */
module GtInterrupts {
  import opened Common

  /** How long the chip's tables of status and mask registers are. */
  function Registers(chip: Chip): nat { if chip.Enx? then 6 else 4 }

  const SCANNED: nat := 6
  const LAST: nat := 96

  /** The lines there are: on eNX, bit 0 of a register chooses between setting and clearing the others. */
  predicate Line(chip: Chip, n: nat) {
    n < (if chip.Enx? then 96 else 64) && (chip.Enx? ==> n % 16 != 0)
  }

  /** The line of a register's bit. */
  function At(reg: nat, bit: nat): nat { reg * 16 + bit }

  lemma AtIs(reg: nat, bit: nat)
    requires bit < 16
    ensures At(reg, bit) / 16 == reg && At(reg, bit) % 16 == bit
    ensures RegisterOf(At(reg, bit)) == reg * 16
    ensures Code(At(reg, bit)) == reg * 0x100 + bit
  {
  }

  /** The code a line is allocated under. */
  function Code(n: nat): nat { n / 16 * 0x100 + n % 16 }

  datatype HandlerCall = HandlerCall(handler: nat, code: nat)

  /** The lines pending at the start of a pass, and those that come up while the pass is at line t. */
  datatype World = World(chip: Chip, start: set<nat>, late: nat -> set<nat>)

  ghost predicate Real(w: World) {
    (forall n :: n in w.start ==> Line(w.chip, n)) && (forall t, n :: n in w.late(t) ==> Line(w.chip, n))
  }

  /** Line n comes up at t; -1 stands for before the pass. */
  predicate Raised(w: World, t: int, n: nat)
    requires t >= -1
  {
    if t == -1 then n in w.start else n in w.late(t)
  }

  /** Acknowledging line k takes away line n too: on GTX the pending bits are read and written back with it. */
  predicate Takes(chip: Chip, k: nat, n: nat) {
    if chip.Enx? then k == n else k / 16 == n / 16
  }

  /** A pass when it comes to line t: the lines pending, and those that were when the register of line t was read. */
  datatype Point = Point(pending: set<nat>, status: set<nat>)

  ghost function PointAt(w: World, t: nat): Point {
    if t == 0 then Point(w.start, w.start)
    else
      var p := PointAt(w, t - 1);
      var now := p.pending + w.late(t - 1);
      var pending := if t - 1 in p.status then Acknowledged(w.chip, now, t - 1) else now;
      Point(pending, if t % 16 == 0 then pending else p.status)
  }

  ghost function PendingAt(w: World, t: nat): set<nat> { PointAt(w, t).pending }

  /** When the register of line t is read. */
  function RegisterOf(t: nat): nat { t - t % 16 }

  function Acknowledged(chip: Chip, pending: set<nat>, t: nat): set<nat> {
    set n | n in pending && !Takes(chip, t, n)
  }

  /** The pass found the line pending. */
  ghost predicate Seen(w: World, n: nat) { n in PointAt(w, n).status }

  lemma {:induction false} StatusIs(w: World, t: nat)
    ensures PointAt(w, t).status == PendingAt(w, RegisterOf(t))
  {
    if t % 16 != 0 {
      StatusIs(w, t - 1);
      assert RegisterOf(t) == RegisterOf(t - 1);
    }
  }

  // ---------------------------------------------------------------- what is left pending

  /** A line is pending at t exactly if it came up and nothing acknowledged since took it away. */
  lemma {:induction false} PendingWhy(w: World, t: nat, n: nat)
    ensures n in PendingAt(w, t)
        <==> exists m {:trigger Raised(w, m, n)} :: -1 <= m < t && Raised(w, m, n) && Kept(w, m, t, n)
  {
    if t == 0 {
      assert Raised(w, -1, n) <==> n in w.start;
    } else {
      PendingWhy(w, t - 1, n);
      assert Raised(w, t - 1, n) <==> n in w.late(t - 1);
      assert Kept(w, t - 1, t, n) <==> !(Seen(w, t - 1) && Takes(w.chip, t - 1, n));
      forall m | -1 <= m < t - 1 ensures Kept(w, m, t, n) <==> Kept(w, m, t - 1, n) && Kept(w, t - 1, t, n) {
      }
    }
  }

  /** Nothing acknowledged from m on, before t, takes away line n. */
  ghost predicate Kept(w: World, m: int, t: nat, n: nat) {
    forall k: nat :: m <= k < t && Seen(w, k) ==> !Takes(w.chip, k, n)
  }

  /** A line is seen exactly if it came up before its register was read. */
  lemma SeenWhy(w: World, n: nat)
    ensures Seen(w, n) <==> exists m {:trigger Raised(w, m, n)} :: -1 <= m < RegisterOf(n) && Raised(w, m, n)
  {
    StatusIs(w, n);
    PendingWhy(w, RegisterOf(n), n);
    forall m | -1 <= m < RegisterOf(n) ensures Kept(w, m, RegisterOf(n), n) {
      forall k: nat | m <= k < RegisterOf(n) ensures !Takes(w.chip, k, n) { Earlier(k, n); }
    }
  }

  lemma Earlier(k: nat, n: nat)
    requires k < RegisterOf(n)
    ensures k / 16 != n / 16
  {
  }

  /** A line that came up at m is lost at the end of the pass: neither handled after that nor left pending.
      What comes up in the line's own turn comes after its handler and before its acknowledgement. */
  ghost predicate Lost(w: World, end: nat, m: int, n: nat)
    requires m >= -1
  {
    Raised(w, m, n) && n !in PendingAt(w, end) && !(Seen(w, n) && m < n)
  }

  /** Exactly: a line that comes up for the last time is lost if a line acknowledged later takes it away. */
  lemma LostWhy(w: World, end: nat, m: int, n: nat)
    requires -1 <= m < end && Raised(w, m, n)
    requires forall later {:trigger Raised(w, later, n)} :: m < later < end ==> !Raised(w, later, n)
    ensures Lost(w, end, m, n) <==>
      !(Seen(w, n) && m < n) && exists k: nat :: m <= k < end && Seen(w, k) && Takes(w.chip, k, n)
  {
    PendingWhy(w, end, n);
    if Kept(w, m, end, n) {
      assert n in PendingAt(w, end);
    } else {
      forall e | -1 <= e < end && Raised(w, e, n) ensures !Kept(w, e, end, n) {
        assert e <= m;
      }
    }
  }

  /** On eNX a line is lost exactly if it comes up for the last time in its own turn, while it is being served; a line
      that comes up in the turn of another one is handled later or left pending. */
  lemma EnxLoses(w: World, end: nat, m: int, n: nat)
    requires w.chip.Enx? && -1 <= m < end
    ensures Lost(w, end, m, n) <==>
      m == n && Raised(w, m, n) && Seen(w, n)
      && forall later {:trigger Raised(w, later, n)} :: m < later < end ==> !Raised(w, later, n)
    ensures m != n && Raised(w, m, n) ==> n in PendingAt(w, end) || (Seen(w, n) && m < n)
  {
    PendingWhy(w, end, n);
    if m == n && Raised(w, m, n) && Seen(w, n) {
      assert Takes(w.chip, n, n);
      forall e | -1 <= e < end && Raised(w, e, n) && e <= m ensures !Kept(w, e, end, n) { }
      forall e | m < e < end && Raised(w, e, n) ensures Kept(w, e, end, n) { }
    } else if Raised(w, m, n) && !Kept(w, m, end, n) {
      var k: nat :| m <= k < end && Seen(w, k) && Takes(w.chip, k, n);
      assert k == n;
    }
  }

  /** On eNX there is such a pass: the line is served once for its two arrivals and nothing is left of the second. */
  lemma EnxLosesOwn(w: World, end: nat, n: nat)
    requires w.chip.Enx? && n < end && w.start == {n} && n in w.late(n)
    requires forall t, l :: t != n ==> l !in w.late(t)
    ensures Lost(w, end, n, n)
  {
    SeenWhy(w, n);
    assert Raised(w, -1, n) && Raised(w, n, n);
    EnxLoses(w, end, n, n);
  }

  /** On GTX a line that comes up while another one of its register is handled is lost. */
  lemma GtxLoses(w: World, end: nat, k: nat, n: nat)
    requires w.chip.Gtx? && k != n && k / 16 == n / 16 && k < end
    requires w.start == {k} && n in w.late(k)
    requires forall t, l :: t != k ==> l !in w.late(t)
    ensures Lost(w, end, k, n)
  {
    SeenWhy(w, k);
    SeenWhy(w, n);
    assert Raised(w, -1, k) && Raised(w, k, n);
    assert Takes(w.chip, k, n);
    LostWhy(w, end, k, n);
  }

  // ---------------------------------------------------------------- whom the pass calls

  ghost function CallsAt(w: World, handlers: map<nat, nat>, t: nat): seq<HandlerCall> {
    if t == 0 then []
    else CallsAt(w, handlers, t - 1) + CallAt(w, handlers, t - 1)
  }

  ghost function CallAt(w: World, handlers: map<nat, nat>, n: nat): seq<HandlerCall> {
    if Seen(w, n) && n in handlers then [HandlerCall(handlers[n], Code(n))] else []
  }

  /** The handler of each line found pending is called, with the line's code, and nobody else. */
  lemma {:induction false} CalledFor(w: World, handlers: map<nat, nat>, t: nat, c: HandlerCall)
    ensures c in CallsAt(w, handlers, t) <==>
      exists n: nat :: n < t && Seen(w, n) && n in handlers && c == HandlerCall(handlers[n], Code(n))
  {
    if t > 0 { CalledFor(w, handlers, t - 1, c); }
  }

  /** Calls with growing codes below a bound. */
  ghost predicate InOrder(calls: seq<HandlerCall>, bound: nat) {
    (forall i :: 0 <= i < |calls| ==> calls[i].code < bound)
    && forall i, j :: 0 <= i < j < |calls| ==> calls[i].code < calls[j].code
  }

  lemma OrderGoesOn(calls: seq<HandlerCall>, bound: nat, more: seq<HandlerCall>, next: nat)
    requires InOrder(calls, bound) && bound < next && (more == [] || (|more| == 1 && more[0].code == bound))
    ensures InOrder(calls + more, next)
  {
  }

  /** In the order of the lines, so no line twice. */
  lemma {:induction false} CalledInOrder(w: World, handlers: map<nat, nat>, t: nat)
    ensures InOrder(CallsAt(w, handlers, t), Code(t))
  {
    if t > 0 {
      CalledInOrder(w, handlers, t - 1);
      CodesGrow(t - 1, t);
      OrderGoesOn(CallsAt(w, handlers, t - 1), Code(t - 1), CallAt(w, handlers, t - 1), Code(t));
    }
  }

  ghost function MasksAt(w: World, handlers: map<nat, nat>, masks: set<nat>, t: nat): set<nat> {
    if t == 0 then masks else MasksAt(w, handlers, masks, t - 1) - Unhandled(w, handlers, t - 1)
  }

  ghost function Unhandled(w: World, handlers: map<nat, nat>, n: nat): set<nat> {
    if Seen(w, n) && n !in handlers then {n} else {}
  }

  /** Exactly the lines found pending without a handler are masked. */
  lemma {:induction false} MasksWhy(w: World, handlers: map<nat, nat>, masks: set<nat>, t: nat, n: nat)
    ensures n in MasksAt(w, handlers, masks, t) <==> n in masks && !(n < t && Seen(w, n) && n !in handlers)
  {
    if t > 0 { MasksWhy(w, handlers, masks, t - 1, n); }
  }

  lemma CodesGrow(m: nat, n: nat)
    requires m < n
    ensures Code(m) < Code(n)
  {
  }

  /** Codes name lines: taking one apart gives the register and the bit. */
  lemma CodeRoundTrip(n: nat)
    requires n < 0x1000
    ensures Code(n) / 0x100 % 0x100 * 16 + Code(n) % 0x100 == n
  {
  }

  /** The status read from a register tells which of its lines are seen. */
  ghost predicate StatusRead(w: World, status: set<nat>, reg: nat) {
    forall b :: 0 <= b < 16 ==> (b in status <==> Seen(w, At(reg, b)))
  }

  // ---------------------------------------------------------------- the driver

  class Dispatcher {
    const chip: Chip
    var pending: set<nat>
    var unmasked: set<nat>
    var handlers: map<nat, nat>
    var calls: seq<HandlerCall>

    constructor (chip: Chip)
      ensures this.chip == chip && pending == unmasked == {} && handlers == map[] && calls == []
    {
      this.chip, pending, unmasked, handlers, calls := chip, {}, {}, map[], [];
    }

    /** Writes the line's bit to its status register; the GTX also writes back what it read there. */
    method ClearIrq(reg: nat, bit: nat)
      requires reg < Registers(chip) && bit < 16 && Line(chip, At(reg, bit))
      modifies `pending
      ensures pending == Acknowledged(chip, old(pending), At(reg, bit))
    {
      var n := At(reg, bit);
      AtIs(reg, bit);
      var written := if chip.Enx? then {n} else {n} + set k | k in pending && k / 16 == reg;
      pending := pending - written;
      assert forall k :: k in pending <==> k in old(pending) && !Takes(chip, n, k);
    }

    method MaskIrq(reg: nat, bit: nat)
      requires reg < Registers(chip) && bit < 16
      modifies `unmasked
      ensures unmasked == old(unmasked) - {At(reg, bit)}
    {
      unmasked := unmasked - {At(reg, bit)};
    }

    method UnmaskIrq(reg: nat, bit: nat)
      requires reg < Registers(chip) && bit < 16
      modifies `unmasked
      ensures unmasked == old(unmasked) + {At(reg, bit)}
    {
      unmasked := unmasked + {At(reg, bit)};
    }

    method GetMask(reg: nat) returns (bits: set<nat>)
      ensures forall b :: b in bits <==> b < 16 && reg < Registers(chip) && At(reg, b) in unmasked
    {
      bits := if reg < Registers(chip) then set b | 0 <= b < 16 && At(reg, b) in unmasked else {};
    }

    method GetStatus(reg: nat) returns (bits: set<nat>)
      ensures forall b :: b in bits <==> b < 16 && reg < Registers(chip) && At(reg, b) in pending
    {
      bits := if reg < Registers(chip) then set b | 0 <= b < 16 && At(reg, b) in pending else {};
    }

    /** A free line gets the handler, and starts unmasked and not pending. */
    method Alloc(n: nat, handler: nat) returns (ok: bool)
      requires Line(chip, n)
      modifies `pending, `unmasked, `handlers
      ensures ok <==> n !in old(handlers)
      ensures !ok ==> unchanged(this)
      ensures ok ==> handlers == old(handlers)[n := handler] && unmasked == old(unmasked) + {n}
      ensures ok ==> n !in pending && pending == Acknowledged(chip, old(pending), n)
    {
      if n in handlers { return false; }
      handlers := handlers[n := handler];
      assert At(n / 16, n % 16) == n;
      UnmaskIrq(n / 16, n % 16);
      ClearIrq(n / 16, n % 16);
      ok := true;
    }

    /** The line is masked and loses its handler. */
    method Free(n: nat)
      requires Line(chip, n)
      modifies `unmasked, `handlers
      ensures unmasked == old(unmasked) - {n} && handlers == old(handlers) - {n}
    {
      assert At(n / 16, n % 16) == n;
      MaskIrq(n / 16, n % 16);
      handlers := handlers - {n};
    }

    /** Where a pass stands at line t, from the masks and calls it began with. */
    ghost predicate Stands(w: World, t: nat, masks: set<nat>, before: seq<HandlerCall>)
      reads this
    {
      pending == PendingAt(w, t)
      && calls == before + CallsAt(w, handlers, t)
      && unmasked == MasksAt(w, handlers, masks, t)
    }

    /** The mask read from the register still tells which lines from the bit on are unmasked. */
    ghost predicate MaskStands(mask: set<nat>, reg: nat, bit: nat)
      reads this
    {
      forall b :: bit <= b < 16 ==> (b in mask <==> reg < Registers(chip) && At(reg, b) in unmasked)
    }

    ghost predicate AtBit(w: World, n: nat, masks: set<nat>, before: seq<HandlerCall>,
                          reg: nat, bit: nat, mask: set<nat>, status: set<nat>)
      reads this
    {
      w.chip == chip && Real(w) && n == At(reg, bit) && Stands(w, n, masks, before)
      && StatusRead(w, status, reg) && MaskStands(mask, reg, bit)
    }

    /** One pass over all registers, with the lines that come up meanwhile. */
    method Irq(late: nat -> set<nat>)
      requires Real(World(chip, pending, late))
      modifies `pending, `unmasked, `calls
      ensures Stands(World(chip, old(pending), late), LAST, old(unmasked), old(calls))
      ensures old(calls) <= calls
      ensures forall n :: n in old(pending) && n in handlers ==>
        OnceIn(calls[|old(calls)|..], HandlerCall(handlers[n], n / 16 * 256 + n % 16))
      ensures forall n :: n in old(pending) && n !in handlers ==> n !in unmasked
      ensures forall n :: n in old(pending) && (forall t :: n !in late(t)) ==> n !in pending
      ensures forall n :: n in handlers || (n !in old(pending) && forall t :: n !in late(t)) ==>
        (n in unmasked <==> n in old(unmasked))
      ensures forall c :: c in calls[|old(calls)|..] ==>
        exists n :: n in handlers && c == HandlerCall(handlers[n], n / 16 * 256 + n % 16)
                    && (n in old(pending) || exists t :: n in late(t))
    {
      ghost var w := World(chip, pending, late);
      ghost var n, masks, before := 0, unmasked, calls;
      var reg := 0;
      while reg < SCANNED
        invariant 0 <= reg <= SCANNED && n == reg * 16
        invariant Stands(w, n, masks, before)
      {
        n := IrqRegister(w, n, masks, before, reg, late);
        reg := reg + 1;
      }
      AllServed(w, handlers, masks);
      assert calls[|before|..] == CallsAt(w, handlers, LAST);
    }

    /** The pass over one register. */
    method IrqRegister(ghost w: World, ghost first: nat, ghost masks: set<nat>, ghost before: seq<HandlerCall>,
                       reg: nat, late: nat -> set<nat>)
      returns (ghost next: nat)
      requires w.chip == chip && w.late == late && Real(w) && first == reg * 16
      requires Stands(w, first, masks, before)
      modifies `pending, `unmasked, `calls
      ensures next == first + 16 && Stands(w, next, masks, before)
    {
      var mask, status := ReadRegister(w, first, reg);
      next := first;
      for bit := 0 to 16
        invariant AtBit(w, next, masks, before, reg, bit, mask, status)
      {
        next := IrqBit(w, next, masks, before, reg, bit, mask, status, late);
      }
    }

    method ReadRegister(ghost w: World, ghost first: nat, reg: nat) returns (mask: set<nat>, status: set<nat>)
      requires w.chip == chip && Real(w) && first == reg * 16 && pending == PendingAt(w, first)
      ensures MaskStands(mask, reg, 0)
      ensures StatusRead(w, status, reg)
    {
      mask := GetMask(reg);
      status := GetStatus(reg);
      SeenInStatus(w, reg);
    }

    method IrqBit(ghost w: World, ghost n: nat, ghost masks: set<nat>, ghost before: seq<HandlerCall>,
                  reg: nat, bit: nat, mask: set<nat>, status: set<nat>, late: nat -> set<nat>)
      returns (ghost next: nat)
      requires w.late == late && bit < 16
      requires AtBit(w, n, masks, before, reg, bit, mask, status)
      modifies `pending, `unmasked, `calls
      ensures AtBit(w, next, masks, before, reg, bit + 1, mask, status)
    {
      Turn(w, n, reg, bit, bit in mask, bit in status, late);
      next := n + 1;
    }

    /** One line's turn. */
    method Turn(ghost w: World, ghost n: nat, reg: nat, bit: nat, mask: bool, status: bool, late: nat -> set<nat>)
      requires w.chip == chip && w.late == late && Real(w) && bit < 16 && n == At(reg, bit)
      requires pending == PendingAt(w, n)
      requires status <==> Seen(w, n)
      requires mask <==> reg < Registers(chip) && n in unmasked
      modifies `pending, `unmasked, `calls
      ensures pending == PendingAt(w, n + 1)
      ensures calls == old(calls) + CallAt(w, handlers, n)
      ensures unmasked == old(unmasked) - Unhandled(w, handlers, n)
    {
      AtIs(reg, bit);
      PendingReal(w, n);
      assert status ==> Line(chip, n);
      if status { Answer(reg, bit, mask); }
      pending := pending + late(At(reg, bit));
      if status { ClearIrq(reg, bit); }
    }

    /** A pending line is handed to its handler, or masked. */
    method Answer(reg: nat, bit: nat, mask: bool)
      requires bit < 16 && (mask <==> At(reg, bit) in unmasked) && (mask ==> reg < Registers(chip))
      modifies `unmasked, `calls
      ensures calls == old(calls)
        + if At(reg, bit) in handlers then [HandlerCall(handlers[At(reg, bit)], Code(At(reg, bit)))] else []
      ensures unmasked == old(unmasked) - if At(reg, bit) in handlers then {} else {At(reg, bit)}
    {
      if At(reg, bit) in handlers {
        AtIs(reg, bit);
        calls := calls + [HandlerCall(handlers[At(reg, bit)], reg * 0x100 + bit)];
      } else if mask {
        MaskIrq(reg, bit);
      }
    }
  }

  /** A call is made exactly once. */
  ghost predicate OnceIn(calls: seq<HandlerCall>, c: HandlerCall) {
    exists i :: OnceAt(calls, c, i)
  }

  ghost predicate OnceAt(calls: seq<HandlerCall>, c: HandlerCall, i: int) {
    0 <= i < |calls| && calls[i] == c && forall j :: 0 <= j < |calls| && calls[j] == c ==> j == i
  }

  /** Every line pending at the start of a pass has its turn in it. */
  lemma AllServed(w: World, handlers: map<nat, nat>, masks: set<nat>)
    requires Real(w)
    ensures forall n :: n in w.start && n in handlers ==>
      OnceIn(CallsAt(w, handlers, LAST), HandlerCall(handlers[n], n / 16 * 256 + n % 16))
    ensures forall n :: n in w.start && n !in handlers ==> n !in MasksAt(w, handlers, masks, LAST)
    ensures forall n :: n in w.start && (forall t :: n !in w.late(t)) ==> n !in PendingAt(w, LAST)
    ensures forall n :: n in handlers || (n !in w.start && forall t :: n !in w.late(t)) ==>
      (n in MasksAt(w, handlers, masks, LAST) <==> n in masks)
    ensures forall c :: c in CallsAt(w, handlers, LAST) ==>
      exists n :: n in handlers && c == HandlerCall(handlers[n], n / 16 * 256 + n % 16)
                  && (n in w.start || exists t :: n in w.late(t))
  {
    forall n | n in w.start && n in handlers
      ensures OnceIn(CallsAt(w, handlers, LAST), HandlerCall(handlers[n], n / 16 * 256 + n % 16))
    {
      ServedOnce(w, handlers, n);
    }
    forall n | n in w.start && n !in handlers ensures n !in MasksAt(w, handlers, masks, LAST) {
      StartSeen(w, n);
      MasksWhy(w, handlers, masks, LAST, n);
    }
    forall n | n in w.start && (forall t :: n !in w.late(t)) ensures n !in PendingAt(w, LAST) { TakenAway(w, n); }
    forall n: nat | n in handlers || (n !in w.start && forall t :: n !in w.late(t))
      ensures n in MasksAt(w, handlers, masks, LAST) <==> n in masks
    {
      MasksWhy(w, handlers, masks, LAST, n);
      SeenWhy(w, n);
    }
    forall c | c in CallsAt(w, handlers, LAST)
      ensures exists n :: n in handlers && c == HandlerCall(handlers[n], n / 16 * 256 + n % 16)
                          && (n in w.start || exists t :: n in w.late(t))
    {
      CalledFor(w, handlers, LAST, c);
      var n: nat :| n < LAST && Seen(w, n) && n in handlers && c == HandlerCall(handlers[n], Code(n));
      SeenWhy(w, n);
      var m :| -1 <= m < RegisterOf(n) && Raised(w, m, n);
      assert m >= 0 ==> n in w.late(m);
    }
  }

  lemma StartSeen(w: World, n: nat)
    requires Real(w) && n in w.start
    ensures Seen(w, n) && n < LAST
  {
    assert Raised(w, -1, n);
    SeenWhy(w, n);
  }

  lemma ServedOnce(w: World, handlers: map<nat, nat>, n: nat)
    requires Real(w) && n in w.start && n in handlers
    ensures OnceIn(CallsAt(w, handlers, LAST), HandlerCall(handlers[n], n / 16 * 256 + n % 16))
  {
    var calls, c := CallsAt(w, handlers, LAST), HandlerCall(handlers[n], Code(n));
    StartSeen(w, n);
    CalledFor(w, handlers, LAST, c);
    CalledInOrder(w, handlers, LAST);
    var i :| 0 <= i < |calls| && calls[i] == c;
    assert OnceAt(calls, c, i);
  }

  lemma TakenAway(w: World, n: nat)
    requires Real(w) && n in w.start && forall t :: n !in w.late(t)
    ensures n !in PendingAt(w, LAST)
  {
    StartSeen(w, n);
    PendingWhy(w, LAST, n);
    forall m | -1 <= m < LAST && Raised(w, m, n) ensures !Kept(w, m, LAST, n) {
      assert m == -1;
      assert Seen(w, n) && Takes(w.chip, n, n);
    }
  }

  lemma {:induction false} PendingReal(w: World, t: nat)
    requires Real(w)
    ensures forall n :: n in PointAt(w, t).pending || n in PointAt(w, t).status ==> Line(w.chip, n)
  {
    if t > 0 { PendingReal(w, t - 1); }
  }

  /** What the status register holds when it is read. */
  lemma SeenInStatus(w: World, reg: nat)
    requires Real(w)
    ensures forall b :: 0 <= b < 16 ==>
      (Seen(w, At(reg, b)) <==> reg < Registers(w.chip) && At(reg, b) in PendingAt(w, reg * 16))
  {
    PendingReal(w, reg * 16);
    forall b | 0 <= b < 16
      ensures Seen(w, At(reg, b)) <==> reg < Registers(w.chip) && At(reg, b) in PendingAt(w, reg * 16)
    {
      AtIs(reg, b);
      StatusIs(w, At(reg, b));
    }
  }
}
