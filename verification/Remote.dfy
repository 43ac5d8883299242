/** Key events made from two infrared remotes that share one key-up timer. */
module Remote {

  // ---------------------------------------------------------------- key events

  /** A key is named by its row in the key map; all rows have different key codes. */
  type Key = k: int | 0 <= k < 32

  datatype Event = Pressed(key: Key) | Repeated(key: Key) | Released(key: Key)

  /** What a stream of events amounts to. */
  datatype Reading = Garbled | Up | Down(key: Key)

  function Next(r: Reading, e: Event): Reading {
    match e
    case Pressed(k) => if r == Up then Down(k) else Garbled
    case Repeated(k) => if r == Down(k) then r else Garbled
    case Released(k) => if r == Down(k) then Up else Garbled
  }

  function Read(log: seq<Event>): Reading {
    if log == [] then Up else Next(Read(log[..|log| - 1]), log[|log| - 1])
  }

  /** One press of a key, with as many repetitions as it was held. */
  datatype Stroke = Stroke(key: Key, repeats: nat)

  function Holding(key: Key, repeats: nat): seq<Event> {
    if repeats == 0 then [Pressed(key)] else Holding(key, repeats - 1) + [Repeated(key)]
  }

  function Typed(strokes: seq<Stroke>): seq<Event> {
    if strokes == [] then []
    else
      var s := strokes[|strokes| - 1];
      Typed(strokes[..|strokes| - 1]) + Holding(s.key, s.repeats) + [Released(s.key)]
  }

  lemma ReadOn(log: seq<Event>, e: Event)
    ensures Read(log + [e]) == Next(Read(log), e)
  {
    assert (log + [e])[..|log|] == log;
  }

  lemma {:induction false} ReadHolding(log: seq<Event>, key: Key, repeats: nat)
    requires Read(log) == Up
    ensures Read(log + Holding(key, repeats)) == Down(key)
  {
    if repeats == 0 {
      ReadOn(log, Pressed(key));
    } else {
      ReadHolding(log, key, repeats - 1);
      ReadOn(log + Holding(key, repeats - 1), Repeated(key));
      assert log + Holding(key, repeats) == log + Holding(key, repeats - 1) + [Repeated(key)];
    }
  }

  lemma {:induction false} TypedIsUp(strokes: seq<Stroke>)
    ensures Read(Typed(strokes)) == Up
  {
    if strokes != [] {
      var before, s := strokes[..|strokes| - 1], strokes[|strokes| - 1];
      TypedIsUp(before);
      ReadHolding(Typed(before), s.key, s.repeats);
      ReadOn(Typed(before) + Holding(s.key, s.repeats), Released(s.key));
    }
  }

  /** The strokes of a stream: complete ones, and how often the key still held was repeated. */
  lemma {:induction false} Strokes(log: seq<Event>) returns (strokes: seq<Stroke>, repeats: nat)
    requires Read(log) != Garbled
    ensures Read(log) == Up ==> log == Typed(strokes)
    ensures Read(log).Down? ==> log == Typed(strokes) + Holding(Read(log).key, repeats)
  {
    strokes, repeats := [], 0;
    if log != [] {
      var before, e := log[..|log| - 1], log[|log| - 1];
      strokes, repeats := Strokes(before);
      assert log == before + [e];
      match e
      case Pressed(k) =>
        repeats := 0;
      case Repeated(k) =>
        repeats := repeats + 1;
        assert log == Typed(strokes) + (Holding(k, repeats - 1) + [Repeated(k)]);
      case Released(k) =>
        var all := strokes + [Stroke(k, repeats)];
        assert all[..|all| - 1] == strokes;
        strokes := all;
    }
  }

  /** A stream leaves every key up exactly when it is a concatenation of whole strokes. */
  lemma UpIsTyped(log: seq<Event>)
    ensures Read(log) == Up <==> exists strokes :: log == Typed(strokes)
  {
    if Read(log) == Up {
      var strokes, _ := Strokes(log);
    }
    forall strokes | log == Typed(strokes) ensures Read(log) == Up {
      TypedIsUp(strokes);
    }
  }

  // ---------------------------------------------------------------- the key map

  const ROWS: nat := 32

  /** The code each row has on the new remote, and its low byte on the old one. */
  function ValueNew(k: Key): nat {
    if k < 25 then k else if k < 30 then k + 2 else if k == 30 then 0x19 else 0x1A
  }

  function ValueOld(k: Key): nat {
    match k
    case 0 => 0x00 case 1 => 0x01 case 2 => 0x02 case 3 => 0x03
    case 4 => 0x04 case 5 => 0x05 case 6 => 0x06 case 7 => 0x07
    case 8 => 0x08 case 9 => 0x09 case 10 => 0x2E case 11 => 0x2F
    case 12 => 0x0E case 13 => 0x0F case 14 => 0x30 case 15 => 0x28
    case 16 => 0x0C case 17 => 0x55 case 18 => 0x52 case 19 => 0x2D
    case 20 => 0x3B case 21 => 0x16 case 22 => 0x17 case 23 => 0x82
    case 24 => 0x27 case 25 => 0xFF case 26 => 0xFB case 27 => 0xFD
    case 28 => 0xFC case 29 => 0x20 case 30 => 0x53 case 31 => 0x54
  }

  /** The map row by row: the code on the new remote and the low byte on the old one. */
  lemma KeyMap(k: Key)
    ensures [ValueNew(k), ValueOld(k)] ==
      [[0x00, 0x00], [0x01, 0x01], [0x02, 0x02], [0x03, 0x03], [0x04, 0x04], [0x05, 0x05], [0x06, 0x06], [0x07, 0x07],
       [0x08, 0x08], [0x09, 0x09], [0x0A, 0x2E], [0x0B, 0x2F], [0x0C, 0x0E], [0x0D, 0x0F], [0x0E, 0x30], [0x0F, 0x28],
       [0x10, 0x0C], [0x11, 0x55], [0x12, 0x52], [0x13, 0x2D], [0x14, 0x3B], [0x15, 0x16], [0x16, 0x17], [0x17, 0x82],
       [0x18, 0x27], [0x1B, 0xFF], [0x1C, 0xFB], [0x1D, 0xFD], [0x1E, 0xFC], [0x1F, 0x20], [0x19, 0x53],
       [0x1A, 0x54]][k]
  {
  }

  const BREAK: nat := 0x5CFE
  const NO_TOGGLE: nat := 0xFF

  /** The codes of each remote tell the keys apart, and the break code is no key's. */
  lemma CodesDiffer()
    ensures forall j: Key, k: Key :: ValueNew(j) == ValueNew(k) ==> j == k
    ensures forall j: Key, k: Key :: ValueOld(j) == ValueOld(k) ==> j == k
    ensures forall k: Key :: ValueOld(k) != BREAK % 0x100
    ensures KeyOld(BREAK % 0x100) == None
    ensures forall k: Key :: KeyOld(ValueOld(k)) == Some(k)
  {
    forall j: Key, k: Key | ValueOld(j) == ValueOld(k) ensures j == k { OldDiffer(j, k); }
  }

  lemma FoundOld(k: Key)
    ensures KeyOld(ValueOld(k)) == Some(k)
  {
    CodesDiffer();
  }

  /** A code is the held key's exactly if it finds that key. */
  lemma OldKeyOf(held: Option<Key>, low: nat)
    ensures held.Some? ==> (low == ValueOld(held.value) <==> KeyOld(low) == held)
    ensures KeyOld(BREAK % 0x100) == None
  {
    CodesDiffer();
  }

  lemma OldDiffer(j: Key, k: Key)
    requires ValueOld(j) == ValueOld(k)
    ensures j == k
  {
  }

  datatype Option<T> = None | Some(value: T)

  ghost function KeyOld(low: nat): Option<Key> {
    if exists k: Key :: ValueOld(k) == low then
      var k: Key :| ValueOld(k) == low;
      Some(k)
    else
      None
  }

  function KeyNew(code: nat): Key
    requires code < 32
  {
    if code < 25 then code else if code == 0x19 then 30 else if code == 0x1A then 31 else code - 2
  }

  /** Every code of the new remote is some key's. */
  lemma NewCodesComplete(code: nat, k: Key)
    requires code < 32
    ensures ValueNew(k) == code <==> k == KeyNew(code)
  {
  }

  function Letting(held: Option<Key>): seq<Event> {
    if held.Some? then [Released(held.value)] else []
  }

  /** What a code of the old remote is to add: the held key's repeats it, anything else releases it. */
  ghost function OldWrites(held: Option<Key>, code: nat): seq<Event> {
    var k := KeyOld(code % 0x100);
    if held.Some? && k == held then [Repeated(held.value)]
    else Letting(held) + if k.Some? then [Pressed(k.value)] else []
  }

  /** What a code of the new remote is to add: the held key's repeats it as long as the toggle bits stay. */
  function NewWrites(held: Option<Key>, toggle: nat, code: nat): seq<Event> {
    var k := KeyNew(code % 0x20);
    if held == Some(k) && toggle == code / 0x40 % 4 then [Repeated(k)] else Letting(held) + [Pressed(k)]
  }

  /** Whom the timer is to release a key for, when it is pending. */
  datatype Timer = Idle | ForOld | ForNew

  datatype Signal = OldCode(code: nat) | NewCode(code: nat) | Expiry

  datatype Setup = Setup(disableOld: bool, disableNew: bool, philipsPatch: bool)

  /** One remote as its user sees it: the key held with its toggle bits, the last code of a patched box, the events. */
  datatype Hand = Hand(held: Option<Key>, toggle: nat, previous: nat, log: seq<Event>)

  /** What a signal is to do with one remote enabled: each code writes what it should, and expiry lets go. */
  ghost function Heard(c: Setup, h: Hand, s: Signal): Hand {
    match s
    case OldCode(code) =>
      if c.disableOld then h
      else h.(held := KeyOld(code % 0x100), log := h.log + OldWrites(h.held, code))
    case NewCode(code) =>
      if c.disableNew then h
      else if c.philipsPatch && code % 0x20 != h.previous then h.(previous := code % 0x20)
      else Hand(Some(KeyNew(code % 0x20)), code / 0x40 % 4, h.previous, h.log + NewWrites(h.held, h.toggle, code))
    case Expiry => h.(held := None, toggle := NO_TOGGLE, log := h.log + Letting(h.held))
  }

  ghost function HeardAll(c: Setup, signals: seq<Signal>): Hand
    decreases |signals|
  {
    if signals == [] then Hand(None, NO_TOGGLE, 0, [])
    else Heard(c, HeardAll(c, signals[..|signals| - 1]), signals[|signals| - 1])
  }

  // ---------------------------------------------------------------- taking turns

  /** Whose key is down: nobody's, one's whose timer runs, the new remote's after a break code of the old one has
      stopped the timer, or the events have become no strokes at all. */
  datatype Holder = Nobody | OldHas(key: Key) | NewHas(key: Key, bits: nat) | Orphan(key: Key, bits: nat) | Mixed

  datatype Turns = Turns(holder: Holder, previous: nat)

  /** A key of the old remote must find the new one's keys up; a code without a key does no harm but for the break
      code. */
  ghost function OldTurn(h: Holder, code: nat): Holder {
    var k := KeyOld(code % 0x100);
    match h
    case Nobody | OldHas(_) => if k.Some? then OldHas(k.value) else Nobody
    case NewHas(key, bits) => if k.Some? then Mixed else if code == BREAK then Orphan(key, bits) else h
    case Orphan(_, _) => if k.Some? then Mixed else h
    case Mixed => Mixed
  }

  /** A key of the new remote must find the old one's keys up, and only the orphan itself can be picked up again. */
  function NewTurn(h: Holder, key: Key, bits: nat): Holder {
    match h
    case Nobody | NewHas(_, _) => NewHas(key, bits)
    case OldHas(_) => Mixed
    case Orphan(k, b) => if k == key && b == bits then NewHas(key, bits) else Mixed
    case Mixed => Mixed
  }

  function ExpiryTurn(h: Holder): Holder {
    if h.OldHas? || h.NewHas? then Nobody else h
  }

  ghost function Turn(c: Setup, h: Turns, s: Signal): Turns {
    match s
    case OldCode(code) => if c.disableOld then h else h.(holder := OldTurn(h.holder, code))
    case NewCode(code) =>
      if c.disableNew then h
      else if c.philipsPatch && code % 0x20 != h.previous then h.(previous := code % 0x20)
      else h.(holder := NewTurn(h.holder, KeyNew(code % 0x20), code / 0x40 % 4))
    case Expiry => h.(holder := ExpiryTurn(h.holder))
  }

  ghost function TurnAll(c: Setup, signals: seq<Signal>): Turns
    decreases |signals|
  {
    if signals == [] then Turns(Nobody, 0)
    else Turn(c, TurnAll(c, signals[..|signals| - 1]), signals[|signals| - 1])
  }

  /** Only one of the remotes is ever heard. */
  predicate Alone(c: Setup, signals: seq<Signal>) {
    || (forall s :: s in signals && s.OldCode? ==> c.disableOld)
    || (forall s :: s in signals && s.NewCode? ==> c.disableNew)
  }

  /** One remote alone never gets out of turn: with the other disabled, or enabled and silent. */
  lemma {:induction false} AloneInTurn(c: Setup, signals: seq<Signal>)
    requires Alone(c, signals)
    ensures var h := TurnAll(c, signals).holder; h.Nobody? || h.OldHas? || h.NewHas?
    ensures TurnAll(c, signals + [Expiry]).holder == Nobody
    ensures (forall s :: s in signals && s.OldCode? ==> c.disableOld) ==> !TurnAll(c, signals).holder.OldHas?
    ensures (forall s :: s in signals && s.NewCode? ==> c.disableNew) ==> !TurnAll(c, signals).holder.NewHas?
    decreases |signals|
  {
    assert (signals + [Expiry])[..|signals|] == signals;
    if signals != [] {
      var front := signals[..|signals| - 1];
      assert forall s :: s in front ==> s in signals;
      AloneInTurn(c, front);
    }
  }

  // ---------------------------------------------------------------- the driver

  class Receiver {
    const disableOld: bool
    const disableNew: bool
    const philipsPatch: bool
    var lastOld: Option<Key>
    var lastNew: Option<Key>
    var toggle: nat
    var previous: nat
    var timer: Timer
    var log: seq<Event>

    ghost predicate NewSound()
      reads this
    {
      (lastNew.Some? ==> timer.ForNew? && toggle < 4) && (lastNew.Some? <==> toggle != NO_TOGGLE)
    }

    ghost function Held(): Option<Key>
      reads this
    {
      if disableOld then lastNew else lastOld
    }

    /** As long as the events are strokes, one remote at most holds a key, and its timer runs unless a break code has
        stopped it. */
    ghost predicate InOrder()
      reads this
    {
      Read(log) != Garbled ==>
        && Read(log) == (if lastOld.Some? then Down(lastOld.value)
                         else if lastNew.Some? then Down(lastNew.value) else Up)
        && (if lastNew.Some? then lastOld.None? && toggle < 4 else toggle == NO_TOGGLE)
        && (if lastOld.Some? then timer.ForOld? else if lastNew.Some? then !timer.ForOld? else timer.Idle?)
    }

    ghost function Standing(): Holder
      reads this
    {
      if Read(log) == Garbled then Mixed
      else if lastOld.Some? then OldHas(lastOld.value)
      else if lastNew.None? then Nobody
      else if timer.Idle? then Orphan(lastNew.value, toggle) else NewHas(lastNew.value, toggle)
    }

    /** With one remote enabled, the timer is pending exactly while a key is down. */
    ghost predicate Valid()
      reads this
    {
      (disableOld || disableNew) && InOrder()
      && match Standing()
         case Nobody => true
         case OldHas(_) => !disableOld
         case NewHas(_, _) => !disableNew
         case _ => false
    }

    /** Key k is down and nothing is left that would release it. */
    ghost predicate Astray(k: Key)
      reads this
    {
      k in KeysDown(log) && lastOld.None? && !timer.ForOld? && (lastNew == Some(k) ==> timer.Idle?)
    }

    constructor (disableOld: bool, disableNew: bool, philipsPatch: bool)
      ensures disableOld || disableNew ==> Valid()
      ensures InOrder() && Standing() == Nobody
      ensures this.disableOld == disableOld && this.disableNew == disableNew && this.philipsPatch == philipsPatch
      ensures lastOld == lastNew == None && toggle == NO_TOGGLE && timer == Idle && log == [] && previous == 0
    {
      this.disableOld, this.disableNew, this.philipsPatch := disableOld, disableNew, philipsPatch;
      lastOld, lastNew, toggle, previous := None, None, NO_TOGGLE, 0;
      timer, log := Idle, [];
    }

    method Input(e: Event)
      modifies `log
      ensures log == old(log) + [e] && Read(log) == Next(Read(old(log)), e)
      ensures KeysDown(log) == Noted(KeysDown(old(log)), e)
    {
      ReadOn(log, e);
      KeysOn(log, e);
      log := log + [e];
    }

    /** The timer expires, if it is pending. */
    method KeyUp()
      modifies `lastOld, `lastNew, `toggle, `timer, `log
      ensures timer == Idle
      ensures old(timer).ForNew? && old(lastNew).Some? && old(lastNew).value in KeysDown(old(log)) ==>
        lastOld == old(lastOld) && log == old(log) + [Released(old(lastNew).value)]
      ensures old(Valid()) ==> Valid() && Read(log) == Up && log == old(log) + Letting(old(Held()))
      ensures old(InOrder()) ==> InOrder() && Standing() == ExpiryTurn(old(Standing()))
      ensures forall k: Key :: old(Astray(k)) ==> Astray(k)
    {
      if Read(log) != Garbled { KeysRead(log); }
      var due := timer;
      timer := Idle;
      if due.ForOld? {
        if lastOld.None? || lastOld.value !in KeysDown(log) { return; }
        Input(Released(lastOld.value));
        lastOld := None;
      }
      if due.ForNew? {
        if lastNew.None? || lastNew.value !in KeysDown(log) { return; }
        toggle := NO_TOGGLE;
        Input(Released(lastNew.value));
        lastNew := None;
      }
    }

    /** The old remote's key, if one is held, is released and the timer stopped. */
    method LetGo()
      modifies `lastOld, `timer, `log
      ensures timer == Idle && lastOld == None && log == old(log) + Letting(old(lastOld))
      ensures Read(log) ==
        if old(lastOld).Some? then Next(Read(old(log)), Released(old(lastOld).value)) else Read(old(log))
    {
      timer := Idle;
      if lastOld.Some? {
        Input(Released(lastOld.value));
        lastOld := None;
      }
    }

    method Old(code: nat)
      modifies `lastOld, `timer, `log
      ensures disableOld ==> unchanged(this)
      ensures !disableOld ==> log == old(log) + OldWrites(old(lastOld), code) && lastOld == KeyOld(code % 0x100)
      ensures !disableOld && lastOld.Some? ==> timer == ForOld
      ensures !disableOld && old(InOrder()) ==> InOrder() && Standing() == OldTurn(old(Standing()), code)
      ensures !disableOld && code == BREAK ==> timer == Idle
      ensures old(Valid()) ==> Valid()
    {
      if disableOld { return; }
      OldKeyOf(lastOld, code % 0x100);
      if code == BREAK || (lastOld.Some? && code % 0x100 != ValueOld(lastOld.value)) {
        LetGo();
        if code == BREAK { return; }
      }
      var row := FindOld(code % 0x100);
      if row < ROWS { Make(row); }
    }

    static method FindOld(low: nat) returns (row: nat)
      ensures KeyOld(low) == if row < ROWS then Some(row) else None
    {
      row := 0;
      while row < ROWS
        invariant 0 <= row <= ROWS
        invariant forall k: Key {:trigger ValueOld(k)} :: k < row ==> ValueOld(k) != low
      {
        if ValueOld(row) == low {
          CodesDiffer();
          return;
        }
        row := row + 1;
      }
    }

    /** The key of the code just found in the map. */
    method Make(k: Key)
      modifies `lastOld, `timer, `log
      ensures lastOld == Some(k) && timer == ForOld
      ensures log == old(log) + [if old(lastOld) == Some(k) then Repeated(k) else Pressed(k)]
      ensures Read(log) == Next(Read(old(log)), log[|log| - 1])
    {
      if lastOld == Some(k) {
        Input(Repeated(k));
      } else {
        Input(Pressed(k));
        lastOld := Some(k);
      }
      timer := ForOld;
    }

    method New(code: nat)
      modifies `lastNew, `toggle, `previous, `timer, `log
      ensures disableNew ==> unchanged(this)
      ensures previous == if !disableNew && philipsPatch then code % 0x20 else old(previous)
      ensures philipsPatch && code % 0x20 != old(previous) ==> unchanged(`lastNew, `toggle, `timer, `log)
      ensures !disableNew && !(philipsPatch && code % 0x20 != old(previous)) && old(NewSound()) ==>
        NewSound() && lastNew == Some(KeyNew(code % 0x20)) && toggle == code / 0x40 % 4
        && log == old(log) + NewWrites(old(lastNew), old(toggle), code)
      ensures !disableNew && !(philipsPatch && code % 0x20 != old(previous)) && old(InOrder()) ==>
        InOrder() && Standing() == NewTurn(old(Standing()), KeyNew(code % 0x20), code / 0x40 % 4)
      ensures forall k: Key :: old(Astray(k)) && k != KeyNew(code % 0x20) ==> Astray(k)
      ensures old(Valid()) ==> Valid()
    {
      if disableNew { return; }
      if philipsPatch && code % 0x20 != previous {
        previous := code % 0x20;
        return;
      }
      label L:
      var k := KeyNew(code % 0x20);
      var row := 0;
      while row < ROWS
        invariant 0 <= row <= ROWS
        invariant row <= k ==> unchanged@L(this)
        invariant row > k ==> unchanged@L(`previous) && Struck@L(k, code / 0x40 % 4)
      {
        NewCodesComplete(code % 0x20, row);
        if ValueNew(row) == code % 0x20 { Strike(row, code / 0x40 % 4); }
        row := row + 1;
      }
    }

    /** What one matching row of the map does. */
    twostate predicate Struck(k: Key, bits: nat)
      reads this
    {
      (old(NewSound()) ==>
        NewSound() && toggle == bits && lastNew == Some(k)
        && log == old(log) + (if old(lastNew) == Some(k) && old(toggle) == bits then [Repeated(k)]
                              else Letting(old(lastNew)) + [Pressed(k)]))
      && (old(InOrder()) ==> InOrder() && Standing() == NewTurn(old(Standing()), k, bits))
      && (forall j: Key :: old(Astray(j)) && j != k ==> Astray(j))
    }

    method Strike(row: Key, bits: nat)
      requires bits < 4
      modifies `lastNew, `toggle, `timer, `log
      ensures Struck(row, bits)
    {
      if timer != Idle { StopTimer(row, bits); }
      Type(row, bits);
    }

    /** The key itself: repeated if nothing has let go of these toggle bits, pressed otherwise. */
    method Type(row: Key, bits: nat)
      modifies `lastNew, `toggle, `timer, `log
      ensures lastNew == Some(row) && toggle == bits && timer == ForNew
      ensures var e := if old(toggle) != NO_TOGGLE && old(toggle) == bits then Repeated(row) else Pressed(row);
        && log == old(log) + [e] && Read(log) == Next(Read(old(log)), e)
        && KeysDown(log) == Noted(KeysDown(old(log)), e)
    {
      if toggle != NO_TOGGLE && toggle == bits {
        Input(Repeated(row));
      } else {
        Input(Pressed(row));
      }
      lastNew, toggle := Some(row), bits;
      timer := ForNew;
    }

    /** Another key or other toggle bits let go of the key held. */
    method StopTimer(row: Key, bits: nat)
      modifies `toggle, `timer, `log
      ensures var goes := lastNew.Some? && (lastNew.value != row || old(toggle) != bits) && old(toggle) != NO_TOGGLE;
        && toggle == (if goes then NO_TOGGLE else old(toggle))
        && log == old(log) + (if goes then [Released(lastNew.value)] else [])
        && Read(log) == (if goes then Next(Read(old(log)), Released(lastNew.value)) else Read(old(log)))
        && KeysDown(log) == if goes then KeysDown(old(log)) - {lastNew.value} else KeysDown(old(log))
    {
      timer := Idle;
      if lastNew.Some? {
        if lastNew.value != row || toggle != bits {
          if toggle != NO_TOGGLE {
            Input(Released(lastNew.value));
            toggle := NO_TOGGLE;
          }
        }
      }
    }

    ghost function Now(): Hand
      reads this
    {
      Hand(Held(), toggle, previous, log)
    }

    ghost function Setting(): Setup { Setup(disableOld, disableNew, philipsPatch) }

    /** The driver is where these signals lead. */
    ghost predicate Follows(signals: seq<Signal>)
      reads this
    {
      Valid() && Now() == HeardAll(Setting(), signals)
    }

    method ReceiveNext(s: Signal, ghost signals: seq<Signal>)
      requires Follows(signals)
      modifies this
      ensures Follows(signals + [s]) && (s.Expiry? ==> timer == Idle && Read(log) == Up)
    {
      assert (signals + [s])[..|signals|] == signals;
      Take(s);
    }

    /** The driver is where taking turns leads. */
    ghost predicate Keeps(signals: seq<Signal>)
      reads this
    {
      InOrder() && Turns(Standing(), previous) == TurnAll(Setting(), signals)
    }

    method TakeNext(s: Signal, ghost signals: seq<Signal>)
      requires Keeps(signals)
      modifies this
      ensures Keeps(signals + [s]) && (s.Expiry? ==> timer == Idle)
    {
      assert (signals + [s])[..|signals|] == signals;
      Take(s);
    }

    method Take(s: Signal)
      modifies this
      ensures old(Valid()) ==>
        Valid() && Now() == Heard(Setting(), old(Now()), s) && (s.Expiry? ==> timer == Idle && Read(log) == Up)
      ensures old(InOrder()) ==>
        InOrder() && Turns(Standing(), previous) == Turn(Setting(), Turns(old(Standing()), old(previous)), s)
      ensures s.Expiry? ==> timer == Idle
    {
      match s
      case OldCode(code) => Old(code);
      case NewCode(code) => New(code);
      case Expiry => KeyUp();
    }
  }

  // ---------------------------------------------------------------- keys down

  function Noted(keys: set<Key>, e: Event): set<Key> {
    match e
    case Pressed(k) => keys + {k}
    case Repeated(_) => keys
    case Released(k) => keys - {k}
  }

  /** The keys the input layer takes to be down. */
  function KeysDown(log: seq<Event>): set<Key> {
    if log == [] then {} else Noted(KeysDown(log[..|log| - 1]), log[|log| - 1])
  }

  lemma {:induction false} KeysRead(log: seq<Event>)
    requires Read(log) != Garbled
    ensures KeysDown(log) == if Read(log).Down? then {Read(log).key} else {}
  {
    if log != [] { KeysRead(log[..|log| - 1]); }
  }

  // ---------------------------------------------------------------- runs

  /** With one remote enabled: whatever is received makes the events it should, and once the timer has expired they are
      whole strokes. */
  method Run(disableOld: bool, disableNew: bool, philipsPatch: bool, signals: seq<Signal>) returns (r: Receiver)
    requires disableOld || disableNew
    ensures fresh(r) && r.Valid() && r.timer == Idle && KeysDown(r.log) == {}
    ensures r.Setting() == Setup(disableOld, disableNew, philipsPatch) && r.Follows(signals + [Expiry])
    ensures exists strokes :: r.log == Typed(strokes)
  {
    r := new Receiver(disableOld, disableNew, philipsPatch);
    for i := 0 to |signals|
      invariant r.Follows(signals[..i])
    {
      r.ReceiveNext(signals[i], signals[..i]);
      assert signals[..i + 1] == signals[..i] + [signals[i]];
    }
    assert signals[..|signals|] == signals;
    r.ReceiveNext(Expiry, signals);
    UpIsTyped(r.log);
    KeysRead(r.log);
  }

  /** Exactly, for all settings: once the timer has expired the events are whole strokes if and only if the remotes have
      kept to their turns. */
  method RunAny(disableOld: bool, disableNew: bool, philipsPatch: bool, signals: seq<Signal>) returns (r: Receiver)
    ensures fresh(r) && r.timer == Idle && r.Setting() == Setup(disableOld, disableNew, philipsPatch)
    ensures r.Keeps(signals + [Expiry])
    ensures (exists strokes :: r.log == Typed(strokes)) <==> TurnAll(r.Setting(), signals + [Expiry]).holder == Nobody
  {
    r := new Receiver(disableOld, disableNew, philipsPatch);
    for i := 0 to |signals|
      invariant r.Keeps(signals[..i])
    {
      r.TakeNext(signals[i], signals[..i]);
      assert signals[..i + 1] == signals[..i] + [signals[i]];
    }
    assert signals[..|signals|] == signals;
    r.TakeNext(Expiry, signals);
    UpIsTyped(r.log);
  }

  /** A break code of the old remote while a key is held on the new one: whatever other keys of the new remote send
      after that, and however often the timer expires, the key stays down. */
  method DownForGood(philipsPatch: bool, first: Key, codes: seq<nat>) returns (r: Receiver)
    requires forall c :: c in codes ==> KeyNew(c % 0x20) != first
    ensures fresh(r) && !r.disableOld && !r.disableNew && r.philipsPatch == philipsPatch
    ensures r.timer == Idle && first in KeysDown(r.log)
    ensures !exists strokes :: r.log == Typed(strokes)
  {
    r := new Receiver(false, false, philipsPatch);
    TakeOver(r, first);
    r.Old(BREAK);
    assert r.log == [] + [Pressed(first)] + OldWrites(None, BREAK);
    CodesDiffer();
    KeysOn([], Pressed(first));
    for i := 0 to |codes|
      invariant r.Astray(first) && r.timer == Idle
    {
      r.New(codes[i]);
      r.KeyUp();
    }
    if Read(r.log) == Up { KeysRead(r.log); }
    UpIsTyped(r.log);
  }

  /** With both enabled, patched or not, a key of the new remote takes the timer from the one held on the old: it stays
      down with no timer pending, until the old remote sends a code again. */
  method StuckKey(philipsPatch: bool, first: Key, second: Key) returns (r: Receiver)
    requires first != second
    ensures fresh(r) && !r.disableOld && !r.disableNew && r.philipsPatch == philipsPatch
    ensures r.timer == Idle && KeysDown(r.log) == {first}
    ensures !exists strokes :: r.log == Typed(strokes)
  {
    r := new Receiver(false, false, philipsPatch);
    HoldOld(r, first);
    TakeOver(r, second);
    OneLeft(first, second);
    r.KeyUp();
    UpIsTyped(r.log);
  }

  method HoldOld(r: Receiver, first: Key)
    requires !r.disableOld && r.lastOld == r.lastNew == None && r.toggle == NO_TOGGLE && r.log == []
    modifies r`lastOld, r`timer, r`log
    ensures r.log == [] + [Pressed(first)]
  {
    FirstPress(first);
    r.Old(ValueOld(first));
  }

  method TakeOver(r: Receiver, second: Key)
    requires !r.disableNew && r.lastNew == None && r.toggle == NO_TOGGLE && r.previous == 0
    modifies r`lastNew, r`toggle, r`previous, r`timer, r`log
    ensures r.log == old(r.log) + [Pressed(second)] && r.lastNew == Some(second) && r.timer == ForNew
  {
    FirstPress(second);
    if r.philipsPatch && ValueNew(second) != 0 { r.New(ValueNew(second)); } // the patch waits for a second code
    r.New(ValueNew(second));
  }

  lemma FirstPress(k: Key)
    ensures OldWrites(None, ValueOld(k)) == [Pressed(k)] && KeyOld(ValueOld(k) % 0x100) == Some(k)
    ensures NewWrites(None, NO_TOGGLE, ValueNew(k)) == [Pressed(k)] && KeyNew(ValueNew(k) % 0x20) == k
  {
    FoundOld(k);
    NewCodesComplete(ValueNew(k), k);
  }

  lemma OneLeft(first: Key, second: Key)
    requires first != second
    ensures var both := [] + [Pressed(first)] + [Pressed(second)];
      KeysDown(both) == {first, second} && KeysDown(both + [Released(second)]) == {first}
      && Read(both + [Released(second)]) == Garbled
  {
    var one, both := [] + [Pressed(first)], [] + [Pressed(first)] + [Pressed(second)];
    KeysOn([], Pressed(first)); KeysOn(one, Pressed(second)); KeysOn(both, Released(second));
    ReadOn([], Pressed(first)); ReadOn(one, Pressed(second)); ReadOn(both, Released(second));
  }

  lemma KeysOn(log: seq<Event>, e: Event)
    ensures KeysDown(log + [e]) == Noted(KeysDown(log), e)
  {
    assert (log + [e])[..|log|] == log;
  }
}
