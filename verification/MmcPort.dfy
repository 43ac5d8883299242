/** The port registers behind the card slot: taking the pins over, giving them back, and moving bytes over SPI. */
module MmcPort {
  import opened Common
  import opened SpiWire

  /** A register is the set of its one bits, by number: `|` is union, `& ~` is difference. */
  type Reg = set<nat>

  const PA07: nat := 8   // 0x0100, answer line, wiring 1
  const PA08: nat := 7   // 0x0080, data line, wiring 2
  const PA09: nat := 6   // 0x0040, answer line, wiring 2
  const PB16: nat := 15  // 0x8000, chip select, wirings 2 and 4
  const PB17: nat := 14  // 0x4000, clock, wirings 2 and 4
  const PB18: nat := 13  // 0x2000, answer line, wiring 4
  const PB19: nat := 12  // 0x1000, data line, wirings 1 and 4
  const PB22: nat := 9   // 0x0200, clock, wiring 1
  const PB23: nat := 8   // 0x0100, chip select, wiring 1

  datatype Wiring = One | Two | Four

  datatype Hard = Untouched | Taken(w: Wiring)

  datatype Lines = Lines(cs: bool, clk: bool, di: bool)

  /** What a change of the three driven lines looks like to the card. */
  function Edges(was: Lines, now: Lines): History {
    (if was.cs != now.cs then [Select(now.cs)] else [])
    + (if !was.clk && now.clk then [if was.di == now.di then Rise(now.di) else Race] else [])
  }

  function ClkPin(w: Wiring): nat { if w.One? then PB22 else PB17 }
  function CsPin(w: Wiring): nat { if w.One? then PB23 else PB16 }
  function DiPin(w: Wiring): nat { if w.Two? then PA08 else PB19 }

  /** The pins a wiring uses, and among them those it drives. */
  function UsedA(w: Wiring): Reg {
    match w case One => {PA07} case Two => {PA08, PA09} case Four => {}
  }

  function UsedB(w: Wiring): Reg {
    match w case One => {PB19, PB22, PB23} case Two => {PB16, PB17} case Four => {PB16, PB17, PB18, PB19}
  }

  /** In bit numbers: what another device must not have for a wiring to be taken. */
  lemma PinsUsed(w: Wiring)
    ensures w.One? ==> UsedA(w) == {8} && UsedB(w) == {8, 9, 12}
    ensures w.Two? ==> UsedA(w) == {6, 7} && UsedB(w) == {14, 15}
    ensures w.Four? ==> UsedA(w) == {} && UsedB(w) == {12, 13, 14, 15}
  {
  }

  function OwnA(w: Wiring): Reg { if w.Two? then {PA08} else {} }

  function OwnB(w: Wiring): Reg {
    match w case One => {PB19, PB22, PB23} case Two => {PB16, PB17} case Four => {PB16, PB17, PB19}
  }

  /** The four registers of one port. */
  datatype Bank = Bank(par: Reg, odr: Reg, dir: Reg, dat: Reg)
  {
    /** The pins that drive what the data latch holds: general purpose and output. */
    function Out(): Reg { dir - par }

    /** Equal in every configuration bit and in every level driven. */
    ghost predicate Same(that: Bank) {
      && par == that.par && odr == that.odr && dir == that.dir
      && forall p :: p in Out() ==> (p in dat <==> p in that.dat)
    }
  }

  /** The eight port registers. */
  datatype Regs = Regs(a: Bank, b: Bank)
  {
    ghost predicate Same(that: Regs) { a.Same(that.a) && b.Same(that.b) }

    /** The answer-line pin of this wiring has no setting that taking it over would lose. */
    predicate Spare(w: Wiring) {
      match w
      case One => true
      case Two => PA09 !in a.Out()
      case Four => PB18 !in b.dir
    }
  }

  /** What there was before: bits to be set again, and (`0`) bits to be cleared again. */
  datatype Saved = Saved(par: Reg, odr: Reg, di0: Reg, di1: Reg, da0: Reg, da1: Reg)

  /** What giving the pins of wiring `w` back can restore: wiring 4 forgets that PB18 was an output, and wiring 2
      leaves in PA09's latch the level `high` it last read there. */
  function Lost(orig: Regs, w: Wiring, high: bool): Regs {
    match w
    case One => orig
    case Two => orig.(a := LostLatch(orig.a, high))
    case Four => orig.(b := orig.b.(dir := orig.b.dir - {PB18}))
  }

  function LostLatch(orig: Bank, high: bool): Bank {
    if PA09 !in orig.Out() then orig
    else orig.(dat := if high then orig.dat + {PA09} else orig.dat - {PA09})
  }

  /** Nothing is lost, whatever the card answered, exactly when the answer-line pin was spare. */
  lemma LostNothing(orig: Regs, w: Wiring)
    ensures (forall high :: Lost(orig, w, high).Same(orig)) <==> orig.Spare(w)
    ensures orig.Spare(w) ==> forall high :: Lost(orig, w, high) == orig
  {
    if orig.Spare(w) {
      assert w.Four? ==> orig.b.dir - {PB18} == orig.b.dir;
    } else if w.Two? {
      var other := Lost(orig, w, PA09 !in orig.a.dat);
      assert PA09 in other.a.Out();
      assert !other.Same(orig);
    } else {
      assert PB18 !in Lost(orig, w, true).b.dir;
    }
  }

  /** For one pin: clearing and setting it again according to `s` brings `r` back to `orig`. */
  predicate OwesPin(used: Reg, own: Reg, r: Bank, s: Saved, orig: Bank, p: nat) {
    && (p in orig.par <==> p in r.par || p in s.par)
    && (p in orig.odr <==> p in r.odr || p in s.odr)
    && (p in orig.dir <==> (p in r.dir && p !in s.di0) || p in s.di1)
    && (p in orig.Out() ==> (p in orig.dat <==> (p in r.dat && p !in s.da0) || p in s.da1))
    && (p in s.par || p in s.di0 || p in s.di1 ==> p in used)
    && (p in own <==> p in s.da0 || p in s.da1)
  }

  ghost predicate OwesBank(used: Reg, own: Reg, r: Bank, s: Saved, orig: Bank) {
    forall p :: OwesPin(used, own, r, s, orig, p)
  }

  /** Giving the pins of `w` back according to `sa` and `sb` makes `r` the same as `orig`. */
  ghost predicate Owes(w: Wiring, r: Regs, sa: Saved, sb: Saved, orig: Regs) {
    OwesBank(UsedA(w), OwnA(w), r.a, sa, orig.a) && OwesBank(UsedB(w), OwnB(w), r.b, sb, orig.b)
  }

  /** What transfers leave alone: all but the data latches of the wiring's own pins and of pins that do not drive. */
  function Beyond(w: Wiring, r: Regs): Regs {
    Regs(r.a.(dat := if w.Two? then r.a.dat * (r.a.Out() - {PA08}) else r.a.dat),
         r.b.(dat := r.b.dat * (r.b.Out() - OwnB(w))))
  }

  /** Transfers do not change what is owed, except for PA09's latch in wiring 2. */
  lemma TrafficOwes(w: Wiring, r: Regs, q: Regs, sa: Saved, sb: Saved, orig: Regs)
    requires Beyond(w, r) == Beyond(w, q) && Owes(w, r, sa, sb, Lost(orig, w, PA09 in r.a.dat))
    ensures Owes(w, q, sa, sb, Lost(orig, w, PA09 in q.a.dat))
  {
    var was, now := Lost(orig, w, PA09 in r.a.dat), Lost(orig, w, PA09 in q.a.dat);
    assert Beyond(w, r).a.par == Beyond(w, q).a.par && Beyond(w, r).b.par == Beyond(w, q).b.par;
    forall p ensures OwesPin(UsedA(w), OwnA(w), q.a, sa, now.a, p) {
      assert OwesPin(UsedA(w), OwnA(w), r.a, sa, was.a, p);
      assert p in Beyond(w, r).a.dat <==> p in Beyond(w, q).a.dat;
    }
    forall p ensures OwesPin(UsedB(w), OwnB(w), q.b, sb, now.b, p) {
      assert OwesPin(UsedB(w), OwnB(w), r.b, sb, was.b, p);
      assert p in Beyond(w, r).b.dat <==> p in Beyond(w, q).b.dat;
    }
  }

  /** The values a writer computes before its loop. */
  datatype Caches14 = Caches14(cldl: Reg, cldh: Reg, chdl: Reg, chdh: Reg)
  {
    function At(clk: bool, di: bool): Reg {
      if clk then (if di then chdh else chdl) else if di then cldh else cldl
    }
  }

  datatype Caches2 = Caches2(clkLow: Reg, clkHigh: Reg, dataLow: Reg, dataHigh: Reg)
  {
    function Clock(clk: bool): Reg { if clk then clkHigh else clkLow }
    function Data(di: bool): Reg { if di then dataHigh else dataLow }
  }

  datatype Clocks = Clocks(low: Reg, high: Reg)
  {
    function At(clk: bool): Reg { if clk then high else low }
  }

  class Port {
    var papar: Reg
    var paodr: Reg
    var padir: Reg
    var padat: Reg
    var pbpar: Reg
    var pbodr: Reg
    var pbdir: Reg
    var pbdat: Reg

    var wiringopt: Wiring
    var actualhard: Hard
    var savedA: Saved
    var savedB: Saved
    const forcehw: bool

    /** What answers on the answer line of each wiring, and what has been seen on the driven lines. */
    const answers: Wiring -> Card
    var wire: History

    constructor (r: Regs, w: Wiring, forcehw: bool, answers: Wiring -> Card)
      ensures Contents() == r && wiringopt == w && actualhard == Untouched
      ensures this.forcehw == forcehw && this.answers == answers
    {
      papar, paodr, padir, padat := r.a.par, r.a.odr, r.a.dir, r.a.dat;
      pbpar, pbodr, pbdir, pbdat := r.b.par, r.b.odr, r.b.dir, r.b.dat;
      wiringopt, actualhard, wire := w, Untouched, [];
      savedA := Saved({}, {}, {}, {}, {}, {});
      savedB := Saved({}, {}, {}, {}, {}, {});
      this.forcehw, this.answers := forcehw, answers;
    }

    function Contents(): Regs
      reads this
    {
      Regs(Bank(papar, paodr, padir, padat), Bank(pbpar, pbodr, pbdir, pbdat))
    }

    /** What transfers leave alone. */
    function Others(): Regs reads this { Beyond(wiringopt, Contents()) }

    function OutA(): Reg reads this { padir - papar }
    function OutB(): Reg reads this { pbdir - pbpar }

    function Answerer(): Card reads `wiringopt { answers(wiringopt) }

    function Now(): Lines
      reads this
    {
      Lines(CsPin(wiringopt) in pbdat, ClkPin(wiringopt) in pbdat,
            DiPin(wiringopt) in if wiringopt.Two? then padat else pbdat)
    }

    /** The pins of the chosen wiring are set up: clock, select and data out, answer line in. */
    predicate Configured()
      reads this
    {
      && OwnB(wiringopt) <= OutB()
      && match wiringopt
         case One => PA07 !in OutA()
         case Two => PA08 in OutA() && PA09 !in OutA()
         case Four => PB18 !in OutB()
    }

    /** In bit numbers: which pins select, clock and data are, and that those drive while the answer pin listens. */
    lemma PinsAre()
      requires Configured()
      ensures wiringopt.One? ==> {8, 9, 12} <= OutB() && 8 !in OutA()
      ensures wiringopt.Two? ==> {14, 15} <= OutB() && 7 in OutA() && 6 !in OutA()
      ensures wiringopt.Four? ==> {12, 14, 15} <= OutB() && 13 !in OutB()
      ensures wiringopt.One? ==> Now() == Lines(8 in pbdat, 9 in pbdat, 12 in pbdat)
      ensures wiringopt.Two? ==> Now() == Lines(15 in pbdat, 14 in pbdat, 7 in padat)
      ensures wiringopt.Four? ==> Now() == Lines(15 in pbdat, 14 in pbdat, 12 in pbdat)
    {
    }

    /** Between calls the clock is low. */
    predicate Ready() reads this { Configured() && !Now().clk }

    // -------------------------------------------------------------- register access

    /** Outputs read back their latch; the answer line reads the card; other pins read anything. */
    method ReadA() returns (v: Reg)
      ensures forall p :: p in OutA() ==> (p in v <==> p in padat)
      ensures wiringopt.One? && 8 !in OutA() ==> (8 in v) == Answerer()(wire)
      ensures wiringopt.Two? && 6 !in OutA() ==> (6 in v) == Answerer()(wire)
    {
      var pins: Reg := *;
      var answerPin: Reg := if wiringopt.One? then {PA07} else if wiringopt.Two? then {PA09} else {};
      pins := if Answerer()(wire) then pins + answerPin else pins - answerPin;
      v := (padat * OutA()) + (pins - OutA());
    }

    method ReadB() returns (v: Reg)
      ensures forall p :: p in OutB() ==> (p in v <==> p in pbdat)
      ensures wiringopt.Four? && 13 !in OutB() ==> (13 in v) == Answerer()(wire)
    {
      var pins: Reg := *;
      var answerPin: Reg := if wiringopt.Four? then {PB18} else {};
      pins := if Answerer()(wire) then pins + answerPin else pins - answerPin;
      v := (pbdat * OutB()) + (pins - OutB());
    }

    method WriteA(v: Reg)
      modifies `padat, `wire
      ensures padat == v && wire == old(wire) + Edges(old(Now()), Now())
    {
      var before := Now();
      padat := v;
      wire := wire + Edges(before, Now());
    }

    method WriteB(v: Reg)
      modifies `pbdat, `wire
      ensures pbdat == v && wire == old(wire) + Edges(old(Now()), Now())
    {
      var before := Now();
      pbdat := v;
      wire := wire + Edges(before, Now());
    }

    /** `cp_pbdat |= pin` or `cp_pbdat &= ~pin`: every read-modify-write of port B during transfers. */
    method ModifyB(pin: nat, high: bool)
      requires Configured() && pin in OwnB(wiringopt)
      modifies `pbdat, `wire
      ensures Configured() && Others() == old(Others())
      ensures Now() == Moved(wiringopt, old(Now()), pin, high)
      ensures wire == old(wire) + Edges(old(Now()), Now())
    {
      var v := ReadB();
      WriteB(if high then v + {pin} else v - {pin});
    }

    method ModifyA(high: bool)
      requires Configured() && wiringopt.Two?
      modifies `padat, `wire
      ensures Configured() && Others() == old(Others())
      ensures Now() == old(Now()).(di := high)
      ensures wire == old(wire) + Edges(old(Now()), Now())
      ensures (PA09 in padat) == Answerer()(old(wire))
    {
      var v := ReadA();
      WriteA(if high then v + {PA08} else v - {PA08});
    }

    // -------------------------------------------------------------- chip select

    method SelectLow()
      requires Ready()
      modifies `pbdat, `wire
      ensures Ready() && !Now().cs && Others() == old(Others())
      ensures wire == old(wire) + (if old(Now().cs) then [Select(false)] else [])
    {
      ModifyB(CsPin(wiringopt), false);
    }

    method SelectHigh()
      requires Ready()
      modifies `pbdat, `wire
      ensures Ready() && Now().cs && Others() == old(Others())
      ensures wire == old(wire) + (if old(Now().cs) then [] else [Select(true)])
    {
      ModifyB(CsPin(wiringopt), true);
    }

    // -------------------------------------------------------------- failsafe byte exchange

    method ExchangeBit1(bit: bool) returns (answer: bool)
      requires wiringopt.One? && Ready()
      modifies `padat, `pbdat, `wire
      ensures Ready() && Now().cs == old(Now().cs) && Others() == old(Others())
      ensures wire == old(wire) + [Rise(bit)] && answer == Answerer()(wire)
    {
      ModifyB(PB19, bit);
      ModifyB(PB22, true);
      var a := ReadA();
      answer := PA07 in a;
      assert wire == old(wire) + [Rise(bit)];
      ModifyB(PB22, false);
    }

    method SpiIo1(dataOut: Byte) returns (result: Byte)
      requires wiringopt.One? && Ready()
      modifies `padat, `pbdat, `wire
      ensures Ready() && Now().cs == old(Now().cs) && Others() == old(Others())
      ensures wire == Sent(old(wire), dataOut) && result == Answer(Answerer(), old(wire), dataOut)
    {
      var acc, i := 0, 0x80;
      ghost var k: nat, h := 0, wire;
      while i != 0
        invariant k <= 8 && i == (if k < 8 then Mask(k) else 0)
        invariant Ready() && Now().cs == old(Now().cs) && Others() == old(Others())
        invariant wire == h + Rises(dataOut)[..k]
        invariant acc == Gathered(Sampled(Answerer(), h, dataOut), k)
        decreases 8 - k
      {
        NextRise(h, dataOut, k);
        var answer := ExchangeBit1(Has(dataOut, i));
        if answer { acc := acc + i; }
        i, k := i / 2, k + 1;
      }
      Gather(Sampled(Answerer(), h, dataOut));
      result := acc;
    }

    method ExchangeBit2(bit: bool) returns (answer: bool)
      requires wiringopt.Two? && Ready()
      modifies `padat, `pbdat, `wire
      ensures Ready() && Now().cs == old(Now().cs) && Others() == old(Others())
      ensures wire == old(wire) + [Rise(bit)] && answer == Answerer()(wire)
    {
      ModifyA(bit);
      ModifyB(PB17, true);
      var a := ReadA();
      answer := PA09 in a;
      assert wire == old(wire) + [Rise(bit)];
      ModifyB(PB17, false);
    }

    method SpiIo2(dataOut: Byte) returns (result: Byte)
      requires wiringopt.Two? && Ready()
      modifies `padat, `pbdat, `wire
      ensures Ready() && Now().cs == old(Now().cs) && Others() == old(Others())
      ensures wire == Sent(old(wire), dataOut) && result == Answer(Answerer(), old(wire), dataOut)
    {
      var acc, i := 0, 0x80;
      ghost var k: nat, h := 0, wire;
      while i != 0
        invariant k <= 8 && i == (if k < 8 then Mask(k) else 0)
        invariant Ready() && Now().cs == old(Now().cs) && Others() == old(Others())
        invariant wire == h + Rises(dataOut)[..k]
        invariant acc == Gathered(Sampled(Answerer(), h, dataOut), k)
        decreases 8 - k
      {
        NextRise(h, dataOut, k);
        var answer := ExchangeBit2(Has(dataOut, i));
        if answer { acc := acc + i; }
        i, k := i / 2, k + 1;
      }
      Gather(Sampled(Answerer(), h, dataOut));
      result := acc;
    }

    method ExchangeBit4(bit: bool) returns (answer: bool)
      requires wiringopt.Four? && Ready()
      modifies `padat, `pbdat, `wire
      ensures Ready() && Now().cs == old(Now().cs) && Others() == old(Others())
      ensures wire == old(wire) + [Rise(bit)] && answer == Answerer()(wire)
    {
      ModifyB(PB19, bit);
      ModifyB(PB17, true);
      var b := ReadB();
      answer := PB18 in b;
      assert wire == old(wire) + [Rise(bit)];
      ModifyB(PB17, false);
    }

    method SpiIo4(dataOut: Byte) returns (result: Byte)
      requires wiringopt.Four? && Ready()
      modifies `padat, `pbdat, `wire
      ensures Ready() && Now().cs == old(Now().cs) && Others() == old(Others())
      ensures wire == Sent(old(wire), dataOut) && result == Answer(Answerer(), old(wire), dataOut)
    {
      var acc, i := 0, 0x80;
      ghost var k: nat, h := 0, wire;
      while i != 0
        invariant k <= 8 && i == (if k < 8 then Mask(k) else 0)
        invariant Ready() && Now().cs == old(Now().cs) && Others() == old(Others())
        invariant wire == h + Rises(dataOut)[..k]
        invariant acc == Gathered(Sampled(Answerer(), h, dataOut), k)
        decreases 8 - k
      {
        NextRise(h, dataOut, k);
        var answer := ExchangeBit4(Has(dataOut, i));
        if answer { acc := acc + i; }
        i, k := i / 2, k + 1;
      }
      Gather(Sampled(Answerer(), h, dataOut));
      result := acc;
    }

    /** The byte exchange assigned to the chosen wiring. */
    method Io(dataOut: Byte) returns (result: Byte)
      requires Ready()
      modifies `padat, `pbdat, `wire
      ensures Ready() && Now().cs == old(Now().cs) && Others() == old(Others())
      ensures wire == Sent(old(wire), dataOut) && result == Answer(Answerer(), old(wire), dataOut)
    {
      match wiringopt
      case One => result := SpiIo1(dataOut);
      case Two => result := SpiIo2(dataOut);
      case Four => result := SpiIo4(dataOut);
    }

    // -------------------------------------------------------------- optimised transfers

    /** `v` is a precomputed value of port B: right select level, right other pins, this clock and data level. */
    ghost predicate Cached(v: Reg, clk: bool, di: bool)
      reads this
    {
      && (CsPin(wiringopt) in v) == Now().cs && (ClkPin(wiringopt) in v) == clk
      && (!wiringopt.Two? ==> (DiPin(wiringopt) in v) == di)
      && forall p :: p in OutB() && p !in OwnB(wiringopt) ==> (p in v <==> p in pbdat)
    }

    /** The same for port A in wiring 2. */
    ghost predicate CachedA(v: Reg, di: bool)
      reads this
    {
      (PA08 in v) == di && forall p :: p in OutA() && p != PA08 ==> (p in v <==> p in padat)
    }

    method ReadCached(add: Reg, drop: Reg) returns (v: Reg)
      requires Configured() && add + drop <= OwnB(wiringopt) && CsPin(wiringopt) !in add + drop && add !! drop
      ensures (CsPin(wiringopt) in v) == Now().cs
      ensures forall p :: p in OutB() && p !in OwnB(wiringopt) ==> (p in v <==> p in pbdat)
      ensures add <= v && drop !! v
    {
      v := ReadB();
      v := (v + add) - drop;
    }

    /** What the optimised writer of wirings 1 and 4 keeps between bits; `o` and `cs` are from its start. */
    ghost predicate Writing14(o: Regs, cs: bool, c: Caches14)
      reads this
    {
      forall clk, di :: // one quantified fact, so that it is carried from bit to bit as one
        && Cached(c.At(clk, di), clk, di) && !wiringopt.Two? && Configured()
        && Now().cs == cs && Others() == o
    }

    /** One bit of the unrolled writer: data with the clock low, then the same data with the clock high. */
    method ClockOut14(bit: bool, c: Caches14, ghost o: Regs, ghost cs: bool, ghost h: History, ghost b: Byte,
                      ghost k: nat)
      requires Writing14(o, cs, c)
      requires k < 8 && bit == Bit(b, k) && wire == h + Rises(b)[..k]
      modifies `pbdat, `wire
      ensures Writing14(o, cs, c)
      ensures wire == h + Rises(b)[..k + 1]
    {
      NextRise(h, b, k);
      WriteB(c.At(false, bit));
      assert wire == old(wire);
      WriteB(c.At(true, bit));
      assert wire == old(wire) + [Rise(bit)];
    }

    method WriteByte14(byteOut: Byte, c: Caches14, ghost o: Regs, ghost cs: bool)
      requires Writing14(o, cs, c)
      modifies `pbdat, `wire
      ensures Writing14(o, cs, c)
      ensures wire == Sent(old(wire), byteOut)
    {
      ghost var h := wire;
      assert h + Rises(byteOut)[..0] == h;
      ClockOut14(Bit(byteOut, 0), c, o, cs, h, byteOut, 0);  // 0x80
      ClockOut14(Bit(byteOut, 1), c, o, cs, h, byteOut, 1);  // 0x40
      ClockOut14(Bit(byteOut, 2), c, o, cs, h, byteOut, 2);  // 0x20
      ClockOut14(Bit(byteOut, 3), c, o, cs, h, byteOut, 3);  // 0x10
      ClockOut14(Bit(byteOut, 4), c, o, cs, h, byteOut, 4);  // 0x08
      ClockOut14(Bit(byteOut, 5), c, o, cs, h, byteOut, 5);  // 0x04
      ClockOut14(Bit(byteOut, 6), c, o, cs, h, byteOut, 6);  // 0x02
      ClockOut14(Bit(byteOut, 7), c, o, cs, h, byteOut, 7);  // 0x01
      assert Rises(byteOut)[..8] == Rises(byteOut);
    }

    method SpiWrite14(dataOut: seq<Byte>)
      requires !wiringopt.Two? && Ready()
      modifies `pbdat, `wire
      ensures Ready() && Now().cs == old(Now().cs) && Others() == old(Others())
      ensures wire == SentAll(old(wire), dataOut)
    {
      var clk := if wiringopt.One? then PB22 else PB17;
      var cldl := ReadCached({}, {PB19, clk});
      var cldh := ReadCached({PB19}, {clk});
      var chdl := ReadCached({clk}, {PB19});
      var chdh := ReadCached({clk, PB19}, {});
      var c := Caches14(cldl, cldh, chdl, chdh);
      ghost var o, cs := Others(), Now().cs;
      assert forall k, d :: Cached(c.At(k, d), k, d);
      var n := 0;
      while n < |dataOut|
        invariant n <= |dataOut| && Writing14(o, cs, c)
        invariant wire == SentAll(old(wire), dataOut[..n])
      {
        assert dataOut[..n + 1][..n] == dataOut[..n];
        WriteByte14(dataOut[n], c, o, cs);
        n := n + 1;
      }
      assert dataOut[..n] == dataOut;
      assert c.At(false, true) == cldh;
      WriteB(cldh);
      assert wire == SentAll(old(wire), dataOut);
    }

    /** What the optimised writer of wiring 2 keeps between bits. */
    ghost predicate Writing2(o: Regs, cs: bool, c: Caches2)
      reads this
    {
      forall high ::
        && Cached(c.Clock(high), high, false) && CachedA(c.Data(high), high) && wiringopt.Two? && Ready()
        && Now().cs == cs && Others() == o
    }

    method ClockOut2(bit: bool, c: Caches2, ghost o: Regs, ghost cs: bool, ghost h: History, ghost b: Byte,
                     ghost k: nat)
      requires Writing2(o, cs, c)
      requires k < 8 && bit == Bit(b, k) && wire == h + Rises(b)[..k]
      modifies `padat, `pbdat, `wire
      ensures Writing2(o, cs, c)
      ensures wire == h + Rises(b)[..k + 1]
    {
      NextRise(h, b, k);
      WriteA(c.Data(bit));
      assert wire == old(wire);
      WriteB(c.Clock(true));
      assert wire == old(wire) + [Rise(bit)];
      WriteB(c.Clock(false));
      assert wire == old(wire) + [Rise(bit)];
    }

    method WriteByte2(byteOut: Byte, c: Caches2, ghost o: Regs, ghost cs: bool)
      requires Writing2(o, cs, c)
      modifies `padat, `pbdat, `wire
      ensures Writing2(o, cs, c)
      ensures wire == Sent(old(wire), byteOut)
    {
      ghost var h := wire;
      assert h + Rises(byteOut)[..0] == h;
      ClockOut2(Bit(byteOut, 0), c, o, cs, h, byteOut, 0);  // 0x80
      ClockOut2(Bit(byteOut, 1), c, o, cs, h, byteOut, 1);  // 0x40
      ClockOut2(Bit(byteOut, 2), c, o, cs, h, byteOut, 2);  // 0x20
      ClockOut2(Bit(byteOut, 3), c, o, cs, h, byteOut, 3);  // 0x10
      ClockOut2(Bit(byteOut, 4), c, o, cs, h, byteOut, 4);  // 0x08
      ClockOut2(Bit(byteOut, 5), c, o, cs, h, byteOut, 5);  // 0x04
      ClockOut2(Bit(byteOut, 6), c, o, cs, h, byteOut, 6);  // 0x02
      ClockOut2(Bit(byteOut, 7), c, o, cs, h, byteOut, 7);  // 0x01
      assert Rises(byteOut)[..8] == Rises(byteOut);
    }

    method SpiWrite2(dataOut: seq<Byte>)
      requires wiringopt.Two? && Ready()
      modifies `padat, `pbdat, `wire
      ensures Ready() && Now().cs == old(Now().cs) && Others() == old(Others())
      ensures wire == SentAll(old(wire), dataOut)
    {
      var clkHigh := ReadCached({PB17}, {});
      var clkLow := ReadCached({}, {PB17});
      var dataHigh := ReadCachedA(true);
      var dataLow := ReadCachedA(false);
      var c := Caches2(clkLow, clkHigh, dataLow, dataHigh);
      ghost var o, cs := Others(), Now().cs;
      assert forall k :: Cached(c.Clock(k), k, false) && CachedA(c.Data(k), k);
      var n := 0;
      while n < |dataOut|
        invariant n <= |dataOut| && Writing2(o, cs, c)
        invariant wire == SentAll(old(wire), dataOut[..n])
      {
        assert dataOut[..n + 1][..n] == dataOut[..n];
        WriteByte2(dataOut[n], c, o, cs);
        n := n + 1;
      }
      assert dataOut[..n] == dataOut;
      assert c.Clock(false) == clkLow;
    }

    method ReadCachedA(high: bool) returns (v: Reg)
      requires Configured() && wiringopt.Two?
      ensures CachedA(v, high)
    {
      v := ReadA();
      v := if high then v + {PA08} else v - {PA08};
    }

    /** What the readers keep between bits. */
    ghost predicate Reading(o: Regs, cs: bool, c: Clocks)
      reads this
    {
      forall high ::
        && Cached(c.At(high), high, true) && Ready() && Now().di
        && Now().cs == cs && Others() == o
    }

    /** One bit of the unrolled readers: clock high, sample, clock low, with the data line held high. */
    method ClockIn(c: Clocks, acc: Byte,
                   ghost o: Regs, ghost cs: bool, ghost h: History, ghost k: nat) returns (result: Byte)
      requires Reading(o, cs, c)
      requires k < 8 && wire == h + Rises(0xFF)[..k] && acc == Shifted(Sampled(Answerer(), h, 0xFF), k)
      modifies `pbdat, `wire
      ensures Reading(o, cs, c)
      ensures wire == h + Rises(0xFF)[..k + 1] && result == Shifted(Sampled(Answerer(), h, 0xFF), k + 1)
    {
      NextRise(h, 0xFF, k);
      WriteB(c.At(true));
      assert Now() == old(Now()).(clk := true);
      assert wire == h + Rises(0xFF)[..k + 1];
      var answer := Sample();
      result := ShiftIn(acc, answer, Sampled(Answerer(), h, 0xFF), k);
      WriteB(c.At(false));
    }

    method Sample() returns (answer: bool)
      requires Configured()
      ensures answer == Answerer()(wire)
    {
      if wiringopt.Four? {
        var b := ReadB();
        answer := PB18 in b;
      } else {
        var a := ReadA();
        answer := (if wiringopt.One? then PA07 else PA09) in a;
      }
    }

    static method ShiftIn(acc: Byte, answer: bool, ghost bits: seq<bool>, ghost k: nat) returns (result: Byte)
      requires |bits| == 8 && k < 8 && acc == Shifted(bits, k) && answer == bits[k]
      ensures result == Shifted(bits, k + 1)
    {
      ShiftedFits(bits, k + 1);
      result := 2 * acc + if answer then 1 else 0;
    }

    method ReadByte(c: Clocks, ghost o: Regs, ghost cs: bool) returns (result: Byte)
      requires Reading(o, cs, c)
      modifies `pbdat, `wire
      ensures Reading(o, cs, c)
      ensures wire == Sent(old(wire), 0xFF) && result == Answer(Answerer(), old(wire), 0xFF)
    {
      ghost var h := wire;
      assert h + Rises(0xFF)[..0] == h;
      result := 0;
      result := ClockIn(c, result, o, cs, h, 0);
      result := ClockIn(c, result, o, cs, h, 1);
      result := ClockIn(c, result, o, cs, h, 2);
      result := ClockIn(c, result, o, cs, h, 3);
      result := ClockIn(c, result, o, cs, h, 4);
      result := ClockIn(c, result, o, cs, h, 5);
      result := ClockIn(c, result, o, cs, h, 6);
      result := ClockIn(c, result, o, cs, h, 7);
      assert Rises(0xFF)[..8] == Rises(0xFF);
      Shift(Sampled(Answerer(), h, 0xFF));
    }

    /** The three unrolled readers, which differ in their pins and in how the data line is raised first. */
    method ReadMultiple(dest: array<Byte>, at: nat, charcnt: nat)
      requires Ready() && at + charcnt <= dest.Length
      modifies `padat, `pbdat, `wire, dest
      ensures Ready() && Now().cs == old(Now().cs) && Others() == old(Others())
      ensures wire == Polled(old(wire), charcnt)
      ensures dest[..] == old(dest[..at]) + Received(Answerer(), old(wire), charcnt) + old(dest[at + charcnt..])
    {
      ghost var o, cs := Others(), Now().cs;
      var c := PrepareRead();
      ReadBytes(c, dest, at, charcnt, o, cs);
      assert c.At(false) == c.low;
    }

    method ReadBytes(c: Clocks, dest: array<Byte>, at: nat, charcnt: nat, ghost o: Regs, ghost cs: bool)
      requires Reading(o, cs, c) && at + charcnt <= dest.Length
      modifies `pbdat, `wire, dest
      ensures Reading(o, cs, c) && wire == Polled(old(wire), charcnt)
      ensures dest[..] == old(dest[..at]) + Received(Answerer(), old(wire), charcnt) + old(dest[at + charcnt..])
    {
      ghost var h, was := wire, dest[..];
      var n := 0;
      while n < charcnt
        invariant n <= charcnt && Reading(o, cs, c) && wire == Polled(h, n)
        invariant dest[..] == was[..at] + Received(Answerer(), h, n) + was[at + n..]
      {
        ReadNext(c, dest, at, n, o, cs, h, was);
        n := n + 1;
      }
    }

    method ReadNext(c: Clocks, dest: array<Byte>, at: nat, n: nat, ghost o: Regs, ghost cs: bool, ghost h: History,
                    ghost was: seq<Byte>)
      requires Reading(o, cs, c) && at + n < dest.Length == |was| && wire == Polled(h, n)
      requires dest[..] == was[..at] + Received(Answerer(), h, n) + was[at + n..]
      modifies `pbdat, `wire, dest
      ensures Reading(o, cs, c) && wire == Polled(h, n + 1)
      ensures dest[..] == was[..at] + Received(Answerer(), h, n + 1) + was[at + n + 1..]
    {
      var b := ReadByte(c, o, cs);
      dest[at + n] := b;
      Stored(was, at, Received(Answerer(), h, n), b, dest[..]);
    }

    method PrepareRead() returns (c: Clocks)
      requires Ready()
      modifies `padat, `pbdat, `wire
      ensures Reading(old(Others()), old(Now().cs), c)
      ensures wire == old(wire)
    {
      match wiringopt {
        case One => c := PrepareRead1();
        case Two => c := PrepareRead2();
        case Four => c := PrepareRead4();
      }
    }

    method PrepareRead1() returns (c: Clocks)
      requires Ready() && wiringopt.One?
      modifies `padat, `pbdat, `wire
      ensures Reading(old(Others()), old(Now().cs), c)
      ensures wire == old(wire)
    {
      var clkHigh := ReadCached({PB22, PB19}, {});
      var clkLow := ReadCached({PB19}, {PB22});
      ModifyB(PB19, true);
      c := Clocks(clkLow, clkHigh);
      ForeignStay();
    }

    method PrepareRead2() returns (c: Clocks)
      requires Ready() && wiringopt.Two?
      modifies `padat, `pbdat, `wire
      ensures Reading(old(Others()), old(Now().cs), c)
      ensures wire == old(wire)
    {
      var clkHigh := ReadCached({PB17}, {});
      var clkLow := ReadCached({}, {PB17});
      ModifyA(true);
      c := Clocks(clkLow, clkHigh);
      ForeignStay();
      assert Cached(c.At(false), false, true) && Cached(c.At(true), true, true);
    }

    method PrepareRead4() returns (c: Clocks)
      requires Ready() && wiringopt.Four?
      modifies `padat, `pbdat, `wire
      ensures Reading(old(Others()), old(Now().cs), c)
      ensures wire == old(wire)
    {
      var clkHigh := ReadCached({PB17, PB19}, {});
      var clkLow := ReadCached({PB19}, {PB17});
      ModifyB(PB19, true);
      c := Clocks(clkLow, clkHigh);
      ForeignStay();
    }

    /** Foreign pins that drive keep their level as long as what transfers leave alone is kept. */
    twostate lemma ForeignStay()
      requires wiringopt == old(wiringopt) && Others() == old(Others())
      ensures forall p :: p in OutB() && p !in OwnB(wiringopt) ==> (p in pbdat <==> p in old(pbdat))
    {
      assert forall p :: p in OutB() && p !in OwnB(wiringopt) ==>
        (p in pbdat <==> p in Others().b.dat) && (p in old(pbdat) <==> p in old(Others()).b.dat);
    }

    /** The writer assigned to the chosen wiring. */
    method Write(dataOut: seq<Byte>)
      requires Ready()
      modifies `padat, `pbdat, `wire
      ensures Ready() && Now().cs == old(Now().cs) && Others() == old(Others())
      ensures wire == SentAll(old(wire), dataOut)
    {
      if wiringopt.Two? { SpiWrite2(dataOut); } else { SpiWrite14(dataOut); }
    }

    // -------------------------------------------------------------- taking the pins and giving them back

    /** What every reachable state keeps: what giving the pins back now would restore. */
    ghost predicate Restorable(orig: Regs)
      reads this
    {
      match actualhard
      case Untouched => Contents().Same(orig)
      case Taken(w) => Owes(w, Contents(), savedA, savedB, Lost(orig, w, PA09 in padat))
    }

    /** Read-modify-writes of the data registers while pins are being switched. */
    method ChangeA(set1: Reg, clear: Reg)
      modifies `padat
      ensures forall p :: p in OutA() ==> (p in padat <==> (p in old(padat) || p in set1) && p !in clear)
      ensures wiringopt.Two? && PA09 !in OutA() && PA09 !in set1 + clear ==> (PA09 in padat) == Answerer()(wire)
    {
      var v := ReadA();
      padat := (v + set1) - clear;
    }

    method ChangeB(set1: Reg, clear: Reg)
      modifies `pbdat
      ensures forall p :: p in OutB() ==> (p in pbdat <==> (p in old(pbdat) || p in set1) && p !in clear)
    {
      var v := ReadB();
      pbdat := (v + set1) - clear;
    }

    method HardwareCleanup(ghost orig: Regs)
      requires Restorable(orig)
      modifies this
      ensures match old(actualhard)
              case Untouched => Contents() == old(Contents())
              case Taken(w) => Contents().Same(Lost(orig, w, old(PA09 in padat)))
      ensures actualhard == Untouched && wiringopt == old(wiringopt) && wire == old(wire)
    {
      if actualhard == Untouched { return; }
      ghost var w := actualhard.w;
      ghost var back := Lost(orig, w, PA09 in padat);
      ReturnConfig();
      ChangeA({}, savedA.da0);
      ChangeB({}, savedB.da0);
      ChangeA(savedA.da1, {});
      ChangeB(savedB.da1, {});
      Returned(UsedA(w), OwnA(w), old(Contents().a), savedA, back.a, Contents().a);
      Returned(UsedB(w), OwnB(w), old(Contents().b), savedB, back.b, Contents().b);
      actualhard := Untouched;
    }

    method ReturnConfig()
      modifies `papar, `paodr, `padir, `pbpar, `pbodr, `pbdir
      ensures papar == old(papar) + savedA.par && pbpar == old(pbpar) + savedB.par
      ensures paodr == old(paodr) + savedA.odr && pbodr == old(pbodr) + savedB.odr
      ensures padir == (old(padir) - savedA.di0) + savedA.di1 && pbdir == (old(pbdir) - savedB.di0) + savedB.di1
    {
      papar := papar + savedA.par;
      pbpar := pbpar + savedB.par;
      paodr := paodr + savedA.odr;
      pbodr := pbodr + savedB.odr;
      padir := padir - savedA.di0;
      pbdir := pbdir - savedB.di0;
      padir := padir + savedA.di1;
      pbdir := pbdir + savedB.di1;
    }

    /** Port A pins saved and switched: `own` to output, the answer pin to input. */
    method SwitchA(own: Reg, answerPin: Reg) returns (ghost v: Reg)
      modifies `savedA, `papar, `paodr, `padir
      ensures forall p :: p in old(OutA()) ==> (p in v <==> p in padat)
      ensures savedA == Saved(old(papar) * (own + answerPin), old(paodr) * (own + answerPin),
                              own - old(padir), old(padir) * answerPin, own - v, v * own)
      ensures papar == old(papar) - (own + answerPin) && paodr == old(paodr) - (own + answerPin)
      ensures padir == (old(padir) + own) - answerPin
    {
      var used := own + answerPin;
      var a := ReadA();
      v := a;
      savedA := Saved(papar * used, paodr * used, own - padir, padir * answerPin, own - a, a * own);
      papar := papar - used;
      paodr := paodr - used;
      padir := padir + own;
      padir := padir - answerPin;
    }

    /** The same for port B, where the direction of the answer pin is not saved. */
    method SwitchB(own: Reg, answerPin: Reg) returns (ghost v: Reg)
      modifies `savedB, `pbpar, `pbodr, `pbdir
      ensures forall p :: p in old(OutB()) ==> (p in v <==> p in pbdat)
      ensures savedB == Saved(old(pbpar) * (own + answerPin), old(pbodr) * (own + answerPin),
                              own - old(pbdir), {}, own - v, v * own)
      ensures pbpar == old(pbpar) - (own + answerPin) && pbodr == old(pbodr) - (own + answerPin)
      ensures pbdir == (old(pbdir) + own) - answerPin
    {
      var used := own + answerPin;
      var b := ReadB();
      v := b;
      savedB := Saved(pbpar * used, pbodr * used, own - pbdir, {}, own - b, b * own);
      pbpar := pbpar - used;
      pbodr := pbodr - used;
      pbdir := pbdir + own;
      pbdir := pbdir - answerPin;
    }

    /** Clock low, data and select high. */
    method Rest()
      requires Configured()
      modifies `padat, `pbdat
      ensures Ready() && Now() == Lines(true, false, true)
      ensures Others() == old(Others())
      ensures wiringopt.Two? ==> (PA09 in padat) == Answerer()(wire)
    {
      ChangeB({}, {ClkPin(wiringopt)});
      if wiringopt.Two? { ChangeA({PA08}, {}); }
      ChangeB(if wiringopt.Two? then {PB16} else {CsPin(wiringopt), PB19}, {});
    }

    method SwitchPins()
      modifies `savedA, `savedB, `papar, `paodr, `padir, `pbpar, `pbodr, `pbdir
      ensures Owes(wiringopt, Contents(), savedA, savedB, Lost(old(Contents()), wiringopt, PA09 in padat))
      ensures Configured()
    {
      var answerB: Reg := if wiringopt.Four? then {PB18} else {};
      var answerA: Reg := match wiringopt case One => {PA07} case Two => {PA09} case Four => {};
      ghost var b := SwitchB(OwnB(wiringopt), answerB);
      ghost var a := SwitchA(OwnA(wiringopt), answerA);
      TakenB(OwnB(wiringopt), answerB, old(Contents()).b, b, savedB, Contents().b);
      TakenA(wiringopt, answerA, old(Contents()).a, a, savedA, Contents().a);
    }

    /** Switching the pins of the chosen wiring, then clock low, data and select high. */
    method Take()
      modifies this
      ensures Owes(wiringopt, Contents(), savedA, savedB, Lost(old(Contents()), wiringopt, PA09 in padat))
      ensures Ready() && Now() == Lines(true, false, true) && wire == []
      ensures wiringopt == old(wiringopt)
      ensures wiringopt.Two? ==> (PA09 in padat) == Answerer()(wire)
    {
      SwitchPins();
      wire := [];
      ghost var r := Contents();
      Rest();
      TrafficOwes(wiringopt, r, Contents(), savedA, savedB, old(Contents()));
    }

    /** Fails if a pin belongs to another device, unless told to take it anyway. */
    method HardwareInit(ghost orig: Regs) returns (ok: bool, ghost now: Regs)
      requires Restorable(orig) && (actualhard == Taken(wiringopt) ==> Ready())
      modifies this
      ensures wiringopt == old(wiringopt) && Restorable(now)
      ensures now == match old(actualhard)
                     case Untouched => orig
                     case Taken(w) => if w == wiringopt then orig else Lost(orig, w, old(PA09 in padat))
      ensures ok <==> actualhard == Taken(wiringopt)
      ensures ok <==> old(actualhard) == Taken(wiringopt) || forcehw
                      || (UsedA(wiringopt) !! now.a.par && UsedB(wiringopt) !! now.b.par)
      ensures ok ==> Ready()
      ensures ok && old(actualhard) != Taken(wiringopt) ==> wire == [] && Now() == Lines(true, false, true)
      ensures old(actualhard) == Taken(wiringopt) ==> wire == old(wire) && Now() == old(Now())
      ensures !ok ==> actualhard == Untouched
    {
      if actualhard == Taken(wiringopt) { return true, orig; }
      now := match actualhard case Untouched => orig case Taken(w) => Lost(orig, w, PA09 in padat);
      HardwareCleanup(orig);
      ok := forcehw || (papar !! UsedA(wiringopt) && pbpar !! UsedB(wiringopt));
      if ok {
        ghost var was := Contents();
        Take();
        OwesSame(wiringopt, Contents(), savedA, savedB, was, now, PA09 in padat);
        actualhard := Taken(wiringopt);
      }
    }

    /** The pins taken, if any, are those of the chosen wiring, and the clock is low. */
    ghost predicate Settled()
      reads this
    {
      actualhard.Taken? ==> actualhard.w == wiringopt && Ready()
    }

    /** One wiring attempt, or one transfer with the pins taken. */
    method Perform(op: Op, ghost orig: Regs) returns (ghost now: Regs)
      requires Restorable(orig) && Settled()
      modifies this
      ensures Restorable(now) && Settled()
      ensures Course(now, Reach()) == Next(Course(orig, old(Reach())), forcehw, op, old(PA09 in padat))
    {
      now := orig;
      if op.Attempt? {
        wiringopt := op.w;
        var ok;
        ok, now := HardwareInit(orig);
      } else if actualhard.Taken? {
        ghost var r := Contents();
        match op {
          case Low => SelectLow();
          case High => SelectHigh();
          case Exchange(b) => var answer := Io(b);
          case Burst(bytes) => Write(bytes);
          case Poll(n) => var buffer := new Byte[n]; ReadMultiple(buffer, 0, n);
        }
        TrafficOwes(wiringopt, r, Contents(), savedA, savedB, orig);
      }
    }

    /** What the driver has got hold of: no card, or one and what that has seen. */
    ghost function Reach(): Reach
      reads this
    {
      if actualhard.Taken? then Holding(wiringopt, wire, Now().cs) else Free
    }

    /** Any run of wiring attempts and transfers, ended by the cleanup, has driven the wires of the last wiring taken as
        it should, and leaves the ports as they were but for what each wiring given back loses, for the level its
        answer latch then had; with spare answer pins that is nothing. */
    method Run(ops: seq<Op>) returns (ghost levels: seq<bool>)
      requires actualhard == Untouched
      modifies this
      ensures actualhard == Untouched && |levels| == |ops| + 1
      ensures var c := After(old(Contents()), forcehw, ops, levels[..|ops|]);
        && Contents().Same(c.Back(levels[|ops|]))
        && (c.reach.Holding? ==> wiringopt == c.reach.w && wire == c.reach.wire)
      ensures (forall op :: op in ops && op.Attempt? ==> old(Contents()).Spare(op.w)) ==>
        Contents().Same(old(Contents()))
    {
      ghost var orig, now := Contents(), Contents();
      levels := [];
      for i := 0 to |ops|
        invariant |levels| == i && Restorable(now) && Settled()
        invariant Course(now, Reach()) == After(orig, forcehw, ops[..i], levels)
      {
        assert ops[..i + 1][..i] == ops[..i] && (levels + [PA09 in padat])[..i] == levels;
        levels := levels + [PA09 in padat];
        now := Perform(ops[i], now);
      }
      assert ops[..|ops|] == ops && (levels + [PA09 in padat])[..|ops|] == levels;
      if forall op :: op in ops && op.Attempt? ==> orig.Spare(op.w) {
        SpareRun(orig, forcehw, ops, levels, PA09 in padat);
      }
      levels := levels + [PA09 in padat];
      HardwareCleanup(now);
    }
  }

  datatype Reach = Free | Holding(w: Wiring, wire: History, cs: bool)

  /** A wiring can be taken if its pins belong to no other device, or by force. */
  ghost predicate Available(orig: Regs, force: bool, w: Wiring) {
    force || (UsedA(w) !! orig.a.par && UsedB(w) !! orig.b.par)
  }

  /** What the ports are to be given back as, and what is held. */
  datatype Course = Course(owed: Regs, reach: Reach)
  {
    /** What giving the pins back makes of the ports, for the level of the answer latch at that time. */
    function Back(high: bool): Regs { if reach.Holding? then Lost(owed, reach.w, high) else owed }
  }

  ghost function Next(c: Course, force: bool, op: Op, high: bool): Course {
    if op.Attempt? then
      if c.reach.Holding? && c.reach.w == op.w then c
      else Course(c.Back(high), if Available(c.Back(high), force, op.w) then Holding(op.w, [], true) else Free)
    else if c.reach.Free? then c
    else c.(reach := Transferred(c.reach, op))
  }

  function Transferred(r: Reach, op: Op): Reach
    requires r.Holding? && !op.Attempt?
  {
    match op
    case Low => r.(cs := false, wire := r.wire + if r.cs then [Select(false)] else [])
    case High => r.(cs := true, wire := r.wire + if r.cs then [] else [Select(true)])
    case Exchange(b) => r.(wire := Sent(r.wire, b))
    case Burst(bytes) => r.(wire := SentAll(r.wire, bytes))
    case Poll(n) => r.(wire := Polled(r.wire, n))
  }

  ghost function After(orig: Regs, force: bool, ops: seq<Op>, levels: seq<bool>): Course
    requires |ops| == |levels|
    decreases |ops|
  {
    if ops == [] then Course(orig, Free) else
    var n := |ops| - 1;
    Next(After(orig, force, ops[..n], levels[..n]), force, ops[n], levels[n])
  }

  /** With spare answer pins a run loses nothing, whatever the levels. */
  lemma {:induction false} SpareRun(orig: Regs, force: bool, ops: seq<Op>, levels: seq<bool>, high: bool)
    requires |ops| == |levels| && forall op :: op in ops && op.Attempt? ==> orig.Spare(op.w)
    ensures var c := After(orig, force, ops, levels);
      c.owed == orig && (c.reach.Holding? ==> orig.Spare(c.reach.w)) && c.Back(high) == orig
    decreases |ops|
  {
    if ops != [] {
      var n := |ops| - 1;
      SpareRun(orig, force, ops[..n], levels[..n], levels[n]);
    }
    var c := After(orig, force, ops, levels);
    if c.reach.Holding? { LostNothing(orig, c.reach.w); }
  }

  datatype Op = Attempt(w: Wiring) | Low | High | Exchange(b: Byte) | Burst(bytes: seq<Byte>) | Poll(n: nat)

  /** Owing something equal in all that counts is owing the same. */
  lemma OwesSame(w: Wiring, r: Regs, sa: Saved, sb: Saved, was: Regs, orig: Regs, high: bool)
    requires was.Same(orig) && Owes(w, r, sa, sb, Lost(was, w, high))
    ensures Owes(w, r, sa, sb, Lost(orig, w, high))
  {
    var l, m := Lost(was, w, high), Lost(orig, w, high);
    forall p ensures OwesPin(UsedA(w), OwnA(w), r.a, sa, m.a, p) {
      assert OwesPin(UsedA(w), OwnA(w), r.a, sa, l.a, p);
    }
    forall p ensures OwesPin(UsedB(w), OwnB(w), r.b, sb, m.b, p) {
      assert OwesPin(UsedB(w), OwnB(w), r.b, sb, l.b, p);
    }
  }

  /** What the driver owes for port B after saving from a reading `v` and switching its pins. */
  lemma TakenB(own: Reg, answerPin: Reg, orig: Bank, v: Reg, s: Saved, now: Bank)
    requires own !! answerPin
    requires s ==
      Saved(orig.par * (own + answerPin), orig.odr * (own + answerPin), own - orig.dir, {}, own - v, v * own)
    requires forall p :: p in orig.Out() ==> (p in v <==> p in orig.dat)
    requires now.par == orig.par - (own + answerPin) && now.odr == orig.odr - (own + answerPin)
    requires now.dir == (orig.dir + own) - answerPin
    requires forall p :: p in now.Out() && p !in own ==> (p in now.dat <==> p in orig.dat)
    ensures OwesBank(own + answerPin, own, now, s, orig.(dir := orig.dir - answerPin))
  {
  }

  lemma TakenA(w: Wiring, answerPin: Reg, orig: Bank, v: Reg, s: Saved, now: Bank)
    requires answerPin == match w case One => {PA07} case Two => {PA09} case Four => {}
    requires s == Saved(orig.par * UsedA(w), orig.odr * UsedA(w), OwnA(w) - orig.dir, orig.dir * answerPin,
                        OwnA(w) - v, v * OwnA(w))
    requires forall p :: p in orig.Out() ==> (p in v <==> p in orig.dat)
    requires now.par == orig.par - UsedA(w) && now.odr == orig.odr - UsedA(w)
    requires now.dir == (orig.dir + OwnA(w)) - answerPin
    requires if w.Two? then forall p :: p in now.Out() && p != PA08 ==> (p in now.dat <==> p in orig.dat)
             else now.dat == orig.dat
    ensures OwesBank(UsedA(w), OwnA(w), now, s, if w.Two? then LostLatch(orig, PA09 in now.dat) else orig)
  {
  }

  /** All bits of a port put back. */
  lemma Returned(used: Reg, own: Reg, r: Bank, s: Saved, orig: Bank, now: Bank)
    requires OwesBank(used, own, r, s, orig)
    requires now.par == r.par + s.par && now.odr == r.odr + s.odr && now.dir == (r.dir - s.di0) + s.di1
    requires forall p :: p in now.Out() ==> (p in now.dat <==> (p in r.dat && p !in s.da0) || p in s.da1)
    ensures now.Same(orig)
  {
    forall p: nat
      ensures p in now.par <==> p in orig.par
      ensures p in now.odr <==> p in orig.odr
      ensures p in now.dir <==> p in orig.dir
      ensures p in now.Out() ==> (p in now.dat <==> p in orig.dat)
    {
      assert OwesPin(used, own, r, s, orig, p);
    }
  }

  /** The parts of a buffer after a transfer into its middle. */
  lemma Sliced(was: seq<Byte>, at: nat, got: seq<Byte>, now: seq<Byte>)
    requires at + |got| <= |was| && now == was[..at] + got + was[at + |got|..]
    ensures now[at..at + |got|] == got && now[..at] == was[..at] && now[at + |got|..] == was[at + |got|..]
  {
  }

  /** Storing the next received byte in a buffer. */
  lemma Stored(was: seq<Byte>, at: nat, got: seq<Byte>, b: Byte, now: seq<Byte>)
    requires at + |got| < |was| && now == (was[..at] + got + was[at + |got|..])[at + |got| := b]
    ensures now == was[..at] + (got + [b]) + was[at + |got| + 1..]
  {
  }

  /** The lines after setting or clearing one pin of port B. */
  function Moved(w: Wiring, was: Lines, pin: nat, high: bool): Lines {
    if pin == CsPin(w) then was.(cs := high)
    else if pin == ClkPin(w) then was.(clk := high)
    else was.(di := high)
  }

  // ---------------------------------------------------------------- gathering bits

  /** The first k bits added in at their places. */
  ghost function Gathered(bits: seq<bool>, k: nat): int
    requires |bits| == 8 && k <= 8
  {
    if k == 0 then 0 else Gathered(bits, k - 1) + Only(bits[k - 1], Mask(k - 1))
  }

  lemma Gather(bits: seq<bool>)
    requires |bits| == 8
    ensures Gathered(bits, 8) == Pack(bits)
  {
    assert Gathered(bits, 1) == Only(bits[0], 0x80);
    assert Gathered(bits, 2) == Only(bits[0], 0x80) + Only(bits[1], 0x40);
    assert Gathered(bits, 4) == Gathered(bits, 2) + Only(bits[2], 0x20) + Only(bits[3], 0x10);
    assert Gathered(bits, 6) == Gathered(bits, 4) + Only(bits[4], 0x08) + Only(bits[5], 0x04);
  }

  /** The first k bits shifted in from the right. */
  ghost function Shifted(bits: seq<bool>, k: nat): nat
    requires |bits| == 8 && k <= 8
  {
    if k == 0 then 0 else 2 * Shifted(bits, k - 1) + Only(bits[k - 1], 1)
  }

  lemma ShiftedFits(bits: seq<bool>, k: nat)
    requires |bits| == 8 && 0 < k <= 8
    ensures Shifted(bits, k) * Mask(k - 1) <= 256 - Mask(k - 1)
  {
    if k == 1 { assert Shifted(bits, 0) == 0; } else { ShiftedFits(bits, k - 1); }
  }

  lemma Shift(bits: seq<bool>)
    requires |bits| == 8
    ensures Shifted(bits, 8) == Pack(bits)
  {
    ShiftFour(bits, 0);
    ShiftFour(bits, 4);
  }

  lemma ShiftFour(bits: seq<bool>, k: nat)
    requires |bits| == 8 && k <= 4
    ensures Shifted(bits, k + 4) == 16 * Shifted(bits, k) + Only(bits[k], 8) + Only(bits[k + 1], 4)
                                    + Only(bits[k + 2], 2) + Only(bits[k + 3], 1)
  {
    assert Shifted(bits, k + 2) == 2 * Shifted(bits, k + 1) + Only(bits[k + 1], 1);
    assert Shifted(bits, k + 4) == 2 * Shifted(bits, k + 3) + Only(bits[k + 3], 1);
  }
}
