/** Programming the two synthesizers: 32-bit arithmetic, a search for the finest step, and bit packing. */
module Tuner {
  import opened Common

  type U32 = x: int | 0 <= x < 0x1_0000_0000

  /** Division rounded to the nearest, in 32 bits: the sum may wrap. */
  function RoundDiv(n: U32, d: U32): U32
    requires d > 0
  {
    Quotient((n + d / 2) % WORD, d)
  }

  function Quotient(a: U32, d: U32): U32
    requires d > 0
  {
    a / d
  }

  lemma Euclid(a: U32, d: U32)
    requires d > 0
    ensures Quotient(a, d) * d <= a < Quotient(a, d) * d + d
  {
  }

  /** A frequency a device is tuned to, in steps, is the wanted one to within half a step. */
  predicate Near(steps: nat, step: nat, hz: nat) {
    2 * (steps * step - hz) <= step && 2 * (hz - steps * step) <= step
  }

  /** The quotient is a nearest one as long as the sum does not wrap; when it wraps the quotient is 0. */
  lemma RoundDivNear(n: U32, d: U32)
    requires d > 0
    ensures n + d / 2 < WORD ==> Near(RoundDiv(n, d), d, n)
    ensures n + d / 2 >= WORD ==> RoundDiv(n, d) == 0
  {
    if n + d / 2 < WORD {
      Euclid(n + d / 2, d);
      assert d / 2 * 2 <= d <= d / 2 * 2 + 1;
    } else {
      var a := (n + d / 2) % WORD;
      assert a == n + d / 2 - WORD < d;
      Euclid(a, d);
      Below(Quotient(a, d), d);
    }
  }

  lemma Below(q: nat, d: nat)
    requires q * d < d
    ensures q == 0
  {
  }

  // ---------------------------------------------------------------- SP5659, cable and terrestrial

  const INTERMEDIATE: nat := 36125000
  const STEP5659: U32 := 62500

  /** The four bytes of the SP5659; the last one chooses the band. */
  datatype Frame5659 = Frame5659(b0: nat, b1: nat, b2: nat, b3: nat)

  method SetFreq5659(freq: U32) returns (f: Frame5659)
    ensures Divider5659(f) == RoundDiv((freq + 36125000) % 0x1_0000_0000, 62500)
    ensures Near(Divider5659(f), 62500, freq + 36125000) <==> freq + 36125000 + 31250 < 0x1_0000_0000
    ensures f.b0 < 0x80 && f.b1 < 0x100 && f.b2 / 0x80 == 1 && f.b2 % 0x20 == 0x05
    ensures f.b3 == if freq < 174000000 then 0x02 else if freq < 455000000 then 0x01 else 0x04
  {
    var div := RoundDiv((freq + INTERMEDIATE) % WORD, STEP5659);
    f := Frame5659(
      div / 0x100 % 0x80,
      div % 0x100,
      0x85 + div / 0x8000 % 4 * 0x20, // bits 15 and 16 of the divider, moved to bits 5 and 6
      if freq < 174000000 then 0x02 else if freq < 455000000 then 0x01 else 0x04);
    Rounded5659(freq);
    DividerSplits(div);
  }

  lemma Rounded5659(freq: U32)
    ensures Near(RoundDiv((freq + INTERMEDIATE) % WORD, STEP5659), STEP5659, freq + INTERMEDIATE)
        <==> freq + INTERMEDIATE + STEP5659 / 2 < WORD
  {
    RoundDivNear((freq + INTERMEDIATE) % WORD, STEP5659);
  }

  /** The 17-bit divider the synthesizer takes from the bytes. */
  function Divider5659(f: Frame5659): nat {
    f.b2 / 0x20 % 4 * 0x8000 + f.b0 * 0x100 + f.b1
  }

  lemma DividerSplits(div: nat)
    requires div < 0x20000
    ensures div / 0x8000 % 4 * 0x8000 + div / 0x100 % 0x80 * 0x100 + div % 0x100 == div
  {
    assert div / 0x100 / 0x80 == div / 0x8000;
  }

  // ---------------------------------------------------------------- SP5668, satellite

  function Ratio(sel: nat): U32
    requires sel < 8
  {
    match sel
    case 0 => 2000000 case 1 => 1000000 case 2 => 500000 case 3 => 250000
    case 4 => 125000 case 5 => 62500 case 6 => 31250 case 7 => 15625
  }

  /** The comparison steps double from 15625 Hz to 2 MHz. */
  function Step(sel: nat): (r: nat)
    requires sel < 8
    ensures r > 0
    decreases 7 - sel
  {
    if sel == 7 then 15625 else 2 * Step(sel + 1)
  }

  lemma StepIs(sel: nat)
    requires sel < 8
    ensures Step(sel) == Ratio(sel)
    decreases 7 - sel
  {
    if sel < 7 { StepIs(sel + 1); }
  }

  const DIVIDER_MAX: nat := 0x3FFF

  datatype Programming = Refused | Programmed(b0: nat, b1: nat, b2: nat, b3: nat)

  function Bit(on: bool): nat { if on then 1 else 0 }

  /** What the synthesizer makes of the bytes: the step of its comparison frequency, doubled by the prescaler. */
  function StepOf(p: Programming): nat
    requires p.Programmed?
  {
    if p.b1 / 2 % 2 == 1 then 2 * Step(p.b1 / 4 % 8) else Step(p.b1 / 4 % 8)
  }

  function DividerOf(p: Programming): nat
    requires p.Programmed?
  {
    p.b1 % 2 * 0x10000 + p.b2 * 0x100 + p.b3
  }

  /** The four bytes. A ratio number of 8 would fall on the charge pump bit, which is set anyway. */
  function Packed(sel: nat, pe: nat, div: nat): Programming {
    Programmed(0x01, 0x20 + (sel + pe) % 8 * 4 + pe * 2 + div / 0x10000 % 2, div / 0x100 % 0x100, div % 0x100)
  }

  predicate Formed(p: Programming, pe: nat) {
    p.Programmed? && p.b0 == 1 && p.b1 / 0x20 == 1 && p.b1 < 0x100 && p.b2 < 0x100 && p.b3 < 0x100
    && p.b1 / 2 % 2 == pe
  }

  /** Decoding gives back what was packed; prescaling by two cancels the halved comparison frequency. */
  lemma PackedMeans(sel: nat, pe: nat, div: nat)
    requires sel < 8 && pe < 2 && div <= DIVIDER_MAX
    ensures var p := Packed(sel, pe, div);
      Formed(p, pe) && DividerOf(p) == div && (sel + pe < 8 ==> StepOf(p) == Ratio(sel))
  {
    var p := Packed(sel, pe, div);
    assert p.b1 / 4 % 8 == (sel + pe) % 8;
    StepIs(sel);
    StepIs((sel + pe) % 8);
    assert div / 0x100 % 0x100 * 0x100 + div % 0x100 == div;
  }

  /** The frequency asked for, in Hz. */
  function Wanted(frequency: nat): nat { (frequency + 479500) * 1000 }

  /** The same, in 32 bits. */
  function Hz(frequency: U32): (freq: U32)
    ensures frequency <= 3815467 ==> freq == Wanted(frequency)
  {
    (frequency + 479500) % WORD * 1000 % WORD
  }

  /** The finest step whose divider fits 14 bits. */
  ghost predicate Finest(step: nat, hz: nat) {
    exists sel :: 0 <= sel < 8 && step == Step(sel) && Fits(sel, hz) && forall s :: sel < s < 8 ==> !Fits(s, hz)
  }

  predicate Fits(sel: nat, hz: nat)
    requires sel < 8
  {
    (hz + Step(sel) / 2) / Step(sel) <= 16383
  }

  /** Of the accepted frequencies, exactly those up to 3815217 kHz are reached, by the finest step. */
  method SetFreq5668(frequency: U32) returns (p: Programming)
    ensures p.Refused? <==> frequency > 3815467
    ensures p.Programmed? ==> Formed(p, Bit(Wanted(frequency) >= 2000000000))
    ensures p.Programmed? ==>
      (Near(DividerOf(p), StepOf(p), Wanted(frequency)) <==> frequency <= 3815217)
    ensures frequency <= 3815217 ==> Finest(StepOf(p), Wanted(frequency))
  {
    var freq := Hz(frequency);
    if frequency > 3815467 { return Refused; }
    var pe := Bit(freq >= 2000000000);
    var sel, div := Search(freq);
    p := Fill(freq, sel, pe, div);
  }

  method Fill(freq: U32, sel: nat, pe: nat, div: U32) returns (p: Programming)
    requires Stopped(freq, sel, div) && pe == Bit(freq >= 2000000000)
    ensures Formed(p, pe)
    ensures Near(DividerOf(p), StepOf(p), freq) <==> freq + 250000 < WORD
    ensures freq + 250000 < WORD ==> Finest(StepOf(p), freq)
  {
    p := Packed(sel, pe, div);
    if freq + 250000 < WORD { Reached(freq, sel, pe, div); } else { Unreached(freq, sel, pe, div); }
  }

  /** What the search stops at. */
  ghost predicate Stopped(freq: U32, sel: nat, div: U32) {
    sel < 8 && div == RoundDiv(freq, Ratio(sel)) <= DIVIDER_MAX
    && forall s :: sel < s < 8 ==> RoundDiv(freq, Ratio(s)) > DIVIDER_MAX
  }

  lemma Reached(freq: U32, sel: nat, pe: nat, div: U32)
    requires Stopped(freq, sel, div) && pe == Bit(freq >= 2000000000) && freq + 250000 < WORD
    ensures var p := Packed(sel, pe, div);
      Formed(p, pe) && Near(DividerOf(p), StepOf(p), freq) && Finest(StepOf(p), freq)
  {
    PackedMeans(sel, pe, div);
    StopsInTime(freq, sel, div);
    RoundDivNear(freq, Ratio(sel));
    SearchFinds(freq, sel);
  }

  lemma Unreached(freq: U32, sel: nat, pe: nat, div: U32)
    requires Stopped(freq, sel, div) && pe == Bit(freq >= 2000000000) && freq + 250000 >= WORD
    ensures var p := Packed(sel, pe, div); Formed(p, pe) && !Near(DividerOf(p), StepOf(p), freq)
  {
    PackedMeans(sel, pe, div);
    WrapsFirst(freq, sel, div);
    RoundDivNear(freq, Ratio(sel));
    ZeroIsFar(Packed(sel, pe, div), freq);
  }

  /** A divider of 0 is far from any frequency that makes the sum wrap. */
  lemma ZeroIsFar(p: Programming, hz: nat)
    requires p.Programmed? && DividerOf(p) == 0 && hz > 2000000
    ensures !Near(DividerOf(p), StepOf(p), hz)
  {
    StepIs(p.b1 / 4 % 8);
  }

  /** The first divider that fits, from the finest step on; some step always fits. */
  method Search(freq: U32) returns (sel: int, div: U32)
    ensures 0 <= sel && Stopped(freq, sel, div)
  {
    sel, div := 7, 0;
    while sel >= 0
      invariant -1 <= sel < 8
      invariant forall s :: sel < s < 8 ==> RoundDiv(freq, Ratio(s)) > DIVIDER_MAX
    {
      div := RoundDiv(freq, Ratio(sel));
      if div <= DIVIDER_MAX { return; }
      sel := sel - 1;
    }
    MiddleFits(freq);
    assert false;
  }

  lemma MiddleFits(freq: U32)
    ensures RoundDiv(freq, Ratio(2)) <= DIVIDER_MAX
  {
  }

  /** Without wrap-around the search ends early enough for the prescaled ratio to have a number. */
  lemma StopsInTime(freq: U32, sel: nat, div: U32)
    requires Stopped(freq, sel, div)
    requires freq + 250000 < WORD
    ensures sel >= 2 && freq + Ratio(sel) / 2 < WORD
    ensures freq >= 2000000000 ==> sel < 7
  {
    MiddleFits(freq);
  }

  /** Where the coarsest step the search can reach wraps, every step it can stop at wraps. */
  lemma WrapsFirst(freq: U32, sel: nat, div: U32)
    requires Stopped(freq, sel, div)
    requires freq + 250000 >= WORD
    ensures freq + Ratio(sel) / 2 >= WORD
  {
    MiddleFits(freq);
  }

  lemma SearchFinds(freq: U32, sel: nat)
    requires 2 <= sel < 8 && RoundDiv(freq, Ratio(sel)) <= DIVIDER_MAX
    requires forall s :: sel < s < 8 ==> RoundDiv(freq, Ratio(s)) > DIVIDER_MAX
    requires freq + 250000 < WORD
    ensures Finest(Ratio(sel), freq)
  {
    StepIs(sel);
    forall s | sel <= s < 8 ensures Fits(s, freq) <==> RoundDiv(freq, Ratio(s)) <= DIVIDER_MAX { FitsIs(freq, s); }
  }

  lemma FitsIs(freq: U32, s: nat)
    requires 2 <= s < 8 && freq + 250000 < WORD
    ensures Fits(s, freq) <==> RoundDiv(freq, Ratio(s)) <= DIVIDER_MAX
  {
    StepIs(s);
    assert (freq + Ratio(s) / 2) % WORD == freq + Ratio(s) / 2;
  }
}
