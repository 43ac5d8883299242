/** The DirectFB blit: rows split into transfers that allow for odd addresses with two flags computed once per blit. */
module GtxBlit {
  import opened Common
  import opened GtAccel
  import opened GtGraphics

  function Sum(ts: seq<Transfer>): nat
    decreases |ts|
  {
    if ts == [] then 0 else Sum(ts[..|ts| - 1]) + ts[|ts| - 1].len
  }

  lemma {:induction false} SumAppend(s: seq<Transfer>, t: seq<Transfer>)
    ensures Sum(s + t) == Sum(s) + Sum(t)
    decreases |t|
  {
    if t == [] {
      assert s + t == s;
    } else {
      SumAppend(s, t[..|t| - 1]);
      assert (s + t)[..|s + t| - 1] == s + t[..|t| - 1];
    }
  }

  lemma FitAppend(s: seq<Transfer>, t: seq<Transfer>, chip: Chip)
    ensures AllFit(s + t, chip) <==> AllFit(s, chip) && AllFit(t, chip)
  {
    forall i | 0 <= i < |s| ensures s[i] == (s + t)[i] { }
    forall i | 0 <= i < |t| ensures t[i] == (s + t)[|s| + i] { }
  }

  /** Whether one address is odd, and whether both are. */
  datatype Flags = Flags(either: bool, both: bool)

  function FlagsOf(cda: nat, csa: nat): Flags {
    Flags(cda % 2 == 1 || csa % 2 == 1, cda % 2 == 1 && csa % 2 == 1)
  }

  /** The flags of the first row hold for all rows. */
  ghost predicate FlagsStay(cda: nat, csa: nat, dstPitch: nat, srcPitch: nat, height: nat) {
    forall r: nat {:trigger RowStart(cda, r, dstPitch)} :: r < height ==>
      FlagsOf(RowStart(cda, r, dstPitch), RowStart(csa, r, srcPitch)) == FlagsOf(cda, csa)
  }

  function RowStart(base: nat, r: nat, pitch: nat): nat {
    if r == 0 then base else RowStart(base, r - 1, pitch) + pitch
  }

  lemma {:induction false} RowParity(base: nat, r: nat, pitch: nat)
    ensures RowStart(base, r, pitch) % 2 == if pitch % 2 == 0 || r % 2 == 0 then base % 2 else 1 - base % 2
  {
    if r > 0 {
      RowParity(base, r - 1, pitch);
      SumParity(RowStart(base, r - 1, pitch), pitch);
    }
  }

  lemma SumParity(x: nat, y: nat)
    ensures (x + y) % 2 == if y % 2 == 0 then x % 2 else 1 - x % 2
  {
  }

  /** Exactly when the flags hold for all rows: with even pitches, or by luck. */
  lemma FlagsStayIff(cda: nat, csa: nat, dstPitch: nat, srcPitch: nat, height: nat)
    ensures FlagsStay(cda, csa, dstPitch, srcPitch, height) <==>
      height <= 1 || (dstPitch % 2 == 0 && srcPitch % 2 == 0)
      || (dstPitch % 2 == 1 && srcPitch % 2 == 1 && cda % 2 != csa % 2)
  {
    forall r: nat
      ensures RowStart(cda, r, dstPitch) % 2 == if dstPitch % 2 == 0 || r % 2 == 0 then cda % 2 else 1 - cda % 2
      ensures RowStart(csa, r, srcPitch) % 2 == if srcPitch % 2 == 0 || r % 2 == 0 then csa % 2 else 1 - csa % 2
    {
      RowParity(cda, r, dstPitch);
      RowParity(csa, r, srcPitch);
    }
    if height > 1 {
      assert RowStart(cda, 1, dstPitch) % 2 == if dstPitch % 2 == 0 then cda % 2 else 1 - cda % 2;
      assert FlagsStay(cda, csa, dstPitch, srcPitch, height) ==>
        FlagsOf(RowStart(cda, 1, dstPitch), RowStart(csa, 1, srcPitch)) == FlagsOf(cda, csa);
    }
  }

  /** Whether the rest of a row fits that is sent as if `odd` said whether an address is odd now, and `both` whether
      both were odd at the start: claimed oddness is harmless, oddness that is missed makes a full transfer too long. */
  predicate RestFits(chip: Chip, odd: nat, both: bool, now: Flags, w: nat) {
    if odd == 0 then !now.either || w < MaxTransaction(chip)
    else !both || now.both || w < 2 * MaxTransaction(chip) - 1
  }

  predicate RowFits(chip: Chip, claimed: Flags, now: Flags, width: nat) {
    RestFits(chip, if claimed.either then 1 else 0, claimed.both, now, width)
  }

  /** Exactly when all rows of a blit fit with the flags of the first. */
  predicate BlitFits(chip: Chip, first: Flags, dstPitch: nat, srcPitch: nat, width: nat, height: nat) {
    height <= 1 || (dstPitch % 2 == 0 && srcPitch % 2 == 0) || (first.either && !first.both)
    || width < if first.both then (if chip.Enx? then 127 else 31) else if chip.Enx? then 64 else 16
  }

  lemma BlitFitsIff(chip: Chip, cda: nat, csa: nat, dstPitch: nat, srcPitch: nat, width: nat, height: nat)
    ensures RowsFit(chip, cda, csa, dstPitch, srcPitch, width, height)
      <==> BlitFits(chip, FlagsOf(cda, csa), dstPitch, srcPitch, width, height)
    ensures FlagsStay(cda, csa, dstPitch, srcPitch, height) ==>
      BlitFits(chip, FlagsOf(cda, csa), dstPitch, srcPitch, width, height)
  {
    FlagsStayIff(cda, csa, dstPitch, srcPitch, height);
    forall r: nat
      ensures RowStart(cda, r, dstPitch) % 2 == if dstPitch % 2 == 0 || r % 2 == 0 then cda % 2 else 1 - cda % 2
      ensures RowStart(csa, r, srcPitch) % 2 == if srcPitch % 2 == 0 || r % 2 == 0 then csa % 2 else 1 - csa % 2
    {
      RowParity(cda, r, dstPitch);
      RowParity(csa, r, srcPitch);
    }
    if height > 1 { assert RowStart(cda, 1, dstPitch) >= 0; }
  }

  /** The first `rows` rows of a blit fit with the flags of its first one. */
  ghost predicate RowsFit(chip: Chip, cda: nat, csa: nat, dstPitch: nat, srcPitch: nat, width: nat, rows: nat) {
    forall r: nat {:trigger RowStart(cda, r, dstPitch)} :: r < rows ==>
      RowFits(chip, FlagsOf(cda, csa), FlagsOf(RowStart(cda, r, dstPitch), RowStart(csa, r, srcPitch)), width)
  }

  /** One row, with flags that may be true of its first byte or not. */
  method Row(e: Engine, cda: nat, csa: nat, width: nat, odd1: bool, odd2: bool) returns (ghost done: seq<Transfer>)
    requires cda + width <= e.mem.Length && csa + width <= e.mem.Length
    modifies e`csa, e`cda, e`log, e.mem
    ensures Safe(csa, cda, width) ==> Copied(e.mem[..], old(e.mem[..]), csa, cda, width)
    ensures e.log == old(e.log) + done && Sum(done) == width
    ensures AllFit(done, e.chip) <==> RowFits(e.chip, Flags(odd1, odd2), FlagsOf(cda, csa), width)
  {
    ghost var was := e.mem[..];
    var odd, w := if odd1 then 1 else 0, width;
    e.SetAddresses(csa, cda);
    done := [];
    while w > 0
      invariant 0 <= w <= width && e.csa == csa + (width - w) && e.cda == cda + (width - w)
      invariant Safe(csa, cda, width) ==> Copied(e.mem[..], was, csa, cda, width - w)
      invariant e.log == old(e.log) + done && Sum(done) == width - w && 0 <= odd <= 1
      invariant RowFits(e.chip, Flags(odd1, odd2), FlagsOf(cda, csa), width)
        <==> AllFit(done, e.chip) && RestFits(e.chip, odd, odd2, FlagsOf(e.cda, e.csa), w)
    {
      ghost var t := Transfer(0, 0, 0);
      var cw;
      cw, t := RowNext(e, cda, csa, width, w, odd, odd2, was);
      SumOne(done, t);
      LogOne(done, t, e.chip);
      done := done + [t];
      if odd2 { odd := 0; }
      w := w - cw;
    }
  }

  /** One transfer of a row. */
  method RowNext(e: Engine, ghost cda: nat, ghost csa: nat, ghost width: nat, w: nat, odd: nat, ghost odd2: bool,
                 ghost was: seq<Byte>)
    returns (cw: nat, ghost t: Transfer)
    requires 0 < w <= width && cda + width <= e.mem.Length && csa + width <= e.mem.Length && odd <= 1
    requires e.csa == csa + (width - w) && e.cda == cda + (width - w)
    requires Safe(csa, cda, width) ==> Copied(e.mem[..], was, csa, cda, width - w)
    modifies e`csa, e`cda, e`log, e.mem
    ensures 0 < cw <= w && t.len == cw && e.log == old(e.log) + [t]
    ensures cw == if e.chip.Enx? then (if w > 63 then 64 - odd else w) else if w > 15 then 16 - odd else w
    ensures e.csa == csa + (width - (w - cw)) && e.cda == cda + (width - (w - cw))
    ensures Safe(csa, cda, width) ==> Copied(e.mem[..], was, csa, cda, width - (w - cw))
    ensures RestFits(e.chip, odd, odd2, old(FlagsOf(e.cda, e.csa)), w)
      <==> t.Fits(e.chip) && RestFits(e.chip, if odd2 then 0 else odd, odd2, FlagsOf(e.cda, e.csa), w - cw)
    ensures 0 < t.len <= MaxTransaction(e.chip)
  {
    cw := NextLength(e.chip, w, odd);
    ghost var mid := e.mem[..];
    t := Transfer(e.csa, e.cda, cw);
    RowStep(e.chip, e.cda, e.csa, w, odd, odd2);
    e.Command(cw);
    if Safe(csa, cda, width) { Onwards(e.mem[..], mid, was, csa, cda, width - w, cw, width); }
  }

  function NextLength(chip: Chip, w: nat, odd: nat): int {
    if w > MaxTransaction(chip) - 1 then MaxTransaction(chip) - odd else w
  }

  /** The rest of a row fits exactly if the next transfer does and the rest after that. */
  lemma RowStep(chip: Chip, cda: nat, csa: nat, w: nat, odd: nat, odd2: bool)
    requires odd <= 1 && w > 0
    ensures var cw := NextLength(chip, w, odd);
      && 0 < cw <= w
      && (RestFits(chip, odd, odd2, FlagsOf(cda, csa), w) <==>
            Transfer(csa, cda, cw).Fits(chip)
            && RestFits(chip, if odd2 then 0 else odd, odd2, FlagsOf(cda + cw, csa + cw), w - cw))
  {
  }

  lemma SumOne(ts: seq<Transfer>, t: Transfer)
    ensures Sum(ts + [t]) == Sum(ts) + t.len
  {
    assert (ts + [t])[..|ts|] == ts;
  }

  predicate InRow(a: int, base: nat, r: nat, pitch: nat, width: nat) {
    RowStart(base, r, pitch) <= a < RowStart(base, r, pitch) + width
  }

  /** No row is written where an earlier row was, or reads what an earlier row or itself has overwritten. */
  ghost predicate RowsApart(cda: nat, csa: nat, dstPitch: nat, srcPitch: nat, width: nat, height: nat) {
    (forall r: nat {:trigger RowStart(cda, r, dstPitch)} :: r < height ==>
       Safe(RowStart(csa, r, srcPitch), RowStart(cda, r, dstPitch), width))
    && forall q: nat, r: nat {:trigger RowStart(cda, q, dstPitch), RowStart(csa, r, srcPitch)} :: q < r < height ==>
         Clear(RowStart(cda, q, dstPitch), RowStart(cda, r, dstPitch), width)
         && Clear(RowStart(cda, q, dstPitch), RowStart(csa, r, srcPitch), width)
  }

  /** Two stretches of memory share no byte. */
  predicate Clear(x: nat, y: nat, n: nat) { x + n <= y || y + n <= x }

  lemma {:induction false} RowsGrow(base: nat, q: nat, r: nat, pitch: nat)
    requires q <= r
    ensures RowStart(base, q, pitch) <= RowStart(base, r, pitch)
    ensures q < r ==> RowStart(base, q, pitch) + pitch <= RowStart(base, r, pitch)
    decreases r
  {
    if q < r { RowsGrow(base, q, r - 1, pitch); }
  }

  lemma {:induction false} RowStartIs(base: nat, r: nat, pitch: nat)
    ensures RowStart(base, r, pitch) == base + r * pitch
  {
    if r > 0 {
      RowStartIs(base, r - 1, pitch);
      assert r * pitch == (r - 1) * pitch + pitch;
    }
  }

  /** A byte of row r of a rectangle is in the rectangle. */
  lemma RowInRect(base: nat, r: nat, pitch: nat, width: nat, height: nat, k: nat)
    requires k < width <= pitch && r < height
    ensures InRect(RowStart(base, r, pitch) + k, base, pitch, width, height)
  {
    RowStartIs(base, r, pitch);
    InRectAt(base, pitch, width, height, r, k);
  }

  /** Between surfaces that share no memory rows are apart, whatever the pitch of the source. */
  lemma SurfacesApart(cda: nat, csa: nat, dstPitch: nat, srcPitch: nat, width: nat, height: nat)
    requires width <= dstPitch && height > 0
    requires RowStart(cda, height - 1, dstPitch) + width <= csa || RowStart(csa, height - 1, srcPitch) + width <= cda
    ensures RowsApart(cda, csa, dstPitch, srcPitch, width, height)
  {
    forall r: nat | r < height
      ensures cda <= RowStart(cda, r, dstPitch) <= RowStart(cda, height - 1, dstPitch)
      ensures csa <= RowStart(csa, r, srcPitch) <= RowStart(csa, height - 1, srcPitch)
    {
      RowsGrow(cda, 0, r, dstPitch); RowsGrow(cda, r, height - 1, dstPitch);
      RowsGrow(csa, 0, r, srcPitch); RowsGrow(csa, r, height - 1, srcPitch);
    }
    forall q: nat, r: nat | q < r < height
      ensures RowStart(cda, q, dstPitch) + dstPitch <= RowStart(cda, r, dstPitch)
    {
      RowsGrow(cda, q, r, dstPitch);
    }
  }

  /** Within a surface they are if the rectangles are safe to copy upwards. */
  lemma SafeRowsApart(cda: nat, csa: nat, pitch: nat, width: nat, height: nat)
    requires width <= pitch && SafeRect(csa, cda, pitch, width, height)
    ensures RowsApart(cda, csa, pitch, pitch, width, height)
  {
    forall r: nat {:trigger RowStart(cda, r, pitch)} | r < height
      ensures Safe(RowStart(csa, r, pitch), RowStart(cda, r, pitch), width)
    {
      RowStartIs(cda, r, pitch);
      RowStartIs(csa, r, pitch);
      if width > 0 { SafeLine(csa, cda, pitch, width, r, height); }
    }
    forall q: nat, r: nat {:trigger RowStart(cda, q, pitch), RowStart(csa, r, pitch)} | q < r < height
      ensures Clear(RowStart(cda, q, pitch), RowStart(cda, r, pitch), width)
      ensures Clear(RowStart(cda, q, pitch), RowStart(csa, r, pitch), width)
    {
      RowsGrow(cda, q, r, pitch);
      RowClear(cda, csa, pitch, width, height, q, r);
    }
  }

  lemma RowClear(cda: nat, csa: nat, pitch: nat, width: nat, height: nat, q: nat, r: nat)
    requires width <= pitch && SafeRect(csa, cda, pitch, width, height) && q < r < height
    ensures Clear(RowStart(cda, q, pitch), RowStart(csa, r, pitch), width)
  {
    var x, y := RowStart(cda, q, pitch), RowStart(csa, r, pitch);
    if cda <= csa {
      RowsGrow(cda, q, r, pitch);
      RowStartIs(cda, r, pitch);
      RowStartIs(csa, r, pitch);
    } else if x <= y < x + width {
      RowInRect(cda, q, pitch, width, height, y - x);
      RowInRect(csa, r, pitch, width, height, 0);
    } else if y <= x < y + width {
      RowInRect(cda, q, pitch, width, height, 0);
      RowInRect(csa, r, pitch, width, height, x - y);
    }
  }

  /** In pixels: within a surface that starts at `base`, rectangles that do not overlap, or a copy to lower
      addresses. */
  lemma RectsApart(base: nat, from: Rect, to: Rect, pitch: nat, pw: nat)
    requires from.w == to.w && from.h == to.h && pw > 0
    requires (from.x + from.w) * pw <= pitch && (to.x + to.w) * pw <= pitch
    requires !from.Overlaps(to) || Offset(to.x, to.y, pitch, pw) <= Offset(from.x, from.y, pitch, pw)
    ensures RowsApart(base + Offset(to.x, to.y, pitch, pw), base + Offset(from.x, from.y, pitch, pw), pitch, pitch,
                      from.w * pw, from.h)
  {
    var s, d, bytes := Offset(from.x, from.y, pitch, pw), Offset(to.x, to.y, pitch, pw), from.w * pw;
    if d > s {
      ApartIsSafe(from, to, pitch, pw);
      forall a {:trigger InRect(a, base + s, pitch, bytes, from.h)}
        ensures !(InRect(a, base + s, pitch, bytes, from.h) && InRect(a, base + d, pitch, bytes, from.h))
      {
        Shifted(a, base, s, pitch, bytes, from.h);
        Shifted(a, base, d, pitch, bytes, from.h);
      }
    }
    assert (from.x + from.w) * pw == from.x * pw + bytes;
    SafeRowsApart(base + d, base + s, pitch, bytes, from.h);
  }

  lemma Shifted(a: int, base: nat, s: nat, stride: nat, bytes: nat, lines: nat)
    ensures InRect(a, base + s, stride, bytes, lines) <==> InRect(a - base, s, stride, bytes, lines)
  {
    assert a - (base + s) == a - base - s;
  }

  /** Where the byte at a comes from: the source of the last of the first rows that covers it, or itself. */
  function From(a: int, cda: nat, csa: nat, dstPitch: nat, srcPitch: nat, width: nat, rows: nat): int {
    if rows == 0 then a
    else if InRow(a, cda, rows - 1, dstPitch, width) then
      a - RowStart(cda, rows - 1, dstPitch) + RowStart(csa, rows - 1, srcPitch)
    else From(a, cda, csa, dstPitch, srcPitch, width, rows - 1)
  }

  /** With rows apart, that is the source of the row that covers it. */
  lemma {:induction false} FromMeans(a: int, cda: nat, csa: nat, dstPitch: nat, srcPitch: nat, width: nat, rows: nat,
                                     height: nat, r: nat)
    requires r < rows <= height && RowsApart(cda, csa, dstPitch, srcPitch, width, height)
    requires InRow(a, cda, r, dstPitch, width)
    ensures From(a, cda, csa, dstPitch, srcPitch, width, rows)
         == a - RowStart(cda, r, dstPitch) + RowStart(csa, r, srcPitch)
  {
    if r < rows - 1 {
      assert RowStart(csa, rows - 1, srcPitch) >= 0;
      assert Clear(RowStart(cda, r, dstPitch), RowStart(cda, rows - 1, dstPitch), width);
      FromMeans(a, cda, csa, dstPitch, srcPitch, width, rows - 1, height, r);
    }
  }

  /** A byte that no row covers stays. */
  lemma {:induction false} FromSelf(a: int, cda: nat, csa: nat, dstPitch: nat, srcPitch: nat, width: nat, rows: nat)
    requires forall r: nat :: r < rows ==> !InRow(a, cda, r, dstPitch, width)
    ensures From(a, cda, csa, dstPitch, srcPitch, width, rows) == a
  {
    if rows > 0 { FromSelf(a, cda, csa, dstPitch, srcPitch, width, rows - 1); }
  }

  /** A byte of a source row is covered by no earlier destination row. */
  lemma {:induction false} SourceStays(x: int, cda: nat, csa: nat, dstPitch: nat, srcPitch: nat, width: nat, rows: nat,
                                       row: nat, height: nat)
    requires rows <= row < height && RowsApart(cda, csa, dstPitch, srcPitch, width, height)
    requires InRow(x, csa, row, srcPitch, width)
    ensures From(x, cda, csa, dstPitch, srcPitch, width, rows) == x
  {
    if rows > 0 {
      assert RowStart(cda, row, dstPitch) >= 0;
      assert !InRow(x, cda, rows - 1, dstPitch, width);
      SourceStays(x, cda, csa, dstPitch, srcPitch, width, rows - 1, row, height);
    }
  }

  predicate Holds(now: seq<Byte>, was: seq<Byte>, a: nat, x: int) {
    0 <= x < |was| && a < |now| && now[a] == was[x]
  }

  /** Every byte holds what was where it comes from. */
  ghost predicate Painted(now: seq<Byte>, was: seq<Byte>, cda: nat, csa: nat, dstPitch: nat, srcPitch: nat,
                          width: nat, rows: nat) {
    |now| == |was|
    && forall a :: 0 <= a < |was| ==>
         Holds(now, was, a, From(a, cda, csa, dstPitch, srcPitch, width, rows))
  }

  lemma PaintNext(now: seq<Byte>, mid: seq<Byte>, was: seq<Byte>, cda: nat, csa: nat, dstPitch: nat, srcPitch: nat,
                  width: nat, row: nat, height: nat)
    requires row < height && RowsApart(cda, csa, dstPitch, srcPitch, width, height)
    requires Painted(mid, was, cda, csa, dstPitch, srcPitch, width, row)
    requires Copied(now, mid, RowStart(csa, row, srcPitch), RowStart(cda, row, dstPitch), width)
    ensures Painted(now, was, cda, csa, dstPitch, srcPitch, width, row + 1)
  {
    var rows := row + 1;
    forall a | 0 <= a < |was|
      ensures Holds(now, was, a, From(a, cda, csa, dstPitch, srcPitch, width, rows))
    {
      PaintByte(now, mid, was, cda, csa, dstPitch, srcPitch, width, row, height, a);
    }
  }

  lemma PaintByte(now: seq<Byte>, mid: seq<Byte>, was: seq<Byte>, cda: nat, csa: nat, dstPitch: nat, srcPitch: nat,
                  width: nat, row: nat, height: nat, a: nat)
    requires row < height && RowsApart(cda, csa, dstPitch, srcPitch, width, height)
    requires Painted(mid, was, cda, csa, dstPitch, srcPitch, width, row) && a < |was|
    requires Copied(now, mid, RowStart(csa, row, srcPitch), RowStart(cda, row, dstPitch), width)
    ensures Holds(now, was, a, From(a, cda, csa, dstPitch, srcPitch, width, row + 1))
  {
    if InRow(a, cda, row, dstPitch, width) {
      var x := a - RowStart(cda, row, dstPitch) + RowStart(csa, row, srcPitch);
      assert now[a] == mid[x];
      SourceStays(x, cda, csa, dstPitch, srcPitch, width, row, row, height);
      assert Holds(mid, was, x, From(x, cda, csa, dstPitch, srcPitch, width, row));
    } else {
      assert now[a] == mid[a];
      assert Holds(mid, was, a, From(a, cda, csa, dstPitch, srcPitch, width, row));
    }
  }

  lemma NothingPainted(m: seq<Byte>, cda: nat, csa: nat, dstPitch: nat, srcPitch: nat, width: nat)
    ensures Painted(m, m, cda, csa, dstPitch, srcPitch, width, 0)
  {
  }

  /** One of the rows of a blit, with the flags of the first row. */
  method BlitRow(e: Engine, cda: nat, csa: nat, width: nat, odd1: bool, odd2: bool, ghost cda0: nat, ghost csa0: nat,
                 ghost dstPitch: nat, ghost srcPitch: nat, ghost row: nat, ghost height: nat, ghost was: seq<Byte>)
    returns (ghost done: seq<Transfer>)
    requires row < height && cda == RowStart(cda0, row, dstPitch) && csa == RowStart(csa0, row, srcPitch)
    requires cda + width <= e.mem.Length && csa + width <= e.mem.Length && Flags(odd1, odd2) == FlagsOf(cda0, csa0)
    requires RowsApart(cda0, csa0, dstPitch, srcPitch, width, height) ==>
      Painted(e.mem[..], was, cda0, csa0, dstPitch, srcPitch, width, row)
    modifies e`csa, e`cda, e`log, e.mem
    ensures e.log == old(e.log) + done && Sum(done) == width
    ensures AllFit(done, e.chip) <==> RowFits(e.chip, FlagsOf(cda0, csa0), FlagsOf(cda, csa), width)
    ensures RowsApart(cda0, csa0, dstPitch, srcPitch, width, height) ==>
      Painted(e.mem[..], was, cda0, csa0, dstPitch, srcPitch, width, row + 1)
  {
    ghost var mid := e.mem[..];
    done := Row(e, cda, csa, width, odd1, odd2);
    if RowsApart(cda0, csa0, dstPitch, srcPitch, width, height) {
      PaintNext(e.mem[..], mid, was, cda0, csa0, dstPitch, srcPitch, width, row, height);
    }
  }

  /** A blit of `height` rows. */
  method Blit(e: Engine, cda0: nat, csa0: nat, dstPitch: nat, srcPitch: nat, width: nat, height: nat)
    returns (ghost done: seq<Transfer>)
    requires forall r: nat {:trigger RowStart(cda0, r, dstPitch)} :: r < height ==>
      RowStart(cda0, r, dstPitch) + width <= e.mem.Length && RowStart(csa0, r, srcPitch) + width <= e.mem.Length
    modifies e`csa, e`cda, e`log, e.mem
    ensures e.log == old(e.log) + done && Sum(done) == height * width
    ensures RowsApart(cda0, csa0, dstPitch, srcPitch, width, height) ==>
      Painted(e.mem[..], old(e.mem[..]), cda0, csa0, dstPitch, srcPitch, width, height)
    ensures AllFit(done, e.chip) <==> BlitFits(e.chip, FlagsOf(cda0, csa0), dstPitch, srcPitch, width, height)
    ensures FlagsStay(cda0, csa0, dstPitch, srcPitch, height) ==> AllFit(done, e.chip)
    ensures dstPitch % 2 == 0 && srcPitch % 2 == 0 ==>
      forall t :: t in done ==>
        t.len + (if t.src % 2 == 1 || t.dst % 2 == 1 then 1 else 0) <= if e.chip.Enx? then 64 else 16
  {
    ghost var was := e.mem[..];
    var cda, csa := cda0, csa0;
    var odd1 := cda % 2 == 1 || csa % 2 == 1;
    var odd2 := cda % 2 == 1 && csa % 2 == 1;
    done := [];
    NothingPainted(was, cda0, csa0, dstPitch, srcPitch, width);
    var row := 0;
    while row < height
      invariant row <= height && cda == RowStart(cda0, row, dstPitch) && csa == RowStart(csa0, row, srcPitch)
      invariant e.log == old(e.log) + done && Sum(done) == row * width
      invariant RowsApart(cda0, csa0, dstPitch, srcPitch, width, height) ==>
        Painted(e.mem[..], was, cda0, csa0, dstPitch, srcPitch, width, row)
      invariant AllFit(done, e.chip) <==> RowsFit(e.chip, cda0, csa0, dstPitch, srcPitch, width, row)
    {
      ghost var ts := BlitRow(e, cda, csa, width, odd1, odd2, cda0, csa0, dstPitch, srcPitch, row, height, was);
      SumAppend(done, ts);
      FitAppend(done, ts, e.chip);
      FitNext(e.chip, cda0, csa0, dstPitch, srcPitch, width, row);
      NextRow(row, width);
      done := done + ts;
      cda, csa, row := cda + dstPitch, csa + srcPitch, row + 1;
    }
    BlitFitsIff(e.chip, cda0, csa0, dstPitch, srcPitch, width, height);
  }

  lemma FitNext(chip: Chip, cda: nat, csa: nat, dstPitch: nat, srcPitch: nat, width: nat, row: nat)
    ensures RowsFit(chip, cda, csa, dstPitch, srcPitch, width, row + 1)
      <==> RowsFit(chip, cda, csa, dstPitch, srcPitch, width, row)
           && RowFits(chip, FlagsOf(cda, csa),
                FlagsOf(RowStart(cda, row, dstPitch), RowStart(csa, row, srcPitch)), width)
  {
  }

  lemma NextRow(r: nat, width: nat)
    ensures (r + 1) * width == r * width + width
  {
  }
}
