/** The graphics plane: its stride register and the copying of rectangles line by line. */
module GtGraphics {
  import opened Common
  import opened GtAccel

  datatype Mode = Off | Rgb4 | Rgb8 | Rgb16 | Rgb32 | Unknown

  function Bpp(mode: Mode): nat {
    match mode
    case Rgb4 => 1
    case Rgb8 => 1
    case Rgb32 => 4
    case _ => 2
  }

  /** The stride register holds units of four bytes in 14 bits on eNX, of two bytes in 10 bits on GTX. */
  function StrideField(chip: Chip, width: nat, bpp: nat): nat {
    LineField(chip, width * bpp)
  }

  function LineField(chip: Chip, bytes: nat): nat {
    if chip.Enx? then (bytes + 3) / 4 % 0x4000 else (bytes + 1) / 2 % 0x400
  }

  function StrideOf(chip: Chip, field: nat): nat { if chip.Enx? then field * 4 else field * 2 }

  predicate LegalWidth(width: nat) { width in {720, 640, 360, 320} }

  /** A line fits into the stride except where the GTX register is too narrow. */
  lemma StrideCovers(chip: Chip, width: nat, mode: Mode)
    requires LegalWidth(width)
    ensures StrideOf(chip, StrideField(chip, width, Bpp(mode))) >= width * Bpp(mode)
            <==> !(chip.Gtx? && mode.Rgb32? && width >= 640)
  {
    StrideIs(chip, width, mode);
  }

  /** In bytes: a line of pixels of one, two or four bytes, cut down to 11 bits where the GTX register is too narrow. */
  lemma StrideIs(chip: Chip, width: nat, mode: Mode)
    requires LegalWidth(width)
    ensures StrideOf(chip, StrideField(chip, width, Bpp(mode))) ==
      if chip.Gtx? && mode.Rgb32? && width >= 640 then 4 * width - 2048
      else if mode.Rgb4? || mode.Rgb8? then width else if mode.Rgb32? then 4 * width else 2 * width
  {
    assert width * Bpp(mode) in {720, 640, 360, 320, 1440, 1280, 2880, 2560};
    LineOf(chip, width * Bpp(mode));
  }

  lemma LineOf(chip: Chip, bytes: nat)
    requires bytes % 4 == 0 && bytes < 4096
    ensures StrideOf(chip, LineField(chip, bytes)) == if chip.Gtx? && bytes >= 2048 then bytes - 2048 else bytes
  {
  }

  // ---------------------------------------------------------------- rectangles in memory

  /** The byte at address a is in a rectangle of `bytes` by `lines` whose first byte is at `base`. */
  predicate InRect(a: int, base: nat, stride: nat, bytes: nat, lines: nat) {
    a >= base && 0 < bytes <= stride && (a - base) / stride < lines && (a - base) % stride < bytes
  }

  lemma InRectAt(base: nat, stride: nat, bytes: nat, lines: nat, line: nat, k: nat)
    requires k < bytes <= stride
    ensures InRect(base + line * stride + k, base, stride, bytes, lines) <==> line < lines
    ensures (base + line * stride + k - base) / stride == line
  {
    QuotientIs(line * stride + k, stride, line, k);
  }

  /** `now` is `was` with the rectangle at src copied to dst and nothing else changed. */
  ghost predicate RectCopied(now: seq<Byte>, was: seq<Byte>, src: nat, dst: nat, stride: nat, bytes: nat, lines: nat) {
    && |now| == |was|
    && forall a {:trigger now[a]} :: 0 <= a < |was| ==>
         if InRect(a, dst, stride, bytes, lines)
         then 0 <= a - dst + src < |was| && now[a] == was[a - dst + src]
         else now[a] == was[a]
  }

  /** Copying lines upwards never reads what an earlier line has overwritten. */
  ghost predicate SafeRect(src: nat, dst: nat, stride: nat, bytes: nat, lines: nat) {
    dst <= src || forall a {:trigger InRect(a, src, stride, bytes, lines)} ::
                    !(InRect(a, src, stride, bytes, lines) && InRect(a, dst, stride, bytes, lines))
  }

  lemma NextLine(now: seq<Byte>, mid: seq<Byte>, was: seq<Byte>, src: nat, dst: nat, stride: nat, bytes: nat,
                 line: nat, lines: nat)
    requires bytes <= stride && line < lines && SafeRect(src, dst, stride, bytes, lines)
    requires RectCopied(mid, was, src, dst, stride, bytes, line)
    requires Copied(now, mid, src + line * stride, dst + line * stride, bytes)
    ensures RectCopied(now, was, src, dst, stride, bytes, line + 1)
  {
    var s, d := src + line * stride, dst + line * stride;
    forall a {:trigger now[a]} | 0 <= a < |was|
      ensures if InRect(a, dst, stride, bytes, line + 1)
              then 0 <= a - dst + src < |was| && now[a] == was[a - dst + src]
              else now[a] == was[a]
    {
      if d <= a < d + bytes {
        InRectAt(dst, stride, bytes, line + 1, line, a - d);
        var x := a - dst + src;
        assert now[a] == mid[a - d + s] == mid[x];
        SourceIntact(src, dst, stride, bytes, line, lines, a - d);
      } else {
        assert now[a] == mid[a];
        if InRect(a, dst, stride, bytes, line + 1) && !InRect(a, dst, stride, bytes, line) {
          OnLine(a, dst, stride, line);
        }
        if InRect(a, dst, stride, bytes, line) { }
      }
    }
  }

  lemma OnLine(a: int, base: nat, stride: nat, line: nat)
    requires stride > 0 && a >= base && (a - base) / stride == line
    ensures a == base + line * stride + (a - base) % stride
  {
  }

  /** The source byte k of a line is in no earlier destination line. */
  lemma SourceIntact(src: nat, dst: nat, stride: nat, bytes: nat, line: nat, lines: nat, k: nat)
    requires k < bytes <= stride && line < lines && SafeRect(src, dst, stride, bytes, lines)
    ensures !InRect(src + line * stride + k, dst, stride, bytes, line)
  {
    var x := src + line * stride + k;
    if dst <= src {
      QuotientAtLeast(x - dst, stride, line);
    } else {
      InRectAt(src, stride, bytes, lines, line, k);
      assert InRect(x, src, stride, bytes, lines);
    }
  }

  lemma QuotientAtLeast(x: int, d: nat, q: nat)
    requires d > 0 && x >= q * d
    ensures x / d >= q
  {
    assert q * d < (x / d + 1) * d;
    Cancel(d, q, x / d + 1);
  }

  /** Two ranges of bytes of safe rectangles can be copied upwards. */
  lemma SafeLine(src: nat, dst: nat, stride: nat, bytes: nat, line: nat, lines: nat)
    requires 0 < bytes <= stride && line < lines && SafeRect(src, dst, stride, bytes, lines)
    ensures Safe(src + line * stride, dst + line * stride, bytes)
  {
    if dst > src && dst < src + bytes {
      var k := dst - src;
      InRectAt(src, stride, bytes, lines, line, k);
      InRectAt(dst, stride, bytes, lines, line, 0);
    }
  }

  // ---------------------------------------------------------------- rectangles in pixels

  datatype Rect = Rect(x: nat, y: nat, w: nat, h: nat)
  {
    predicate Overlaps(that: Rect) {
      x < that.x + that.w && that.x < x + w && y < that.y + that.h && that.y < y + h
    }
  }

  /** Where a pixel starts in memory. */
  function Offset(x: nat, y: nat, stride: nat, bpp: nat): nat { y * stride + x * bpp }

  /** Rectangles that do not overlap and lie within the stride occupy different bytes. */
  lemma ApartIsSafe(a: Rect, b: Rect, stride: nat, bpp: nat)
    requires a.w == b.w && a.h == b.h && !a.Overlaps(b) && bpp > 0
    requires (a.x + a.w) * bpp <= stride && (b.x + b.w) * bpp <= stride
    ensures SafeRect(Offset(a.x, a.y, stride, bpp), Offset(b.x, b.y, stride, bpp), stride, a.w * bpp, a.h)
  {
    var s, d := Offset(a.x, a.y, stride, bpp), Offset(b.x, b.y, stride, bpp);
    forall p {:trigger InRect(p, s, stride, a.w * bpp, a.h)}
      ensures !(InRect(p, s, stride, a.w * bpp, a.h) && InRect(p, d, stride, a.w * bpp, a.h))
    {
      if InRect(p, s, stride, a.w * bpp, a.h) && InRect(p, d, stride, a.w * bpp, a.h) {
        SharedByte(a, b, stride, bpp, p);
        assert false;
      }
    }
  }

  lemma SharedByte(a: Rect, b: Rect, stride: nat, bpp: nat, p: int)
    requires a.w == b.w && a.h == b.h && bpp > 0
    requires (a.x + a.w) * bpp <= stride && (b.x + b.w) * bpp <= stride
    requires InRect(p, Offset(a.x, a.y, stride, bpp), stride, a.w * bpp, a.h)
    requires InRect(p, Offset(b.x, b.y, stride, bpp), stride, a.w * bpp, a.h)
    ensures a.Overlaps(b)
  {
    var s, d := Offset(a.x, a.y, stride, bpp), Offset(b.x, b.y, stride, bpp);
    var i, k := (p - s) / stride, (p - s) % stride;
    var j, l := (p - d) / stride, (p - d) % stride;
    QuotientAtLeast(p - s, stride, 0);
    QuotientAtLeast(p - d, stride, 0);
    OnLine(p, s, stride, i);
    OnLine(p, d, stride, j);
    RowAndColumn(p, stride, bpp, a, i, k);
    RowAndColumn(p, stride, bpp, b, j, l);
    SameColumn(a.x, b.x, a.w, bpp, k, l);
  }

  lemma RowAndColumn(p: int, stride: nat, bpp: nat, r: Rect, i: nat, k: nat)
    requires (r.x + r.w) * bpp <= stride && k < r.w * bpp && i < r.h
    requires p == Offset(r.x, r.y, stride, bpp) + i * stride + k
    ensures stride > 0 && p / stride == r.y + i && p % stride == r.x * bpp + k
  {
    assert (r.x + r.w) * bpp == r.x * bpp + r.w * bpp;
    assert (r.y + i) * stride == r.y * stride + i * stride;
    QuotientIs(p, stride, r.y + i, r.x * bpp + k);
  }

  lemma SameColumn(x: nat, y: nat, w: nat, bpp: nat, k: nat, l: nat)
    requires bpp > 0 && k < w * bpp && l < w * bpp && x * bpp + k == y * bpp + l
    ensures x < y + w && y < x + w
  {
    assert (y + w) * bpp == y * bpp + w * bpp && (x + w) * bpp == x * bpp + w * bpp;
    Cancel(bpp, x, y + w);
    Cancel(bpp, y, x + w);
  }

  // ---------------------------------------------------------------- the plane

  class Plane {
    const engine: Engine
    var inputWidth: nat
    var inputHeight: nat
    var inputMode: Mode
    var stride: nat
    var narrow: bool     // L
    var stretched: bool  // F
    var progressive: bool // I

    ghost predicate Valid()
      reads this
    {
      LegalWidth(inputWidth) && stride == StrideField(engine.chip, inputWidth, Bpp(inputMode))
    }

    constructor (engine: Engine)
      ensures Valid() && this.engine == engine
    {
      this.engine := engine;
      inputWidth, inputHeight, inputMode := 720, 576, Rgb16;
      narrow, stretched, progressive := false, false, false;
      stride := StrideField(engine.chip, 720, 2);
    }

    method SetStride()
      modifies `stride
      ensures stride == StrideField(engine.chip, inputWidth, Bpp(inputMode))
    {
      if engine.chip.Enx? {
        stride := (inputWidth * Bpp(inputMode) + 3) / 4 % 0x4000;
      } else {
        stride := (inputWidth * Bpp(inputMode) + 1) / 2 % 0x400;
      }
    }

    function GetStride(): nat reads this { StrideOf(engine.chip, stride) }

    method SetInputMode(mode: Mode)
      requires Valid()
      modifies `inputMode, `stride
      ensures Valid() && inputMode == mode
    {
      inputMode := mode;
      SetStride();
    }

    /** Sizes the chips cannot show are refused. A refused width changes nothing, but a refused height comes after the
        bits of the width have been set. */
    method SetInputSize(width: nat, height: nat) returns (ok: bool)
      requires Valid()
      modifies `inputWidth, `inputHeight, `stride, `narrow, `stretched, `progressive
      ensures Valid() && (ok <==> LegalWidth(width) && height in {576, 480, 288, 240})
      ensures ok ==> inputWidth == width && inputHeight == height && progressive == (height in {288, 240})
      ensures !ok ==> inputWidth == old(inputWidth) && inputHeight == old(inputHeight) && stride == old(stride)
                      && progressive == old(progressive)
      ensures LegalWidth(width) ==> narrow == (width in {360, 320}) && stretched == (width == 320)
      ensures !LegalWidth(width) ==> unchanged(this)
    {
      if width == 720 {
        narrow, stretched := false, false;
      } else if width == 640 {
        narrow, stretched := false, false;
      } else if width == 360 {
        narrow, stretched := true, false;
      } else if width == 320 {
        narrow, stretched := true, true;
      } else {
        return false;
      }
      if height == 576 || height == 480 {
        progressive := false;
      } else if height == 288 || height == 240 {
        progressive := true;
      } else {
        return false;
      }
      inputHeight := height;
      inputWidth := width;
      SetStride();
      return true;
    }

    /** Every destination pixel becomes the old source pixel and nothing else changes. */
    method CopyArea(srcX: nat, srcY: nat, width: nat, height: nat, dstX: nat, dstY: nat)
      requires Valid()
      requires (srcX + width) * Bpp(inputMode) <= GetStride() && (dstX + width) * Bpp(inputMode) <= GetStride()
      requires (srcY + height) * GetStride() <= engine.mem.Length && (dstY + height) * GetStride() <= engine.mem.Length
      requires !Rect(srcX, srcY, width, height).Overlaps(Rect(dstX, dstY, width, height))
               || Offset(dstX, dstY, GetStride(), Bpp(inputMode)) <= Offset(srcX, srcY, GetStride(), Bpp(inputMode))
      modifies engine`csa, engine`cda, engine`log, engine.mem
      ensures RectCopied(engine.mem[..], old(engine.mem[..]),
                         Offset(srcX, srcY, GetStride(), Bpp(inputMode)),
                         Offset(dstX, dstY, GetStride(), Bpp(inputMode)),
                         GetStride(), width * Bpp(inputMode), height)
      ensures GetStride() > 0 && forall a: nat :: a < engine.mem.Length ==>
        Moved(engine.mem[..], old(engine.mem[..]), srcX, srcY, dstX, dstY, GetStride(), Bpp(inputMode), width,
              height, a)
    {
      var bpp, stride := Bpp(inputMode), GetStride();
      ghost var src, dst := Offset(srcX, srcY, stride, bpp), Offset(dstX, dstY, stride, bpp);
      if dst > src { ApartIsSafe(Rect(srcX, srcY, width, height), Rect(dstX, dstY, width, height), stride, bpp); }
      CopyLines(srcX, srcY, width, height, dstX, dstY, bpp, stride);
      StrideIs(engine.chip, inputWidth, inputMode);
      forall a: nat | a < engine.mem.Length
        ensures Moved(engine.mem[..], old(engine.mem[..]), srcX, srcY, dstX, dstY, stride, bpp, width, height, a)
      {
        CopiedPixels(engine.mem[..], old(engine.mem[..]), srcX, srcY, dstX, dstY, stride, bpp, width, height, a);
      }
    }

    method CopyLines(srcX: nat, srcY: nat, width: nat, height: nat, dstX: nat, dstY: nat, bpp: nat, stride: nat)
      requires bpp > 0
      requires (srcX + width) * bpp <= stride && (dstX + width) * bpp <= stride
      requires (srcY + height) * stride <= engine.mem.Length && (dstY + height) * stride <= engine.mem.Length
      requires SafeRect(Offset(srcX, srcY, stride, bpp), Offset(dstX, dstY, stride, bpp), stride, width * bpp, height)
      modifies engine`csa, engine`cda, engine`log, engine.mem
      ensures RectCopied(engine.mem[..], old(engine.mem[..]), Offset(srcX, srcY, stride, bpp),
                         Offset(dstX, dstY, stride, bpp), stride, width * bpp, height)
    {
      ghost var src, dst := Offset(srcX, srcY, stride, bpp), Offset(dstX, dstY, stride, bpp);
      ghost var was := engine.mem[..];
      NoLines(was, src, dst, stride, width * bpp);
      var line := 0;
      while line < height
        invariant line <= height
        invariant RectCopied(engine.mem[..], was, src, dst, stride, width * bpp, line)
      {
        var from := LineAddress(srcX, srcY, width, height, line, stride, bpp);
        var to := LineAddress(dstX, dstY, width, height, line, stride, bpp);
        CopyLine(from, to, width * bpp, src, dst, stride, line, height, was);
        line := line + 1;
      }
    }

    method LineAddress(x: nat, y: nat, width: nat, height: nat, line: nat, stride: nat, bpp: nat) returns (a: nat)
      requires (x + width) * bpp <= stride && (y + height) * stride <= engine.mem.Length && line < height
      ensures a == Offset(x, y, stride, bpp) + line * stride && a + width * bpp <= engine.mem.Length
      ensures width * bpp <= stride
    {
      LineInside(x, y, width, height, line, stride, bpp, engine.mem.Length);
      a := (y + line) * stride + x * bpp;
    }

    method CopyLine(from: nat, to: nat, bytes: nat,
                    ghost src: nat, ghost dst: nat, ghost stride: nat, ghost line: nat, ghost lines: nat,
                    ghost was: seq<Byte>)
      requires from == src + line * stride && to == dst + line * stride && line < lines && bytes <= stride
      requires from + bytes <= engine.mem.Length && to + bytes <= engine.mem.Length
      requires SafeRect(src, dst, stride, bytes, lines)
      requires RectCopied(engine.mem[..], was, src, dst, stride, bytes, line)
      modifies engine`csa, engine`cda, engine`log, engine.mem
      ensures RectCopied(engine.mem[..], was, src, dst, stride, bytes, line + 1)
    {
      ghost var mid := engine.mem[..];
      if bytes > 0 { SafeLine(src, dst, stride, bytes, line, lines); }
      var _ := Copy(engine, from, to, bytes);
      NextLine(engine.mem[..], mid, was, src, dst, stride, bytes, line, lines);
    }
  }

  /** The byte at a after a copy: in line `dstY + i` it comes from line `srcY + i`, and on no such line, or beside the
      columns, it stays. */
  ghost predicate Moved(now: seq<Byte>, was: seq<Byte>, srcX: nat, srcY: nat, dstX: nat, dstY: nat, stride: nat,
                        bpp: nat, width: nat, height: nat, a: nat)
    requires a < |was| && stride > 0
  {
    var y, x := a / stride, a % stride;
    var from := (y - dstY + srcY) * stride + (x - dstX * bpp + srcX * bpp);
    |now| == |was|
    && if dstY <= y < dstY + height && dstX * bpp <= x < dstX * bpp + width * bpp
       then 0 <= from < |was| && now[a] == was[from]
       else now[a] == was[a]
  }

  lemma CopiedPixels(now: seq<Byte>, was: seq<Byte>, srcX: nat, srcY: nat, dstX: nat, dstY: nat, stride: nat,
                     bpp: nat, width: nat, height: nat, a: nat)
    requires bpp > 0 && a < |was| && stride > 0
    requires (srcX + width) * bpp <= stride && (dstX + width) * bpp <= stride
    requires RectCopied(now, was, Offset(srcX, srcY, stride, bpp), Offset(dstX, dstY, stride, bpp), stride,
                        width * bpp, height)
    ensures Moved(now, was, srcX, srcY, dstX, dstY, stride, bpp, width, height, a)
  {
    InRectMeans(a, Rect(dstX, dstY, width, height), stride, bpp);
    ShiftedBy(a, srcX * bpp, srcY, dstX * bpp, dstY, stride);
    ByteOf(now, was, Offset(srcX, srcY, stride, bpp), Offset(dstX, dstY, stride, bpp), stride, width * bpp, height, a);
  }

  lemma ByteOf(now: seq<Byte>, was: seq<Byte>, src: nat, dst: nat, stride: nat, bytes: nat, lines: nat, a: nat)
    requires RectCopied(now, was, src, dst, stride, bytes, lines) && a < |was|
    ensures |now| == |was|
    ensures if InRect(a, dst, stride, bytes, lines) then 0 <= a - dst + src < |was| && now[a] == was[a - dst + src]
            else now[a] == was[a]
  {
  }

  /** A byte is in a rectangle of pixels if its line and its column are. */
  lemma InRectMeans(a: nat, r: Rect, stride: nat, bpp: nat)
    requires bpp > 0 && stride > 0 && (r.x + r.w) * bpp <= stride
    ensures InRect(a, Offset(r.x, r.y, stride, bpp), stride, r.w * bpp, r.h) <==>
      r.y <= a / stride < r.y + r.h && r.x * bpp <= a % stride < r.x * bpp + r.w * bpp
  {
    var d, bytes := Offset(r.x, r.y, stride, bpp), r.w * bpp;
    OnLine(a, 0, stride, a / stride);
    if InRect(a, d, stride, bytes, r.h) {
      var i, k := (a - d) / stride, (a - d) % stride;
      QuotientAtLeast(a - d, stride, 0);
      OnLine(a, d, stride, i);
      RowAndColumn(a, stride, bpp, r, i, k);
    } else if r.y <= a / stride < r.y + r.h && r.x * bpp <= a % stride < r.x * bpp + bytes {
      var i, k := a / stride - r.y, a % stride - r.x * bpp;
      assert (r.x + r.w) * bpp == r.x * bpp + bytes;
      assert a / stride * stride == r.y * stride + i * stride;
      InRectAt(d, stride, bytes, r.h, i, k);
    }
  }

  lemma ShiftedBy(a: nat, srcX: nat, srcY: nat, dstX: nat, dstY: nat, stride: nat)
    requires stride > 0
    ensures a - (dstY * stride + dstX) + (srcY * stride + srcX)
         == (a / stride - dstY + srcY) * stride + (a % stride - dstX + srcX)
  {
    OnLine(a, 0, stride, a / stride);
    assert (a / stride - dstY + srcY) * stride == a / stride * stride - dstY * stride + srcY * stride;
  }

  lemma NoLines(m: seq<Byte>, src: nat, dst: nat, stride: nat, bytes: nat)
    ensures RectCopied(m, m, src, dst, stride, bytes, 0)
  {
    forall a ensures !InRect(a, dst, stride, bytes, 0) {
      if a >= dst && stride > 0 { QuotientAtLeast(a - dst, stride, 0); }
    }
  }

  lemma LineInside(x: nat, y: nat, w: nat, h: nat, line: nat, stride: nat, bpp: nat, size: nat)
    requires (x + w) * bpp <= stride && (y + h) * stride <= size && line < h
    ensures (y + line) * stride + x * bpp + w * bpp <= size
    ensures (y + line) * stride + x * bpp == Offset(x, y, stride, bpp) + line * stride
    ensures w * bpp <= stride
  {
    assert (x + w) * bpp == x * bpp + w * bpp;
    assert (y + line + 1) * stride <= (y + h) * stride;
    assert (y + line + 1) * stride == (y + line) * stride + stride;
    assert (y + line) * stride == y * stride + line * stride;
  }
}
