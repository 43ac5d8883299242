/** CRC runs: commands that must feed the engine each byte of an interval once and in order. */
module GtCrc {
  import opened Common
  import opened GtAccel

  type Crc = x: int | 0 <= x < 0x1_0000_0000

  /** x ^ 0xFFFFFFFF. */
  function Flip(x: Crc): Crc { WORD - 1 - x }

  /** The CRC unit: some update per byte, unknown to the driver. */
  type Update = (Crc, Byte) -> Crc

  function Fold(f: Update, crc: Crc, bytes: seq<Byte>): Crc
    decreases |bytes|
  {
    if bytes == [] then crc else f(Fold(f, crc, bytes[..|bytes| - 1]), bytes[|bytes| - 1])
  }

  lemma {:induction false} FoldAppend(f: Update, crc: Crc, s: seq<Byte>, t: seq<Byte>)
    ensures Fold(f, crc, s + t) == Fold(f, Fold(f, crc, s), t)
    decreases |t|
  {
    if t == [] {
      assert s + t == s;
    } else {
      assert (s + t)[..|s + t| - 1] == s + t[..|t| - 1];
      FoldAppend(f, crc, s, t[..|t| - 1]);
    }
  }

  lemma FoldSlices(m: seq<Byte>, f: Update, crc: Crc, a: nat, b: nat, c: nat)
    requires a <= b <= c <= |m|
    ensures Fold(f, crc, m[a..c]) == Fold(f, Fold(f, crc, m[a..b]), m[b..c])
  {
    FoldAppend(f, crc, m[a..b], m[b..c]);
    assert m[a..b] + m[b..c] == m[a..c];
  }

  /** A GTX CRC command word: LEN in bits 27-25 counts 16-bit words less one, L (bit 24) says whether the last byte
      counts, Addr in bits 21-1 is the word address, and F (bit 0) skips the first byte. */
  datatype Command = Command(len: nat, l: nat, addr: nat, f: nat)
  {
    function First(): nat { 2 * addr + f }
    function Last(): int { 2 * addr + 2 * (len + 1) - (1 - l) }
  }

  function Decode(word: nat): Command {
    Command(word / 0x200_0000 % 8, word / 0x100_0000 % 2, word / 2 % 0x20_0000, word % 2)
  }

  /** The fields survive being packed into one word, as long as the length fits three bits and the buffer 22. */
  lemma Packed(len: nat, l: nat, buffer: nat)
    requires len < 8 && l < 2 && buffer < 0x40_0000
    ensures Decode(len * 0x200_0000 + l * 0x100_0000 + buffer) == Command(len, l, buffer / 2, buffer % 2)
  {
    HighFields(len, l, buffer);
    LowFields(len * 2 + l, buffer);
    assert len * 0x200_0000 + l * 0x100_0000 + buffer == (len * 2 + l) * 0x100_0000 + buffer;
  }

  lemma HighFields(len: nat, l: nat, buffer: nat)
    requires len < 8 && l < 2 && buffer < 0x100_0000
    ensures (len * 0x200_0000 + l * 0x100_0000 + buffer) / 0x200_0000 == len
    ensures (len * 0x200_0000 + l * 0x100_0000 + buffer) / 0x100_0000 == len * 2 + l
  {
  }

  lemma LowFields(high: nat, buffer: nat)
    requires buffer < 0x40_0000
    ensures (high * 0x100_0000 + buffer) / 2 % 0x20_0000 == buffer / 2
    ensures (high * 0x100_0000 + buffer) % 2 == buffer % 2
  {
    Halved(high * 0x80_0000, buffer);
    Remainder(high * 4, buffer / 2);
  }

  lemma Halved(h: nat, buffer: nat)
    ensures (2 * h + buffer) / 2 == h + buffer / 2 && (2 * h + buffer) % 2 == buffer % 2
  {
  }

  lemma Remainder(k: nat, b: nat)
    requires b < 0x20_0000
    ensures (k * 0x20_0000 + b) % 0x20_0000 == b
  {
  }

  function Upto(buffer: nat, len: nat, last: nat): int { 2 * (buffer / 2) + 2 * (len + 1) - (1 - last) }

  /** What is left of an interval ending at `end`, counted in padded bytes: pairs, or one pair for an empty one. */
  predicate Pending(buffer: nat, size: nat, oddStart: nat, oddEnd: nat, end: nat) {
    && size > 0 && oddStart <= 1 && oddEnd <= 1 && buffer <= end
    && if size == 1 then buffer % 2 == 0 && end == buffer + 2 && oddEnd == 0 && oddStart == 1
       else size % 2 == 0 && buffer + size - oddStart == end + oddEnd && oddStart == buffer % 2
  }

  /** One command reads on from `buffer`, and either reaches the end or leaves less. */
  lemma Advance(buffer: nat, size: nat, oddStart: nat, oddEnd: nat, end: nat)
    requires Pending(buffer, size, oddStart, oddEnd, end)
    ensures var n := if size > 16 then 16 else size;
      var len, last := n / 2 + n % 2 - 1, if oddEnd == 1 && size == n then 0 else 1;
      && 0 <= len < 8 && buffer <= Upto(buffer, len, last) <= end
      && (size == n ==> Upto(buffer, len, last) == end)
      && (size > n ==> Upto(buffer, len, last) == buffer + n - oddStart
                       && Pending(buffer + n - oddStart, size - n, 0, oddEnd, end))
  {
  }

  /** How many bytes from the start of an interval are read: all of it, or two for an empty one at an even address. */
  function Reach(buffer: nat, size: nat): nat { if size == 0 && buffer % 2 == 0 then 2 else size }

  /** Counted in padded bytes, the interval is pending. */
  lemma Padded(buffer: nat, size: nat)
    ensures var oddStart, oddEnd := if buffer % 2 == 1 || size == 0 then 1 else 0, (buffer + size) % 2;
      size + oddStart + oddEnd > 0
      && Pending(buffer, size + oddStart + oddEnd, oddStart, oddEnd, buffer + Reach(buffer, size))
  {
  }

  class CrcEngine {
    const chip: Chip
    const mem: array<Byte>
    const update: Update
    var crc: Crc
    var src: nat

    constructor (chip: Chip, mem: array<Byte>, update: Update)
      ensures this.chip == chip && this.mem == mem && this.update == update
    {
      this.chip, this.mem, this.update := chip, mem, update;
      crc, src := 0, 0;
    }

    /** eNX: the next `len` bytes from the address register on, at most 64. */
    method CommandEnx(len: nat)
      requires 0 < len <= 64 && src + len <= mem.Length
      modifies `crc, `src
      ensures crc == Fold(update, old(crc), mem[old(src)..old(src) + len]) && src == old(src) + len
    {
      crc := Fold(update, crc, mem[src..src + len]);
      src := src + len;
    }

    /** GTX: what the command word describes. */
    method CommandGtx(word: nat)
      requires Decode(word).First() <= Decode(word).Last() <= mem.Length
      modifies `crc
      ensures crc == Fold(update, old(crc), mem[Decode(word).First()..Decode(word).Last()])
    {
      var c := Decode(word);
      crc := Fold(update, crc, mem[c.First()..c.Last()]);
    }

    /** eNX: chunks of at most 64 bytes compose to one CRC over the whole interval. */
    method Crc32Enx(buffer: nat, size: nat, seed: Crc) returns (r: Crc)
      requires buffer + size <= mem.Length
      modifies `crc, `src
      ensures crc == Fold(update, 0xFFFF_FFFF - seed, mem[buffer..buffer + size])
      ensures r == 0xFFFF_FFFF - crc
    {
      crc := Flip(seed);
      src := buffer;
      var left := size;
      assert mem[buffer..buffer] == [];
      while left > 0
        invariant 0 <= left <= size && src == buffer + (size - left)
        invariant crc == Fold(update, Flip(seed), mem[buffer..src])
      {
        var transactionSize := if left > 64 then 64 else left;
        FoldSlices(mem[..], update, Flip(seed), buffer, src, src + transactionSize);
        CommandEnx(transactionSize);
        left := left - transactionSize;
      }
      r := Flip(crc);
    }

    /** GTX: a command word put together from its parts. */
    method Issue(len: nat, last: nat, buffer: nat)
      requires len < 8 && last < 2 && buffer < 0x40_0000 && buffer <= Upto(buffer, len, last) <= mem.Length
      modifies `crc
      ensures crc == Fold(update, old(crc), mem[buffer..Upto(buffer, len, last)])
    {
      var word := len * 0x200_0000 + last * 0x100_0000 + buffer;
      Packed(len, last, buffer);
      CommandGtx(word);
    }

    /** GTX: the commands for an interval, whatever the parities of its ends. Only for an empty interval at an even
        address is something read, the two bytes there. */
    method FeedGtx(buffer0: nat, size0: nat)
      requires buffer0 + Reach(buffer0, size0) <= mem.Length <= 0x40_0000
      modifies `crc
      ensures crc == Fold(update, old(crc), mem[buffer0..buffer0 + Reach(buffer0, size0)])
      ensures size0 > 0 || buffer0 % 2 == 1 ==> crc == Fold(update, old(crc), mem[buffer0..buffer0 + size0])
    {
      var buffer, size := buffer0, size0;
      var oddStart := if buffer % 2 == 1 || size == 0 then 1 else 0;
      var oddEnd := if (buffer + size) % 2 == 1 then 1 else 0;
      size := size + oddStart + oddEnd;
      ghost var end, done := buffer0 + Reach(buffer0, size0), buffer0;
      Padded(buffer0, size0);
      ghost var start := crc;
      assert mem[buffer0..buffer0] == [];
      while size > 0
        invariant 0 <= size && buffer0 <= done <= end
        invariant size > 0 ==> done == buffer && Pending(buffer, size, oddStart, oddEnd, end)
        invariant size == 0 ==> done == end
        invariant crc == Fold(update, start, mem[buffer0..done])
      {
        var transactionSize := if size > 16 then 16 else size;
        ghost var upto := Transaction(buffer, size, transactionSize, oddStart, oddEnd, end);
        FoldSlices(mem[..], update, start, buffer0, buffer, upto);
        if oddStart == 1 {
          oddStart := 0;
          buffer := buffer + transactionSize - 1;
        } else {
          buffer := buffer + transactionSize;
        }
        size, done := size - transactionSize, upto;
      }
    }

    method Transaction(buffer: nat, size: nat, transactionSize: nat, oddStart: nat, oddEnd: nat, ghost end: nat)
      returns (ghost upto: nat)
      requires Pending(buffer, size, oddStart, oddEnd, end) && end <= mem.Length <= 0x40_0000 && buffer < 0x40_0000
      requires transactionSize == if size > 16 then 16 else size
      modifies `crc
      ensures buffer <= upto <= end && crc == Fold(update, old(crc), mem[buffer..upto])
      ensures size == transactionSize ==> upto == end
      ensures size > transactionSize ==> upto == buffer + transactionSize - oddStart
                                         && Pending(upto, size - transactionSize, 0, oddEnd, end)
    {
      var len := transactionSize / 2 + transactionSize % 2 - 1;
      var last := if oddEnd == 1 && size == transactionSize then 0 else 1;
      Advance(buffer, size, oddStart, oddEnd, end);
      upto := Upto(buffer, len, last);
      Issue(len, last, buffer);
    }

    /** GTX: with the all-ones seed the first four bytes are loaded instead of being folded in; there have to be
        four. */
    method Crc32Gtx(buffer: nat, size: nat, seed: Crc) returns (r: Crc)
      requires mem.Length <= 0x40_0000
      requires if seed == WORD - 1 then size >= 4 && buffer + 4 + Reach(buffer + 4, size - 4) <= mem.Length
               else buffer + Reach(buffer, size) <= mem.Length
      modifies `crc
      ensures crc == if seed == WORD - 1
                     then Fold(update, BigEndian(mem[buffer..buffer + 4]),
                               mem[buffer + 4..buffer + 4 + Reach(buffer + 4, size - 4)])
                     else Fold(update, 0xFFFF_FFFF - seed, mem[buffer..buffer + Reach(buffer, size)])
      ensures r == 0xFFFF_FFFF - crc
    {
      if seed != WORD - 1 {
        crc := Flip(seed);
        FeedGtx(buffer, size);
      } else {
        crc := BigEndian(mem[buffer..buffer + 4]);
        FeedGtx(buffer + 4, size - 4);
      }
      r := Flip(crc);
    }
  }

  /** Four bytes as one word, the first one on top. */
  lemma BigEndianIs(b: seq<Byte>)
    requires |b| == 4
    ensures var x := BigEndian(b);
      x / 0x100_0000 == b[0] && x / 0x1_0000 % 256 == b[1] && x / 0x100 % 256 == b[2] && x % 256 == b[3]
  {
    var b0: nat, b1: nat, b2: nat, b3: nat := b[0], b[1], b[2], b[3];
    var x := BigEndian(b);
    QuotientIs(x, 0x100_0000, b0, b1 * 0x1_0000 + b2 * 0x100 + b3);
    QuotientIs(x, 0x1_0000, b0 * 256 + b1, b2 * 256 + b3);
    QuotientIs(x, 0x100, b0 * 0x1_0000 + b1 * 256 + b2, b3);
    QuotientIs(b0 * 256 + b1, 256, b0, b1);
    QuotientIs(b0 * 0x1_0000 + b1 * 256 + b2, 256, b0 * 256 + b1, b2);
  }

  function BigEndian(b: seq<Byte>): Crc
    requires |b| == 4
  {
    var b0: nat, b1: nat, b2: nat, b3: nat := b[0], b[1], b[2], b[3];
    b0 * 0x100_0000 + b1 * 0x1_0000 + b2 * 0x100 + b3
  }
}
