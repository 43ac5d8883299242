/** What passes over the four wires between the driver and an SD/MMC card.
    A card is any deterministic machine: its answer line is a function of everything it has seen. */
module SpiWire {
  import opened Common

  // ---------------------------------------------------------------- bytes as eight bits, first bit first

  /** 0x80 shifted right by k. */
  function Mask(k: nat): nat
    requires k < 8
  {
    match k
    case 0 => 0x80 case 1 => 0x40 case 2 => 0x20 case 3 => 0x10
    case 4 => 0x08 case 5 => 0x04 case 6 => 0x02 case 7 => 0x01
  }

  /** `b & mask` for a mask of one bit. */
  predicate Has(b: int, mask: nat)
    requires mask > 0
  {
    b / mask % 2 == 1
  }

  predicate Bit(b: Byte, k: nat)
    requires k < 8
  {
    Has(b, Mask(k))
  }

  function Only(on: bool, m: nat): nat { if on then m else 0 }

  /** The byte whose bits, most significant first, are the given ones. */
  function Pack(bits: seq<bool>): Byte
    requires |bits| == 8
  {
    Only(bits[0], 0x80) + Only(bits[1], 0x40) + Only(bits[2], 0x20) + Only(bits[3], 0x10)
    + Only(bits[4], 0x08) + Only(bits[5], 0x04) + Only(bits[6], 0x02) + Only(bits[7], 0x01)
  }

  function Bits(b: Byte): seq<bool> {
    seq(8, k requires 0 <= k < 8 => Bit(b, k))
  }

  lemma Halve(b: int, m: nat)
    requires b >= 0 && m > 0
    ensures b / m == 2 * (b / (2 * m)) + b / m % 2
  {
    assert b / (2 * m) == b / m / 2 by { DivTwice(b, m, 2); }
  }

  lemma DivTwice(b: int, m: nat, n: nat)
    requires b >= 0 && m > 0 && n > 0
    ensures m * n > 0 && b / (n * m) == b / m / n
  {
    var q, r := b / m, b % m;
    var s, t := q / n, q % n;
    assert b == m * q + r && q == n * s + t;
    assert m * q == (n * m) * s + m * t by { assert m * (n * s) == (n * m) * s; }
    assert m * t + r < n * m by { assert t + 1 <= n; assert m * (t + 1) <= m * n; }
    QuotientIs(b, n * m, s, m * t + r);
  }

  /** Taking a byte apart and putting it together again. */
  lemma PackOfBits(b: Byte)
    ensures Pack(Bits(b)) == b
  {
    BitValue(b, 0); BitValue(b, 1); BitValue(b, 2); BitValue(b, 3);
    BitValue(b, 4); BitValue(b, 5); BitValue(b, 6); BitValue(b, 7);
  }

  /** What bit k adds to a byte. */
  lemma BitValue(b: Byte, k: nat)
    requires k < 8
    ensures Only(Bits(b)[k], Mask(k)) == Mask(k) * (b / Mask(k)) - if k == 0 then 0 else Mask(k - 1) * (b / Mask(k - 1))
  {
    if k == 0 { assert b / 128 % 2 == b / 128; } else { Halve(b, Mask(k)); }
  }

  // ---------------------------------------------------------------- the history a card has seen

  /** A rising clock edge with a steady data line, one where the data line moved together with the clock,
      or a change of the chip-select line. */
  datatype Edge = Rise(di: bool) | Race | Select(high: bool)

  type History = seq<Edge>
  type Card = History -> bool

  function Rises(b: Byte): History {
    seq(8, k requires 0 <= k < 8 => Rise(Bit(b, k)))
  }

  function Sent(h: History, b: Byte): History { h + Rises(b) }

  /** The answer line after the first k+1 edges of a byte, for every k: what the host samples. */
  function Sampled(card: Card, h: History, b: Byte): seq<bool> {
    seq(8, k requires 0 <= k < 8 => card(h + Rises(b)[..k + 1]))
  }

  function Answer(card: Card, h: History, b: Byte): Byte {
    Pack(Sampled(card, h, b))
  }

  /** One more edge of the byte under way. */
  lemma NextRise(h: History, b: Byte, k: nat)
    requires k < 8
    ensures h + Rises(b)[..k] + [Rise(Bit(b, k))] == h + Rises(b)[..k + 1]
  {
    assert Rises(b)[..k + 1] == Rises(b)[..k] + [Rises(b)[k]];
  }

  // ---------------------------------------------------------------- runs of bytes

  function SentAll(h: History, bytes: seq<Byte>): History
    decreases |bytes|
  {
    if bytes == [] then h else Sent(SentAll(h, bytes[..|bytes| - 1]), bytes[|bytes| - 1])
  }

  function Idle(n: nat): seq<Byte> { seq(n, _ => 0xFF) }

  function Polled(h: History, n: nat): History
    decreases n, h
  {
    if n == 0 then h else Sent(Polled(h, n - 1), 0xFF)
  }

  function Received(card: Card, h: History, n: nat): (r: seq<Byte>)
    ensures |r| == n
    decreases n, h
  {
    if n == 0 then [] else Received(card, h, n - 1) + [Answer(card, Polled(h, n - 1), 0xFF)]
  }

  lemma {:induction false} SentAppend(h: History, s: seq<Byte>, t: seq<Byte>)
    ensures SentAll(h, s + t) == SentAll(SentAll(h, s), t)
    decreases |t|
  {
    if t == [] {
      assert s + t == s;
    } else {
      assert (s + t)[..|s + t| - 1] == s + t[..|t| - 1];
      SentAppend(h, s, t[..|t| - 1]);
    }
  }

  lemma SentOne(h: History, b: Byte)
    ensures SentAll(h, [b]) == Sent(h, b)
  {
    assert [b][..0] == [];
    assert SentAll(h, []) == h;
  }

  lemma {:induction false} PolledIsSent(h: History, n: nat)
    ensures Polled(h, n) == SentAll(h, Idle(n))
    decreases n
  {
    if n > 0 {
      PolledIsSent(h, n - 1);
      assert Idle(n)[..n - 1] == Idle(n - 1);
    }
  }

  lemma {:induction false} PolledAdd(h: History, m: nat, n: nat)
    ensures Polled(h, m + n) == Polled(Polled(h, m), n)
    decreases n
  {
    if n > 0 { PolledAdd(h, m, n - 1); }
  }

  /** Nothing above ever moves data and clock together. */
  predicate Clean(h: History) { Race !in h }

  lemma SentClean(h: History, bytes: seq<Byte>)
    requires Clean(h)
    ensures Clean(SentAll(h, bytes))
    decreases |bytes|
  {
    if bytes != [] {
      SentClean(h, bytes[..|bytes| - 1]);
      assert Race !in Rises(bytes[|bytes| - 1]);
    }
  }
}
