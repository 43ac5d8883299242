/** The capacity of a card from its CSD register (SD Physical Layer Simplified Specification, section 5.3.2). */
module MmcCapacity {
  import opened Common
  import opened SpiWire

  function Pow2(n: nat): (r: nat)
    ensures r > 0
  {
    if n == 0 then 1 else 2 * Pow2(n - 1)
  }

  type Csd = c: seq<Byte> | |c| == 16 witness seq(16, _ => 0)

  // ---------------------------------------------------------------- what the register means

  /** A string of bytes as one number, most significant byte first. */
  function Number(s: seq<Byte>): nat {
    if s == [] then 0 else Number(s[..|s| - 1]) * 256 + s[|s| - 1]
  }

  /** Bits hi down to lo of the register. */
  function Field(csd: Csd, hi: nat, lo: nat): nat
    requires lo <= hi < 128
  {
    Number(csd) / Pow2(lo) % Pow2(hi - lo + 1)
  }

  /** BLOCKNR times BLOCK_LEN, in bytes. */
  function Capacity(csd: Csd): nat {
    Bytes(Field(csd, 73, 62), Field(csd, 49, 47), Field(csd, 83, 80))
  }

  function Bytes(cSize: nat, cSizeMult: nat, readBlLen: nat): nat {
    (cSize + 1) * Pow2(cSizeMult + 2) * Pow2(readBlLen)
  }

  function Val(s: seq<Byte>, k: nat): (v: nat)
    requires k < |s|
    ensures v < 256
  {
    s[k]
  }

  // ---------------------------------------------------------------- what the driver computes, in 32 bits

  datatype Geometry = Geometry(hardsect: nat, sizeKb: nat, nrSects: nat)

  function CardConfig(csd: Csd): Geometry {
    var cSize := (Val(csd, 8) + Val(csd, 7) * 256 + Val(csd, 6) % 4 * 65536) / 64;
    var cSizeMult := (Val(csd, 10) + Val(csd, 9) % 4 * 256) / 128;
    GeometryOf(cSize, cSizeMult, Val(csd, 5) % 16)
  }

  function GeometryOf(cSize: nat, cSizeMult: nat, readBlLen: nat): Geometry {
    var blocknr := (cSize + 1) * Pow2(cSizeMult + 2) % WORD;
    var blockLen := Pow2(readBlLen);
    var size := blockLen * blocknr % WORD / 1024;
    Geometry(blockLen, size, size * 2)
  }

  // ---------------------------------------------------------------- proofs

  lemma {:induction false} PowAdd(m: nat, n: nat)
    ensures Pow2(m + n) == Pow2(m) * Pow2(n)
  {
    if m > 0 {
      PowAdd(m - 1, n);
      assert Pow2(m) * Pow2(n) == 2 * (Pow2(m - 1) * Pow2(n));
    }
  }

  lemma {:induction false} PowMono(m: nat, n: nat)
    requires m <= n
    ensures Pow2(m) <= Pow2(n)
  {
    if m < n { PowMono(m, n - 1); }
  }

  /** Dividing by 256 drops the last byte. */
  lemma {:induction false} DropBytes(csd: Csd, m: nat)
    requires m <= 16
    ensures Number(csd) / Pow2(8 * m) == Number(csd[..16 - m])
  {
    if m == 0 {
      assert csd[..16] == csd;
    } else {
      DropBytes(csd, m - 1);
      PowAdd(8 * (m - 1), 8);
      assert Pow2(8) == 256 by { assert Pow2(4) == 16; PowAdd(4, 4); }
      DivTwice(Number(csd), Pow2(8 * (m - 1)), 256);
      assert 256 * Pow2(8 * (m - 1)) == Pow2(8 * m);
      var s := csd[..16 - (m - 1)];
      assert s[..|s| - 1] == csd[..16 - m];
    }
  }

  lemma Tail3(s: seq<Byte>)
    requires |s| >= 3
    ensures Number(s) == Number(s[..|s| - 3]) * 0x100_0000 
                         + Val(s, |s| - 3) * 0x1_0000 + Val(s, |s| - 2) * 0x100 + Val(s, |s| - 1)
  {
    var t := s[..|s| - 1];
    var u := s[..|s| - 2];
    assert t[..|t| - 1] == u && u[..|u| - 1] == s[..|s| - 3];
  }

  /** A field that is the top of a few bytes. */
  lemma FieldAt(csd: Csd, hi: nat, lo: nat, m: nat)
    requires lo <= hi < 128 && 8 * m <= lo
    ensures Field(csd, hi, lo) == Number(csd[..16 - m]) / Pow2(lo - 8 * m) % Pow2(hi - lo + 1)
  {
    DropBytes(csd, m);
    PowAdd(lo - 8 * m, 8 * m);
    DivTwice(Number(csd), Pow2(8 * m), Pow2(lo - 8 * m));
  }

  lemma TopOf(x: nat, k: nat, y: nat, d: nat, e: nat)
    requires d > 0 && e > 0 && y < d * e && x == k * (d * e) + y
    ensures x / d % e == y / d
  {
    assert y / d < e by { assert d * (y / d) < d * e; Cancel(d, y / d, e); }
    assert x == d * (k * e + y / d) + y % d by {
      assert k * (d * e) == d * (k * e);
      assert d * (k * e + y / d) == d * (k * e) + d * (y / d);
    }
    QuotientIs(x, d, k * e + y / d, y % d);
    QuotientIs(k * e + y / d, e, k, y / d);
  }

  lemma SizeField(csd: Csd)
    ensures Field(csd, 73, 62) == (Val(csd, 8) + Val(csd, 7) * 256 + Val(csd, 6) % 4 * 65536) / 64
  {
    FieldAt(csd, 73, 62, 7);
    var s := csd[..9];
    Tail3(s);
    var k := Number(s[..6]) * 64 + Val(csd, 6) / 4;
    var y: nat := Val(csd, 8) + Val(csd, 7) * 256 + Val(csd, 6) % 4 * 65536;
    assert Pow2(6) == 64 && Pow2(12) == 4096 by { assert Pow2(3) == 8; PowAdd(3, 3); PowAdd(6, 6); }
    TopOf(Number(s), k, y, 64, 4096);
  }

  lemma MultField(csd: Csd)
    ensures Field(csd, 49, 47) == (Val(csd, 10) + Val(csd, 9) % 4 * 256) / 128
  {
    FieldAt(csd, 49, 47, 5);
    var s := csd[..11];
    Tail3(s);
    var k := Number(s[..8]) * 0x4000 + Val(csd, 8) * 64 + Val(csd, 9) / 4;
    var y: nat := Val(csd, 10) + Val(csd, 9) % 4 * 256;
    assert Pow2(7) == 128 && Pow2(3) == 8 by { assert Pow2(4) == 16; PowAdd(3, 4); }
    TopOf(Number(s), k, y, 128, 8);
  }

  lemma LenField(csd: Csd)
    ensures Field(csd, 83, 80) == Val(csd, 5) % 16
  {
    FieldAt(csd, 83, 80, 10);
    var s := csd[..6];
    Tail3(s);
    var k := Number(s[..3]) * 0x10_0000 + Val(csd, 3) * 0x1000 + Val(csd, 4) * 16 + Val(csd, 5) / 16;
    assert Pow2(0) == 1 && Pow2(4) == 16;
    TopOf(Number(s), k, Val(csd, 5) % 16, 1, 16);
  }

  lemma SizeRightOf(cSize: nat, cSizeMult: nat, readBlLen: nat)
    requires cSize < 4096 && cSizeMult < 8
    ensures GeometryOf(cSize, cSizeMult, readBlLen).sizeKb == Bytes(cSize, cSizeMult, readBlLen) / 1024
            <==> Bytes(cSize, cSizeMult, readBlLen) < WORD
  {
    var m, l := Pow2(cSizeMult + 2), Pow2(readBlLen);
    PowMono(cSizeMult + 2, 9);
    Pow9();
    var blocks := (cSize + 1) * m;
    assert blocks <= 4096 * 512 by { Product(cSize + 1, 4096, m, 512); }
    assert blocks % WORD == blocks;
    assert l * blocks == Bytes(cSize, cSizeMult, readBlLen);
    WrappedKb(l * blocks);
  }

  lemma Pow9()
    ensures Pow2(9) == 512 && Pow2(12) == 4096 && Pow2(3) == 8
  {
    assert Pow2(3) == 8;
    PowAdd(3, 3);
    PowAdd(3, 6);
    PowAdd(6, 6);
  }

  lemma Product(a: nat, b: nat, c: nat, d: nat)
    requires a <= b && c <= d
    ensures a * c <= b * d
  {
    assert a * c <= b * c;
    assert b * c <= b * d;
  }

  /** The size in kilobytes is right exactly for capacities that fit 32 bits. */
  lemma SizeRight(csd: Csd)
    ensures CardConfig(csd).sizeKb == Capacity(csd) / 1024 <==> Capacity(csd) < WORD
    ensures CardConfig(csd).hardsect == Pow2(Field(csd, 83, 80))
  {
    SizeField(csd);
    MultField(csd);
    LenField(csd);
    SizeRightOf((Val(csd, 8) + Val(csd, 7) * 256 + Val(csd, 6) % 4 * 65536) / 64,
                (Val(csd, 10) + Val(csd, 9) % 4 * 256) / 128, Val(csd, 5) % 16);
  }

  lemma WrappedKb(x: nat)
    ensures x % WORD / 1024 == x / 1024 <==> x < WORD
  {
  }

  /** The sectors counted are those the capacity has whole kilobytes for: all of them with 512-byte blocks. */
  lemma SectorsRight(csd: Csd)
    requires Capacity(csd) < 0x1_0000_0000
    ensures CardConfig(csd).nrSects == 2 * (Capacity(csd) / 1024)
    ensures Field(csd, 83, 80) == 9 ==>
      CardConfig(csd).hardsect == 512 && CardConfig(csd).nrSects * 512 == Capacity(csd)
  {
    SizeRight(csd);
    TwicePerKb(csd);
    if Field(csd, 83, 80) == 9 { WholeKb(Capacity(csd), Field(csd, 73, 62), Field(csd, 49, 47)); }
  }

  lemma TwicePerKb(csd: Csd)
    ensures CardConfig(csd).nrSects == 2 * CardConfig(csd).sizeKb
  {
  }

  lemma WholeKb(capacity: nat, cSize: nat, cSizeMult: nat)
    requires capacity == Bytes(cSize, cSizeMult, 9)
    ensures Pow2(9) == 512 && 2 * (capacity / 1024) * 512 == capacity
  {
    Pow9();
    var m := Pow2(cSizeMult);
    var n := (cSize + 1) * m;
    assert (cSize + 1) * (4 * m) == 4 * n;
    assert Pow2(cSizeMult + 2) == 4 * m by { assert Pow2(cSizeMult + 1) == 2 * m; }
    assert capacity == 2048 * n;
  }

  /** On a card of 512-byte blocks that fits 32 bits, no address the request check lets through wraps. */
  lemma AddressesFit(csd: Csd)
    requires Capacity(csd) < WORD && CardConfig(csd).hardsect == 512
    ensures CardConfig(csd).nrSects * 512 <= Capacity(csd) < WORD
  {
    SizeRight(csd);
  }
}
