/** What several drivers share: bytes, machine words, the two graphics chips, and facts about quotients. */
module Common {

  type Byte = b: int | 0 <= b < 256

  const WORD: nat := 0x1_0000_0000

  /** The two graphics chips. */
  datatype Chip = Enx | Gtx

  lemma QuotientIs(x: int, d: nat, q: int, r: int)
    requires d > 0 && x == d * q + r && 0 <= r < d
    ensures x / d == q && x % d == r
  {
    assert d * q < d * (x / d + 1);
    Cancel(d, q, x / d + 1);
    assert d * (x / d) < d * (q + 1);
    Cancel(d, x / d, q + 1);
  }

  lemma Cancel(d: nat, a: int, b: int)
    requires d * a < d * b
    ensures a < b
  {
  }
}
