/** The copy and CRC engine of the AViA eNX and GTX chips, fed in transactions the chip can take. */
module GtAccel {
  import opened Common

  function MaxTransaction(chip: Chip): nat { if chip.Enx? then 64 else 16 }

  /** One transaction as the engine got it: the addresses it started from and its length. */
  datatype Transfer = Transfer(src: nat, dst: nat, len: nat)
  {
    predicate Odd() { src % 2 == 1 || dst % 2 == 1 }

    /** With an odd address a transaction needs room for one byte more. */
    predicate Fits(chip: Chip) { len + (if Odd() then 1 else 0) <= MaxTransaction(chip) }
  }

  /** `now` is `was` with n bytes moved from src to dst. */
  ghost predicate Copied(now: seq<Byte>, was: seq<Byte>, src: nat, dst: nat, n: nat) {
    && |now| == |was| && src + n <= |was| && dst + n <= |was|
    && forall a {:trigger now[a]} :: 0 <= a < |was| ==>
         now[a] == if dst <= a < dst + n then was[a - dst + src] else was[a]
  }

  /** A copy that goes upwards through memory reads no byte it has already overwritten. */
  predicate Safe(src: nat, dst: nat, n: nat) { dst <= src || src + n <= dst }

  /** The copy engine: two address registers that move along, and the memory. */
  class Engine {
    const chip: Chip
    const mem: array<Byte>
    var csa: nat
    var cda: nat
    ghost var log: seq<Transfer>

    constructor (chip: Chip, mem: array<Byte>)
      ensures this.chip == chip && this.mem == mem && log == []
    {
      this.chip, this.mem, csa, cda, log := chip, mem, 0, 0, [];
    }

    method SetAddresses(src: nat, dst: nat)
      modifies `csa, `cda
      ensures csa == src && cda == dst
    {
      csa, cda := src, dst;
    }

    /** A command: upwards, in bursts of the engine's choosing, each read completely before it is written. */
    method Command(len: nat)
      requires len > 0 && csa + len <= mem.Length && cda + len <= mem.Length
      modifies `csa, `cda, `log, mem
      ensures csa == old(csa) + len && cda == old(cda) + len
      ensures log == old(log) + [Transfer(old(csa), old(cda), len)]
      ensures Safe(old(csa), old(cda), len) ==> Copied(mem[..], old(mem[..]), old(csa), old(cda), len)
    {
      log := log + [Transfer(csa, cda, len)];
      ghost var was, src, dst := mem[..], csa, cda;
      var left := len;
      while left > 0
        invariant 0 <= left <= len && csa == src + (len - left) && cda == dst + (len - left)
        invariant Safe(src, dst, len) ==> Copied(mem[..], was, src, dst, len - left)
        invariant log == old(log) + [Transfer(src, dst, len)]
      {
        var burst: int := *;
        if burst < 1 || burst > left { burst := left; }
        ghost var mid := mem[..];
        Burst(burst);
        if Safe(src, dst, len) { Onwards(mem[..], mid, was, src, dst, len - left, burst, len); }
        left := left - burst;
      }
    }

    method Burst(n: nat)
      requires csa + n <= mem.Length && cda + n <= mem.Length
      modifies `csa, `cda, mem
      ensures csa == old(csa) + n && cda == old(cda) + n
      ensures Copied(mem[..], old(mem[..]), old(csa), old(cda), n)
    {
      var chunk := mem[csa..csa + n];
      forall k | 0 <= k < n { mem[cda + k] := chunk[k]; }
      csa, cda := csa + n, cda + n;
    }
  }

  /** Two copies one after the other are one copy. */
  lemma Onwards(now: seq<Byte>, mid: seq<Byte>, was: seq<Byte>, src: nat, dst: nat, m: nat, n: nat, all: nat)
    requires Safe(src, dst, all) && m + n <= all && Copied(mid, was, src, dst, m)
    requires Copied(now, mid, src + m, dst + m, n)
    ensures Copied(now, was, src, dst, m + n)
  {
    forall a | 0 <= a < |was|
      ensures now[a] == if dst <= a < dst + m + n then was[a - dst + src] else was[a]
    {
      assert now[a] == mid[if dst + m <= a < dst + m + n then a - dst + src else a];
    }
  }

  // ---------------------------------------------------------------- copying

  /** A copy of any size, split into transactions; on GTX every transaction fits, on eNX the full-sized ones do not
      if an address is odd. */
  method Copy(e: Engine, src: nat, dst: nat, size: nat) returns (ghost done: seq<Transfer>)
    requires src + size <= e.mem.Length && dst + size <= e.mem.Length
    modifies e`csa, e`cda, e`log, e.mem
    ensures Safe(src, dst, size) ==> Copied(e.mem[..], old(e.mem[..]), src, dst, size)
    ensures e.log == old(e.log) + done && AllWithin(done, e.chip)
    ensures AllFit(done, e.chip) <==> e.chip.Gtx? || size < 64 || !Transfer(src, dst, size).Odd()
    ensures e.chip.Gtx? ==> forall t :: t in done ==> t.len + (if t.Odd() then 1 else 0) <= 16
    ensures e.chip.Enx? ==> forall t :: t in done ==> t.len <= 64
  {
    e.SetAddresses(src, dst);
    ghost var was := e.mem[..];
    done := [];
    var left := size;
    while left > 0
      invariant 0 <= left <= size && e.csa == src + (size - left) && e.cda == dst + (size - left)
      invariant Safe(src, dst, size) ==> Copied(e.mem[..], was, src, dst, size - left)
      invariant e.log == old(e.log) + done && AllWithin(done, e.chip)
      invariant left == 0 || (size - left) % 2 == 0
      invariant e.chip.Enx? ==> left == size || left == 0 || size >= 64
      invariant AllFit(done, e.chip) <==> e.chip.Gtx? || left == size || size < 64 || !Transfer(src, dst, size).Odd()
    {
      ghost var t := Transfer(e.csa, e.cda, 0);
      var n;
      n, t := CopyNext(e, src, dst, size, left, was);
      LogOne(done, t, e.chip);
      done := done + [t];
      left := left - n;
    }
  }

  /** One transaction of a copy. */
  method CopyNext(e: Engine, src: nat, dst: nat, ghost size: nat, left: nat, ghost was: seq<Byte>)
    returns (n: nat, ghost t: Transfer)
    requires 0 < left <= size && src + size <= e.mem.Length && dst + size <= e.mem.Length
    requires e.csa == src + (size - left) && e.cda == dst + (size - left) && (size - left) % 2 == 0
    requires Safe(src, dst, size) ==> Copied(e.mem[..], was, src, dst, size - left)
    modifies e`csa, e`cda, e`log, e.mem
    ensures 0 < n <= left && t.len == n <= MaxTransaction(e.chip) && (n == left || n % 2 == 0)
    ensures e.csa == src + (size - left) + n && e.cda == dst + (size - left) + n && e.log == old(e.log) + [t]
    ensures Safe(src, dst, size) ==> Copied(e.mem[..], was, src, dst, size - left + n)
    ensures e.chip.Enx? ==> n == 64 || n == left < 64
    ensures t.Fits(e.chip) <==> e.chip.Gtx? || n < 64 || !Transfer(src, dst, size).Odd()
  {
    n := TransactionSize(e.chip, src, dst, left);
    ghost var mid := e.mem[..];
    t := Transfer(e.csa, e.cda, n);
    SameParity(src, dst, size - left, n);
    e.Command(n);
    if Safe(src, dst, size) { Onwards(e.mem[..], mid, was, src, dst, size - left, n, size); }
  }

  method TransactionSize(chip: Chip, src: nat, dst: nat, left: nat) returns (n: nat)
    requires left > 0
    ensures 0 < n <= left && n <= MaxTransaction(chip) && (n == left || n % 2 == 0)
    ensures chip.Gtx? ==> Transfer(src, dst, n).Fits(chip)
    ensures chip.Enx? ==> n == 64 || n == left < 64
    ensures chip.Gtx? ==> n == left < 16 || n == 16 || (n == 14 && (src % 2 == 1 || dst % 2 == 1))
    ensures chip.Gtx? && (src % 2 == 1 || dst % 2 == 1) ==> n != 16
  {
    var max := MaxTransaction(chip);
    n := if left > max then max else left;
    if chip.Gtx? && (src % 2 == 1 || dst % 2 == 1) && n == max {
      n := n - 2;
    }
  }

  ghost predicate AllWithin(ts: seq<Transfer>, chip: Chip) {
    forall i :: 0 <= i < |ts| ==> 0 < ts[i].len <= MaxTransaction(chip)
  }

  ghost predicate AllFit(ts: seq<Transfer>, chip: Chip) {
    forall i :: 0 <= i < |ts| ==> ts[i].Fits(chip)
  }

  lemma LogOne(ts: seq<Transfer>, t: Transfer, chip: Chip)
    ensures AllFit(ts + [t], chip) <==> AllFit(ts, chip) && t.Fits(chip)
    ensures AllWithin(ts + [t], chip) <==> AllWithin(ts, chip) && 0 < t.len <= MaxTransaction(chip)
  {
    assert (ts + [t])[|ts|] == t;
    assert forall i :: 0 <= i < |ts| ==> (ts + [t])[i] == ts[i];
  }

  lemma SameParity(src: nat, dst: nat, n: nat, len: nat)
    requires n % 2 == 0
    ensures Transfer(src + n, dst + n, len).Odd() <==> Transfer(src, dst, len).Odd()
  {
  }
}
