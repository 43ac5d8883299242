/** What a transfer of consecutive blocks comes to, as a function of the card and the buffer. */
module MmcTransfer {
  import opened Common
  import opened SpiWire
  import opened MmcBlocks
  import opened SdCard
  import opened SdBusy

  /** The disk with blocks `from` to `end` of a buffer laid down, where its block 0 would belong to sector `first`. */
  function Laid(disk: Disk, first: nat, buffer: seq<Byte>, from: nat, end: nat): (r: Disk)
    requires end * BLOCK <= |buffer|
    ensures |r| == |disk|
    decreases end
  {
    if end <= from then disk else
    var r, k := Laid(disk, first, buffer, from, end - 1), first + end - 1;
    if k < |disk| then r[k := BlockAt(buffer, end - 1)] else r
  }

  /** Each sector holds the block laid there, and what it held before if there is none. */
  lemma {:induction false} LaidAt(disk: Disk, first: nat, buffer: seq<Byte>, from: nat, end: nat, k: nat)
    requires end * BLOCK <= |buffer| && k < |disk|
    ensures Laid(disk, first, buffer, from, end)[k] ==
      if first + from <= k < first + end then BlockAt(buffer, k - first) else disk[k]
    decreases end
  {
    if end > from { LaidAt(disk, first, buffer, from, end - 1, k); }
  }

  function BlockAt(buffer: seq<Byte>, i: nat): Block
    requires (i + 1) * BLOCK <= |buffer|
  {
    buffer[i * BLOCK..i * BLOCK + BLOCK]
  }

  /** The first n blocks of a buffer are those of the disk from `first` on. */
  ghost predicate Delivered(buffer: seq<Byte>, n: nat, disk: Disk, first: nat) {
    n * BLOCK <= |buffer| && first + n <= |disk| && forall i: nat :: i < n ==> BlockAt(buffer, i) == disk[first + i]
  }

  lemma DeliveredNext(was: seq<Byte>, now: seq<Byte>, n: nat, disk: Disk, first: nat)
    requires n > 0 ==> Delivered(was, n, disk, first)
    requires |was| == |now| && (n + 1) * BLOCK <= |was| && now[..n * BLOCK] == was[..n * BLOCK]
    requires first + n < |disk| && BlockAt(now, n) == disk[first + n]
    ensures Delivered(now, n + 1, disk, first)
  {
    forall i: nat | i < n ensures BlockAt(now, i) == BlockAt(was, i) {
      var lo, hi := i * BLOCK, i * BLOCK + BLOCK;
      assert now[..n * BLOCK][lo..hi] == now[lo..hi] && was[..n * BLOCK][lo..hi] == was[lo..hi];
    }
  }

  lemma {:induction false} SameBytes(a: seq<Byte>, b: seq<Byte>, n: nat)
    requires |a| == |b| && n * BLOCK <= |a| && a[n * BLOCK..] == b[n * BLOCK..]
    requires forall i: nat :: i < n ==> BlockAt(a, i) == BlockAt(b, i)
    ensures a == b
  {
    if n > 0 {
      var m := (n - 1) * BLOCK;
      assert a[m..] == BlockAt(a, n - 1) + a[n * BLOCK..] && b[m..] == BlockAt(b, n - 1) + b[n * BLOCK..];
      SameBytes(a, b, n - 1);
    } else {
      assert a[0..] == a && b[0..] == b;
    }
  }

  // ---------------------------------------------------------------- what the card will do

  /** The i-th command from state s is obeyed in time. */
  predicate Obeys(t: Temper, s: State, i: nat) {
    t.complaint(s.count + i) == 0 && t.ncr(s.count + i) < RESPONSE_POLLS
  }

  /** Block i of a transfer from block `first` on is read: the card has it, obeys, and sends its data in time. */
  predicate Readable(t: Temper, s: State, first: nat, i: nat) {
    first + i < |s.disk| && Obeys(t, s, i) && t.token(s.count + i) == 0xFE && t.nac(s.count + i) < TOKEN_POLLS
  }

  predicate Writable(t: Temper, s: State, first: nat, i: nat) {
    first + i < |s.disk| && Obeys(t, s, i)
  }

  /** Its busy time ends while the driver still polls. */
  predicate Timely(t: Temper, s: State, i: nat) { t.busy(s.count + i + 1) < BUSY_POLLS - 1 }

  /** A card that never keeps the driver waiting for longer than it polls. */
  ghost predicate Prompt(t: Temper) { forall n :: t.busy(n) < BUSY_POLLS - 1 }

  /** `done` is the number of the first block not read. */
  ghost predicate ReadUpTo(t: Temper, s: State, first: nat, nr: nat, done: nat) {
    && done <= nr && (forall i: nat :: i < done ==> Readable(t, s, first, i))
    && (done < nr ==> !Readable(t, s, first, done))
  }

  /** `stored` is the number of the first block not written, or the one after the first block waited for in vain. */
  ghost predicate WrittenUpTo(t: Temper, s: State, first: nat, nr: nat, stored: nat, slow: bool) {
    stored <= nr && (forall i: nat :: i < stored ==> Writable(t, s, first, i))
    && (forall i: nat :: i + 1 < stored ==> Timely(t, s, i))
    && (stored > 0 ==> (slow <==> !Timely(t, s, stored - 1))) && (slow ==> stored > 0)
    && (!slow && stored < nr ==> !Writable(t, s, first, stored))
  }

  lemma ReadUnique(t: Temper, s: State, first: nat, nr: nat, m: nat, n: nat)
    requires ReadUpTo(t, s, first, nr, m) && ReadUpTo(t, s, first, nr, n)
    ensures m == n
  {
  }

  lemma WrittenUnique(t: Temper, s: State, first: nat, nr: nat, m: nat, mSlow: bool, n: nat, nSlow: bool)
    requires WrittenUpTo(t, s, first, nr, m, mSlow) && WrittenUpTo(t, s, first, nr, n, nSlow)
    ensures m == n && mSlow == nSlow
  {
  }

  lemma AcceptsBlock(t: Temper, s: State, now: State, first: nat, i: nat)
    requires now.count == s.count + i && |now.disk| == |s.disk|
    ensures Accepts(t, now, first * BLOCK + i * BLOCK) <==> Writable(t, s, first, i)
    ensures (first * BLOCK + i * BLOCK) / BLOCK == first + i
  {
    assert first * BLOCK + i * BLOCK == (first + i) * BLOCK;
    assert (first + i) * BLOCK % BLOCK == 0 && (first + i) * BLOCK / BLOCK == first + i;
  }

  // ---------------------------------------------------------------- reading

  /** The card after i blocks of a transfer have been read. */
  function AfterReads(s: State, i: nat): State { if i == 0 then s else State(IDLE, s.disk, s.count + i) }

  /** Where reading `nr` blocks leads: to the first one the card does not serve, and nowhere if it is still busy. */
  ghost predicate Reads(t: Temper, s: State, first: nat, nr: nat, done: nat, s': State) {
    if nr == 0 then done == 0 && s' == s
    else if Awake(s) then
      ReadUpTo(t, s, first, nr, done) && s' == State(IDLE, s.disk, s.count + done + if done < nr then 1 else 0)
    else done == 0 && s' == MachineRead(t, s, first * BLOCK).s
  }

  lemma ReadKeeps(t: Temper, s: State, first: nat, nr: nat, done: nat, s': State)
    requires Reads(t, s, first, nr, done, s') && Quiet(s)
    ensures s'.disk == s.disk && Quiet(s')
  {
    if nr > 0 && !Awake(s) { DeafRead(t, s, first * BLOCK); }
  }

  // ---------------------------------------------------------------- writing

  /** What a block write comes to, heard or not. */
  predicate Leads(t: Temper, s: State, addr: nat, data: Block, w: Done) {
    if Awake(s) then Serves(t, s, addr, data, w)
    else w == MachineWrite(t, s, addr, data) && (w.code == 0 ==> w.s.phase == IDLE)
  }

  /** From where a transfer's blocks are stored: a card that is still busy makes its first block fail, or swallows it.
      `first` is the sector its block 0 is meant for, `at` the first one it gets to. */
  datatype Base = Base(lost: nat, s: State, first: nat, at: nat, go: bool)
  {
    predicate Sound() { lost <= 1 && (lost == 0 ==> go) && at == first + lost }
  }

  function BaseOf(t: Temper, s: State, first: nat, data: seq<Byte>): (b: Base)
    ensures b.Sound() && b.first == first
  {
    if Awake(s) then Base(0, Woken(s), first, first, true)
    else var w := MachineWrite(t, s, first * BLOCK, data); Base(1, w.s, first, first + 1, w.code == 0)
  }

  lemma BaseKeeps(t: Temper, s: State, first: nat, data: Block)
    requires Quiet(s)
    ensures var b := BaseOf(t, s, first, data);
      && b.s.disk == s.disk && Quiet(b.s) && (b.lost == 0 <==> Awake(s))
      && (b.go ==> b.s.phase == IDLE && (Awake(s) || Swallowed(s.phase.left)))
  {
    if !Awake(s) { DeafWrite(t, s, first * BLOCK, data); }
  }

  /** The card after the blocks of a transfer up to the i-th have been stored. */
  function Wrote(b: Base, buffer: seq<Byte>, i: nat): State
    requires i * BLOCK <= |buffer| && b.lost <= i
  {
    State(IDLE, Laid(b.s.disk, b.first, buffer, b.lost, i), b.s.count + i - b.lost)
  }

  function AfterWrites(s: State, b: Base, buffer: seq<Byte>, i: nat): State
    requires i * BLOCK <= |buffer| && (i > 0 ==> b.lost <= i)
  {
    if i == 0 then s else Wrote(b, buffer, i)
  }

  function NthCode(t: Temper, b: Base, i: nat): nat
    requires b.lost <= i
  {
    if !Writable(t, b.s, b.at, i - b.lost) then 1 else if Timely(t, b.s, i - b.lost) then 0 else 3
  }

  /** What the i-th block of a transfer leads to when the card hears it. */
  function NthState(t: Temper, b: Base, buffer: seq<Byte>, i: nat, code: nat): State
    requires (i + 1) * BLOCK <= |buffer| && b.lost <= i
  {
    var w := Wrote(b, buffer, i + 1);
    if code == 0 then w else if code == 3 then w.(phase := LeftBusy(t, w.count))
    else Wrote(b, buffer, i).(count := w.count)
  }

  lemma NthStored(t: Temper, b: Base, now: State, buffer: seq<Byte>, i: nat, w: Done)
    requires (i + 1) * BLOCK <= |buffer| && b.lost <= i && b.Sound() && Woken(now) == Wrote(b, buffer, i)
    requires Serves(t, now, b.first * BLOCK + i * BLOCK, BlockAt(buffer, i), w)
    ensures w.code == NthCode(t, b, i) && w.s == NthState(t, b, buffer, i, w.code)
  {
    assert b.first * BLOCK + i * BLOCK == b.at * BLOCK + (i - b.lost) * BLOCK;
    AcceptsBlock(t, b.s, now, b.at, i - b.lost);
  }

  /** What the i-th block of a transfer leads to. */
  ghost predicate Nth(t: Temper, b: Base, buffer: seq<Byte>, i: nat, w: Done)
    requires (i + 1) * BLOCK <= |buffer| && (i > 0 ==> b.lost <= i) && b.Sound()
  {
    if i < b.lost then (w.code == 0 <==> b.go) && w.s == b.s && (b.go ==> w.s == Wrote(b, buffer, 1))
    else w.code == NthCode(t, b, i) && w.s == NthState(t, b, buffer, i, w.code)
  }

  lemma NthLeads(t: Temper, s: State, b: Base, first: nat, buffer: seq<Byte>, i: nat, w: Done)
    requires (i + 1) * BLOCK <= |buffer| && b == BaseOf(t, s, first, BlockAt(buffer, 0)) && (i > 0 ==> b.lost <= i)
    requires Leads(t, AfterWrites(s, b, buffer, i), first * BLOCK + i * BLOCK, BlockAt(buffer, i), w)
    ensures Nth(t, b, buffer, i, w)
  {
    if i > 0 {
      NthStored(t, b, Wrote(b, buffer, i), buffer, i, w);
    } else if Awake(s) {
      NthStored(t, b, s, buffer, 0, w);
    }
  }

  /** Where writing `nr` blocks leads: to the first one the card refuses, or to the first one waited for in vain, from
      where the first block has led. */
  ghost predicate Writes(t: Temper, s: State, first: nat, nr: nat, buffer: seq<Byte>,
                         lost: nat, stored: nat, slow: bool, s': State)
    requires nr * BLOCK <= |buffer|
  {
    if nr == 0 then lost == stored == 0 && !slow && s' == s
    else WritesFrom(t, BaseOf(t, s, first, BlockAt(buffer, 0)), nr, buffer, lost, stored, slow, s')
  }

  ghost predicate WritesFrom(t: Temper, b: Base, nr: nat, buffer: seq<Byte>,
                             lost: nat, stored: nat, slow: bool, s': State)
    requires b.lost <= nr && nr * BLOCK <= |buffer|
  {
    if !b.go then lost == stored == 0 && !slow && s' == b.s else
    && lost == b.lost && WrittenUpTo(t, b.s, b.at, nr - lost, stored, slow)
    && s' == EndState(t, b, buffer, nr, stored, slow)
  }

  function EndState(t: Temper, b: Base, buffer: seq<Byte>, nr: nat, stored: nat, slow: bool): State
    requires (b.lost + stored) * BLOCK <= |buffer|
  {
    var w := Wrote(b, buffer, b.lost + stored);
    if slow then w.(phase := LeftBusy(t, w.count))
    else if b.lost + stored < nr then w.(count := w.count + 1) else w
  }

  lemma WriteStores(t: Temper, s: State, first: nat, nr: nat, buffer: seq<Byte>,
                    lost: nat, stored: nat, slow: bool, s': State)
    requires nr * BLOCK <= |buffer| && Writes(t, s, first, nr, buffer, lost, stored, slow, s') && Quiet(s)
    ensures lost + stored <= nr && Quiet(s')
    ensures s'.disk == Laid(s.disk, first, buffer, lost, lost + stored)
  {
    if nr > 0 { BaseKeeps(t, s, first, BlockAt(buffer, 0)); }
  }

  // ---------------------------------------------------------------- one block after the other

  /** The blocks before the i-th have all been stored in time, but for one that was lost. */
  ghost predicate Passed(t: Temper, b: Base, i: nat) {
    i > 0 ==>
      b.go && b.lost <= i && forall k: nat :: k < i - b.lost ==> Writable(t, b.s, b.at, k) && Timely(t, b.s, k)
  }

  /** So far so good is the same as a whole transfer of the blocks so far. */
  lemma PassedIs(t: Temper, s: State, first: nat, buffer: seq<Byte>, i: nat, lost: nat, now: State)
    requires i * BLOCK <= |buffer| && BLOCK <= |buffer| && lost <= i
    requires Writes(t, s, first, i, buffer, lost, i - lost, false, now)
    ensures var b := BaseOf(t, s, first, BlockAt(buffer, 0)); Passed(t, b, i) && now == AfterWrites(s, b, buffer, i)
  {
  }

  lemma PassedNth(t: Temper, b: Base, buffer: seq<Byte>, i: nat, w: Done)
    requires (i + 1) * BLOCK <= |buffer| && b.Sound() && Passed(t, b, i) && Nth(t, b, buffer, i, w) && w.code == 0
    ensures b.lost <= i + 1 && WritesFrom(t, b, i + 1, buffer, b.lost, i + 1 - b.lost, false, w.s)
  {
    assert b.lost + (i + 1 - b.lost) == i + 1;
  }

  lemma StopsAtNth(t: Temper, b: Base, nr: nat, buffer: seq<Byte>, i: nat, w: Done)
    requires i < nr && nr * BLOCK <= |buffer| && b.Sound() && Passed(t, b, i) && Nth(t, b, buffer, i, w) && w.code != 0
    ensures var slow := b.go && w.code == 3;
      WritesFrom(t, b, nr, buffer, if b.go then b.lost else 0, StoredAt(b, i, slow), slow, w.s)
  {
    if b.go {
      assert b.lost <= i;
      if w.code == 3 { GivesUpAt(t, b, nr, buffer, i, w); } else { RefusedAt(t, b, nr, buffer, i, w); }
    }
  }

  lemma GivesUpAt(t: Temper, b: Base, nr: nat, buffer: seq<Byte>, i: nat, w: Done)
    requires b.lost <= i < nr && nr * BLOCK <= |buffer| && b.go && Passed(t, b, i)
    requires w.code == 3 == NthCode(t, b, i) && w.s == NthState(t, b, buffer, i, 3)
    ensures WritesFrom(t, b, nr, buffer, b.lost, i - b.lost + 1, true, w.s)
  {
    assert i - b.lost + 1 + b.lost == i + 1;
  }

  lemma RefusedAt(t: Temper, b: Base, nr: nat, buffer: seq<Byte>, i: nat, w: Done)
    requires b.lost <= i < nr && nr * BLOCK <= |buffer| && b.go && Passed(t, b, i)
    requires w.code == 1 == NthCode(t, b, i) && w.s == NthState(t, b, buffer, i, 1)
    ensures WritesFrom(t, b, nr, buffer, b.lost, i - b.lost, false, w.s)
  {
    assert b.lost + (i - b.lost) == i;
  }

  /** How many blocks have been stored when the i-th one failed. */
  function StoredAt(b: Base, i: nat, slow: bool): nat {
    if b.go && b.lost <= i then i - b.lost + (if slow then 1 else 0) else 0
  }

  /** What the i-th block means for the transfer. */
  lemma AfterNth(t: Temper, s: State, first: nat, nr: nat, buffer: seq<Byte>, i: nat, w: Done)
    returns (lost: nat, stored: nat, slow: bool)
    requires i < nr && nr * BLOCK <= |buffer| && Passed(t, BaseOf(t, s, first, BlockAt(buffer, 0)), i)
    requires Nth(t, BaseOf(t, s, first, BlockAt(buffer, 0)), buffer, i, w)
    ensures w.code == 0 ==>
      lost + stored == i + 1 && !slow && Writes(t, s, first, i + 1, buffer, lost, stored, false, w.s)
    ensures w.code != 0 ==>
      Writes(t, s, first, nr, buffer, lost, stored, slow, w.s) && !(lost + stored == nr && !slow)
  {
    var b := BaseOf(t, s, first, BlockAt(buffer, 0));
    slow := b.go && w.code == 3;
    if w.code == 0 {
      PassedNth(t, b, buffer, i, w);
      lost, stored := b.lost, i + 1 - b.lost;
    } else {
      StopsAtNth(t, b, nr, buffer, i, w);
      lost, stored := if b.go then b.lost else 0, StoredAt(b, i, slow);
    }
  }
}
