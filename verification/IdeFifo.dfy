/** Transfers between the host and an IDE drive through the CPLD, which runs by itself between any two accesses. */
module IdeFifo {
  import opened Common

  type Word = w: int | 0 <= w < 0x10000

  const DEPTH: nat := 4
  const FULL: nat := 0xF
  const MAX_WAIT: nat := 1000

  /** The CPLD: a four-word FIFO that it fills from the drive or empties into the drive. */
  class Cpld {
    /** The words the drive's data register yields, in order, and how many have been fetched. */
    const drive: nat -> Word
    var taken: nat
    /** The words the drive has been given. */
    var given: seq<Word>
    var fifo: seq<Word>

    var enabled: bool
    var repeat: bool
    var writing: bool
    /** A single transfer is still to be made. */
    var armed: bool

    /** How many more accesses the CPLD may let pass before it moves a word again: any number, but finite. */
    var stall: nat

    /** What the FIFO held when the host last looked at its level, and how often it has looked. */
    ghost var looked: seq<Word>
    ghost var looks: nat

    ghost predicate Valid() reads this { |fifo| <= DEPTH }

    function Words(first: nat, last: nat): seq<Word>
      requires first <= last
    {
      seq(last - first, i requires 0 <= i < last - first => drive(first + i))
    }

    /** Four more words behind those already stored. */
    lemma Joined(was: seq<Word>, t0: nat, n: nat)
      requires n + 4 <= |was|
      ensures var now := Words(t0, t0 + n) + was[n..];
        now[..n] + Words(t0 + n, t0 + n + 4) + now[n + 4..] == Words(t0, t0 + n + 4) + was[n + 4..]
    {
    }

    predicate CanFetch() reads this { enabled && !writing && (repeat || armed) && |fifo| < DEPTH }

    predicate CanGive() reads this { enabled && writing && fifo != [] }

    /** Nothing under way: the state between transfers. */
    ghost predicate Quiet() reads this { fifo == [] && !CanFetch() }

    /** What may have happened between two accesses of the host. */
    twostate predicate Ran()
      reads this
    {
      && Valid()
      && (if old(CanGive()) then
            taken == old(taken) && armed == old(armed) && |fifo| <= |old(fifo)|
            && given == old(given) + old(fifo)[..|old(fifo)| - |fifo|] && fifo == old(fifo)[|old(fifo)| - |fifo|..]
          else if old(CanFetch()) then
            given == old(given) && taken >= old(taken) && fifo == old(fifo) + Words(old(taken), taken)
            && (old(repeat) || taken <= old(taken) + 1)
            && armed == (old(armed) && taken == old(taken))
          else taken == old(taken) && given == old(given) && fifo == old(fifo) && armed == old(armed))
    }

    /** Something has moved, or there is less patience left. */
    twostate predicate Advanced()
      reads this
    {
      |fifo| != |old(fifo)| || stall < old(stall) || !(old(CanFetch()) || old(CanGive()))
    }

    /** One word moved, if one can. */
    method Move()
      requires Valid()
      modifies `taken, `given, `fifo, `armed
      ensures Ran()
      ensures old(CanFetch()) ==> taken == old(taken) + 1
      ensures old(CanGive()) ==> |fifo| == |old(fifo)| - 1
    {
      if CanFetch() {
        fifo := fifo + [drive(taken)];
        taken := taken + 1;
        armed := false;
      } else if CanGive() {
        given := given + [fifo[0]];
        fifo := fifo[1..];
      }
    }

    /** Any number of steps of the CPLD's own, or none, but not none forever. */
    method Async()
      requires Valid()
      modifies `taken, `given, `fifo, `armed, `stall
      ensures Ran() && Advanced()
    {
      if stall > 0 {
        var lazy: bool := *;
        if lazy {
          stall := stall - 1;
          return;
        }
      }
      Move();
      ghost var less := |fifo| < |old(fifo)|;
      ghost var more := |fifo| > |old(fifo)|;
      var again: bool := *;
      var steps: int := *;
      while again && steps > 0
        invariant Ran() && (less ==> |fifo| < |old(fifo)|) && (more ==> |fifo| > |old(fifo)|)
      {
        Move();
        steps := steps - 1;
      }
      var patience: int := *;
      stall := if patience < 0 then 0 else patience;
    }

    // -------------------------------------------------------------- accesses of the host

    /** The FIFO level: 0xF when full, 0 when empty, something else in between. */
    method Level() returns (level: nat)
      requires Valid()
      modifies `taken, `given, `fifo, `armed, `stall, `looked, `looks
      ensures Ran() && Advanced() && looked == fifo && looks == old(looks) + 1
      ensures (level == FULL <==> |fifo| == DEPTH) && (level == 0 <==> fifo == [])
    {
      Async();
      level, looked := if |fifo| == DEPTH then FULL else if fifo == [] then 0 else |fifo|, fifo;
      looks := looks + 1;
    }

    /** A read of the FIFO takes two words, or the only one, which is then in the low half. */
    method ReadFifo() returns (high: Word, low: Word)
      requires Valid() && fifo != [] && !CanGive()
      modifies `taken, `given, `fifo, `armed, `stall
      ensures Valid() && taken >= old(taken) && given == old(given)
      ensures (old(!CanFetch()) ==> taken == old(taken)) && (old(!armed) ==> !armed)
      ensures var all := old(fifo) + Words(old(taken), taken);
              if |all| >= 2 then [high, low] == all[..2] && fifo == all[2..] else low == all[0] && fifo == []
    {
      Async();
      if |fifo| >= 2 {
        high, low := fifo[0], fifo[1];
        fifo := fifo[2..];
      } else {
        high, low := 0, fifo[0];
        fifo := [];
      }
    }

    method WriteFifo(high: Word, low: Word)
      requires Valid() && |fifo| + 2 <= DEPTH && !CanFetch() && writing && enabled
      modifies `taken, `given, `fifo, `armed, `stall
      ensures Valid() && taken == old(taken)
      ensures given + fifo == old(given) + old(fifo) + [high, low] && |given| >= |old(given)|
    {
      Async();
      fifo := fifo + [high, low];
    }

    method WriteCtrl(writing: bool, enable: bool, repeat: bool)
      requires Valid()
      modifies this
      ensures Valid() && this.writing == writing && enabled == enable && this.repeat == repeat
      ensures armed == (enable && !repeat && !writing) && looked == old(looked) && looks == old(looks)
      ensures old(CanGive()) ==> taken == old(taken) && |given| >= |old(given)| && |fifo| <= |old(fifo)|
                                 && given + fifo == old(given) + old(fifo)
      ensures old(CanFetch()) ==> given == old(given) && taken >= old(taken)
                                  && fifo == old(fifo) + Words(old(taken), taken)
      ensures !old(CanGive()) && !old(CanFetch()) ==> taken == old(taken) && given == old(given) && fifo == old(fifo)
    {
      Async();
      this.writing, enabled, this.repeat := writing, enable, repeat;
      armed := enable && !repeat && !writing;
    }
  }

  /** How many words a read of `count` words really takes. */
  function Rounded(count: nat): nat {
    if count < 4 then count else (count + 3) / 4 * 4
  }

  /** Short transfers and multiples of four, and only they, take exactly what was asked for. */
  lemma Exact(count: nat)
    ensures Rounded(count) == count <==> count < 4 || count % 4 == 0
    ensures Rounded(count) >= count
  {
  }

  method InW(c: Cpld) returns (val: Word)
    requires c.Valid() && c.Quiet()
    modifies c
    ensures c.Valid() && c.Quiet() && c.given == old(c.given)
    ensures c.taken == old(c.taken) + 1 && val == c.drive(old(c.taken))
  {
    var _ := c.Level();
    c.WriteCtrl(false, false, false);
    c.WriteCtrl(false, true, false);
    var level := c.Level();
    while level == 0
      invariant c.Valid() && c.given == old(c.given) && c.enabled && !c.writing && !c.repeat
      invariant level == 0 <==> c.fifo == []
      invariant old(c.taken) <= c.taken && c.fifo == c.Words(old(c.taken), c.taken)
      invariant c.taken <= old(c.taken) + 1 && c.armed == (c.taken == old(c.taken))
      decreases DEPTH - |c.fifo|, c.stall
    {
      level := c.Level();
    }
    var _, low := c.ReadFifo();
    val := low;
  }

  /** Auto-repeat is on and the FIFO holds what follows the first `at` words of the drive. */
  ghost predicate Streaming(c: Cpld, at: nat)
    reads c
  {
    && c.Valid() && c.enabled && c.repeat && !c.writing
    && c.taken == at + |c.fifo| && c.fifo == c.Words(at, c.taken)
  }

  method WaitFull(c: Cpld, ghost at: nat)
    requires Streaming(c, at)
    modifies c
    ensures Streaming(c, at) && |c.fifo| == DEPTH && c.given == old(c.given)
  {
    var level := c.Level();
    while level != FULL
      invariant Streaming(c, at) && (level == FULL <==> |c.fifo| == DEPTH) && c.given == old(c.given)
      decreases DEPTH - |c.fifo|, c.stall
    {
      level := c.Level();
    }
  }

  /** A full FIFO read out in two accesses, between which it may fill again. */
  method TakeFour(c: Cpld, dest: array<Word>, n: nat, ghost at: nat)
    requires Streaming(c, at) && n + 4 <= dest.Length
    modifies c, dest
    ensures Streaming(c, at + 4) && c.given == old(c.given)
    ensures dest[..] == old(dest[..n]) + c.Words(at, at + 4) + old(dest[n + 4..])
  {
    WaitFull(c, at);
    var a0, a1 := c.ReadFifo();
    assert Streaming(c, at + 2) && [a0, a1] == c.Words(at, at + 2);
    var b0, b1 := c.ReadFifo();
    assert Streaming(c, at + 4) && [b0, b1] == c.Words(at + 2, at + 4);
    dest[n], dest[n + 1], dest[n + 2], dest[n + 3] := a0, a1, b0, b1;
    assert [a0, a1] + [b0, b1] == c.Words(at, at + 4);
    StoredFour(old(dest[..]), n, [a0, a1] + [b0, b1], dest[..]);
  }

  lemma StoredFour(was: seq<Word>, n: nat, w: seq<Word>, now: seq<Word>)
    requires n + 4 <= |was| && |w| == 4 && now == was[n := w[0]][n + 1 := w[1]][n + 2 := w[2]][n + 3 := w[3]]
    ensures now == was[..n] + w + was[n + 4..]
  {
  }

  /** Switching auto-repeat off takes a full FIFO: then nothing more leaves the drive, whatever happens at that
      access. */
  method StopRepeat(c: Cpld, ghost at: nat)
    requires Streaming(c, at) && |c.fifo| == DEPTH
    modifies c
    ensures c.Valid() && !c.repeat && !c.enabled && !c.writing && !c.armed && !c.CanFetch() && !c.CanGive()
    ensures c.fifo == c.Words(at, at + 4) && c.taken == at + 4 && c.given == old(c.given)
  {
    c.WriteCtrl(false, false, false);
  }

  /** The last four words: the FIFO is seen full, the CPLD stopped, and only then is the FIFO read. */
  method StopAndTake(c: Cpld, dest: array<Word>, n: nat, ghost at: nat)
    requires Streaming(c, at) && n + 4 <= dest.Length
    modifies c, dest
    ensures c.Valid() && c.Quiet() && c.taken == at + 4 && c.given == old(c.given)
    ensures dest[..] == old(dest[..n]) + c.Words(at, at + 4) + old(dest[n + 4..])
  {
    WaitFull(c, at);
    StopRepeat(c, at);
    var a0, a1 := c.ReadFifo();
    assert [a0, a1] == c.Words(at, at + 4)[..2] && c.fifo == c.Words(at, at + 4)[2..];
    var b0, b1 := c.ReadFifo();
    assert [b0, b1] == c.Words(at, at + 4)[2..];
    dest[n], dest[n + 1], dest[n + 2], dest[n + 3] := a0, a1, b0, b1;
    assert [a0, a1] + [b0, b1] == c.Words(at, at + 4);
    StoredFour(old(dest[..]), n, [a0, a1] + [b0, b1], dest[..]);
  }

  method InShort(c: Cpld, addr: array<Word>, count: nat)
    requires c.Valid() && c.Quiet() && count <= addr.Length
    modifies c, addr
    ensures c.Valid() && c.Quiet() && c.given == old(c.given) && c.taken == old(c.taken) + count
    ensures addr[..] == c.Words(old(c.taken), c.taken) + old(addr[count..])
  {
    ghost var t0, was := c.taken, addr[..];
    var dest, left := 0, count;
    while left > 0
      invariant left >= 0 && dest + left == count && c.Valid() && c.Quiet() && c.given == old(c.given)
      invariant c.taken == t0 + dest && addr[..] == c.Words(t0, c.taken) + was[dest..]
    {
      var w := InW(c);
      addr[dest] := w;
      assert addr[..] == c.Words(t0, c.taken) + was[dest + 1..];
      dest, left := dest + 1, left - 1;
    }
  }

  /** The first n words of the buffer have arrived and the rest is as it was. */
  ghost predicate Arrived(c: Cpld, addr: array<Word>, was: seq<Word>, t0: nat, n: nat)
    reads addr
  {
    n <= |was| && addr[..] == c.Words(t0, t0 + n) + was[n..]
  }

  method NextFour(c: Cpld, addr: array<Word>, n: nat, ghost was: seq<Word>, ghost t0: nat)
    requires Streaming(c, t0 + n) && Arrived(c, addr, was, t0, n) && n + 4 <= addr.Length
    modifies c, addr
    ensures Streaming(c, t0 + n + 4) && Arrived(c, addr, was, t0, n + 4) && c.given == old(c.given)
  {
    TakeFour(c, addr, n, t0 + n);
    c.Joined(was, t0, n);
  }

  /** All but the last words: groups of eight, then of four. */
  method InGroups(c: Cpld, addr: array<Word>, count: nat, ghost was: seq<Word>, ghost t0: nat)
    returns (dest: nat, left: nat)
    requires 4 <= count <= addr.Length && Streaming(c, t0) && Arrived(c, addr, was, t0, 0)
    modifies c, addr
    ensures dest % 4 == 0 && 1 <= left <= 4 && dest + left == count
    ensures Streaming(c, t0 + dest) && Arrived(c, addr, was, t0, dest) && c.given == old(c.given)
  {
    dest, left := 0, count;
    while left > 16
      invariant left >= 4 && dest % 4 == 0 && dest + left == count
      invariant Streaming(c, t0 + dest) && Arrived(c, addr, was, t0, dest) && c.given == old(c.given)
    {
      NextFour(c, addr, dest, was, t0);
      NextFour(c, addr, dest + 4, was, t0);
      left := left - 8;
      dest := dest + 8;
    }
    while left > 4
      invariant 1 <= left && dest % 4 == 0 && dest + left == count
      invariant Streaming(c, t0 + dest) && Arrived(c, addr, was, t0, dest) && c.given == old(c.given)
    {
      NextFour(c, addr, dest, was, t0);
      left := left - 4;
      dest := dest + 4;
    }
  }

  /** Reads stop exactly after the words taken: nothing is left in the FIFO, and nothing more leaves the drive. */
  method InSw(c: Cpld, addr: array<Word>, count: nat)
    requires c.Valid() && c.Quiet() && Rounded(count) <= addr.Length
    modifies c, addr
    ensures c.Valid() && c.Quiet() && c.given == old(c.given)
    ensures c.taken == old(c.taken) + Rounded(count)
    ensures addr[..] == c.Words(old(c.taken), c.taken) + old(addr[Rounded(count)..])
  {
    if count < 4 {
      InShort(c, addr, count);
      return;
    }
    ghost var t0, was := c.taken, addr[..];
    c.WriteCtrl(false, false, false);
    c.WriteCtrl(false, true, true);
    var dest, left := InGroups(c, addr, count, was, t0);
    RoundsTo(dest, left);
    StopAndTake(c, addr, dest, t0 + dest);
    c.Joined(was, t0, dest);
  }

  lemma RoundsTo(dest: nat, left: nat)
    requires dest % 4 == 0 && 1 <= left <= 4 && dest + left >= 4
    ensures Rounded(dest + left) == dest + 4
  {
  }

  /** What is left of a count that the loop of a write takes down by fours, in 32 bits. */
  function CountAfter(count: nat, rounds: nat): nat { (count - 4 * rounds) % WORD }

  /** The loop of a write ends exactly for multiples of four; it never ends with a count of two, which the code after it
      is for. */
  lemma WriteEnds(count: nat)
    requires count < WORD
    ensures (exists rounds: nat :: CountAfter(count, rounds) == 0) <==> count % 4 == 0
    ensures count % 4 == 0 ==> CountAfter(count, count / 4) == 0
  {
    if count % 4 == 0 {
      assert CountAfter(count, count / 4) == 0;
    }
    forall rounds: nat | CountAfter(count, rounds) == 0 ensures count % 4 == 0 {
      assert (count - 4 * rounds) % WORD == 0;
      var q := (count - 4 * rounds) / WORD;
      assert count == 4 * (rounds + 0x4000_0000 * q);
    }
  }

  /** Nothing is lost or reordered; what the drive has not been given by the end is still in the FIFO. The driver was in
      time if and only if its last look found the FIFO empty. */
  method OutSw(c: Cpld, src: seq<Word>) returns (inTime: bool)
    requires c.Valid() && c.Quiet() && |src| % 4 == 0
    modifies c
    ensures c.Valid() && c.taken == old(c.taken) && c.given + c.fifo == old(c.given) + src
    ensures (inTime <==> c.looked == []) && (inTime ==> c.Quiet() && c.given == old(c.given) + src)
    ensures !c.enabled && !c.CanGive() && !c.CanFetch()
  {
    c.WriteCtrl(true, true, true);
    var count, n := |src|, 0;
    while count > 0
      invariant n + count == |src| && count % 4 == 0 && count >= 0
      invariant c.Valid() && c.taken == old(c.taken) && c.enabled && c.writing && c.repeat
      invariant c.given + c.fifo == old(c.given) + src[..n]
    {
      var level := c.Level();
      while level != 0
        invariant c.Valid() && c.taken == old(c.taken) && c.enabled && c.writing && c.repeat
        invariant (level == 0 <==> c.fifo == []) && c.given + c.fifo == old(c.given) + src[..n]
        decreases |c.fifo|, c.stall
      {
        level := c.Level();
      }
      c.WriteFifo(src[n], src[n + 1]);
      c.WriteFifo(src[n + 2], src[n + 3]);
      assert src[..n + 4] == src[..n] + [src[n], src[n + 1]] + [src[n + 2], src[n + 3]];
      n, count := n + 4, count - 4;
    }
    assert src[..n] == src;
    inTime := WaitForFifoEmpty(c);
    c.WriteCtrl(true, false, false);
  }

  /** A bounded number of looks at the level. */
  method WaitForFifoEmpty(c: Cpld) returns (empty: bool)
    requires c.Valid() && c.writing && c.enabled
    modifies c
    ensures c.Valid() && c.taken == old(c.taken) && c.writing && c.enabled && c.repeat == old(c.repeat)
    ensures c.given + c.fifo == old(c.given) + old(c.fifo) && (empty <==> c.fifo == []) && c.looked == c.fifo
    ensures old(c.looks) < c.looks <= old(c.looks) + 1000 && (!empty ==> c.looks == old(c.looks) + 1000)
  {
    var cnt := MAX_WAIT - 1;
    var level := c.Level();
    while level != 0 && cnt > 0
      invariant cnt >= 0
      invariant c.Valid() && c.taken == old(c.taken) && c.writing && c.enabled && c.repeat == old(c.repeat)
      invariant c.given + c.fifo == old(c.given) + old(c.fifo) && (level == 0 <==> c.fifo == [])
      invariant c.looked == c.fifo && c.looks == old(c.looks) + MAX_WAIT - cnt
      decreases cnt
    {
      cnt := cnt - 1;
      level := c.Level();
    }
    empty := level == 0;
  }
}
