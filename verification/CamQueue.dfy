/** The queue of messages from the CAM: a 2048-byte ring whose read index may rest at 2048. */
module CamQueue {
  import opened Common

  const SIZE: nat := 0x800
  const MARK: Byte := 0x6F

  /** The n bytes of a ring from position `at` on. */
  function Ring(buffer: seq<Byte>, at: nat, n: nat): seq<Byte>
    requires |buffer| == SIZE
  {
    seq(n, i requires 0 <= i < n => buffer[(at + i) % SIZE])
  }

  lemma RingSlices(buffer: seq<Byte>, at: nat, n: nat)
    requires |buffer| == SIZE && at <= SIZE && n <= SIZE
    ensures Ring(buffer, at, n) ==
      if at + n > SIZE then buffer[at..] + buffer[..n - (SIZE - at)] else buffer[at..at + n]
  {
  }

  lemma RingDrop(buffer: seq<Byte>, at: nat, n: nat, k: nat)
    requires |buffer| == SIZE && at <= SIZE && k <= n
    ensures Ring(buffer, at, n)[..k] == Ring(buffer, at, k)
    ensures Ring(buffer, at, n)[k..] == Ring(buffer, at + k, n - k)
    ensures at + k >= SIZE ==> Ring(buffer, at + k, n - k) == Ring(buffer, at + k - SIZE, n - k)
  {
    if at + k >= SIZE { RingAround(buffer, at + k - SIZE, n - k); }
  }

  lemma RingAround(buffer: seq<Byte>, at: nat, n: nat)
    requires |buffer| == SIZE
    ensures Ring(buffer, at + SIZE, n) == Ring(buffer, at, n)
  {
    forall i: nat | i < n ensures Ring(buffer, at + SIZE, n)[i] == Ring(buffer, at, n)[i] {
      assert (at + SIZE + i) % SIZE == (at + i) % SIZE;
    }
  }

  lemma RingPut(buffer: seq<Byte>, at: nat, n: nat, b: Byte)
    requires |buffer| == SIZE && n < SIZE
    ensures Ring(buffer[(at + n) % SIZE := b], at, n + 1) == Ring(buffer, at, n) + [b]
  {
    var now := buffer[(at + n) % SIZE := b];
    forall i: nat | i < n ensures Ring(now, at, n + 1)[i] == Ring(buffer, at, n)[i] { Distinct(at + i, n - i); }
  }

  lemma Distinct(x: nat, d: nat)
    requires 0 < d < SIZE
    ensures x % SIZE != (x + d) % SIZE
  {
  }

  class Queue {
    const queue: array<Byte>
    var wptr: nat
    var rptr: nat

    /** The write index is inside; the read index may stand for 0 as 2048. */
    ghost predicate Valid() reads this { queue.Length == SIZE && wptr < SIZE && rptr <= SIZE }

    function Used(): int
      reads this
    {
      var i: int := wptr - rptr;
      if i < 0 then i + SIZE else i
    }

    ghost function Contents(): seq<Byte>
      requires Valid()
      reads this, queue
    {
      Ring(queue[..], rptr, Used())
    }

    constructor ()
      ensures Valid() && Contents() == [] && fresh(queue)
    {
      queue := new Byte[SIZE](_ => 0);
      wptr, rptr := 0, 0;
    }

    /** Up to `count` bytes in order, in two pieces when they wrap. */
    method ReadMessage(buf: array<Byte>, count: nat) returns (cb: nat)
      requires Valid() && buf != queue && buf.Length >= count
      modifies `rptr, buf
      ensures Valid() && wptr == old(wptr)
      ensures cb == if count < |old(Contents())| then count else |old(Contents())|
      ensures buf[..cb] == old(Contents())[..cb] && buf[cb..] == old(buf[cb..])
      ensures Contents() == old(Contents())[cb..]
    {
      cb := Used();
      RingDrop(queue[..], rptr, Used(), if count < cb then count else cb);
      if count < cb { cb := count; }
      ghost var was, ring := buf[..], Ring(queue[..], rptr, cb);
      CopyWrapped(buf, cb);
      assert buf[..cb] == ring && buf[cb..] == was[cb..];
    }

    /** The next cb bytes to the front of the buffer, and the read index past them. */
    method CopyWrapped(buf: array<Byte>, cb: nat)
      requires Valid() && buf != queue && cb <= buf.Length && cb < SIZE
      modifies `rptr, buf
      ensures buf[..] == Ring(queue[..], old(rptr), cb) + old(buf[cb..])
      ensures rptr == if old(rptr) + cb > SIZE then old(rptr) + cb - SIZE else old(rptr) + cb
    {
      RingSlices(queue[..], rptr, cb);
      if rptr + cb > SIZE {
        var part := SIZE - rptr;
        CopyOut(buf, 0, rptr, part);
        CopyOut(buf, part, 0, cb - part);
        rptr := cb - part;
      } else {
        CopyOut(buf, 0, rptr, cb);
        rptr := rptr + cb;
      }
    }

    method CopyOut(buf: array<Byte>, at: nat, from: nat, n: nat)
      requires buf != queue && at + n <= buf.Length && from + n <= queue.Length
      modifies buf
      ensures buf[..] == old(buf[..at]) + queue[from..from + n] + old(buf[at + n..])
    {
      forall i | 0 <= i < n { buf[at + i] := queue[from + i]; }
    }

    /** Everything unread is dropped; with the read index at 2048 the write index leaves the queue. */
    method Discard()
      requires Valid()
      modifies `wptr
      ensures wptr == rptr && (Valid() <==> rptr < 2048)
      ensures Valid() ==> Contents() == []
    {
      wptr := rptr;
    }

    method PutByte(b: Byte, ghost n: nat)
      requires Valid() && wptr == (rptr + n) % SIZE
      modifies `wptr, queue
      ensures Valid() && wptr == (rptr + n + 1) % SIZE
      ensures n < SIZE ==> Ring(queue[..], rptr, n + 1) == Ring(old(queue[..]), rptr, n) + [b]
    {
      if n < SIZE { RingPut(queue[..], rptr, n, b); }
      queue[wptr] := b;
      wptr := wptr + 1;
      if wptr == SIZE { wptr := 0; }
    }

    /** A message with its mark is appended exactly if it leaves a byte free; a longer one either drops everything,
        or makes the queue look as if it held a byte or nothing. */
    method Enqueue(data: seq<Byte>)
      requires Valid()
      modifies `wptr, queue
      ensures var total := |old(Contents())| + |data| + 1;
        && (total > 2049 ==> wptr == rptr && (Valid() <==> rptr < 2048) && queue[..] == old(queue[..]))
        && (total <= 2049 ==> Valid() && (Contents() == old(Contents()) + [0x6F] + data <==> total < 2048))
    {
      var i := Used();
      i := SIZE - i;
      if i < |data| {
        Discard();
      } else {
        ghost var used := Used();
        PutByte(MARK, used);
        PutAll(data, used + 1);
        UsedAfter(rptr, wptr, used + 1 + |data|);
      }
    }

    method PutAll(data: seq<Byte>, ghost used: nat)
      requires Valid() && wptr == (rptr + used) % SIZE
      modifies `wptr, queue
      ensures Valid() && wptr == (rptr + used + |data|) % SIZE
      ensures used + |data| <= SIZE ==>
        Ring(queue[..], rptr, used + |data|) == Ring(old(queue[..]), rptr, used) + data
    {
      ghost var was := queue[..];
      var n := 0;
      assert data[..0] == [];
      while n < |data|
        invariant n <= |data| && Valid() && wptr == (rptr + (used + n)) % SIZE
        invariant used + n <= SIZE ==> Ring(queue[..], rptr, used + n) == Ring(was, rptr, used) + data[..n]
      {
        PutByte(data[n], used + n);
        assert data[..n + 1] == data[..n] + [data[n]];
        n := n + 1;
      }
      assert data[..n] == data;
    }
  }

  lemma UsedAfter(rptr: nat, wptr: nat, total: nat)
    requires rptr <= SIZE && wptr == (rptr + total) % SIZE && total <= SIZE + 1
    ensures (if wptr - rptr < 0 then wptr - rptr + SIZE else wptr - rptr) == total % SIZE
  {
  }

  // ---------------------------------------------------------------- runs without a discard

  datatype Op = Read(count: nat) | Message(data: seq<Byte>)

  /** What a read of a FIFO of bytes returns. */
  function Answer(fifo: seq<Byte>, count: nat): seq<Byte> {
    if count < |fifo| then fifo[..count] else fifo
  }

  function Step(fifo: seq<Byte>, op: Op): seq<Byte> {
    match op
    case Read(count) => fifo[|Answer(fifo, count)|..]
    case Message(data) => fifo + [0x6F] + data
  }

  /** The FIFO after some operations, and what the reads among them return. */
  function After(fifo: seq<Byte>, ops: seq<Op>): seq<Byte>
    decreases |ops|
  {
    if ops == [] then fifo else Step(After(fifo, ops[..|ops| - 1]), ops[|ops| - 1])
  }

  function Answers(fifo: seq<Byte>, ops: seq<Op>): seq<seq<Byte>>
    decreases |ops|
  {
    if ops == [] then []
    else
      var front := ops[..|ops| - 1];
      Answers(fifo, front)
      + match ops[|ops| - 1] case Read(count) => [Answer(After(fifo, front), count)] case Message(_) => []
  }

  /** A message leaves a byte of the ring free. */
  predicate Fits(fifo: seq<Byte>, op: Op) { op.Message? ==> |fifo| + |op.data| + 1 < 2048 }

  ghost predicate AllFit(fifo: seq<Byte>, ops: seq<Op>)
    decreases |ops|
  {
    ops == [] || (AllFit(fifo, ops[..|ops| - 1]) && Fits(After(fifo, ops[..|ops| - 1]), ops[|ops| - 1]))
  }

  function Joined(pieces: seq<seq<Byte>>): seq<Byte>
    decreases |pieces|
  {
    if pieces == [] then [] else Joined(pieces[..|pieces| - 1]) + pieces[|pieces| - 1]
  }

  /** The bytes that the messages among some operations bring. */
  function Brought(ops: seq<Op>): seq<Byte>
    decreases |ops|
  {
    if ops == [] then []
    else
      Brought(ops[..|ops| - 1])
      + match ops[|ops| - 1] case Read(_) => [] case Message(data) => [0x6F] + data
  }

  /** What the reads return and what is left is what there was and what the messages brought, in order. */
  lemma {:induction false} NothingLost(fifo: seq<Byte>, ops: seq<Op>)
    ensures Joined(Answers(fifo, ops)) + After(fifo, ops) == fifo + Brought(ops)
    decreases |ops|
  {
    if ops != [] {
      var front := ops[..|ops| - 1];
      NothingLost(fifo, front);
      var was, answers := After(fifo, front), Answers(fifo, front);
      match ops[|ops| - 1]
      case Read(count) =>
        var got := Answer(was, count);
        assert (answers + [got])[..|answers|] == answers;
        Taken(Joined(answers), was, |got|);
      case Message(data) =>
        assert answers + [] == answers;
        Appended(Joined(answers), was, fifo, Brought(front), data);
    }
  }

  lemma Taken(out: seq<Byte>, was: seq<Byte>, n: nat)
    requires n <= |was|
    ensures out + was[..n] + was[n..] == out + was
  {
  }

  lemma Appended(out: seq<Byte>, was: seq<Byte>, fifo: seq<Byte>, brought: seq<Byte>, data: seq<Byte>)
    requires out + was == fifo + brought
    ensures out + (was + [0x6F] + data) == fifo + (brought + ([0x6F] + data))
  {
    assert out + (was + [0x6F] + data) == (out + was) + ([0x6F] + data);
    assert (fifo + brought) + ([0x6F] + data) == fifo + (brought + ([0x6F] + data));
  }

  /** The queue holds what the FIFO holds. */
  ghost predicate Holds(q: Queue, fifo: seq<Byte>)
    reads q, q.queue
  {
    q.Valid() && q.Contents() == fifo
  }

  method Perform(q: Queue, op: Op) returns (got: seq<Byte>)
    requires q.Valid()
    modifies q, q.queue
    ensures Holds(q, Step(old(q.Contents()), op)) <==> Fits(old(q.Contents()), op)
    ensures got == match op { case Read(count) => Answer(old(q.Contents()), count) case Message(_) => [] }
  {
    got := [];
    match op
    case Read(count) =>
      var buf := new Byte[count];
      var cb := q.ReadMessage(buf, count);
      got := buf[..cb];
    case Message(data) =>
      q.Enqueue(data);
  }

  /** Over every run of reads of any size and messages: as long as each message fits when it comes the queue is the
      FIFO, and the first message that does not fit, and only that, makes it another one. */
  method Run(q: Queue, ops: seq<Op>) returns (out: seq<seq<Byte>>)
    requires q.Valid() && (ops != [] ==> AllFit(q.Contents(), ops[..|ops| - 1]))
    modifies q, q.queue
    ensures Holds(q, After(old(q.Contents()), ops)) <==> AllFit(old(q.Contents()), ops)
    ensures out == Answers(old(q.Contents()), ops)
  {
    out := [];
    ghost var fifo := q.Contents();
    for i := 0 to |ops|
      invariant Holds(q, After(fifo, ops[..i])) <==> AllFit(fifo, ops[..i])
      invariant i < |ops| ==> AllFit(fifo, ops[..i])
      invariant out == Answers(fifo, ops[..i])
    {
      assert ops[..i + 1][..i] == ops[..i];
      if i + 1 < |ops| { FitPrefix(fifo, ops[..|ops| - 1], i + 1); assert ops[..|ops| - 1][..i + 1] == ops[..i + 1]; }
      var got := Perform(q, ops[i]);
      if ops[i].Read? { out := out + [got]; }
    }
    assert ops[..|ops|] == ops;
  }

  lemma {:induction false} FitPrefix(fifo: seq<Byte>, ops: seq<Op>, n: nat)
    requires AllFit(fifo, ops) && n <= |ops|
    ensures AllFit(fifo, ops[..n])
    decreases |ops|
  {
    if n < |ops| {
      FitPrefix(fifo, ops[..|ops| - 1], n);
      assert ops[..|ops| - 1][..n] == ops[..n];
    } else {
      assert ops[..n] == ops;
    }
  }
}
