/** One 512-byte block over SPI, written twice in the driver: byte by byte, and with bursts. */
module MmcBlocks {
  import opened Common
  import opened SpiWire
  import opened MmcPort

  const BLOCK: nat := 512

  /** How many idle bytes a response, a data token and the end of programming are waited for. */
  const LEAD: nat := 4
  const RESPONSE_POLLS: nat := 8
  const TOKEN_POLLS: nat := 100000
  const BUSY_POLLS: nat := 1000000

  // ---------------------------------------------------------------- the exchange both versions must produce

  /** The frame of a command with a 32-bit argument; the last byte stands for the unchecked CRC. */
  function Command(op: Byte, arg: nat): seq<Byte> {
    [op, arg / 0x1000000 % 256, arg / 0x10000 % 256, arg / 0x100 % 256, arg % 256, 0xFF]
  }

  datatype Awaited = Awaited(found: bool, wire: History)

  /** Idle bytes until the card answers `want`, at most `limit` of them. */
  function Await(card: Card, h: History, want: Byte, limit: nat): Awaited
    decreases limit, h
  {
    if limit == 0 then Awaited(false, h)
    else if Answer(card, h, 0xFF) == want then Awaited(true, Sent(h, 0xFF))
    else Await(card, Sent(h, 0xFF), want, limit - 1)
  }

  datatype Outcome = Outcome(wire: History, code: nat, data: seq<Byte>)

  /** Selecting the card, four idle bytes and a command. */
  function Commanded(h: History, op: Byte, arg: nat): History {
    SentAll(Polled(h + [Select(false)], LEAD), Command(op, arg))
  }

  function Deselected(h: History): History { Sent(h + [Select(true)], 0xFF) }

  function ReadOutcome(card: Card, h: History, addr: nat): Outcome {
    var r1 := Await(card, Commanded(h, 0x51, addr), 0x00, RESPONSE_POLLS);
    if !r1.found then Outcome(Deselected(r1.wire), 1, []) else
    var token := Await(card, r1.wire, 0xFE, TOKEN_POLLS);
    if !token.found then Outcome(Deselected(token.wire), 2, []) else
    Outcome(Deselected(Polled(token.wire, BLOCK + 2)), 0, Received(card, token.wire, BLOCK))
  }

  function WriteOutcome(card: Card, h: History, addr: nat, data: seq<Byte>): Outcome {
    var r1 := Await(card, Commanded(h, 0x58, addr), 0x00, RESPONSE_POLLS);
    if !r1.found then Outcome(Deselected(r1.wire), 1, []) else
    var busy := Await(card, SentAll(r1.wire, [0xFE] + data + [0xFF, 0xFF]), 0xFF, BUSY_POLLS);
    Outcome(Deselected(busy.wire), if busy.found then 0 else 3, [])
  }

  // ---------------------------------------------------------------- a steady data line

  lemma PolledClean(h: History, n: nat)
    requires Clean(h)
    ensures Clean(Polled(h, n))
  {
    PolledIsSent(h, n);
    SentClean(h, Idle(n));
  }

  lemma {:induction false} AwaitClean(card: Card, h: History, want: Byte, limit: nat)
    requires Clean(h)
    ensures Clean(Await(card, h, want, limit).wire)
    decreases limit
  {
    if limit > 0 {
      SentOne(h, 0xFF);
      SentClean(h, [0xFF]);
      if Answer(card, h, 0xFF) != want { AwaitClean(card, Sent(h, 0xFF), want, limit - 1); }
    }
  }

  lemma CommandedClean(h: History, op: Byte, arg: nat)
    requires Clean(h)
    ensures Clean(Commanded(h, op, arg))
  {
    PolledClean(h + [Select(false)], LEAD);
    SentClean(Polled(h + [Select(false)], LEAD), Command(op, arg));
  }

  lemma DeselectedClean(h: History)
    requires Clean(h)
    ensures Clean(Deselected(h))
  {
    SentOne(h + [Select(true)], 0xFF);
    SentClean(h + [Select(true)], [0xFF]);
  }

  /** No block transfer ever moves the data line together with the clock, whatever the card answers. */
  lemma ReadClean(card: Card, h: History, addr: nat)
    requires Clean(h)
    ensures Clean(ReadOutcome(card, h, addr).wire)
  {
    CommandedClean(h, 0x51, addr);
    AwaitClean(card, Commanded(h, 0x51, addr), 0x00, RESPONSE_POLLS);
    var r1 := Await(card, Commanded(h, 0x51, addr), 0x00, RESPONSE_POLLS);
    DeselectedClean(r1.wire);
    AwaitClean(card, r1.wire, 0xFE, TOKEN_POLLS);
    var token := Await(card, r1.wire, 0xFE, TOKEN_POLLS);
    DeselectedClean(token.wire);
    PolledClean(token.wire, BLOCK + 2);
    DeselectedClean(Polled(token.wire, BLOCK + 2));
  }

  lemma WriteClean(card: Card, h: History, addr: nat, data: seq<Byte>)
    requires Clean(h)
    ensures Clean(WriteOutcome(card, h, addr, data).wire)
  {
    CommandedClean(h, 0x58, addr);
    AwaitClean(card, Commanded(h, 0x58, addr), 0x00, RESPONSE_POLLS);
    var r1 := Await(card, Commanded(h, 0x58, addr), 0x00, RESPONSE_POLLS);
    DeselectedClean(r1.wire);
    var sent := SentAll(r1.wire, [0xFE] + data + [0xFF, 0xFF]);
    SentClean(r1.wire, [0xFE] + data + [0xFF, 0xFF]);
    AwaitClean(card, sent, 0xFF, BUSY_POLLS);
    DeselectedClean(Await(card, sent, 0xFF, BUSY_POLLS).wire);
  }

  // ---------------------------------------------------------------- state between operations

  /** The card is deselected and the clock is low. */
  ghost predicate AtRest(p: Port)
    reads p
  {
    p.Ready() && p.Now().cs
  }

  twostate predicate Kept(p: Port)
    reads p
  {
    p.Ready() && p.wiringopt == old(p.wiringopt) && p.Others() == old(p.Others())
  }

  /** Outside the block at `at`, and everywhere if nothing was delivered, the buffer is unchanged. */
  twostate predicate Elsewhere(data: array<Byte>, at: nat, delivered: bool)
    requires at + BLOCK <= data.Length
    reads data
  {
    if delivered then data[..at] == old(data[..at]) && data[at + BLOCK..] == old(data[at + BLOCK..])
    else data[..] == old(data[..])
  }

  lemma CommandBytes(arg: nat)
    ensures arg / 0x100 / 0x100 == arg / 0x10000 && arg / 0x100 / 0x100 / 0x100 == arg / 0x1000000
  {
    DivTwice(arg, 0x100, 0x100);
    DivTwice(arg, 0x10000, 0x100);
  }

  // ---------------------------------------------------------------- failsafe version

  method IdleSafe(p: Port, n: nat)
    requires p.Ready()
    modifies p`padat, p`pbdat, p`wire
    ensures Kept(p) && p.Now().cs == old(p.Now().cs) && p.wire == Polled(old(p.wire), n)
  {
    for i := 0 to n
      invariant Kept(p) && p.Now().cs == old(p.Now().cs) && p.wire == Polled(old(p.wire), i)
    {
      var _ := p.Io(0xFF);
    }
  }

  method SendSafe(p: Port, bytes: seq<Byte>)
    requires p.Ready()
    modifies p`padat, p`pbdat, p`wire
    ensures Kept(p) && p.Now().cs == old(p.Now().cs) && p.wire == SentAll(old(p.wire), bytes)
  {
    for i := 0 to |bytes|
      invariant Kept(p) && p.Now().cs == old(p.Now().cs) && p.wire == SentAll(old(p.wire), bytes[..i])
    {
      assert bytes[..i + 1][..i] == bytes[..i];
      var _ := p.Io(bytes[i]);
    }
    assert bytes[..|bytes|] == bytes;
  }

  method AwaitSafe(p: Port, want: Byte, limit: nat) returns (found: bool)
    requires p.Ready() && limit > 0
    modifies p`padat, p`pbdat, p`wire
    ensures Kept(p) && p.Now().cs == old(p.Now().cs)
    ensures Awaited(found, p.wire) == Await(p.Answerer(), old(p.wire), want, limit)
  {
    var i, r: Byte := 0, 0;
    found := false;
    while i < limit
      invariant i <= limit && Kept(p) && p.Now().cs == old(p.Now().cs)
      invariant Await(p.Answerer(), old(p.wire), want, limit) == Await(p.Answerer(), p.wire, want, limit - i)
      invariant i > 0 ==> r != want
    {
      ghost var h := p.wire;
      r := p.Io(0xFF);
      if r == want { break; }
      i := i + 1;
    }
    found := r == want;
  }

  method ReleaseSafe(p: Port)
    requires p.Ready() && !p.Now().cs
    modifies p`padat, p`pbdat, p`wire
    ensures Kept(p) && AtRest(p) && p.wire == Deselected(old(p.wire))
  {
    p.SelectHigh();
    var _ := p.Io(0xFF);
  }

  method BeginSafe(p: Port, op: Byte, arg: nat)
    requires AtRest(p)
    modifies p`padat, p`pbdat, p`wire
    ensures Kept(p) && !p.Now().cs && p.wire == Commanded(old(p.wire), op, arg)
  {
    p.SelectLow();
    IdleSafe(p, 4);
    SendSafe(p, [op, arg / 0x1000000 % 256, arg / 0x10000 % 256, arg / 0x100 % 256, arg % 256, 0xFF]);
  }

  method ReceiveOne(p: Port, data: array<Byte>, i: nat) returns (r: Byte)
    requires p.Ready() && i < data.Length
    modifies p`padat, p`pbdat, p`wire, data
    ensures Kept(p) && p.Now().cs == old(p.Now().cs) && p.wire == Sent(old(p.wire), 0xFF)
    ensures r == Answer(p.Answerer(), old(p.wire), 0xFF) && data[..] == old(data[..])[i := r]
  {
    r := p.Io(0xFF);
    data[i] := r;
  }

  method ReceiveSafe(p: Port, data: array<Byte>, at: nat, n: nat)
    requires p.Ready() && at + n <= data.Length
    modifies p`padat, p`pbdat, p`wire, data
    ensures Kept(p) && p.Now().cs == old(p.Now().cs) && p.wire == Polled(old(p.wire), n)
    ensures data[..] == old(data[..at]) + Received(p.Answerer(), old(p.wire), n) + old(data[at + n..])
  {
    ghost var was, h := data[..], p.wire;
    for i := 0 to n
      invariant Kept(p) && p.Now().cs == old(p.Now().cs) && p.wire == Polled(h, i)
      invariant data[..] == was[..at] + Received(p.Answerer(), h, i) + was[at + i..]
    {
      ReceiveNext(p, data, at, i, was, h);
    }
  }

  method ReceiveNext(p: Port, data: array<Byte>, at: nat, i: nat, ghost was: seq<Byte>, ghost h: History)
    requires p.Ready() && at + i < data.Length == |was| && p.wire == Polled(h, i)
    requires data[..] == was[..at] + Received(p.Answerer(), h, i) + was[at + i..]
    modifies p`padat, p`pbdat, p`wire, data
    ensures Kept(p) && p.Now().cs == old(p.Now().cs) && p.wire == Polled(h, i + 1)
    ensures data[..] == was[..at] + Received(p.Answerer(), h, i + 1) + was[at + i + 1..]
  {
    var r := ReceiveOne(p, data, at + i);
    Stored(was, at, Received(p.Answerer(), h, i), r, data[..]);
  }

  /** The data of a block, two CRC bytes nobody looks at, and the card let go. */
  method CollectSafe(p: Port, data: array<Byte>, at: nat)
    requires p.Ready() && !p.Now().cs && at + BLOCK <= data.Length
    modifies p`padat, p`pbdat, p`wire, data
    ensures Kept(p) && AtRest(p) && p.wire == Deselected(Polled(old(p.wire), BLOCK + 2))
    ensures data[at..at + BLOCK] == Received(p.Answerer(), old(p.wire), BLOCK) && Elsewhere(data, at, true)
  {
    ghost var h := p.wire;
    ReceiveSafe(p, data, at, BLOCK);
    Sliced(old(data[..]), at, Received(p.Answerer(), h, BLOCK), data[..]);
    IdleSafe(p, 2);
    PolledAdd(h, BLOCK, 2);
    ReleaseSafe(p);
  }

  method ReadBlockSafe(p: Port, data: array<Byte>, at: nat, srcAddr: nat) returns (code: nat)
    requires AtRest(p) && at + BLOCK <= data.Length
    modifies p`padat, p`pbdat, p`wire, data
    ensures Kept(p) && AtRest(p)
    ensures Outcome(p.wire, code, if code == 0 then data[at..at + BLOCK] else [])
            == ReadOutcome(p.Answerer(), old(p.wire), srcAddr)
    ensures Elsewhere(data, at, code == 0)
  {
    BeginSafe(p, 0x51, srcAddr);
    var found := AwaitSafe(p, 0x00, RESPONSE_POLLS);
    if !found { ReleaseSafe(p); return 1; }
    found := AwaitSafe(p, 0xFE, TOKEN_POLLS);
    if !found { ReleaseSafe(p); return 2; }
    CollectSafe(p, data, at);
    return 0;
  }

  method WriteBlockSafe(p: Port, destAddr: nat, data: seq<Byte>) returns (code: nat)
    requires AtRest(p) && |data| == BLOCK
    modifies p`padat, p`pbdat, p`wire
    ensures Kept(p) && AtRest(p)
    ensures Outcome(p.wire, code, []) == WriteOutcome(p.Answerer(), old(p.wire), destAddr, data)
  {
    BeginSafe(p, 0x58, destAddr);
    var found := AwaitSafe(p, 0x00, RESPONSE_POLLS);
    if !found { ReleaseSafe(p); return 1; }
    ghost var h := p.wire;
    SendSafe(p, [0xFE]);
    SendSafe(p, data);
    SendSafe(p, [0xFF, 0xFF]);
    SentThree(h, [0xFE], data, [0xFF, 0xFF]);
    found := AwaitSafe(p, 0xFF, BUSY_POLLS);
    if !found { ReleaseSafe(p); return 3; }
    ReleaseSafe(p);
    return 0;
  }

  lemma SentThree(h: History, a: seq<Byte>, b: seq<Byte>, c: seq<Byte>)
    ensures SentAll(h, a + b + c) == SentAll(SentAll(SentAll(h, a), b), c)
  {
    SentAppend(h, a + b, c);
    SentAppend(h, a, b);
  }

  // ---------------------------------------------------------------- optimised version

  method PollFast(p: Port, mmcbuf: array<Byte>)
    requires p.Ready() && mmcbuf.Length > 0
    modifies p`padat, p`pbdat, p`wire, mmcbuf
    ensures Kept(p) && p.Now().cs == old(p.Now().cs) && mmcbuf[1..] == old(mmcbuf[1..])
    ensures p.wire == Sent(old(p.wire), 0xFF) && mmcbuf[0] == Answer(p.Answerer(), old(p.wire), 0xFF)
  {
    OneReceived(p.Answerer(), p.wire);
    p.ReadMultiple(mmcbuf, 0, 1);
  }

  method AwaitFast(p: Port, mmcbuf: array<Byte>, want: Byte, limit: nat) returns (found: bool)
    requires p.Ready() && limit > 0 && mmcbuf.Length > 0
    modifies p`padat, p`pbdat, p`wire, mmcbuf
    ensures Kept(p) && p.Now().cs == old(p.Now().cs) && mmcbuf[1..] == old(mmcbuf[1..])
    ensures Awaited(found, p.wire) == Await(p.Answerer(), old(p.wire), want, limit)
  {
    var i := 0;
    while i < limit
      invariant i <= limit && Kept(p) && p.Now().cs == old(p.Now().cs) && mmcbuf[1..] == old(mmcbuf[1..])
      invariant Await(p.Answerer(), old(p.wire), want, limit) == Await(p.Answerer(), p.wire, want, limit - i)
      invariant i > 0 ==> mmcbuf[0] != want
    {
      PollFast(p, mmcbuf);
      if mmcbuf[0] == want { break; }
      i := i + 1;
    }
    found := mmcbuf[0] == want;
  }

  lemma OneReceived(card: Card, h: History)
    ensures Received(card, h, 1) == [Answer(card, h, 0xFF)] && Polled(h, 1) == Sent(h, 0xFF)
  {
    assert Received(card, h, 0) == [] && Polled(h, 0) == h;
  }

  method ReleaseFast(p: Port, mmcbuf: array<Byte>)
    requires p.Ready() && !p.Now().cs && mmcbuf.Length > 0
    modifies p`padat, p`pbdat, p`wire, mmcbuf
    ensures Kept(p) && AtRest(p) && p.wire == Deselected(old(p.wire))
  {
    p.SelectHigh();
    OneReceived(p.Answerer(), p.wire);
    p.ReadMultiple(mmcbuf, 0, 1);
  }

  /** A command and its argument in the driver's buffer, filled from the low byte up. */
  method FillCommand(mmcbuf: array<Byte>, op: Byte, arg: nat)
    requires mmcbuf.Length >= 5
    modifies mmcbuf
    ensures mmcbuf[..5] + [0xFF] == Command(op, arg) && mmcbuf[5..] == old(mmcbuf[5..])
  {
    var addr := arg;
    mmcbuf[0] := op;
    mmcbuf[4] := addr % 256;
    addr := addr / 0x100;
    mmcbuf[3] := addr % 256;
    addr := addr / 0x100;
    mmcbuf[2] := addr % 256;
    addr := addr / 0x100;
    mmcbuf[1] := addr % 256;
    CommandBytes(arg);
  }

  method BeginReadFast(p: Port, mmcbuf: array<Byte>, srcAddr: nat)
    requires AtRest(p) && mmcbuf.Length >= 5
    modifies p`padat, p`pbdat, p`wire, mmcbuf
    ensures Kept(p) && !p.Now().cs && p.wire == Commanded(old(p.wire), 0x51, srcAddr)
  {
    p.SelectLow();
    p.ReadMultiple(mmcbuf, 0, 4);
    ghost var h := p.wire;
    FillCommand(mmcbuf, 0x51, srcAddr);
    var frame := mmcbuf[..5];
    p.Write(frame);
    SentAppend(h, frame, [0xFF]);
    SentOne(p.wire, 0xFF);
    OneReceived(p.Answerer(), p.wire);
    p.ReadMultiple(mmcbuf, 0, 1);
  }

  /** The data of a block, two CRC bytes nobody looks at, and the card let go. */
  method CollectFast(p: Port, mmcbuf: array<Byte>, data: array<Byte>, at: nat)
    requires p.Ready() && !p.Now().cs && at + BLOCK <= data.Length && mmcbuf.Length >= 2 && mmcbuf != data
    modifies p`padat, p`pbdat, p`wire, data, mmcbuf
    ensures Kept(p) && AtRest(p) && p.wire == Deselected(Polled(old(p.wire), BLOCK + 2))
    ensures data[at..at + BLOCK] == Received(p.Answerer(), old(p.wire), BLOCK) && Elsewhere(data, at, true)
  {
    ghost var h := p.wire;
    p.ReadMultiple(data, at, BLOCK);
    Sliced(old(data[..]), at, Received(p.Answerer(), h, BLOCK), data[..]);
    p.ReadMultiple(mmcbuf, 0, 2);
    PolledAdd(h, BLOCK, 2);
    ReleaseFast(p, mmcbuf);
  }

  method ReadBlockFast(p: Port, data: array<Byte>, at: nat, srcAddr: nat) returns (code: nat)
    requires AtRest(p) && at + BLOCK <= data.Length
    modifies p`padat, p`pbdat, p`wire, data
    ensures Kept(p) && AtRest(p)
    ensures Outcome(p.wire, code, if code == 0 then data[at..at + BLOCK] else [])
            == ReadOutcome(p.Answerer(), old(p.wire), srcAddr)
    ensures Elsewhere(data, at, code == 0)
  {
    var mmcbuf := new Byte[5];
    BeginReadFast(p, mmcbuf, srcAddr);
    var found := AwaitFast(p, mmcbuf, 0x00, RESPONSE_POLLS);
    if !found { ReleaseFast(p, mmcbuf); return 1; }
    found := AwaitFast(p, mmcbuf, 0xFE, TOKEN_POLLS);
    if !found { ReleaseFast(p, mmcbuf); return 2; }
    CollectFast(p, mmcbuf, data, at);
    return 0;
  }

  method BeginWriteFast(p: Port, mmcbuf: array<Byte>, destAddr: nat)
    requires AtRest(p) && mmcbuf.Length >= 8
    modifies p`padat, p`pbdat, p`wire, mmcbuf
    ensures Kept(p) && !p.Now().cs && p.wire == Commanded(old(p.wire), 0x58, destAddr)
    ensures mmcbuf[5..8] == [0xFF, 0xFF, 0xFE]
  {
    p.SelectLow();
    p.ReadMultiple(mmcbuf, 0, 4);
    FillCommand(mmcbuf, 0x58, destAddr);
    ghost var frame := mmcbuf[..5];
    mmcbuf[5] := 0xFF;
    mmcbuf[6] := 0xFF;
    mmcbuf[7] := 0xFE;
    assert mmcbuf[..6] == frame + [0xFF];
    p.Write(mmcbuf[..6]);
  }

  method SendBlockFast(p: Port, mmcbuf: array<Byte>, data: seq<Byte>)
    requires p.Ready() && mmcbuf.Length == 8 && mmcbuf[5..8] == [0xFF, 0xFF, 0xFE]
    modifies p`padat, p`pbdat, p`wire
    ensures Kept(p) && p.Now().cs == old(p.Now().cs)
    ensures p.wire == SentAll(old(p.wire), [0xFE] + data + [0xFF, 0xFF])
  {
    ghost var h := p.wire;
    assert mmcbuf[5..7] == mmcbuf[5..8][..2] == [0xFF, 0xFF] && mmcbuf[7..8] == mmcbuf[5..8][2..] == [0xFE];
    p.Write(mmcbuf[7..8]);
    p.Write(data);
    p.Write(mmcbuf[5..7]);
    SentThree(h, [0xFE], data, [0xFF, 0xFF]);
  }

  method WriteBlockFast(p: Port, destAddr: nat, data: seq<Byte>) returns (code: nat)
    requires AtRest(p) && |data| == BLOCK
    modifies p`padat, p`pbdat, p`wire
    ensures Kept(p) && AtRest(p)
    ensures Outcome(p.wire, code, []) == WriteOutcome(p.Answerer(), old(p.wire), destAddr, data)
  {
    var mmcbuf := new Byte[8];
    BeginWriteFast(p, mmcbuf, destAddr);
    ghost var tail := mmcbuf[1..];
    assert tail[4..7] == mmcbuf[5..8];
    var found := AwaitFast(p, mmcbuf, 0x00, RESPONSE_POLLS);
    if !found { ReleaseFast(p, mmcbuf); return 1; }
    assert mmcbuf[5..8] == tail[4..7];
    SendBlockFast(p, mmcbuf, data);
    found := AwaitFast(p, mmcbuf, 0xFF, BUSY_POLLS);
    if !found { ReleaseFast(p, mmcbuf); return 3; }
    ReleaseFast(p, mmcbuf);
    return 0;
  }
}
