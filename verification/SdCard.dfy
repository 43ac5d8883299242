/** A memory card in SPI mode (SD Physical Layer Simplified Specification, section 7.2), clocked bit by bit, with
    arbitrary delays, refusals and read errors. It accepts every data block it has asked for. */
module SdCard {
  import opened Common
  import opened SpiWire
  import opened MmcBlocks

  type Block = b: seq<Byte> | |b| == BLOCK witness seq(BLOCK, _ => 0)
  type Disk = seq<Block>

  /** What the n-th command meets: the delay before its response, a complaint (0 for none), the delay before and the
      token of its data, and how long its block keeps the card busy. */
  datatype Temper = Temper(ncr: nat -> nat, complaint: nat -> Byte, nac: nat -> nat, token: nat -> Byte,
                           busy: nat -> nat)

  datatype Phase =
    | Listening(frame: seq<Byte>)
    | Answering(wait: nat, r1: Byte, next: Phase)
    | Fetching(wait: nat, out: seq<Byte>)
    | Expecting(block: nat)
    | Storing(block: nat, got: seq<Byte>)
    | Busy(left: nat)

  datatype State = State(phase: Phase, disk: Disk, count: nat)

  const IDLE := Listening([])

  /** The byte shifted out while the next byte comes in. */
  function Out(s: State): Byte {
    match s.phase
    case Answering(wait, r1, _) => if wait > 0 then 0xFF else r1
    case Fetching(wait, out) => if wait > 0 || out == [] then 0xFF else out[0]
    case Busy(left) => if left > 0 then 0x00 else 0xFF
    case _ => 0xFF
  }

  function Argument(frame: seq<Byte>): nat
    requires |frame| == 6
  {
    var a: nat, b: nat, c: nat, d: nat := frame[1], frame[2], frame[3], frame[4];
    ((a * 256 + b) * 256 + c) * 256 + d
  }

  /** The response to command `count`: zero exactly if it is accepted. */
  function Response(t: Temper, s: State, arg: nat): Byte {
    if t.complaint(s.count) != 0 then t.complaint(s.count)
    else if arg % BLOCK != 0 then 0x20
    else if arg / BLOCK >= |s.disk| then 0x40 else 0x00
  }

  /** A token other than 0xFE reports a read error and no data follow. */
  function Fetched(token: Byte, data: Block): seq<Byte> {
    if token == 0xFE then [0xFE] + data + [0x12, 0x34] else [token]
  }

  function Execute(t: Temper, s: State, frame: seq<Byte>): State
    requires |frame| == 6
  {
    var arg := Argument(frame);
    var r1 := if frame[0] == 0x51 || frame[0] == 0x58 then Response(t, s, arg) else 0x04;
    var next :=
      if r1 != 0 then IDLE
      else if frame[0] == 0x51 then Fetching(t.nac(s.count), Fetched(t.token(s.count), s.disk[arg / BLOCK]))
      else Expecting(arg / BLOCK);
    s.(phase := Answering(t.ncr(s.count), r1, next), count := s.count + 1)
  }

  function Step(t: Temper, s: State, b: Byte): State {
    match s.phase
    case Listening(frame) =>
      if frame == [] && b / 64 != 1 then s
      else if |frame| == 5 then Execute(t, s, frame + [b])
      else s.(phase := Listening(if |frame| < 5 then frame + [b] else []))
    case Answering(wait, r1, next) => s.(phase := if wait > 0 then Answering(wait - 1, r1, next) else next)
    case Fetching(wait, out) =>
      s.(phase := if wait > 0 then Fetching(wait - 1, out) else if |out| > 1 then Fetching(0, out[1..]) else IDLE)
    case Expecting(block) => if b == 0xFE then s.(phase := Storing(block, [])) else s
    case Storing(block, got) =>
      if |got| + 1 < BLOCK + 2 then s.(phase := Storing(block, got + [b]))
      else if |got| + 1 == BLOCK + 2 && block < |s.disk| then
        State(Answering(0, 0x05, Busy(t.busy(s.count))), s.disk[block := (got + [b])[..BLOCK]], s.count)
      else s.(phase := IDLE)
    case Busy(left) => s.(phase := if left > 0 then Busy(left - 1) else IDLE)
  }

  // ---------------------------------------------------------------- cards that act as the byte machine does

  /** When a history leaves the card selected between two bytes, or let go, in a given state. */
  datatype View = View(at: (History, State) -> bool, rest: (History, State) -> bool)

  function AfterRelease(s: State): State { if s.phase.Busy? then s else s.(phase := IDLE) }

  /** Whole bytes act as `Step` and `Out` say, and selecting and letting go as they should. */
  ghost predicate Tracks(t: Temper, card: Card, v: View) {
    && (forall h, s, b: Byte {:trigger v.at(h, s), Sent(h, b)} ::
          v.at(h, s) ==> v.at(Sent(h, b), Step(t, s, b)) && Answer(card, h, b) == Out(s))
    && (forall h, s {:trigger v.at(h + [Select(false)], s)} :: v.rest(h, s) ==> v.at(h + [Select(false)], s))
    && (forall h, s {:trigger v.rest(Deselected(h), AfterRelease(s))} ::
          v.at(h, s) ==> v.rest(Deselected(h), AfterRelease(s)))
  }

  lemma ByteIn(t: Temper, card: Card, v: View, h: History, s: State, b: Byte)
    requires Tracks(t, card, v) && v.at(h, s)
    ensures v.at(Sent(h, b), Step(t, s, b)) && Answer(card, h, b) == Out(s)
  {
  }

  // ---------------------------------------------------------------- runs of bytes

  function Steps(t: Temper, s: State, bytes: seq<Byte>): State
    decreases |bytes|
  {
    if bytes == [] then s else Step(t, Steps(t, s, bytes[..|bytes| - 1]), bytes[|bytes| - 1])
  }

  function Idled(t: Temper, s: State, n: nat): State {
    if n == 0 then s else Step(t, Idled(t, s, n - 1), 0xFF)
  }

  lemma {:induction false} BytesIn(t: Temper, card: Card, v: View, h: History, s: State, bytes: seq<Byte>)
    requires Tracks(t, card, v) && v.at(h, s)
    ensures v.at(SentAll(h, bytes), Steps(t, s, bytes))
    decreases |bytes|
  {
    if bytes != [] {
      var front := bytes[..|bytes| - 1];
      BytesIn(t, card, v, h, s, front);
      ByteIn(t, card, v, SentAll(h, front), Steps(t, s, front), bytes[|bytes| - 1]);
    }
  }

  lemma {:induction false} PollsIn(t: Temper, card: Card, v: View, h: History, s: State, n: nat)
    requires Tracks(t, card, v) && v.at(h, s)
    ensures v.at(Polled(h, n), Idled(t, s, n))
  {
    if n > 0 {
      PollsIn(t, card, v, h, s, n - 1);
      ByteIn(t, card, v, Polled(h, n - 1), Idled(t, s, n - 1), 0xFF);
    }
  }

  datatype Heard = Heard(found: bool, s: State)

  /** `Await` as the byte machine sees it. */
  function Listen(t: Temper, s: State, want: Byte, limit: nat): Heard
    decreases limit, s
  {
    if limit == 0 then Heard(false, s)
    else if Out(s) == want then Heard(true, Step(t, s, 0xFF))
    else Listen(t, Step(t, s, 0xFF), want, limit - 1)
  }

  lemma {:induction false} AwaitIn(t: Temper, card: Card, v: View, h: History, s: State, want: Byte, limit: nat)
    requires Tracks(t, card, v) && v.at(h, s)
    ensures var a, l := Await(card, h, want, limit), Listen(t, s, want, limit);
      a.found == l.found && v.at(a.wire, l.s)
    decreases limit
  {
    if limit > 0 {
      ByteIn(t, card, v, h, s, 0xFF);
      if Out(s) != want { AwaitIn(t, card, v, Sent(h, 0xFF), Step(t, s, 0xFF), want, limit - 1); }
    }
  }

  // ---------------------------------------------------------------- phases that idle bytes lead through

  /** Idle bytes cannot store anything from here. */
  predicate Harmless(p: Phase) {
    match p
    case Listening(frame) => frame == []
    case Answering(_, _, next) => Harmless(next)
    case Fetching(_, _) => true
    case Expecting(_) => true
    case _ => false
  }

  lemma {:induction false} ListenHarmless(t: Temper, s: State, want: Byte, limit: nat)
    requires Harmless(s.phase)
    ensures var l := Listen(t, s, want, limit); l.s.disk == s.disk && l.s.count == s.count && Harmless(l.s.phase)
    decreases limit
  {
    if limit > 0 { ListenHarmless(t, Step(t, s, 0xFF), want, limit - 1); }
  }

  lemma {:induction false} ListenIdle(t: Temper, s: State, want: Byte, limit: nat)
    requires s.phase == IDLE && want != 0xFF
    ensures !Listen(t, s, want, limit).found
    decreases limit
  {
    if limit > 0 { ListenIdle(t, s, want, limit - 1); }
  }

  /** The response arrives within the limit, or is not the one wanted. */
  lemma {:induction false} ListenAnswer(t: Temper, s: State, limit: nat)
    requires s.phase.Answering? && (s.phase.r1 == 0 || s.phase.next == IDLE)
    ensures var l := Listen(t, s, 0x00, limit);
      && l.found == (s.phase.r1 == 0 && s.phase.wait < limit)
      && (l.found ==> l.s == s.(phase := s.phase.next))
    decreases limit
  {
    if limit > 0 && Out(s) != 0x00 {
      if s.phase.wait > 0 {
        ListenAnswer(t, Step(t, s, 0xFF), limit - 1);
      } else {
        ListenIdle(t, Step(t, s, 0xFF), 0x00, limit - 1);
      }
    }
  }

  lemma {:induction false} ListenToken(t: Temper, s: State, limit: nat)
    requires s.phase.Fetching? && s.phase.out != [] && (s.phase.out[0] == 0xFE ==> |s.phase.out| > 1)
    requires s.phase.out[0] != 0xFE ==> |s.phase.out| == 1
    ensures var l := Listen(t, s, 0xFE, limit);
      && l.found == (s.phase.out[0] == 0xFE && s.phase.wait < limit)
      && (l.found ==> l.s == s.(phase := Fetching(0, s.phase.out[1..])))
    decreases limit
  {
    if limit > 0 && Out(s) != 0xFE {
      if s.phase.wait > 0 {
        ListenToken(t, Step(t, s, 0xFF), limit - 1);
      } else {
        ListenIdle(t, Step(t, s, 0xFF), 0xFE, limit - 1);
      }
    }
  }

  lemma {:induction false} ListenBusy(t: Temper, s: State, limit: nat)
    requires s.phase.Busy?
    ensures var l := Listen(t, s, 0xFF, limit);
      && l.found == (s.phase.left < limit)
      && l.s == s.(phase := if l.found then IDLE else Busy(s.phase.left - limit))
    decreases limit
  {
    if limit > 0 && s.phase.left > 0 { ListenBusy(t, Step(t, s, 0xFF), limit - 1); }
  }

  /** What is received is what the byte machine puts out at each step. */
  lemma {:induction false} ReceivedIn(t: Temper, card: Card, v: View, h: History, s: State, n: nat, k: nat)
    requires Tracks(t, card, v) && v.at(h, s) && k < n
    ensures Received(card, h, n)[k] == Out(Idled(t, s, k))
  {
    if k == n - 1 {
      PollsIn(t, card, v, h, s, k);
      ByteIn(t, card, v, Polled(h, k), Idled(t, s, k), 0xFF);
    } else {
      ReceivedIn(t, card, v, h, s, n - 1, k);
    }
  }

  lemma {:induction false} FetchSteps(t: Temper, s: State, n: nat)
    requires s.phase.Fetching? && s.phase.wait == 0 && n <= |s.phase.out| && s.phase.out != []
    ensures Idled(t, s, n) == s.(phase := if n == |s.phase.out| then IDLE else Fetching(0, s.phase.out[n..]))
  {
    if n > 0 {
      FetchSteps(t, s, n - 1);
      assert n < |s.phase.out| ==> s.phase.out[n - 1..][1..] == s.phase.out[n..];
    }
  }

  /** Data come out in order. */
  lemma FetchIn(t: Temper, card: Card, v: View, h: History, s: State, n: nat)
    requires Tracks(t, card, v) && v.at(h, s)
    requires s.phase.Fetching? && s.phase.wait == 0 && n <= |s.phase.out| && s.phase.out != []
    ensures Received(card, h, n) == s.phase.out[..n]
    ensures n == |s.phase.out| ==> v.at(Polled(h, n), s.(phase := IDLE))
  {
    forall k: nat | k < n ensures Received(card, h, n)[k] == s.phase.out[k] {
      ReceivedIn(t, card, v, h, s, n, k);
      FetchSteps(t, s, k);
    }
    PollsIn(t, card, v, h, s, n);
    FetchSteps(t, s, n);
  }

  /** A block comes in, is stored, and the card turns busy. */
  lemma {:induction false} StoreIn(t: Temper, s: State, block: nat, bytes: seq<Byte>)
    requires s.phase == Storing(block, []) && block < |s.disk| && |bytes| <= BLOCK + 2
    ensures |bytes| < BLOCK + 2 ==> Steps(t, s, bytes) == s.(phase := Storing(block, bytes))
    ensures |bytes| == BLOCK + 2 ==>
      Steps(t, s, bytes) == State(Answering(0, 0x05, Busy(t.busy(s.count))), s.disk[block := bytes[..BLOCK]], s.count)
    decreases |bytes|
  {
    if bytes != [] {
      var front := bytes[..|bytes| - 1];
      StoreIn(t, s, block, front);
      assert front + [bytes[|bytes| - 1]] == bytes;
    }
  }

  // ---------------------------------------------------------------- the driver's block operations on the byte machine

  /** What selecting the card, the idle bytes and a command lead to. */
  function Responded(t: Temper, s: State, op: Byte, addr: nat): Heard {
    Listen(t, Steps(t, Idled(t, s, LEAD), Command(op, addr)), 0x00, RESPONSE_POLLS)
  }

  datatype Done = Done(code: nat, s: State)

  /** `WriteOutcome` as the byte machine sees it, from any state. */
  function MachineWrite(t: Temper, s: State, addr: nat, data: seq<Byte>): Done {
    var r1 := Responded(t, s, 0x58, addr);
    if !r1.found then Done(1, AfterRelease(r1.s)) else
    var busy := Listen(t, Steps(t, r1.s, [0xFE] + data + [0xFF, 0xFF]), 0xFF, BUSY_POLLS);
    Done(if busy.found then 0 else 3, AfterRelease(busy.s))
  }

  function MachineRead(t: Temper, s: State, addr: nat): Done {
    var r1 := Responded(t, s, 0x51, addr);
    if !r1.found then Done(1, AfterRelease(r1.s)) else
    var token := Listen(t, r1.s, 0xFE, TOKEN_POLLS);
    if !token.found then Done(2, AfterRelease(token.s)) else
    Done(0, AfterRelease(Idled(t, token.s, BLOCK + 2)))
  }

  lemma CommandHeard(t: Temper, card: Card, v: View, h: History, s: State, op: Byte, addr: nat)
    requires Tracks(t, card, v) && v.rest(h, s)
    ensures var r1, l := Await(card, Commanded(h, op, addr), 0x00, RESPONSE_POLLS), Responded(t, s, op, addr);
      r1.found == l.found && v.at(r1.wire, l.s)
  {
    var h1, s1 := Polled(h + [Select(false)], LEAD), Idled(t, s, LEAD);
    PollsIn(t, card, v, h + [Select(false)], s, LEAD);
    BytesIn(t, card, v, h1, s1, Command(op, addr));
    AwaitIn(t, card, v, SentAll(h1, Command(op, addr)), Steps(t, s1, Command(op, addr)), 0x00, RESPONSE_POLLS);
  }

  /** A block write on the wire is the one of the byte machine, whatever state the card rests in. */
  lemma WriteIs(t: Temper, card: Card, v: View, h: History, s: State, addr: nat, data: seq<Byte>)
    requires Tracks(t, card, v) && v.rest(h, s)
    ensures var r, w := WriteOutcome(card, h, addr, data), MachineWrite(t, s, addr, data);
      r.code == w.code && v.rest(r.wire, w.s)
  {
    CommandHeard(t, card, v, h, s, 0x58, addr);
    var r1, l := Await(card, Commanded(h, 0x58, addr), 0x00, RESPONSE_POLLS), Responded(t, s, 0x58, addr);
    if r1.found {
      var block := [0xFE] + data + [0xFF, 0xFF];
      BytesIn(t, card, v, r1.wire, l.s, block);
      AwaitIn(t, card, v, SentAll(r1.wire, block), Steps(t, l.s, block), 0xFF, BUSY_POLLS);
    }
  }

  lemma ReadIs(t: Temper, card: Card, v: View, h: History, s: State, addr: nat)
    requires Tracks(t, card, v) && v.rest(h, s)
    ensures var r, w := ReadOutcome(card, h, addr), MachineRead(t, s, addr); r.code == w.code && v.rest(r.wire, w.s)
  {
    CommandHeard(t, card, v, h, s, 0x51, addr);
    var r1, l := Await(card, Commanded(h, 0x51, addr), 0x00, RESPONSE_POLLS), Responded(t, s, 0x51, addr);
    if r1.found {
      AwaitIn(t, card, v, r1.wire, l.s, 0xFE, TOKEN_POLLS);
      var token := Await(card, r1.wire, 0xFE, TOKEN_POLLS);
      if token.found { PollsIn(t, card, v, token.wire, Listen(t, l.s, 0xFE, TOKEN_POLLS).s, BLOCK + 2); }
    }
  }

  // ---------------------------------------------------------------- commands

  lemma ArgumentOf(op: Byte, arg: nat)
    requires arg < WORD
    ensures Argument(Command(op, arg)) == arg
  {
    CommandBytes(arg);
    var a := arg / 0x100;
    var b := a / 0x100;
    var c := b / 0x100;
    assert arg == a * 0x100 + arg % 0x100 && a == b * 0x100 + a % 0x100 && b == c * 0x100 + b % 0x100;
  }

  /** A card that has been let go. */
  predicate Quiet(s: State) { s.phase == IDLE || s.phase.Busy? }

  /** The card is idle, or has finished with its last block before the idle bytes ahead of a command are over. */
  predicate Awake(s: State) { s.phase == IDLE || (s.phase.Busy? && s.phase.left < LEAD) }

  function Woken(s: State): State { s.(phase := IDLE) }

  lemma {:induction false} Wakes(t: Temper, s: State, n: nat)
    requires Quiet(s)
    ensures Idled(t, s, n) ==
      if s.phase.Busy? && n <= s.phase.left then s.(phase := Busy(s.phase.left - n)) else Woken(s)
  {
    if n > 0 { Wakes(t, s, n - 1); }
  }

  lemma FrameIn(t: Temper, s: State, f: seq<Byte>)
    requires s.phase == IDLE && |f| == 6 && f[0] / 64 == 1
    ensures Steps(t, s, f) == Execute(t, s, f)
  {
    FrameStep(t, s, f, 5);
    assert f[..5] + [f[5]] == f;
  }

  lemma {:induction false} FrameStep(t: Temper, s: State, f: seq<Byte>, k: nat)
    requires s.phase == IDLE && |f| == 6 && f[0] / 64 == 1 && k <= 5
    ensures Steps(t, s, f[..k]) == s.(phase := Listening(f[..k]))
  {
    if k > 0 {
      FrameStep(t, s, f, k - 1);
      assert f[..k][..k - 1] == f[..k - 1] && f[..k] == f[..k - 1] + [f[k - 1]];
    }
  }

  /** The frame sent is the command the card executes, with the address given. */
  lemma CommandIn(t: Temper, s: State, op: Byte, addr: nat)
    requires Awake(s) && addr < WORD && (op == 0x51 || op == 0x58)
    ensures var c, r1 := Steps(t, Idled(t, s, LEAD), Command(op, addr)), Response(t, s, addr);
      && c.disk == s.disk && c.count == s.count + 1
      && (r1 == 0 ==> addr / BLOCK < |s.disk| && c.phase == Answering(t.ncr(s.count), 0, Next(t, s, op, addr)))
      && (r1 != 0 ==> c.phase == Answering(t.ncr(s.count), r1, IDLE))
  {
    Wakes(t, s, LEAD);
    FrameIn(t, Woken(s), Command(op, addr));
    ArgumentOf(op, addr);
  }

  /** What an accepted command makes the card do. */
  function Next(t: Temper, s: State, op: Byte, addr: nat): Phase
    requires addr / BLOCK < |s.disk|
  {
    if op == 0x51 then Fetching(t.nac(s.count), Fetched(t.token(s.count), s.disk[addr / BLOCK]))
    else Expecting(addr / BLOCK)
  }

  predicate Accepts(t: Temper, s: State, addr: nat) {
    Response(t, s, addr) == 0 && t.ncr(s.count) < RESPONSE_POLLS
  }

  /** The command either is accepted in time, or the card is let go unchanged. */
  lemma ResponseStage(t: Temper, s: State, op: Byte, addr: nat)
    requires Awake(s) && addr < WORD && (op == 0x51 || op == 0x58)
    ensures var r1 := Responded(t, s, op, addr);
      && r1.found == Accepts(t, s, addr)
      && (r1.found ==> addr / BLOCK < |s.disk| && r1.s == State(Next(t, s, op, addr), s.disk, s.count + 1))
      && (!r1.found ==> AfterRelease(r1.s) == State(IDLE, s.disk, s.count + 1))
  {
    CommandIn(t, s, op, addr);
    var c := Steps(t, Idled(t, s, LEAD), Command(op, addr));
    ListenAnswer(t, c, RESPONSE_POLLS);
    ListenHarmless(t, c, 0x00, RESPONSE_POLLS);
  }

  // ---------------------------------------------------------------- what the block operations do to the disk

  lemma Released(t: Temper, card: Card, v: View, h: History, s: State)
    requires Tracks(t, card, v) && v.at(h, s) && !s.phase.Busy?
    ensures v.rest(Deselected(h), State(IDLE, s.disk, s.count))
  {
    assert AfterRelease(s) == State(IDLE, s.disk, s.count);
  }

  /** The data arrive in time, or the card is let go unchanged. */
  lemma DataStage(t: Temper, card: Card, v: View, h: History, s: State, wait: nat, tok: Byte, data: Block)
    requires Tracks(t, card, v) && v.at(h, s) && s.phase == Fetching(wait, Fetched(tok, data))
    ensures var token := Await(card, h, 0xFE, TOKEN_POLLS);
      && token.found == (tok == 0xFE && wait < TOKEN_POLLS)
      && (token.found ==> Received(card, token.wire, BLOCK) == data
                          && v.rest(Deselected(Polled(token.wire, BLOCK + 2)), State(IDLE, s.disk, s.count)))
      && (!token.found ==> v.rest(Deselected(token.wire), State(IDLE, s.disk, s.count)))
  {
    AwaitIn(t, card, v, h, s, 0xFE, TOKEN_POLLS);
    ListenToken(t, s, TOKEN_POLLS);
    ListenHarmless(t, s, 0xFE, TOKEN_POLLS);
    var token := Await(card, h, 0xFE, TOKEN_POLLS);
    if !token.found {
      Released(t, card, v, token.wire, Listen(t, s, 0xFE, TOKEN_POLLS).s);
    } else {
      var out := data + [0x12, 0x34];
      assert s.phase.out[1..] == out;
      var s1 := s.(phase := Fetching(0, out));
      FetchIn(t, card, v, token.wire, s1, BLOCK + 2);
      FetchIn(t, card, v, token.wire, s1, BLOCK);
      assert out[..BLOCK] == data;
      Released(t, card, v, Polled(token.wire, BLOCK + 2), s1.(phase := IDLE));
    }
  }

  /** A successful read delivers the addressed block, and no read changes the disk. */
  lemma ReadServes(t: Temper, card: Card, v: View, h: History, s: State, addr: nat)
    requires Tracks(t, card, v) && v.rest(h, s) && Awake(s) && addr < WORD
    ensures var r := ReadOutcome(card, h, addr);
      && v.rest(r.wire, State(IDLE, s.disk, s.count + 1))
      && (r.code == 0 <==> Accepts(t, s, addr) && t.token(s.count) == 0xFE && t.nac(s.count) < TOKEN_POLLS)
      && (r.code == 1 <==> !Accepts(t, s, addr))
      && (r.code == 0 ==> addr % BLOCK == 0 && addr / BLOCK < |s.disk| && r.data == s.disk[addr / BLOCK])
  {
    ResponseStage(t, s, 0x51, addr);
    CommandHeard(t, card, v, h, s, 0x51, addr);
    var r1, l := Await(card, Commanded(h, 0x51, addr), 0x00, RESPONSE_POLLS), Responded(t, s, 0x51, addr);
    if r1.found {
      DataStage(t, card, v, r1.wire, l.s, t.nac(s.count), t.token(s.count), s.disk[addr / BLOCK]);
    } else {
      assert v.rest(Deselected(r1.wire), AfterRelease(l.s));
    }
  }

  /** How a card is left that was still busy with the block of command `count` when the driver gave up. */
  function LeftBusy(t: Temper, count: nat): Phase {
    if t.busy(count) < BUSY_POLLS - 1 then IDLE else Busy(t.busy(count) - (BUSY_POLLS - 1))
  }

  lemma BusyStage(t: Temper, disk: Disk, count: nat)
    ensures var busy := Listen(t, State(Answering(0, 0x05, Busy(t.busy(count))), disk, count), 0xFF, BUSY_POLLS);
      && busy.found == (t.busy(count) < BUSY_POLLS - 1)
      && AfterRelease(busy.s) == State(LeftBusy(t, count), disk, count)
  {
    var s := State(Answering(0, 0x05, Busy(t.busy(count))), disk, count);
    var s1 := s.(phase := Busy(t.busy(count)));
    assert Step(t, s, 0xFF) == s1 && Out(s) != 0xFF;
    ListenBusy(t, s1, BUSY_POLLS - 1);
  }

  lemma BlockIn(t: Temper, s: State, block: nat, data: Block)
    requires s.phase == Expecting(block) && block < |s.disk|
    ensures Steps(t, s, [0xFE] + data + [0xFF, 0xFF])
         == State(Answering(0, 0x05, Busy(t.busy(s.count))), s.disk[block := data], s.count)
  {
    var tail := data + [0xFF, 0xFF];
    StepsAppend(t, s, [0xFE], tail);
    assert [0xFE][..0] == [];
    assert Steps(t, s, [0xFE]) == s.(phase := Storing(block, []));
    StoreIn(t, s.(phase := Storing(block, [])), block, tail);
    assert tail[..BLOCK] == data && [0xFE] + data + [0xFF, 0xFF] == [0xFE] + tail;
  }

  lemma {:induction false} StepsAppend(t: Temper, s: State, a: seq<Byte>, b: seq<Byte>)
    ensures Steps(t, s, a + b) == Steps(t, Steps(t, s, a), b)
    decreases |b|
  {
    if b == [] {
      assert a + b == a;
    } else {
      StepsAppend(t, s, a, b[..|b| - 1]);
      assert (a + b)[..|a + b| - 1] == a + b[..|b| - 1];
    }
  }

  /** What a write comes to that the card hears. */
  predicate Serves(t: Temper, s: State, addr: nat, data: Block, w: Done) {
    && w.code == (if !Accepts(t, s, addr) then 1 else if t.busy(s.count + 1) < BUSY_POLLS - 1 then 0 else 3)
    && (w.code == 1 ==> w.s == State(IDLE, s.disk, s.count + 1))
    && (w.code != 1 ==> addr % BLOCK == 0 && addr / BLOCK < |s.disk|)
    && (w.code != 1 ==> w.s == State(LeftBusy(t, s.count + 1), s.disk[addr / BLOCK := data], s.count + 1))
  }

  lemma MachineServes(t: Temper, s: State, addr: nat, data: Block)
    requires Awake(s) && addr < WORD
    ensures Serves(t, s, addr, data, MachineWrite(t, s, addr, data))
  {
    ResponseStage(t, s, 0x58, addr);
    var r1 := Responded(t, s, 0x58, addr);
    if r1.found {
      BlockIn(t, r1.s, addr / BLOCK, data);
      BusyStage(t, s.disk[addr / BLOCK := data], s.count + 1);
    }
  }

  /** A write is stored exactly if the command was accepted, also when the driver gives up waiting (code 3) and leaves
      the card busy. */
  lemma WriteServes(t: Temper, card: Card, v: View, h: History, s: State, addr: nat, data: Block)
    requires Tracks(t, card, v) && v.rest(h, s) && Awake(s) && addr < WORD
    ensures var r := WriteOutcome(card, h, addr, data);
      && r.code == (if !Accepts(t, s, addr) then 1 else if t.busy(s.count + 1) < BUSY_POLLS - 1 then 0 else 3)
      && (r.code == 1 ==> v.rest(r.wire, State(IDLE, s.disk, s.count + 1)))
      && (r.code != 1 ==> addr % BLOCK == 0 && addr / BLOCK < |s.disk|)
      && (r.code != 1 ==>
            v.rest(r.wire, State(LeftBusy(t, s.count + 1), s.disk[addr / BLOCK := data], s.count + 1)))
  {
    WriteIs(t, card, v, h, s, addr, data);
    MachineServes(t, s, addr, data);
  }

  // ---------------------------------------------------------------- the same card, bit by bit

  datatype Chip = Chip(s: State, selected: bool, bits: seq<bool>, line: bool)

  function Clocked(t: Temper, c: Chip, e: Edge): Chip {
    match e
    case Select(high) => // letting the card go ends everything except programming
      Chip(if high && !c.s.phase.Busy? then c.s.(phase := IDLE) else c.s, !high, [], true)
    case Race => c
    case Rise(di) =>
      if !c.selected then c.(line := true)
      else if |c.bits| < 7 then c.(bits := c.bits + [di], line := Bit(Out(c.s), |c.bits|))
      else if |c.bits| == 7 then Chip(Step(t, c.s, Pack(c.bits + [di])), true, [], Bit(Out(c.s), 7))
      else c
  }

  function Seen(t: Temper, init: State, h: History): Chip
    decreases |h|
  {
    if h == [] then Chip(init, false, [], true) else Clocked(t, Seen(t, init, h[..|h| - 1]), h[|h| - 1])
  }

  function CardOf(t: Temper, init: State): Card {
    h => Seen(t, init, h).line
  }

  lemma SeenNext(t: Temper, init: State, h: History, e: Edge)
    ensures Seen(t, init, h + [e]) == Clocked(t, Seen(t, init, h), e)
  {
    assert (h + [e])[..|h|] == h;
  }

  /** The card is selected, between two bytes, in state s. */
  ghost predicate At(t: Temper, init: State, h: History, s: State) {
    var c := Seen(t, init, h);
    c.selected && c.bits == [] && c.s == s
  }

  /** The card is not selected and idle. */
  ghost predicate Resting(t: Temper, init: State, h: History, s: State) {
    var c := Seen(t, init, h);
    !c.selected && c.s == s
  }

  lemma {:induction false} BitsIn(t: Temper, init: State, h: History, s: State, b: Byte, k: nat)
    requires At(t, init, h, s) && k <= 8
    ensures var c := Seen(t, init, h + Rises(b)[..k]);
      && (k < 8 ==> c.s == s && c.selected && c.bits == Bits(b)[..k])
      && (k == 8 ==> At(t, init, h + Rises(b)[..k], Step(t, s, b)))
      && (k > 0 ==> c.line == Bit(Out(s), k - 1))
  {
    if k == 0 {
      assert h + Rises(b)[..0] == h;
    } else {
      BitsIn(t, init, h, s, b, k - 1);
      NextRise(h, b, k - 1);
      SeenNext(t, init, h + Rises(b)[..k - 1], Rise(Bit(b, k - 1)));
      NextBit(b, k);
    }
  }

  lemma NextBit(b: Byte, k: nat)
    requires 0 < k <= 8
    ensures Bits(b)[..k - 1] + [Bit(b, k - 1)] == Bits(b)[..k]
    ensures k == 8 ==> Pack(Bits(b)[..7] + [Bit(b, 7)]) == b
  {
    assert Bits(b)[..8] == Bits(b);
    PackOfBits(b);
  }

  /** Eight clock edges are one step of the byte machine, and bring out its output byte. */
  lemma ChipByte(t: Temper, init: State, h: History, s: State, b: Byte)
    requires At(t, init, h, s)
    ensures At(t, init, Sent(h, b), Step(t, s, b)) && Answer(CardOf(t, init), h, b) == Out(s)
  {
    BitsIn(t, init, h, s, b, 8);
    assert Rises(b)[..8] == Rises(b);
    var samples := Sampled(CardOf(t, init), h, b);
    forall k: nat | k < 8 ensures samples[k] == Bit(Out(s), k) {
      BitsIn(t, init, h, s, b, k + 1);
    }
    assert samples == Bits(Out(s));
    PackOfBits(Out(s));
  }

  /** A deselected card ignores the clock. */
  lemma {:induction false} Ignored(t: Temper, init: State, h: History, s: State, b: Byte, k: nat)
    requires Resting(t, init, h, s) && k <= 8
    ensures Resting(t, init, h + Rises(b)[..k], s)
  {
    if k == 0 {
      assert h + Rises(b)[..0] == h;
    } else {
      Ignored(t, init, h, s, b, k - 1);
      NextRise(h, b, k - 1);
      SeenNext(t, init, h + Rises(b)[..k - 1], Rise(Bit(b, k - 1)));
    }
  }

  lemma ChipLetGo(t: Temper, init: State, h: History, s: State)
    requires At(t, init, h, s)
    ensures Resting(t, init, Deselected(h), AfterRelease(s))
  {
    SeenNext(t, init, h, Select(true));
    Ignored(t, init, h + [Select(true)], Seen(t, init, h + [Select(true)]).s, 0xFF, 8);
    assert Rises(0xFF)[..8] == Rises(0xFF);
  }

  function ChipView(t: Temper, init: State): View {
    View((h, s) => Seen(t, init, h).selected && Seen(t, init, h).bits == [] && Seen(t, init, h).s == s,
         (h, s) => !Seen(t, init, h).selected && Seen(t, init, h).s == s)
  }

  /** The bit-by-bit card is one of them. */
  lemma ChipTracks(t: Temper, init: State)
    ensures Tracks(t, CardOf(t, init), ChipView(t, init)) && ChipView(t, init).rest([], init)
  {
    var v := ChipView(t, init);
    forall h, s, b: Byte | v.at(h, s)
      ensures v.at(Sent(h, b), Step(t, s, b)) && Answer(CardOf(t, init), h, b) == Out(s)
    {
      ChipByte(t, init, h, s, b);
    }
    forall h, s | v.rest(h, s) ensures v.at(h + [Select(false)], s) { SeenNext(t, init, h, Select(false)); }
    forall h, s | v.at(h, s) ensures v.rest(Deselected(h), AfterRelease(s)) { ChipLetGo(t, init, h, s); }
  }
}
