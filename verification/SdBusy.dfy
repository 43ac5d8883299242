/** What a card that is still busy with an earlier block makes of the next command: while it is busy it is deaf, and its
    busy line reads as the answer that accepts a command. */
module SdBusy {
  import opened Common
  import opened SpiWire
  import opened MmcBlocks
  import opened SdCard

  // ---------------------------------------------------------------- bytes to a busy card

  /** A busy card after n more bytes. */
  function Remaining(left: nat, n: nat): Phase { if n <= left then Busy(left - n) else IDLE }

  lemma {:induction false} BusySteps(t: Temper, s: State, bytes: seq<Byte>)
    requires s.phase.Busy? && |bytes| <= s.phase.left + 1
    ensures Steps(t, s, bytes) == s.(phase := Remaining(s.phase.left, |bytes|))
    decreases |bytes|
  {
    if bytes != [] { BusySteps(t, s, bytes[..|bytes| - 1]); }
  }

  /** A card that wakes up among some bytes takes the rest of them as if it had been idle before. */
  lemma WakesAmong(t: Temper, s: State, bytes: seq<Byte>)
    requires s.phase.Busy? && s.phase.left < |bytes|
    ensures Steps(t, s, bytes) == Steps(t, Woken(s), bytes[s.phase.left + 1..])
  {
    var k := s.phase.left + 1;
    BusySteps(t, s, bytes[..k]);
    StepsAppend(t, s, bytes[..k], bytes[k..]);
    assert bytes[..k] + bytes[k..] == bytes;
  }

  /** A busy line is not the token waited for, nor is an idle one. */
  lemma {:induction false} ListenInVain(t: Temper, s: State, want: Byte, limit: nat)
    requires Quiet(s)
    requires want != 0x00 && want != 0xFF
    ensures var l := Listen(t, s, want, limit);
      !l.found && l.s == s.(phase := if s.phase.Busy? then Remaining(s.phase.left, limit) else IDLE)
    decreases limit
  {
    if limit > 0 { ListenInVain(t, Step(t, s, 0xFF), want, limit - 1); }
  }

  // ---------------------------------------------------------------- the end of a command heard by a card just woken

  /** The card will not answer 0x00 before it is idle again: no command that ends in a 0xFF argument byte is
      accepted. */
  predicate Doomed(p: Phase) {
    match p
    case Listening(frame) => |frame| <= 4 || (|frame| == 5 && frame[4] == 0xFF)
    case Answering(_, r1, next) => r1 != 0 && next == IDLE
    case Busy(left) => left == 0
    case _ => false
  }

  lemma OddArgument(frame: seq<Byte>)
    requires |frame| == 6 && frame[4] == 0xFF
    ensures Argument(frame) % BLOCK != 0
  {
    var a: nat, b: nat, c: nat := frame[1], frame[2], frame[3];
    var x := (a * 256 + b) * 256 + c;
    assert Argument(frame) == x * 256 + 255;
    assert (x * 256 + 255) % 512 != 0;
  }

  lemma {:induction false} ListenDoomed(t: Temper, s: State, limit: nat)
    requires Doomed(s.phase)
    ensures var l := Listen(t, s, 0x00, limit);
      !l.found && l.s.disk == s.disk && Doomed(l.s.phase) && (limit > 0 || !s.phase.Busy? ==> !l.s.phase.Busy?)
    decreases limit
  {
    if limit > 0 {
      DoomedStep(t, s);
      ListenDoomed(t, Step(t, s, 0xFF), limit - 1);
    }
  }

  lemma DoomedStep(t: Temper, s: State)
    requires Doomed(s.phase)
    ensures Out(s) != 0x00 && Step(t, s, 0xFF).disk == s.disk
    ensures Doomed(Step(t, s, 0xFF).phase) && !Step(t, s, 0xFF).phase.Busy?
  {
    if s.phase.Listening? && |s.phase.frame| == 5 { OddArgument(s.phase.frame + [0xFF]); }
  }

  /** A few bytes to an idle card are at most part of a frame. */
  lemma {:induction false} Gathers(t: Temper, s: State, bytes: seq<Byte>)
    requires s.phase == IDLE && |bytes| <= 5
    ensures var p := Steps(t, s, bytes).phase;
      Steps(t, s, bytes) == s.(phase := p) && p.Listening? && |p.frame| <= |bytes|
      && (bytes != [] && p.frame != [] ==> p.frame[|p.frame| - 1] == bytes[|bytes| - 1])
    decreases |bytes|
  {
    if bytes != [] { Gathers(t, s, bytes[..|bytes| - 1]); }
  }

  /** After the idle bytes and a command, a card that was busy until within them is doomed. */
  lemma CommandMissed(t: Temper, s: State, op: Byte, addr: nat)
    requires s.phase.Busy? && LEAD <= s.phase.left <= LEAD + 6
    ensures var c := Steps(t, Idled(t, s, LEAD), Command(op, addr)); c.disk == s.disk && Doomed(c.phase)
  {
    Wakes(t, s, LEAD);
    var b, cmd := Idled(t, s, LEAD), Command(op, addr);
    if b.phase.left < 6 {
      WakesAmong(t, b, cmd);
      var tail := cmd[b.phase.left + 1..];
      Gathers(t, Woken(b), tail);
      assert tail != [] ==> tail[|tail| - 1] == cmd[5];
    } else {
      BusySteps(t, b, cmd);
    }
  }

  lemma NoResponse(t: Temper, s: State, op: Byte, addr: nat)
    requires s.phase.Busy? && Missed(s.phase.left)
    ensures var r1 := Responded(t, s, op, addr);
      !r1.found && AfterRelease(r1.s).disk == s.disk && AfterRelease(r1.s).phase == IDLE
  {
    CommandMissed(t, s, op, addr);
    ListenDoomed(t, Steps(t, Idled(t, s, LEAD), Command(op, addr)), RESPONSE_POLLS);
  }

  /** After them, one that is busy for longer answers with its busy line. */
  lemma CommandSwallowed(t: Temper, s: State, op: Byte, addr: nat)
    requires s.phase.Busy? && s.phase.left > LEAD + 6
    ensures Responded(t, s, op, addr) == Heard(true, s.(phase := Busy(s.phase.left - (LEAD + 7))))
  {
    Wakes(t, s, LEAD);
    BusySteps(t, Idled(t, s, LEAD), Command(op, addr));
  }

  // ---------------------------------------------------------------- block data heard by a card just woken

  /** What n bytes can have brought an idle card to: less than a stored block. */
  predicate Stray(n: nat, p: Phase) {
    match p
    case Listening(frame) => |frame| <= n && |frame| <= 5
    case Answering(_, _, next) => n >= 6 && StrayNext(next)
    case Fetching(_, out) => |out| <= BLOCK + 3
    case Expecting(_) => n >= 7
    case Storing(_, got) => |got| + 8 <= n
    case Busy(_) => false
  }

  predicate StrayNext(p: Phase) {
    p == IDLE || p.Expecting? || (p.Fetching? && |p.out| <= BLOCK + 3)
  }

  lemma StrayStep(t: Temper, s: State, n: nat, b: Byte)
    requires Stray(n, s.phase) && n <= BLOCK + 2
    ensures Stray(n + 1, Step(t, s, b).phase) && Step(t, s, b).disk == s.disk
  {
  }

  lemma {:induction false} StrayBytes(t: Temper, s: State, bytes: seq<Byte>)
    requires s.phase == IDLE && |bytes| <= BLOCK + 2
    ensures var e := Steps(t, s, bytes); Stray(|bytes|, e.phase) && e.disk == s.disk
    decreases |bytes|
  {
    if bytes != [] {
      var front := bytes[..|bytes| - 1];
      StrayBytes(t, s, front);
      StrayStep(t, Steps(t, s, front), |front|, bytes[|bytes| - 1]);
    }
  }

  /** How many polls a stray card may answer with something else than 0xFF. */
  function Rank(p: Phase): nat {
    match p
    case Answering(_, _, next) => if next.Fetching? then 1 + |next.out| else 1
    case Fetching(_, out) => |out|
    case _ => 0
  }

  /** A stray card soon looks ready, and it never turns busy or stores anything. */
  lemma {:induction false} StrayLooksReady(t: Temper, s: State, limit: nat)
    requires Stray(BLOCK + 2, s.phase) && limit > Rank(s.phase)
    ensures var l := Listen(t, s, 0xFF, limit); l.found && l.s.disk == s.disk && !l.s.phase.Busy?
    decreases limit
  {
    StrayStep(t, s, BLOCK + 2, 0xFF);
    if Out(s) != 0xFF { StrayLooksReady(t, Step(t, s, 0xFF), limit - 1); }
  }

  // ---------------------------------------------------------------- the next block after a timeout

  /** The command is not heard, and nothing answers it. */
  predicate Missed(left: nat) { LEAD <= left <= LEAD + 6 }

  const BLOCK_SENT: nat := BLOCK + 3

  /** The busy line is taken for the answer, and its end for the end of the block's own busy time. */
  predicate Swallowed(left: nat) { LEAD + 6 < left < LEAD + 7 + BLOCK_SENT + BUSY_POLLS }

  /** A block written to a card that is still busy: lost in any case, and reported done if the busy time is neither
      short nor very long. */
  lemma DeafWrite(t: Temper, s: State, addr: nat, data: seq<Byte>)
    requires s.phase.Busy? && s.phase.left >= LEAD && |data| == BLOCK
    ensures var left, w := s.phase.left, MachineWrite(t, s, addr, data);
      && w.s.disk == s.disk
      && w.code == (if Missed(left) then 1 else if Swallowed(left) then 0 else 3)
      && (w.code != 3 ==> w.s.phase == IDLE)
      && (w.code == 3 ==> w.s == s.(phase := Busy(left - (LEAD + 7) - BLOCK_SENT - BUSY_POLLS)))
  {
    if Missed(s.phase.left) {
      NoResponse(t, s, 0x58, addr);
    } else {
      CommandSwallowed(t, s, 0x58, addr);
      var b, block := s.(phase := Busy(s.phase.left - (LEAD + 7))), [0xFE] + data + [0xFF, 0xFF];
      DeafBlock(t, b, block);
    }
  }

  lemma DeafBlock(t: Temper, b: State, block: seq<Byte>)
    requires b.phase.Busy? && |block| == BLOCK_SENT
    ensures var l := Listen(t, Steps(t, b, block), 0xFF, BUSY_POLLS);
      && l.s.disk == b.disk && l.found == (b.phase.left < BLOCK_SENT + BUSY_POLLS)
      && (l.found ==> AfterRelease(l.s).phase == IDLE)
      && (!l.found ==> l.s == b.(phase := Busy(b.phase.left - BLOCK_SENT - BUSY_POLLS)))
  {
    if b.phase.left < BLOCK_SENT {
      WakesAmong(t, b, block);
      var tail := block[b.phase.left + 1..];
      StrayBytes(t, Woken(b), tail);
      StrayLooksReady(t, Steps(t, b, block), BUSY_POLLS);
    } else {
      BusySteps(t, b, block);
      ListenBusy(t, Steps(t, b, block), BUSY_POLLS);
    }
  }

  /** A block read from a card that is still busy: never delivered. */
  lemma DeafRead(t: Temper, s: State, addr: nat)
    requires s.phase.Busy? && s.phase.left >= LEAD
    ensures var left, w := s.phase.left, MachineRead(t, s, addr);
      && w.s.disk == s.disk && w.code == (if Missed(left) then 1 else 2)
      && (Missed(left) ==> w.s.phase == IDLE)
      && (!Missed(left) ==> w.s == s.(phase := Remaining(left, LEAD + 7 + TOKEN_POLLS)))
  {
    if Missed(s.phase.left) {
      NoResponse(t, s, 0x51, addr);
    } else {
      CommandSwallowed(t, s, 0x51, addr);
      ListenInVain(t, s.(phase := Busy(s.phase.left - (LEAD + 7))), 0xFE, TOKEN_POLLS);
    }
  }

  /** Exactly: a card left busy stores the next block if and only if its busy time ends within the four idle bytes ahead
      of the command. After that the command is missed, or the write is reported done and lost, or times out again. */
  lemma AfterTimeout(t: Temper, card: Card, v: View, h: History, s: State, addr: nat, data: Block)
    requires Tracks(t, card, v) && v.rest(h, s) && s.phase.Busy? && addr < WORD && Accepts(t, s, addr)
    ensures addr / BLOCK < |s.disk|
    ensures var r, w := WriteOutcome(card, h, addr, data), MachineWrite(t, s, addr, data);
      && r.code == w.code && v.rest(r.wire, w.s)
      && (w.s.disk == s.disk[addr / BLOCK := data] <==> s.phase.left <= 3 || s.disk[addr / BLOCK] == data)
      && (s.phase.left >= 4 ==> w.s.disk == s.disk)
      && (s.phase.left >= 4 ==> r.code == if s.phase.left <= 10 then 1 else if s.phase.left <= 1000525 then 0 else 3)
  {
    WriteIs(t, card, v, h, s, addr, data);
    if s.phase.left < LEAD {
      MachineServes(t, s, addr, data);
    } else {
      DeafWrite(t, s, addr, data);
    }
  }

  /** A card that is slow with its first block and quick with everything else. */
  function SlowOnce(left: nat): Temper {
    Temper(_ => 0, _ => 0, _ => 0, _ => 0xFE, n => if n == 1 then BUSY_POLLS - 1 + left else 0)
  }

  /** It happens: the first write times out although it is stored, and the second is reported done although it is
      not. */
  lemma LossHappens(disk: Disk, a: Block, b: Block, left: nat)
    requires disk != [] && Swallowed(left)
    ensures var t := SlowOnce(left);
      var first := MachineWrite(t, State(IDLE, disk, 0), 0, a);
      var second := MachineWrite(t, first.s, 0, b);
      && first.code == 3 && first.s == State(Busy(left), disk[0 := a], 1)
      && second.code == 0 && second.s.disk == disk[0 := a] && second.s.phase == IDLE
  {
    var t := SlowOnce(left);
    MachineServes(t, State(IDLE, disk, 0), 0, a);
    DeafWrite(t, State(Busy(left), disk[0 := a], 1), 0, b);
  }
}
