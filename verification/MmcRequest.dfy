/** The request loop: over a card it behaves as an array of 512-byte sectors. */
module MmcRequest {
  import opened Common
  import opened SpiWire
  import opened MmcPort
  import opened MmcBlocks
  import opened MmcCapacity
  import opened SdCard
  import opened SdBusy
  import opened MmcTransfer

  /** One block, by the version the `opt` parameter selects. */
  method ReadBlock(p: Port, opt: nat, data: array<Byte>, at: nat, srcAddr: nat) returns (code: nat)
    requires AtRest(p) && at + BLOCK <= data.Length
    modifies p`padat, p`pbdat, p`wire, data
    ensures Kept(p) && AtRest(p)
    ensures Outcome(p.wire, code, if code == 0 then data[at..at + BLOCK] else [])
            == ReadOutcome(p.Answerer(), old(p.wire), srcAddr)
    ensures Elsewhere(data, at, code == 0)
  {
    if opt == 0 { code := ReadBlockSafe(p, data, at, srcAddr); } else { code := ReadBlockFast(p, data, at, srcAddr); }
  }

  method WriteBlock(p: Port, opt: nat, destAddr: nat, data: seq<Byte>) returns (code: nat)
    requires AtRest(p) && |data| == BLOCK
    modifies p`padat, p`pbdat, p`wire
    ensures Kept(p) && AtRest(p)
    ensures Outcome(p.wire, code, []) == WriteOutcome(p.Answerer(), old(p.wire), destAddr, data)
  {
    if opt == 0 { code := WriteBlockSafe(p, destAddr, data); } else { code := WriteBlockFast(p, destAddr, data); }
  }

  /** The port drives a card that is idle, or still busy with an earlier block. */
  ghost predicate Attached(p: Port, t: Temper, v: View, s: State)
    reads p
  {
    AtRest(p) && Tracks(t, p.Answerer(), v) && v.rest(p.wire, s) && Quiet(s)
  }

  // ---------------------------------------------------------------- blocks

  /** One block read, as the disk sees it; a card that is still busy is not heard at all. */
  method ReadOne(p: Port, opt: nat, buffer: array<Byte>, at: nat, address: nat,
                 ghost t: Temper, ghost v: View, ghost s: State)
    returns (ok: bool, ghost s': State)
    requires Attached(p, t, v, s) && address < WORD && at + BLOCK <= buffer.Length
    modifies p`padat, p`pbdat, p`wire, buffer
    ensures Kept(p) && Attached(p, t, v, s')
    ensures s' == if Awake(s) then State(IDLE, s.disk, s.count + 1) else MachineRead(t, s, address).s
    ensures ok <==> Awake(s) && Accepts(t, s, address) && t.token(s.count) == 0xFE && t.nac(s.count) < TOKEN_POLLS
    ensures ok ==> address / BLOCK < |s.disk| && buffer[at..at + BLOCK] == s.disk[address / BLOCK]
    ensures Elsewhere(buffer, at, ok) && s'.disk == s.disk
  {
    if Awake(s) {
      ReadServes(t, p.Answerer(), v, p.wire, s, address);
    } else {
      ReadIs(t, p.Answerer(), v, p.wire, s, address);
      DeafRead(t, s, address);
    }
    var code := ReadBlock(p, opt, buffer, at, address);
    ok := code == 0;
    s' := if Awake(s) then State(IDLE, s.disk, s.count + 1) else MachineRead(t, s, address).s;
  }

  /** The i-th block of a transfer. */
  method ReadNth(p: Port, opt: nat, buffer: array<Byte>, at: nat, address: nat,
                 ghost t: Temper, ghost v: View, ghost s: State, ghost first: nat, ghost i: nat)
    returns (ok: bool, ghost s': State)
    requires Attached(p, t, v, AfterReads(s, i)) && (i > 0 ==> Awake(s) && Delivered(buffer[..], i, s.disk, first))
    requires at == i * BLOCK && at + BLOCK <= buffer.Length && address == first * BLOCK + at && address < WORD
    modifies p`padat, p`pbdat, p`wire, buffer
    ensures Kept(p) && Attached(p, t, v, s')
    ensures s' == if Awake(s) then AfterReads(s, i + 1) else MachineRead(t, s, first * BLOCK).s
    ensures ok <==> Awake(s) && Readable(t, s, first, i)
    ensures ok ==> Delivered(buffer[..], i + 1, s.disk, first)
    ensures !ok ==> buffer[..] == old(buffer[..])
    ensures buffer[at + BLOCK..] == old(buffer[at + BLOCK..])
  {
    ghost var was := buffer[..];
    AcceptsBlock(t, s, AfterReads(s, i), first, i);
    ok, s' := ReadOne(p, opt, buffer, at, address, t, v, AfterReads(s, i));
    if ok { DeliveredNext(was, buffer[..], i, s.disk, first); }
  }

  /** The blocks before the first one the card does not serve are delivered; the rest of the buffer is unchanged. */
  method ReadSectors(p: Port, opt: nat, buffer: array<Byte>, address: nat, nr: nat,
                     ghost t: Temper, ghost v: View, ghost s: State, ghost first: nat)
    returns (ok: bool, ghost done: nat, ghost s': State)
    requires Attached(p, t, v, s)
    requires address == first * BLOCK && address + nr * BLOCK < WORD && nr * BLOCK <= buffer.Length
    modifies p`padat, p`pbdat, p`wire, buffer
    ensures Kept(p) && Attached(p, t, v, s')
    ensures Reads(t, s, first, nr, done, s') && done <= nr && (ok <==> done == nr)
    ensures done > 0 ==> Delivered(buffer[..], done, s.disk, first)
    ensures buffer[done * BLOCK..] == old(buffer[done * BLOCK..])
  {
    var mmcAddress, at, i := address, 0, 0;
    while i < nr
      invariant i <= nr && at == i * BLOCK && mmcAddress == address + at
      invariant Kept(p) && Attached(p, t, v, AfterReads(s, i)) && (i > 0 ==> Awake(s))
      invariant forall k: nat :: k < i ==> Readable(t, s, first, k)
      invariant i > 0 ==> Delivered(buffer[..], i, s.disk, first)
      invariant buffer[at..] == old(buffer[at..])
    {
      ghost var was := buffer[..];
      ok, s' := ReadNth(p, opt, buffer, at, mmcAddress, t, v, s, first, i);
      if !ok { return false, i, s'; }
      assert was[at..][BLOCK..] == was[at + BLOCK..];
      assert old(buffer[at..])[BLOCK..] == old(buffer[at + BLOCK..]);
      mmcAddress, at := Advance(mmcAddress, at, i, address, nr);
      i := i + 1;
    }
    return true, nr, AfterReads(s, nr);
  }

  /** On to the next block: its address in the card and its place in the buffer. */
  method Advance(mmcAddress: nat, at: nat, ghost i: nat, ghost address: nat, ghost nr: nat)
    returns (nextAddress: nat, nextAt: nat)
    requires i < nr && at == i * BLOCK && mmcAddress == address + at && address + nr * BLOCK < WORD
    ensures nextAt == at + BLOCK == (i + 1) * BLOCK && nextAddress == address + nextAt
  {
    return (mmcAddress + BLOCK) % WORD, at + BLOCK;
  }

  /** One block written, as the disk sees it; when the driver gave up waiting the card may be left busy, and a card that
      is still busy stores nothing, whatever the code. */
  method WriteOne(p: Port, opt: nat, data: Block, address: nat, ghost t: Temper, ghost v: View, ghost s: State)
    returns (code: nat, ghost s': State)
    requires Attached(p, t, v, s) && address < WORD
    modifies p`padat, p`pbdat, p`wire
    ensures Kept(p) && Attached(p, t, v, s')
    ensures Leads(t, s, address, data, Done(code, s')) && (!Awake(s) ==> s'.disk == s.disk)
    ensures !Awake(s) ==> code == if Missed(s.phase.left) then 1 else if Swallowed(s.phase.left) then 0 else 3
  {
    WriteIs(t, p.Answerer(), v, p.wire, s, address, data);
    if Awake(s) { MachineServes(t, s, address, data); } else { DeafWrite(t, s, address, data); }
    code := WriteBlock(p, opt, address, data);
    s' := MachineWrite(t, s, address, data).s;
  }

  /** The i-th block of a transfer. */
  method WriteNth(p: Port, opt: nat, data: Block, address: nat, ghost t: Temper, ghost v: View,
                  ghost s: State, ghost b: Base, ghost first: nat, ghost buffer: seq<Byte>, ghost i: nat)
    returns (code: nat, ghost s': State)
    requires (i + 1) * BLOCK <= |buffer| && data == BlockAt(buffer, i)
    requires address == first * BLOCK + i * BLOCK && address < WORD
    requires b == BaseOf(t, s, first, BlockAt(buffer, 0)) && (i > 0 ==> b.lost <= i)
    requires Attached(p, t, v, AfterWrites(s, b, buffer, i))
    modifies p`padat, p`pbdat, p`wire
    ensures Kept(p) && Attached(p, t, v, s') && Nth(t, b, buffer, i, Done(code, s'))
  {
    ghost var now := AfterWrites(s, b, buffer, i);
    code, s' := WriteOne(p, opt, data, address, t, v, now);
    NthLeads(t, s, b, first, buffer, i, Done(code, s'));
  }

  /** One more block, and what it means for the transfer. */
  method WriteNext(p: Port, opt: nat, buffer: array<Byte>, at: nat, address: nat, ghost t: Temper, ghost v: View,
                   ghost s: State, ghost first: nat, ghost nr: nat, ghost data: seq<Byte>, ghost i: nat,
                   ghost lost0: nat, ghost now: State)
    returns (code: nat, ghost lost: nat, ghost stored: nat, ghost slow: bool, ghost s': State)
    requires i < nr && nr * BLOCK <= buffer.Length && at == i * BLOCK && data == buffer[..]
    requires address == first * BLOCK + at && address < WORD
    requires Attached(p, t, v, now)
    requires lost0 <= i && Writes(t, s, first, i, data, lost0, i - lost0, false, now)
    modifies p`padat, p`pbdat, p`wire
    ensures Kept(p) && Attached(p, t, v, s')
    ensures code == 0 ==>
      lost + stored == i + 1 && !slow && Writes(t, s, first, i + 1, data, lost, stored, false, s')
    ensures code != 0 ==>
      Writes(t, s, first, nr, data, lost, stored, slow, s') && !(lost + stored == nr && !slow)
  {
    ghost var b := BaseOf(t, s, first, BlockAt(data, 0));
    PassedIs(t, s, first, data, i, lost0, now);
    code, s' := WriteNth(p, opt, buffer[at..at + BLOCK], address, t, v, s, b, first, data, i);
    lost, stored, slow := AfterNth(t, s, first, nr, data, i, Done(code, s'));
  }

  /** The blocks before the first one the card refuses are stored; when waiting for one was in vain it is the last. */
  method WriteSectors(p: Port, opt: nat, buffer: array<Byte>, address: nat, nr: nat,
                      ghost t: Temper, ghost v: View, ghost s: State, ghost first: nat)
    returns (ok: bool, ghost lost: nat, ghost stored: nat, ghost slow: bool, ghost s': State)
    requires Attached(p, t, v, s)
    requires address == first * BLOCK && address + nr * BLOCK < WORD && nr * BLOCK <= buffer.Length
    modifies p`padat, p`pbdat, p`wire
    ensures Kept(p) && Attached(p, t, v, s')
    ensures Writes(t, s, first, nr, buffer[..], lost, stored, slow, s') && (ok <==> lost + stored == nr && !slow)
  {
    ghost var data := buffer[..];
    ok, lost, stored, slow, s' := true, 0, 0, false, s;
    var mmcAddress, at, i := address, 0, 0;
    while i < nr
      invariant i <= nr && at == i * BLOCK && mmcAddress == address + at
      invariant Kept(p) && Attached(p, t, v, s') && ok && buffer[..] == data
      invariant lost + stored == i && !slow && Writes(t, s, first, i, data, lost, stored, false, s')
    {
      var code;
      code, lost, stored, slow, s' := WriteNext(p, opt, buffer, at, mmcAddress, t, v, s, first, nr, data, i, lost, s');
      if code != 0 { ok := false; break; }
      mmcAddress, at := Advance(mmcAddress, at, i, address, nr);
      i := i + 1;
    }
  }

  // ---------------------------------------------------------------- whole requests

  datatype Cmd = Read | Write | Other

  datatype Request = Request(cmd: Cmd, sector: nat, start: nat, nr: nat, buffer: array<Byte>)
  {
    function First(): nat { sector + start }

    predicate Fits() { First() + nr < WORD && nr * BLOCK <= buffer.Length }
  }

  /** The byte address of an admitted request. */
  lemma AddressOf(first: nat, nr: nat, nrSects: nat)
    requires first + nr < WORD && first + nr <= nrSects && nrSects * BLOCK < WORD
    ensures var address := first % WORD * BLOCK % WORD;
      address == first * BLOCK && address % BLOCK == 0 && address / BLOCK == first && address + nr * BLOCK < WORD
  {
  }

  /** What became of a request: its code, how many of its blocks were swallowed and then moved, whether the driver gave
      up waiting, and its buffer before and after. */
  datatype Report = Report(code: nat, lost: nat, moved: nat, slow: bool, before: seq<Byte>, after: seq<Byte>)

  predicate Admitted(g: Geometry, mediaDetect: bool, r: Request) {
    mediaDetect && r.First() + r.nr <= g.nrSects && r.cmd != Other
  }

  /** One request to the sector array `s.disk`, in all its outcomes. */
  ghost predicate Fulfilled(t: Temper, admitted: bool, r: Request, o: Report, s: State, s': State) {
    && |o.before| == |o.after| && r.nr * BLOCK <= |o.before|
    && (!admitted ==> o == Report(0, 0, 0, false, o.before, o.before) && s' == s)
    && (admitted && r.cmd == Read ==> ReadFulfilled(t, r, o, s, s'))
    && (admitted && r.cmd == Write ==>
          Writes(t, s, r.First(), r.nr, o.before, o.lost, o.moved, o.slow, s') && o.after == o.before
          && o.code == if o.lost + o.moved == r.nr && !o.slow then 1 else 0)
  }

  ghost predicate ReadFulfilled(t: Temper, r: Request, o: Report, s: State, s': State)
    requires |o.before| == |o.after| && r.nr * BLOCK <= |o.before|
  {
    && Reads(t, s, r.First(), r.nr, o.moved, s') && o.moved <= r.nr && o.lost == 0 && !o.slow
    && o.code == (if o.moved == r.nr then 1 else 0)
    && (o.moved > 0 ==> Delivered(o.after, o.moved, s.disk, r.First()))
    && o.after[o.moved * BLOCK..] == o.before[o.moved * BLOCK..]
  }

  /** From where the blocks of a write request are stored. */
  function WriteBase(t: Temper, r: Request, o: Report, s: State): Base
    requires 0 < r.nr * BLOCK <= |o.before|
  {
    BaseOf(t, s, r.First(), BlockAt(o.before, 0))
  }

  /** A request succeeds exactly if it is admitted and the card serves every block of it, or swallows the first block of
      a write and serves the others. */
  lemma SucceedsWhenServed(t: Temper, admitted: bool, r: Request, o: Report, s: State, s': State)
    requires Fulfilled(t, admitted, r, o, s, s') && (admitted ==> r.cmd != Other)
    ensures o.code in {0, 1} && (r.nr == 0 ==> (o.code == 1 <==> admitted))
    ensures r.nr > 0 && r.cmd == Read ==>
      (o.code == 1 <==> admitted && Awake(s) && forall i: nat :: i < r.nr ==> Readable(t, s, r.First(), i))
    ensures r.nr > 0 && r.cmd == Write ==> var b := WriteBase(t, r, o, s);
      (o.code == 1 <==> admitted && b.go
                        && forall i: nat :: i < r.nr - b.lost ==> Writable(t, b.s, b.at, i) && Timely(t, b.s, i))
  {
  }

  /** Which requests are refused: there is no card, they end beyond its last sector, or they neither read nor write. */
  lemma RefusedWhen(g: Geometry, mediaDetect: bool, r: Request)
    ensures !Admitted(g, mediaDetect, r) <==>
      !mediaDetect || r.sector + r.start + r.nr > g.nrSects || r.cmd == Other
  {
  }

  /** A read that succeeds fills the buffer with the sectors from the partition's start plus the sector asked for on. */
  lemma ReadMeans(t: Temper, admitted: bool, r: Request, o: Report, s: State, s': State, i: nat)
    requires Fulfilled(t, admitted, r, o, s, s') && r.cmd == Read && o.code == 1 && i < r.nr
    ensures admitted && r.sector + r.start + i < |s.disk| && i * 512 + 512 <= |o.after|
    ensures o.after[i * 512..i * 512 + 512] == s.disk[r.sector + r.start + i]
  {
    assert o.moved == r.nr;
    assert BlockAt(o.after, i) == s.disk[r.First() + i];
  }

  /** A write changes exactly the sectors of the blocks it has stored, counted from there. */
  lemma WriteMeans(t: Temper, r: Request, o: Report, s: State, s': State, k: nat)
    requires Fulfilled(t, true, r, o, s, s') && r.cmd == Write && Quiet(s) && k < |s.disk|
    ensures o.lost + o.moved <= r.nr && r.nr * 512 <= |o.before| && |s'.disk| == |s.disk|
    ensures var at := k - (r.sector + r.start);
      s'.disk[k] ==
        if o.lost <= at < o.lost + o.moved then o.before[at * 512..at * 512 + 512] else s.disk[k]
  {
    WriteStores(t, s, r.First(), r.nr, o.before, o.lost, o.moved, o.slow, s');
    LaidAt(s.disk, r.First(), o.before, o.lost, o.lost + o.moved, k);
  }

  /** A write request that is reported done has been stored exactly if the card was awake when it came. */
  lemma StoredWhenAwake(t: Temper, r: Request, o: Report, s: State, s': State)
    requires Fulfilled(t, true, r, o, s, s') && r.cmd == Write && r.nr > 0 && o.code == 1
    requires Quiet(s)
    ensures o.moved == r.nr <==> Awake(s)
    ensures s'.disk == Laid(s.disk, r.First(), o.before, o.lost, r.nr)
    ensures !Awake(s) ==> o.lost == 1 && Swallowed(s.phase.left)
  {
    BaseKeeps(t, s, r.First(), BlockAt(o.before, 0));
  }

  /** Nothing about a request is left open: the card and the buffer determine all that becomes of it. */
  lemma Determined(t: Temper, admitted: bool, r: Request, o: Report, o': Report, s: State, s1: State, s2: State)
    requires Fulfilled(t, admitted, r, o, s, s1) && Fulfilled(t, admitted, r, o', s, s2) && o.before == o'.before
    requires admitted ==> r.cmd != Other
    ensures o == o' && s1 == s2
  {
    if admitted && r.cmd == Read {
      if r.nr > 0 && Awake(s) { ReadUnique(t, s, r.First(), r.nr, o.moved, o'.moved); }
      SameBytes(o.after, o'.after, o.moved);
    }
    if admitted && r.cmd == Write && r.nr > 0 {
      var b := WriteBase(t, r, o, s);
      if b.go { WrittenUnique(t, b.s, b.at, r.nr - b.lost, o.moved, o.slow, o'.moved, o'.slow); }
    }
  }

  lemma StaysAwake(t: Temper, admitted: bool, r: Request, o: Report, s: State, s': State)
    requires Fulfilled(t, admitted, r, o, s, s') && (admitted ==> r.cmd != Other) && Awake(s)
    ensures o.lost == 0 && (!o.slow ==> Awake(s')) && (o.slow ==> !Prompt(t))
  {
  }

  method HandleRequest(p: Port, opt: nat, g: Geometry, mediaDetect: bool, r: Request,
                       ghost t: Temper, ghost v: View, ghost s: State)
    returns (code: nat, ghost o: Report, ghost s': State)
    requires Attached(p, t, v, s) && r.Fits()
    requires g.hardsect == BLOCK && g.nrSects * BLOCK < WORD
    modifies p`padat, p`pbdat, p`wire, r.buffer
    ensures Kept(p) && Attached(p, t, v, s')
    ensures code == o.code && o.before == old(r.buffer[..]) && o.after == r.buffer[..]
    ensures Fulfilled(t, Admitted(g, mediaDetect, r), r, o, s, s')
    ensures !mediaDetect || r.sector + r.start + r.nr > g.nrSects || r.cmd == Other ==>
      code == 0 && p.wire == old(p.wire) && r.buffer[..] == old(r.buffer[..])
    ensures code == 1 ==> mediaDetect && r.sector + r.start + r.nr <= g.nrSects && r.cmd != Other
  {
    ghost var before := r.buffer[..];
    code, o, s' := 1, Report(0, 0, 0, false, before, before), s;
    var mmcAddress := (r.sector + r.start) % WORD * g.hardsect % WORD;
    if (r.sector + r.nr + r.start) % WORD > g.nrSects || !mediaDetect {
      code := 0;
    } else if r.cmd == Read {
      code, o, s' := HandleRead(p, opt, g, mediaDetect, r, mmcAddress, t, v, s);
    } else if r.cmd == Write {
      code, o, s' := HandleWrite(p, opt, g, mediaDetect, r, mmcAddress, t, v, s);
    } else {
      code := 0;
    }
  }

  method HandleRead(p: Port, opt: nat, ghost g: Geometry, ghost mediaDetect: bool, r: Request, mmcAddress: nat,
                    ghost t: Temper, ghost v: View, ghost s: State)
    returns (code: nat, ghost o: Report, ghost s': State)
    requires Attached(p, t, v, s) && r.Fits() && r.cmd == Read && Admitted(g, mediaDetect, r)
    requires g.nrSects * BLOCK < WORD && mmcAddress == r.First() % WORD * BLOCK % WORD
    modifies p`padat, p`pbdat, p`wire, r.buffer
    ensures Kept(p) && Attached(p, t, v, s')
    ensures code == o.code && o.before == old(r.buffer[..]) && o.after == r.buffer[..]
    ensures Fulfilled(t, true, r, o, s, s')
  {
    code := 1;
    AddressOf(r.First(), r.nr, g.nrSects);
    var ok;
    ghost var done;
    ok, done, s' := ReadSectors(p, opt, r.buffer, mmcAddress, r.nr, t, v, s, r.First());
    if !ok { code := 0; }
    o := Report(code, 0, done, false, old(r.buffer[..]), r.buffer[..]);
  }

  method HandleWrite(p: Port, opt: nat, ghost g: Geometry, ghost mediaDetect: bool, r: Request, mmcAddress: nat,
                     ghost t: Temper, ghost v: View, ghost s: State)
    returns (code: nat, ghost o: Report, ghost s': State)
    requires Attached(p, t, v, s) && r.Fits() && r.cmd == Write && Admitted(g, mediaDetect, r)
    requires g.nrSects * BLOCK < WORD && mmcAddress == r.First() % WORD * BLOCK % WORD
    modifies p`padat, p`pbdat, p`wire
    ensures Kept(p) && Attached(p, t, v, s')
    ensures code == o.code && o.before == o.after == r.buffer[..]
    ensures Fulfilled(t, true, r, o, s, s')
  {
    code := 1;
    AddressOf(r.First(), r.nr, g.nrSects);
    var ok;
    ghost var lost, stored, slow;
    ok, lost, stored, slow, s' := WriteSectors(p, opt, r.buffer, mmcAddress, r.nr, t, v, s, r.First());
    if !ok { code := 0; }
    o := Report(code, lost, stored, slow, r.buffer[..], r.buffer[..]);
  }
}
