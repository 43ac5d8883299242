/** Transport packets from a two-part buffer, cut into UDP frames whose headers are prepared beforehand. */
module Dvb2Eth {
  import opened Common

  const PAYLOAD: nat := 1316
  const HEADER: nat := 44
  const UDP_HEADERS: nat := 32
  const IP_WORDS: nat := 10

  // ---------------------------------------------------------------- the internet checksum (RFC 791, section 3.1)

  function Half(b: seq<Byte>, i: nat): nat
    requires i + 1 < |b|
  {
    var hi: nat, lo: nat := b[i], b[i + 1];
    hi * 256 + lo
  }

  /** The sum of the 16-bit words from position `at` on. */
  function WordSum(b: seq<Byte>, at: nat, words: nat): nat
    requires at + 2 * words <= |b|
  {
    if words == 0 then 0 else WordSum(b, at, words - 1) + Half(b, at + 2 * (words - 1))
  }

  /** End-around carry, twice. */
  function Folded(x: nat): nat {
    var y := x % 0x10000 + x / 0x10000;
    y % 0x10000 + y / 0x10000
  }

  /** A header verifies if its ten words, checksum included, add up to all ones. */
  predicate Verifies(b: seq<Byte>, at: nat)
    requires at + 20 <= |b|
  {
    Folded(WordSum(b, at, IP_WORDS)) == 0xFFFF
  }

  /** Spelt out: the ten words have a sum that is a multiple of 0xFFFF, and not zero. */
  lemma VerifiesMeans(h: seq<Byte>)
    requires |h| == 44
    ensures var sum := Half(h, 16) + Half(h, 18) + Half(h, 20) + Half(h, 22) + Half(h, 24)
                       + Half(h, 26) + Half(h, 28) + Half(h, 30) + Half(h, 32) + Half(h, 34);
      Verifies(h, 16) <==> sum > 0 && sum % 0xFFFF == 0
  {
    TenWords(h);
    var sum := WordSum(h, 16, 10);
    WordSumBound(h, 16, 10);
    if sum > 0 {
      FoldedRange(sum);
      var k: nat :| sum == Folded(sum) + k * 0xFFFF;
      Residue(sum, Folded(sum), k);
    }
  }

  lemma Residue(x: nat, f: nat, k: nat)
    requires x == f + k * 0xFFFF && 0 < f <= 0xFFFF
    ensures f == 0xFFFF <==> x % 0xFFFF == 0
  {
    if f == 0xFFFF {
      assert x == (k + 1) * 0xFFFF;
    } else {
      QuotientIs(x, 0xFFFF, k, f);
    }
  }

  lemma TenWords(h: seq<Byte>)
    requires |h| == 44
    ensures WordSum(h, 16, 10) == Half(h, 16) + Half(h, 18) + Half(h, 20) + Half(h, 22) + Half(h, 24)
                                  + Half(h, 26) + Half(h, 28) + Half(h, 30) + Half(h, 32) + Half(h, 34)
  {
    assert WordSum(h, 16, 2) == Half(h, 16) + Half(h, 18) by { assert WordSum(h, 16, 1) == Half(h, 16); }
    assert WordSum(h, 16, 4) == WordSum(h, 16, 2) + Half(h, 20) + Half(h, 22);
    assert WordSum(h, 16, 6) == WordSum(h, 16, 4) + Half(h, 24) + Half(h, 26);
    assert WordSum(h, 16, 8) == WordSum(h, 16, 6) + Half(h, 28) + Half(h, 30);
  }

  function FastCsum(b: seq<Byte>, at: nat): nat
    requires at + 20 <= |b|
  {
    0xFFFF - Folded(WordSum(b, at, IP_WORDS)) % 0x10000
  }

  lemma {:induction false} WordSumBound(b: seq<Byte>, at: nat, words: nat)
    requires at + 2 * words <= |b|
    ensures WordSum(b, at, words) <= words * 0xFFFF
  {
    if words > 0 { WordSumBound(b, at, words - 1); }
  }

  lemma FoldedRange(x: nat)
    requires 0 < x < 0x10000 * 0x8000
    ensures 0 < Folded(x) <= 0xFFFF && exists k: nat :: x == Folded(x) + k * 0xFFFF
  {
    var y := x % 0x10000 + x / 0x10000;
    assert x == y + (x / 0x10000) * 0xFFFF;
    assert y == Folded(x) + (y / 0x10000) * 0xFFFF;
    assert x == Folded(x) + (x / 0x10000 + y / 0x10000) * 0xFFFF;
  }

  /** A sum that is zero in one's-complement arithmetic folds to all ones. */
  lemma FoldsToOnes(x: nat, m: nat)
    requires 0 < x < 0x10000 * 0x8000 && x == m * 0xFFFF
    ensures Folded(x) == 0xFFFF
  {
    FoldedRange(x);
    var k: nat :| x == Folded(x) + k * 0xFFFF;
    assert Folded(x) == (m - k) * 0xFFFF;
  }

  lemma {:induction false} WordSumUpdate(b: seq<Byte>, c: seq<Byte>, at: nat, words: nat, k: nat)
    requires |b| == |c| && at + 2 * words <= |b| && k < 10
    requires forall i :: 0 <= i < |b| && i != at + 2 * k && i != at + 2 * k + 1 ==> b[i] == c[i]
    ensures WordSum(c, at, words) ==
      if k < words then WordSum(b, at, words) - Half(b, at + 2 * k) + Half(c, at + 2 * k) else WordSum(b, at, words)
  {
    if words > 0 { WordSumUpdate(b, c, at, words - 1, k); }
  }

  /** Storing the checksum of a header whose checksum word was zero makes it verify. */
  lemma ChecksumVerifies(b: seq<Byte>, c: seq<Byte>, at: nat)
    requires |b| == |c| && at + 20 <= |b| && Half(b, at + 10) == 0 && WordSum(b, at, IP_WORDS) > 0
    requires forall i :: 0 <= i < |b| && i != at + 10 && i != at + 11 ==> b[i] == c[i]
    requires Half(c, at + 10) == FastCsum(b, at)
    ensures Verifies(c, at)
  {
    WordSumBound(b, at, IP_WORDS);
    WordSumUpdate(b, c, at, IP_WORDS, 5);
    Completed(WordSum(b, at, IP_WORDS));
  }

  /** Adding the complement of what a sum folds to makes a sum that folds to all ones. */
  lemma Completed(s: nat)
    requires 0 < s <= 10 * 0xFFFF
    ensures Folded(s + 0xFFFF - Folded(s) % 0x10000) == 0xFFFF
  {
    FoldedRange(s);
    var f := Folded(s);
    var k: nat :| s == f + k * 0xFFFF;
    assert f % 0x10000 == f && s + 0xFFFF - f == (k + 1) * 0xFFFF;
    FoldsToOnes(s + 0xFFFF - f, k + 1);
  }

  // ---------------------------------------------------------------- headers

  /** The parts of a header that never change: IPv4 without options, UDP, and the two lengths. */
  predicate Fixed(h: seq<Byte>) {
    |h| == HEADER && h[16] == 0x45 && h[18] == 0x05 && h[19] == 0x40 && h[25] == 0x11 && h[40] == 0x05 && h[41] == 0x2C
  }

  /** A header addressed to a destination, field by field: Ethernet, IPv4 and UDP. */
  predicate Addressed(h: seq<Byte>, d: Dest) {
    && |h| == 44 && h[2..8] == d.destMac && h[8..14] == d.srcMac && h[14..16] == [0x08, 0x00]
    && h[16..20] == [0x45, 0x00, 0x05, 0x40] && h[22..24] == [0x00, 0x00] && h[24] == d.ttl && h[25] == 0x11
    && h[28..32] == d.srcIp && h[32..36] == d.destIp && h[36..38] == d.srcPort && h[38..40] == d.destPort
    && h[40..44] == [0x05, 0x2C, 0x00, 0x00]
  }

  lemma StillAddressed(h: seq<Byte>, skel: seq<Byte>, d: Dest)
    requires SameButId(h, skel) && Addressed(skel, d)
    ensures Addressed(h, d)
  {
    forall i, j | 0 <= i <= j <= 20 || 22 <= i <= j <= 26 || 28 <= i <= j <= 44 ensures h[i..j] == skel[i..j] { }
  }

  /** The length fields count the headers and one payload (RFC 791, section 3.1, and RFC 768). */
  lemma LengthsRight(h: seq<Byte>)
    requires Fixed(h)
    ensures Half(h, 18) == 20 + 8 + PAYLOAD && Half(h, 40) == 8 + PAYLOAD
  {
  }

  /** Equal but for identification and checksum. */
  predicate SameButId(h: seq<Byte>, skel: seq<Byte>) {
    |h| == |skel| == HEADER && forall i :: 0 <= i < HEADER && i !in {20, 21, 26, 27} ==> h[i] == skel[i]
  }

  /** The two bytes of padding ahead of a header are not put on the wire. */
  datatype Frame = Frame(slot: nat, header: seq<Byte>, payload: seq<Byte>)

  /** The k-th frame of a run that started with this slot and identification. */
  ghost predicate Good(f: Frame, skel: seq<Byte>, slot: nat, id: nat, k: nat) {
    && |f.payload| == PAYLOAD && f.slot == (slot + k) % 32
    && SameButId(f.header, skel) && Half(f.header, 20) == (id + k) % 0x10000 && Verifies(f.header, 16)
  }

  function Payloads(fs: seq<Frame>): seq<Byte>
    decreases |fs|
  {
    if fs == [] then [] else Payloads(fs[..|fs| - 1]) + fs[|fs| - 1].payload
  }

  datatype Dest = Dest(ttl: Byte, destIp: seq<Byte>, srcIp: seq<Byte>, srcPort: seq<Byte>, destPort: seq<Byte>,
                       destMac: seq<Byte>, srcMac: seq<Byte>)
  {
    predicate Valid() {
      |destIp| == |srcIp| == 4 && |srcPort| == |destPort| == 2 && |destMac| == |srcMac| == 6
    }

    /** The header skeleton filled in for this destination. */
    function Skeleton(): seq<Byte>
      requires Valid()
    {
      [0x00, 0x00] + destMac + srcMac + [0x08, 0x00]
      + [0x45, 0x00, 0x05, 0x40, 0x00, 0x00, 0x00, 0x00, ttl, 0x11, 0x00, 0x00] + srcIp + destIp
      + srcPort + destPort + [0x05, 0x2C, 0x00, 0x00]
    }
  }

  class Sender {
    const memory: nat -> Byte
    const headerBuf: array<Byte>
    var headerIndex: nat
    var udpId: nat
    var running: bool
    var setupDone: bool
    var frames: seq<Frame>
    ghost var skel: seq<Byte>
    ghost var dest: Dest

    ghost predicate Valid()
      reads this, headerBuf
    {
      && headerBuf.Length == UDP_HEADERS * HEADER && headerIndex < UDP_HEADERS && udpId < 0x10000
      && (running ==> setupDone)
      && (setupDone ==> Prepared())
    }

    ghost predicate Prepared()
      requires headerBuf.Length == UDP_HEADERS * HEADER
      reads this, headerBuf
    {
      Fixed(skel) && forall s: nat {:trigger SlotAt(s)} :: s < UDP_HEADERS ==> SameButId(SlotAt(s), skel)
    }

    function SlotAt(s: nat): seq<Byte>
      requires s < UDP_HEADERS && headerBuf.Length == UDP_HEADERS * HEADER
      reads headerBuf
    {
      headerBuf[s * HEADER..s * HEADER + HEADER]
    }

    constructor (memory: nat -> Byte)
      ensures Valid() && this.memory == memory && !running && !setupDone && frames == [] && udpId == 15796
    {
      this.memory := memory;
      headerBuf := new Byte[UDP_HEADERS * HEADER](_ => 0);
      headerIndex, udpId, running, setupDone, frames, skel := 0, 15796, false, false, [], [];
      dest := Dest(0, [], [], [], [], [], []);
    }

    function Bytes(at: nat, n: nat): seq<Byte> { seq(n, i requires 0 <= i < n => memory(at + i)) }

    /** Refused while frames are being sent; otherwise all headers are prepared for the destination. */
    method SetDest(d: Dest) returns (ok: bool)
      requires Valid() && d.Valid()
      modifies `setupDone, `skel, `dest, headerBuf
      ensures Valid() && (ok <==> !running)
      ensures ok ==> setupDone && skel == d.Skeleton() && dest == d && Addressed(skel, d)
      ensures ok ==> forall s: nat {:trigger SlotAt(s)} :: s < 32 ==> SlotAt(s) == skel
    {
      if running { return false; }
      var skeleton := d.Skeleton();
      for s := 0 to UDP_HEADERS
        invariant forall k: nat {:trigger SlotAt(k)} :: k < s ==> SlotAt(k) == skeleton
      {
        PrepareSlot(s, skeleton);
      }
      SkeletonAddressed(d);
      skel, dest := skeleton, d;
      setupDone := true;
      return true;
    }

    method PrepareSlot(s: nat, skeleton: seq<Byte>)
      requires s < UDP_HEADERS && headerBuf.Length == UDP_HEADERS * HEADER && |skeleton| == HEADER
      modifies headerBuf
      ensures SlotAt(s) == skeleton
      ensures forall t: nat {:trigger SlotAt(t)} :: t < UDP_HEADERS && t != s ==> SlotAt(t) == old(SlotAt(t))
    {
      forall i | 0 <= i < HEADER { headerBuf[s * HEADER + i] := skeleton[i]; }
      forall t: nat {:trigger SlotAt(t)} | t < UDP_HEADERS && t != s ensures SlotAt(t) == old(SlotAt(t)) {
        OtherSlot(s, t);
      }
    }

    method Start() returns (ok: bool)
      requires Valid()
      modifies `running
      ensures Valid() && (ok <==> setupDone) && running == (if ok then true else old(running))
    {
      if !setupDone { return false; }
      running := true;
      return true;
    }

    /** A 16-bit store into a header, most significant byte first. */
    method Store(s: nat, k: nat, value: nat)
      requires s < UDP_HEADERS && headerBuf.Length == UDP_HEADERS * HEADER && k + 1 < HEADER && value < 0x10000
      modifies headerBuf
      ensures SlotAt(s) == old(SlotAt(s))[k := value / 256][k + 1 := value % 256]
      ensures forall t: nat {:trigger SlotAt(t)} :: t < UDP_HEADERS && t != s ==> SlotAt(t) == old(SlotAt(t))
    {
      headerBuf[s * HEADER + k] := value / 256;
      headerBuf[s * HEADER + k + 1] := value % 256;
      forall t: nat {:trigger SlotAt(t)} | t < UDP_HEADERS && t != s ensures SlotAt(t) == old(SlotAt(t)) {
        OtherSlot(s, t);
      }
    }

    /** Identification and checksum of the next header. */
    method FillHeader() returns (ghost h: seq<Byte>)
      requires Valid() && setupDone
      modifies `udpId, headerBuf
      ensures Valid() && udpId == (old(udpId) + 1) % 0x10000
      ensures h == SlotAt(headerIndex) && SameButId(h, skel) && Half(h, 20) == old(udpId) && Verifies(h, 16)
    {
      assert SameButId(SlotAt(headerIndex), skel);
      Store(headerIndex, 20, udpId);
      udpId := (udpId + 1) % 0x10000;
      Store(headerIndex, 26, 0);
      ghost var b := SlotAt(headerIndex);
      var csum := FastCsum(SlotAt(headerIndex), 16);
      Store(headerIndex, 26, csum);
      h := SlotAt(headerIndex);
      SumPositive(b);
      ChecksumVerifies(b, h, 16);
    }

    /** Hands the ethernet driver a frame of a header and one or two pieces of memory. */
    method Xmit(first: nat, firstLen: nat, second: nat, secondLen: nat)
      requires Valid()
      modifies `frames
      ensures frames == old(frames)
        + [Frame(headerIndex, SlotAt(headerIndex), Bytes(first, firstLen) + Bytes(second, secondLen))]
    {
      frames := frames + [Frame(headerIndex, SlotAt(headerIndex), Bytes(first, firstLen) + Bytes(second, secondLen))];
    }

    /** What is left to send when `sent` bytes are out. */
    ghost predicate Left(stream: seq<Byte>, sent: nat, first: nat, firstLen: nat, second: nat, secondLen: nat) {
      sent <= |stream| && stream[sent..] == Bytes(first, firstLen) + Bytes(second, secondLen)
    }

    lemma Cut(stream: seq<Byte>, sent: nat, first: nat, firstLen: nat, second: nat, secondLen: nat)
      requires Left(stream, sent, first, firstLen, second, secondLen) && firstLen + secondLen >= PAYLOAD
      ensures firstLen >= PAYLOAD ==>
        stream[sent..sent + PAYLOAD] == Bytes(first, PAYLOAD) + Bytes(0, 0)
        && Left(stream, sent + PAYLOAD, first + PAYLOAD, firstLen - PAYLOAD, second, secondLen)
      ensures firstLen < PAYLOAD ==>
        var n := PAYLOAD - firstLen;
        stream[sent..sent + PAYLOAD] == Bytes(first, firstLen) + Bytes(second, n)
        && Left(stream, sent + PAYLOAD, first, 0, second + n, secondLen - n)
    {
      var rest := Bytes(first, firstLen) + Bytes(second, secondLen);
      assert stream[sent..sent + PAYLOAD] == rest[..PAYLOAD];
      assert stream[sent + PAYLOAD..] == rest[PAYLOAD..];
    }

    /** One frame, from the first part if it holds a payload, otherwise from its rest and the second part. */
    method SendOne(first0: nat, firstLen0: nat, second0: nat, secondLen0: nat, ghost stream: seq<Byte>, ghost sent: nat)
      returns (first: nat, firstLen: nat, second: nat, secondLen: nat, ghost f: Frame)
      requires Valid() && setupDone
      requires Left(stream, sent, first0, firstLen0, second0, secondLen0) && firstLen0 + secondLen0 >= PAYLOAD
      modifies `udpId, `frames, headerBuf
      ensures Valid() && frames == old(frames) + [f] && udpId == (old(udpId) + 1) % 0x10000
      ensures Good(f, skel, headerIndex, old(udpId), 0) && f.payload == stream[sent..sent + PAYLOAD]
      ensures firstLen + secondLen == firstLen0 + secondLen0 - PAYLOAD
      ensures Left(stream, sent + PAYLOAD, first, firstLen, second, secondLen)
    {
      first, firstLen, second, secondLen := first0, firstLen0, second0, secondLen0;
      Cut(stream, sent, first, firstLen, second, secondLen);
      ghost var h := FillHeader();
      f := Frame(headerIndex, h, stream[sent..sent + PAYLOAD]);
      if firstLen >= PAYLOAD {
        Xmit(first, PAYLOAD, 0, 0);
        first := first + PAYLOAD;
        firstLen := firstLen - PAYLOAD;
      } else {
        var sLen := PAYLOAD - firstLen;
        Xmit(first, firstLen, second, sLen);
        second := second + sLen;
        secondLen := secondLen - sLen;
        firstLen := 0;
      }
      if firstLen == 0 {
        assert Bytes(first, 0) + Bytes(second, secondLen) == Bytes(second, secondLen) + Bytes(0, 0);
        firstLen, first := secondLen, second;
        secondLen, second := 0, 0;
      }
    }

    /** n frames after this slot and identification. */
    ghost predicate Counted(slot: nat, id: nat, n: nat)
      reads this
    {
      headerIndex == (slot + n) % UDP_HEADERS && udpId == (id + n) % 0x10000
    }

    /** What has been sent of a stream since `before`, from this slot and identification on. */
    ghost predicate Progress(stream: seq<Byte>, sent: nat, fs: seq<Frame>, before: seq<Frame>, slot: nat, id: nat)
      reads this, headerBuf
    {
      Valid() && setupDone && frames == before + fs && sent == |fs| * PAYLOAD && sent <= |stream|
      && Payloads(fs) == stream[..sent] && AllGood(fs, skel, slot, id) && Counted(slot, id, |fs|)
    }

    method SendNext(first0: nat, firstLen0: nat, second0: nat, secondLen0: nat,
                    ghost stream: seq<Byte>, ghost sent: nat,
                    ghost fs: seq<Frame>, ghost before: seq<Frame>, ghost slot: nat, ghost id: nat)
      returns (first: nat, firstLen: nat, second: nat, secondLen: nat, ghost f: Frame)
      requires Progress(stream, sent, fs, before, slot, id)
      requires Left(stream, sent, first0, firstLen0, second0, secondLen0) && firstLen0 + secondLen0 >= PAYLOAD
      modifies `headerIndex, `udpId, `frames, headerBuf
      ensures Progress(stream, sent + PAYLOAD, fs + [f], before, slot, id) && skel == old(skel)
      ensures firstLen + secondLen == firstLen0 + secondLen0 - PAYLOAD
      ensures Left(stream, sent + PAYLOAD, first, firstLen, second, secondLen)
    {
      LeftFits(stream, sent, first0, firstLen0, second0, secondLen0);
      first, firstLen, second, secondLen, f := SendOne(first0, firstLen0, second0, secondLen0, stream, sent);
      PayloadsNext(fs, f, stream, sent);
      GoodNext(fs, f, skel, slot, id);
      CountOn(slot + |fs|, id + |fs|);
      headerIndex := (headerIndex + 1) % UDP_HEADERS;
    }

    lemma LeftFits(stream: seq<Byte>, sent: nat, first: nat, firstLen: nat, second: nat, secondLen: nat)
      requires Left(stream, sent, first, firstLen, second, secondLen)
      ensures sent + firstLen + secondLen == |stream|
    {
      assert |stream[sent..]| == firstLen + secondLen;
    }

    /** As many whole payloads as the two parts hold together are sent, in order and without a gap. */
    method Send(first0: nat, firstLen0: nat, second0: nat, secondLen0: nat)
      returns (sent: nat, ghost fs: seq<Frame>)
      requires Valid() && setupDone && firstLen0 + secondLen0 < WORD
      modifies `headerIndex, `udpId, `frames, headerBuf
      ensures Valid() && frames == old(frames) + fs
      ensures |fs| == (firstLen0 + secondLen0) / 1316 && sent == |fs| * 1316
      ensures Addressed(skel, dest) ==> forall k :: 0 <= k < |fs| ==> Addressed(fs[k].header, dest)
      ensures forall k :: 0 <= k < |fs| ==> |fs[k].payload| == 1316
      ensures Payloads(fs) == (Bytes(first0, firstLen0) + Bytes(second0, secondLen0))[..sent]
      ensures AllGood(fs, skel, old(headerIndex), old(udpId))
      ensures Counted(old(headerIndex), old(udpId), |fs|)
    {
      var first: nat, firstLen: nat, second: nat, secondLen: nat := first0, firstLen0, second0, secondLen0;
      var len: nat := firstLen + secondLen;
      sent, fs := 0, [];
      ghost var stream, slot, id := Bytes(first, firstLen) + Bytes(second, secondLen), headerIndex, udpId;
      assert stream[0..] == stream && stream[..0] == [];
      if len < PAYLOAD { return 0, []; }
      while len >= PAYLOAD
        invariant len == firstLen + secondLen && sent + len == |stream|
        invariant Progress(stream, sent, fs, old(frames), slot, id)
        invariant Left(stream, sent, first, firstLen, second, secondLen)
      {
        ghost var f := Frame(0, [], []);
        first, firstLen, second, secondLen, f :=
          SendNext(first, firstLen, second, secondLen, stream, sent, fs, old(frames), slot, id);
        fs, len, sent := fs + [f], len - PAYLOAD, sent + PAYLOAD;
      }
      Whole(|stream|, |fs|);
      AllAddressed(fs, skel, slot, id, dest);
    }
  }

  ghost predicate AllGood(fs: seq<Frame>, skel: seq<Byte>, slot: nat, id: nat) {
    forall k :: 0 <= k < |fs| ==> Good(fs[k], skel, slot, id, k)
  }

  lemma AllAddressed(fs: seq<Frame>, skel: seq<Byte>, slot: nat, id: nat, d: Dest)
    requires AllGood(fs, skel, slot, id)
    ensures Addressed(skel, d) ==> forall k :: 0 <= k < |fs| ==> Addressed(fs[k].header, d)
    ensures forall k :: 0 <= k < |fs| ==> |fs[k].payload| == 1316
  {
    if Addressed(skel, d) {
      forall k | 0 <= k < |fs| ensures Addressed(fs[k].header, d) { StillAddressed(fs[k].header, skel, d); }
    }
  }

  lemma SkeletonAddressed(d: Dest)
    requires d.Valid()
    ensures Addressed(d.Skeleton(), d) && Fixed(d.Skeleton())
  {
  }

  lemma PayloadsNext(fs: seq<Frame>, f: Frame, stream: seq<Byte>, sent: nat)
    requires sent + PAYLOAD <= |stream| && Payloads(fs) == stream[..sent] && f.payload == stream[sent..sent + PAYLOAD]
    ensures Payloads(fs + [f]) == stream[..sent + PAYLOAD]
  {
    assert (fs + [f])[..|fs|] == fs;
    assert stream[..sent] + stream[sent..sent + PAYLOAD] == stream[..sent + PAYLOAD];
  }

  lemma Whole(total: nat, n: nat)
    requires n * PAYLOAD <= total < (n + 1) * PAYLOAD
    ensures total / PAYLOAD == n
  {
  }

  lemma CountOn(slot: nat, id: nat)
    ensures (slot % UDP_HEADERS + 1) % UDP_HEADERS == (slot + 1) % UDP_HEADERS
    ensures (id % 0x10000 + 1) % 0x10000 == (id + 1) % 0x10000
  {
  }

  lemma GoodNext(fs: seq<Frame>, f: Frame, skel: seq<Byte>, slot: nat, id: nat)
    requires AllGood(fs, skel, slot, id)
    requires Good(f, skel, (slot + |fs|) % UDP_HEADERS, (id + |fs|) % 0x10000, 0)
    ensures AllGood(fs + [f], skel, slot, id)
  {
  }

  lemma OtherSlot(s: nat, t: nat)
    requires s != t
    ensures s * HEADER + HEADER <= t * HEADER || t * HEADER + HEADER <= s * HEADER
  {
  }

  lemma SumPositive(h: seq<Byte>)
    requires |h| == HEADER && h[16] == 0x45
    ensures WordSum(h, 16, IP_WORDS) > 0
  {
    SumAtLeast(h, IP_WORDS);
  }

  lemma {:induction false} SumAtLeast(h: seq<Byte>, n: nat)
    requires |h| == HEADER && 0 < n <= 10
    ensures WordSum(h, 16, n) >= Half(h, 16)
  {
    if n > 1 { SumAtLeast(h, n - 1); } else { assert WordSum(h, 16, 0) == 0; }
  }
}
