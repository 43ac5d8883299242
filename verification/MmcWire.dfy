/** Block transfers edge by edge: what the driver puts on the wires, bit for bit, and when it gives up. */
module MmcWire {
  import opened Common
  import opened SpiWire
  import opened MmcPort
  import opened MmcBlocks

  // ---------------------------------------------------------------- bytes as clock edges, written out

  /** The eight clock edges of a byte, most significant bit first. */
  function EdgesOf(b: Byte): History {
    [Rise(b / 128 % 2 == 1), Rise(b / 64 % 2 == 1), Rise(b / 32 % 2 == 1), Rise(b / 16 % 2 == 1),
     Rise(b / 8 % 2 == 1), Rise(b / 4 % 2 == 1), Rise(b / 2 % 2 == 1), Rise(b % 2 == 1)]
  }

  function EdgesAll(bytes: seq<Byte>): History
    decreases |bytes|
  {
    if bytes == [] then [] else EdgesAll(bytes[..|bytes| - 1]) + EdgesOf(bytes[|bytes| - 1])
  }

  /** n bytes 0xFF. */
  function Ones(n: nat): seq<Byte> { seq(n, _ => 0xFF) }

  lemma ByteSent(h: History, b: Byte)
    ensures Sent(h, b) == h + EdgesOf(b)
  {
    SameEdges(b);
  }

  /** The idle byte keeps the data line high. */
  lemma IdleEdges()
    ensures EdgesOf(0xFF) == seq(8, _ => Rise(true))
  {
  }

  lemma {:induction false} BytesSent(h: History, bytes: seq<Byte>)
    ensures SentAll(h, bytes) == h + EdgesAll(bytes)
    decreases |bytes|
  {
    if bytes != [] {
      BytesSent(h, bytes[..|bytes| - 1]);
      ByteSent(SentAll(h, bytes[..|bytes| - 1]), bytes[|bytes| - 1]);
    }
  }

  lemma BytesPolled(h: History, n: nat)
    ensures Polled(h, n) == h + EdgesAll(Ones(n))
  {
    PolledIsSent(h, n);
    BytesSent(h, Idle(n));
    assert Idle(n) == Ones(n);
  }

  /** The bits of the byte received are the levels of the answer line after each edge, most significant first. */
  lemma AnswerBits(card: Card, h: History, b: Byte)
    ensures var a, e := Answer(card, h, b), EdgesOf(b);
      && (a / 128 % 2 == 1 <==> card(h + e[..1])) && (a / 64 % 2 == 1 <==> card(h + e[..2]))
      && (a / 32 % 2 == 1 <==> card(h + e[..3])) && (a / 16 % 2 == 1 <==> card(h + e[..4]))
      && (a / 8 % 2 == 1 <==> card(h + e[..5])) && (a / 4 % 2 == 1 <==> card(h + e[..6]))
      && (a / 2 % 2 == 1 <==> card(h + e[..7])) && (a % 2 == 1 <==> card(h + e[..8]))
  {
    SameEdges(b);
    Weights(Sampled(card, h, b));
  }

  lemma SameEdges(b: Byte)
    ensures Rises(b) == EdgesOf(b)
  {
    forall k: nat | k < 8 ensures Rises(b)[k] == EdgesOf(b)[k] { }
  }

  /** A sum of different powers of two tells which ones it has. */
  lemma Weights(s: seq<bool>)
    requires |s| == 8
    ensures var a := Pack(s);
      && (a / 128 % 2 == 1 <==> s[0]) && (a / 64 % 2 == 1 <==> s[1]) && (a / 32 % 2 == 1 <==> s[2])
      && (a / 16 % 2 == 1 <==> s[3]) && (a / 8 % 2 == 1 <==> s[4]) && (a / 4 % 2 == 1 <==> s[5])
      && (a / 2 % 2 == 1 <==> s[6]) && (a % 2 == 1 <==> s[7])
  {
    Shift(s);
    Quarter(s, 4);
    Quarter(s, 0);
    DivTwice(Pack(s), 16, 2); DivTwice(Pack(s), 16, 4); DivTwice(Pack(s), 16, 8); DivTwice(Pack(s), 16, 16);
    assert Shifted(s, 0) == 0;
  }

  /** Four bits off the end of what has been shifted in. */
  lemma Quarter(s: seq<bool>, k: nat)
    requires |s| == 8 && k <= 4
    ensures var x := Shifted(s, k + 4);
      && (x / 8 % 2 == 1 <==> s[k]) && (x / 4 % 2 == 1 <==> s[k + 1]) && (x / 2 % 2 == 1 <==> s[k + 2])
      && (x % 2 == 1 <==> s[k + 3]) && x / 16 == Shifted(s, k)
  {
    LastBit(s, k); LastBit(s, k + 1); LastBit(s, k + 2); LastBit(s, k + 3);
    var x := Shifted(s, k + 4);
    DivTwice(x, 2, 2); DivTwice(x, 4, 2); DivTwice(x, 8, 2);
  }

  lemma LastBit(s: seq<bool>, k: nat)
    requires |s| == 8 && k < 8
    ensures Shifted(s, k + 1) / 2 == Shifted(s, k) && (Shifted(s, k + 1) % 2 == 1 <==> s[k])
  {
  }

  // ---------------------------------------------------------------- polling

  /** The first n answers to idle bytes after h are not the wanted one. */
  ghost predicate NotYet(card: Card, h: History, want: Byte, n: nat) {
    forall i: nat :: i < n ==> Answer(card, h + EdgesAll(Ones(i)), 0xFF) != want
  }

  /** The n-th answer to idle bytes after h is the first one wanted. */
  ghost predicate FirstAt(card: Card, h: History, want: Byte, n: nat) {
    n > 0 && NotYet(card, h, want, n - 1) && Answer(card, h + EdgesAll(Ones(n - 1)), 0xFF) == want
  }

  /** The polling has clocked n idle bytes: up to the first one answered as wanted, or up to the limit. */
  ghost predicate PolledTo(card: Card, h: History, want: Byte, limit: nat, a: Awaited, n: nat) {
    && 1 <= n <= limit && a.wire == h + EdgesAll(Ones(n)) && (!a.found ==> n == limit)
    && if a.found then FirstAt(card, h, want, n) else NotYet(card, h, want, n)
  }

  lemma {:induction false} Polls(card: Card, h: History, want: Byte, limit: nat) returns (n: nat)
    requires limit > 0
    ensures PolledTo(card, h, want, limit, Await(card, h, want, limit), n)
    decreases limit
  {
    n := 1;
    if Answer(card, h, 0xFF) == want || limit == 1 {
      LastPoll(card, h, want, limit);
    } else {
      var m := Polls(card, Sent(h, 0xFF), want, limit - 1);
      n := m + 1;
      PollsOn(card, h, want, limit, Await(card, Sent(h, 0xFF), want, limit - 1), m);
    }
  }

  lemma LastPoll(card: Card, h: History, want: Byte, limit: nat)
    requires limit > 0 && (Answer(card, h, 0xFF) == want || limit == 1)
    ensures PolledTo(card, h, want, limit, Await(card, h, want, limit), 1)
  {
    Nothing(h);
    FirstOne(h, 1);
    Nothing(Sent(h, 0xFF));
    assert Await(card, Sent(h, 0xFF), want, 0) == Awaited(false, Sent(h, 0xFF));
  }

  lemma PollsOn(card: Card, h: History, want: Byte, limit: nat, a: Awaited, m: nat)
    requires limit > 1 && Answer(card, h, 0xFF) != want && PolledTo(card, Sent(h, 0xFF), want, limit - 1, a, m)
    ensures PolledTo(card, h, want, limit, a, m + 1)
  {
    FirstOne(h, m + 1);
    OneMoreNot(card, h, want, if a.found then m - 1 else m);
    FirstOne(h, m);
  }

  lemma Nothing(h: History)
    ensures h + EdgesAll(Ones(0)) == h
  {
  }

  lemma OneMoreNot(card: Card, h: History, want: Byte, n: nat)
    requires Answer(card, h, 0xFF) != want && NotYet(card, Sent(h, 0xFF), want, n)
    ensures NotYet(card, h, want, n + 1)
  {
    forall i: nat | i < n + 1 ensures Answer(card, h + EdgesAll(Ones(i)), 0xFF) != want {
      if i == 0 { Nothing(h); } else { FirstOne(h, i); }
    }
  }

  lemma FirstOne(h: History, n: nat)
    requires n > 0
    ensures h + EdgesAll(Ones(n)) == Sent(h, 0xFF) + EdgesAll(Ones(n - 1))
  {
    BytesPolled(h, n);
    PolledAdd(h, 1, n - 1);
    BytesPolled(Sent(h, 0xFF), n - 1);
    assert Polled(h, 0) == h && Polled(h, 1) == Sent(h, 0xFF);
  }

  // ---------------------------------------------------------------- whole transfers

  /** After the last byte the card is deselected and gets eight more edges with the data line high. */
  lemma Ends(h: History)
    ensures Deselected(h) == h + [Select(true)] + seq(8, _ => Rise(true))
  {
    ByteSent(h + [Select(true)], 0xFF);
    IdleEdges();
  }

  /** The card is selected and gets four idle bytes and a six-byte command. */
  lemma Begins(h: History, op: Byte, addr: nat)
    ensures Commanded(h, op, addr) == h + [Select(false)] + EdgesAll([0xFF, 0xFF, 0xFF, 0xFF])
      + EdgesAll([op, addr / 0x100_0000 % 256, addr / 0x1_0000 % 256, addr / 0x100 % 256, addr % 256, 0xFF])
  {
    BytesPolled(h + [Select(false)], 4);
    assert Ones(4) == [0xFF, 0xFF, 0xFF, 0xFF];
    BytesSent(Polled(h + [Select(false)], 4),
              [op, addr / 0x100_0000 % 256, addr / 0x1_0000 % 256, addr / 0x100 % 256, addr % 256, 0xFF]);
  }

  /** A block write from select to release, in full: `asked` polls for the response and `waited` for the end of busy. */
  lemma WriteWire(card: Card, h: History, addr: nat, data: seq<Byte>) returns (asked: nat, waited: nat)
    ensures var r := WriteOutcome(card, h, addr, data);
      var c := h + [Select(false)] + EdgesAll([0xFF, 0xFF, 0xFF, 0xFF])
        + EdgesAll([0x58, addr / 0x100_0000 % 256, addr / 0x1_0000 % 256, addr / 0x100 % 256, addr % 256, 0xFF]);
      var d := c + EdgesAll(Ones(asked)) + EdgesAll([0xFE] + data + [0xFF, 0xFF]);
      && 1 <= asked <= 8 && 1 <= waited <= 1000000 && r.code in {0, 1, 3}
      && (r.code == 1 <==> NotYet(card, c, 0x00, 8))
      && (r.code == 1 ==> asked == 8)
      && (r.code == 1 ==> r.wire == c + EdgesAll(Ones(asked)) + [Select(true)] + seq(8, _ => Rise(true)))
      && (r.code != 1 ==> FirstAt(card, c, 0x00, asked))
      && (r.code != 1 ==> r.wire == d + EdgesAll(Ones(waited)) + [Select(true)] + seq(8, _ => Rise(true)))
      && (r.code == 3 ==> waited == 1000000 && NotYet(card, d, 0xFF, 1000000))
      && (r.code == 0 ==> FirstAt(card, d, 0xFF, waited))
  {
    Begins(h, 0x58, addr);
    var c := Commanded(h, 0x58, addr);
    var r1 := Await(card, c, 0x00, RESPONSE_POLLS);
    asked := Polls(card, c, 0x00, RESPONSE_POLLS);
    waited := 1;
    Ends(r1.wire);
    if r1.found {
      var d := SentAll(r1.wire, [0xFE] + data + [0xFF, 0xFF]);
      BytesSent(r1.wire, [0xFE] + data + [0xFF, 0xFF]);
      waited := Polls(card, d, 0xFF, BUSY_POLLS);
      Ends(Await(card, d, 0xFF, BUSY_POLLS).wire);
    }
  }

  /** A block read likewise: `waited` polls for the data token, 512 data bytes as they are answered, and two bytes of
      CRC. */
  lemma ReadWire(card: Card, h: History, addr: nat) returns (asked: nat, waited: nat)
    ensures var r := ReadOutcome(card, h, addr);
      var c := h + [Select(false)] + EdgesAll([0xFF, 0xFF, 0xFF, 0xFF])
        + EdgesAll([0x51, addr / 0x100_0000 % 256, addr / 0x1_0000 % 256, addr / 0x100 % 256, addr % 256, 0xFF]);
      var d := c + EdgesAll(Ones(asked));
      && 1 <= asked <= 8 && 1 <= waited <= 100000 && r.code in {0, 1, 2}
      && (r.code == 1 <==> NotYet(card, c, 0x00, 8))
      && (r.code == 1 ==> asked == 8 && r.wire == d + [Select(true)] + seq(8, _ => Rise(true)))
      && (r.code != 1 ==> FirstAt(card, c, 0x00, asked))
      && (r.code == 2 ==> waited == 100000 && NotYet(card, d, 0xFE, 100000))
      && (r.code == 2 ==> r.wire == d + EdgesAll(Ones(waited)) + [Select(true)] + seq(8, _ => Rise(true)))
      && (r.code == 0 ==> FirstAt(card, d, 0xFE, waited) && DataAre(card, d + EdgesAll(Ones(waited)), r.data))
      && (r.code == 0 ==>
            r.wire == d + EdgesAll(Ones(waited)) + EdgesAll(Ones(514)) + [Select(true)] + seq(8, _ => Rise(true)))
  {
    Begins(h, 0x51, addr);
    var c := Commanded(h, 0x51, addr);
    var r1 := Await(card, c, 0x00, RESPONSE_POLLS);
    asked := Polls(card, c, 0x00, RESPONSE_POLLS);
    waited := 1;
    Ends(r1.wire);
    if r1.found {
      var token := Await(card, r1.wire, 0xFE, TOKEN_POLLS);
      waited := Polls(card, r1.wire, 0xFE, TOKEN_POLLS);
      Ends(token.wire);
      BytesPolled(token.wire, 514);
      Ends(Polled(token.wire, 514));
      forall i: nat | i < 512
        ensures Received(card, token.wire, 512)[i] == Answer(card, token.wire + EdgesAll(Ones(i)), 0xFF)
      {
        ReceivedAt(card, token.wire, 512, i);
        BytesPolled(token.wire, i);
      }
    }
  }

  /** 512 bytes, each what the card answers to the idle byte at its place. */
  ghost predicate DataAre(card: Card, h: History, data: seq<Byte>) {
    |data| == 512 && forall i: nat :: i < 512 ==> data[i] == Answer(card, h + EdgesAll(Ones(i)), 0xFF)
  }

  lemma {:induction false} ReceivedAt(card: Card, h: History, n: nat, i: nat)
    requires i < n
    ensures Received(card, h, n)[i] == Answer(card, Polled(h, i), 0xFF)
  {
    if i < n - 1 { ReceivedAt(card, h, n - 1, i); }
  }
}
