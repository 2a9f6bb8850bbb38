/** apps/lms/lms_protocol.c: the SlimProto framer, a two-byte big-endian length before each packet. */
module SlimFramer {
  import opened Common
  import opened ByteStream

  const PACKET_MIN := 4
  const PACKET_MAX := 2048

  // The parser, the packets handed to the callback so far, and the first error.
  datatype Framer = Framer(prefix: seq<byte>, packet: seq<byte>, expected: nat, failed: bool, log: seq<seq<byte>>, rc: int)

  // The callback is foreign: its result may depend on everything it was told.
  type Reply = seq<seq<byte>> -> int

  const START: Framer := Framer([], [], 0, false, [], OK)

  ghost predicate Sane(p: Framer) {
    && |p.prefix| <= 2 && p.failed == (p.rc != OK)
    && (|p.prefix| < 2 ==> p.packet == [] && p.expected == 0)
    && (!p.failed && |p.prefix| == 2 ==> PACKET_MIN <= p.expected <= PACKET_MAX && |p.packet| < p.expected)
  }

  function OnPrefix(p: Framer, b: byte): Framer
    requires |p.prefix| < 2
  {
    var prefix := p.prefix + [b];
    if |prefix| < 2 then p.(prefix := prefix)
    else
      var expected := prefix[0] as nat * 256 + prefix[1] as nat;
      if expected < PACKET_MIN || expected > PACKET_MAX then p.(prefix := prefix, expected := expected, failed := true, rc := INVALID)
      else p.(prefix := prefix, expected := expected)
  }

  function Deliver(reply: Reply, p: Framer): Framer {
    var log := p.log + [p.packet];
    Framer([], [], 0, reply(log) != OK, log, reply(log))
  }

  function OnPacket(reply: Reply, p: Framer, bytes: seq<byte>): Framer {
    var q := p.(packet := p.packet + bytes);
    if |q.packet| == q.expected then Deliver(reply, q) else q
  }

  // One byte of input; a failed parser takes no more.
  function Step(reply: Reply, p: Framer, b: byte): (q: Framer)
    requires Sane(p)
    ensures Sane(q)
  {
    if p.failed then p
    else if |p.prefix| < 2 then OnPrefix(p, b)
    else OnPacket(reply, p, [b])
  }

  function Feed(reply: Reply, p: Framer, data: seq<byte>): (q: Framer)
    requires Sane(p)
    ensures Sane(q)
    decreases |data|
  {
    if data == [] then p else Feed(reply, Step(reply, p, data[0]), data[1..])
  }

  // Chunk boundaries do not matter: same packets, same first error, same end state.
  lemma {:induction false} FeedConcat(reply: Reply, p: Framer, a: seq<byte>, b: seq<byte>)
    requires Sane(p)
    ensures Feed(reply, p, a + b) == Feed(reply, Feed(reply, p, a), b)
    decreases |a|
  {
    hide Step, Sane;
    if a == [] {
      assert a + b == b;
    } else {
      FeedConcat(reply, Step(reply, p, a[0]), a[1..], b);
      assert (a + b)[1..] == a[1..] + b;
    }
  }

  lemma {:induction false} FeedFailed(reply: Reply, p: Framer, data: seq<byte>)
    requires Sane(p) && p.failed
    ensures Feed(reply, p, data) == p
    decreases |data|
  {
    if data != [] {
      FeedFailed(reply, p, data[1..]);
    }
  }

  // Several packet bytes at once.
  lemma {:induction false} FeedRun(reply: Reply, p: Framer, data: seq<byte>)
    requires Sane(p) && !p.failed && |p.prefix| == 2 && data != [] && |p.packet| + |data| <= p.expected
    ensures Feed(reply, p, data) == OnPacket(reply, p, data)
    decreases |data|
  {
    hide Deliver;
    assert data == [data[0]] + data[1..];
    if |data| > 1 {
      var q := Step(reply, p, data[0]);
      FeedRun(reply, q, data[1..]);
      assert q.packet + data[1..] == p.packet + data;
    } else {
      var q := Step(reply, p, data[0]);
      assert data[1..] == [] && data == [data[0]] && q == OnPacket(reply, p, data);
      assert Feed(reply, q, data[1..]) == q;
    }
  }

  lemma FeedTake(reply: Reply, p: Framer, data: seq<byte>, take: nat)
    requires Sane(p) && !p.failed && |p.prefix| == 2 && 0 < take <= |data| && |p.packet| + take <= p.expected
    ensures Sane(OnPacket(reply, p, data[..take])) && Feed(reply, p, data) == Feed(reply, OnPacket(reply, p, data[..take]), data[take..])
  {
    hide OnPacket, Sane, Step;
    FeedRun(reply, p, data[..take]);
    FeedConcat(reply, p, data[..take], data[take..]);
    assert data == data[..take] + data[take..];
  }

  lemma FeedFirst(reply: Reply, p: Framer, data: seq<byte>)
    requires Sane(p) && !p.failed && |p.prefix| < 2 && data != []
    ensures Sane(OnPrefix(p, data[0])) && Feed(reply, p, data) == Feed(reply, OnPrefix(p, data[0]), data[1..])
  {
  }

  lemma OnNothing(reply: Reply, p: Framer)
    requires Sane(p) && !p.failed && |p.prefix| == 2
    ensures OnPacket(reply, p, []) == p
  {
    assert p.packet + [] == p.packet;
  }

  // What a server sends: the length of each packet, then the packet.
  function Framed(packet: seq<byte>): (r: seq<byte>)
    ensures |r| == |packet| + 2
  {
    [(|packet| / 256 % 256) as byte, (|packet| % 256) as byte] + packet
  }

  function FramedAll(packets: seq<seq<byte>>): seq<byte>
    decreases |packets|
  {
    if packets == [] then [] else Framed(packets[0]) + FramedAll(packets[1..])
  }

  // Packets handed over one after another until a callback fails.
  function HandAll(reply: Reply, log: seq<seq<byte>>, packets: seq<seq<byte>>): Framer
    decreases |packets|
  {
    if packets == [] then Framer([], [], 0, false, log, OK)
    else
      var log' := log + [packets[0]];
      if reply(log') != OK then Framer([], [], 0, true, log', reply(log')) else HandAll(reply, log', packets[1..])
  }

  lemma PrefixBytes(n: nat)
    requires n < 0x1_0000
    ensures ((n / 256 % 256) as byte) as nat * 256 + ((n % 256) as byte) as nat == n
  {
    ByteRoundTrip(n / 256);
    ByteRoundTrip(n % 256);
  }

  // The two bytes of a length that is in range.
  lemma TwoPrefixBytes(log: seq<seq<byte>>, packet: seq<byte>)
    requires PACKET_MIN <= |packet| <= PACKET_MAX
    ensures var p := OnPrefix(START.(log := log), Framed(packet)[0]);
      Sane(p) && !p.failed && |p.prefix| == 1
      && OnPrefix(p, Framed(packet)[1]) == START.(log := log, prefix := Framed(packet)[..2], expected := |packet|)
  {
    PrefixBytes(|packet|);
    assert [] + [Framed(packet)[0]] + [Framed(packet)[1]] == Framed(packet)[..2];
  }

  lemma FeedPrefix(reply: Reply, log: seq<seq<byte>>, packet: seq<byte>, rest: seq<byte>)
    requires PACKET_MIN <= |packet| <= PACKET_MAX
    ensures var q := START.(log := log, prefix := Framed(packet)[..2], expected := |packet|);
      Sane(q) && Feed(reply, START.(log := log), Framed(packet) + rest) == Feed(reply, q, packet + rest)
  {
    hide OnPacket, OnPrefix, Step, Feed;
    var p, w := START.(log := log), Framed(packet) + rest;
    TwoPrefixBytes(log, packet);
    FeedFirst(reply, p, w);
    FeedFirst(reply, OnPrefix(p, w[0]), w[1..]);
    assert w[1..][1..] == packet + rest;
  }

  // One whole packet.
  lemma FeedFramed(reply: Reply, log: seq<seq<byte>>, packet: seq<byte>, rest: seq<byte>)
    requires PACKET_MIN <= |packet| <= PACKET_MAX
    ensures var t := HandAll(reply, log, [packet]);
      Sane(t) && Feed(reply, START.(log := log), Framed(packet) + rest) == Feed(reply, t, rest)
  {
    hide Step, Framed, Feed;
    FeedPrefix(reply, log, packet, rest);
    var q := START.(log := log, prefix := Framed(packet)[..2], expected := |packet|);
    assert (packet + rest)[..|packet|] == packet && (packet + rest)[|packet|..] == rest && [] + packet == packet;
    FeedTake(reply, q, packet + rest, |packet|);
    assert [packet][1..] == [];
  }

  /** Every packet the server framed is handed over once and in order, however the stream was cut. */
  lemma {:induction false} PacketsAreDelivered(reply: Reply, log: seq<seq<byte>>, packets: seq<seq<byte>>)
    requires forall packet :: packet in packets ==> PACKET_MIN <= |packet| <= PACKET_MAX
    ensures Feed(reply, START.(log := log), FramedAll(packets)) == HandAll(reply, log, packets)
    decreases |packets|
  {
    hide Step, Framed, Sane;
    if packets != [] {
      var log' := log + [packets[0]];
      FeedFramed(reply, log, packets[0], FramedAll(packets[1..]));
      assert HandAll(reply, log, [packets[0]]) == Framer([], [], 0, reply(log') != OK, log', reply(log')) by { assert [packets[0]][1..] == []; }
      if reply(log') == OK {
        PacketsAreDelivered(reply, log', packets[1..]);
      } else {
        FeedFailed(reply, HandAll(reply, log, [packets[0]]), FramedAll(packets[1..]));
      }
    }
  }

  function FeedChunks(reply: Reply, p: Framer, chunks: seq<seq<byte>>): Framer
    requires Sane(p)
    decreases |chunks|
  {
    if chunks == [] then p else FeedChunks(reply, Feed(reply, p, chunks[0]), chunks[1..])
  }

  lemma {:induction false} ChunksDoNotMatter(reply: Reply, p: Framer, chunks: seq<seq<byte>>)
    requires Sane(p)
    ensures FeedChunks(reply, p, chunks) == Feed(reply, p, Concat(chunks))
    decreases |chunks|
  {
    hide Step;
    if chunks != [] {
      ChunksDoNotMatter(reply, Feed(reply, p, chunks[0]), chunks[1..]);
      FeedConcat(reply, p, chunks[0], Concat(chunks[1..]));
    }
  }

  /** A length outside 4 to 2048 stops the parser before any byte of the packet. */
  lemma BadLengthStops(reply: Reply, log: seq<seq<byte>>, high: byte, low: byte, rest: seq<byte>)
    requires var n := 256 * high as nat + low as nat; n < 4 || n > 2048
    ensures var p := Framer([], [], 0, false, log, OK);
      var q := Feed(reply, p, [high, low] + rest); q.failed && q.rc == INVALID && q.log == log
  {
    hide Feed;
    var p := Framer([], [], 0, false, log, OK);
    var data := [high, low] + rest;
    FeedFirst(reply, p, data);
    var p1 := Step(reply, p, high);
    assert data[1..] == [low] + rest;
    FeedFirst(reply, p1, data[1..]);
    assert data[1..][1..] == rest;
    FeedFailed(reply, Step(reply, p1, low), rest);
  }

  /** eaf_lms_parser_t; `first` records the first error it returned. */
  class Parser {
    const packet: array<byte>
    var prefix: seq<byte>
    var used: nat
    var expected: nat
    var failed: bool
    var log: seq<seq<byte>>
    ghost var first: int

    ghost predicate Shaped()
      reads this
    {
      packet.Length == PACKET_MAX && used <= PACKET_MAX
    }

    ghost function View(): Framer
      reads this, packet
      requires Shaped()
    {
      Framer(prefix, packet[..used], expected, failed, log, first)
    }

    ghost predicate Valid()
      reads this, packet
    {
      Shaped() && Sane(View())
    }

    constructor ()
      ensures Valid() && View() == START
    {
      packet := new byte[PACKET_MAX];
      prefix, used, expected, failed, log, first := [], 0, 0, false, [], OK;
    }

    method TakePrefix(b: byte) returns (rc: int)
      requires Valid() && !failed && |prefix| < 2
      modifies this
      ensures Valid() && View() == OnPrefix(old(View()), b) && rc == first
    {
      rc := OK;
      prefix := prefix + [b];
      if |prefix| == 2 {
        expected := prefix[0] as nat * 256 + prefix[1] as nat;
        if expected < PACKET_MIN || expected > PACKET_MAX {
          failed, first := true, INVALID;
          rc := INVALID;
        }
      }
    }

    method TakePacket(bytes: seq<byte>, reply: Reply) returns (rc: int)
      requires Valid() && !failed && |prefix| == 2 && used + |bytes| <= expected
      modifies this, packet
      ensures Valid() && View() == OnPacket(reply, old(View()), bytes) && rc == first
    {
      forall i | 0 <= i < |bytes| {
        packet[used + i] := bytes[i];
      }
      assert packet[..used + |bytes|] == old(packet[..used]) + bytes;
      used := used + |bytes|;
      rc := OK;
      if used == expected {
        log := log + [packet[..used]];
        rc := reply(log);
        prefix, used, expected := [], 0, 0;
        assert packet[..0] == [];
        if rc != OK {
          failed, first := true, rc;
        }
      }
    }

    // One turn of the receive loop.
    method Advance(data: seq<byte>, start: nat, reply: Reply) returns (rc: int, next: nat)
      requires Valid() && !failed && start < |data|
      modifies this, packet
      ensures Valid() && start < next <= |data| && rc == first
      ensures Feed(reply, old(View()), data[start..]) == Feed(reply, View(), data[next..])
    {
      hide OnPacket, OnPrefix;
      next := start;
      if |prefix| < 2 {
        FeedFirst(reply, View(), data[next..]);
        assert data[next..][1..] == data[next + 1..];
        rc := TakePrefix(data[next]);
        next := next + 1;
        if rc != OK || |prefix| < 2 {
          return;
        }
      }
      var take := expected - used;
      if take > |data| - next {
        take := |data| - next;
      }
      assert data[next..][..take] == data[next..next + take] && data[next..][take..] == data[next + take..];
      if take > 0 {
        FeedTake(reply, View(), data[next..], take);
      } else {
        OnNothing(reply, View());
      }
      rc := TakePacket(data[next..next + take], reply);
      next := next + take;
    }

    // eaf_lms_feed: a parser that failed in an earlier call only says so.
    method Receive(data: seq<byte>, reply: Reply) returns (rc: int)
      requires Valid()
      modifies this, packet
      ensures Valid() && View() == Feed(reply, old(View()), data)
      ensures rc == if old(failed) then STATE else first
    {
      hide Step, OnPacket, OnPrefix;
      ghost var goal := Feed(reply, View(), data);
      if failed {
        FeedFailed(reply, View(), data);
        return STATE;
      }
      var next := 0;
      assert data[0..] == data;
      rc := OK;
      while next < |data|
        invariant next <= |data| && Valid() && !failed && rc == OK == first && goal == Feed(reply, View(), data[next..])
      {
        rc, next := Advance(data, next, reply);
        if rc != OK {
          FeedFailed(reply, View(), data[next..]);
          return;
        }
      }
      assert data[next..] == [];
    }
  }
}
