/** apps/sendspin/sendspin_ws.c: the WebSocket frame encoder and the incremental receiver, against
    sections 5.2 to 5.5 of RFC 6455. The receiver works on whole chunks; its specification consumes
    one byte at a time. */
module WebSocket {
  import opened Common
  import opened ByteStream

  const TEXT: byte := 0x1
  const BINARY: byte := 0x2
  const CLOSE: byte := 0x8
  const PING: byte := 0x9
  const PONG: byte := 0xA
  const CONTROL_MAX := 125
  const HEADER_MAX := 14

  predicate IsControl(opcode: byte) {
    opcode == CLOSE || opcode == PING || opcode == PONG
  }

  datatype Event = Event(opcode: byte, payload: seq<byte>)

  // What the receiver remembers between bytes.
  datatype Rx = Rx(
    header: seq<byte>, needed: nat, length: nat, used: nat, mask: seq<byte>, opcode: byte, fin: bool, masked: bool, ready: bool,
    message: seq<byte>, messageOpcode: byte, fragmenting: bool, control: seq<byte>)

  // A receiver, the callbacks made so far and the first error.
  datatype Progress = Progress(rx: Rx, events: seq<Event>, rc: int)

  // The callback is foreign: its result may depend on everything it was told.
  datatype Setting = Setting(capacity: nat, reply: seq<Event> -> int)

  function LengthCode(b1: byte): nat {
    (b1 & 0x7f) as nat
  }

  // Bytes before the mask key.
  function KeyPosition(b1: byte): nat {
    if LengthCode(b1) == 126 then 4 else if LengthCode(b1) == 127 then 10 else 2
  }

  function HeaderSize(b1: byte): (r: nat)
    ensures 2 <= r <= HEADER_MAX
  {
    KeyPosition(b1) + if b1 & 0x80 != 0 then 4 else 0
  }

  function PayloadLength(header: seq<byte>): nat
    requires |header| >= 2 && |header| >= HeaderSize(header[1])
  {
    if LengthCode(header[1]) == 126 || LengthCode(header[1]) == 127 then BigEndian(Octets(header[2..KeyPosition(header[1])]))
    else LengthCode(header[1])
  }

  // One of the two fixed header bytes.
  function HeaderByte(p: Progress, b: byte): Progress
    requires |p.rx.header| < 2
  {
    var h := p.rx.header + [b];
    if |h| < 2 then p.(rx := p.rx.(header := h))
    else p.(rx := p.rx.(header := h, opcode := h[0] & 0x0f, fin := h[0] & 0x80 != 0, masked := h[1] & 0x80 != 0, needed := HeaderSize(h[1])))
  }

  function LoadMask(p: Progress): Progress
    requires |p.rx.header| >= 2 && (p.rx.masked ==> |p.rx.header| >= KeyPosition(p.rx.header[1]) + 4)
  {
    var at := KeyPosition(p.rx.header[1]);
    if p.rx.masked then p.(rx := p.rx.(mask := p.rx.header[at..at + 4])) else p
  }

  function OpenFrame(p: Progress): Progress {
    var rx := p.rx;
    if rx.opcode == 0 then if rx.fragmenting then p else p.(rc := INVALID)
    else if rx.opcode == TEXT || rx.opcode == BINARY then
      if rx.fragmenting then p.(rc := INVALID) else p.(rx := rx.(message := [], messageOpcode := rx.opcode))
    else if IsControl(rx.opcode) then p.(rx := rx.(control := []))
    else p.(rc := UNSUPPORTED)
  }

  function Admit(s: Setting, p: Progress, length: nat): Progress {
    var room := if IsControl(p.rx.opcode) then CONTROL_MAX - |p.rx.control| else s.capacity - |p.rx.message|;
    if length > room then p.(rc := UNSUPPORTED) else p.(rx := p.rx.(length := length, used := 0, ready := true))
  }

  // begin_frame: the header is complete.
  function Begin(s: Setting, p: Progress): Progress
    requires |p.rx.header| >= 2 && |p.rx.header| >= HeaderSize(p.rx.header[1]) && (p.rx.masked ==> |p.rx.header| >= KeyPosition(p.rx.header[1]) + 4)
  {
    var q := OpenFrame(LoadMask(p));
    if q.rc != OK then q else Admit(s, q, PayloadLength(p.rx.header))
  }

  // The payload is complete: dispatch, then wait for the next header.
  function Finish(s: Setting, p: Progress): Progress {
    var rx := p.rx;
    var rest := rx.(header := [], needed := 0, length := 0, used := 0, ready := false);
    if IsControl(rx.opcode) then
      var events := p.events + [Event(rx.opcode, rx.control)];
      if s.reply(events) != OK then Progress(rx, events, s.reply(events)) else Progress(rest, events, OK)
    else if rx.fin then
      var events := p.events + [Event(rx.messageOpcode, rx.message)];
      if s.reply(events) != OK then Progress(rx, events, s.reply(events))
      else Progress(rest.(fragmenting := false, message := []), events, OK)
    else Progress(rest.(fragmenting := true), p.events, OK)
  }

  function FinishIfDone(s: Setting, p: Progress): Progress {
    if p.rc == OK && p.rx.used == p.rx.length then Finish(s, p) else p
  }

  function Xor(a: byte, b: byte): byte {
    a ^ b
  }

  // The exclusive or, bit by bit: a bit is set exactly when it differs in the two.
  lemma XorBits(a: byte, b: byte)
    ensures Xor(a, b) & 0x01 != 0 <==> a & 0x01 != b & 0x01
    ensures Xor(a, b) & 0x02 != 0 <==> a & 0x02 != b & 0x02
    ensures Xor(a, b) & 0x04 != 0 <==> a & 0x04 != b & 0x04
    ensures Xor(a, b) & 0x08 != 0 <==> a & 0x08 != b & 0x08
    ensures Xor(a, b) & 0x10 != 0 <==> a & 0x10 != b & 0x10
    ensures Xor(a, b) & 0x20 != 0 <==> a & 0x20 != b & 0x20
    ensures Xor(a, b) & 0x40 != 0 <==> a & 0x40 != b & 0x40
    ensures Xor(a, b) & 0x80 != 0 <==> a & 0x80 != b & 0x80
  {
  }

  // One payload byte, unmasked by the rule of section 5.3.
  function PayloadByte(p: Progress, b: byte): Progress {
    var x := if p.rx.masked && |p.rx.mask| == 4 then Xor(b, p.rx.mask[p.rx.used % 4]) else b;
    p.(rx := if IsControl(p.rx.opcode) then p.rx.(control := p.rx.control + [x], used := p.rx.used + 1)
             else p.rx.(message := p.rx.message + [x], used := p.rx.used + 1))
  }

  // A receiver between bytes: a payload that is complete has been dispatched.
  predicate Sane(capacity: nat, p: Progress) {
    Shape(capacity, p) && (p.rx.ready && p.rc == OK ==> p.rx.used < p.rx.length)
  }

  predicate Shape(capacity: nat, p: Progress) {
    var rx := p.rx;
    && |rx.header| <= HEADER_MAX && |rx.message| <= capacity && |rx.control| <= CONTROL_MAX && |rx.mask| == 4
    && (|rx.header| >= 2 ==> rx.needed == HeaderSize(rx.header[1]) && |rx.header| <= rx.needed && rx.masked == (rx.header[1] & 0x80 != 0))
    && (|rx.header| >= 2 && rx.masked ==> rx.needed == KeyPosition(rx.header[1]) + 4)
    && (|rx.header| >= 2 ==> rx.opcode == rx.header[0] & 0x0f)
    && (|rx.header| < 2 ==> rx.needed == 0)
    && (!rx.ready && p.rc == OK ==> rx.used == rx.length == 0)
    && (rx.ready ==> |rx.header| >= 2 && |rx.header| == rx.needed && rx.used <= rx.length)
    && (rx.ready && IsControl(rx.opcode) ==> |rx.control| == rx.used && rx.length <= CONTROL_MAX)
    && (rx.ready && !IsControl(rx.opcode) ==> |rx.message| + (rx.length - rx.used) <= capacity)
  }

  // One byte of input.
  function Step(s: Setting, p: Progress, b: byte): Progress
    requires Sane(s.capacity, p)
  {
    if p.rc != OK then p
    else if |p.rx.header| < 2 then HeaderByte(p, b)
    else if |p.rx.header| < p.rx.needed then
      var q := p.(rx := p.rx.(header := p.rx.header + [b]));
      if |q.rx.header| < q.rx.needed then q else FinishIfDone(s, Begin(s, q))
    else if p.rx.ready then FinishIfDone(s, PayloadByte(p, b))
    else
      // A header of exactly two bytes is only acted on when the next byte arrives.
      var q := Begin(s, p);
      if q.rc != OK then q
      else if q.rx.length == 0 then
        var r := Finish(s, q);
        if r.rc != OK then r else HeaderByte(r, b)
      else FinishIfDone(s, PayloadByte(q, b))
  }

  predicate Complete(p: Progress) {
    |p.rx.header| >= 2 && |p.rx.header| == p.rx.needed
  }

  lemma OpenShape(s: Setting, p: Progress)
    requires Shape(s.capacity, p) && p.rc == OK && !p.rx.ready
    ensures var q := OpenFrame(p);
      && Shape(s.capacity, q) && !q.rx.ready && q.rx.header == p.rx.header && q.rx.opcode == p.rx.opcode
      && q.rx.needed == p.rx.needed && (q.rc == OK && IsControl(q.rx.opcode) ==> q.rx.control == [])
  {
    hide HeaderSize, KeyPosition;
  }

  lemma BeginShape(s: Setting, p: Progress)
    requires Shape(s.capacity, p) && p.rc == OK && Complete(p) && !p.rx.ready
    ensures var q := Begin(s, p); Shape(s.capacity, q) && (q.rc == OK ==> q.rx.ready && q.rx.used == 0) && q.rx.header == p.rx.header
  {
    hide LengthCode, KeyPosition, HeaderSize, PayloadLength, IsControl, OpenFrame;
    OpenShape(s, LoadMask(p));
  }

  lemma PayloadShape(s: Setting, p: Progress, b: byte)
    requires Shape(s.capacity, p) && p.rc == OK && p.rx.ready && p.rx.used < p.rx.length
    ensures Shape(s.capacity, PayloadByte(p, b)) && PayloadByte(p, b).rx.ready
  {
  }

  lemma FinishSane(s: Setting, p: Progress)
    requires Shape(s.capacity, p) && p.rc == OK && p.rx.ready && p.rx.used == p.rx.length
    ensures var q := Finish(s, p); Sane(s.capacity, q) && (q.rc == OK ==> q.rx.header == [] && !q.rx.ready)
  {
  }

  lemma StepSane(s: Setting, p: Progress, b: byte)
    requires Sane(s.capacity, p)
    ensures Sane(s.capacity, Step(s, p, b))
  {
    hide Begin, PayloadByte, Finish;
    if p.rc == OK && |p.rx.header| >= 2 {
      var q := if |p.rx.header| < p.rx.needed then p.(rx := p.rx.(header := p.rx.header + [b])) else p;
      if Complete(q) {
        var r := if q.rx.ready then q else Begin(s, q);
        if !q.rx.ready {
          BeginShape(s, q);
        }
        if r.rc == OK && r.rx.used == r.rx.length {
          FinishSane(s, r);
        } else if r.rc == OK && Complete(p) {
          PayloadShape(s, r, b);
          if PayloadByte(r, b).rx.used == PayloadByte(r, b).rx.length && PayloadByte(r, b).rc == OK {
            FinishSane(s, PayloadByte(r, b));
          }
        }
      }
    }
  }

  function Feed(s: Setting, p: Progress, data: seq<byte>): Progress
    requires Sane(s.capacity, p)
    decreases |data|
  {
    if data == [] then p
    else
      StepSane(s, p, data[0]);
      Feed(s, Step(s, p, data[0]), data[1..])
  }

  lemma {:induction false} FeedSane(s: Setting, p: Progress, data: seq<byte>)
    requires Sane(s.capacity, p)
    ensures Sane(s.capacity, Feed(s, p, data))
    decreases |data|
  {
    if data != [] {
      StepSane(s, p, data[0]);
      FeedSane(s, Step(s, p, data[0]), data[1..]);
    }
  }

  lemma FeedNothing(s: Setting, p: Progress, data: seq<byte>)
    requires Sane(s.capacity, p) && data == []
    ensures Feed(s, p, data) == p
  {
  }

  // Chunk boundaries do not matter.
  lemma {:induction false} FeedConcat(s: Setting, p: Progress, a: seq<byte>, b: seq<byte>)
    requires Sane(s.capacity, p)
    ensures Sane(s.capacity, Feed(s, p, a)) && Feed(s, p, a + b) == Feed(s, Feed(s, p, a), b)
    decreases |a|
  {
    FeedSane(s, p, a);
    if a == [] {
      assert a + b == b;
    } else {
      StepSane(s, p, a[0]);
      FeedConcat(s, Step(s, p, a[0]), a[1..], b);
      assert (a + b)[1..] == a[1..] + b;
    }
  }

  lemma {:induction false} FeedStopped(s: Setting, p: Progress, data: seq<byte>)
    requires Sane(s.capacity, p) && p.rc != OK
    ensures Feed(s, p, data) == p
    decreases |data|
  {
    if data != [] {
      FeedStopped(s, p, data[1..]);
    }
  }

  // The unmasking rule of section 5.3 on a run of payload bytes that starts at payload offset `used`.
  function Unmasked(data: seq<byte>, mask: seq<byte>, used: nat, masked: bool): (r: seq<byte>)
    requires |mask| == 4
    ensures |r| == |data|
  {
    seq(|data|, i requires 0 <= i < |data| => if masked then Xor(data[i], mask[(used + i) % 4]) else data[i])
  }

  // A run of payload bytes at once.
  function PayloadRun(p: Progress, data: seq<byte>): Progress
    requires |p.rx.mask| == 4
  {
    var x := Unmasked(data, p.rx.mask, p.rx.used, p.rx.masked);
    p.(rx := if IsControl(p.rx.opcode) then p.rx.(control := p.rx.control + x, used := p.rx.used + |data|)
             else p.rx.(message := p.rx.message + x, used := p.rx.used + |data|))
  }

  lemma {:induction false} FeedHeaderRun(s: Setting, p: Progress, data: seq<byte>)
    requires Sane(s.capacity, p) && p.rc == OK && |p.rx.header| >= 2 && data != [] && |p.rx.header| + |data| <= p.rx.needed
    ensures Shape(s.capacity, p.(rx := p.rx.(header := p.rx.header + data)))
    ensures var q := p.(rx := p.rx.(header := p.rx.header + data));
      Feed(s, p, data) == if Complete(q) then FinishIfDone(s, Begin(s, q)) else q
    decreases |data|
  {
    hide Begin, Finish, PayloadByte, HeaderByte, KeyPosition, HeaderSize, LengthCode, IsControl;
    var p' := Step(s, p, data[0]);
    StepSane(s, p, data[0]);
    if |data| > 1 {
      FeedHeaderRun(s, p', data[1..]);
      assert p.rx.header + data == p.rx.header + [data[0]] + data[1..];
    } else {
      assert data == [data[0]];
      assert Feed(s, p', []) == p';
    }
  }

  lemma {:induction false} FeedPayloadRun(s: Setting, p: Progress, data: seq<byte>)
    requires Sane(s.capacity, p) && p.rc == OK && p.rx.ready && data != [] && p.rx.used + |data| <= p.rx.length
    ensures Feed(s, p, data) == FinishIfDone(s, PayloadRun(p, data))
    decreases |data|
  {
    hide Begin, Finish, HeaderByte, KeyPosition, HeaderSize, LengthCode, IsControl;
    var p' := Step(s, p, data[0]);
    StepSane(s, p, data[0]);
    if |data| > 1 {
      assert p' == PayloadByte(p, data[0]);
      FeedPayloadRun(s, p', data[1..]);
      RunOneMore(p, data);
    } else {
      assert data[1..] == [];
      RunOne(p, data);
    }
  }

  lemma RunOne(p: Progress, data: seq<byte>)
    requires |p.rx.mask| == 4 && |data| == 1
    ensures PayloadRun(p, data) == PayloadByte(p, data[0])
  {
    assert Unmasked(data, p.rx.mask, p.rx.used, p.rx.masked) == [Unmasked(data, p.rx.mask, p.rx.used, p.rx.masked)[0]];
  }

  lemma UnmaskedCons(data: seq<byte>, mask: seq<byte>, used: nat, masked: bool)
    requires |mask| == 4 && |data| > 0
    ensures var x := Unmasked(data, mask, used, masked); x == [x[0]] + Unmasked(data[1..], mask, used + 1, masked)
  {
    hide Xor;
    var x, y := Unmasked(data, mask, used, masked), Unmasked(data[1..], mask, used + 1, masked);
    forall i | 0 <= i < |y| ensures y[i] == x[i + 1] {
      assert used + 1 + i == used + (i + 1);
    }
  }

  lemma RunOneMore(p: Progress, data: seq<byte>)
    requires |p.rx.mask| == 4 && |data| > 0
    ensures PayloadRun(PayloadByte(p, data[0]), data[1..]) == PayloadRun(p, data)
  {
    hide Xor, IsControl, Unmasked;
    var x := Unmasked(data, p.rx.mask, p.rx.used, p.rx.masked);
    UnmaskedCons(data, p.rx.mask, p.rx.used, p.rx.masked);
    UnmaskedFirst(data, p.rx.mask, p.rx.used, p.rx.masked);
    var y := Unmasked(data[1..], p.rx.mask, p.rx.used + 1, p.rx.masked);
    AppendOne(p.rx.control, x[0], y);
    AppendOne(p.rx.message, x[0], y);
  }

  lemma AppendOne(a: seq<byte>, b: byte, c: seq<byte>)
    ensures a + ([b] + c) == a + [b] + c
  {
  }

  lemma UnmaskedFirst(data: seq<byte>, mask: seq<byte>, used: nat, masked: bool)
    requires |mask| == 4 && |data| > 0
    ensures Unmasked(data, mask, used, masked)[0] == if masked then Xor(data[0], mask[used % 4]) else data[0]
  {
    assert used + 0 == used;
  }

  lemma {:induction false} FeedHeaderPart(s: Setting, p: Progress, data: seq<byte>)
    requires Sane(s.capacity, p) && p.rc == OK && |p.rx.header| >= 2 && data != [] && |p.rx.header| + |data| < p.rx.needed
    ensures var q := p.(rx := p.rx.(header := p.rx.header + data)); Sane(s.capacity, q) && Feed(s, p, data) == q
  {
    hide Begin, Finish, HeaderByte, KeyPosition, HeaderSize, LengthCode, IsControl, Step;
    FeedHeaderRun(s, p, data);
    FeedSane(s, p, data);
  }

  lemma FeedHeaderByte(s: Setting, p: Progress, data: seq<byte>)
    requires Sane(s.capacity, p) && p.rc == OK && |p.rx.header| < 2 && data != []
    ensures var q := HeaderByte(p, data[0]); Sane(s.capacity, q) && Feed(s, p, data) == Feed(s, q, data[1..])
  {
    hide HeaderByte, HeaderSize, Shape;
    StepSane(s, p, data[0]);
  }

  lemma SaneFacts(capacity: nat, p: Progress)
    requires Sane(capacity, p) && p.rc == OK && |p.rx.header| >= 2
    ensures |p.rx.header| <= p.rx.needed && (p.rx.ready ==> Complete(p) && p.rx.used < p.rx.length) && Shape(capacity, p)
  {
  }

  lemma ReadyFacts(capacity: nat, p: Progress)
    requires Shape(capacity, p) && p.rx.ready
    ensures |p.rx.header| >= 2 && p.rx.used <= p.rx.length
  {
  }

  // What is left to do once a header has been acted on.
  function Settle(s: Setting, q: Progress, data: seq<byte>): Progress
    requires Shape(s.capacity, q) && (q.rc == OK ==> q.rx.ready)
  {
    if q.rc != OK then q
    else if q.rx.used == q.rx.length then
      FinishSane(s, q);
      Feed(s, Finish(s, q), data)
    else Feed(s, q, data)
  }

  // A two-byte header that was completed by an earlier chunk.
  lemma FeedLateBegin(s: Setting, p: Progress, data: seq<byte>)
    requires Sane(s.capacity, p) && p.rc == OK && Complete(p) && !p.rx.ready && data != []
    ensures var q := Begin(s, p);
      Shape(s.capacity, q) && (q.rc == OK ==> q.rx.ready) && Feed(s, p, data) == Settle(s, q, data)
  {
    hide Begin, Finish, PayloadByte, HeaderByte, KeyPosition, HeaderSize, LengthCode, IsControl;
    var q := Begin(s, p);
    BeginShape(s, p);
    StepSane(s, p, data[0]);
    if q.rc != OK {
      FeedStopped(s, q, data[1..]);
    } else if q.rx.length == 0 {
      FinishSane(s, q);
      StepSane(s, Finish(s, q), data[0]);
      if Finish(s, q).rc != OK {
        FeedStopped(s, Finish(s, q), data);
        FeedStopped(s, Finish(s, q), data[1..]);
      }
    }
  }

  lemma SettleFinished(s: Setting, q: Progress, data: seq<byte>)
    requires Shape(s.capacity, q) && (q.rc == OK ==> q.rx.ready) && Sane(s.capacity, FinishIfDone(s, q))
    ensures Feed(s, FinishIfDone(s, q), data) == Settle(s, q, data)
  {
    hide Shape, Finish, Step;
    if q.rc != OK {
      FeedStopped(s, q, data);
    }
  }

  // A header that the first n bytes of this chunk complete.
  lemma FeedCompletesHeader(s: Setting, p: Progress, data: seq<byte>, n: nat)
    requires Sane(s.capacity, p) && p.rc == OK && |p.rx.header| >= 2 && 0 < n <= |data| && |p.rx.header| + n == p.rx.needed
    ensures var h := p.(rx := p.rx.(header := p.rx.header + data[..n]));
      Shape(s.capacity, h) && !h.rx.ready
    ensures var q := Begin(s, p.(rx := p.rx.(header := p.rx.header + data[..n])));
      Shape(s.capacity, q) && (q.rc == OK ==> q.rx.ready) && Feed(s, p, data) == Settle(s, q, data[n..])
  {
    hide Begin, Finish, FinishIfDone, Settle, Feed, HeaderByte, KeyPosition, HeaderSize, LengthCode, IsControl, Step;
    var h := p.(rx := p.rx.(header := p.rx.header + data[..n]));
    FeedHeaderRun(s, p, data[..n]);
    BeginShape(s, h);
    FeedConcat(s, p, data[..n], data[n..]);
    assert data == data[..n] + data[n..];
    SettleFinished(s, Begin(s, h), data[n..]);
  }

  function PayloadTake(p: Progress, available: nat): nat
    requires p.rx.used <= p.rx.length
  {
    Min(available, p.rx.length - p.rx.used)
  }

  // As much payload as this chunk holds.
  lemma FeedPayload(s: Setting, q: Progress, data: seq<byte>)
    requires Shape(s.capacity, q) && q.rc == OK && q.rx.ready
    ensures var n := PayloadTake(q, |data|); var r := FinishIfDone(s, PayloadRun(q, data[..n]));
      Sane(s.capacity, r) && Settle(s, q, data) == Feed(s, r, data[n..])
  {
    hide Begin, Finish, HeaderByte, IsControl, Step, KeyPosition, HeaderSize, LengthCode;
    var n := PayloadTake(q, |data|);
    if n == 0 {
      assert data[..n] == [] && data[n..] == data;
      RunNothing(q);
      if q.rx.used == q.rx.length {
        FinishSane(s, q);
      }
    } else {
      FeedPayloadRun(s, q, data[..n]);
      FeedConcat(s, q, data[..n], data[n..]);
      assert data == data[..n] + data[n..];
    }
  }

  lemma RunNothing(p: Progress)
    requires |p.rx.mask| == 4
    ensures PayloadRun(p, []) == p
  {
    assert p.rx.control + [] == p.rx.control && p.rx.message + [] == p.rx.message;
  }

  // Four bytes as one machine word, as memcpy reads and writes them on a little-endian host: one
  // word-wide exclusive or is four byte-wide ones.
  method XorWord(a: byte, b: byte, c: byte, d: byte, m0: byte, m1: byte, m2: byte, m3: byte) returns (r0: byte, r1: byte, r2: byte, r3: byte)
    ensures r0 == Xor(a, m0) && r1 == Xor(b, m1) && r2 == Xor(c, m2) && r3 == Xor(d, m3)
  {
    var w := (a as bv32) | ((b as bv32) << 8) | ((c as bv32) << 16) | ((d as bv32) << 24);
    var m := (m0 as bv32) | ((m1 as bv32) << 8) | ((m2 as bv32) << 16) | ((m3 as bv32) << 24);
    w := w ^ m;
    r0 := (w & 0xff) as byte;
    r1 := ((w >> 8) & 0xff) as byte;
    r2 := ((w >> 16) & 0xff) as byte;
    r3 := ((w >> 24) & 0xff) as byte;
  }

  // dst[at..] holds the first n bytes of `goal`, and the rest of dst is as it was in `before`.
  ghost predicate Written(before: seq<byte>, after: seq<byte>, at: nat, goal: seq<byte>, n: nat)
    requires |before| == |after| && n <= |goal|
  {
    forall p :: 0 <= p < |after| ==> after[p] == if at <= p < at + n then goal[p - at] else before[p]
  }

  // Unmasks a run into a buffer: bytes up to a mask boundary, then words, then the rest.
  method UnmaskInto(dst: array<byte>, at: nat, data: seq<byte>, mask: seq<byte>, used: nat, masked: bool)
    requires at + |data| <= dst.Length && |mask| == 4
    modifies dst
    ensures Written(old(dst[..]), dst[..], at, Unmasked(data, mask, used, masked), |data|)
  {
    hide Xor;
    var i := 0;
    ghost var goal, before := Unmasked(data, mask, used, masked), dst[..];
    if masked {
      while i < |data| && (used + i) % 4 != 0
        invariant i <= |data| && Written(before, dst[..], at, goal, i)
      {
        dst[at + i] := Xor(data[i], mask[(used + i) % 4]);
        i := i + 1;
      }
      i := UnmaskWords(dst, at, data, mask, used, i, before);
    }
    while i < |data|
      invariant i <= |data| && Written(before, dst[..], at, goal, i)
    {
      var b := data[i];
      if masked {
        b := Xor(b, mask[(used + i) % 4]);
      }
      dst[at + i] := b;
      i := i + 1;
    }
  }

  method UnmaskWords(dst: array<byte>, at: nat, data: seq<byte>, mask: seq<byte>, used: nat, start: nat, ghost before: seq<byte>) returns (i: nat)
    requires at + |data| <= dst.Length == |before| && |mask| == 4 && start <= |data| && (start < |data| ==> (used + start) % 4 == 0)
    requires Written(before, dst[..], at, Unmasked(data, mask, used, true), start)
    modifies dst
    ensures start <= i <= |data| && Written(before, dst[..], at, Unmasked(data, mask, used, true), i)
  {
    hide Xor, Unmasked;
    i := start;
    ghost var goal := Unmasked(data, mask, used, true);
    while i + 4 <= |data|
      invariant start <= i <= |data| && (i < |data| ==> (used + i) % 4 == 0)
      invariant Written(before, dst[..], at, goal, i)
    {
      UnmaskWord(dst, at + i, data[i..i + 4], mask);
      UnmaskedFour(data, mask, used, i);
      i := i + 4;
    }
  }

  // Four bytes from a mask boundary on are masked with the whole key.
  lemma UnmaskedFour(data: seq<byte>, mask: seq<byte>, used: nat, i: nat)
    requires |mask| == 4 && i + 4 <= |data| && (used + i) % 4 == 0
    ensures forall k :: i <= k < i + 4 ==> Unmasked(data, mask, used, true)[k] == Xor(data[k], mask[k - i])
  {
    hide Xor;
  }

  method UnmaskWord(dst: array<byte>, at: nat, data: seq<byte>, mask: seq<byte>)
    requires at + 4 <= dst.Length && |data| == 4 && |mask| == 4
    modifies dst
    ensures forall p :: 0 <= p < dst.Length ==> dst[p] == if at <= p < at + 4 then Xor(data[p - at], mask[p - at]) else old(dst[p])
  {
    hide Xor;
    dst[at], dst[at + 1], dst[at + 2], dst[at + 3] := XorWord(data[0], data[1], data[2], data[3], mask[0], mask[1], mask[2], mask[3]);
  }

  /** eaf_sendspin_ws_rx_t with the callback's context reduced to a log of what it was told. */
  class Receiver {
    const message: array<byte>
    const control: array<byte>
    var header: seq<byte>
    var headerNeeded: nat
    var payloadLength: nat
    var payloadUsed: nat
    var mask: seq<byte>
    var opcode: byte
    var fin: bool
    var masked: bool
    var frameReady: bool
    var messageLength: nat
    var messageOpcode: byte
    var fragmenting: bool
    var controlLength: nat
    var log: seq<Event>

    ghost predicate Shaped()
      reads this
    {
      message != control && control.Length == CONTROL_MAX && messageLength <= message.Length && controlLength <= CONTROL_MAX
    }

    ghost function View(rc: int): Progress
      reads this, message, control
      requires Shaped()
    {
      Progress(Rx(header, headerNeeded, payloadLength, payloadUsed, mask, opcode, fin, masked, frameReady,
                  message[..messageLength], messageOpcode, fragmenting, control[..controlLength]), log, rc)
    }

    ghost function In(reply: seq<Event> -> int): Setting {
      Setting(message.Length, reply)
    }

    ghost predicate Valid()
      reads this, message, control
    {
      Shaped() && Sane(message.Length, View(OK))
    }

    constructor (message: array<byte>)
      ensures Valid() && this.message == message && log == []
      ensures View(OK) == Progress(Rx([], 0, 0, 0, [0, 0, 0, 0], 0, false, false, false, [], 0, false, []), [], OK)
    {
      this.message := message;
      control := new byte[CONTROL_MAX];
      header, headerNeeded, payloadLength, payloadUsed, mask := [], 0, 0, 0, [0, 0, 0, 0];
      opcode, fin, masked, frameReady := 0, false, false, false;
      messageLength, messageOpcode, fragmenting, controlLength, log := 0, 0, false, 0, [];
    }

    method TakeHeaderByte(b: byte)
      requires Shaped() && |header| < 2
      modifies this`header, this`opcode, this`fin, this`masked, this`headerNeeded
      ensures Shaped() && View(OK) == HeaderByte(old(View(OK)), b)
    {
      hide HeaderSize;
      header := header + [b];
      if |header| < 2 {
        return;
      }
      var b1 := header[1];
      opcode := header[0] & 0x0f;
      fin := header[0] & 0x80 != 0;
      masked := b1 & 0x80 != 0;
      headerNeeded := NeededBytes(b1);
    }

    // payload_length and position as begin_frame reads them from the header.
    method ReadLength() returns (length: nat, position: nat)
      requires |header| >= 2 && |header| >= HeaderSize(header[1])
      ensures length == PayloadLength(header) && position == KeyPosition(header[1])
    {
      var code := header[1] & 0x7f;
      if code == 126 {
        length := ReadBigEndian(header[2..4]);
        position := 4;
      } else if code == 127 {
        length := ReadBigEndian(header[2..10]);
        position := 10;
      } else {
        length := code as nat;
        position := 2;
      }
    }

    method CheckOpcode() returns (rc: int)
      requires Shaped()
      modifies this`messageLength, this`messageOpcode, this`controlLength
      ensures Shaped() && View(rc) == OpenFrame(old(View(OK)))
    {
      rc := OK;
      if opcode == 0 {
        if !fragmenting {
          rc := INVALID;
        }
      } else if opcode == TEXT || opcode == BINARY {
        if fragmenting {
          return INVALID;
        }
        messageLength := 0;
        messageOpcode := opcode;
      } else if IsControl(opcode) {
        controlLength := 0;
      } else {
        rc := UNSUPPORTED;
      }
    }

    method CheckLength(length: nat, reply: seq<Event> -> int) returns (rc: int)
      requires Shaped()
      modifies this`payloadLength, this`payloadUsed, this`frameReady
      ensures Shaped() && View(rc) == Admit(In(reply), old(View(OK)), length)
    {
      hide IsControl;
      var target := if IsControl(opcode) then controlLength else messageLength;
      var room := if IsControl(opcode) then CONTROL_MAX else message.Length;
      if length > room - target {
        return UNSUPPORTED;
      }
      payloadLength, payloadUsed, frameReady := length, 0, true;
      rc := OK;
    }

    method BeginFrame(reply: seq<Event> -> int) returns (rc: int)
      requires Shaped() && Shape(message.Length, View(OK)) && Complete(View(OK)) && !frameReady
      modifies this
      ensures Shaped() && View(rc) == Begin(In(reply), old(View(OK))) && header == old(header)
    {
      hide HeaderSize, KeyPosition, PayloadLength, IsControl, Admit, OpenFrame;
      var length, position := ReadLength();
      if masked {
        mask := header[position..position + 4];
      }
      assert View(OK) == LoadMask(old(View(OK)));
      rc := CheckOpcode();
      if rc == OK {
        rc := CheckLength(length, reply);
      }
    }

    method FillPayload(data: seq<byte>, reply: seq<Event> -> int)
      requires Shaped() && Shape(message.Length, View(OK)) && frameReady && payloadUsed + |data| <= payloadLength
      modifies this`messageLength, this`controlLength, this`payloadUsed, message, control
      ensures Shaped() && View(OK) == PayloadRun(old(View(OK)), data) && payloadUsed == old(payloadUsed) + |data|
    {
      hide Unmasked, IsControl, HeaderSize, KeyPosition;
      if IsControl(opcode) {
        UnmaskInto(control, controlLength, data, mask, payloadUsed, masked);
        assert control[..controlLength + |data|] == old(control[..controlLength]) + Unmasked(data, mask, payloadUsed, masked);
        controlLength := controlLength + |data|;
      } else {
        UnmaskInto(message, messageLength, data, mask, payloadUsed, masked);
        assert message[..messageLength + |data|] == old(message[..messageLength]) + Unmasked(data, mask, payloadUsed, masked);
        messageLength := messageLength + |data|;
      }
      payloadUsed := payloadUsed + |data|;
    }

    method Call(kind: byte, payload: array<byte>, n: nat, reply: seq<Event> -> int) returns (rc: int)
      requires n <= payload.Length
      modifies this`log
      ensures log == old(log) + [Event(kind, payload[..n])] && rc == reply(log)
    {
      log := log + [Event(kind, payload[..n])];
      rc := reply(log);
    }

    method NextFrame()
      modifies this`header, this`headerNeeded, this`payloadLength, this`payloadUsed, this`frameReady
      ensures header == [] && headerNeeded == 0 && payloadLength == 0 && payloadUsed == 0 && !frameReady
    {
      header, headerNeeded, payloadLength, payloadUsed, frameReady := [], 0, 0, 0, false;
    }

    method Dispatch(reply: seq<Event> -> int) returns (rc: int)
      requires Shaped()
      modifies this
      ensures Shaped() && View(rc) == Finish(In(reply), old(View(OK))) && (rc == OK ==> header == [])
    {
      hide IsControl;
      if IsControl(opcode) {
        rc := Call(opcode, control, controlLength, reply);
        if rc != OK {
          return;
        }
      } else if fin {
        rc := Call(messageOpcode, message, messageLength, reply);
        if rc != OK {
          return;
        }
        fragmenting := false;
        messageLength := 0;
      } else {
        fragmenting := true;
      }
      NextFrame();
      rc := OK;
    }

    // The header bytes this chunk offers, and begin_frame when they were the last.
    method TakeHeader(data: seq<byte>, start: nat, reply: seq<Event> -> int) returns (rc: int, next: nat)
      requires Valid() && start < |data| && |header| >= 2
      modifies this
      ensures Shaped() && start <= next <= |data|
      ensures rc == OK && frameReady ==> Shape(message.Length, View(OK)) && (next == start ==> |header| == old(|header|))
      ensures rc == OK && !frameReady ==> Valid() && next == |data| > start
      ensures Feed(In(reply), old(View(OK)), data[start..])
           == if rc == OK && frameReady then Settle(In(reply), View(OK), data[next..]) else View(rc)
    {
      hide Sane, Shape, Begin, Finish, KeyPosition, HeaderSize, Step, Feed;
      ghost var s, p := In(reply), View(OK);
      SaneFacts(s.capacity, p);
      next := start;
      rc := OK;
      if |header| < headerNeeded {
        var take := headerNeeded - |header|;
        if take > |data| - next {
          take := |data| - next;
        }
        next := next + take;
        header := header + data[start..next];
        assert data[start..][..take] == data[start..next] && data[start..][take..] == data[next..];
        assert View(OK) == p.(rx := p.rx.(header := p.rx.header + data[start..next]));
        if |header| < headerNeeded {
          assert data[start..next] == data[start..];
          FeedHeaderPart(s, p, data[start..]);
          return;
        }
        FeedCompletesHeader(s, p, data[start..], take);
        rc := BeginFrame(reply);
      } else if !frameReady {
        FeedLateBegin(s, p, data[start..]);
        rc := BeginFrame(reply);
      }
    }

    method DispatchIfDone(reply: seq<Event> -> int) returns (rc: int)
      requires Shaped()
      modifies this
      ensures Shaped() && View(rc) == FinishIfDone(In(reply), old(View(OK)))
      ensures rc == OK && old(payloadUsed) == old(payloadLength) ==> header == []
    {
      hide Finish;
      rc := OK;
      if payloadUsed == payloadLength {
        rc := Dispatch(reply);
      }
    }

    // The frame has begun: take what the chunk offers of the payload, and dispatch if that was all.
    method TakePayload(data: seq<byte>, start: nat, reply: seq<Event> -> int) returns (rc: int, next: nat)
      requires Shaped() && Shape(message.Length, View(OK)) && frameReady && start <= |data|
      modifies this, message, control
      ensures Shaped() && start <= next <= |data| && (rc == OK ==> Valid())
      ensures rc == OK && next == start < |data| ==> header == []
      ensures Settle(In(reply), old(View(OK)), data[start..]) == if rc == OK then Feed(In(reply), View(OK), data[next..]) else View(rc)
    {
      hide Shape, IsControl, Unmasked, Finish, Feed, Settle, PayloadRun, FinishIfDone, Sane;
      ghost var s, q := In(reply), View(OK);
      ReadyFacts(s.capacity, q);
      FeedPayload(s, q, data[start..]);
      var take := |data| - start;
      if take > payloadLength - payloadUsed {
        take := payloadLength - payloadUsed;
      }
      next := start + take;
      SliceOfSlice(data, start, take);
      FillPayload(data[start..next], reply);
      rc := DispatchIfDone(reply);
      if rc != OK {
        FeedStopped(s, View(rc), data[next..]);
      }
    }

    lemma SliceOfSlice(data: seq<byte>, start: nat, take: nat)
      requires start + take <= |data|
      ensures data[start..][..take] == data[start..start + take] && data[start..][take..] == data[start + take..]
    {
    }

    // One turn of the receive loop.
    method Advance(data: seq<byte>, start: nat, reply: seq<Event> -> int) returns (rc: int, next: nat)
      requires Valid() && start < |data|
      modifies this, message, control
      ensures Shaped() && start <= next <= |data| && (rc == OK ==> Valid())
      ensures rc == OK && next == start ==> |header| < old(|header|)
      ensures Feed(In(reply), old(View(OK)), data[start..]) == if rc == OK then Feed(In(reply), View(OK), data[next..]) else View(rc)
    {
      hide Sane, Shape, Begin, Finish, PayloadRun, IsControl, KeyPosition, HeaderSize, Feed, Settle, HeaderByte, Step;
      next := start;
      if |header| < 2 {
        FeedHeaderByte(In(reply), View(OK), data[next..]);
        assert data[next..][1..] == data[next + 1..];
        TakeHeaderByte(data[next]);
        return OK, next + 1;
      }
      rc, next := TakeHeader(data, next, reply);
      if rc == OK && frameReady {
        rc, next := TakePayload(data, next, reply);
      } else if rc == OK {
        FeedNothing(In(reply), View(OK), data[next..]);
      }
    }

    // eaf_sendspin_ws_rx_feed.
    method RxFeed(data: seq<byte>, reply: seq<Event> -> int) returns (rc: int)
      requires Valid()
      modifies this, message, control
      ensures Shaped() && View(rc) == Feed(In(reply), old(View(OK)), data) && (rc == OK ==> Valid())
    {
      hide Sane, Shape, Step;
      var next := 0;
      ghost var goal := Feed(In(reply), View(OK), data);
      assert data[0..] == data;
      rc := OK;
      while next < |data|
        invariant rc == OK && Valid() && next <= |data| && goal == Feed(In(reply), View(OK), data[next..])
        decreases |data| - next, |header|
      {
        rc, next := Advance(data, next, reply);
        if rc != OK {
          return;
        }
      }
      assert data[next..] == [];
    }
  }

  method NeededBytes(b1: byte) returns (needed: nat)
    ensures needed == HeaderSize(b1)
  {
    var code := b1 & 0x7f;
    needed := 2;
    if code == 126 {
      needed := 4;
    } else if code == 127 {
      needed := 10;
    }
    if b1 & 0x80 != 0 {
      needed := needed + 4;
    }
  }

  // eaf_bytes_read_u16 and eaf_bytes_read_u64: the accumulator loop.
  method ReadBigEndian(b: seq<byte>) returns (value: nat)
    ensures value == BigEndian(Octets(b))
  {
    ghost var octets := Octets(b);
    value := 0;
    for i := 0 to |b|
      invariant value == BigEndian(octets[..i])
    {
      assert octets[..i + 1][..i] == octets[..i];
      value := value * 256 + b[i] as nat;
    }
    assert octets[..|b|] == octets;
  }
}
