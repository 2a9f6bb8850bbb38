/** The frames of section 5.2 of RFC 6455 as a sender lays them out, and what a receiver makes of
    each: apps/sendspin/sendspin_ws.c against the wire format. */
module WebSocketFrames {
  import opened Common
  import opened ByteStream
  import opened WebSocket

  // The three ways to write a payload length. A sender may use a longer one than it needs.
  datatype LengthForm = Short | Medium | Long

  datatype Frame = Frame(fin: bool, opcode: byte, form: LengthForm, mask: Option<seq<byte>>, payload: seq<byte>)

  // `value >> 8 * n`.
  function Shr(value: nat, n: nat): nat
    decreases n
  {
    if n == 0 then value else Shr(value / 256, n - 1)
  }

  // The n low bytes of a value, most significant first.
  function BytesOf(value: nat, n: nat): (r: seq<byte>)
    ensures |r| == n
    decreases n
  {
    if n == 0 then [] else BytesOf(value / 256, n - 1) + [(value % 256) as byte]
  }

  lemma {:induction false} BytesOfAt(value: nat, n: nat, i: nat)
    requires i < n
    ensures BytesOf(value, n)[i] == (Shr(value, n - 1 - i) % 256) as byte
    decreases n
  {
    if i < n - 1 {
      BytesOfAt(value / 256, n - 1, i);
    }
  }

  lemma NoBytes()
    ensures BigEndian(Octets([])) == 0
  {
  }

  lemma {:induction false} BigEndianOfBytes(value: nat, n: nat)
    requires Shr(value, n) == 0
    ensures BigEndian(Octets(BytesOf(value, n))) == value
    decreases n
  {
    hide BigEndian, Octets;
    if n > 0 {
      BigEndianOfBytes(value / 256, n - 1);
      BigEndianMore(BytesOf(value / 256, n - 1), (value % 256) as byte);
      ByteRoundTrip(value % 256);
    } else {
      NoBytes();
    }
  }

  function FormCode(form: LengthForm, n: nat): (r: nat)
    ensures r < 128
  {
    match form
    case Short => if n < 128 then n else 0
    case Medium => 126
    case Long => 127
  }

  predicate Fits(form: LengthForm, n: nat) {
    match form
    case Short => n <= 125
    case Medium => n <= 0xFFFF
    case Long => n < TWO64
  }

  function LengthBytes(form: LengthForm, n: nat): seq<byte> {
    match form
    case Short => []
    case Medium => BytesOf(n, 2)
    case Long => BytesOf(n, 8)
  }

  predicate FrameOk(f: Frame) {
    f.opcode < 16 && Fits(f.form, |f.payload|) && (f.mask.Some? ==> |f.mask.value| == 4)
  }

  function FirstByte(f: Frame): byte {
    (if f.fin then 0x80 else 0) | (f.opcode & 0x0f)
  }

  function SecondByte(f: Frame): byte {
    (if f.mask.Some? then 0x80 else 0) | (FormCode(f.form, |f.payload|) as byte)
  }

  function Key(f: Frame): seq<byte> {
    if f.mask.Some? then f.mask.value else []
  }

  function Header(f: Frame): seq<byte> {
    [FirstByte(f), SecondByte(f)] + LengthBytes(f.form, |f.payload|) + Key(f)
  }

  const ZERO_KEY: seq<byte> := [0, 0, 0, 0]

  function Body(f: Frame): (r: seq<byte>)
    requires FrameOk(f)
    ensures |r| == |f.payload|
  {
    Unmasked(f.payload, if f.mask.Some? then f.mask.value else ZERO_KEY, 0, f.mask.Some?)
  }

  function Wire(f: Frame): seq<byte>
    requires FrameOk(f)
  {
    Header(f) + Body(f)
  }

  // The receiver acts on a two-byte header only when another byte arrives.
  predicate Dangling(f: Frame) {
    f.form == Short && f.mask == None && f.payload == []
  }

  lemma CodeBits(fin: bool, opcode: byte, masked: bool, code: nat)
    requires opcode < 16 && code < 128
    ensures var b0 := (if fin then 0x80 else 0) | (opcode & 0x0f);
      b0 & 0x0f == opcode && (b0 & 0x80 != 0) == fin
    ensures var b1 := (if masked then 0x80 else 0) | (code as byte);
      LengthCode(b1) == code && (b1 & 0x80 != 0) == masked
  {
    var c := code as byte;
    assert c < 0x80 && c & 0x7f == c;
    ByteRoundTrip(code);
  }

  lemma HeaderBits(f: Frame)
    requires FrameOk(f)
    ensures FirstByte(f) & 0x0f == f.opcode && (FirstByte(f) & 0x80 != 0) == f.fin
    ensures LengthCode(SecondByte(f)) == FormCode(f.form, |f.payload|) && (SecondByte(f) & 0x80 != 0) == f.mask.Some?
  {
    CodeBits(f.fin, f.opcode, f.mask.Some?, FormCode(f.form, |f.payload|));
  }

  // What the receiver reads back from a header it has stored.
  lemma HeaderReads(f: Frame)
    requires FrameOk(f)
    ensures var h := Header(f);
      && h[0] & 0x0f == f.opcode && (h[0] & 0x80 != 0) == f.fin && (h[1] & 0x80 != 0) == f.mask.Some?
      && |h| == HeaderSize(h[1]) && KeyPosition(h[1]) + |Key(f)| == |h| && h[KeyPosition(h[1])..] == Key(f)
      && PayloadLength(h) == |f.payload|
  {
    hide BytesOf, BigEndian, Shr, LengthCode, FirstByte, SecondByte;
    var h, n := Header(f), |f.payload|;
    HeaderBits(f);
    SmallFits(n);
    if f.form == Medium {
      assert h[2..4] == BytesOf(n, 2);
      BigEndianOfBytes(n, 2);
    } else if f.form == Long {
      assert h[2..10] == BytesOf(n, 8);
      BigEndianOfBytes(n, 8);
    }
  }

  lemma SmallFits(n: nat)
    ensures n <= 0xFFFF ==> Shr(n, 2) == 0
    ensures n < TWO64 ==> Shr(n, 8) == 0
  {
    assert Shr(n, 2) == n / 256 / 256;
    assert Shr(n, 8) == n / 256 / 256 / 256 / 256 / 256 / 256 / 256 / 256 by {
      assert Shr(n, 8) == Shr(n / 256 / 256 / 256 / 256, 4);
    }
  }

  // Bytes of a header before its mask key, by the form of the length.
  function LengthEnd(form: LengthForm): nat {
    match form
    case Short => 2
    case Medium => 4
    case Long => 10
  }

  /** The wire format, as section 5.2 of RFC 6455 draws it: FIN and opcode in the first byte, MASK and the length
      or its code in the second, the extended length most significant byte first, the key, and the payload,
      each byte of it exclusive-or'ed with the key byte that section 5.3 assigns to it. */
  lemma WireLayout(f: Frame)
    requires FrameOk(f)
    ensures var w, n, at := Wire(f), |f.payload|, LengthEnd(f.form);
      && |w| == at + (if f.mask.Some? then 4 else 0) + n
      && ((w[0] & 0x80 != 0) <==> f.fin) && w[0] & 0x70 == 0 && w[0] & 0x0f == f.opcode && ((w[1] & 0x80 != 0) <==> f.mask.Some?)
      && (f.form.Short? ==> (w[1] & 0x7f) as nat == n)
      && (f.form.Medium? ==> w[1] & 0x7f == 126 && BigEndian(Octets(w[2..4])) == n)
      && (f.form.Long? ==> w[1] & 0x7f == 127 && BigEndian(Octets(w[2..10])) == n)
      && (f.mask.Some? ==> w[at..at + 4] == f.mask.value && forall i :: 0 <= i < n ==> w[at + 4 + i] == f.payload[i] ^ f.mask.value[i % 4])
      && (f.mask.None? ==> w[at..] == f.payload)
  {
    hide BytesOf, BigEndian, Octets, Shr, LengthCode, FirstByte, SecondByte, Body, Header;
    HeaderBits(f);
    CodeOf(f);
    WireParts(f);
    BodyByRule(f);
  }

  // Where the parts of a frame stand on the wire.
  lemma WireParts(f: Frame)
    requires FrameOk(f)
    ensures var w, n, at := Wire(f), |f.payload|, LengthEnd(f.form);
      && |w| == at + |Key(f)| + n && w[0] == FirstByte(f) && w[1] == SecondByte(f)
      && w[at..at + |Key(f)|] == Key(f) && w[at + |Key(f)|..] == Body(f)
      && (f.form.Medium? ==> BigEndian(Octets(w[2..4])) == n) && (f.form.Long? ==> BigEndian(Octets(w[2..10])) == n)
  {
    hide BytesOf, BigEndian, Octets, Shr, FirstByte, SecondByte, Body;
    var n := |f.payload|;
    SmallFits(n);
    if f.form == Medium {
      assert Wire(f)[2..4] == BytesOf(n, 2);
      BigEndianOfBytes(n, 2);
    } else if f.form == Long {
      assert Wire(f)[2..10] == BytesOf(n, 8);
      BigEndianOfBytes(n, 8);
    }
  }

  lemma BodyByRule(f: Frame)
    requires FrameOk(f)
    ensures f.mask.Some? ==> forall i :: 0 <= i < |f.payload| ==> Body(f)[i] == f.payload[i] ^ f.mask.value[i % 4]
    ensures f.mask.None? ==> Body(f) == f.payload
  {
  }

  lemma CodeOf(f: Frame)
    requires FrameOk(f)
    ensures FirstByte(f) & 0x70 == 0
    ensures (SecondByte(f) & 0x7f) as nat == match f.form case Short => |f.payload| case Medium => 126 case Long => 127
  {
    var o := f.opcode;
    assert o < 16 ==> o & 0x70 == 0;
    CodeBits(f.fin, f.opcode, f.mask.Some?, FormCode(f.form, |f.payload|));
  }

  // Masking twice with the same key is the identity.
  lemma MaskTwice(data: seq<byte>, mask: seq<byte>, used: nat, masked: bool)
    requires |mask| == 4
    ensures Unmasked(Unmasked(data, mask, used, masked), mask, used, masked) == data
  {
    var once := Unmasked(data, mask, used, masked);
    forall i | 0 <= i < |data| ensures Unmasked(once, mask, used, masked)[i] == data[i] {
      if masked {
        XorTwice(data[i], mask[(used + i) % 4]);
      }
    }
  }

  lemma XorTwice(a: byte, b: byte)
    ensures Xor(Xor(a, b), b) == a
  {
  }

  // Nothing of the next frame has arrived.
  predicate Idle(p: Progress) {
    p.rc == OK && p.rx.header == [] && !p.rx.ready
  }

  // The receiver with this frame's header stored.
  function Loaded(p: Progress, f: Frame): Progress {
    var h := Header(f);
    p.(rx := p.rx.(header := h, needed := |h|, opcode := f.opcode, fin := f.fin, masked := f.mask.Some?))
  }

  lemma LoadedShape(capacity: nat, p: Progress, f: Frame)
    requires Sane(capacity, p) && Idle(p) && FrameOk(f)
    ensures Shape(capacity, Loaded(p, f)) && Complete(Loaded(p, f))
  {
    hide Header, HeaderSize, KeyPosition, LengthCode, IsControl;
    HeaderReads(f);
    assert 2 <= |Header(f)| by { HeaderLength(f); }
  }

  lemma HeaderLength(f: Frame)
    requires FrameOk(f)
    ensures 2 <= |Header(f)| <= HEADER_MAX && Header(f)[..2] == [FirstByte(f), SecondByte(f)]
    ensures |Header(f)| == 2 && f.payload == [] <==> Dangling(f)
  {
  }

  // The state in which a frame leaves the receiver.
  function After(s: Setting, p: Progress, f: Frame): Progress
    requires Sane(s.capacity, p) && Idle(p) && FrameOk(f)
  {
    LoadedShape(s.capacity, p, f);
    BeginShape(s, Loaded(p, f));
    var b := Begin(s, Loaded(p, f));
    if b.rc != OK then b else FinishIfDone(s, PayloadRun(b, Body(f)))
  }

  lemma BeginLength(s: Setting, p: Progress, f: Frame)
    requires Sane(s.capacity, p) && Idle(p) && FrameOk(f)
    ensures Shape(s.capacity, Loaded(p, f)) && Complete(Loaded(p, f))
    ensures var b := Begin(s, Loaded(p, f));
      Shape(s.capacity, b) && (b.rc == OK ==> b.rx.ready && b.rx.used == 0 && b.rx.length == |f.payload|)
  {
    hide Header, HeaderSize, KeyPosition, LengthCode, IsControl, Shape, PayloadLength, OpenFrame, LoadMask;
    LoadedShape(s.capacity, p, f);
    HeaderReads(f);
    BeginShape(s, Loaded(p, f));
  }

  lemma TwoBytes(p: Progress, f: Frame)
    requires FrameOk(f) && Idle(p)
    ensures HeaderByte(HeaderByte(p, FirstByte(f)), SecondByte(f))
         == p.(rx := Loaded(p, f).rx.(header := [FirstByte(f), SecondByte(f)]))
  {
    hide HeaderSize, KeyPosition, FirstByte, SecondByte;
    HeaderReads(f);
    assert Header(f)[0] == FirstByte(f) && Header(f)[1] == SecondByte(f);
  }

  // The first two bytes of a frame.
  lemma FeedFirstTwo(s: Setting, p: Progress, f: Frame, data: seq<byte>)
    requires Sane(s.capacity, p) && Idle(p) && FrameOk(f) && |data| >= 2 && data[..2] == [FirstByte(f), SecondByte(f)]
    ensures var q := p.(rx := Loaded(p, f).rx.(header := data[..2]));
      Sane(s.capacity, q) && Feed(s, p, data) == Feed(s, q, data[2..])
  {
    hide HeaderSize, Sane, Header, FirstByte, SecondByte, Step, Feed, HeaderByte;
    assert data[..2][0] == data[0] && data[..2][1] == data[1];
    FeedHeaderByte(s, p, data);
    OneByte(p, data[0]);
    FeedHeaderByte(s, HeaderByte(p, data[0]), data[1..]);
    assert data[1..][1..] == data[2..];
    TwoBytes(p, f);
  }

  lemma OneByte(p: Progress, b: byte)
    requires Idle(p)
    ensures var q := HeaderByte(p, b); q.rx.header == [b] && q.rc == OK
  {
  }

  // The header of a frame, then whatever follows it.
  lemma FeedHeader(s: Setting, p: Progress, f: Frame, data: seq<byte>)
    requires Sane(s.capacity, p) && Idle(p) && FrameOk(f) && (data != [] || |Header(f)| > 2)
    ensures Shape(s.capacity, Loaded(p, f)) && Complete(Loaded(p, f))
    ensures var b := Begin(s, Loaded(p, f));
      Shape(s.capacity, b) && (b.rc == OK ==> b.rx.ready) && Feed(s, p, Header(f) + data) == Settle(s, b, data)
  {
    hide Header, HeaderSize, Shape, Sane, KeyPosition, LengthCode, Begin, Settle, Step, Feed;
    HeaderLength(f);
    BeginLength(s, p, f);
    var h, all := Header(f), Header(f) + data;
    assert all[..2] == h[..2];
    FeedFirstTwo(s, p, f, all);
    var q := p.(rx := Loaded(p, f).rx.(header := h[..2]));
    if |h| == 2 {
      assert h[..2] == h && all[2..] == data;
      FeedLateBegin(s, q, data);
    } else {
      var n := |h| - 2;
      assert all[2..][..n] == h[2..] && h[..2] + h[2..] == h && all[2..][n..] == data;
      FeedCompletesHeader(s, q, all[2..], n);
    }
  }

  // A whole frame, however it arrives, has the effect After; unless it is two zero-length bytes with
  // nothing behind them.
  lemma FeedFrame(s: Setting, p: Progress, f: Frame, rest: seq<byte>)
    requires Sane(s.capacity, p) && Idle(p) && FrameOk(f) && (rest != [] || !Dangling(f))
    ensures Sane(s.capacity, After(s, p, f)) && Feed(s, p, Wire(f) + rest) == Feed(s, After(s, p, f), rest)
  {
    hide Header, HeaderSize, Shape, KeyPosition, LengthCode, Begin, Step, Feed, PayloadRun, FinishIfDone;
    HeaderLength(f);
    HeaderReads(f);
    BeginLength(s, p, f);
    FeedHeader(s, p, f, Body(f) + rest);
    assert Wire(f) + rest == Header(f) + (Body(f) + rest);
    var b := Begin(s, Loaded(p, f));
    if b.rc != OK {
      FeedStopped(s, b, rest);
    } else {
      var n := |f.payload|;
      FeedPayload(s, b, Body(f) + rest);
      assert (Body(f) + rest)[..n] == Body(f) && (Body(f) + rest)[n..] == rest;
    }
  }

  /** What the application sees of a receiver between frames: the message being collected, the
      callbacks made and the first error. */
  datatype Desk = Desk(open: Option<Event>, log: seq<Event>, rc: int)

  function DeskOf(p: Progress): Desk {
    Desk(if p.rc == OK && p.rx.fragmenting then Some(Event(p.rx.messageOpcode, p.rx.message)) else None, p.events, p.rc)
  }

  function Refuse(d: Desk, code: int): Desk {
    Desk(None, d.log, code)
  }

  function Tell(s: Setting, d: Desk, e: Event, open: Option<Event>): Desk {
    var log := d.log + [e];
    Desk(if s.reply(log) == OK then open else None, log, s.reply(log))
  }

  // A piece of a message: the last one is told, any other is kept open.
  function Collect(s: Setting, d: Desk, whole: Event, fin: bool): Desk {
    if fin then Tell(s, d, whole, None) else Desk(Some(whole), d.log, OK)
  }

  // Sections 5.4 and 5.5: control frames interrupt a fragmented message without ending it.
  function OnFrame(s: Setting, d: Desk, f: Frame): Desk {
    if d.rc != OK then d
    else if IsControl(f.opcode) then
      if |f.payload| > CONTROL_MAX then Refuse(d, UNSUPPORTED) else Tell(s, d, Event(f.opcode, f.payload), d.open)
    else if f.opcode == 0 then
      if d.open == None then Refuse(d, INVALID)
      else if |d.open.value.payload| + |f.payload| > s.capacity then Refuse(d, UNSUPPORTED)
      else Collect(s, d, Event(d.open.value.opcode, d.open.value.payload + f.payload), f.fin)
    else if f.opcode == TEXT || f.opcode == BINARY then
      if d.open.Some? then Refuse(d, INVALID)
      else if |f.payload| > s.capacity then Refuse(d, UNSUPPORTED)
      else Collect(s, d, Event(f.opcode, f.payload), f.fin)
    else Refuse(d, UNSUPPORTED)
  }

  // A frame that sections 5.4 and 5.5 allow here and that fits the buffers.
  predicate Admissible(capacity: nat, open: Option<Event>, f: Frame) {
    if f.opcode == 0x8 || f.opcode == 0x9 || f.opcode == 0xA then |f.payload| <= 125
    else if f.opcode == 0x0 then open.Some? && |open.value.payload| + |f.payload| <= capacity
    else (f.opcode == 0x1 || f.opcode == 0x2) && open.None? && |f.payload| <= capacity
  }

  /** What becomes of any frame: one that is not admissible stops the receiver and tells nothing, as invalid when it
      breaks the order of fragments; a control frame is told at once and leaves the open message alone; a data
      frame is joined to it, and the final one tells the whole. */
  lemma FramesAreJudged(s: Setting, d: Desk, f: Frame)
    requires d.rc == OK
    ensures var t := OnFrame(s, d, f);
      && (!Admissible(s.capacity, d.open, f) ==>
        && t.log == d.log && t.open == None
        && t.rc == if (f.opcode == 0 && d.open == None) || ((f.opcode == 1 || f.opcode == 2) && d.open.Some?) then INVALID else UNSUPPORTED)
      && (Admissible(s.capacity, d.open, f) && f.opcode >= 8 ==>
        t.log == d.log + [Event(f.opcode, f.payload)] && t.rc == s.reply(t.log) && (t.rc == OK ==> t.open == d.open))
      && (Admissible(s.capacity, d.open, f) && f.opcode < 8 ==>
        var whole := if f.opcode == 0 then Event(d.open.value.opcode, d.open.value.payload + f.payload) else Event(f.opcode, f.payload);
        if f.fin then t.log == d.log + [whole] && t.rc == s.reply(t.log) && t.open == None
        else t == Desk(Some(whole), d.log, OK))
  {
  }

  lemma LoadedKey(p: Progress, f: Frame)
    requires FrameOk(f) && |p.rx.mask| == 4
    ensures |Loaded(p, f).rx.header| >= 2 && (f.mask.Some? ==> |Loaded(p, f).rx.header| >= KeyPosition(Loaded(p, f).rx.header[1]) + 4)
    ensures LoadMask(Loaded(p, f)) == Loaded(p, f).(rx := Loaded(p, f).rx.(mask := if f.mask.Some? then f.mask.value else p.rx.mask))
  {
    hide Header, KeyPosition, LengthCode, HeaderSize;
    HeaderReads(f);
    HeaderLength(f);
    var h, at := Header(f), KeyPosition(Header(f)[1]);
    if f.mask.Some? {
      assert h[at..at + 4] == h[at..];
    }
  }

  // The payload that the receiver stores is the one the sender masked.
  lemma BodyUnmasks(f: Frame, mask: seq<byte>)
    requires FrameOk(f) && |mask| == 4 && (f.mask.Some? ==> mask == f.mask.value)
    ensures Unmasked(Body(f), mask, 0, f.mask.Some?) == f.payload
  {
    if f.mask.Some? {
      MaskTwice(f.payload, mask, 0, true);
    } else {
      assert Unmasked(Body(f), mask, 0, false) == f.payload;
    }
  }

  lemma MaskLength(capacity: nat, p: Progress)
    requires Sane(capacity, p)
    ensures |p.rx.mask| == 4
  {
  }

  // begin_frame on a stored header, spelled out.
  function Opened(s: Setting, p: Progress, f: Frame): Progress {
    var q := OpenFrame(Loaded(p, f).(rx := Loaded(p, f).rx.(mask := if f.mask.Some? then f.mask.value else p.rx.mask)));
    if q.rc != OK then q else Admit(s, q, |f.payload|)
  }

  lemma BeginOpens(s: Setting, p: Progress, f: Frame)
    requires Sane(s.capacity, p) && Idle(p) && FrameOk(f)
    ensures Shape(s.capacity, Loaded(p, f)) && Complete(Loaded(p, f)) && Begin(s, Loaded(p, f)) == Opened(s, p, f)
  {
    hide Header, KeyPosition, LengthCode, HeaderSize, OpenFrame, Admit, PayloadLength, Shape, LoadMask;
    BeginLength(s, p, f);
    MaskLength(s.capacity, p);
    LoadedKey(p, f);
    HeaderReads(f);
  }

  function Filled(p: Progress, payload: seq<byte>): Progress {
    p.(rx := if IsControl(p.rx.opcode) then p.rx.(control := p.rx.control + payload, used := p.rx.used + |payload|)
             else p.rx.(message := p.rx.message + payload, used := p.rx.used + |payload|))
  }

  lemma AfterIsFinish(s: Setting, p: Progress, f: Frame)
    requires Sane(s.capacity, p) && Idle(p) && FrameOk(f)
    ensures var b := Opened(s, p, f);
      After(s, p, f) == if b.rc != OK then b else Finish(s, Filled(b, f.payload))
  {
    hide Header, KeyPosition, LengthCode, HeaderSize, IsControl, Unmasked, Shape, Sane, Finish, Begin, Body;
    BeginOpens(s, p, f);
    BeginLength(s, p, f);
    MaskLength(s.capacity, p);
    var b := Opened(s, p, f);
    if b.rc == OK {
      OpenedMask(s, p, f);
      BodyUnmasks(f, b.rx.mask);
    }
  }

  lemma OpenedMask(s: Setting, p: Progress, f: Frame)
    requires |p.rx.mask| == 4 && FrameOk(f) && Idle(p)
    ensures var b := Opened(s, p, f);
      |b.rx.mask| == 4 && b.rx.masked == f.mask.Some? && (f.mask.Some? ==> b.rx.mask == f.mask.value) && b.rx.opcode == f.opcode
  {
    hide IsControl, Header;
  }

  // A stored frame, completed: what the callback and the next frame see.
  function Completed(s: Setting, p: Progress, f: Frame): Progress {
    var b := Opened(s, p, f);
    if b.rc != OK then b else Finish(s, Filled(b, f.payload))
  }

  lemma ControlOnFrame(s: Setting, p: Progress, f: Frame)
    requires Idle(p) && IsControl(f.opcode)
    ensures DeskOf(Completed(s, p, f)) == OnFrame(s, DeskOf(p), f)
  {
    hide Header;
    assert [] + f.payload == f.payload;
  }

  lemma ContinuationOnFrame(s: Setting, p: Progress, f: Frame)
    requires Idle(p) && f.opcode == 0 && |p.rx.message| <= s.capacity
    ensures DeskOf(Completed(s, p, f)) == OnFrame(s, DeskOf(p), f)
  {
    hide Header;
  }

  lemma DataOnFrame(s: Setting, p: Progress, f: Frame)
    requires Idle(p) && !IsControl(f.opcode) && f.opcode != 0
    ensures DeskOf(Completed(s, p, f)) == OnFrame(s, DeskOf(p), f)
  {
    hide Header, IsControl;
    assert [] + f.payload == f.payload;
  }

  lemma CompletedIdle(s: Setting, p: Progress, f: Frame)
    ensures Completed(s, p, f).rc == OK ==> Idle(Completed(s, p, f))
  {
    hide Header, IsControl, Opened;
  }

  // One frame moves what the application sees exactly as the two sections say.
  lemma AfterIsOnFrame(s: Setting, p: Progress, f: Frame)
    requires Sane(s.capacity, p) && Idle(p) && FrameOk(f)
    ensures DeskOf(After(s, p, f)) == OnFrame(s, DeskOf(p), f)
    ensures After(s, p, f).rc == OK ==> Idle(After(s, p, f))
  {
    hide Header, Shape, After, OnFrame, DeskOf, Opened, Filled, Finish;
    AfterIsFinish(s, p, f);
    CompletedIdle(s, p, f);
    if IsControl(f.opcode) {
      ControlOnFrame(s, p, f);
    } else if f.opcode == 0 {
      MessageFits(s.capacity, p);
      ContinuationOnFrame(s, p, f);
    } else {
      DataOnFrame(s, p, f);
    }
  }

  lemma MessageFits(capacity: nat, p: Progress)
    requires Sane(capacity, p)
    ensures |p.rx.message| <= capacity
  {
  }
}
