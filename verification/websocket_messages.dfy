/** Whole messages over the WebSocket receiver of apps/sendspin/sendspin_ws.c: fragments, control
    frames between them, and frames produced by its own encoder, in any split of the byte stream. */
module WebSocketMessages {
  import opened Common
  import opened ByteStream
  import opened WebSocket
  import opened WebSocketFrames

  function Wires(fs: seq<Frame>): seq<byte>
    requires forall f :: f in fs ==> FrameOk(f)
    decreases |fs|
  {
    if fs == [] then [] else Wire(fs[0]) + Wires(fs[1..])
  }

  function OnFrames(s: Setting, d: Desk, fs: seq<Frame>): Desk
    decreases |fs|
  {
    if fs == [] then d else OnFrames(s, OnFrame(s, d, fs[0]), fs[1..])
  }

  lemma {:induction false} OnFramesStopped(s: Setting, d: Desk, fs: seq<Frame>)
    requires d.rc != OK
    ensures OnFrames(s, d, fs) == d
    decreases |fs|
  {
    if fs != [] {
      OnFramesStopped(s, d, fs[1..]);
    }
  }

  lemma {:induction false} OnFramesAdd(s: Setting, d: Desk, a: seq<Frame>, b: seq<Frame>)
    ensures OnFrames(s, d, a + b) == OnFrames(s, OnFrames(s, d, a), b)
    decreases |a|
  {
    hide OnFrame;
    if a == [] {
      assert a + b == b;
    } else {
      OnFramesAdd(s, OnFrame(s, d, a[0]), a[1..], b);
      assert (a + b)[1..] == a[1..] + b;
    }
  }

  // The byte-level receiver refines the frame-level one.
  lemma {:induction false} FeedFrames(s: Setting, p: Progress, fs: seq<Frame>)
    requires Sane(s.capacity, p) && Idle(p) && (forall f :: f in fs ==> FrameOk(f)) && (fs == [] || !Dangling(fs[|fs| - 1]))
    ensures DeskOf(Feed(s, p, Wires(fs))) == OnFrames(s, DeskOf(p), fs)
    decreases |fs|
  {
    hide Sane, After, Wire, OnFrame, Feed, Idle, FrameOk, Dangling;
    if fs == [] {
      FeedNothing(s, p, Wires(fs));
    } else {
      var f, rest := fs[0], Wires(fs[1..]);
      if |fs| > 1 {
        WireNotEmpty(fs[1]);
      }
      FeedFrame(s, p, f, rest);
      AfterIsOnFrame(s, p, f);
      var q := After(s, p, f);
      if q.rc == OK {
        FeedFrames(s, q, fs[1..]);
      } else {
        FeedStopped(s, q, rest);
        OnFramesStopped(s, DeskOf(q), fs[1..]);
      }
    }
  }

  lemma WireNotEmpty(f: Frame)
    requires FrameOk(f)
    ensures Wire(f) != []
  {
    HeaderLength(f);
  }

  // The receiver fed one chunk after another.
  function FeedChunks(s: Setting, p: Progress, chunks: seq<seq<byte>>): Progress
    requires Sane(s.capacity, p)
    decreases |chunks|
  {
    if chunks == [] then p
    else
      FeedSane(s, p, chunks[0]);
      FeedChunks(s, Feed(s, p, chunks[0]), chunks[1..])
  }

  lemma {:induction false} ChunksDoNotMatter(s: Setting, p: Progress, chunks: seq<seq<byte>>)
    requires Sane(s.capacity, p)
    ensures FeedChunks(s, p, chunks) == Feed(s, p, Concat(chunks))
    decreases |chunks|
  {
    hide Sane, Step;
    if chunks != [] {
      FeedSane(s, p, chunks[0]);
      ChunksDoNotMatter(s, Feed(s, p, chunks[0]), chunks[1..]);
      FeedConcat(s, p, chunks[0], Concat(chunks[1..]));
    }
  }

  // Callbacks made one after another until one of them fails.
  function TellAll(s: Setting, d: Desk, es: seq<Event>): Desk
    decreases |es|
  {
    if es == [] || d.rc != OK then d else TellAll(s, Tell(s, d, es[0], d.open), es[1..])
  }

  lemma {:induction false} TellAllAdd(s: Setting, d: Desk, a: seq<Event>, b: seq<Event>)
    ensures TellAll(s, d, a + b) == TellAll(s, TellAll(s, d, a), b)
    decreases |a|
  {
    if a == [] {
      assert a + b == b;
    } else if d.rc == OK {
      TellAllAdd(s, Tell(s, d, a[0], d.open), a[1..], b);
      assert (a + b)[1..] == a[1..] + b;
    }
  }

  // Each event is told once and in order; all of them unless a callback failed.
  lemma {:induction false} ToldOnceInOrder(s: Setting, d: Desk, es: seq<Event>)
    requires d.rc == OK
    ensures var r := TellAll(s, d, es);
      && |d.log| <= |r.log| <= |d.log| + |es|
      && r.log == (d.log + es)[..|r.log|]
      && (r.rc == OK ==> r.log == d.log + es)
      && (r.rc != OK ==> s.reply(r.log) == r.rc)
      && (forall k :: |d.log| < k < |r.log| ==> s.reply(r.log[..k]) == OK)
    decreases |es|
  {
    var r := TellAll(s, d, es);
    if es != [] {
      var t := Tell(s, d, es[0], d.open);
      assert t.log + es[1..] == d.log + es;
      if t.rc == OK {
        ToldOnceInOrder(s, t, es[1..]);
        assert r.log[..|t.log|] == t.log;
      } else {
        assert t.log == (d.log + es)[..|t.log|];
      }
    } else {
      assert d.log + es == d.log;
    }
  }

  lemma {:induction false} TellAllOpen(s: Setting, d: Desk, es: seq<Event>)
    requires d.rc == OK
    ensures var r := TellAll(s, d, es);
      r.open == (if r.rc == OK then d.open else None) && TellAll(s, d.(open := None), es) == r.(open := None)
    decreases |es|
  {
    if es != [] {
      var t := Tell(s, d, es[0], d.open);
      if t.rc == OK {
        TellAllOpen(s, t, es[1..]);
      }
    }
  }

  // How a sender laid out one frame, a control message, and a message in parts; control frames may
  // precede any part.
  datatype Style = Style(form: LengthForm, mask: Option<seq<byte>>)
  datatype Control = Control(opcode: byte, payload: seq<byte>, style: Style)
  datatype Part = Part(controls: seq<Control>, payload: seq<byte>, style: Style)
  datatype Item = Alone(control: Control) | Message(opcode: byte, parts: seq<Part>)

  predicate StyleOk(style: Style, n: nat) {
    Fits(style.form, n) && (style.mask.Some? ==> |style.mask.value| == 4)
  }

  predicate ControlOk(c: Control) {
    IsControl(c.opcode) && |c.payload| <= CONTROL_MAX && StyleOk(c.style, |c.payload|)
  }

  predicate PartOk(part: Part) {
    StyleOk(part.style, |part.payload|) && forall c :: c in part.controls ==> ControlOk(c)
  }

  predicate ItemOk(item: Item, capacity: nat) {
    match item
    case Alone(c) => ControlOk(c)
    case Message(opcode, parts) =>
      (opcode == TEXT || opcode == BINARY) && parts != [] && (forall part :: part in parts ==> PartOk(part)) && |Text(parts)| <= capacity
  }

  function Text(parts: seq<Part>): seq<byte>
    decreases |parts|
  {
    if parts == [] then [] else parts[0].payload + Text(parts[1..])
  }

  function ControlFrame(c: Control): Frame {
    Frame(true, c.opcode, c.style.form, c.style.mask, c.payload)
  }

  function ControlFrames(cs: seq<Control>): seq<Frame>
    decreases |cs|
  {
    if cs == [] then [] else [ControlFrame(cs[0])] + ControlFrames(cs[1..])
  }

  // The first part carries the message's opcode, every other one opcode 0; the last one carries FIN.
  function PartFrames(parts: seq<Part>, opcode: byte): seq<Frame>
    decreases |parts|
  {
    if parts == [] then []
    else
      ControlFrames(parts[0].controls) + [Piece(parts, opcode)] + PartFrames(parts[1..], 0)
  }

  function ItemFrames(items: seq<Item>): seq<Frame>
    decreases |items|
  {
    if items == [] then []
    else (if items[0].Alone? then [ControlFrame(items[0].control)] else PartFrames(items[0].parts, items[0].opcode)) + ItemFrames(items[1..])
  }

  function ControlEvents(cs: seq<Control>): seq<Event>
    decreases |cs|
  {
    if cs == [] then [] else [Event(cs[0].opcode, cs[0].payload)] + ControlEvents(cs[1..])
  }

  function PartEvents(parts: seq<Part>): seq<Event>
    decreases |parts|
  {
    if parts == [] then [] else ControlEvents(parts[0].controls) + PartEvents(parts[1..])
  }

  // What the application is owed: control messages as they arrive, a message once its last part has.
  function ItemEvents(items: seq<Item>): seq<Event>
    decreases |items|
  {
    if items == [] then []
    else
      (if items[0].Alone? then ControlEvents([items[0].control])
       else PartEvents(items[0].parts) + [Event(items[0].opcode, Text(items[0].parts))]) + ItemEvents(items[1..])
  }

  lemma {:induction false} ControlsAreTold(s: Setting, d: Desk, cs: seq<Control>)
    requires forall c :: c in cs ==> ControlOk(c)
    ensures OnFrames(s, d, ControlFrames(cs)) == TellAll(s, d, ControlEvents(cs))
    decreases |cs|
  {
    if d.rc != OK {
      OnFramesStopped(s, d, ControlFrames(cs));
    } else if cs != [] {
      var t := OnFrame(s, d, ControlFrame(cs[0]));
      assert ControlOk(cs[0]) && t == Tell(s, d, Event(cs[0].opcode, cs[0].payload), d.open);
      ControlsAreTold(s, t, cs[1..]);
      assert ControlEvents(cs)[1..] == ControlEvents(cs[1..]) && ControlFrames(cs)[1..] == ControlFrames(cs[1..]);
    }
  }

  function Piece(parts: seq<Part>, opcode: byte): Frame
    requires parts != []
  {
    Frame(|parts| == 1, opcode, parts[0].style.form, parts[0].style.mask, parts[0].payload)
  }

  // The rest of a message of which `sofar` has arrived.
  ghost predicate Collecting(s: Setting, d: Desk, first: bool, kind: byte, sofar: seq<byte>, parts: seq<Part>) {
    && d.rc == OK && (kind == TEXT || kind == BINARY) && parts != [] && (forall part :: part in parts ==> PartOk(part))
    && d.open == (if first then None else Some(Event(kind, sofar))) && (first ==> sofar == []) && |sofar| + |Text(parts)| <= s.capacity
  }

  lemma {:induction false} PartsAreCollected(s: Setting, d: Desk, first: bool, kind: byte, sofar: seq<byte>, parts: seq<Part>)
    requires Collecting(s, d, first, kind, sofar, parts)
    ensures OnFrames(s, d, PartFrames(parts, if first then kind else 0))
         == TellAll(s, d.(open := None), PartEvents(parts) + [Event(kind, sofar + Text(parts))])
    decreases |parts|, 1
  {
    hide OnFrame, TellAll, OnFrames, Text;
    var opcode, cs, whole := if first then kind else 0, parts[0].controls, Event(kind, sofar + Text(parts));
    var fs, es := [Piece(parts, opcode)] + PartFrames(parts[1..], 0), PartEvents(parts[1..]) + [whole];
    assert PartOk(parts[0]);
    OnFramesAdd(s, d, ControlFrames(cs), fs);
    assert PartFrames(parts, opcode) == ControlFrames(cs) + fs;
    ControlsAreTold(s, d, cs);
    TellAllOpen(s, d, ControlEvents(cs));
    TellAllAdd(s, d.(open := None), ControlEvents(cs), es);
    assert PartEvents(parts) + [whole] == ControlEvents(cs) + es;
    var e := TellAll(s, d, ControlEvents(cs));
    if e.rc != OK {
      OnFramesStopped(s, e, fs);
      TellAllStopped(s, e, es);
    } else {
      PieceIsCollected(s, e, first, kind, sofar, parts);
    }
  }

  lemma {:induction false} PieceIsCollected(s: Setting, d: Desk, first: bool, kind: byte, sofar: seq<byte>, parts: seq<Part>)
    requires Collecting(s, d, first, kind, sofar, parts)
    ensures OnFrames(s, d, [Piece(parts, if first then kind else 0)] + PartFrames(parts[1..], 0))
         == TellAll(s, d.(open := None), PartEvents(parts[1..]) + [Event(kind, sofar + Text(parts))])
    decreases |parts|, 0
  {
    hide OnFrame, TellAll, OnFrames, PartEvents;
    var f := Piece(parts, if first then kind else 0);
    OnFramesFirst(s, d, f, PartFrames(parts[1..], 0));
    PieceOnFrame(s, d, first, kind, sofar, parts[0], f);
    if |parts| == 1 {
      LastPiece(s, d, kind, sofar, parts);
      OnFramesNone(s, OnFrame(s, d, f), PartFrames(parts[1..], 0));
    } else {
      assert sofar + parts[0].payload + Text(parts[1..]) == sofar + Text(parts);
      PartsAreCollected(s, OnFrame(s, d, f), false, kind, sofar + parts[0].payload, parts[1..]);
    }
  }

  lemma TellAllStopped(s: Setting, d: Desk, es: seq<Event>)
    requires d.rc != OK
    ensures TellAll(s, d, es) == d
  {
  }

  lemma OnFramesNone(s: Setting, d: Desk, fs: seq<Frame>)
    requires fs == []
    ensures OnFrames(s, d, fs) == d
  {
  }

  lemma OnFramesFirst(s: Setting, d: Desk, f: Frame, fs: seq<Frame>)
    ensures OnFrames(s, d, [f] + fs) == OnFrames(s, OnFrame(s, d, f), fs)
  {
    hide OnFrame;
    assert ([f] + fs)[1..] == fs;
  }

  lemma PieceOnFrame(s: Setting, d: Desk, first: bool, kind: byte, sofar: seq<byte>, part: Part, f: Frame)
    requires d.rc == OK && (kind == TEXT || kind == BINARY) && |sofar| + |part.payload| <= s.capacity
    requires d.open == (if first then None else Some(Event(kind, sofar))) && (first ==> sofar == [])
    requires f.payload == part.payload && f.opcode == if first then kind else 0
    ensures OnFrame(s, d, f) == Collect(s, d, Event(kind, sofar + part.payload), f.fin)
  {
    assert first ==> sofar + part.payload == part.payload;
  }

  lemma LastPiece(s: Setting, d: Desk, kind: byte, sofar: seq<byte>, parts: seq<Part>)
    requires |parts| == 1 && d.rc == OK
    ensures TellAll(s, d.(open := None), PartEvents(parts[1..]) + [Event(kind, sofar + Text(parts))])
         == Tell(s, d, Event(kind, sofar + parts[0].payload), None)
  {
    var e := Event(kind, sofar + Text(parts));
    assert Text(parts) == parts[0].payload by { assert Text(parts[1..]) == []; }
    assert PartEvents(parts[1..]) + [e] == [e];
    var d' := d.(open := None);
    assert TellAll(s, d', [e]) == TellAll(s, Tell(s, d', e, None), [e][1..]);
    assert [e][1..] == [];
  }

  // Messages cut into parts, with control messages in between, are collected again.
  lemma {:induction false} ItemsAreTold(s: Setting, d: Desk, items: seq<Item>)
    requires d.open == None && forall item :: item in items ==> ItemOk(item, s.capacity)
    ensures OnFrames(s, d, ItemFrames(items)) == TellAll(s, d, ItemEvents(items))
    decreases |items|
  {
    hide OnFrame, OnFrames, TellAll;
    if d.rc != OK {
      OnFramesStopped(s, d, ItemFrames(items));
      TellAllStopped(s, d, ItemEvents(items));
    } else if items == [] {
      OnFramesNone(s, d, ItemFrames(items));
      TellAllNone(s, d);
    } else {
      var item := items[0];
      var fs := if item.Alone? then [ControlFrame(item.control)] else PartFrames(item.parts, item.opcode);
      var es := if item.Alone? then ControlEvents([item.control]) else PartEvents(item.parts) + [Event(item.opcode, Text(item.parts))];
      assert ItemOk(item, s.capacity);
      OnFramesAdd(s, d, fs, ItemFrames(items[1..]));
      TellAllAdd(s, d, es, ItemEvents(items[1..]));
      if item.Alone? {
        ControlsAreTold(s, d, [item.control]);
        assert ControlFrames([item.control]) == fs;
      } else {
        PartsAreCollected(s, d, true, item.opcode, [], item.parts);
        assert [] + Text(item.parts) == Text(item.parts);
      }
      TellAllOpen(s, d, es);
      ItemsAreTold(s, TellAll(s, d, es), items[1..]);
    }
  }

  lemma TellAllNone(s: Setting, d: Desk)
    ensures TellAll(s, d, []) == d
  {
  }

  lemma {:induction false} ControlFramesOk(cs: seq<Control>)
    requires forall c :: c in cs ==> ControlOk(c)
    ensures forall f :: f in ControlFrames(cs) ==> FrameOk(f)
    decreases |cs|
  {
    if cs != [] {
      assert ControlOk(cs[0]);
      ControlFramesOk(cs[1..]);
    }
  }

  lemma {:induction false} PartFramesOk(parts: seq<Part>, opcode: byte)
    requires opcode < 16 && forall part :: part in parts ==> PartOk(part)
    ensures forall f :: f in PartFrames(parts, opcode) ==> FrameOk(f)
    decreases |parts|
  {
    if parts != [] {
      assert PartOk(parts[0]);
      ControlFramesOk(parts[0].controls);
      PartFramesOk(parts[1..], 0);
    }
  }

  lemma {:induction false} ItemFramesOk(items: seq<Item>, capacity: nat)
    requires forall item :: item in items ==> ItemOk(item, capacity)
    ensures forall f :: f in ItemFrames(items) ==> FrameOk(f)
    decreases |items|
  {
    if items != [] {
      assert ItemOk(items[0], capacity);
      if items[0].Alone? {
        ControlFramesOk([items[0].control]);
        assert ControlOk(items[0].control);
      } else {
        PartFramesOk(items[0].parts, items[0].opcode);
      }
      ItemFramesOk(items[1..], capacity);
    }
  }

  /** The receiver delivers a stream of messages once each, in order, with their exact payloads, however
      the sender fragmented and masked them and however the bytes were cut into chunks. */
  lemma MessagesAreDelivered(s: Setting, p: Progress, items: seq<Item>, chunks: seq<seq<byte>>)
    requires Sane(s.capacity, p) && Idle(p) && !p.rx.fragmenting
    requires forall item :: item in items ==> ItemOk(item, s.capacity)
    requires (ItemFramesOk(items, s.capacity); Concat(chunks) == Wires(ItemFrames(items)))
    requires ItemFrames(items) == [] || !Dangling(ItemFrames(items)[|ItemFrames(items)| - 1])
    ensures DeskOf(FeedChunks(s, p, chunks)) == TellAll(s, DeskOf(p), ItemEvents(items))
  {
    hide Sane, Dangling, FrameOk, ItemOk, OnFrames, TellAll, Idle, FeedChunks, ItemFrames, ItemEvents;
    ItemFramesOk(items, s.capacity);
    ChunksDoNotMatter(s, p, chunks);
    FeedFrames(s, p, ItemFrames(items));
    ItemsAreTold(s, DeskOf(p), items);
  }

  // The exception, exactly: a two-byte frame is told only when a later byte arrives.
  lemma DanglingWaits(s: Setting, p: Progress, f: Frame, b: byte)
    requires Sane(s.capacity, p) && Idle(p) && FrameOk(f) && Dangling(f)
    ensures DeskOf(Feed(s, p, Wire(f))) == DeskOf(p)
    ensures DeskOf(Feed(s, p, Wire(f) + [b])).log == OnFrame(s, DeskOf(p), f).log
  {
    hide Sane, HeaderSize, Header, Body, FirstByte, SecondByte, Feed, OnFrame, Step, After;
    HeaderLength(f);
    var w := Wire(f);
    assert w == Header(f) + Body(f) == Header(f)[..2];
    FeedFirstTwo(s, p, f, w);
    var q := p.(rx := Loaded(p, f).rx.(header := w[..2]));
    FeedNothing(s, q, w[2..]);
    FeedFrame(s, p, f, [b]);
    AfterIsOnFrame(s, p, f);
    var a := After(s, p, f);
    if a.rc != OK {
      FeedStopped(s, a, [b]);
    } else {
      FeedHeaderByte(s, a, [b]);
      FeedNothing(s, HeaderByte(a, b), [b][1..]);
    }
  }

  // mask_key as the four bytes that go on the wire, least significant first.
  function KeyBytes(key: u32): (r: seq<byte>)
    ensures |r| == 4
  {
    [(key % 256) as byte, (key / 256 % 256) as byte, (key / 256 / 256 % 256) as byte, (key / 256 / 256 / 256 % 256) as byte]
  }

  function ShortestForm(n: nat): LengthForm {
    if n <= 125 then Short else if n <= 0xFFFF then Medium else Long
  }

  // The one frame the encoder makes: final, masked, in the shortest form.
  function EncodedFrame(opcode: byte, payload: seq<byte>, key: u32): Frame {
    Frame(true, opcode & 0x0f, ShortestForm(|payload|), Some(KeyBytes(key)), payload)
  }

  lemma EncodedFrameOk(opcode: byte, payload: seq<byte>, key: u32)
    requires |payload| + HEADER_MAX < TWO64
    ensures var f := EncodedFrame(opcode, payload, key); FrameOk(f) && !Dangling(f) && (opcode < 16 ==> f.opcode == opcode)
  {
  }

  /** What the encoder puts into its frame: FIN, the opcode, a mask, and the shortest of the three lengths; the
      key goes on the wire least significant byte first. */
  lemma EncodedIsShortest(opcode: byte, payload: seq<byte>, key: u32)
    ensures var f := EncodedFrame(opcode, payload, key);
      && f.fin && f.opcode == opcode & 0x0f && f.payload == payload && f.mask.Some? && |f.mask.value| == 4
      && (f.form.Short? <==> |payload| <= 125) && (f.form.Long? <==> |payload| > 65535)
      && key == f.mask.value[0] as int + 256 * f.mask.value[1] as int + 0x1_0000 * f.mask.value[2] as int + 0x100_0000 * f.mask.value[3] as int
  {
    ByteRoundTrip(key % 256);
    ByteRoundTrip(key / 256 % 256);
    ByteRoundTrip(key / 256 / 256 % 256);
    ByteRoundTrip(key / 256 / 256 / 256 % 256);
  }

  method WriteBytes(dst: array<byte>, at: nat, value: nat, n: nat)
    requires at + n <= dst.Length
    modifies dst
    ensures forall k :: 0 <= k < dst.Length ==> dst[k] == if at <= k < at + n then BytesOf(value, n)[k - at] else old(dst[k])
  {
    var i := 0;
    while i < n
      invariant i <= n
      invariant forall k :: 0 <= k < dst.Length ==> dst[k] == if at <= k < at + i then BytesOf(value, n)[k - at] else old(dst[k])
    {
      BytesOfAt(value, n, i);
      dst[at + i] := (Shr(value, n - 1 - i) % 256) as byte;
      i := i + 1;
    }
  }

  // Four bytes of the payload at a time, then the rest.
  method MaskInto(dst: array<byte>, at: nat, payload: seq<byte>, key: seq<byte>)
    requires at + |payload| <= dst.Length && |key| == 4
    modifies dst
    ensures Written(old(dst[..]), dst[..], at, Unmasked(payload, key, 0, true), |payload|)
  {
    hide Xor;
    ghost var before, goal := dst[..], Unmasked(payload, key, 0, true);
    var i := 0;
    while i + 4 <= |payload|
      invariant i <= |payload| && i % 4 == 0 && Written(before, dst[..], at, goal, i)
    {
      assert goal[i] == Xor(payload[i], key[0]) && goal[i + 1] == Xor(payload[i + 1], key[1]);
      assert goal[i + 2] == Xor(payload[i + 2], key[2]) && goal[i + 3] == Xor(payload[i + 3], key[3]);
      dst[at + i] := Xor(payload[i], key[0]);
      dst[at + i + 1] := Xor(payload[i + 1], key[1]);
      dst[at + i + 2] := Xor(payload[i + 2], key[2]);
      dst[at + i + 3] := Xor(payload[i + 3], key[3]);
      i := i + 4;
    }
    while i < |payload|
      invariant i <= |payload| && Written(before, dst[..], at, goal, i)
    {
      dst[at + i] := Xor(payload[i], key[i % 4]);
      i := i + 1;
    }
  }

  // Header bytes of an encoded frame: two, the length, the key.
  function Prefix(n: nat): (r: nat)
    ensures r == 2 + |LengthBytes(ShortestForm(n), n)| <= 10
  {
    2 + if n <= 125 then 0 else if n <= 0xFFFF then 2 else 8
  }

  method EncodeLength(dst: array<byte>, length: nat) returns (position: nat)
    requires length < TWO64 && dst.Length >= Prefix(length)
    modifies dst
    ensures position == Prefix(length)
    ensures dst[1] == 0x80 | (FormCode(ShortestForm(length), length) as byte)
    ensures forall k :: 2 <= k < position ==> dst[k] == LengthBytes(ShortestForm(length), length)[k - 2]
    ensures dst[0] == old(dst[0]) && forall k :: position <= k < dst.Length ==> dst[k] == old(dst[k])
  {
    hide BytesOf;
    position := 2;
    if length <= 125 {
      dst[1] := 0x80 | (length as byte);
    } else if length <= 0xFFFF {
      dst[1] := 0x80 | 126;
      WriteBytes(dst, 2, length, 2);
      position := 4;
    } else {
      dst[1] := 0x80 | 127;
      WriteBytes(dst, 2, length, 8);
      position := 10;
    }
  }

  method EncodeHeader(dst: array<byte>, opcode: byte, payload: seq<byte>, maskKey: u32) returns (position: nat)
    requires |payload| + HEADER_MAX < TWO64 && dst.Length >= Prefix(|payload|) + 4
    modifies dst
    ensures position == Prefix(|payload|) && |Header(EncodedFrame(opcode, payload, maskKey))| == position + 4
    ensures forall k :: 0 <= k < dst.Length ==>
      dst[k] == if k < position + 4 then Header(EncodedFrame(opcode, payload, maskKey))[k] else old(dst[k])
  {
    hide BytesOf, FormCode, KeyBytes, LengthBytes, FirstByte, SecondByte, Header, ShortestForm, Prefix;
    dst[0] := 0x80 | (opcode & 0x0f);
    position := EncodeLength(dst, |payload|);
    var key := KeyBytes(maskKey);
    dst[position], dst[position + 1], dst[position + 2], dst[position + 3] := key[0], key[1], key[2], key[3];
    FirstTwo(opcode, payload, maskKey);
    HeaderParts(opcode, payload, maskKey);
  }

  // Where the parts of the header stand.
  lemma HeaderParts(opcode: byte, payload: seq<byte>, maskKey: u32)
    ensures var f := EncodedFrame(opcode, payload, maskKey); var h, p := Header(f), Prefix(|payload|);
      && |h| == p + 4 && 2 <= p && p == 2 + |LengthBytes(ShortestForm(|payload|), |payload|)|
      && h[0] == FirstByte(f) && h[1] == SecondByte(f) && h[p..] == KeyBytes(maskKey)
      && h[2..p] == LengthBytes(ShortestForm(|payload|), |payload|)
  {
    hide BytesOf, FormCode, KeyBytes, LengthBytes, FirstByte, SecondByte, ShortestForm;
  }

  lemma FirstTwo(opcode: byte, payload: seq<byte>, maskKey: u32)
    ensures var f := EncodedFrame(opcode, payload, maskKey);
      FirstByte(f) == 0x80 | (opcode & 0x0f) && SecondByte(f) == 0x80 | (FormCode(ShortestForm(|payload|), |payload|) as byte)
  {
    assert (opcode & 0x0f) & 0x0f == opcode & 0x0f;
  }

  lemma EncodedSize(opcode: byte, payload: seq<byte>, maskKey: u32)
    ensures |Header(EncodedFrame(opcode, payload, maskKey))| == Prefix(|payload|) + 4
  {
  }

  // eaf_sendspin_ws_encode writes exactly the frame, or nothing.
  method Encode(dst: array<byte>, opcode: byte, payload: seq<byte>, maskKey: u32) returns (rc: int, written: nat)
    requires |payload| + HEADER_MAX < TWO64
    modifies dst
    ensures (EncodedFrameOk(opcode, payload, maskKey); var wire := Wire(EncodedFrame(opcode, payload, maskKey));
      && (|wire| <= dst.Length ==>
        rc == OK && written == |wire| && forall k :: 0 <= k < dst.Length ==> dst[k] == if k < written then wire[k] else old(dst[k]))
      && (|wire| > dst.Length ==> rc == INVALID && dst[..] == old(dst[..])))
  {
    hide Xor, BytesOf, FormCode, KeyBytes, LengthBytes, FirstByte, SecondByte, Unmasked, ShortestForm;
    EncodedFrameOk(opcode, payload, maskKey);
    ghost var f := EncodedFrame(opcode, payload, maskKey);
    var position := 2;
    if |payload| > 125 {
      position := position + if |payload| <= 0xFFFF then 2 else 8;
    }
    written := position + 4 + |payload|;
    EncodedSize(opcode, payload, maskKey);
    if written > dst.Length {
      return INVALID, written;
    }
    position := EncodeHeader(dst, opcode, payload, maskKey);
    MaskInto(dst, position + 4, payload, KeyBytes(maskKey));
    rc := OK;
  }

  // A payload handed to the encoder.
  datatype Outgoing = Outgoing(opcode: byte, payload: seq<byte>, key: u32)

  predicate Sendable(o: Outgoing, capacity: nat) {
    if IsControl(o.opcode) then |o.payload| <= CONTROL_MAX
    else (o.opcode == TEXT || o.opcode == BINARY) && |o.payload| <= capacity && |o.payload| + HEADER_MAX < TWO64
  }

  function EncodedItems(out: seq<Outgoing>): (r: seq<Frame>)
    ensures |r| == |out| && forall k :: 0 <= k < |out| ==> r[k] == EncodedFrame(out[k].opcode, out[k].payload, out[k].key)
  {
    seq(|out|, k requires 0 <= k < |out| => EncodedFrame(out[k].opcode, out[k].payload, out[k].key))
  }

  function Owed(out: seq<Outgoing>): (r: seq<Event>)
    ensures |r| == |out| && forall k :: 0 <= k < |out| ==> r[k] == Event(out[k].opcode, out[k].payload)
  {
    seq(|out|, k requires 0 <= k < |out| => Event(out[k].opcode, out[k].payload))
  }

  lemma SendableFrames(out: seq<Outgoing>, capacity: nat)
    requires forall o :: o in out ==> Sendable(o, capacity)
    ensures forall f :: f in EncodedItems(out) ==> FrameOk(f) && !Dangling(f)
  {
    forall f | f in EncodedItems(out) ensures FrameOk(f) && !Dangling(f) {
      var k :| 0 <= k < |out| && EncodedItems(out)[k] == f;
      assert Sendable(out[k], capacity);
      EncodedFrameOk(out[k].opcode, out[k].payload, out[k].key);
    }
  }

  lemma {:induction false} EncodedAreTold(s: Setting, d: Desk, out: seq<Outgoing>)
    requires d.open == None && forall o :: o in out ==> Sendable(o, s.capacity)
    ensures OnFrames(s, d, EncodedItems(out)) == TellAll(s, d, Owed(out))
    decreases |out|
  {
    hide KeyBytes;
    if d.rc != OK {
      OnFramesStopped(s, d, EncodedItems(out));
    } else if out != [] {
      var o, f := out[0], EncodedItems(out)[0];
      assert Sendable(o, s.capacity);
      EncodedFrameOk(o.opcode, o.payload, o.key);
      assert OnFrame(s, d, f) == Tell(s, d, Event(o.opcode, o.payload), None);
      EncodedAreTold(s, OnFrame(s, d, f), out[1..]);
      assert EncodedItems(out)[1..] == EncodedItems(out[1..]) && Owed(out)[1..] == Owed(out[1..]);
    }
  }

  /** Everything the encoder produced is delivered once, in order, with its exact payload, in any split. */
  lemma EncodedIsDelivered(s: Setting, p: Progress, out: seq<Outgoing>, chunks: seq<seq<byte>>)
    requires Sane(s.capacity, p) && Idle(p) && !p.rx.fragmenting
    requires forall o :: o in out ==> Sendable(o, s.capacity)
    requires (SendableFrames(out, s.capacity); Concat(chunks) == Wires(EncodedItems(out)))
    ensures DeskOf(FeedChunks(s, p, chunks)) == TellAll(s, DeskOf(p), Owed(out))
  {
    hide Sane, Dangling, FrameOk, Sendable, OnFrames, TellAll, Idle, FeedChunks;
    SendableFrames(out, s.capacity);
    ChunksDoNotMatter(s, p, chunks);
    FeedFrames(s, p, EncodedItems(out));
    EncodedAreTold(s, DeskOf(p), out);
  }
}
