/** The stream machine of apps/lms/lms_client.c: when data may flow, when output is released and what the
    server is told, under any results of the socket and the callbacks. */
module LmsClient {
  import opened Common
  import opened ByteStream
  import opened LmsFeed
  import opened PcmFrames
  import opened RingArithmetic

  const TX := 4096
  const REQUEST := 2048
  const CHUNK_RX := 1024

  // What one stream does that the server, the output or the callback can see.
  datatype Event =
    | Continued              // cont accepted
    | Resumed | Held         // strm u and strm p accepted
    | Shown(frames: nat, wrote: nat)
    | Ended                  // the eof callback
    | SaidReady              // STMl queued
    | Released               // the release callback
    | SaidDrained            // STMd queued
    | SaidStarted            // STMs queued

  // How a stream was started; `dirty` says that the ring still held bytes.
  datatype Terms = Terms(buffered: bool, ready: nat, cont: bool, waiting: bool, dirty: bool)

  // What has happened in it.
  datatype Story = Story(
    cont: bool, waiting: bool, held: bool, accepted: nat, ended: bool, saidReady: bool, released: bool, saidDrained: bool,
    saidStarted: bool)

  function Opening(t: Terms): Story {
    Story(t.cont, t.waiting, false, 0, false, false, false, false, false)
  }

  // What a stream is allowed to do next.
  predicate Allowed(t: Terms, s: Story, e: Event) {
    match e
    case Continued => true
    case Resumed => s.cont && (s.waiting ==> s.saidReady)
    case Held => true
    case Shown(frames, wrote) => (s.cont || t.dirty) && 0 < frames && wrote <= frames
    case Ended => !s.ended && (s.cont || t.dirty)
    case SaidReady => !s.saidReady && !s.released && s.waiting
    case Released => t.buffered && s.cont && !s.waiting && !s.held && !s.released && (s.accepted >= t.ready || s.ended)
    case SaidDrained => s.ended && !s.saidDrained && (t.buffered ==> s.released)
    case SaidStarted => s.cont && !s.waiting && !s.saidStarted
  }

  function Apply(s: Story, e: Event): Story {
    match e
    case Continued => s.(cont := true)
    case Resumed => s.(waiting := false, held := false)
    case Held => s.(held := true)
    case Shown(frames, wrote) => s.(accepted := s.accepted + wrote)
    case Ended => s.(ended := true)
    case SaidReady => s.(saidReady := true)
    case Released => s.(released := true)
    case SaidDrained => s.(saidDrained := true)
    case SaidStarted => s.(saidStarted := true)
  }

  function StoryOf(t: Terms, trace: seq<Event>): Story
    decreases |trace|
  {
    if trace == [] then Opening(t) else Apply(StoryOf(t, trace[..|trace| - 1]), trace[|trace| - 1])
  }

  // Every event was allowed when it happened.
  ghost predicate Lawful(t: Terms, trace: seq<Event>) {
    forall i :: 0 <= i < |trace| ==> Allowed(t, StoryOf(t, trace[..i]), trace[i])
  }

  lemma LawfulMore(t: Terms, trace: seq<Event>, e: Event)
    requires Lawful(t, trace) && Allowed(t, StoryOf(t, trace), e)
    ensures Lawful(t, trace + [e]) && StoryOf(t, trace + [e]) == Apply(StoryOf(t, trace), e)
  {
    hide Allowed, Apply;
    var more := trace + [e];
    assert more[..|trace|] == trace;
    forall i | 0 <= i < |more| ensures Allowed(t, StoryOf(t, more[..i]), more[i]) {
      assert i < |trace| ==> more[..i] == trace[..i];
    }
  }

  lemma NewStory(t: Terms)
    ensures Lawful(t, []) && StoryOf(t, []) == Opening(t)
  {
  }

  // A flag once up stays up.
  predicate Grown(a: Story, b: Story) {
    && (a.cont ==> b.cont) && (a.ended ==> b.ended) && (a.saidReady ==> b.saidReady) && (a.released ==> b.released)
    && (a.saidDrained ==> b.saidDrained) && (a.saidStarted ==> b.saidStarted) && (b.waiting ==> a.waiting)
  }

  lemma {:induction false} StoryGrows(t: Terms, trace: seq<Event>, i: nat)
    requires i <= |trace|
    ensures Grown(StoryOf(t, trace[..i]), StoryOf(t, trace))
    decreases |trace|
  {
    hide Apply, Grown;
    if i < |trace| {
      var prefix, e := trace[..|trace| - 1], trace[|trace| - 1];
      assert prefix[..i] == trace[..i];
      StoryGrows(t, prefix, i);
      ApplyGrows(StoryOf(t, trace[..i]), StoryOf(t, prefix), e);
    } else {
      assert trace[..i] == trace;
      GrownSame(StoryOf(t, trace));
    }
  }

  lemma ApplyGrows(a: Story, b: Story, e: Event)
    requires Grown(a, b)
    ensures Grown(a, Apply(b, e))
  {
  }

  lemma GrownSame(a: Story)
    ensures Grown(a, a)
  {
  }

  // The two events are in no order the client rules out: no event of these kinds repeats, and release, ready and
  // drained come in their order.
  predicate Ordered(t: Terms, first: Event, second: Event) {
    && !(first == second && (first.Released? || first.SaidReady? || first.SaidDrained? || first.Ended? || first.SaidStarted?))
    && !(first.Released? && second.SaidReady?)
    && (t.buffered ==> !(first.SaidDrained? && second.Released?))
    && !(first.SaidDrained? && second.Ended?)
  }

  lemma AllowedInOrder(t: Terms, s: Story, first: Event, b: Story, second: Event)
    requires Allowed(t, s, first) && Grown(s, b) && Grown(Apply(s, first), b) && Allowed(t, b, second)
    ensures Ordered(t, first, second)
  {
  }

  lemma StoryThrough(t: Terms, trace: seq<Event>, i: nat, j: nat)
    requires i < j <= |trace|
    ensures Grown(StoryOf(t, trace[..i]), StoryOf(t, trace[..j])) && Grown(Apply(StoryOf(t, trace[..i]), trace[i]), StoryOf(t, trace[..j]))
  {
    hide Apply, Grown;
    var before := trace[..j];
    assert before[..i] == trace[..i] && before[..i + 1] == trace[..i + 1] && trace[..i + 1][..i] == trace[..i];
    StoryGrows(t, before, i + 1);
    StoryGrows(t, before, i);
  }

  // Release, ready, drained and started each at most once; the first three in their order.
  lemma OnceInOrder(t: Terms, trace: seq<Event>, i: nat, j: nat)
    requires Lawful(t, trace) && i < j < |trace|
    ensures !(trace[i] == trace[j] && (trace[i].Released? || trace[i].SaidReady? || trace[i].SaidDrained? || trace[i].Ended? || trace[i].SaidStarted?))
    ensures !(trace[i].Released? && trace[j].SaidReady?)
    ensures t.buffered ==> !(trace[i].SaidDrained? && trace[j].Released?)
    ensures !(trace[i].SaidDrained? && trace[j].Ended?)
  {
    hide Apply, Grown, Allowed, StoryOf;
    StoryThrough(t, trace, i, j);
    AllowedInOrder(t, StoryOf(t, trace[..i]), trace[i], StoryOf(t, trace[..j]), trace[j]);
  }

  // A flag that is up was raised by the event of its name, or stood at the start.
  ghost predicate Caused(t: Terms, s: Story, trace: seq<Event>) {
    && (s.released ==> Released in trace) && (s.ended ==> Ended in trace) && (s.saidReady ==> SaidReady in trace)
    && (s.cont ==> t.cont || Continued in trace) && (!s.waiting ==> !t.waiting || Resumed in trace)
  }

  lemma {:induction false} FlagHasCause(t: Terms, trace: seq<Event>)
    ensures Caused(t, StoryOf(t, trace), trace)
    decreases |trace|
  {
    hide Apply, Caused;
    if trace != [] {
      var prefix, e := trace[..|trace| - 1], trace[|trace| - 1];
      FlagHasCause(t, prefix);
      CauseOfApply(t, StoryOf(t, prefix), prefix, e);
      assert prefix + [e] == trace;
    } else {
      NoCauseYet(t);
    }
  }

  lemma InMore(trace: seq<Event>, e: Event, x: Event)
    ensures x in trace + [e] <==> x in trace || x == e
  {
    assert (trace + [e])[|trace|] == e;
  }

  lemma CauseOfApply(t: Terms, s: Story, trace: seq<Event>, e: Event)
    requires Caused(t, s, trace)
    ensures Caused(t, Apply(s, e), trace + [e])
  {
    InMore(trace, e, Released);
    InMore(trace, e, Ended);
    InMore(trace, e, SaidReady);
    InMore(trace, e, Continued);
    InMore(trace, e, Resumed);
  }

  lemma NoCauseYet(t: Terms)
    ensures Caused(t, Opening(t), [])
  {
  }

  lemma {:induction false} EndedIsFlagged(t: Terms, trace: seq<Event>)
    requires Ended in trace
    ensures StoryOf(t, trace).ended
    decreases |trace|
  {
    var prefix, e := trace[..|trace| - 1], trace[|trace| - 1];
    assert prefix + [e] == trace;
    if e != Ended {
      EndedIsFlagged(t, prefix);
    }
  }

  /** Output is released only after cont (unless none was asked for), after strm u when a start wait was
      asked for, and with enough frames accepted or all input delivered; the server hears STMd only after
      both the end of input and the release. */
  lemma ReleaseIsEarned(t: Terms, trace: seq<Event>, i: nat)
    requires Lawful(t, trace) && i < |trace|
    ensures trace[i].Released? ==>
      (t.cont || Continued in trace[..i]) && (!t.waiting || Resumed in trace[..i]) &&
      (Accepted(trace[..i]) >= t.ready || Ended in trace[..i])
    ensures trace[i].SaidDrained? ==> Ended in trace[..i] && (t.buffered ==> Released in trace[..i])
    ensures trace[i].SaidStarted? ==> (t.cont || Continued in trace[..i]) && (!t.waiting || Resumed in trace[..i])
    ensures trace[i].Shown? && !t.dirty ==> t.cont || Continued in trace[..i]
    ensures trace[i].Resumed? && (forall k :: 0 <= k < i ==> !trace[k].Resumed?) && t.waiting ==> SaidReady in trace[..i]
  {
    FlagHasCause(t, trace[..i]);
    AcceptedIsCounted(t, trace[..i]);
    if t.waiting && trace[i].Resumed? && forall k :: 0 <= k < i ==> !trace[k].Resumed? {
      assert Resumed !in trace[..i];
    }
  }

  function Accepted(trace: seq<Event>): nat
    decreases |trace|
  {
    if trace == [] then 0
    else Accepted(trace[..|trace| - 1]) + if trace[|trace| - 1].Shown? then trace[|trace| - 1].wrote else 0
  }

  lemma {:induction false} AcceptedIsCounted(t: Terms, trace: seq<Event>)
    ensures StoryOf(t, trace).accepted == Accepted(trace)
    decreases |trace|
  {
    hide Apply;
    if trace != [] {
      var prefix, e := trace[..|trace| - 1], trace[|trace| - 1];
      AcceptedIsCounted(t, prefix);
      ApplyAccepts(StoryOf(t, prefix), e);
    }
  }

  lemma ApplyAccepts(s: Story, e: Event)
    ensures Apply(s, e).accepted == s.accepted + if e.Shown? then e.wrote else 0
  {
    if e.Shown? {
    } else if e.Continued? || e.Resumed? || e.Held? {
    } else if e.Ended? || e.SaidReady? {
    } else {
    }
  }

  // Four bytes of a packet length, and one packet on the control connection.
  function Length32(n: nat): seq<u8>
    requires n < TWO32
  {
    [n / 0x100_0000, n / 0x1_0000 % 256, n / 256 % 256, n % 256]
  }

  // The length reads back, most significant byte first.
  lemma LengthReads(n: nat)
    requires n < TWO32
    ensures BigEndian(Length32(n)) == n
  {
    var b := Length32(n);
    assert b[..3][..2] == b[..2] && b[..2][..1] == b[..1] && b[..1][..0] == [];
    assert BigEndian(b[..1]) == b[0] && BigEndian(b[..2]) == BigEndian(b[..1]) * 256 + b[1];
    assert BigEndian(b[..3]) == BigEndian(b[..2]) * 256 + b[2];
    assert n / 0x1_0000 == n / 256 / 256 && n / 0x100_0000 == n / 256 / 256 / 256;
  }

  function Packet(opcode: seq<u8>, body: seq<u8>): seq<u8>
    requires |body| < TX
  {
    opcode + Length32(|body|) + body
  }

  /** A packet on the wire: its opcode, the length of its body, most significant byte first, and the body. */
  lemma PacketLayout(opcode: seq<u8>, body: seq<u8>)
    requires |opcode| == 4 && |body| < TX
    ensures var p := Packet(opcode, body); |p| == 8 + |body| && p[..4] == opcode && BigEndian(p[4..8]) == |body| && p[8..] == body
  {
    LengthReads(|body|);
    assert Packet(opcode, body)[4..8] == Length32(|body|);
  }

  // status: a STAT packet that starts with its event.
  const STMC: seq<u8> := [83, 84, 77, 99]
  const STMD: seq<u8> := [83, 84, 77, 100]
  const STMF: seq<u8> := [83, 84, 77, 102]
  const STML: seq<u8> := [83, 84, 77, 108]
  const STMP: seq<u8> := [83, 84, 77, 112]
  const STMR: seq<u8> := [83, 84, 77, 114]
  const STMS: seq<u8> := [83, 84, 77, 115]
  const STMT: seq<u8> := [83, 84, 77, 116]

  function Stat(event: seq<u8>): seq<u8>
    requires |event| == 4
  {
    Packet([83, 84, 65, 84], event + seq(49, _ => 0))
  }

  // What the server hears when output is ready, and when it has drained.
  function Notices(ready: bool, drained: bool): seq<u8> {
    (if ready then Stat(STML) else []) + if drained then Stat(STMD) else []
  }

  function Raised(ready: bool, released: bool, drained: bool): seq<Event> {
    (if ready then [SaidReady] else []) + (if released then [Released] else []) + if drained then [SaidDrained] else []
  }

  // One notice or event after another.
  lemma RaisedInTurn(a: seq<Event>, b: seq<Event>, c: seq<Event>, d: seq<Event>, ready: bool, released: bool, drained: bool)
    requires b == if ready then a + [SaidReady] else a
    requires c == if released then b + [Released] else b
    requires d == if drained then c + [SaidDrained] else c
    ensures d == a + Raised(ready, released, drained)
  {
  }

  lemma NoticesInTurn(a: seq<u8>, b: seq<u8>, c: seq<u8>, ready: bool, drained: bool)
    requires b == if ready then a + Stat(STML) else a
    requires c == if drained then b + Stat(STMD) else b
    ensures c == a + Notices(ready, drained)
  {
    hide Stat;
  }

  // strm s, as parsed: whether every parameter is supported, and what it asks for.
  datatype Play = Play(supported: bool, layout: Layout, autostart: nat, request: nat)

  // What a control packet turns out to be.
  datatype Command =
    | Ignored
    | Malformed(rc: int)
    | Gains(rc: int)
    | Cont(plain: bool)
    | Timer
    | Quit
    | Resume(at: nat)
    | Hold(at: nat)
    | Start(play: Play)
    | OtherStream

  // Answers of the platform during one command.
  datatype Answers = Answers(pause: int, connect: int, start: int, capacity: nat, ready: nat)

  // What a receive on the stream connection brings.
  datatype Arrival =
    | Nothing
    | Broken(rc: int)
    | Closed
    | HeaderPart(bytes: seq<u8>)
    | HeaderEnd(bytes: seq<u8>, hasLength: bool, length: nat, body: seq<u8>)
    | Body(body: seq<u8>)

  // Answers of the platform during one pump: frames the callback takes, release results, socket results.
  datatype World = World(wrote1: nat, wrote2: nat, release1: int, release2: int, sendRc: int, sent: nat, arrival: Arrival)

  /** eaf_lms_client_t without its data fields, which are in `feed`. The ghost fields tell the current stream's
      story and everything queued for the server. */
  class Client {
    const buffered: bool
    const canPause: bool
    const feed: Feed
    var tx: seq<u8>
    var txSent: nat
    var isOpen: bool
    var streaming: bool
    var httpOpen: bool
    var headersDone: bool
    var header: seq<u8>
    var requestUsed: nat
    var requestSent: nat
    var waitCont: bool
    var waitStart: bool
    var readySent: bool
    var startedSent: bool
    var bufferedOutput: bool
    var outputReleased: bool
    var outputPaused: bool
    var inputEof: bool
    var eofSent: bool
    var prefillFrames: nat
    var capacityFrames: nat
    var readyFrames: nat
    ghost var terms: Terms
    ghost var trace: seq<Event>
    ghost var story: Story
    ghost var queued: seq<u8>
    ghost var wire: seq<u8>

    ghost predicate Told()
      reads `terms, `trace, `story
    {
      Lawful(terms, trace) && story == StoryOf(terms, trace)
    }

    // Bytes for the server leave in the order they were queued.
    ghost predicate Outbox()
      reads `tx, `txSent, `queued, `wire
    {
      txSent <= |tx| <= TX && wire + tx[txSent..] == queued
    }

    // The flags say what has happened.
    ghost predicate FlagsTell()
      reads `terms, `story, `waitCont, `waitStart, `readySent, `bufferedOutput, `outputReleased, `outputPaused, `inputEof, `eofSent,
        `prefillFrames, `capacityFrames, `readyFrames, `httpOpen, `startedSent
    {
      && terms.buffered == bufferedOutput && (bufferedOutput ==> terms.ready == readyFrames)
      && story.cont == !waitCont && story.waiting == waitStart && story.held == outputPaused && story.ended == inputEof
      && story.saidReady == readySent && story.released == outputReleased && story.saidStarted == startedSent
      && (if bufferedOutput then story.saidDrained == eofSent else !outputReleased && (story.saidDrained ==> inputEof))
      && (inputEof ==> !httpOpen) && (outputReleased ==> !waitStart)
      && (bufferedOutput && !outputReleased ==> prefillFrames == story.accepted <= capacityFrames)
    }

    // A clean stream has no PCM before cont, and no body before its headers.
    ghost predicate DataWaits()
      reads `terms, `waitCont, `headersDone, `inputEof, feed
    {
      && terms.dirty == (feed.stale != [])
      && (!headersDone ==> !feed.bodyDone)
      && (!terms.dirty && !headersDone ==> feed.ingressUsed == 0 && feed.pcmCount == 0)
      && (!terms.dirty && waitCont ==> feed.pcmCount == 0)
      && (inputEof ==> feed.ingressUsed == 0 && feed.tailUsed == 0 && feed.pcmSent == feed.pcmCount)
    }

    // Frames the callback took, as the story tells it.
    ghost predicate Counted()
      reads `story, feed`taken
    {
      story.accepted == |feed.taken|
    }

    ghost predicate Playing()
      reads this, feed, feed.ingress, feed.tail, feed.pcm
    {
      Told() && Outbox() && FlagsTell() && DataWaits() && Counted() && feed.Valid()
    }

    ghost predicate Valid()
      reads this, feed, feed.ingress, feed.tail, feed.pcm
    {
      && Outbox() && Told() && feed.ByteSizes() && feed.ChunkSizes()
      && (if streaming then Playing() else feed.pcmCount == 0 && feed.pcmSent == 0 && !httpOpen)
    }

    constructor (buffered: bool, canPause: bool)
      ensures Valid() && !isOpen && !streaming && this.buffered == buffered && this.canPause == canPause
      ensures fresh(feed) && fresh(feed.ingress) && fresh(feed.tail) && fresh(feed.pcm)
    {
      this.buffered, this.canPause := buffered, canPause;
      feed := new Feed();
      tx, txSent, queued, wire := [], 0, [], [];
      isOpen, startedSent := false, false;
      streaming, httpOpen, headersDone, header, requestUsed, requestSent := false, false, false, [], 0, 0;
      waitCont, waitStart, readySent, bufferedOutput, outputReleased, outputPaused := false, false, false, false, false, false;
      inputEof, eofSent, prefillFrames, capacityFrames, readyFrames := false, false, 0, 0, 0;
      terms, trace, story := Terms(false, 0, true, false, false), [], Story(true, false, false, 0, false, false, false, false, false);
      new;
      NewStory(terms);
    }

    ghost method Log(e: Event)
      requires Told() && Allowed(terms, story, e)
      modifies `trace, `story
      ensures Told() && trace == old(trace) + [e] && story == Apply(old(story), e)
    {
      LawfulMore(terms, trace, e);
      trace := trace + [e];
      story := Apply(story, e);
    }

    // enqueue: unsent bytes move to the front, then the packet goes behind them if it fits.
    method Enqueue(opcode: seq<u8>, body: seq<u8>) returns (rc: int)
      requires Outbox() && |opcode| == 4 && |body| < TX
      modifies `tx, `txSent, `queued
      ensures Outbox() && wire == old(wire)
      ensures rc == if old(|tx| - txSent) + 8 + |body| <= TX then OK else IO
      ensures queued == if rc == OK then old(queued) + Packet(opcode, body) else old(queued)
    {
      if txSent > 0 {
        tx := tx[txSent..];
        txSent := 0;
      }
      if |body| > TX - 8 || |tx| > TX - 8 - |body| {
        return IO;
      }
      var packet := Packet(opcode, body);
      ghost var left := tx;
      tx := tx + packet;
      queued := queued + packet;
      assert tx[0..] == left + packet && left == left[0..];
      assert wire + (left + packet) == wire + left + packet;
      rc := OK;
    }

    // A send took n of the waiting bytes.
    method Sent(n: nat)
      requires Outbox() && n <= |tx| - txSent
      modifies `txSent, `wire
      ensures Outbox() && queued == old(queued) && old(wire) <= wire <= queued && |wire| == |old(wire)| + n
    {
      ghost var part := tx[txSent..txSent + n];
      assert tx[txSent..] == part + tx[txSent + n..];
      assert wire + (part + tx[txSent + n..]) == wire + part + tx[txSent + n..];
      wire := wire + part;
      txSent := txSent + n;
    }

    method Status(event: seq<u8>) returns (rc: int)
      requires Outbox() && |event| == 4
      modifies `tx, `txSent, `queued
      ensures Outbox() && (rc == OK || rc == IO)
      ensures queued == if rc == OK then old(queued) + Stat(event) else old(queued)
    {
      rc := Enqueue([83, 84, 65, 84], event + seq(49, _ => 0));
    }

    method SayReady() returns (rc: int)
      requires Playing() && waitStart && !readySent && !outputReleased
      modifies `tx, `txSent, `queued, `readySent, `trace, `story
      ensures Told() && Outbox() && feed.Valid() && (rc == OK ==> Playing()) && readySent == (rc == OK) && (rc == OK || rc == IO)
      ensures trace == if rc == OK then old(trace) + [SaidReady] else old(trace)
      ensures queued == if rc == OK then old(queued) + Stat(STML) else old(queued)
    {
      hide Told, Outbox, DataWaits, Feed.Valid, Stat;
      rc := Status(STML);
      if rc == OK {
        Log(SaidReady);
        readySent := true;
      }
    }

    method Release(releaseRc: int) returns (rc: int)
      requires Playing() && bufferedOutput && !waitCont && !waitStart && !outputPaused && !outputReleased
      requires prefillFrames >= readyFrames || inputEof
      modifies `outputReleased, `trace, `story
      ensures Told() && Outbox() && rc == releaseRc && (rc == OK ==> Playing()) && outputReleased == (rc == OK)
      ensures trace == old(trace) + [Released]
    {
      hide Told, Outbox, DataWaits, Feed.Valid;
      Log(Released);
      rc := releaseRc;
      if rc == OK {
        outputReleased := true;
      }
    }

    method SayDrained() returns (rc: int)
      requires Playing() && inputEof && (if bufferedOutput then outputReleased && !eofSent else !story.saidDrained)
      modifies `tx, `txSent, `queued, `eofSent, `trace, `story
      ensures Told() && Outbox() && feed.Valid() && (rc == OK ==> Playing()) && (rc == OK || rc == IO)
      ensures eofSent == if rc == OK && bufferedOutput then true else old(eofSent)
      ensures trace == if rc == OK then old(trace) + [SaidDrained] else old(trace)
      ensures queued == if rc == OK then old(queued) + Stat(STMD) else old(queued)
    {
      hide Told, Outbox, DataWaits, Feed.Valid, Stat;
      rc := Status(STMD);
      if rc == OK {
        Log(SaidDrained);
        if bufferedOutput {
          eofSent := true;
        }
      }
    }

    // Enough PCM was accepted, or all there is.
    ghost predicate Reached()
      reads `bufferedOutput, `waitCont, `prefillFrames, `readyFrames, `inputEof
    {
      bufferedOutput && !waitCont && (prefillFrames >= readyFrames || inputEof)
    }

    // Nothing that is due has been left undone.
    ghost predicate Settled()
      reads `bufferedOutput, `waitCont, `prefillFrames, `readyFrames, `inputEof, `waitStart, `readySent, `outputPaused, `outputReleased, `eofSent
    {
      Reached() ==>
        (waitStart ==> readySent) && (!waitStart && !outputPaused ==> outputReleased) && (inputEof && outputReleased ==> eofSent)
    }

    // service_buffered.
    method ServiceBuffered(releaseRc: int) returns (rc: int)
      requires Playing()
      modifies `tx, `txSent, `queued, `readySent, `outputReleased, `eofSent, `trace, `story
      ensures Told() && Outbox() && feed.Valid() && (rc == OK ==> Playing() && Settled()) && (rc == OK || rc == IO || rc == releaseRc)
      ensures !Reached() ==> rc == OK && trace == old(trace) && queued == old(queued)
      ensures rc == OK && bufferedOutput && !waitCont && (prefillFrames >= readyFrames || inputEof) ==>
        (waitStart ==> readySent) && (!waitStart && !outputPaused ==> outputReleased) && (inputEof && outputReleased ==> eofSent)
      ensures (old(readySent) ==> readySent) && (old(outputReleased) ==> outputReleased) && (old(eofSent) ==> eofSent)
      ensures rc == OK ==>
        trace == old(trace) + Raised(readySent && !old(readySent), outputReleased && !old(outputReleased), eofSent && !old(eofSent))
      ensures rc == OK ==> queued == old(queued) + Notices(readySent && !old(readySent), eofSent && !old(eofSent))
    {
      hide Told, Outbox, FlagsTell, DataWaits, Counted, Feed.Valid, Stat, Raised, Notices;
      rc := OK;
      RaisedInTurn(trace, trace, trace, trace, false, false, false);
      NoticesInTurn(queued, queued, queued, false, false);
      if !bufferedOutput || waitCont || (prefillFrames < readyFrames && !inputEof) {
        return;
      }
      ReleasedStarted();
      if waitStart && !readySent {
        rc := SayReady();
        if rc != OK {
          return;
        }
      }
      ghost var trace1, queued1 := trace, queued;
      if !waitStart && !outputPaused && !outputReleased {
        rc := Release(releaseRc);
        if rc != OK {
          return;
        }
      }
      ghost var trace2 := trace;
      if inputEof && outputReleased && !eofSent {
        rc := SayDrained();
      }
      if rc == OK {
        RaisedInTurn(old(trace), trace1, trace2, trace, readySent && !old(readySent), outputReleased && !old(outputReleased), eofSent && !old(eofSent));
        NoticesInTurn(old(queued), queued1, queued, readySent && !old(readySent), eofSent && !old(eofSent));
      }
    }

    lemma ReleasedStarted()
      requires FlagsTell()
      ensures outputReleased ==> !waitStart
    {
    }

    // flush_pcm.
    method FlushPcm(wrote: nat) returns (rc: int)
      requires Playing() && !inputEof && (feed.pcmSent < feed.pcmCount ==> story.cont || terms.dirty)
      modifies `prefillFrames, `trace, `story, feed`pcmSent, feed`taken
      ensures Told() && Outbox() && feed.Valid() && (rc == OK ==> Playing())
      ensures var left := feed.pcmCount - old(feed.pcmSent); var early := left > 0 && bufferedOutput && !outputReleased;
        && rc == (if left > 0 && (wrote > left || (early && wrote > capacityFrames - old(prefillFrames))) then INVALID else OK)
        && (rc == OK && left > 0 ==> trace == old(trace) + [Shown(left, wrote)] && feed.pcmSent == old(feed.pcmSent) + wrote)
        && (rc == OK && left > 0 ==> |feed.taken| == |old(feed.taken)| + wrote)
        && (left == 0 ==> trace == old(trace) && feed.taken == old(feed.taken) && feed.pcmSent == feed.pcmCount)
        && (rc == OK ==> prefillFrames == old(prefillFrames) + if early then wrote else 0)
    {
      hide Told, Outbox, Feed.Valid;
      rc := OK;
      if feed.pcmSent >= feed.pcmCount {
        return;
      }
      var left := feed.pcmCount - feed.pcmSent;
      rc := feed.Flush(wrote);
      if rc != OK {
        return;
      }
      Log(Shown(left, wrote));
      if bufferedOutput && !outputReleased {
        if wrote > capacityFrames - prefillFrames {
          return INVALID;
        }
        prefillFrames := prefillFrames + wrote;
      }
    }

    // A chunk that was taken completely is refilled from the ring.
    method Refill()
      requires Playing() && httpOpen && (headersDone ==> !waitCont) && feed.pcmSent == feed.pcmCount
      modifies feed`pcmSent, feed`pcmCount, feed`tailUsed, feed`groups, feed`ingressUsed, feed.tail, feed.pcm, feed.ingress
      ensures Playing() && feed.pcmSent == 0 && (feed.pcmCount == CHUNK || feed.ingressUsed == 0)
    {
      hide Told, Outbox, FlagsTell, Feed.BytesKept, Feed.FramesKept;
      MayShow();
      feed.Empty();
      feed.Decode();
    }

    // What the callback took: only waiting frames, or all of them and then from the chunk that was made next.
    twostate predicate Drained(w: World)
      reads feed
    {
      var waiting: int := old(feed.pcmCount) - old(feed.pcmSent);
      if waiting > w.wrote1 then |feed.taken| == |old(feed.taken)| + w.wrote1 && feed.pcmSent == old(feed.pcmSent) + w.wrote1
      else |feed.taken| == |old(feed.taken)| + waiting + feed.pcmSent && feed.pcmSent == if feed.pcmCount > 0 then w.wrote2 else 0
    }

    // The chunk to the callback, then the ring into the chunk and once more to the callback.
    method DrainRing(w: World) returns (rc: int)
      requires Playing() && httpOpen && (headersDone ==> !waitCont)
      modifies `prefillFrames, `trace, `story, feed`pcmSent, feed`taken, feed`pcmCount, feed`tailUsed, feed`groups, feed`ingressUsed,
        feed.tail, feed.pcm, feed.ingress
      ensures Told() && Outbox() && feed.Valid() && (rc == OK ==> Playing() && Drained(w))
      ensures rc == OK && old(feed.pcmCount) - old(feed.pcmSent) <= w.wrote1 ==> feed.pcmCount == CHUNK || feed.ingressUsed == 0
    {
      hide Told, Outbox, FlagsTell, DataWaits, Feed.Valid;
      MayShow();
      feed.SizesOf();
      rc := FlushPcm(w.wrote1);
      if rc == OK && feed.pcmSent == feed.pcmCount {
        Refill();
        if feed.pcmCount > 0 {
          MayShow();
          rc := FlushPcm(w.wrote2);
        }
      }
    }

    // While data flows, either cont has come or the stream is dirty, whenever there is PCM.
    lemma MayShow()
      requires FlagsTell() && DataWaits() && httpOpen && (headersDone ==> !waitCont)
      ensures !inputEof && (feed.pcmCount > 0 ==> story.cont || terms.dirty)
    {
    }

    // The source is complete: the body, the ring and the chunk are all consumed.
    method FinishInput(releaseRc: int) returns (rc: int)
      requires Playing() && httpOpen && (headersDone ==> !waitCont)
      requires feed.bodyDone && feed.ingressUsed == 0 && feed.pcmSent == feed.pcmCount
      modifies `tx, `txSent, `queued, `readySent, `outputReleased, `eofSent, `trace, `story, `inputEof, `httpOpen
      ensures Told() && Outbox() && feed.Valid() && (rc == OK ==> Playing() && inputEof && !httpOpen && Settled())
      ensures rc == OK ==> feed.taken == Decoded(feed.layout, feed.Input())
      ensures feed.tailUsed > 0 ==> rc == INVALID && trace == old(trace)
      ensures feed.tailUsed == 0 && !bufferedOutput && rc == OK ==> trace == old(trace) + [Ended] + [SaidDrained] && queued == old(queued) + Stat(STMD)
      ensures feed.tailUsed == 0 && bufferedOutput && rc == OK ==>
        trace == old(trace) + [Ended] + Raised(readySent && !old(readySent), outputReleased && !old(outputReleased), eofSent && !old(eofSent))
    {
      hide Told, Outbox, Decoded, Stat, Raised;
      if feed.tailUsed != 0 {
        return INVALID;
      }
      feed.AllTaken();
      MarkEnded();
      if bufferedOutput {
        rc := ServiceBuffered(releaseRc);
      } else {
        rc := SayDrained();
      }
    }

    method MarkEnded()
      requires Playing() && httpOpen && !waitCont && feed.ingressUsed == 0 && feed.tailUsed == 0 && feed.pcmSent == feed.pcmCount
      modifies `trace, `story, `inputEof, `httpOpen
      ensures Playing() && inputEof && !httpOpen && trace == old(trace) + [Ended] && (!bufferedOutput ==> !story.saidDrained)
    {
      hide Told, Outbox, Feed.Valid;
      Log(Ended);
      inputEof := true;
      httpOpen := false;
    }

    // What the socket's contract lets a receive bring now.
    predicate Possible(a: Arrival)
      reads this, feed
    {
      match a
      case Nothing => true
      case Closed => true
      case Broken(rc) => rc != OK
      case HeaderPart(bytes) => !headersDone
      case HeaderEnd(bytes, hasLength, length, body) => !headersDone && |body| <= CHUNK_RX
      case Body(body) => headersDone && |body| <= CHUNK_RX
    }

    method TakeHeader(bytes: seq<u8>) returns (rc: int)
      requires Playing()
      modifies `header
      ensures Playing() && rc == (if |old(header)| + |bytes| > REQUEST then INVALID else OK)
      ensures header == if rc == OK then old(header) + bytes else old(header)
    {
      hide Told, Outbox, FlagsTell, DataWaits, Feed.Valid;
      if |header| + |bytes| > REQUEST {
        return INVALID;
      }
      header := header + bytes;
      rc := OK;
    }

    // headers, for a response that it accepts.
    method EndHeader(known: bool, length: nat) returns (rc: int)
      requires Playing() && !headersDone && httpOpen && |header| <= REQUEST
      modifies `tx, `txSent, `queued, `headersDone, feed`hasLength, feed`remaining, feed`bodyDone
      ensures Told() && Outbox() && feed.Valid() && headersDone && (rc == OK ==> Playing()) && (rc == OK || rc == IO)
      ensures queued == if rc == OK then old(queued) + Packet([82, 69, 83, 80], header) else old(queued)
      ensures feed.hasLength == known && (known ==> feed.remaining == length) && feed.bodyDone == (known && length == 0)
    {
      hide Told, Outbox, FlagsTell, Feed.Valid, Packet;
      feed.SetLength(known, length);
      headersDone := true;
      rc := Enqueue([82, 69, 83, 80], header);
    }

    method FillRing(body: seq<u8>) returns (rc: int)
      requires Playing() && httpOpen && headersDone
      modifies feed`ingressUsed, feed`bytesReceived, feed`body, feed`remaining, feed`bodyDone, feed.ingress
      ensures Told() && Outbox() && feed.Valid() && (rc == OK ==> Playing())
      ensures rc == if body != [] && (|body| > RING - old(feed.ingressUsed) || (feed.hasLength && |body| > old(feed.remaining))) then INVALID else OK
      ensures feed.body == if rc == OK then old(feed.body) + body else old(feed.body)
      ensures feed.ingressUsed == if rc == OK then old(feed.ingressUsed) + |body| else old(feed.ingressUsed)
      ensures feed.bodyDone == if rc == OK && feed.hasLength && body != [] then feed.remaining == 0 else old(feed.bodyDone)
    {
      hide Told, Outbox, Feed.BytesKept, Feed.FramesKept;
      rc := feed.Fill(body);
    }

    method CloseInput() returns (rc: int)
      requires Playing() && httpOpen
      modifies feed`bodyDone
      ensures Told() && Outbox() && feed.Valid() && (rc == OK ==> Playing())
      ensures rc == (if !headersDone || (feed.hasLength && feed.remaining > 0) then IO else OK) && feed.bodyDone == (rc == OK || old(feed.bodyDone))
    {
      hide Told, Outbox, FlagsTell, Feed.BytesKept, Feed.FramesKept;
      if !headersDone || (feed.hasLength && feed.remaining > 0) {
        return IO;
      }
      feed.bodyDone := true;
      rc := OK;
    }

    function Coming(w: World): (a: Arrival)
      reads this, feed
      ensures Possible(a)
    {
      if Possible(w.arrival) then w.arrival else Nothing
    }

    // What of an arrival belongs to the header, and what to the body.
    function HeaderOf(a: Arrival): seq<u8> {
      match a
      case HeaderPart(bytes) => bytes
      case HeaderEnd(bytes, _, _, _) => bytes
      case _ => []
    }

    function BodyOf(a: Arrival): seq<u8> {
      match a
      case HeaderEnd(_, _, _, body) => body
      case Body(body) => body
      case _ => []
    }

    // A receive that went well brought this in.
    twostate predicate Arrived(a: Arrival)
      reads this, feed
    {
      && header == old(header) + HeaderOf(a) && feed.body == old(feed.body) + BodyOf(a)
      && headersDone == (old(headersDone) || a.HeaderEnd?)
      && !a.Broken? && (a.Closed? ==> headersDone && feed.bodyDone && !(feed.hasLength && feed.remaining > 0))
      && (a.HeaderEnd? ==> |header| <= REQUEST && feed.hasLength == a.hasLength)
    }

    // What a pump that went well brought in, while there was room for it.
    twostate predicate Received(w: World)
      reads this, feed
    {
      && (old(feed.bodyDone) ==> feed.body == old(feed.body))
      && (feed.body == old(feed.body) || feed.body == old(feed.body) + BodyOf(old(Coming(w))))
      && (old(!feed.bodyDone && requestSent >= requestUsed) && feed.ingressUsed < RING ==> Arrived(old(Coming(w))))
    }

    // No receive now: the body is complete or the ring is full.
    ghost predicate Idle()
      reads feed
    {
      feed.bodyDone || feed.ingressUsed >= RING
    }

    /** The rest of pump_http: the request out, or bytes in. Nothing is read while the body is complete, the ring
        is full or the request is not out. */
    method Receive(w: World) returns (rc: int)
      requires Playing() && httpOpen
      modifies `tx, `txSent, `queued, `headersDone, `header, `requestSent,
        feed`ingressUsed, feed`bytesReceived, feed`body, feed`remaining, feed`bodyDone, feed`hasLength, feed.ingress
      ensures Told() && Outbox() && feed.Valid() && (rc == OK ==> Playing())
      ensures rc == OK ==> Received(w)
      ensures feed.ingressUsed - |feed.body| == old(feed.ingressUsed - |feed.body|)
      ensures old(Idle()) ==> rc == OK && requestSent == old(requestSent)
      ensures old(!Idle() && requestSent < requestUsed) ==> (
        && rc == (if w.sendRc == AGAIN then OK else w.sendRc)
        && requestSent == old(requestSent) + (if w.sendRc == OK then Min(w.sent, requestUsed - old(requestSent)) else 0))
      ensures old(Idle() || requestSent < requestUsed) ==> feed.body == old(feed.body) && header == old(header) && queued == old(queued)
      ensures old(!Idle() && requestSent >= requestUsed) ==> (
        && requestSent == old(requestSent)
        && (rc == OK ==> Arrived(old(Coming(w))))
        && (rc == OK ==> queued == old(queued) + if old(Coming(w)).HeaderEnd? then Packet([82, 69, 83, 80], header) else [])
        && (rc != OK ==> feed.body == old(feed.body)))
    {
      hide Told, Outbox, FlagsTell, DataWaits, Feed.Valid;
      rc := OK;
      if feed.bodyDone || feed.ingressUsed >= RING {
        return;
      }
      if requestSent < requestUsed {
        if w.sendRc == AGAIN {
          return;
        }
        if w.sendRc != OK {
          return w.sendRc;
        }
        requestSent := requestSent + Min(w.sent, requestUsed - requestSent);
        return;
      }
      match Coming(w) {
        case Nothing =>
        case Broken(code) => rc := code;
        case Closed => rc := CloseInput();
        case HeaderPart(bytes) => rc := TakeHeader(bytes);
        case HeaderEnd(bytes, known, length, body) =>
          rc := TakeHeader(bytes);
          if rc == OK {
            rc := EndHeader(known, length);
          }
          if rc == OK {
            rc := FillRing(body);
          }
        case Body(body) => rc := FillRing(body);
      }
    }

    // The connection is closed, or the server has not said cont.
    ghost predicate Gated()
      reads this, feed
    {
      !httpOpen || (headersDone && waitCont)
    }

    // Without a buffer-aware callback, a first chunk waits for strm u.
    ghost predicate HoldsBack()
      reads this, feed
    {
      !bufferedOutput && headersDone && waitStart && (feed.pcmCount > 0 || feed.ingressUsed > 0 || feed.bodyDone)
    }

    // Data moved on: PCM to the callback, then the end of input or more of it.
    twostate predicate Flowed(w: World)
      reads this, feed
    {
      && Drained(w) && Received(w)
      && (inputEof ==> LayoutOk(feed.layout) && feed.taken == Decoded(feed.layout, feed.Input()) && Settled() && !httpOpen)
      && (old(feed.bodyDone) && feed.ingressUsed == 0 && feed.pcmSent == feed.pcmCount ==> inputEof)
    }

    method Flow(w: World) returns (rc: int)
      requires Playing() && httpOpen && (headersDone ==> !waitCont)
      modifies this, feed, feed.tail, feed.pcm, feed.ingress
      ensures Told() && Outbox() && feed.Valid() && streaming == old(streaming) && (rc == OK ==> Playing() && Flowed(w))
    {
      hide Told, Outbox, FlagsTell, DataWaits, Counted, Feed.Valid, Decoded, Settled, Raised, Stat, BodyOf, HeaderOf;
      MayShow();
      rc := DrainRing(w);
      if rc != OK {
        return;
      }
      if feed.bodyDone && feed.ingressUsed == 0 && feed.pcmSent == feed.pcmCount {
        rc := FinishInput(w.release2);
        feed.SizesOf();
      } else {
        rc := Receive(w);
      }
    }

    // The effect of a pump that went well, on the data and the input.
    twostate predicate Pumped(w: World)
      reads this, feed
    {
      if old(Gated() || HoldsBack()) then
        && feed.taken == old(feed.taken) && feed.body == old(feed.body) && inputEof == old(inputEof)
        && (old(!Gated()) ==> readySent)
      else Flowed(w)
    }

    method PumpStream(w: World) returns (rc: int)
      requires Playing()
      modifies this, feed, feed.tail, feed.pcm, feed.ingress
      ensures Told() && Outbox() && feed.Valid() && streaming == old(streaming) && (rc == OK ==> Playing() && Pumped(w))
    {
      hide Told, Outbox, FlagsTell, DataWaits, Counted, Feed.Valid, Decoded, Settled, Reached, Raised, Notices, Stat, BodyOf, HeaderOf;
      rc := ServiceBuffered(w.release1);
      if rc != OK || !httpOpen {
        return;
      }
      if headersDone && waitCont {
        return;
      }
      if !bufferedOutput && headersDone && waitStart && (feed.pcmCount > 0 || feed.ingressUsed > 0 || feed.bodyDone) {
        if !readySent {
          LegacyNotReleased();
          rc := SayReady();
        }
        return;
      }
      rc := Flow(w);
    }

    // The machine after an operation that may have failed.
    ghost predicate Standing(rc: int)
      reads this, feed, feed.ingress, feed.tail, feed.pcm
    {
      Outbox() && Told() && feed.ByteSizes() && feed.ChunkSizes() && (rc == OK ==> Valid())
    }

    method PumpHttp(w: World) returns (rc: int)
      requires Valid()
      modifies this, feed, feed.tail, feed.pcm, feed.ingress
      ensures Standing(rc) && (old(streaming) && rc == OK ==> Pumped(w))
      ensures !old(streaming) ==> rc == OK && queued == old(queued) && feed.body == old(feed.body) && feed.taken == old(feed.taken)
    {
      hide Told, Outbox, FlagsTell, DataWaits, Feed.BytesKept, Feed.FramesKept, Pumped;
      if !streaming {
        return OK;
      }
      rc := PumpStream(w);
      feed.SizesOf();
    }

    method LowerFlags()
      modifies `streaming, `httpOpen, `bufferedOutput, `outputReleased, `outputPaused, `inputEof, `eofSent, `prefillFrames, `capacityFrames,
        `readyFrames, `waitCont, `waitStart, `readySent, `startedSent
      ensures !streaming && !httpOpen && readyFrames == 0 && !inputEof && !bufferedOutput
      ensures !outputReleased && !outputPaused && !eofSent && prefillFrames == 0 && capacityFrames == 0 && !readySent && !startedSent
    {
      httpOpen, streaming := false, false;
      bufferedOutput, outputReleased, outputPaused, inputEof, eofSent := false, false, false, false, false;
      prefillFrames, capacityFrames, readyFrames := 0, 0, 0;
      waitCont, waitStart, readySent, startedSent := false, false, false, false;
    }

    // stop_stream.
    method StopStream()
      requires Outbox() && Told() && feed.ByteSizes() && feed.ChunkSizes()
      modifies `streaming, `httpOpen, `bufferedOutput, `outputReleased, `outputPaused, `inputEof, `eofSent, `prefillFrames, `capacityFrames,
        `readyFrames, `waitCont, `waitStart, `readySent, `startedSent, feed`pcmCount, feed`pcmSent, feed`bodyDone, feed`bytesReceived
      ensures Valid() && !streaming && !httpOpen && readyFrames == 0 && feed.pcmCount == 0 && feed.pcmSent == 0 && !inputEof && !bufferedOutput
      ensures !outputReleased && !outputPaused && !eofSent && prefillFrames == 0 && capacityFrames == 0 && !readySent && !startedSent && !feed.bodyDone
    {
      hide Outbox, Playing, Told;
      LowerFlags();
      feed.Stop();
    }

    method RaiseFlags(play: Play)
      modifies `streaming, `header, `headersDone, `waitCont, `waitStart, `requestUsed, `requestSent
      ensures requestUsed == play.request && requestSent == 0
      ensures streaming && header == [] && !headersDone && waitCont == (play.autostart >= 2) && waitStart == (play.autostart == 0 || play.autostart == 2)
    {
      streaming, header, headersDone := true, [], false;
      waitCont := play.autostart >= 2;
      waitStart := play.autostart == 0 || play.autostart == 2;
      requestUsed, requestSent := play.request, 0;
    }

    ghost method Open(t: Terms)
      modifies `terms, `trace, `story
      ensures terms == t && trace == [] && story == Opening(t) && Told()
    {
      hide Lawful, StoryOf;
      terms, trace, story := t, [], Opening(t);
      NewStory(t);
    }

    // The flags and data of a stream whose output has started.
    method BeginStream(play: Play)
      requires Outbox() && Told() && feed.ByteSizes() && feed.ChunkSizes() && feed.pcmCount == 0 && feed.pcmSent == 0 && LayoutOk(play.layout)
      requires !outputReleased && !outputPaused && !inputEof && !eofSent && !readySent && !startedSent && prefillFrames == 0 && !feed.bodyDone
      modifies `streaming, `header, `headersDone, `waitCont, `waitStart, `requestUsed, `requestSent, `terms, `trace, `story,
        feed`layout, feed`tailUsed, feed`bytesReceived, feed`hasLength, feed`stale, feed`body, feed`groups, feed`taken
      ensures Playing() && streaming && trace == [] && !headersDone && requestUsed == play.request && requestSent == 0
      ensures feed.layout == play.layout && feed.stale == feed.ingress[..feed.ingressUsed] && feed.body == [] && feed.taken == []
      ensures terms == Terms(bufferedOutput, readyFrames, play.autostart < 2, play.autostart == 0 || play.autostart == 2, feed.ingressUsed > 0)
    {
      hide Outbox, Feed.Valid, Told;
      RaiseFlags(play);
      feed.Start(play.layout);
      Open(Terms(bufferedOutput, readyFrames, !waitCont, waitStart, feed.ingressUsed > 0));
    }

    // Connection and output start, and a buffer-aware output names a ready level that it can hold.
    predicate Starts(a: Answers) {
      a.connect == OK && a.start == OK && (buffered ==> 0 < a.ready <= a.capacity)
    }

    // The connection and the output; a failure of the output closes the connection again.
    method StartOutput(a: Answers) returns (rc: int)
      requires !httpOpen
      modifies `bufferedOutput, `capacityFrames, `readyFrames, `httpOpen
      ensures httpOpen == (rc == OK) && ((rc == OK) <==> Starts(a)) && (a.connect != OK ==> rc == a.connect)
      ensures rc == OK ==> bufferedOutput == buffered && readyFrames == if buffered then a.ready else old(readyFrames)
    {
      rc := a.connect;
      if rc != OK {
        return;
      }
      bufferedOutput := buffered;
      rc := a.start;
      if bufferedOutput {
        capacityFrames, readyFrames := a.capacity, a.ready;
        if rc == OK && (readyFrames == 0 || readyFrames > capacityFrames) {
          rc := INVALID;
        }
      }
      httpOpen := rc == OK;
    }

    // What a command said to the server, when it had room to say it.
    twostate predicate Answered(event: seq<u8>, rc: int)
      requires |event| == 4
      reads this
    {
      (rc == OK || rc == IO) && queued == if rc == OK then old(queued) + Stat(event) else old(queued)
    }

    method Answer(event: seq<u8>) returns (rc: int)
      requires Valid() && |event| == 4
      modifies `tx, `txSent, `queued
      ensures Standing(rc) && Answered(event, rc)
    {
      hide Told, Outbox, FlagsTell, DataWaits, Feed.Valid, Feed.ByteSizes, Feed.ChunkSizes, Stat;
      rc := Status(event);
    }

    // A stream that has just begun, over whatever the ring holds.
    ghost predicate FreshStream(play: Play, a: Answers)
      reads `trace, `terms, `requestUsed, `requestSent, `headersDone, feed, feed.ingress
    {
      && feed.ingressUsed <= feed.ingress.Length
      && trace == [] && feed.body == [] && feed.taken == [] && feed.stale == feed.ingress[..feed.ingressUsed]
      && terms == Terms(buffered, if buffered then a.ready else 0, play.autostart < 2, play.autostart == 0 || play.autostart == 2, feed.ingressUsed > 0)
      && feed.layout == play.layout && requestUsed == play.request && requestSent == 0 && !headersDone
    }

    // A new stream, or none.
    twostate predicate StartDone(play: Play, a: Answers, rc: int)
      reads this, feed, feed.ingress
    {
      && feed.ingressUsed == old(feed.ingressUsed) && streaming == httpOpen == (play.supported && Starts(a))
      && if streaming then FreshStream(play, a) && Answered(STMC, rc) else rc != OK && queued == old(queued)
    }

    // Connection, output and stream begin together.
    method Launch(play: Play, a: Answers) returns (rc: int)
      requires Outbox() && Told() && feed.ByteSizes() && feed.ChunkSizes() && feed.pcmCount == 0 && feed.pcmSent == 0 && LayoutOk(play.layout)
      requires !outputReleased && !outputPaused && !inputEof && !eofSent && !readySent && !startedSent && prefillFrames == 0 && !feed.bodyDone
      requires !streaming && !httpOpen && readyFrames == 0
      modifies `streaming, `header, `headersDone, `waitCont, `waitStart, `requestUsed, `requestSent, `terms, `trace, `story,
        `bufferedOutput, `capacityFrames, `readyFrames, `httpOpen,
        feed`layout, feed`tailUsed, feed`bytesReceived, feed`hasLength, feed`stale, feed`body, feed`groups, feed`taken
      ensures Outbox() && Told() && feed.ByteSizes() && feed.ChunkSizes() && feed.pcmCount == 0 && feed.pcmSent == 0
      ensures (rc == OK) == Starts(a) == streaming == httpOpen && (rc == OK ==> Playing() && FreshStream(play, a))
    {
      hide Told, Outbox, FlagsTell, DataWaits, Counted, Feed.Valid, LayoutOk;
      rc := StartOutput(a);
      if rc == OK {
        BeginStream(play);
        feed.SizesOf();
      }
    }

    // strm s.
    method StartStream(play: Play, a: Answers) returns (rc: int)
      requires Outbox() && Told() && feed.ByteSizes() && feed.ChunkSizes() && LayoutOk(play.layout)
      modifies this, feed
      ensures Standing(rc) && StartDone(play, a, rc)
      ensures streaming == (play.supported && a.connect == OK && a.start == OK && (buffered ==> 0 < a.ready <= a.capacity))
    {
      hide Told, Outbox, FlagsTell, DataWaits, Counted, Feed.Valid, Feed.ByteSizes, Feed.ChunkSizes, LayoutOk, Stat, FreshStream;
      StopStream();
      if !play.supported {
        return UNSUPPORTED;
      }
      rc := Launch(play, a);
      if rc == OK {
        rc := Answer(STMC);
      }
    }

    method AcceptCont()
      requires Playing() && waitCont
      modifies `waitCont, `trace, `story
      ensures Playing() && !waitCont && trace == old(trace) + [Continued]
    {
      hide Told, Outbox, Feed.Valid;
      waitCont := false;
      Log(Continued);
    }

    // strm u, once it is not refused.
    method AcceptResume()
      requires Playing() && !waitCont && (waitStart ==> readySent)
      modifies `waitStart, `outputPaused, `trace, `story
      ensures Playing() && !waitStart && !outputPaused && trace == old(trace) + [Resumed]
    {
      hide Told, Outbox, DataWaits, Feed.Valid;
      waitStart, outputPaused := false, false;
      Log(Resumed);
    }

    method AcceptHold()
      requires Playing()
      modifies `outputPaused, `trace, `story
      ensures Playing() && outputPaused && trace == old(trace) + [Held]
    {
      hide Told, Outbox, DataWaits, Feed.Valid;
      outputPaused := true;
      Log(Held);
    }

    // A command that was refused: nothing has changed.
    twostate predicate Refused()
      reads this
    {
      && queued == old(queued) && trace == old(trace) && terms == old(terms) && streaming == old(streaming)
      && waitCont == old(waitCont) && waitStart == old(waitStart) && outputPaused == old(outputPaused)
    }

    // strm u is accepted after cont: to end the start wait once STMl is out, or else with the output's consent.
    predicate MayResume(at: nat, pauseRc: int)
      reads this
    {
      at == 0 && streaming && !waitCont && if waitStart then readySent else canPause && pauseRc == OK
    }

    twostate predicate ResumeDone(at: nat, pauseRc: int, rc: int)
      reads this
    {
      && terms == old(terms) && streaming == old(streaming)
      && if old(MayResume(at, pauseRc)) then
        trace == old(trace) + [Resumed] && !waitStart && !outputPaused && Answered(STMR, rc)
      else Refused() && rc != OK
    }

    method ResumeOutput(at: nat, pauseRc: int) returns (rc: int)
      requires Valid()
      modifies this
      ensures Standing(rc) && ResumeDone(at, pauseRc, rc)
      ensures trace == old(trace) + (
        if at == 0 && old(streaming && !waitCont && (if waitStart then readySent else canPause && pauseRc == OK)) then [Resumed] else [])
    {
      hide Told, Outbox, FlagsTell, DataWaits, Feed.BytesKept, Feed.FramesKept, Stat;
      if at != 0 {
        return UNSUPPORTED;
      }
      if !streaming || waitCont {
        return STATE;
      }
      if waitStart {
        if !readySent {
          return STATE;
        }
      } else {
        if !canPause {
          return UNSUPPORTED;
        }
        rc := pauseRc;
        if rc != OK {
          return;
        }
      }
      AcceptResume();
      rc := Status(STMR);
    }

    twostate predicate HoldDone(at: nat, pauseRc: int, rc: int)
      reads this
    {
      && terms == old(terms) && streaming == old(streaming)
      && if at == 0 && canPause && old(streaming) && pauseRc == OK then
        trace == old(trace) + [Held] && outputPaused && Answered(STMP, rc)
      else Refused() && rc != OK
    }

    method HoldOutput(at: nat, pauseRc: int) returns (rc: int)
      requires Valid()
      modifies this
      ensures Standing(rc) && HoldDone(at, pauseRc, rc)
    {
      hide Told, Outbox, FlagsTell, DataWaits, Feed.BytesKept, Feed.FramesKept, Stat;
      if at != 0 || !canPause {
        return UNSUPPORTED;
      }
      if !streaming {
        return STATE;
      }
      rc := pauseRc;
      if rc == OK {
        AcceptHold();
        rc := Status(STMP);
      }
    }

    // The effect of each command.
    twostate predicate Obeyed(c: Command, a: Answers, rc: int)
      reads this, feed, feed.ingress
    {
      match c
      case Ignored => Refused() && rc == OK
      case Malformed(code) => Refused() && rc == code
      case Gains(code) => Refused() && rc == code
      case Cont(plain) =>
        && terms == old(terms) && streaming == old(streaming) && queued == old(queued)
        && if old(streaming && waitCont) && plain then trace == old(trace) + [Continued] && !waitCont && rc == OK
        else Refused() && rc == if old(streaming && waitCont) then UNSUPPORTED else OK
      case Timer => trace == old(trace) && streaming == old(streaming) && Answered(STMT, rc)
      case Quit => !streaming && !httpOpen && feed.pcmCount == 0 && Answered(STMF, rc)
      case Resume(at) => ResumeDone(at, a.pause, rc)
      case Hold(at) => HoldDone(at, a.pause, rc)
      case Start(play) => StartDone(play, a, rc)
      case OtherStream => Refused() && rc == UNSUPPORTED
    }

    // command.
    method Obey(c: Command, a: Answers) returns (rc: int)
      requires Valid() && (c.Start? ==> LayoutOk(c.play.layout)) && (c.Malformed? ==> c.rc != OK)
      modifies this, feed
      ensures Standing(rc) && Obeyed(c, a, rc)
    {
      hide Told, Outbox, FlagsTell, DataWaits, Counted, Feed.Valid, Stat, StartDone, ResumeDone, HoldDone;
      rc := OK;
      match c {
        case Ignored =>
        case Malformed(code) => rc := code;
        case Gains(code) => rc := code;
        case Cont(plain) =>
          if streaming && waitCont {
            if !plain {
              return UNSUPPORTED;
            }
            AcceptCont();
          }
        case Timer => rc := Answer(STMT);
        case Quit =>
          StopStream();
          rc := Answer(STMF);
        case Resume(at) => rc := ResumeOutput(at, a.pause);
        case Hold(at) => rc := HoldOutput(at, a.pause);
        case Start(play) => rc := StartStream(play, a);
        case OtherStream => rc := UNSUPPORTED;
      }
    }

    // eaf_lms_client_close.
    method Close()
      requires Outbox() && Told() && feed.ByteSizes() && feed.ChunkSizes()
      modifies this, feed
      ensures Valid() && !isOpen && !streaming && tx == [] && queued == wire == old(wire) && trace == old(trace) && terms == old(terms)
    {
      StopStream();
      isOpen := false;
      tx, txSent := [], 0;
      queued := wire;
      assert wire + tx[0..] == wire;
    }

    // The control connection's send: what waits goes out as far as it can.
    method SendWaiting(sendRc: int, sent: nat) returns (rc: int)
      requires Outbox()
      modifies `txSent, `wire
      ensures Outbox() && old(wire) <= wire
      ensures rc == if old(txSent == |tx|) || sendRc == AGAIN then OK else sendRc
      ensures |wire| == |old(wire)| + if old(txSent < |tx|) && sendRc == OK then Min(sent, old(|tx| - txSent)) else 0
    {
      if txSent < |tx| && sendRc != AGAIN {
        if sendRc == OK {
          Sent(Min(sent, |tx| - txSent));
        }
        return sendRc;
      }
      rc := OK;
    }

    // The control packets of one receive, up to the first that fails.
    method Serve(commands: seq<Command>, answers: seq<Answers>) returns (rc: int, ghost failed: nat)
      requires Valid() && |commands| == |answers|
      requires forall c :: c in commands ==> (c.Start? ==> LayoutOk(c.play.layout)) && (c.Malformed? ==> c.rc != OK)
      modifies this, feed
      ensures Standing(rc) && (commands == [] ==> rc == OK && unchanged(this) && unchanged(feed))
      ensures |commands| == 1 || (commands != [] && rc != OK && failed == 0) ==> Obeyed(commands[0], answers[0], rc)
      ensures failed <= |commands| && ((rc != OK) <==> failed < |commands|)
      decreases |commands|
    {
      hide Told, Outbox, FlagsTell, DataWaits, Counted, Feed.Valid, Obeyed, Feed.ByteSizes, Feed.ChunkSizes;
      if commands == [] {
        return OK, 0;
      }
      rc := Obey(commands[0], answers[0]);
      failed := 0;
      if rc == OK {
        rc, failed := Serve(commands[1..], answers[1..]);
        failed := failed + 1;
      }
    }

    /** eaf_lms_client_step: the control connection out and in, its packets one by one, then the stream. Any
        error ends both. */
    method Step(sendRc: int, sent: nat, recvRc: int, commands: seq<Command>, answers: seq<Answers>, w: World) returns (rc: int)
      requires Valid() && |commands| == |answers|
      requires forall c :: c in commands ==> (c.Start? ==> LayoutOk(c.play.layout)) && (c.Malformed? ==> c.rc != OK)
      modifies this, feed, feed.tail, feed.pcm, feed.ingress
      ensures !old(isOpen) ==> rc == STATE && unchanged(this) && unchanged(feed)
      ensures Valid() && (old(isOpen) && rc != OK ==> !isOpen && !streaming && tx == [] && queued == wire)
      ensures rc == OK && (recvRc == AGAIN || commands == []) ==> (
        if old(streaming) then Pumped(w)
        else queued == old(queued) && feed.body == old(feed.body) && feed.taken == old(feed.taken))
      ensures old(isOpen && txSent < |tx|) && sendRc != OK && sendRc != AGAIN ==> rc == sendRc
      ensures old(isOpen) && (old(txSent == |tx|) || sendRc == OK || sendRc == AGAIN) && recvRc != OK && recvRc != AGAIN ==> rc == recvRc
    {
      hide Told, Outbox, FlagsTell, DataWaits, Counted, Feed.Valid, Obeyed, Feed.ByteSizes, Feed.ChunkSizes, Decoded, Settled, HeaderOf, BodyOf;
      if !isOpen {
        return STATE;
      }
      rc := SendWaiting(sendRc, sent);
      if rc == OK && recvRc != AGAIN {
        rc := recvRc;
        if rc == OK {
          ghost var failed;
          rc, failed := Serve(commands, answers);
        }
      }
      if rc == OK {
        rc := PumpHttp(w);
      }
      if rc != OK {
        Close();
      }
    }

    // eaf_lms_client_connect; `helo` is the HELO packet, when it fits.
    method Connect(connectRc: int, helo: Option<seq<u8>>) returns (rc: int)
      requires Valid() && (helo.Some? ==> |helo.value| <= TX)
      modifies `isOpen, `tx, `txSent, `queued
      ensures Valid() && rc == if old(isOpen) then INVALID else if connectRc != OK then connectRc else if helo.Some? then OK else INVALID
      ensures isOpen == (old(isOpen) || rc == OK)
      ensures rc == OK ==> queued == wire + helo.value && txSent == 0
      ensures old(isOpen) || connectRc != OK ==> queued == old(queued)
    {
      hide Told, FlagsTell, DataWaits, Feed.Valid;
      if isOpen {
        return INVALID;
      }
      if connectRc != OK {
        return connectRc;
      }
      tx, txSent := if helo.Some? then helo.value else [], 0;
      queued := wire + tx;
      assert tx[0..] == tx;
      isOpen := helo.Some?;
      rc := if helo.Some? then OK else INVALID;
    }

    method SayStarted() returns (rc: int)
      requires Playing() && !waitCont && !waitStart && !startedSent
      modifies `tx, `txSent, `queued, `startedSent, `trace, `story
      ensures Told() && Outbox() && Playing() && startedSent == (rc == OK) && (rc == OK || rc == IO)
      ensures trace == if rc == OK then old(trace) + [SaidStarted] else old(trace)
      ensures queued == if rc == OK then old(queued) + Stat(STMS) else old(queued)
    {
      hide Told, Outbox, DataWaits, Feed.Valid, Stat;
      rc := Status(STMS);
      if rc == OK {
        Log(SaidStarted);
        startedSent := true;
      }
    }

    // eaf_lms_client_report_playback: STMs once, when playback has started, and STMt otherwise.
    method Report(started: bool, queuedBytes: nat, bufferBytes: nat) returns (rc: int)
      requires Valid()
      modifies `tx, `txSent, `queued, `startedSent, `trace, `story
      ensures Valid()
      ensures queuedBytes > bufferBytes ==> rc == INVALID
      ensures queuedBytes <= bufferBytes && (!isOpen || !streaming || waitCont || waitStart || (old(startedSent) && !started)) ==> rc == STATE
      ensures rc == INVALID || rc == STATE ==> trace == old(trace) && queued == old(queued)
      ensures rc != INVALID && rc != STATE ==>
        && Answered(if started && !old(startedSent) then STMS else STMT, rc)
        && trace == old(trace) + if rc == OK && started && !old(startedSent) then [SaidStarted] else []
    {
      hide Told, Outbox, FlagsTell, DataWaits, Counted, Feed.Valid, Feed.ByteSizes, Feed.ChunkSizes, Stat;
      if queuedBytes > bufferBytes {
        return INVALID;
      }
      if !isOpen || !streaming || waitCont || waitStart || (startedSent && !started) {
        return STATE;
      }
      if started && !startedSent {
        rc := SayStarted();
      } else {
        rc := Status(STMT);
      }
    }

    lemma LegacyNotReleased()
      requires FlagsTell()
      ensures !bufferedOutput ==> !outputReleased
    {
    }

    /** In every state that the client can be in while a stream plays: no body byte is lost, repeated or
        reordered on its way to the callback, everything was taken once the end of input was reported, and
        nothing happened that the protocol forbids. */
    lemma StreamIsSound()
      requires Valid() && streaming
      ensures Lawful(terms, trace) && Accepted(trace) == |feed.taken|
      ensures terms.dirty <==> feed.stale != []
      ensures feed.bytesReceived + |feed.stale|
           == Span(|feed.taken| + (feed.pcmCount - feed.pcmSent), FrameBytes(feed.layout)) + feed.tailUsed + feed.ingressUsed
      ensures var decoded := |feed.taken| + (feed.pcmCount - feed.pcmSent);
        (feed.bytesReceived == Span(decoded, FrameBytes(feed.layout)) + feed.tailUsed + feed.ingressUsed) == !terms.dirty
      ensures feed.taken <= Decoded(feed.layout, feed.stale + feed.body)
      ensures Ended in trace ==> feed.taken == Decoded(feed.layout, feed.stale + feed.body)
    {
      hide Lawful, StoryOf, Decoded, Feed.BytesKept, Feed.FramesKept;
      feed.NothingLost();
      AcceptedIsCounted(terms, trace);
      if Ended in trace {
        EndedIsFlagged(terms, trace);
        feed.AllTaken();
      }
    }
  }
}
