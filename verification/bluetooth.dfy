/** apps/bt/bt_ingress.c and apps/bt/bt_decoder.c: the packet queue between the Bluetooth callback and the
    decode worker, and the worker that turns packets into PCM. */
module Bluetooth {
  import opened Common
  import opened RingArithmetic

  const SLOTS := 8
  const PACKET_BYTES := 1024
  const BLOCK_FRAMES := 128

  datatype Packet = Packet(sequence: u16, timestamp: u32, frameCount: u8, discontinuity: bool, data: seq<u8>)

  // What each receive came to.
  datatype Receipt = Took(packet: Packet) | Lost

  function NextSequence(s: u16): u16 {
    if s == 0xFFFF then 0 else s + 1
  }

  predicate WellFormed(payload: seq<u8>) {
    2 <= |payload| <= PACKET_BYTES + 1 && payload[0] / 16 == 0 && payload[0] % 16 != 0
  }

  // A receive that continues the stream: the very first one, or the direct successor of the one before.
  predicate Continues(before: seq<Receipt>, sequence: u16) {
    before == [] || (before[|before| - 1].Took? && sequence == NextSequence(before[|before| - 1].packet.sequence))
  }

  // The packet that a well-formed payload makes.
  function Made(log: seq<Receipt>, sequence: u16, timestamp: u32, payload: seq<u8>): Packet
    requires WellFormed(payload)
  {
    Packet(sequence, timestamp, payload[0] % 16, !Continues(log, sequence), payload[1..])
  }

  // A packet is marked exactly when something is missing in front of it.
  ghost predicate MarksAreRight(log: seq<Receipt>) {
    forall i :: 0 <= i < |log| && log[i].Took? ==> log[i].packet.discontinuity == !Continues(log[..i], log[i].packet.sequence)
  }

  lemma MarksMore(log: seq<Receipt>, r: Receipt)
    requires MarksAreRight(log) && (r.Took? ==> r.packet.discontinuity == !Continues(log, r.packet.sequence))
    ensures MarksAreRight(log + [r])
  {
    hide Continues;
    var more := log + [r];
    assert more[..|log|] == log;
    forall i | 0 <= i < |more| && more[i].Took?
      ensures more[i].packet.discontinuity == !Continues(more[..i], more[i].packet.sequence)
    {
      assert i < |log| ==> more[..i] == log[..i];
    }
  }

  function Packets(log: seq<Receipt>): (r: seq<Packet>)
    decreases |log|
  {
    if log == [] then []
    else Packets(log[..|log| - 1]) + if log[|log| - 1].Took? then [log[|log| - 1].packet] else []
  }

  // The slot a cursor names is the one its true position names, across the cursor's wrap.
  lemma CursorIndex(p: nat)
    ensures Wrap(p, TWO32) % SLOTS == p % SLOTS
  {
    WrapIsMod(p, TWO32);
    var q := p / TWO32;
    assert p == TWO32 * q + p % TWO32;
  }

  lemma SlotsDiffer(a: nat, b: nat)
    requires a < b < a + SLOTS
    ensures a % SLOTS != b % SLOTS
  {
  }

  /** eaf_bt_ingress_t. `log` is what the receives came to and `taken` how many packets were popped. */
  class Ingress {
    const slots: array<Packet>
    var readCursor: u32
    var writeCursor: u32
    var dropped: u32
    var expected: u16
    var haveSequence: bool
    var discontinuity: bool
    ghost var log: seq<Receipt>
    ghost var accepted: seq<Packet>
    ghost var taken: nat

    // Packets wait in the slots of their positions.
    ghost predicate Queued()
      reads `readCursor, `writeCursor, `accepted, `taken, slots
    {
      && slots.Length == SLOTS && taken <= |accepted| <= taken + SLOTS
      && readCursor == Wrap(taken, TWO32) && writeCursor == Wrap(|accepted|, TWO32)
      && forall k {:trigger accepted[k]} :: taken <= k < |accepted| ==> slots[k % SLOTS] == accepted[k]
    }

    // The producer's fields say how the log ends.
    ghost predicate Tracked()
      reads `expected, `haveSequence, `discontinuity, `log, `accepted
    {
      && accepted == Packets(log) && MarksAreRight(log)
      && (log == [] ==> !haveSequence && !discontinuity)
      && (log != [] && log[|log| - 1].Lost? ==> discontinuity)
      && (log != [] && log[|log| - 1].Took? ==> haveSequence && !discontinuity && expected == NextSequence(log[|log| - 1].packet.sequence))
      && forall k :: 0 <= k < |accepted| ==> 1 <= |accepted[k].data| <= PACKET_BYTES && 1 <= accepted[k].frameCount <= 15
    }

    ghost predicate Valid()
      reads this, slots
    {
      Queued() && Tracked()
    }

    constructor ()
      ensures Valid() && fresh(slots) && log == [] && taken == 0
    {
      slots := new Packet[SLOTS](_ => Packet(0, 0, 0, false, []));
      readCursor, writeCursor, dropped, expected, haveSequence, discontinuity := 0, 0, 0, 0, false, false;
      log, accepted, taken := [], [], 0;
    }

    ghost method Note(r: Receipt)
      requires MarksAreRight(log) && (r.Took? ==> r.packet.discontinuity == !Continues(log, r.packet.sequence)) && accepted == Packets(log)
      modifies `log, `accepted
      ensures log == old(log) + [r] && MarksAreRight(log) && accepted == Packets(log)
      ensures accepted == old(accepted) + if r.Took? then [r.packet] else []
    {
      hide Continues;
      MarksMore(log, r);
      assert (log + [r])[..|log|] == log;
      log := log + [r];
      accepted := accepted + if r.Took? then [r.packet] else [];
    }

    method Lose()
      requires Valid()
      modifies `dropped, `discontinuity, `log, `accepted
      ensures Valid() && log == old(log) + [Lost] && accepted == old(accepted) && dropped == Add32(old(dropped), 1)
    {
      hide Wrap, Packets, MarksAreRight;
      dropped := Add32(dropped, 1);
      discontinuity := true;
      Note(Lost);
      assert accepted == old(accepted) + [];
    }

    // eaf_bt_sbc_receive, by the only producer. `seen` is the number of pops it knows of: its load of the
    // read cursor may be behind the consumer.
    method Receive(sequence: u16, timestamp: u32, payload: seq<u8>, seen: nat) returns (rc: int)
      requires Valid() && seen <= taken && |accepted| <= seen + SLOTS
      modifies `expected, `haveSequence, `discontinuity, `dropped, `writeCursor, `log, `accepted, slots
      ensures Valid() && taken == old(taken)
      ensures rc == if !WellFormed(payload) then INVALID else if |old(accepted)| == seen + 8 then IO else OK
      ensures rc != OK ==> log == old(log) + [Lost] && accepted == old(accepted)
      ensures dropped == if rc != OK then Add32(old(dropped), 1) else old(dropped)
      ensures if rc == INVALID then haveSequence == old(haveSequence) && expected == old(expected)
        else haveSequence && expected as int == (sequence as int + 1) % 0x1_0000
      ensures rc == OK ==> log == old(log) + [Took(Made(old(log), sequence, timestamp, payload))]
      ensures rc == OK ==> accepted == old(accepted) + [Made(old(log), sequence, timestamp, payload)]
      ensures rc == OK ==> var p := accepted[|old(accepted)|];
        && p.sequence == sequence && p.timestamp == timestamp && p.frameCount == payload[0] && p.data == payload[1..]
        && (!p.discontinuity <==> (
          || old(log) == []
          || (old(log)[|old(log)| - 1].Took? && sequence as int == (old(log)[|old(log)| - 1].packet.sequence as int + 1) % 0x1_0000)))
      ensures rc == INVALID <==> |payload| < 2 || |payload| - 1 > 1024 || payload[0] >= 16 || payload[0] == 0
    {
      hide Wrap, Packets, MarksAreRight;
      if !WellFormed(payload) {
        Lose();
        return INVALID;
      }
      var gap := haveSequence && sequence != expected;
      var write := writeCursor;
      WrappedDistance(|accepted|, seen);
      if Sub32(write, Wrap(seen, TWO32)) == SLOTS {
        Forget(sequence);
        return IO;
      }
      var packet := Packet(sequence, timestamp, payload[0] % 16, gap || discontinuity, payload[1..]);
      MarkIsRight(sequence);
      StorePacket(packet, write);
      expected, haveSequence, discontinuity := NextSequence(sequence), true, false;
      rc := OK;
    }

    // A full queue drops the packet; the sequence number is remembered all the same.
    method Forget(sequence: u16)
      requires Valid()
      modifies `expected, `haveSequence, `dropped, `discontinuity, `log, `accepted
      ensures Valid() && log == old(log) + [Lost] && accepted == old(accepted) && dropped == Add32(old(dropped), 1)
      ensures haveSequence && expected == NextSequence(sequence)
    {
      hide Wrap, Packets, MarksAreRight, Queued;
      Lose();
      expected, haveSequence := NextSequence(sequence), true;
    }

    lemma MarkIsRight(sequence: u16)
      requires Tracked()
      ensures (haveSequence && sequence != expected) || discontinuity <==> !Continues(log, sequence)
    {
      hide Packets, MarksAreRight;
    }

    method StorePacket(packet: Packet, write: u32)
      requires Valid() && write == writeCursor && |accepted| < taken + SLOTS && packet.discontinuity == !Continues(log, packet.sequence)
      requires 1 <= |packet.data| <= PACKET_BYTES && 1 <= packet.frameCount <= 15
      modifies `writeCursor, `log, `accepted, slots
      ensures Queued() && log == old(log) + [Took(packet)] && accepted == old(accepted) + [packet]
      ensures accepted == Packets(log) && MarksAreRight(log)
    {
      hide Wrap, Packets, MarksAreRight, Continues;
      CursorIndex(|accepted|);
      forall k | taken <= k < |accepted| ensures k % SLOTS != |accepted| % SLOTS {
        SlotsDiffer(k, |accepted|);
      }
      slots[write % SLOTS] := packet;
      WrappedAdvance(|accepted|, 1);
      writeCursor := Add32(write, 1);
      Note(Took(packet));
    }

    // eaf_bt_ingress_pop, by the only consumer; `seen` is the number of packets it knows of.
    method Pop(seen: nat) returns (packet: Option<Packet>)
      requires Valid() && taken <= seen <= |accepted|
      modifies `readCursor, `taken
      ensures Valid() && packet.Some? == (seen > old(taken))
      ensures if packet.Some? then taken == old(taken) + 1 && packet.value == accepted[old(taken)] else taken == old(taken)
    {
      hide Wrap, Packets, MarksAreRight;
      var read := readCursor;
      WrappedDistance(seen, taken);
      if Sub32(Wrap(seen, TWO32), read) == 0 {
        return None;
      }
      CursorIndex(taken);
      packet := Some(slots[read % SLOTS]);
      WrappedAdvance(taken, 1);
      readCursor := Add32(read, 1);
      taken := taken + 1;
    }

    lemma PacketShape(k: nat)
      requires Valid() && k < |accepted|
      ensures 1 <= |accepted[k].data| && 1 <= accepted[k].frameCount
    {
      hide Queued, Packets, MarksAreRight;
    }

    /** A delivered packet that carries no mark is the very first one, or the direct successor of the packet
        delivered before it, with nothing lost between them. */
    lemma UnmarkedFollows(k: nat, i: nat)
      requires Valid() && k < taken && i < |log| && log[i].Took? && |Packets(log[..i])| == k
      ensures accepted[k] == log[i].packet
      ensures !accepted[k].discontinuity <==>
        i == 0 || (k > 0 && log[i - 1] == Took(accepted[k - 1]) && accepted[k].sequence as int == (accepted[k - 1].sequence as int + 1) % 0x1_0000)
    {
      hide Wrap;
      PacketsAt(log, i);
      if i > 0 {
        assert log[..i][..i - 1] == log[..i - 1];
        if log[i - 1].Took? {
          PacketsAt(log, i - 1);
        }
      }
    }
  }

  // The packet of receipt i stands behind those of the receipts before it.
  lemma {:induction false} PacketsAt(log: seq<Receipt>, i: nat)
    requires i < |log| && log[i].Took?
    ensures var n := |Packets(log[..i])|; n < |Packets(log)| && Packets(log)[n] == log[i].packet
    decreases |log|
  {
    if i < |log| - 1 {
      var prefix := log[..|log| - 1];
      assert prefix[..i] == log[..i];
      PacketsAt(prefix, i);
    }
  }

  // What the SBC library makes of the next frame: bytes used, and interleaved stereo samples of 16 bits.
  datatype Sbc = Sbc(rc: int, used: nat, frames: nat, sameFormat: bool, pcm: seq<i16>)

  predicate SbcOk(d: Sbc) {
    d.frames <= BLOCK_FRAMES ==> |d.pcm| == 2 * d.frames
  }

  // eaf_s16_to_q31_interleaved, stereo to stereo.
  function Widened(pcm: seq<i16>): (r: seq<i32>)
    ensures |r| == |pcm| && forall i :: 0 <= i < |pcm| ==> r[i] == (pcm[i] as int) * 0x1_0000
  {
    seq(|pcm|, i requires 0 <= i < |pcm| => (pcm[i] as int) * 0x1_0000)
  }

  // A frame that is good by itself: decoded, not empty, not too long, in the reservoir's format.
  predicate Good(d: Sbc) {
    d.rc == OK && 0 < d.used && 0 < d.frames <= BLOCK_FRAMES && d.sameFormat
  }

  // Whether a decoded frame passes the checks, from the packet position it was decoded at.
  predicate Fits(d: Sbc, length: nat, offset: nat, framesLeft: nat) {
    Good(d) && d.used <= length - offset && ((framesLeft == 1) <==> (offset + d.used == length))
  }

  // Bytes used by frames.
  function Total(ds: seq<Sbc>): nat
    decreases |ds|
  {
    if ds == [] then 0 else Total(ds[..|ds| - 1]) + ds[|ds| - 1].used
  }

  // The first frames of a packet, each decoded where the one before ended.
  predicate AllFit(ds: seq<Sbc>, packet: Packet)
    decreases |ds|
  {
    if ds == [] then true
    else
      var prefix := ds[..|ds| - 1];
      |ds| <= packet.frameCount && AllFit(prefix, packet) && Fits(ds[|ds| - 1], |packet.data|, Total(prefix), packet.frameCount - |prefix|)
  }

  lemma FitsMore(ds: seq<Sbc>, d: Sbc, packet: Packet)
    requires |ds| < packet.frameCount
    ensures AllFit(ds + [d], packet) <==> AllFit(ds, packet) && Fits(d, |packet.data|, Total(ds), packet.frameCount - |ds|)
    ensures Total(ds + [d]) == Total(ds) + d.used
  {
    assert (ds + [d])[..|ds|] == ds;
  }

  /** The checks, made frame by frame, together say: every frame is good, and the packet is used up exactly by
      its frame count, not earlier and not later. */
  lemma {:induction false} PacketIsUsedUp(ds: seq<Sbc>, packet: Packet)
    requires |ds| <= packet.frameCount && 1 <= packet.frameCount && 1 <= |packet.data|
    ensures AllFit(ds, packet) <==>
      (forall d :: d in ds ==> d.rc == OK && 0 < d.used && 0 < d.frames <= 128 && d.sameFormat) && (if |ds| == packet.frameCount then Total(ds) == |packet.data| else Total(ds) < |packet.data|)
    decreases |ds|
  {
    hide AllFit;
    if ds == [] {
      NoFramesFit(packet);
    } else {
      var prefix, d := ds[..|ds| - 1], ds[|ds| - 1];
      assert ds == prefix + [d];
      PacketIsUsedUp(prefix, packet);
      FitsMore(prefix, d, packet);
      assert d in ds && forall x :: x in prefix ==> x in ds;
      assert (forall x :: x in ds ==> Good(x)) <==> (forall x :: x in prefix ==> Good(x)) && Good(d);
    }
  }

  lemma NoFramesFit(packet: Packet)
    ensures AllFit([], packet)
  {
  }

  // What the decoder did, in order.
  datatype Event =
    | Opened(packet: Packet)    // a packet popped
    | Unready                   // the library's reset failed after a gap
    | Passed(frame: Sbc)        // a frame that passed the checks
    | Refused(frame: Sbc)       // one that did not, or that failed to decode
    | Emptied(samples: nat)     // eaf_bt_decoder_reset, with so many samples waiting

  // Between packets, or inside one whose first frames have passed.
  datatype Stage = Between | Inside(packet: Packet, passed: seq<Sbc>)

  function Next(s: Stage, e: Event): Stage {
    match e
    case Opened(packet) => Inside(packet, [])
    case Passed(frame) =>
      if s.Inside? && |s.passed| + 1 < s.packet.frameCount then Inside(s.packet, s.passed + [frame]) else Between
    case _ => Between
  }

  predicate Allowed(s: Stage, e: Event) {
    match e
    case Opened(packet) => s.Between? && 1 <= packet.frameCount && 1 <= |packet.data|
    case Unready => s.Inside? && s.passed == [] && s.packet.discontinuity
    case Passed(frame) => s.Inside? && Judged(s, frame) && SbcOk(frame)
    case Refused(frame) => s.Inside? && !Judged(s, frame)
    case Emptied(_) => true
  }

  predicate Judged(s: Stage, frame: Sbc)
    requires s.Inside?
  {
    |s.passed| < s.packet.frameCount && Fits(frame, |s.packet.data|, Total(s.passed), s.packet.frameCount - |s.passed|)
  }

  lemma PassedOn(s: Stage, d: Sbc)
    requires s.Inside? && |s.passed| < s.packet.frameCount
    ensures Next(s, Passed(d)) == if |s.passed| + 1 < s.packet.frameCount then Inside(s.packet, s.passed + [d]) else Between
    ensures Total(s.passed + [d]) == Total(s.passed) + d.used
  {
    hide AllFit;
    FitsMore(s.passed, d, s.packet);
  }

  function StageOf(log: seq<Event>): Stage
    decreases |log|
  {
    if log == [] then Between else Next(StageOf(log[..|log| - 1]), log[|log| - 1])
  }

  // Every event was allowed when it happened.
  ghost predicate Lawful(log: seq<Event>) {
    forall i :: 0 <= i < |log| ==> Allowed(StageOf(log[..i]), log[i])
  }

  lemma LawfulMore(log: seq<Event>, e: Event)
    requires Lawful(log) && Allowed(StageOf(log), e)
    ensures Lawful(log + [e]) && StageOf(log + [e]) == Next(StageOf(log), e)
  {
    hide Allowed, Next;
    var more := log + [e];
    assert more[..|log|] == log;
    forall i | 0 <= i < |more| ensures Allowed(StageOf(more[..i]), more[i]) {
      assert i < |log| ==> more[..i] == log[..i];
    }
  }

  // What the library answered, frame by frame.
  function Answers(log: seq<Event>): (r: seq<Sbc>)
    ensures |r| <= |log|
    decreases |log|
  {
    if log == [] then []
    else
      var last := log[|log| - 1];
      Answers(log[..|log| - 1]) + if last.Passed? || last.Refused? then [last.frame] else []
  }

  ghost predicate AllPassed(log: seq<Event>) {
    forall e :: e in log ==> e.Passed?
  }

  // The fates of a packet: used up exactly, rejected at its last answer, or still to be continued.
  ghost predicate Whole(packet: Packet, log: seq<Event>) {
    |log| == packet.frameCount == |Answers(log)| && AllPassed(log) && AllFit(Answers(log), packet)
  }

  ghost predicate Rejected(packet: Packet, log: seq<Event>) {
    && 1 <= |log| <= packet.frameCount && AllPassed(log[..|log| - 1])
    && if log[|log| - 1].Refused? then |Answers(log)| == |log| && !AllFit(Answers(log), packet)
    else log == [Unready] && packet.discontinuity
  }

  ghost predicate Continuing(packet: Packet, log: seq<Event>, s: Stage) {
    && s == Inside(packet, Answers(log)) && |log| == |Answers(log)| < packet.frameCount
    && AllPassed(log) && AllFit(Answers(log), packet)
  }

  // The events from a packet's opening up to the next opening or reset.
  predicate OfOnePacket(log: seq<Event>, i: nat, j: nat) {
    i < j <= |log| && log[i].Opened? && forall k :: i < k < j ==> !log[k].Opened? && !log[k].Emptied?
  }

  lemma {:induction false} FateSoFar(log: seq<Event>, i: nat, j: nat)
    requires Lawful(log) && OfOnePacket(log, i, j)
    ensures var p, rest := log[i].packet, log[i + 1..j];
      Continuing(p, rest, StageOf(log[..j])) || (StageOf(log[..j]) == Between && (Whole(p, rest) || Rejected(p, rest)))
    decreases j
  {
    hide Allowed, Next, Whole, Rejected, Continuing, Lawful;
    StageAt(log, j);
    if j == i + 1 {
      assert log[i + 1..j] == [];
      OpeningContinues(StageOf(log[..i]), log[i].packet);
    } else {
      FateSoFar(log, i, j - 1);
      var rest := log[i + 1..j - 1];
      assert log[i + 1..j] == rest + [log[j - 1]];
      NextFate(log[i].packet, rest, StageOf(log[..j - 1]), log[j - 1]);
    }
  }

  lemma StageAt(log: seq<Event>, j: nat)
    requires Lawful(log) && 0 < j <= |log|
    ensures StageOf(log[..j]) == Next(StageOf(log[..j - 1]), log[j - 1]) && Allowed(StageOf(log[..j - 1]), log[j - 1])
  {
    hide Allowed, Next;
    assert log[..j][..j - 1] == log[..j - 1];
  }

  lemma OpeningContinues(s: Stage, p: Packet)
    requires Allowed(s, Opened(p))
    ensures Continuing(p, [], Next(s, Opened(p)))
  {
  }

  lemma NextFate(p: Packet, rest: seq<Event>, s: Stage, e: Event)
    requires Continuing(p, rest, s) || s == Between
    requires Allowed(s, e) && !e.Opened? && !e.Emptied?
    ensures Continuing(p, rest + [e], Next(s, e)) || (Next(s, e) == Between && (Whole(p, rest + [e]) || Rejected(p, rest + [e])))
  {
    hide AllFit, Fits;
    var more := rest + [e];
    assert more[..|rest|] == rest;
    assert Answers(more) == Answers(rest) + if e.Passed? || e.Refused? then [e.frame] else [];
    assert forall x :: x in more <==> x in rest || x == e;
    if e.Passed? || e.Refused? {
      FitsMore(Answers(rest), e.frame, p);
    }
  }

  /** Over every run, each packet is either used up exactly by its frames, all of which passed, or rejected; it is
      only unfinished while no other packet has been opened. With an answer for every frame of its count, it is
      used up exactly when each frame is good and their sizes add up to the packet's length. */
  lemma EachPacketIsUsedUpOrRejected(log: seq<Event>, i: nat, j: nat)
    requires Lawful(log) && OfOnePacket(log, i, j)
    ensures var p, rest := log[i].packet, log[i + 1..j];
      && (Whole(p, rest) || Rejected(p, rest) || (|rest| < p.frameCount && AllPassed(rest) && !(j < |log| && log[j].Opened?)))
      && !(Whole(p, rest) && Rejected(p, rest))
      && (|Answers(rest)| == p.frameCount ==>
        (Whole(p, rest) <==>
          (forall d :: d in Answers(rest) ==> d.rc == OK && 0 < d.used && 0 < d.frames <= 128 && d.sameFormat) && Total(Answers(rest)) == |p.data|))
  {
    hide Next, AllFit, Lawful, Total;
    var p, rest := log[i].packet, log[i + 1..j];
    FateSoFar(log, i, j);
    StageAt(log, i + 1);
    if j < |log| {
      StageAt(log, j + 1);
    }
    if |Answers(rest)| == p.frameCount {
      PacketIsUsedUp(Answers(rest), p);
    }
  }

  // The packets opened.
  function Openings(log: seq<Event>): seq<Packet>
    decreases |log|
  {
    if log == [] then []
    else Openings(log[..|log| - 1]) + if log[|log| - 1].Opened? then [log[|log| - 1].packet] else []
  }

  // The samples of all frames that passed.
  function Joined(log: seq<Event>): seq<i32>
    decreases |log|
  {
    if log == [] then []
    else Joined(log[..|log| - 1]) + if log[|log| - 1].Passed? then Widened(log[|log| - 1].frame.pcm) else []
  }

  // Those that are not lost to a reset.
  function Kept(log: seq<Event>): seq<i32>
    decreases |log|
  {
    if log == [] then []
    else
      var before, last := Kept(log[..|log| - 1]), log[|log| - 1];
      match last
      case Passed(frame) => before + Widened(frame.pcm)
      case Emptied(n) => if n <= |before| then before[..|before| - n] else []
      case _ => before
  }

  lemma {:induction false} KeptAdd(log: seq<Event>, more: seq<Event>)
    requires forall k :: 0 <= k < |more| ==> !more[k].Emptied?
    ensures Kept(log + more) == Kept(log) + Joined(more)
    decreases |more|
  {
    hide Kept, Joined, Widened;
    if more == [] {
      assert log + more == log;
      NoneJoined();
    } else {
      var prefix, last := more[..|more| - 1], more[|more| - 1];
      KeptAdd(log, prefix);
      OneMore(log, prefix, last, more);
    }
  }

  lemma OneMore(log: seq<Event>, prefix: seq<Event>, last: Event, more: seq<Event>)
    requires more == prefix + [last] && !last.Emptied? && Kept(log + prefix) == Kept(log) + Joined(prefix)
    ensures Kept(log + more) == Kept(log) + Joined(more)
  {
    hide Kept, Joined, Widened;
    assert log + more == (log + prefix) + [last];
    KeptMore(log + prefix, last);
    JoinedMore(prefix, last);
    if last.Passed? {
      Regroup(Kept(log), Joined(prefix), Widened(last.frame.pcm));
    }
  }

  lemma Regroup(a: seq<i32>, b: seq<i32>, c: seq<i32>)
    ensures a + b + c == a + (b + c)
  {
  }

  lemma KeptMore(log: seq<Event>, e: Event)
    requires !e.Emptied?
    ensures Kept(log + [e]) == if e.Passed? then Kept(log) + Widened(e.frame.pcm) else Kept(log)
  {
    assert (log + [e])[..|log|] == log;
  }

  lemma NoneJoined()
    ensures Joined([]) == []
  {
  }

  lemma KeptSince(log: seq<Event>, since: nat)
    requires since <= |log| && forall k :: since <= k < |log| ==> !log[k].Emptied?
    ensures Kept(log) == Kept(log[..since]) + Joined(log[since..])
  {
    hide Kept, Joined;
    KeptAdd(log[..since], log[since..]);
    assert log[..since] + log[since..] == log;
  }

  lemma JoinedMore(log: seq<Event>, e: Event)
    ensures Joined(log + [e]) == if e.Passed? then Joined(log) + Widened(e.frame.pcm) else Joined(log)
  {
    assert (log + [e])[..|log|] == log;
  }

  lemma LogMore(log: seq<Event>, e: Event)
    ensures Openings(log + [e]) == Openings(log) + if e.Opened? then [e.packet] else []
    ensures e.Passed? ==> Kept(log + [e]) == Kept(log) + Widened(e.frame.pcm)
    ensures !e.Passed? && !e.Emptied? ==> Kept(log + [e]) == Kept(log)
    ensures e.Emptied? && e.samples <= |Kept(log)| ==> Kept(log + [e]) == Kept(log)[..|Kept(log)| - e.samples]
  {
    assert (log + [e])[..|log|] == log;
  }

  /** eaf_bt_decoder_t. `events` is what it did and `fed` are the samples that the reservoir has taken. */
  class Decoder {
    const ingress: Ingress
    const pcm31: array<i32>
    ghost const from: nat
    var packet: Packet
    var offset: nat
    var framesLeft: nat
    var pending: nat
    var sent: nat
    var rejected: u32
    ghost var events: seq<Event>
    ghost var fed: seq<i32>

    // Samples of frames that passed and that the reservoir has not taken.
    ghost function Held(): seq<i32>
      reads `pending, `sent, pcm31
      requires sent <= pending && 2 * pending <= pcm31.Length
    {
      pcm31[2 * sent..2 * pending]
    }

    ghost predicate Waiting()
      reads `pending, `sent, `events, `fed, pcm31
    {
      pcm31.Length == 2 * BLOCK_FRAMES && sent <= pending <= BLOCK_FRAMES && Kept(events) == fed + Held()
    }

    // The fields say how far the packet is.
    ghost predicate InPacket()
      reads `packet, `offset, `framesLeft, `events
    {
      && Lawful(events)
      && match StageOf(events)
         case Between => framesLeft == 0
         case Inside(p, passed) =>
           p == packet && framesLeft > 0 && |passed| + framesLeft == p.frameCount && offset == Total(passed) < |p.data|
    }

    // Packets are opened one by one as they were queued.
    ghost predicate InOrder()
      reads `events, ingress`accepted, ingress`taken
    {
      from <= ingress.taken <= |ingress.accepted| && Openings(events) == ingress.accepted[from..ingress.taken]
    }

    ghost predicate Valid()
      reads this, ingress, ingress.slots, pcm31
    {
      Waiting() && InPacket() && InOrder() && ingress.Valid()
    }

    constructor (ingress: Ingress)
      requires ingress.Valid()
      ensures Valid() && this.ingress == ingress && fresh(pcm31) && events == [] && fed == []
    {
      this.ingress, from := ingress, ingress.taken;
      pcm31 := new i32[2 * BLOCK_FRAMES];
      packet, offset, framesLeft, pending, sent, rejected := Packet(0, 0, 0, false, []), 0, 0, 0, 0, 0;
      events, fed := [], [];
      new;
      assert ingress.accepted[from..ingress.taken] == [];
    }

    ghost method Note(e: Event)
      requires Lawful(events) && Allowed(StageOf(events), e)
      modifies `events
      ensures events == old(events) + [e] && Lawful(events) && StageOf(events) == Next(old(StageOf(events)), e)
      ensures Openings(events) == old(Openings(events)) + if e.Opened? then [e.packet] else []
      ensures e.Passed? ==> Kept(events) == old(Kept(events)) + Widened(e.frame.pcm)
      ensures !e.Passed? && !e.Emptied? ==> Kept(events) == old(Kept(events))
      ensures e.Emptied? && e.samples <= |old(Kept(events))| ==> Kept(events) == old(Kept(events))[..|old(Kept(events))| - e.samples]
    {
      LawfulMore(events, e);
      LogMore(events, e);
      events := events + [e];
    }

    // eaf_bt_decoder_reset: whatever is in flight is discarded.
    method Reset(resetRc: int) returns (rc: int)
      requires Valid()
      modifies `pending, `sent, `framesLeft, `offset, `events
      ensures Valid() && rc == resetRc && framesLeft == 0 && pending == sent == 0
      ensures events == old(events) + [Emptied(|old(Held())|)] && fed == Kept(events)
    {
      hide Ingress.Valid, Kept, Openings, Lawful, StageOf, Judged, Total;
      Note(Emptied(|Held()|));
      pending, sent, framesLeft, offset := 0, 0, 0, 0;
      assert Held() == [];
      rc := resetRc;
    }

    // reject: the rest of the packet is dropped; frames that passed have all been handed on before.
    method Reject(e: Event, code: int, resetRc: int) returns (rc: int)
      requires Waiting() && InOrder() && ingress.Valid() && Lawful(events) && pending == sent == 0
      requires (e.Refused? || e.Unready?) && Allowed(StageOf(events), e)
      modifies `pending, `sent, `framesLeft, `rejected, `events
      ensures Valid() && framesLeft == 0 && rejected == Add32(old(rejected), 1) && rc == if resetRc != OK then resetRc else code
      ensures pending == sent == 0 && events == old(events) + [e] && Kept(events) == old(Kept(events))
    {
      hide Ingress.Valid, Kept, Openings, Lawful, StageOf, Allowed, Judged, Total, Add32;
      rejected := Add32(rejected, 1);
      pending, sent, framesLeft := 0, 0, 0;
      rc := if resetRc != OK then resetRc else code;
      Note(e);
    }

    // Frames to the reservoir, which takes `room` of them at most.
    method Hand(room: nat)
      requires Waiting()
      modifies `sent, `fed
      ensures Waiting() && sent == old(sent) + Min(room, pending - old(sent))
      ensures |fed| == |old(fed)| + 2 * Min(room, pending - old(sent))
      ensures fed == old(fed) + pcm31[2 * old(sent)..2 * sent]
    {
      hide Kept;
      var n := Min(room, pending - sent);
      ghost var part, rest := pcm31[2 * sent..2 * (sent + n)], pcm31[2 * (sent + n)..2 * pending];
      assert pcm31[2 * sent..2 * pending] == part + rest;
      assert fed + (part + rest) == fed + part + rest;
      fed := fed + part;
      sent := sent + n;
    }

    method Convert(d: Sbc)
      requires Waiting() && pending == sent == 0 && SbcOk(d) && 0 < d.frames <= BLOCK_FRAMES
      requires Lawful(events) && Allowed(StageOf(events), Passed(d))
      modifies `pending, `events, pcm31
      ensures Waiting() && pending == d.frames && sent == 0
      ensures events == old(events) + [Passed(d)] && Kept(events) == old(Kept(events)) + Widened(d.pcm)
      ensures Lawful(events) && StageOf(events) == Next(old(StageOf(events)), Passed(d)) && Openings(events) == old(Openings(events))
    {
      hide Kept, Openings, Lawful, StageOf, Allowed, Next, Judged, Total;
      assert Held() == [];
      forall i | 0 <= i < 2 * d.frames {
        pcm31[i] := (d.pcm[i] as int) * 0x1_0000;
      }
      pending := d.frames;
      Note(Passed(d));
      assert Held() == Widened(d.pcm);
    }

    // The next packet of the queue, when the last one is used up.
    method NextPacket(seen: nat, resetRc: int, rejectRc: int) returns (rc: int, some: bool)
      requires Valid() && pending == sent == 0 && framesLeft == 0 && ingress.taken <= seen <= |ingress.accepted|
      modifies `packet, `offset, `framesLeft, `rejected, `pending, `sent, `events, ingress`readCursor, ingress`taken
      ensures Valid() && pending == sent == 0 && Kept(events) == old(Kept(events))
      ensures some == (seen > old(ingress.taken) && rc == OK)
      ensures rejected == if rc == OK then old(rejected) else Add32(old(rejected), 1)
      ensures seen == old(ingress.taken) ==> rc == OK && ingress.taken == old(ingress.taken) && events == old(events)
      ensures seen > old(ingress.taken) ==> ingress.taken == old(ingress.taken) + 1 && packet == ingress.accepted[old(ingress.taken)]
      ensures seen > old(ingress.taken) ==> ((rc == OK) <==> !(packet.discontinuity && resetRc != OK))
      ensures seen > old(ingress.taken) ==> events == old(events) + [Opened(packet)] + if some then [] else [Unready]
      ensures if some then offset == 0 && framesLeft == packet.frameCount > 0 else framesLeft == 0
    {
      hide Ingress.Queued, Ingress.Tracked, Total, Kept, Openings, Lawful, StageOf, Judged;
      var next := ingress.Pop(seen);
      if next == None {
        return OK, false;
      }
      ingress.PacketShape(ingress.taken - 1);
      packet, offset, framesLeft := next.value, 0, next.value.frameCount;
      Note(Opened(packet));
      assert ingress.accepted[from..ingress.taken] == ingress.accepted[from..ingress.taken - 1] + [packet];
      NoFramesYet();
      if packet.discontinuity && resetRc != OK {
        rc := Reject(Unready, resetRc, rejectRc);
        return rc, false;
      }
      rc, some := OK, true;
    }

    lemma NoFramesYet()
      ensures Total([]) == 0
    {
    }

    // The checks of the next frame, as the fields name its place.
    lemma Judging(d: Sbc)
      requires InPacket() && framesLeft > 0
      ensures StageOf(events).Inside? && StageOf(events).packet == packet
      ensures Judged(StageOf(events), d) <==> Fits(d, |packet.data|, offset, framesLeft)
      ensures |StageOf(events).passed| + framesLeft == packet.frameCount && offset == Total(StageOf(events).passed)
    {
      hide Lawful, StageOf, Fits, Total;
    }

    // One SBC frame of the packet.
    method DecodeFrame(d: Sbc, rejectRc: int, room: nat) returns (rc: int)
      requires Valid() && pending == sent == 0 && framesLeft > 0 && SbcOk(d)
      modifies `offset, `framesLeft, `rejected, `pending, `sent, `events, `fed, pcm31
      ensures Valid() && old(fed) <= fed
      ensures (rc == OK) == (d.rc == OK && 0 < d.used <= |packet.data| - old(offset) && 0 < d.frames <= 128 && d.sameFormat
        && (old(framesLeft) == 1 <==> old(offset) + d.used == |packet.data|))
      ensures rc == OK ==> |Kept(events)| == |old(Kept(events))| + |d.pcm|
      ensures rc == OK ==> forall i :: 0 <= i < |d.pcm| ==> Kept(events)[|old(Kept(events))| + i] == (d.pcm[i] as int) * 0x1_0000
      ensures if Fits(d, |packet.data|, old(offset), old(framesLeft)) then
          && rc == OK && events == old(events) + [Passed(d)] && Kept(events) == old(Kept(events)) + Widened(d.pcm)
          && rejected == old(rejected) && |fed| == |old(fed)| + 2 * Min(room, d.frames)
          && framesLeft == old(framesLeft) - 1 && offset == old(offset) + d.used && (framesLeft == 0 <==> offset == |packet.data|)
        else
          && rc != OK && framesLeft == 0 && events == old(events) + [Refused(d)] && fed == old(fed) == Kept(events)
          && rejected == Add32(old(rejected), 1)
    {
      hide Ingress.Valid, Ingress.Queued, Total, Kept, Openings, Lawful, StageOf, Judged, Next;
      assert Held() == [];
      Judging(d);
      PassedOn(StageOf(events), d);
      if d.rc != OK {
        rc := Reject(Refused(d), d.rc, rejectRc);
        return;
      }
      if d.used == 0 || d.used > |packet.data| - offset || d.frames == 0 || d.frames > BLOCK_FRAMES || !d.sameFormat {
        rc := Reject(Refused(d), INVALID, rejectRc);
        return;
      }
      offset := offset + d.used;
      framesLeft := framesLeft - 1;
      if (framesLeft == 0 && offset != |packet.data|) || (framesLeft > 0 && offset == |packet.data|) {
        rc := Reject(Refused(d), INVALID, rejectRc);
        return;
      }
      Convert(d);
      Hand(room);
      rc := OK;
    }

    /** eaf_bt_decoder_step. `roomBefore` and `room` are what the reservoir has free at its two writes, `seen` the
        packets published so far, `resetRc` and `rejectRc` what the SBC library's reset returns on a discontinuity
        and in a rejection. Old PCM goes first; only when all of it is handed over is one more frame decoded, from
        the packet at hand or else from the next one. */
    method Step(roomBefore: nat, seen: nat, d: Sbc, resetRc: int, rejectRc: int, room: nat) returns (rc: int)
      requires Valid() && SbcOk(d) && ingress.taken <= seen <= |ingress.accepted|
      modifies this, ingress`readCursor, ingress`taken, pcm31
      ensures Valid() && old(events) <= events && old(fed) <= fed
      ensures old(pending - sent) > roomBefore ==> (
        && rc == OK && events == old(events) && |fed| == |old(fed)| + 2 * roomBefore
        && ingress.taken == old(ingress.taken) && framesLeft == old(framesLeft))
      ensures old(pending - sent) <= roomBefore && old(framesLeft) == 0 && seen == old(ingress.taken) ==> (
        && rc == OK && events == old(events) && fed == Kept(events) && ingress.taken == old(ingress.taken) && framesLeft == 0)
      ensures old(pending - sent) <= roomBefore && (old(framesLeft) > 0 || seen > old(ingress.taken)) ==> (
        if rc == OK then
          && d.frames <= BLOCK_FRAMES && events == old(events) + (if old(framesLeft) == 0 then [Opened(packet)] else []) + [Passed(d)]
          && rejected == old(rejected) && |fed| == |old(Kept(events))| + 2 * Min(room, d.frames)
        else fed == Kept(events) == old(Kept(events)) && rejected == Add32(old(rejected), 1) && framesLeft == 0)
      ensures old(pending - sent) <= roomBefore && old(framesLeft) > 0 ==> (
        && ingress.taken == old(ingress.taken) && packet == old(packet)
        && ((rc == OK) <==> Fits(d, |packet.data|, old(offset), old(framesLeft)))
        && (rc != OK ==> events == old(events) + [Refused(d)]))
      ensures old(pending - sent) <= roomBefore && old(framesLeft) == 0 && seen > old(ingress.taken) ==> (
        && ingress.taken == old(ingress.taken) + 1 && packet == ingress.accepted[old(ingress.taken)]
        && ((rc == OK) <==> Fits(d, |packet.data|, 0, packet.frameCount) && !(packet.discontinuity && resetRc != OK))
        && (rc != OK ==>
          events == old(events) + [Opened(packet)] + [if packet.discontinuity && resetRc != OK then Unready else Refused(d)]))
    {
      hide Ingress.Valid, InPacket, InOrder, Waiting, Kept;
      if pending > sent {
        Hand(roomBefore);
        if pending > sent {
          return OK;
        }
      }
      AllHanded();
      if framesLeft == 0 {
        var some;
        rc, some := NextPacket(seen, resetRc, rejectRc);
        if !some {
          return;
        }
      }
      rc := DecodeFrame(d, rejectRc, room);
    }

    method AllHanded()
      requires Waiting() && pending <= sent
      modifies `pending, `sent
      ensures Waiting() && pending == sent == 0 && Kept(events) == fed
    {
      hide Kept;
      assert Held() == [];
      pending, sent := 0, 0;
      assert Held() == [];
    }

    /** From any moment on, up to the next reset: the samples of every frame that passed since enter the reservoir
        once and in order, behind those kept before, or wait to; and each packet that was taken from the queue was
        opened once, in the queue's order, and used up exactly or rejected. */
    lemma NothingLost(since: nat)
      requires Valid() && since <= |events| && forall k :: since <= k < |events| ==> !events[k].Emptied?
      ensures fed + Held() == Kept(events[..since]) + Joined(events[since..])
      ensures Openings(events) == ingress.accepted[from..ingress.taken]
      ensures forall i, j :: 0 <= i < j <= |events| && OfOnePacket(events, i, j) ==>
        var p, rest := events[i].packet, events[i + 1..j];
        Whole(p, rest) || Rejected(p, rest) || (|rest| < p.frameCount && AllPassed(rest) && !(j < |events| && events[j].Opened?))
    {
      hide Ingress.Valid, Kept, Joined, Openings, Lawful, StageOf, Whole, Rejected, AllPassed;
      KeptSince(events, since);
      forall i, j | 0 <= i < j <= |events| && OfOnePacket(events, i, j)
        ensures var p, rest := events[i].packet, events[i + 1..j];
          Whole(p, rest) || Rejected(p, rest) || (|rest| < p.frameCount && AllPassed(rest) && !(j < |events| && events[j].Opened?))
      {
        EachPacketIsUsedUpOrRejected(events, i, j);
      }
    }
  }
}
