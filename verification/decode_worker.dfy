/** apps/decoders/dec_pcm.c and core/eaf_decoder.c: the PCM adapter and the decode worker that moves its frames
    to a sink which may take only some of them. */
module DecodeWorker {
  import opened Common
  import opened ByteStream
  import opened DecoderInput
  import opened PcmBytes
  import opened PcmFrames
  import opened RingArithmetic

  const PCM_RING := 4096

  // Mono is duplicated into a stereo output.
  function Upmix(frame: seq<i32>, channels: nat): (r: seq<i32>)
    ensures 1 <= |frame| <= channels <= 2 ==> |r| == channels
  {
    if |frame| == 1 && channels == 2 then [frame[0], frame[0]] else frame
  }

  /** What opens: PCM of 16, 24 or 32 bits, mono or stereo, at the output's own rate, into a valid output that has
      the same channels or doubles mono; everything else is refused. */
  lemma Opens(r: Request)
    ensures OpenCode(r) == OK <==>
      && r.pcm && (r.bits == 16 || r.bits == 24 || r.bits == 32) && FormatValid(r.output) && r.rate == r.output.sampleRate && r.rate > 0
      && ((r.channels == 1 && r.output.channels == 1) || (r.channels == 2 && r.output.channels == 2) || (r.channels == 1 && r.output.channels == 2))
    ensures OpenCode(r) == OK || OpenCode(r) == INVALID || OpenCode(r) == UNSUPPORTED
    ensures OpenCode(r) == INVALID <==> !FormatValid(r.output) || r.rate == 0 || r.channels == 0 || r.channels > 4
  {
    hide FormatValid;
  }

  // What a decoded frame becomes: itself, or mono on both sides.
  predicate IsOutput(out: seq<i32>, frame: seq<i32>, channels: nat, outputs: nat) {
    |frame| == channels && |out| == outputs && if channels == outputs then out == frame else outputs == 2 && channels == 1 && out[0] == frame[0] == out[1]
  }

  lemma IsUpmixed(frame: seq<i32>, outputs: nat)
    requires 1 <= |frame| <= outputs <= 2
    ensures IsOutput(Upmix(frame, outputs), frame, |frame|, outputs)
  {
  }

  lemma OutIsInterleaved(channels: nat, f: nat)
    requires channels == 1 || channels == 2
    ensures OutAt(channels, f) == channels * f
  {
  }

  // Index of a frame's first sample in interleaved output.
  function OutAt(channels: nat, frame: nat): nat {
    if channels == 2 then frame + frame else frame
  }

  lemma DivSpan(x: nat, size: nat)
    requires size > 0
    ensures Span(x / size, size) <= x < Span(x / size + 1, size)
  {
    SpanIsProduct(x / size, size);
    SpanIsProduct(x / size + 1, size);
  }

  lemma SpanRoom(x: nat, size: nat, done: nat)
    requires size > 0 && done < x / size
    ensures Span(done, size) + size <= x
  {
    DivSpan(x, size);
    SpanStep(done, size);
    SpanLe(done + 1, x / size, size);
  }

  // `x << 8 * n`.
  function Shl(x: nat, n: nat): nat
    decreases n
  {
    if n == 0 then x else 256 * Shl(x, n - 1)
  }

  lemma {:induction false} LittleAppend(b: seq<u8>, x: u8)
    ensures LittleEndian(b + [x]) == LittleEndian(b) + Shl(x, |b|)
    decreases |b|
  {
    if b == [] {
      assert LittleEndian([x][1..]) == 0;
    } else {
      assert (b + [x])[1..] == b[1..] + [x];
      LittleAppend(b[1..], x);
    }
  }

  // pcm_sample: the bytes of a sample, or-ed together from the least significant one up.
  method PcmSample(frame: array<u8>, offset: nat, width: nat) returns (sample: i32)
    requires Width(width) && offset + width <= frame.Length
    ensures sample == Sample(frame[offset..offset + width], false)
  {
    ghost var bytes := frame[offset..offset + width];
    var value: nat := 0;
    var i := 0;
    while i < width
      invariant i <= width && value == LittleEndian(bytes[..i])
    {
      LittleAppend(bytes[..i], bytes[i]);
      assert bytes[..i + 1] == bytes[..i] + [bytes[i]];
      value := value + Shl(frame[offset + i], i);
      i := i + 1;
    }
    assert bytes[..width] == bytes;
    WordFits(bytes, false);
    WidenedFits(value, width);
    var signed: int := value;
    if 2 * value >= Full(width) {
      signed := signed - Full(width);
    }
    sample := signed * Scale(width);
  }

  // What a decoder was asked to open, and for which output.
  datatype Request = Request(pcm: bool, rate: nat, channels: nat, bits: nat, output: Format)

  // eaf_decoder_open, eaf_decoder_validate_open and pcm_open.
  function OpenCode(r: Request): int {
    if !FormatValid(r.output) || r.rate == 0 || r.channels == 0 || r.channels > MAX_CHANNELS then INVALID
    else if !r.pcm || r.channels > 2 || !(r.output.channels == r.channels || (r.channels == 1 && r.output.channels == 2)) then UNSUPPORTED
    else if r.rate != r.output.sampleRate then UNSUPPORTED
    else if r.bits != 16 && r.bits != 24 && r.bits != 32 then UNSUPPORTED
    else OK
  }

  function FrameIn(pcm: seq<i32>, channels: nat, f: nat): seq<i32> {
    if OutAt(channels, f + 1) <= |pcm| then pcm[OutAt(channels, f)..OutAt(channels, f + 1)] else []
  }

  lemma FrameInside(pcm: seq<i32>, channels: nat, f: nat)
    requires OutAt(channels, f + 1) <= |pcm|
    ensures OutAt(channels, f) <= OutAt(channels, f + 1) && FrameIn(pcm, channels, f) == pcm[OutAt(channels, f)..OutAt(channels, f + 1)]
  {
  }

  // Writing frame f leaves the frames before it alone.
  lemma FramesStay(before: seq<i32>, after: seq<i32>, channels: nat, f: nat)
    requires |before| == |after| && OutAt(channels, f) <= |before| && forall k :: 0 <= k < OutAt(channels, f) ==> after[k] == before[k]
    ensures forall k :: 0 <= k < f ==> FrameIn(after, channels, k) == FrameIn(before, channels, k)
  {
  }

  /** eaf_decoder_pcm_t. */
  class PcmDecoder {
    const input: Input
    var layout: Layout
    var channels: nat

    ghost predicate Shaped()
      reads this
    {
      LayoutOk(layout) && !layout.bigEndian && layout.channels <= channels <= 2
    }

    ghost predicate Valid()
      reads this, input, input.ring
    {
      Shaped() && input.Valid()
    }

    constructor ()
      ensures Valid() && fresh(input) && fresh(input.ring) && input.queue == []
    {
      input := new Input(PCM_RING);
      layout, channels := Layout(2, 1, false), 1;
    }

    // pcm_open.
    method Open(r: Request) returns (rc: int)
      requires Valid()
      modifies `layout, `channels, input`tail, input`count, input`eof, input`read, input`queue
      ensures Valid() && rc == OpenCode(r)
      ensures rc == OK ==> layout == Layout(r.bits / 8, r.channels, false) && channels == r.output.channels && input.queue == []
      ensures rc != OK ==> unchanged(this) && unchanged(input)
    {
      rc := OpenCode(r);
      if rc == OK {
        layout, channels := Layout(r.bits / 8, r.channels, false), r.output.channels;
        input.Reset();
      }
    }

    // One frame out of the ring, converted and widened to the output's channels.
    method PullFrame(pcm: array<i32>, f: nat) returns (ghost group: seq<u8>)
      requires Valid() && input.count >= FrameBytes(layout) && OutAt(channels, f + 1) <= pcm.Length
      modifies input`tail, input`count, input`read, input`queue, pcm
      ensures Valid() && |group| == FrameBytes(layout) && old(input.queue) == group + input.queue
      ensures pcm[OutAt(channels, f)..OutAt(channels, f + 1)] == Upmix(Frame(layout, group), channels)
      ensures forall k :: 0 <= k < OutAt(channels, f) ==> pcm[k] == old(pcm[k])
    {
      hide Sample, Input.Valid;
      var frame := new u8[8];
      var fb := FrameBytes(layout);
      input.Counted();
      group := input.queue[..fb];
      var got := input.Read(frame, fb);
      assert frame[..fb] == group;
      var left := PcmSample(frame, 0, layout.width);
      assert group[..layout.width] == frame[0..layout.width];
      pcm[OutAt(channels, f)] := left;
      if layout.channels == 2 {
        var right := PcmSample(frame, layout.width, layout.width);
        assert group[layout.width..] == frame[layout.width..layout.width + layout.width];
        pcm[OutAt(channels, f) + 1] := right;
      } else {
        assert group == frame[0..layout.width];
        if channels == 2 {
          pcm[OutAt(channels, f) + 1] := left;
        }
      }
    }

    // Converted frames from frame `from` on, and the bytes they were.
    ghost predicate Pulled(pcm: seq<i32>, from: nat, groups: seq<seq<u8>>)
      reads this
      requires Shaped()
    {
      Grouped(layout, groups) && forall k :: 0 <= k < |groups| ==> FrameIn(pcm, channels, from + k) == Upmix(Frame(layout, groups[k]), channels)
    }

    method PullNext(pcm: array<i32>, f: nat, ghost was: seq<u8>, ghost groups: seq<seq<u8>>) returns (ghost more: seq<seq<u8>>)
      requires f == |groups| && Valid() && Pulled(pcm[..], 0, groups) && was == Concat(groups) + input.queue
      requires input.count >= FrameBytes(layout) && OutAt(channels, |groups| + 1) <= pcm.Length
      modifies input`tail, input`count, input`read, input`queue, pcm
      ensures Valid() && |more| == |groups| + 1 && Pulled(pcm[..], 0, more) && was == Concat(more) + input.queue
    {
      hide Upmix, Frame, Input.Valid, Concat, FrameBytes, FrameIn, OutAt;
      ghost var before := pcm[..];
      ghost var group := PullFrame(pcm, f);
      ConcatAdd(groups, [group]);
      OneGroup(group);
      assert Concat(groups) + (group + input.queue) == Concat(groups) + group + input.queue;
      more := groups + [group];
      FrameInside(pcm[..], channels, f);
      FramesStay(before, pcm[..], channels, f);
    }

    // The first n of them, and those behind.
    lemma PulledParts(pcm: seq<i32>, from: nat, groups: seq<seq<u8>>, n: nat)
      requires Shaped() && Pulled(pcm, from, groups) && n <= |groups|
      ensures Grouped(layout, groups) && Pulled(pcm, from + n, groups[n..])
      ensures forall j :: 0 <= j < n ==> FrameIn(pcm, channels, from + j) == Upmix(Frame(layout, groups[j]), channels)
    {
      hide Upmix, Frame, FrameIn, FrameBytes, LayoutOk;
      forall k | 0 <= k < |groups| - n ensures FrameIn(pcm, channels, from + n + k) == Upmix(Frame(layout, groups[n..][k]), channels) {
        assert FrameIn(pcm, channels, from + (n + k)) == Upmix(Frame(layout, groups[n + k]), channels);
      }
    }

    lemma PulledAreGroups(pcm: seq<i32>, groups: seq<seq<u8>>)
      requires Shaped() && Pulled(pcm, 0, groups)
      ensures Grouped(layout, groups)
    {
    }

    // pcm_pull: as many whole frames as are buffered and wanted.
    method Pull(pcm: array<i32>, max: nat) returns (frames: nat, ghost groups: seq<seq<u8>>)
      requires Valid() && OutAt(channels, max) <= pcm.Length
      modifies input`tail, input`count, input`read, input`queue, pcm
      ensures Valid() && frames == Min(old(input.count) / FrameBytes(layout), max) == |groups| && Pulled(pcm[..], 0, groups)
      ensures old(input.queue) == Concat(groups) + input.queue
    {
      hide Upmix, Frame, Input.Valid, Concat, FrameBytes, Pulled;
      ghost var was := input.queue;
      PositiveFrame(pcm[..]);
      input.Counted();
      frames := Min(input.count / FrameBytes(layout), max);
      groups := [];
      var f := 0;
      NothingYet(input.queue);
      while f < frames
        invariant f <= frames && Valid() && |groups| == f && Pulled(pcm[..], 0, groups) && was == Concat(groups) + input.queue
      {
        EnoughLeft(was, pcm[..], groups, frames);
        groups := PullNext(pcm, f, was, groups);
        f := f + 1;
      }
    }

    lemma EnoughLeft(was: seq<u8>, pcm: seq<i32>, groups: seq<seq<u8>>, frames: nat)
      requires Valid() && Pulled(pcm, 0, groups) && was == Concat(groups) + input.queue
      requires FrameBytes(layout) > 0 && frames <= |was| / FrameBytes(layout) && |groups| < frames
      ensures input.count >= FrameBytes(layout)
    {
      hide Frame, Concat, FrameBytes, Decoded;
      input.Counted();
      ConcatSize(layout, groups);
      SpanRoom(|was|, FrameBytes(layout), |groups|);
    }

    lemma PositiveFrame(pcm: seq<i32>)
      requires Shaped()
      ensures FrameBytes(layout) > 0 && Pulled(pcm, 0, [])
    {
    }

    lemma NothingYet(q: seq<u8>)
      ensures Concat([]) + q == q
    {
    }
  }

  /** eaf_decode_worker_t over the PCM adapter. The ghost fields remember the stream since the last open or
      reset: bytes accepted, frames they were cut into, frames the sink took. */
  class Worker {
    const decoder: PcmDecoder
    const scratch: array<i32>
    const scratchFrames: nat
    var pending: nat
    var sent: nat
    var framesWritten: nat
    var framesDropped: nat
    var isOpen: bool
    ghost var pushed: seq<u8>
    ghost var groups: seq<seq<u8>>
    ghost var received: seq<seq<i32>>
    ghost var before: nat

    ghost predicate Sizes()
      reads this, decoder
    {
      && scratchFrames > 0 && scratch.Length == scratchFrames + scratchFrames
      && sent <= pending <= scratchFrames && decoder.Shaped() && (!isOpen ==> pending == 0)
    }

    // Every accepted byte is in a decoded frame or in the ring.
    ghost predicate BytesKept()
      reads `pushed, `groups, decoder, decoder.input, decoder.input.ring
    {
      decoder.Valid() && Grouped(decoder.layout, groups) && pushed == Concat(groups) + decoder.input.queue
    }

    // The sink took the first frames decoded.
    ghost predicate Taken()
      reads `groups, `received, `framesWritten, `before, decoder
    {
      && decoder.Shaped() && Grouped(decoder.layout, groups) && |received| <= |groups| && framesWritten == before + |received|
      && forall i :: 0 <= i < |received| ==> received[i] == Upmix(Frame(decoder.layout, groups[i]), decoder.channels)
    }

    // Every decoded frame was taken by the sink, in order, or waits in the scratch buffer.
    ghost predicate FramesKept()
      reads `pending, `sent, `groups, `received, `framesWritten, `before, decoder, scratch
    {
      Taken() && sent <= pending && |groups| == |received| + (pending - sent) && decoder.Pulled(scratch[..], sent, groups[|received|..])
    }

    ghost predicate Valid()
      reads this, decoder, decoder.input, decoder.input.ring, scratch
    {
      Sizes() && decoder.Valid() && (isOpen ==> BytesKept() && FramesKept())
    }

    constructor (scratchFrames: nat)
      requires scratchFrames > 0
      ensures Valid() && !isOpen && fresh(decoder) && fresh(scratch) && fresh(decoder.input) && fresh(decoder.input.ring)
    {
      decoder := new PcmDecoder();
      this.scratchFrames := scratchFrames;
      scratch := new i32[scratchFrames + scratchFrames];
      pending, sent, framesWritten, framesDropped, isOpen := 0, 0, 0, 0, false;
      pushed, groups, received, before := [], [], [], 0;
    }

    ghost method Forget()
      requires decoder.Valid() && decoder.input.queue == [] && pending == sent
      modifies `pushed, `groups, `received, `before
      ensures BytesKept() && FramesKept() && pushed == [] && groups == [] && received == [] && before == framesWritten
    {
      hide Upmix, Frame;
      pushed, groups, received, before := [], [], [], framesWritten;
    }

    // eaf_decode_worker_open: an open worker may be opened again, and stays as it is when that fails.
    method Open(r: Request) returns (rc: int)
      requires Valid()
      modifies `pending, `sent, `framesWritten, `framesDropped, `isOpen, `pushed, `groups, `received, `before,
        decoder`layout, decoder`channels, decoder.input`tail, decoder.input`count, decoder.input`eof, decoder.input`read, decoder.input`queue
      ensures Valid() && rc == OpenCode(r) && isOpen == (rc == OK || old(isOpen))
      ensures rc == OK ==> pending == sent == 0 && pushed == [] && received == [] && framesWritten == 0 && framesDropped == 0
      ensures rc != OK ==> unchanged(this) && unchanged(decoder) && unchanged(decoder.input)
    {
      hide Upmix, Frame, FramesKept, BytesKept, OpenCode;
      rc := decoder.Open(r);
      if rc == OK {
        pending, sent, framesWritten, framesDropped := 0, 0, 0, 0;
        Forget();
        isOpen := true;
      }
    }

    // eaf_decode_worker_push: nothing is taken while frames wait for the sink.
    method Push(data: seq<u8>) returns (rc: int, consumed: nat)
      requires Valid()
      modifies `pushed, decoder.input`count, decoder.input`queue, decoder.input.ring
      ensures Valid() && rc == (if isOpen then OK else STATE) && consumed <= |data| && (rc != OK || pending > sent ==> consumed == 0)
      ensures isOpen ==> pushed == old(pushed) + data[..consumed]
      ensures isOpen && pending == sent && !decoder.input.eof ==> consumed == Min(|data|, decoder.input.ring.Length - old(decoder.input.count))
    {
      hide Upmix, Frame, Concat, Input.Valid, FramesKept;
      if !isOpen {
        return STATE, 0;
      }
      if pending > sent {
        assert pushed + data[..0] == pushed;
        return OK, 0;
      }
      consumed := decoder.input.Push(data);
      AppendQueue(Concat(groups), old(decoder.input.queue), data[..consumed]);
      pushed := pushed + data[..consumed];
      rc := OK;
    }

    lemma AppendQueue(a: seq<u8>, b: seq<u8>, c: seq<u8>)
      ensures a + b + c == a + (b + c)
    {
    }

    // drain: the sink takes `written` of the waiting frames, from the oldest on.
    method Drain(written: nat)
      requires FramesKept() && Sizes() && written <= pending - sent
      modifies `sent, `framesWritten, `received
      ensures FramesKept() && Sizes() && sent == old(sent) + written && old(received) <= received && |received| == |old(received)| + written
      ensures framesWritten == old(framesWritten) + written
    {
      hide Upmix, Frame, FrameIn, FrameBytes, Grouped, LayoutOk, PcmDecoder.Pulled;
      ghost var rest := groups[|received|..];
      decoder.PulledParts(scratch[..], sent, rest, written);
      assert rest[written..] == groups[|received| + written..];
      received := received + Handed(sent, written);
      sent := sent + written;
      framesWritten := framesWritten + written;
    }

    // The frames the sink is handed, as it reads them.
    ghost function Handed(from: nat, n: nat): (r: seq<seq<i32>>)
      reads decoder, scratch
      ensures |r| == n && forall j :: 0 <= j < n ==> r[j] == FrameIn(scratch[..], decoder.channels, from + j)
      decreases n
    {
      if n == 0 then [] else Handed(from, n - 1) + [FrameIn(scratch[..], decoder.channels, from + n - 1)]
    }

    // How many frames the next pull would decode.
    ghost function Decodable(): nat
      reads this, decoder, decoder.input
    {
      if FrameBytes(decoder.layout) == 0 then 0 else Min(decoder.input.count / FrameBytes(decoder.layout), scratchFrames)
    }

    /** eaf_decode_worker_step: frames that wait are offered again; otherwise as many as the ring holds and the
        scratch buffer fits are decoded and offered. The sink takes `taken` of what it is offered, at most. */
    method Step(taken: nat) returns (rc: int)
      requires Valid()
      modifies `pending, `sent, `framesWritten, `groups, `received, scratch,
        decoder.input`tail, decoder.input`count, decoder.input`read, decoder.input`queue
      ensures Valid() && rc == (if isOpen then OK else STATE) && old(received) <= received
      ensures !isOpen ==> groups == old(groups) && received == old(received)
      ensures isOpen && old(pending > sent) ==> (
        && groups == old(groups) && decoder.input.queue == old(decoder.input.queue)
        && |received| == |old(received)| + Min(taken, old(pending - sent)))
      ensures isOpen && old(pending == sent) ==> (
        && |groups| == |old(groups)| + old(Decodable())
        && |received| == |old(received)| + Min(taken, old(Decodable())))
    {
      hide Upmix, Frame, Concat, Input.Valid, FramesKept;
      if !isOpen {
        return STATE;
      }
      rc := OK;
      if pending > sent {
        Drain(Min(taken, pending - sent));
        return;
      }
      Decode();
      if pending > 0 {
        Drain(Min(taken, pending));
      }
    }

    method Decode()
      requires Valid() && isOpen && pending == sent
      modifies `pending, `sent, `groups, scratch, decoder.input`tail, decoder.input`count, decoder.input`read, decoder.input`queue
      ensures Valid() && isOpen && sent == 0 && pending == old(Decodable()) && |groups| == |old(groups)| + pending
    {
      hide Upmix, Frame, Concat, Input.Valid, BytesKept, FramesKept, PcmDecoder.Pulled;
      ghost var more;
      AllTaken();
      ghost var was := decoder.input.queue;
      pending, sent := 0, 0;
      ScratchRoom();
      pending, more := decoder.Pull(scratch, scratchFrames);
      Adopt(was, more);
    }

    lemma AllTaken()
      requires BytesKept() && FramesKept() && pending == sent
      ensures Taken() && |groups| == |received| && pushed == Concat(groups) + decoder.input.queue
    {
      hide Upmix, Frame, Concat, Input.Valid;
    }

    ghost method Adopt(was: seq<u8>, more: seq<seq<u8>>)
      requires Taken() && |groups| == |received| && decoder.Valid() && pushed == Concat(groups) + was && was == Concat(more) + decoder.input.queue
      requires sent == 0 && pending == |more| && decoder.Pulled(scratch[..], 0, more)
      modifies `groups
      ensures BytesKept() && FramesKept() && groups == old(groups) + more
    {
      hide Concat, Input.Valid, PcmDecoder.Pulled, Taken;
      ghost var first := groups;
      AdoptBytes(first, was, more, decoder.input.queue);
      decoder.PulledAreGroups(scratch[..], more);
      TakenAreGroups();
      groups := first + more;
      TakenMore(first);
      assert groups[|received|..] == more;
    }

    lemma TakenAreGroups()
      requires Taken()
      ensures Grouped(decoder.layout, groups)
    {
    }

    // Frames decoded later leave those already taken as they are.
    twostate lemma TakenMore(first: seq<seq<u8>>)
      requires old(Taken()) && first == old(groups) && first <= groups && Grouped(decoder.layout, groups)
      requires received == old(received) && framesWritten == old(framesWritten) && before == old(before) && unchanged(decoder)
      ensures Taken()
    {
      hide Upmix, Frame;
    }

    lemma AdoptBytes(first: seq<seq<u8>>, was: seq<u8>, more: seq<seq<u8>>, queue: seq<u8>)
      requires was == Concat(more) + queue
      ensures Concat(first) + was == Concat(first + more) + queue
    {
      hide Concat;
      ConcatAdd(first, more);
      assert Concat(first) + (Concat(more) + queue) == Concat(first) + Concat(more) + queue;
    }

    lemma ScratchRoom()
      requires Sizes()
      ensures OutAt(decoder.channels, scratchFrames) <= scratch.Length
    {
    }

    // eaf_decode_worker_reset: waiting frames are dropped and counted, and the adapter forgets its bytes.
    method Reset() returns (rc: int)
      requires Valid()
      modifies `pending, `sent, `framesDropped, `pushed, `groups, `received, `before,
        decoder.input`tail, decoder.input`count, decoder.input`eof, decoder.input`read, decoder.input`queue
      ensures Valid() && rc == OK && framesDropped == old(framesDropped) + (old(pending) - old(sent)) && framesWritten == old(framesWritten)
      ensures isOpen ==> pushed == [] && received == []
    {
      hide Upmix, Frame, FramesKept, BytesKept, Input.Valid;
      if pending > sent {
        framesDropped := framesDropped + (pending - sent);
      }
      pending, sent := 0, 0;
      rc := OK;
      if isOpen {
        decoder.input.Reset();
        Forget();
      }
    }

    method Close()
      requires Valid()
      modifies `isOpen, `pending, `sent
      ensures Valid() && !isOpen && pending == 0
    {
      isOpen, pending, sent := false, 0, 0;
    }

    /** Between any two calls: accepted bytes are frame bytes times (frames written + frames waiting) plus the
        bytes in the ring, and what the sink received is a prefix of the converted stream. */
    lemma NothingLost()
      requires Valid() && isOpen
      ensures |pushed| == Span(|received| + (pending - sent), FrameBytes(decoder.layout)) + decoder.input.count
      ensures |received| <= |Decoded(decoder.layout, pushed)|
      ensures forall i :: 0 <= i < |received| ==> received[i] == Upmix(Decoded(decoder.layout, pushed)[i], decoder.channels)
      ensures forall i :: 0 <= i < |received| ==> IsOutput(received[i], Decoded(decoder.layout, pushed)[i], decoder.layout.channels, decoder.channels)
    {
      hide Upmix, Frame, Concat, Input.Valid, Decoded;
      decoder.input.Counted();
      ConcatSize(decoder.layout, groups);
      DecodedGroups(decoder.layout, groups, []);
      DecodedPrefix(decoder.layout, Concat(groups) + [], decoder.input.queue);
      assert pushed == Concat(groups) + [] + decoder.input.queue;
      forall i | 0 <= i < |received|
        ensures IsOutput(received[i], Decoded(decoder.layout, pushed)[i], decoder.layout.channels, decoder.channels)
      {
        assert Decoded(decoder.layout, pushed)[i] == Frame(decoder.layout, groups[i]);
        IsUpmixed(Frame(decoder.layout, groups[i]), decoder.channels);
      }
    }
  }
}
