/** The data path of apps/lms/lms_client.c: body bytes into the ingress ring, a partial-frame tail, a chunk
    of PCM frames, and the output callback. */
module LmsFeed {
  import opened Common
  import opened ByteStream
  import opened PcmBytes
  import opened PcmFrames
  import opened RingArithmetic

  const RING := 4096
  const CHUNK := 512

  // A sample of `width` bytes, most significant first whichever way they are stored.
  method ReadSample(tail: array<u8>, at: nat, width: nat, bigEndian: bool) returns (sample: i32)
    requires Width(width) && at + width <= tail.Length
    ensures sample == Sample(tail[at..at + width], bigEndian)
  {
    ghost var bytes := tail[at..at + width];
    ghost var order := seq(width, i requires 0 <= i < width => if bigEndian then bytes[i] else bytes[width - 1 - i]);
    var raw: nat := 0;
    var b := 0;
    while b < width
      invariant b <= width && raw == BigEndian(order[..b])
    {
      var byte := if bigEndian then b else width - b - 1;
      assert order[..b + 1][..b] == order[..b];
      raw := raw * 256 + tail[at + byte];
      b := b + 1;
    }
    assert order[..width] == order;
    if bigEndian {
      assert order == bytes;
    } else {
      ReversedBytes(order, bytes);
    }
    WordFits(bytes, bigEndian);
    WidenedFits(raw, width);
    var value: int := raw;
    if 2 * raw >= Full(width) {
      value := value - Full(width);
    }
    sample := value * Scale(width);
  }

  lemma AppendBoth<T>(a: seq<T>, b: seq<T>, c: seq<T>, d: seq<T>, e: seq<T>)
    requires a + b == c + d
    ensures a + (b + e) == c + (d + e)
  {
    assert a + (b + e) == (a + b) + e;
  }

  /** The data fields of eaf_lms_client_t. The ghost fields remember the stream: bytes found in the ring when
      it started, body bytes received since, the frames they were cut into, and those the callback took. */
  class Feed {
    const ingress: array<u8>
    const tail: array<u8>
    const pcm: array<i32>
    var ingressUsed: nat
    var tailUsed: nat
    var pcmCount: nat
    var pcmSent: nat
    var layout: Layout
    var hasLength: bool
    var remaining: nat
    var bodyDone: bool
    var bytesReceived: nat
    ghost var stale: seq<u8>
    ghost var body: seq<u8>
    ghost var groups: seq<seq<u8>>
    ghost var taken: seq<seq<i32>>

    ghost predicate ByteSizes()
      reads `ingressUsed, `tailUsed, `layout
    {
      && ingress.Length == RING && tail.Length == 8 && ingress != tail
      && LayoutOk(layout) && ingressUsed <= RING && tailUsed < FrameBytes(layout) && tailUsed < 8
    }

    ghost predicate ChunkSizes()
      reads `pcmSent, `pcmCount, `layout
    {
      pcm.Length == CHUNK + CHUNK && LayoutOk(layout) && pcmSent <= pcmCount <= CHUNK
    }

    // Every byte is in a cut frame, in the tail or in the ring from `from` on.
    ghost predicate BytesKept(from: nat)
      reads `ingressUsed, `tailUsed, `layout, `bytesReceived, `stale, `body, `groups, ingress, tail
    {
      && ByteSizes() && from <= ingressUsed && bytesReceived == |body| && Grouped(layout, groups)
      && stale + body == Concat(groups) + tail[..tailUsed] + ingress[from..ingressUsed]
    }

    ghost function FrameAt(f: nat): seq<i32>
      reads `layout, pcm
      requires pcm.Length == CHUNK + CHUNK && f < CHUNK
    {
      pcm[At(layout, f)..At(layout, f + 1)]
    }

    // Every cut frame was taken, in order, or waits in the chunk.
    ghost predicate FramesKept()
      reads `pcmSent, `pcmCount, `layout, `groups, `taken, pcm
    {
      && ChunkSizes() && Grouped(layout, groups) && |groups| == |taken| + (pcmCount - pcmSent)
      && (forall i :: 0 <= i < |taken| ==> taken[i] == Frame(layout, groups[i]))
      && forall f :: pcmSent <= f < pcmCount ==> FrameAt(f) == Frame(layout, groups[|taken| + (f - pcmSent)])
    }

    ghost predicate Valid()
      reads this, ingress, tail, pcm
    {
      ingress != tail && BytesKept(0) && FramesKept()
    }

    constructor ()
      ensures Valid() && fresh(ingress) && fresh(tail) && fresh(pcm) && ingressUsed == 0 && pcmCount == 0 && pcmSent == 0 && stale == [] && body == [] && groups == [] && taken == []
    {
      ingress := new u8[RING];
      tail := new u8[8];
      pcm := new i32[CHUNK + CHUNK];
      ingressUsed, tailUsed, pcmCount, pcmSent := 0, 0, 0, 0;
      layout, hasLength, remaining, bodyDone, bytesReceived := Layout(2, 1, false), false, 0, false, 0;
      stale, body, groups, taken := [], [], [], [];
      new;
      assert [] + [] == Concat([]) + tail[..0] + ingress[..0];
    }

    // stop_stream: the ring is not emptied.
    method Stop()
      requires ByteSizes() && ChunkSizes()
      modifies `pcmCount, `pcmSent, `bodyDone, `bytesReceived
      ensures ByteSizes() && ChunkSizes() && pcmCount == 0 && pcmSent == 0 && !bodyDone && bytesReceived == 0
    {
      pcmCount, pcmSent, bodyDone, bytesReceived := 0, 0, false, 0;
    }

    // strm-s: a new stream over whatever the ring still holds.
    method Start(l: Layout)
      requires ByteSizes() && ChunkSizes() && LayoutOk(l) && pcmCount == 0 && pcmSent == 0
      modifies `layout, `tailUsed, `bytesReceived, `hasLength, `stale, `body, `groups, `taken
      ensures Valid() && stale == ingress[..ingressUsed]
      ensures body == [] && groups == [] && taken == [] && bytesReceived == 0 && tailUsed == 0 && layout == l && !hasLength
    {
      layout, tailUsed, bytesReceived, hasLength := l, 0, 0, false;
      stale, body, groups, taken := ingress[..ingressUsed], [], [], [];
      assert stale + [] == Concat([]) + tail[..0] + ingress[..ingressUsed];
    }

    method Store(data: seq<u8>)
      requires BytesKept(0) && |data| <= RING - ingressUsed
      modifies `ingressUsed, `bytesReceived, `body, ingress
      ensures BytesKept(0) && body == old(body) + data && ingressUsed == old(ingressUsed) + |data|
    {
      hide Concat, FrameBytes;
      bytesReceived := bytesReceived + |data|;
      body := body + data;
      forall i | 0 <= i < |data| {
        ingress[ingressUsed + i] := data[i];
      }
      ghost var before := old(ingress[..ingressUsed]);
      ingressUsed := ingressUsed + |data|;
      assert ingress[0..ingressUsed] == before + data;
      AppendBoth(stale, old(body), Concat(groups) + tail[..tailUsed], before, data);
    }

    // ingress_fill.
    method Fill(data: seq<u8>) returns (rc: int)
      requires Valid()
      modifies `ingressUsed, `bytesReceived, `body, `remaining, `bodyDone, ingress
      ensures Valid()
      ensures rc == if data != [] && (|data| > RING - old(ingressUsed) || (hasLength && |data| > old(remaining))) then INVALID else OK
      ensures body == if rc == OK then old(body) + data else old(body)
      ensures ingressUsed == if rc == OK then old(ingressUsed) + |data| else old(ingressUsed)
      ensures remaining == if rc == OK && hasLength then old(remaining) - |data| else old(remaining)
      ensures bodyDone == if rc == OK && hasLength && data != [] then remaining == 0 else old(bodyDone)
    {
      hide FramesKept;
      rc := OK;
      if data == [] {
        assert body + data == body;
        return;
      }
      if |data| > RING - ingressUsed {
        return INVALID;
      }
      if hasLength {
        if |data| > remaining {
          return INVALID;
        }
        remaining := remaining - |data|;
        bodyDone := remaining == 0;
      }
      Store(data);
    }

    // The samples of the full tail, written behind the chunk's last frame.
    method DecodeFrame()
      requires ChunkSizes() && tail.Length == 8 && pcmCount < CHUNK
      modifies pcm
      ensures FrameAt(pcmCount) == Frame(layout, tail[..FrameBytes(layout)])
      ensures forall f :: 0 <= f < pcmCount ==> FrameAt(f) == old(FrameAt(f))
    {
      hide Sample;
      var first := ReadSample(tail, 0, layout.width, layout.bigEndian);
      pcm[At(layout, pcmCount)] := first;
      if layout.channels == 2 {
        var second := ReadSample(tail, layout.width, layout.width, layout.bigEndian);
        pcm[At(layout, pcmCount) + 1] := second;
        assert tail[..FrameBytes(layout)][..layout.width] == tail[0..layout.width];
        assert tail[..FrameBytes(layout)][layout.width..] == tail[layout.width..layout.width + layout.width];
      } else {
        assert tail[..FrameBytes(layout)] == tail[0..layout.width];
      }
    }

    // A byte moves from the ring to the tail.
    method TakeByte(from: nat)
      requires BytesKept(from) && from < ingressUsed
      modifies tail
      ensures ByteSizes() && stale + body == Concat(groups) + tail[..tailUsed + 1] + ingress[from + 1..ingressUsed]
    {
      hide Concat;
      var b := ingress[from];
      ghost var c, had, rest := Concat(groups), tail[..tailUsed], ingress[from + 1..ingressUsed];
      tail[tailUsed] := b;
      assert ingress[from..ingressUsed] == [b] + rest && tail[..tailUsed + 1] == had + [b];
      assert c + had + ([b] + rest) == c + (had + [b]) + rest;
    }

    // headers: the content length, when there is one.
    method SetLength(known: bool, length: nat)
      requires Valid()
      modifies `hasLength, `remaining, `bodyDone
      ensures Valid() && hasLength == known && bodyDone == (old(bodyDone) || (known && length == 0))
      ensures remaining == if known then length else old(remaining)
    {
      hide BytesKept, FramesKept;
      hasLength := known;
      if known {
        remaining := length;
        if length == 0 {
          bodyDone := true;
        }
      }
    }

    // The full tail becomes the chunk's next frame.
    method AddFrame(ghost group: seq<u8>)
      requires FramesKept() && pcmCount < CHUNK && tail.Length == 8 && |group| == FrameBytes(layout) && group == tail[..FrameBytes(layout)]
      modifies `pcmCount, `groups, pcm
      ensures FramesKept() && groups == old(groups) + [group] && pcmCount == old(pcmCount) + 1
    {
      hide Frame, FrameBytes, At, LayoutOk;
      DecodeFrame();
      pcmCount := pcmCount + 1;
      groups := groups + [group];
    }

    // One byte out of the ring, and a frame when the tail is full.
    method DecodeByte(from: nat)
      requires BytesKept(from) && FramesKept() && from < ingressUsed && pcmCount < CHUNK
      modifies `tailUsed, `pcmCount, `groups, tail, pcm
      ensures BytesKept(from + 1) && FramesKept() && pcmCount >= old(pcmCount)
    {
      hide Concat, FramesKept;
      TakeByte(from);
      if tailUsed + 1 != FrameBytes(layout) {
        tailUsed := tailUsed + 1;
        return;
      }
      ghost var group := tail[..tailUsed + 1];
      ghost var c, rest := Concat(groups), ingress[from + 1..ingressUsed];
      ConcatAdd(groups, [group]);
      OneGroup(group);
      assert c + group + rest == c + group + tail[..0] + rest;
      AddFrame(group);
      tailUsed := 0;
    }

    // ingress_decode: until the chunk is full or the ring is empty.
    method Decode()
      requires Valid()
      modifies `tailUsed, `pcmCount, `groups, `ingressUsed, tail, pcm, ingress
      ensures Valid() && (pcmCount == CHUNK || ingressUsed == 0) && pcmCount >= old(pcmCount)
      ensures old(ingressUsed) == 0 ==> pcmCount == old(pcmCount)
    {
      hide Frame, Concat, FrameBytes, At;
      var consumed := 0;
      while pcmCount < CHUNK && consumed < ingressUsed
        invariant BytesKept(consumed) && FramesKept() && ingressUsed == old(ingressUsed) && ingress != tail
        invariant pcmCount >= old(pcmCount) && (consumed == 0 ==> pcmCount == old(pcmCount))
        decreases ingressUsed - consumed
      {
        DecodeByte(consumed);
        consumed := consumed + 1;
      }
      if consumed > 0 {
        Compact(consumed);
      }
    }

    // What is left of the ring moves to its front.
    method Compact(consumed: nat)
      requires BytesKept(consumed)
      modifies `ingressUsed, ingress
      ensures BytesKept(0) && ingressUsed == old(ingressUsed) - consumed
    {
      hide Concat, FrameBytes;
      ghost var rest := ingress[consumed..ingressUsed];
      forall i | 0 <= i < ingressUsed - consumed {
        ingress[i] := ingress[consumed + i];
      }
      ingressUsed := ingressUsed - consumed;
      assert ingress[0..ingressUsed] == rest;
    }

    // The frames the callback is shown, as it takes them.
    ghost function Shown(from: nat, n: nat): (r: seq<seq<i32>>)
      reads `layout, pcm
      requires pcm.Length == CHUNK + CHUNK && from + n <= CHUNK
      ensures |r| == n && forall j :: 0 <= j < n ==> r[j] == FrameAt(from + j)
      decreases n
    {
      if n == 0 then [] else Shown(from, n - 1) + [FrameAt(from + n - 1)]
    }

    // flush_pcm: the callback takes `wrote` of the frames it is shown.
    method Flush(wrote: nat) returns (rc: int)
      requires Valid()
      modifies `pcmSent, `taken
      ensures Valid()
      ensures rc == if old(pcmSent) < pcmCount && wrote > pcmCount - old(pcmSent) then INVALID else OK
      ensures if rc == OK && old(pcmSent) < pcmCount then
          pcmSent == old(pcmSent) + wrote && |taken| == |old(taken)| + wrote && old(taken) <= taken
        else pcmSent == old(pcmSent) && taken == old(taken)
    {
      hide Frame, Concat, FrameBytes, At;
      rc := OK;
      if pcmSent >= pcmCount {
        return;
      }
      if wrote > pcmCount - pcmSent {
        return INVALID;
      }
      taken := taken + Shown(pcmSent, wrote);
      pcmSent := pcmSent + wrote;
    }

    // pump_http empties a chunk that was taken completely.
    method Empty()
      requires Valid() && pcmSent == pcmCount
      modifies `pcmSent, `pcmCount
      ensures Valid() && pcmSent == pcmCount == 0
    {
      hide Frame, Concat, FrameBytes;
      pcmCount, pcmSent := 0, 0;
    }

    ghost function Input(): seq<u8>
      reads `stale, `body
    {
      stale + body
    }

    lemma SizesOf()
      requires Valid()
      ensures ByteSizes() && ChunkSizes()
    {
    }

    // What Valid says about the stream: nothing is lost, repeated or reordered.
    lemma NothingLost()
      requires Valid()
      ensures bytesReceived + |stale| == Span(|taken| + (pcmCount - pcmSent), FrameBytes(layout)) + tailUsed + ingressUsed
      ensures taken <= Decoded(layout, Input())
    {
      hide Frame, FrameBytes, Concat, Decoded;
      DecodedGroups(layout, groups, []);
      assert |stale + body| == |stale| + |body|;
      TakenIsPrefix();
    }

    lemma TakenIsPrefix()
      requires Valid()
      ensures taken <= Decoded(layout, Input())
    {
      hide Frame, FrameBytes, Concat, Decoded;
      var held := tail[..tailUsed] + ingress[0..ingressUsed];
      DecodedGroups(layout, groups, []);
      DecodedPrefix(layout, Concat(groups) + [], held);
      assert Input() == Concat(groups) + [] + held;
    }

    // Everything was taken exactly when the ring, the tail and the chunk are empty.
    lemma AllTaken()
      requires Valid() && ingressUsed == 0 && tailUsed == 0 && pcmSent == pcmCount
      ensures taken == Decoded(layout, Input()) && Input() == Concat(groups)
    {
      hide Frame;
      DecodedGroups(layout, groups, []);
      assert Concat(groups) + [] == Concat(groups) + tail[..0] + ingress[0..0] == Concat(groups);
    }
  }
}
