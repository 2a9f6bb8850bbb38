/** Interleaved PCM frames in a byte stream: cutting it into frames and decoding each one. */
module PcmFrames {
  import opened Common
  import opened ByteStream
  import opened PcmBytes
  import opened RingArithmetic

  // How frames are laid out in a byte stream.
  datatype Layout = Layout(width: nat, channels: nat, bigEndian: bool)

  predicate LayoutOk(l: Layout) {
    Width(l.width) && 1 <= l.channels <= 2
  }

  function FrameBytes(l: Layout): nat {
    if l.channels == 2 then l.width + l.width else l.width
  }

  // Index of a frame's first sample in an interleaved chunk.
  function At(l: Layout, frame: nat): nat {
    if l.channels == 2 then frame + frame else frame
  }

  // One frame, from its bytes.
  function Frame(l: Layout, b: seq<u8>): (r: seq<i32>)
    requires LayoutOk(l) && |b| == FrameBytes(l)
    ensures |r| == l.channels
  {
    if l.channels == 1 then [Sample(b, l.bigEndian)]
    else [Sample(b[..l.width], l.bigEndian), Sample(b[l.width..], l.bigEndian)]
  }

  // A byte stream, frame by frame; bytes of an unfinished frame are left over.
  function Decoded(l: Layout, bytes: seq<u8>): seq<seq<i32>>
    requires LayoutOk(l)
    decreases |bytes|
  {
    if |bytes| < FrameBytes(l) then [] else [Frame(l, bytes[..FrameBytes(l)])] + Decoded(l, bytes[FrameBytes(l)..])
  }

  ghost predicate Grouped(l: Layout, groups: seq<seq<u8>>) {
    forall g :: g in groups ==> |g| == FrameBytes(l)
  }

  lemma {:induction false} ConcatSize(l: Layout, groups: seq<seq<u8>>)
    requires Grouped(l, groups)
    ensures |Concat(groups)| == Span(|groups|, FrameBytes(l))
    decreases |groups|
  {
    hide FrameBytes;
    if groups != [] {
      ConcatSize(l, groups[1..]);
    }
  }

  // Cutting a stream into frames and decoding each one is decoding the stream.
  lemma {:induction false} DecodedGroups(l: Layout, groups: seq<seq<u8>>, rest: seq<u8>)
    requires LayoutOk(l) && Grouped(l, groups) && |rest| < FrameBytes(l)
    ensures var d := Decoded(l, Concat(groups) + rest);
      && |d| == |groups| && (forall i :: 0 <= i < |d| ==> d[i] == Frame(l, groups[i]))
      && |Concat(groups)| == Span(|groups|, FrameBytes(l))
    decreases |groups|
  {
    hide Frame;
    if groups != [] {
      var bytes, fb := Concat(groups) + rest, FrameBytes(l);
      assert bytes == groups[0] + (Concat(groups[1..]) + rest);
      assert bytes[..fb] == groups[0] && bytes[fb..] == Concat(groups[1..]) + rest;
      DecodedGroups(l, groups[1..], rest);
    } else {
      assert Concat(groups) + rest == rest;
    }
  }

  // A frame as it is stored: its samples, left before right.
  function StoredFrame(l: Layout, xs: seq<int>): seq<u8>
    requires LayoutOk(l) && |xs| == l.channels
  {
    if l.channels == 1 then Stored(xs[0], l.width, l.bigEndian)
    else Stored(xs[0], l.width, l.bigEndian) + Stored(xs[1], l.width, l.bigEndian)
  }

  ghost predicate FrameInRange(l: Layout, xs: seq<int>) {
    |xs| == l.channels && forall x :: x in xs ==> InRange(x, l.width)
  }

  function Worths(xs: seq<int>, width: nat): (r: seq<int>)
    ensures |r| == |xs| && forall c :: 0 <= c < |xs| ==> r[c] == Worth(xs[c], width)
  {
    seq(|xs|, c requires 0 <= c < |xs| => Worth(xs[c], width))
  }

  lemma StoredFrameReads(l: Layout, xs: seq<int>)
    requires LayoutOk(l) && FrameInRange(l, xs)
    ensures |StoredFrame(l, xs)| == FrameBytes(l)
    ensures Frame(l, StoredFrame(l, xs)) == Worths(xs, l.width)
  {
    hide Sample, Stored, Worth;
    StoredReads(xs[0], l.width, l.bigEndian);
    if l.channels == 2 {
      StoredReads(xs[1], l.width, l.bigEndian);
      assert StoredFrame(l, xs)[..l.width] == Stored(xs[0], l.width, l.bigEndian);
      assert StoredFrame(l, xs)[l.width..] == Stored(xs[1], l.width, l.bigEndian);
    }
  }

  function StoredStream(l: Layout, frames: seq<seq<int>>): seq<u8>
    requires LayoutOk(l) && forall xs :: xs in frames ==> |xs| == l.channels
    decreases |frames|
  {
    if frames == [] then [] else StoredFrame(l, frames[0]) + StoredStream(l, frames[1..])
  }

  /** Frames stored one after the other, and a part of one more, are read back: each frame once, in order, each
      sample in its channel. */
  lemma {:induction false} StoredStreamReads(l: Layout, frames: seq<seq<int>>, rest: seq<u8>)
    requires LayoutOk(l) && (forall xs :: xs in frames ==> |xs| == l.channels && FrameInRange(l, xs)) && |rest| < FrameBytes(l)
    ensures var d := Decoded(l, StoredStream(l, frames) + rest);
      |d| == |frames| && forall i :: 0 <= i < |frames| ==> d[i] == Worths(frames[i], l.width)
    decreases |frames|
  {
    hide Frame, StoredFrame, Worths, FrameInRange;
    if frames == [] {
      assert StoredStream(l, frames) + rest == rest;
    } else {
      var bytes, fb := StoredStream(l, frames) + rest, FrameBytes(l);
      assert frames[0] in frames;
      StoredFrameReads(l, frames[0]);
      StoredStreamReads(l, frames[1..], rest);
      assert bytes == StoredFrame(l, frames[0]) + (StoredStream(l, frames[1..]) + rest);
      assert bytes[..fb] == StoredFrame(l, frames[0]) && bytes[fb..] == StoredStream(l, frames[1..]) + rest;
    }
  }

  // More bytes only add frames.
  lemma {:induction false} DecodedPrefix(l: Layout, a: seq<u8>, b: seq<u8>)
    requires LayoutOk(l)
    ensures Decoded(l, a) <= Decoded(l, a + b)
    decreases |a|
  {
    hide Frame;
    var fb := FrameBytes(l);
    if |a| >= fb {
      assert (a + b)[..fb] == a[..fb] && (a + b)[fb..] == a[fb..] + b;
      DecodedPrefix(l, a[fb..], b);
    }
  }

  lemma OneGroup(group: seq<u8>)
    ensures Concat([group]) == group
  {
    assert [group][1..] == [];
  }
}
