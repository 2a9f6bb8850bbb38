/** core/eaf_sync.c: the linear resampler, in 32.32 fixed point. */
module Resampler {
  import opened Common
  import opened RingArithmetic

  const HALF: int := 0x4000_0000
  const TWO31: int := 0x8000_0000

  // Conversion of a non-negative int64 below 2^32 to int32.
  function Narrow(q: nat): int {
    if q < TWO31 then q else q - TWO32
  }

  // The magnitude of the step from one neighbour towards the other, rounded to nearest.
  function Share(distance: nat, fraction: u32): nat {
    (distance * (fraction / 2) + HALF) / TWO31
  }

  // interpolate. A sum outside 32 bits is undefined in C; it is kept as a number here so that it shows.
  function Interpolate(a: i32, b: i32, fraction: u32): int {
    var delta: int := b as int - a as int;
    if delta >= 0 then a + Narrow(Share(delta, fraction)) else a - Narrow(Share(-delta, fraction))
  }

  // The product and its rounding stay within 64 bits for any neighbours.
  lemma ProductFits(distance: nat, fraction: u32)
    requires distance < TWO32
    ensures distance * (fraction / 2) + HALF <= INT64_MAX
  {
    var h := fraction / 2;
    assert h <= TWO31 - 1;
    MulLe(distance, TWO32 - 1, h);
    MulLe(h, TWO31 - 1, TWO32 - 1);
    assert (TWO32 - 1) * h == h * (TWO32 - 1);
  }

  lemma ShareBounds(distance: nat, fraction: u32)
    ensures Share(distance, fraction) <= distance
    ensures distance <= TWO31 ==> Share(distance, fraction) < TWO31
  {
    var h := fraction / 2;
    MulLe(h, TWO31 - 1, distance);
    var x := distance * h + HALF;
    assert distance * h == h * distance <= (TWO31 - 1) * distance;
    if distance == 0 {
      assert x == HALF;
    } else if distance <= TWO31 {
      assert x <= TWO31 * distance - distance + HALF;
      if distance >= HALF {
        assert x <= TWO31 * distance && (distance == TWO31 ==> x < TWO31 * TWO31);
      }
      assert x < TWO31 * (distance + 1);
    } else {
      assert x <= TWO31 * distance;
    }
  }

  lemma ShareGrows(distance: nat, f: u32, g: u32)
    requires f <= g
    ensures Share(distance, f) <= Share(distance, g)
  {
    MulLe(f / 2, g / 2, distance);
    assert distance * (f / 2) == (f / 2) * distance && distance * (g / 2) == (g / 2) * distance;
  }

  // Neighbours at most 2^31 apart: the result lies between them.
  lemma Between(a: i32, b: i32, fraction: u32)
    requires -TWO31 <= b as int - a as int <= TWO31
    ensures Min(a, b) <= Interpolate(a, b, fraction) <= Max(a, b)
  {
    hide Share;
    var delta: int := b as int - a as int;
    ShareBounds(if delta >= 0 then delta else -delta, fraction);
  }

  lemma AtZero(a: i32, b: i32)
    ensures Interpolate(a, b, 0) == a
  {
  }

  // Further along is further towards the right neighbour.
  lemma Monotone(a: i32, b: i32, f: u32, g: u32)
    requires a <= b && b as int - a as int <= TWO31 && f <= g
    ensures Interpolate(a, b, f) <= Interpolate(a, b, g)
  {
    hide Share;
    ShareBounds(b as int - a as int, f);
    ShareBounds(b as int - a as int, g);
    ShareGrows(b as int - a as int, f, g);
  }

  // Beyond 2^31 the narrowing wraps for some fraction: then the result leaves the range of its neighbours.
  lemma ExactlyWhenNear(a: i32, b: i32)
    ensures (forall f: u32 :: Min(a, b) <= Interpolate(a, b, f) <= Max(a, b)) <==> -TWO31 <= b as int - a as int <= TWO31
  {
    hide Interpolate;
    if -TWO31 <= b as int - a as int <= TWO31 {
      forall f: u32 ensures Min(a, b) <= Interpolate(a, b, f) <= Max(a, b) {
        Between(a, b, f);
      }
    } else {
      FarWraps(a, b);
    }
  }

  lemma FarWraps(a: i32, b: i32)
    requires b as int - a as int > TWO31 || a as int - b as int > TWO31
    ensures !(Min(a, b) <= Interpolate(a, b, TWO32 - 1) <= Max(a, b))
  {
    hide Share;
    var delta: int := b as int - a as int;
    var d: nat := if delta >= 0 then delta else -delta;
    FarShare(d);
  }

  lemma FarShare(d: nat)
    requires TWO31 < d < TWO32
    ensures TWO31 <= Share(d, TWO32 - 1) <= d
  {
    var x := d * (TWO31 - 1) + HALF;
    assert x == TWO31 * d - d + HALF;
    assert x >= TWO31 * (TWO31 + 1) - (TWO31 + 1) + HALF;
    assert x <= TWO31 * d;
  }

  predicate Arguments(samples: nat, inFrames: u32, outFrames: u32, channels: nat) {
    inFrames > 0 && outFrames > 0 && (channels == 1 || channels == 2) && samples == Index(inFrames, channels)
  }

  // Index of a frame's first sample.
  function Index(frame: nat, channels: nat): nat {
    if channels == 2 then frame + frame else frame
  }

  // Input frames per output frame, in 32.32.
  function Pace(inFrames: u32, outFrames: u32): nat
    requires outFrames > 0
  {
    inFrames * TWO32 / outFrames
  }

  function Position(i: nat, inFrames: u32, outFrames: u32): nat
    requires outFrames > 0
  {
    Span(i, Pace(inFrames, outFrames))
  }

  lemma PositionFits(i: nat, inFrames: u32, outFrames: u32)
    requires i < outFrames
    ensures Position(i, inFrames, outFrames) <= inFrames * TWO32 < TWO64
    ensures Position(i, inFrames, outFrames) == inFrames * TWO32 ==> inFrames == 0
  {
    var step, all: nat := Pace(inFrames, outFrames), inFrames * TWO32;
    SpanIsProduct(outFrames, step);
    QuotientLe(all, outFrames);
    SpanLe(i, outFrames, step);
    SpanLe(1, outFrames - i, step);
    SpanZero(step);
    if Position(i, inFrames, outFrames) == all {
      assert step == 0;
      SpanIsProduct(i, step);
    }
  }

  /** Output frame i is read at i * inFrames / outFrames of the input, in units of 2^-32: never behind by a unit
      for each frame made so far, and never ahead. */
  lemma PositionIsProportional(i: nat, inFrames: u32, outFrames: u32)
    requires i < outFrames
    ensures 0 <= i * inFrames * TWO32 - Position(i, inFrames, outFrames) * outFrames <= i * (outFrames - 1)
  {
    var all, step: nat := inFrames * TWO32, Pace(inFrames, outFrames);
    SpanIsProduct(i, step);
    var lost := all - step * outFrames;
    assert 0 <= lost <= outFrames - 1;
    assert i * inFrames * TWO32 == i * all;
    assert i * all - i * step * outFrames == i * lost by {
      assert i * step * outFrames == i * (step * outFrames);
      assert i * all - i * (step * outFrames) == i * (all - step * outFrames);
    }
    MulLe(0, lost, i);
    MulLe(lost, outFrames - 1, i);
    assert i * lost == lost * i && i * (outFrames - 1) == (outFrames - 1) * i;
  }

  /** Between near neighbours the value is the point of the line at that fraction, with 31 bits of it, to the
      nearest step. */
  lemma InterpolationError(a: i32, b: i32, f: u32)
    requires -TWO31 <= b as int - a as int <= TWO31
    ensures -HALF <= TWO31 * (Interpolate(a, b, f) - a) - (b as int - a as int) * (f / 2) <= HALF
  {
    var delta: int := b as int - a as int;
    var d: nat := if delta >= 0 then delta else -delta;
    ShareBounds(d, f);
    var x := d * (f / 2) + HALF;
    assert x == TWO31 * (x / TWO31) + x % TWO31;
    assert delta < 0 ==> delta * (f / 2) == -(d * (f / 2));
  }

  /** An output sample is the point of the straight line between its two input neighbours, at the fraction of its
      position, to within half a step and the lowest bit of the fraction. */
  lemma OutputIsLinear(input: seq<i32>, inFrames: u32, outFrames: u32, channels: nat, i: nat, c: nat, p: nat, j: nat, a: i32, b: i32)
    requires Arguments(|input|, inFrames, outFrames, channels) && i < outFrames && c < channels
    requires p == Position(i, inFrames, outFrames) && j == p / TWO32
    requires a == input[channels * (if j < inFrames - 1 then j else inFrames - 1) + c]
    requires j < inFrames - 1 ==> b == input[channels * (j + 1) + c] && -TWO31 <= b as int - a as int <= TWO31
    ensures var v, d := Sampled(input, inFrames, outFrames, channels, i, c), if b >= a then b as int - a as int else a as int - b as int;
      if j >= inFrames - 1 then v == a
      else -(TWO31 + d) <= TWO32 * (v - a) - (b as int - a as int) * (p - TWO32 * j) <= TWO31 + d
  {
    hide Interpolate, Pace, Position;
    if j < inFrames - 1 {
      assert a == Channel(input, channels, c, j) && b == Channel(input, channels, c, j + 1);
      LinearAt(a, b, p, j);
    }
  }

  lemma LinearError(a: i32, b: i32, f: u32)
    requires -TWO31 <= b as int - a as int <= TWO31
    ensures var d: int := if b >= a then b as int - a as int else a as int - b as int;
      -(TWO31 + d) <= TWO32 * (Interpolate(a, b, f) - a) - (b as int - a as int) * f <= TWO31 + d
  {
    InterpolationError(a, b, f);
    var delta: int := b as int - a as int;
    assert f == 2 * (f / 2) || f == 2 * (f / 2) + 1;
    assert delta * (2 * (f / 2)) == 2 * (delta * (f / 2)) && delta * (2 * (f / 2) + 1) == 2 * (delta * (f / 2)) + delta;
  }

  lemma LinearAt(a: i32, b: i32, p: nat, j: nat)
    requires -TWO31 <= b as int - a as int <= TWO31 && j == p / TWO32
    ensures var d: int := if b >= a then b as int - a as int else a as int - b as int;
      -(TWO31 + d) <= TWO32 * (Interpolate(a, b, p % TWO32) - a) - (b as int - a as int) * (p - TWO32 * j) <= TWO31 + d
  {
    hide Interpolate;
    LinearError(a, b, p % TWO32);
    assert p % TWO32 == p - TWO32 * j;
  }

  lemma QuotientLe(x: nat, n: nat)
    requires n > 0
    ensures n * (x / n) <= x
  {
  }

  // Sample c of input frame j.
  function Channel(input: seq<i32>, channels: nat, c: nat, j: nat): i32
    requires 1 <= channels <= 2 && c < channels && Index(j + 1, channels) <= |input|
  {
    input[Index(j, channels) + c]
  }

  // A channel read at a position: a mix of two neighbours, or the last sample.
  function ReadAt(input: seq<i32>, inFrames: nat, channels: nat, c: nat, p: nat): int
    requires 1 <= channels <= 2 && c < channels && 0 < inFrames && |input| == Index(inFrames, channels)
  {
    if p / TWO32 >= inFrames - 1 then Channel(input, channels, c, inFrames - 1)
    else Interpolate(Channel(input, channels, c, p / TWO32), Channel(input, channels, c, p / TWO32 + 1), p % TWO32)
  }

  // Sample c of output frame i.
  function Sampled(input: seq<i32>, inFrames: u32, outFrames: u32, channels: nat, i: nat, c: nat): int
    requires Arguments(|input|, inFrames, outFrames, channels) && i < outFrames && c < channels
  {
    ReadAt(input, inFrames, channels, c, Position(i, inFrames, outFrames))
  }

  // eaf_sync_resample.
  method Resample(input: seq<i32>, inFrames: u32, out: array<int>, outFrames: u32, channels: nat) returns (n: u32)
    requires channels == 1 || channels == 2 ==> |input| == Index(inFrames, channels) && out.Length >= Index(outFrames, channels)
    modifies out
    ensures n == if inFrames > 0 && outFrames > 0 && (channels == 1 || channels == 2) then outFrames else 0
    ensures n > 0 ==> forall i, c {:trigger Sampled(input, inFrames, outFrames, channels, i, c)} :: 0 <= i < outFrames && 0 <= c < channels ==>
      out[Index(i, channels) + c] == Sampled(input, inFrames, outFrames, channels, i, c)
    ensures n > 0 ==> forall i: nat :: Index(i, channels) == channels * i
    ensures n == 0 ==> out[..] == old(out[..])
  {
    hide Interpolate, Sampled, Pace;
    if inFrames == 0 || outFrames == 0 || (channels != 1 && channels != 2) {
      return 0;
    }
    var step := if inFrames == 1 then 0 else Pace(inFrames, outFrames);
    var i := 0;
    while i < outFrames
      invariant i <= outFrames
      invariant forall k, c {:trigger Sampled(input, inFrames, outFrames, channels, k, c)} :: 0 <= k < i && 0 <= c < channels ==>
        out[Index(k, channels) + c] == Sampled(input, inFrames, outFrames, channels, k, c)
    {
      ResampleFrame(input, inFrames, out, outFrames, channels, i, step);
      i := i + 1;
    }
    n := outFrames;
  }

  // One output frame: the single input frame, the last one, or a mix of two neighbours.
  method ResampleFrame(input: seq<i32>, inFrames: u32, out: array<int>, outFrames: u32, channels: nat, i: nat, step: nat)
    requires Arguments(|input|, inFrames, outFrames, channels) && i < outFrames && out.Length >= Index(outFrames, channels)
    requires step == if inFrames == 1 then 0 else Pace(inFrames, outFrames)
    modifies out
    ensures forall c :: 0 <= c < channels ==> out[Index(i, channels) + c] == Sampled(input, inFrames, outFrames, channels, i, c)
    ensures forall k :: 0 <= k < Index(i, channels) ==> out[k] == old(out[k])
  {
    hide Interpolate, Pace;
    if inFrames == 1 {
      CopyFrame(input, 0, out, Index(i, channels), channels);
      return;
    }
    PositionFits(i, inFrames, outFrames);
    var position := Times(i, step);
    var index, fraction := position / TWO32, position % TWO32;
    if index >= inFrames - 1 {
      CopyFrame(input, Index(inFrames - 1, channels), out, Index(i, channels), channels);
      return;
    }
    var c := 0;
    while c < channels
      invariant c <= channels
      invariant forall d :: 0 <= d < c ==> out[Index(i, channels) + d] == Sampled(input, inFrames, outFrames, channels, i, d)
      invariant forall k :: 0 <= k < Index(i, channels) ==> out[k] == old(out[k])
    {
      out[Index(i, channels) + c] := Interpolate(input[Index(index, channels) + c], input[Index(index + 1, channels) + c], fraction);
      c := c + 1;
    }
  }

  // The 64-bit product i * step.
  method Times(i: nat, step: nat) returns (position: nat)
    ensures position == Span(i, step)
  {
    SpanIsProduct(i, step);
    position := i * step;
  }

  method CopyFrame(input: seq<i32>, from: nat, out: array<int>, at: nat, channels: nat)
    requires from + channels <= |input| && at + channels <= out.Length
    modifies out
    ensures forall k :: at <= k < at + channels ==> out[k] == input[k - at + from]
    ensures forall k :: 0 <= k < at ==> out[k] == old(out[k])
  {
    var c := 0;
    while c < channels
      invariant c <= channels && forall k :: at <= k < at + c ==> out[k] == input[k - at + from]
      invariant forall k :: 0 <= k < at ==> out[k] == old(out[k])
    {
      out[at + c] := input[from + c];
      c := c + 1;
    }
  }

  // Neighbours of a channel at most 2^31 apart.
  ghost predicate Near(input: seq<i32>, inFrames: nat, channels: nat, c: nat) {
    && 1 <= channels <= 2 && c < channels && |input| == Index(inFrames, channels)
    && forall j :: 0 <= j < inFrames - 1 ==>
        -TWO31 <= Channel(input, channels, c, j + 1) as int - Channel(input, channels, c, j) as int <= TWO31
  }

  // x lies between samples j and j + 1 of the channel, or is its last sample.
  predicate Around(input: seq<i32>, inFrames: nat, channels: nat, c: nat, j: nat, x: int)
    requires 1 <= channels <= 2 && c < channels && |input| == Index(inFrames, channels) && j < inFrames
  {
    var a := Channel(input, channels, c, j);
    if j == inFrames - 1 then x == a
    else Min(a, Channel(input, channels, c, j + 1)) <= x <= Max(a, Channel(input, channels, c, j + 1))
  }

  /** Each output sample lies between two neighbouring samples of its channel, so it fits 32 bits. */
  lemma OutputIsBetween(input: seq<i32>, inFrames: u32, outFrames: u32, channels: nat, i: nat, c: nat)
    requires Arguments(|input|, inFrames, outFrames, channels) && Near(input, inFrames, channels, c) && i < outFrames
    ensures exists j :: 0 <= j < inFrames && Around(input, inFrames, channels, c, j, Sampled(input, inFrames, outFrames, channels, i, c))
  {
    hide Interpolate, Pace, Channel;
    var p, x := Position(i, inFrames, outFrames), Sampled(input, inFrames, outFrames, channels, i, c);
    var index := p / TWO32;
    if index >= inFrames - 1 {
      assert Around(input, inFrames, channels, c, inFrames - 1, x);
    } else {
      Between(Channel(input, channels, c, index), Channel(input, channels, c, index + 1), p % TWO32);
      assert Around(input, inFrames, channels, c, index, x);
    }
  }

  /** Equal lengths give an exact copy. */
  lemma EqualLengthsCopy(input: seq<i32>, frames: u32, channels: nat, i: nat, c: nat)
    requires Arguments(|input|, frames, frames, channels) && i < frames && c < channels
    ensures Sampled(input, frames, frames, channels, i, c) == input[Index(i, channels) + c]
  {
    hide Interpolate;
    UnitPace(frames);
    SpanIsProduct(i, TWO32);
    WholePosition(i);
    if i < frames - 1 {
      AtZero(Channel(input, channels, c, i), Channel(input, channels, c, i + 1));
    }
  }

  lemma UnitPace(frames: u32)
    requires frames > 0
    ensures Pace(frames, frames) == TWO32
  {
    ModUnique(frames * TWO32, frames, TWO32, 0);
  }

  lemma WholePosition(i: nat)
    ensures (i * TWO32) / TWO32 == i && (i * TWO32) % TWO32 == 0
  {
  }

  ghost predicate Nondecreasing(input: seq<i32>, inFrames: nat, channels: nat, c: nat)
    requires 1 <= channels <= 2 && c < channels && |input| == Index(inFrames, channels)
  {
    forall j, k :: 0 <= j <= k < inFrames ==> Channel(input, channels, c, j) <= Channel(input, channels, c, k)
  }

  lemma Ordered(input: seq<i32>, inFrames: nat, channels: nat, c: nat, p: nat, q: nat)
    requires 0 < inFrames && Near(input, inFrames, channels, c) && Nondecreasing(input, inFrames, channels, c) && p <= q
    ensures ReadAt(input, inFrames, channels, c, p) <= ReadAt(input, inFrames, channels, c, q)
  {
    hide Interpolate, Channel;
    var j, k := p / TWO32, q / TWO32;
    Parts(p, q);
    if j < inFrames - 1 {
      var a, b := Channel(input, channels, c, j), Channel(input, channels, c, j + 1);
      Between(a, b, p % TWO32);
      if j == k {
        Monotone(a, b, p % TWO32, q % TWO32);
      } else if k < inFrames - 1 {
        Between(Channel(input, channels, c, k), Channel(input, channels, c, k + 1), q % TWO32);
      }
    }
  }

  /** A nondecreasing channel stays nondecreasing. */
  lemma StaysNondecreasing(input: seq<i32>, inFrames: u32, outFrames: u32, channels: nat, i: nat, k: nat, c: nat)
    requires Arguments(|input|, inFrames, outFrames, channels) && Near(input, inFrames, channels, c)
    requires Nondecreasing(input, inFrames, channels, c) && i <= k < outFrames
    ensures Sampled(input, inFrames, outFrames, channels, i, c) <= Sampled(input, inFrames, outFrames, channels, k, c)
  {
    hide Interpolate, Pace, Near, Nondecreasing, ReadAt;
    SpanLe(i, k, Pace(inFrames, outFrames));
    Ordered(input, inFrames, channels, c, Position(i, inFrames, outFrames), Position(k, inFrames, outFrames));
  }

  lemma Parts(p: nat, q: nat)
    requires p <= q
    ensures p / TWO32 <= q / TWO32 && (p / TWO32 == q / TWO32 ==> p % TWO32 <= q % TWO32)
  {
  }
}
