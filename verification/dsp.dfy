/** core/eaf_dsp.c: fixed-point gain, biquad filters, the equalizer and the 2.1 crossover. */
module Dsp {
  import opened Common
  import opened RingArithmetic

  const TWO28: int := 0x1000_0000
  const TWO30: int := 0x4000_0000
  const TWO31: int := 0x8000_0000
  const TWO60: int := 0x1000_0000_0000_0000

  function Sat(x: int): i32 {
    if x > INT32_MAX then INT32_MAX else if x < INT32_MIN then INT32_MIN else x
  }

  lemma ProductBound(a: i32, b: i32)
    ensures -4 * TWO60 <= a * b <= 4 * TWO60
  {
    var m: nat := if a >= 0 then a else -(a as int);
    var n: nat := if b >= 0 then b else -(b as int);
    MulLe(m, TWO31, n);
    MulLe(n, TWO31, TWO31);
    assert m * n <= TWO31 * n == n * TWO31 <= TWO31 * TWO31;
    assert a as int * b as int == m * n || a as int * b as int == -(m * n);
  }

  // eaf_q31_multiply: the largest gain is exact unity.
  function Q31Multiply(sample: i32, gain: i32): i32 {
    if gain == INT32_MAX then sample else Sat(TruncDiv(sample as int * gain as int, TWO31))
  }

  lemma TruncDivBounds(p: int, d: int)
    requires d > 0
    ensures var q := TruncDiv(p, d); (p >= 0 ==> 0 <= p - d * q < d && q >= 0) && (p <= 0 ==> 0 <= d * q - p < d && q <= 0)
  {
  }

  // Sat changes only what does not fit, to the nearest that does.
  lemma SatIsNearest(x: int, y: i32)
    ensures -0x8000_0000 <= x <= 0x7fff_ffff ==> Sat(x) == x
    ensures x > 0x7fff_ffff ==> Sat(x) >= y
    ensures x < -0x8000_0000 ==> Sat(x) <= y
  {
  }

  // A gain in [0, 1] never makes a sample larger and rounds towards zero by less than one step.
  lemma GainAttenuates(sample: i32, gain: i32)
    requires gain >= 0
    ensures var y := Q31Multiply(sample, gain);
      (if sample >= 0 then 0 <= y <= sample else sample <= y <= 0)
      && (gain < INT32_MAX ==> -TWO31 < sample as int * gain as int - TWO31 * y < TWO31)
      && (gain == 0x7fff_ffff ==> y == sample)
  {
    if gain < INT32_MAX {
      var p := sample as int * gain as int;
      TruncDivBounds(p, TWO31);
      if sample >= 0 {
        MulLe(gain, TWO31, sample);
        assert p == gain as int * sample as int;
      } else {
        MulLe(gain, TWO31, -(sample as int));
        assert p == -(gain as int * -(sample as int));
      }
    }
  }

  datatype Coeff = Coeff(b0: i32, b1: i32, b2: i32, a1: i32, a2: i32)
  datatype History = History(x1: i32, x2: i32, y1: i32, y2: i32)

  // One product, divided by 4 as the code does to keep headroom.
  function Quarter(a: i32, b: i32): int {
    TruncDiv(a as int * b as int, 4)
  }

  lemma QuarterBounds(a: i32, b: i32)
    ensures -TWO60 <= Quarter(a, b) <= TWO60 && -3 <= a as int * b as int - 4 * Quarter(a, b) <= 3
  {
    var p := a as int * b as int;
    ProductBound(a, b);
    TruncDivBounds(p, 4);
  }

  function Accumulator(c: Coeff, s: History, x: i32): int {
    Quarter(c.b0, x) + Quarter(c.b1, s.x1) + Quarter(c.b2, s.x2) - Quarter(c.a1, s.y1) - Quarter(c.a2, s.y2)
  }

  // The difference equation without rounding, in units of 2^-30.
  function Exact(c: Coeff, s: History, x: i32): int {
    c.b0 as int * x as int + c.b1 as int * s.x1 as int + c.b2 as int * s.x2 as int - c.a1 as int * s.y1 as int - c.a2 as int * s.y2 as int
  }

  /** The accumulator and each of its partial sums stay within 64 bits, for all coefficients, states and samples. */
  lemma AccumulatorFits(c: Coeff, s: History, x: i32)
    ensures INT64_MIN < -5 * TWO60 <= Accumulator(c, s, x) <= 5 * TWO60 < INT64_MAX
    ensures -2 * TWO60 <= Quarter(c.b0, x) + Quarter(c.b1, s.x1) <= 2 * TWO60
    ensures -3 * TWO60 <= Quarter(c.b0, x) + Quarter(c.b1, s.x1) + Quarter(c.b2, s.x2) <= 3 * TWO60
    ensures -4 * TWO60 <= Quarter(c.b0, x) + Quarter(c.b1, s.x1) + Quarter(c.b2, s.x2) - Quarter(c.a1, s.y1) <= 4 * TWO60
  {
    hide Quarter;
    QuarterBounds(c.b0, x);
    QuarterBounds(c.b1, s.x1);
    QuarterBounds(c.b2, s.x2);
    QuarterBounds(c.a1, s.y1);
    QuarterBounds(c.a2, s.y2);
  }

  // eaf_biquad_tick, on values.
  function Tick(c: Coeff, s: History, x: i32): (i32, History) {
    var y := Sat(TruncDiv(Accumulator(c, s, x), TWO28));
    (y, History(x, s.x1, y, s.y1))
  }

  /** An unsaturated output is within 1 + 5 / 2^28 of the exact quotient, which is Exact / 2^30. */
  lemma TickIsAccurate(c: Coeff, s: History, x: i32)
    requires INT32_MIN <= TruncDiv(Accumulator(c, s, x), TWO28) <= INT32_MAX
    ensures var y := Tick(c, s, x).0; -(TWO30 + 20) < TWO30 * y as int - Exact(c, s, x) < TWO30 + 20
  {
    hide Quarter;
    QuarterBounds(c.b0, x);
    QuarterBounds(c.b1, s.x1);
    QuarterBounds(c.b2, s.x2);
    QuarterBounds(c.a1, s.y1);
    QuarterBounds(c.a2, s.y2);
    TruncDivBounds(Accumulator(c, s, x), TWO28);
  }

  /** An output is the exact quotient, to within 1 + 5 / 2^28, or the limit of 32 bits that is nearest to it; and the
      filter remembers the last two inputs and outputs, the newest first. */
  lemma TickIsNearest(c: Coeff, s: History, x: i32)
    ensures var (y, after) := Tick(c, s, x);
      && after == History(x, s.x1, y, s.y1)
      && (y < 0x7fff_ffff ==> Exact(c, s, x) - TWO30 * y < TWO30 + 20)
      && (y > -0x8000_0000 ==> TWO30 * y - Exact(c, s, x) < TWO30 + 20)
  {
    hide Quarter;
    QuarterBounds(c.b0, x);
    QuarterBounds(c.b1, s.x1);
    QuarterBounds(c.b2, s.x2);
    QuarterBounds(c.a1, s.y1);
    QuarterBounds(c.a2, s.y2);
    var a := Accumulator(c, s, x);
    TruncDivBounds(a, TWO28);
  }

  // The first k filters of a cascade: the sample behind them and their new states.
  function Upto(cs: seq<Coeff>, ss: seq<History>, x: i32, k: nat): (r: (i32, seq<History>))
    requires k <= |cs| == |ss|
    ensures |r.1| == k
    decreases k
  {
    if k == 0 then (x, [])
    else
      var (y, done) := Upto(cs, ss, x, k - 1);
      var (z, s) := Tick(cs[k - 1], ss[k - 1], y);
      (z, done + [s])
  }

  function CascadeTick(cs: seq<Coeff>, ss: seq<History>, x: i32): (r: (i32, seq<History>))
    requires |cs| == |ss|
    ensures |r.1| == |ss|
  {
    Upto(cs, ss, x, |cs|)
  }

  // A whole channel through a cascade.
  function Cascade(cs: seq<Coeff>, ss: seq<History>, xs: seq<i32>): (r: (seq<i32>, seq<History>))
    requires |cs| == |ss|
    ensures |r.0| == |xs| && |r.1| == |ss|
    decreases |xs|
  {
    if xs == [] then ([], ss)
    else
      var (ys, before) := Cascade(cs, ss, xs[..|xs| - 1]);
      var (y, after) := CascadeTick(cs, before, xs[|xs| - 1]);
      (ys + [y], after)
  }

  // Element k of a signal whose last two elements before the start are known.
  function Earlier(xs: seq<i32>, one: i32, two: i32, k: int): i32 {
    if 0 <= k < |xs| then xs[k] else if k == -1 then one else two
  }

  lemma OneTick(c: Coeff, s: History, x: i32)
    ensures CascadeTick([c], [s], x) == (Tick(c, s, x).0, [Tick(c, s, x).1])
  {
    hide Tick;
    var cs, ss := [c], [s];
    assert Upto(cs, ss, x, 0) == (x, []);
    UptoStep(cs, ss, x, 0);
    assert |cs| == 1 && cs[0] == c && ss[0] == s;
    assert Upto(cs, ss, x, 0 + 1) == (Tick(c, s, x).0, [] + [Tick(c, s, x).1]);
    assert CascadeTick(cs, ss, x) == Upto(cs, ss, x, 1);
    assert [] + [Tick(c, s, x).1] == [Tick(c, s, x).1];
  }

  // A single filter remembers the last two inputs and outputs.
  lemma {:induction false} OneFilterRemembers(c: Coeff, s: History, xs: seq<i32>)
    ensures var (ys, after) := Cascade([c], [s], xs); var n := |xs|;
      after == [History(Earlier(xs, s.x1, s.x2, n - 1), Earlier(xs, s.x1, s.x2, n - 2),
                        Earlier(ys, s.y1, s.y2, n - 1), Earlier(ys, s.y1, s.y2, n - 2))]
    decreases |xs|
  {
    hide Tick, CascadeTick;
    if xs != [] {
      var before := Cascade([c], [s], xs[..|xs| - 1]).1;
      OneFilterRemembers(c, s, xs[..|xs| - 1]);
      OneTick(c, before[0], xs[|xs| - 1]);
      TickIsNearest(c, before[0], xs[|xs| - 1]);
    }
  }

  lemma {:induction false} CascadePrefix(cs: seq<Coeff>, ss: seq<History>, xs: seq<i32>, n: nat)
    requires |cs| == |ss| && n < |xs|
    ensures Cascade(cs, ss, xs[..n]).0 == Cascade(cs, ss, xs).0[..n]
    ensures Cascade(cs, ss, xs).0[n] == CascadeTick(cs, Cascade(cs, ss, xs[..n]).1, xs[n]).0
    decreases |xs|
  {
    hide CascadeTick;
    if n < |xs| - 1 {
      CascadePrefix(cs, ss, xs[..|xs| - 1], n);
      assert xs[..|xs| - 1][..n] == xs[..n];
    }
  }

  /** A biquad, over a whole signal: each output solves the difference equation of its coefficients over the
      inputs and the outputs before it, rounded or limited. */
  lemma DifferenceEquation(c: Coeff, s: History, xs: seq<i32>, n: nat)
    requires n < |xs|
    ensures var ys := Cascade([c], [s], xs).0;
      var exact :=
        c.b0 as int * xs[n] as int + c.b1 as int * Earlier(xs, s.x1, s.x2, n - 1) as int + c.b2 as int * Earlier(xs, s.x1, s.x2, n - 2) as int
        - c.a1 as int * Earlier(ys, s.y1, s.y2, n - 1) as int - c.a2 as int * Earlier(ys, s.y1, s.y2, n - 2) as int;
      && (ys[n] < 0x7fff_ffff ==> exact - TWO30 * ys[n] < TWO30 + 20)
      && (ys[n] > -0x8000_0000 ==> TWO30 * ys[n] - exact < TWO30 + 20)
  {
    hide Tick, CascadeTick, Cascade;
    CascadePrefix([c], [s], xs, n);
    OneFilterRemembers(c, s, xs[..n]);
    var before := Cascade([c], [s], xs[..n]).1[0];
    OneTick(c, before, xs[n]);
    TickIsNearest(c, before, xs[n]);
  }

  lemma {:induction false} UptoPrefix(cs: seq<Coeff>, ss: seq<History>, c: Coeff, s: History, x: i32, k: nat)
    requires k <= |cs| == |ss|
    ensures Upto(cs + [c], ss + [s], x, k) == Upto(cs, ss, x, k)
    decreases k
  {
    hide Tick;
    if k > 0 {
      UptoPrefix(cs, ss, c, s, x, k - 1);
    }
  }

  lemma TickInSeries(cs: seq<Coeff>, ss: seq<History>, c: Coeff, s: History, x: i32)
    requires |cs| == |ss|
    ensures var (y, after) := CascadeTick(cs, ss, x); var (z, last) := CascadeTick([c], [s], y);
      CascadeTick(cs + [c], ss + [s], x) == (z, after + last)
  {
    hide Tick;
    UptoPrefix(cs, ss, c, s, x, |cs|);
    OneTick(c, s, CascadeTick(cs, ss, x).0);
  }

  /** One more filter behind a cascade filters the cascade's output. */
  lemma {:induction false} CascadeInSeries(cs: seq<Coeff>, ss: seq<History>, c: Coeff, s: History, xs: seq<i32>)
    requires |cs| == |ss|
    ensures var (ys, after) := Cascade(cs, ss, xs); var (zs, last) := Cascade([c], [s], ys);
      Cascade(cs + [c], ss + [s], xs) == (zs, after + last)
    decreases |xs|
  {
    hide CascadeTick;
    if xs != [] {
      var prefix, x := xs[..|xs| - 1], xs[|xs| - 1];
      CascadeInSeries(cs, ss, c, s, prefix);
      var (ys, after) := Cascade(cs, ss, prefix);
      var (zs, last) := Cascade([c], [s], ys);
      var (y, after') := CascadeTick(cs, after, x);
      assert last == [last[0]];
      TickInSeries(cs, after, c, last[0], x);
      CascadeMore([c], [s], ys, y);
    }
  }

  /** Cutting the signal into blocks changes nothing: the states carry over. */
  lemma {:induction false} CascadeCut(cs: seq<Coeff>, ss: seq<History>, a: seq<i32>, b: seq<i32>)
    requires |cs| == |ss|
    ensures var (ya, sa) := Cascade(cs, ss, a); var (yb, sb) := Cascade(cs, sa, b);
      Cascade(cs, ss, a + b) == (ya + yb, sb)
    decreases |b|
  {
    hide CascadeTick;
    if b == [] {
      assert a + b == a;
      assert Cascade(cs, ss, a).0 + [] == Cascade(cs, ss, a).0;
    } else {
      var b', x := b[..|b| - 1], b[|b| - 1];
      CascadeCut(cs, ss, a, b');
      assert (a + b)[..|a + b| - 1] == a + b' && (a + b)[|a + b| - 1] == x;
      var (ya, sa) := Cascade(cs, ss, a);
      var (yb, sb) := Cascade(cs, sa, b');
      var (y, after) := CascadeTick(cs, sb, x);
      assert ya + yb + [y] == ya + (yb + [y]);
    }
  }

  lemma CascadeMore(cs: seq<Coeff>, ss: seq<History>, xs: seq<i32>, x: i32)
    requires |cs| == |ss|
    ensures var (ys, before) := Cascade(cs, ss, xs); var (y, after) := CascadeTick(cs, before, x);
      Cascade(cs, ss, xs + [x]) == (ys + [y], after)
  {
    hide CascadeTick;
    assert (xs + [x])[..|xs|] == xs;
  }

  // eaf_biquad_tick: filter `band` of a row of states, in place.
  method BiquadTick(c: Coeff, rows: array<seq<History>>, row: nat, band: nat, x: i32) returns (y: i32)
    requires row < rows.Length && band < |rows[row]|
    modifies rows
    ensures (y, rows[row][..]) == (Tick(c, old(rows[row][band]), x).0, old(rows[row])[band := Tick(c, old(rows[row][band]), x).1])
    ensures forall k :: 0 <= k < rows.Length && k != row ==> rows[k] == old(rows[k])
  {
    hide Quarter;
    var s := rows[row][band];
    AccumulatorFits(c, s, x);
    var acc := Quarter(c.b0, x) + Quarter(c.b1, s.x1) + Quarter(c.b2, s.x2) - Quarter(c.a1, s.y1) - Quarter(c.a2, s.y2);
    y := Sat(TruncDiv(acc, TWO28));
    rows[row] := rows[row][band := History(x, s.x1, y, s.y1)];
  }

  lemma UptoStep(cs: seq<Coeff>, ss: seq<History>, x: i32, k: nat)
    requires k < |cs| == |ss|
    ensures var (y, done) := Upto(cs, ss, x, k); var (z, s) := Tick(cs[k], ss[k], y);
      Upto(cs, ss, x, k + 1) == (z, done + [s])
  {
  }

  lemma UptoEnds(cs: seq<Coeff>, ss: seq<History>, x: i32)
    requires |cs| == |ss|
    ensures Upto(cs, ss, x, 0) == (x, []) && [] + ss[0..] == ss
    ensures Upto(cs, ss, x, |cs|).1 + ss[|cs|..] == Upto(cs, ss, x, |cs|).1
  {
  }

  // Replacing the element behind a prefix.
  lemma RowStep(done: seq<History>, ss: seq<History>, k: nat, s: History)
    requires |done| == k < |ss|
    ensures (done + ss[k..])[k] == ss[k] && (done + ss[k..])[k := s] == done + [s] + ss[k + 1..]
  {
  }

  // One sample through all the bands of its channel, in place.
  method FilterSample(cs: seq<Coeff>, rows: array<seq<History>>, row: nat, samples: array<i32>, slot: nat)
    requires row < rows.Length && |rows[row]| == |cs| && slot < samples.Length
    modifies rows, samples
    ensures (samples[slot], rows[row]) == CascadeTick(cs, old(rows[row]), old(samples[slot]))
    ensures forall k :: 0 <= k < rows.Length && k != row ==> rows[k] == old(rows[k])
    ensures forall k :: 0 <= k < samples.Length && k != slot ==> samples[k] == old(samples[k])
  {
    hide Tick, Upto;
    ghost var ss, x := rows[row], samples[slot];
    var band := 0;
    UptoEnds(cs, ss, x);
    while band < |cs|
      invariant band <= |cs| == |rows[row]|
      invariant samples[slot] == Upto(cs, ss, x, band).0 && rows[row] == Upto(cs, ss, x, band).1 + ss[band..]
      invariant forall k :: 0 <= k < rows.Length && k != row ==> rows[k] == old(rows[k])
      invariant forall k :: 0 <= k < samples.Length && k != slot ==> samples[k] == old(samples[k])
    {
      UptoStep(cs, ss, x, band);
      RowStep(Upto(cs, ss, x, band).1, ss, band, Tick(cs[band], ss[band], samples[slot]).1);
      samples[slot] := BiquadTick(cs[band], rows, row, band, samples[slot]);
      band := band + 1;
    }
  }

  // Sample `ch` of frame i in an interleaved buffer.
  function SampleAt(channels: nat, i: nat, ch: nat): nat {
    Span(i, channels) + ch
  }

  lemma SampleBounds(channels: nat, i: nat, ch: nat, frames: nat)
    requires ch < channels && i < frames
    ensures SampleAt(channels, i, ch) < Span(frames, channels)
  {
    SpanStep(i, channels);
    SpanLe(i + 1, frames, channels);
  }

  // Slots are ordered by frame, then by channel.
  lemma SlotOrder(channels: nat, i: nat, ch: nat, j: nat, other: nat)
    requires ch < channels && other < channels && (i < j || (i == j && ch < other))
    ensures SampleAt(channels, i, ch) < SampleAt(channels, j, other)
  {
    if i < j {
      SpanStep(i, channels);
      SpanLe(i + 1, j, channels);
    }
  }

  // One channel of an interleaved buffer.
  function ChannelOf(samples: seq<i32>, channels: nat, ch: nat, frames: nat): (r: seq<i32>)
    requires ch < channels && Span(frames, channels) <= |samples|
    ensures |r| == frames
    decreases frames
  {
    if frames == 0 then []
    else
      SampleBounds(channels, frames - 1, ch, frames);
      SpanLe(frames - 1, frames, channels);
      ChannelOf(samples, channels, ch, frames - 1) + [samples[SampleAt(channels, frames - 1, ch)]]
  }

  // A channel, by the interleaved positions.
  lemma {:induction false} ChannelAt(samples: seq<i32>, channels: nat, ch: nat, frames: nat, i: nat)
    requires ch < channels && Span(frames, channels) <= |samples| && i < frames
    ensures channels * i + ch < |samples| && ChannelOf(samples, channels, ch, frames)[i] == samples[channels * i + ch]
    decreases frames
  {
    SampleBounds(channels, i, ch, frames);
    SpanIsProduct(i, channels);
    SpanLe(frames - 1, frames, channels);
    if i < frames - 1 {
      ChannelAt(samples, channels, ch, frames - 1, i);
    }
  }

  // The first n samples of a channel have gone through its cascade.
  ghost predicate ChannelIs(cs: seq<Coeff>, was: seq<i32>, now: seq<i32>, before: seq<History>, after: seq<History>, channels: nat, k: nat, n: nat)
    requires |was| == |now| && |before| == |cs| && k < channels && Span(n, channels) <= |was|
  {
    Cascade(cs, before, ChannelOf(was, channels, k, n)) == (ChannelOf(now, channels, k, n), after)
  }

  lemma {:induction false} ChannelSame(a: seq<i32>, b: seq<i32>, channels: nat, k: nat, n: nat, from: nat)
    requires |a| == |b| && k < channels && Span(n, channels) <= |a|
    requires n == 0 || SampleAt(channels, n - 1, k) < from
    requires forall p :: 0 <= p < |a| && p < from ==> a[p] == b[p]
    ensures ChannelOf(a, channels, k, n) == ChannelOf(b, channels, k, n)
    decreases n
  {
    hide SampleAt;
    if n > 0 {
      SampleBounds(channels, n - 1, k, n);
      SpanLe(n - 1, n, channels);
      if n > 1 {
        SlotOrder(channels, n - 2, k, n - 1, k);
      }
      ChannelSame(a, b, channels, k, n - 1, from);
    }
  }

  // Filtering the next sample of a channel.
  lemma ChannelNext(cs: seq<Coeff>, was: seq<i32>, now: seq<i32>, next: seq<i32>, before: seq<History>, middle: seq<History>, after: seq<History>,
      channels: nat, k: nat, n: nat)
    requires |was| == |now| == |next| && |before| == |middle| == |cs| && k < channels && Span(n + 1, channels) <= |was| && Span(n, channels) <= |was|
    requires ChannelIs(cs, was, now, before, middle, channels, k, n)
    requires (SampleBounds(channels, n, k, n + 1); CascadeTick(cs, middle, was[SampleAt(channels, n, k)]) == (next[SampleAt(channels, n, k)], after))
    requires forall p :: 0 <= p < |now| && p < SampleAt(channels, n, k) ==> next[p] == now[p]
    ensures ChannelIs(cs, was, next, before, after, channels, k, n + 1)
  {
    hide CascadeTick, Cascade, SampleAt;
    SampleBounds(channels, n, k, n + 1);
    if n > 0 {
      SlotOrder(channels, n - 1, k, n, k);
    }
    ChannelSame(now, next, channels, k, n, SampleAt(channels, n, k));
    CascadeMore(cs, before, ChannelOf(was, channels, k, n), was[SampleAt(channels, n, k)]);
  }

  // A channel is not disturbed by samples written behind its last one.
  lemma ChannelStays(cs: seq<Coeff>, was: seq<i32>, now: seq<i32>, next: seq<i32>, before: seq<History>, after: seq<History>,
      channels: nat, k: nat, n: nat, from: nat)
    requires |was| == |now| == |next| && |before| == |cs| && k < channels && Span(n, channels) <= |was|
    requires ChannelIs(cs, was, now, before, after, channels, k, n)
    requires n == 0 || SampleAt(channels, n - 1, k) < from
    requires forall p :: 0 <= p < |now| && p < from ==> next[p] == now[p]
    ensures ChannelIs(cs, was, next, before, after, channels, k, n)
  {
    hide Cascade, SampleAt;
    ChannelSame(now, next, channels, k, n, from);
  }

  // Frame i of the first `ch` channels is done, and frames before it of the others; the rest is untouched.
  ghost predicate Progress(css: seq<seq<Coeff>>, was: seq<i32>, now: seq<i32>, olds: seq<seq<History>>, rows: seq<seq<History>>, channels: nat, i: nat, ch: nat)
  {
    && |was| == |now| && channels <= |olds| == |rows| && channels <= |css| && Span(i, channels) <= |was| && (ch > 0 ==> Span(i + 1, channels) <= |was|)
    && (forall k :: 0 <= k < channels ==> |olds[k]| == |rows[k]| == |css[k]|)
    && (forall k :: 0 <= k < channels ==> ChannelIs(css[k], was, now, olds[k], rows[k], channels, k, if k < ch then i + 1 else i))
    && (forall p :: SampleAt(channels, i, ch) <= p < |was| ==> now[p] == was[p])
  }

  // Writing the next sample moves its own channel on and leaves the others as they are.
  lemma ProgressStep(css: seq<seq<Coeff>>, was: seq<i32>, now: seq<i32>, next: seq<i32>, olds: seq<seq<History>>, rows: seq<seq<History>>,
      after: seq<seq<History>>, channels: nat, i: nat, ch: nat)
    requires Progress(css, was, now, olds, rows, channels, i, ch) && ch < channels && Span(i + 1, channels) <= |was|
    requires |next| == |now| && |after| == |rows| && forall k :: 0 <= k < |rows| && k != ch ==> after[k] == rows[k]
    requires (SampleBounds(channels, i, ch, i + 1); CascadeTick(css[ch], rows[ch], now[SampleAt(channels, i, ch)]) == (next[SampleAt(channels, i, ch)], after[ch]))
    requires forall p :: 0 <= p < |now| && p != SampleAt(channels, i, ch) ==> next[p] == now[p]
    ensures Progress(css, was, next, olds, after, channels, i, ch + 1)
  {
    hide CascadeTick, Cascade, ChannelIs, SampleAt;
    SampleBounds(channels, i, ch, i + 1);
    forall k | 0 <= k < channels ensures ChannelIs(css[k], was, next, olds[k], after[k], channels, k, if k < ch + 1 then i + 1 else i) {
      if k == ch {
        ChannelNext(css[k], was, now, next, olds[k], rows[k], after[k], channels, k, i);
      } else {
        OtherBehind(channels, i, ch, k);
        ChannelStays(css[k], was, now, next, olds[k], after[k], channels, k, if k < ch then i + 1 else i, SampleAt(channels, i, ch));
      }
    }
    SlotNext(channels, i, ch);
  }

  lemma OtherBehind(channels: nat, i: nat, ch: nat, k: nat)
    requires ch < channels && k < channels && k != ch
    ensures k < ch ==> SampleAt(channels, i, k) < SampleAt(channels, i, ch)
    ensures k > ch && i > 0 ==> SampleAt(channels, i - 1, k) < SampleAt(channels, i, ch)
  {
    if k < ch {
      SlotOrder(channels, i, k, i, ch);
    } else if i > 0 {
      SlotOrder(channels, i - 1, k, i, ch);
    }
  }

  lemma SlotNext(channels: nat, i: nat, ch: nat)
    ensures SampleAt(channels, i, ch + 1) == SampleAt(channels, i, ch) + 1
  {
  }

  lemma NextFrame(css: seq<seq<Coeff>>, was: seq<i32>, now: seq<i32>, olds: seq<seq<History>>, rows: seq<seq<History>>, channels: nat, i: nat)
    requires Progress(css, was, now, olds, rows, channels, i, channels) && channels > 0
    ensures Progress(css, was, now, olds, rows, channels, i + 1, 0)
  {
    hide ChannelIs;
    SpanStep(i, channels);
  }

  lemma NoFrames(css: seq<seq<Coeff>>, was: seq<i32>, rows: seq<seq<History>>, channels: nat)
    requires channels <= |rows| && channels <= |css| && forall k :: 0 <= k < channels ==> |rows[k]| == |css[k]|
    ensures Progress(css, was, was, rows, rows, channels, 0, 0)
  {
    SpanZero(channels);
  }

  // eq_process: every sample of the block through the bands of its channel.
  method EqProcess(cs: seq<Coeff>, rows: array<seq<History>>, samples: array<i32>, frames: nat, channels: nat)
    requires 0 < channels <= rows.Length && Span(frames, channels) <= samples.Length
    requires forall k :: 0 <= k < channels ==> |rows[k]| == |cs|
    modifies rows, samples
    ensures forall k :: 0 <= k < channels ==> ChannelIs(cs, old(samples[..]), samples[..], old(rows[..])[k], rows[k], channels, k, frames)
    ensures forall p :: Span(frames, channels) <= p < samples.Length ==> samples[p] == old(samples[p])
  {
    hide CascadeTick, ChannelIs, Progress;
    ghost var was, olds := samples[..], rows[..];
    ghost var css := seq(channels, k => cs);
    NoFrames(css, was, olds, channels);
    var i := 0;
    while i < frames
      invariant i <= frames && Progress(css, was, samples[..], olds, rows[..], channels, i, 0)
    {
      SpanLe(i + 1, frames, channels);
      var ch := 0;
      while ch < channels
        invariant ch <= channels && Progress(css, was, samples[..], olds, rows[..], channels, i, ch)
      {
        FilterNext(cs, rows, samples, channels, i, ch, css, was, olds);
        ch := ch + 1;
      }
      NextFrame(css, was, samples[..], olds, rows[..], channels, i);
      i := i + 1;
    }
    ProgressEnds(css, was, samples[..], olds, rows[..], channels, frames);
  }

  lemma ProgressEnds(css: seq<seq<Coeff>>, was: seq<i32>, now: seq<i32>, olds: seq<seq<History>>, rows: seq<seq<History>>, channels: nat, i: nat)
    requires Progress(css, was, now, olds, rows, channels, i, 0)
    ensures |was| == |now| && channels <= |olds| == |rows| && Span(i, channels) <= |was| && channels <= |css| && forall k :: 0 <= k < channels ==> |olds[k]| == |css[k]|
    ensures forall k :: 0 <= k < channels ==> ChannelIs(css[k], was, now, olds[k], rows[k], channels, k, i)
    ensures forall p :: Span(i, channels) <= p < |was| ==> now[p] == was[p]
  {
    hide ChannelIs;
  }

  method FilterNext(cs: seq<Coeff>, rows: array<seq<History>>, samples: array<i32>, channels: nat, i: nat, ch: nat,
      ghost css: seq<seq<Coeff>>, ghost was: seq<i32>, ghost olds: seq<seq<History>>)
    requires ch < channels <= |css| && css[ch] == cs && Progress(css, was, samples[..], olds, rows[..], channels, i, ch) && Span(i + 1, channels) <= |was|
    modifies rows, samples
    ensures Progress(css, was, samples[..], olds, rows[..], channels, i, ch + 1)
  {
    hide CascadeTick, ChannelIs, Progress;
    ghost var now, before := samples[..], rows[..];
    ProgressSizes(css, was, now, olds, before, channels, i, ch);
    SampleBounds(channels, i, ch, i + 1);
    FilterSample(cs, rows, ch, samples, SampleAt(channels, i, ch));
    ProgressStep(css, was, now, samples[..], olds, before, rows[..], channels, i, ch);
  }

  lemma ProgressSizes(css: seq<seq<Coeff>>, was: seq<i32>, now: seq<i32>, olds: seq<seq<History>>, rows: seq<seq<History>>, channels: nat, i: nat, ch: nat)
    requires Progress(css, was, now, olds, rows, channels, i, ch) && ch < channels
    ensures |was| == |now| && channels <= |olds| == |rows| && channels <= |css| && |rows[ch]| == |css[ch]|
  {
    hide ChannelIs;
  }

  // The mean of a stereo pair, rounded toward zero.
  function Mean(l: i32, r: i32): i32 {
    TruncDiv(l as int + r as int, 2)
  }

  lemma MeanIsHalfTheSum(l: i32, r: i32)
    ensures l as int + r as int >= 0 ==> 0 <= l as int + r as int - 2 * Mean(l, r) as int <= 1
    ensures l as int + r as int <= 0 ==> 0 <= 2 * Mean(l, r) as int - (l as int + r as int) <= 1
  {
    TruncDivBounds(l as int + r as int, 2);
  }

  // Left, right and mean of the first `frames` stereo frames, in a buffer of its own.
  function Expanded(stereo: seq<i32>, frames: nat): (r: seq<i32>)
    requires 2 * frames <= |stereo|
    ensures |r| == 3 * frames
    ensures forall j :: 0 <= j < frames ==>
      r[3 * j] == stereo[2 * j] && r[3 * j + 1] == stereo[2 * j + 1] && r[3 * j + 2] == Mean(stereo[2 * j], stereo[2 * j + 1])
    decreases frames
  {
    if frames == 0 then []
    else
      var l, r := stereo[2 * frames - 2], stereo[2 * frames - 1];
      Expanded(stereo, frames - 1) + [l, r, Mean(l, r)]
  }

  /** The expansion in place, from the last frame back, is the expansion out of place. */
  method ExpandInPlace(samples: array<i32>, frames: nat)
    requires 3 * frames <= samples.Length
    modifies samples
    ensures samples[..3 * frames] == Expanded(old(samples[..]), frames)
    ensures forall p :: 3 * frames <= p < samples.Length ==> samples[p] == old(samples[p])
  {
    hide Expanded, Mean;
    ghost var was, goal := samples[..], Expanded(samples[..], frames);
    var i := frames;
    while i > 0
      invariant 0 <= i <= frames
      invariant forall p :: 0 <= p < 2 * i ==> samples[p] == was[p]
      invariant forall p :: 3 * i <= p < 3 * frames ==> samples[p] == goal[p]
      invariant forall p :: 3 * frames <= p < samples.Length ==> samples[p] == was[p]
    {
      i := i - 1;
      ExpandFrame(samples, i);
      assert goal[3 * i] == was[2 * i] && goal[3 * i + 1] == was[2 * i + 1] && goal[3 * i + 2] == Mean(was[2 * i], was[2 * i + 1]);
    }
    assert samples[..3 * frames] == goal;
  }

  method ExpandFrame(samples: array<i32>, j: nat)
    requires 3 * j + 3 <= samples.Length
    modifies samples
    ensures samples[3 * j] == old(samples[2 * j]) && samples[3 * j + 1] == old(samples[2 * j + 1])
    ensures samples[3 * j + 2] == Mean(old(samples[2 * j]), old(samples[2 * j + 1]))
    ensures forall p :: 0 <= p < samples.Length && !(3 * j <= p < 3 * j + 3) ==> samples[p] == old(samples[p])
  {
    var l, r := samples[2 * j], samples[2 * j + 1];
    samples[3 * j] := l;
    samples[3 * j + 1] := r;
    samples[3 * j + 2] := TruncDiv(l as int + r as int, 2);
  }

  // One filter of one channel's cascade: the sample behind `stage` filters, and the row so far.
  ghost predicate Staged(cs: seq<Coeff>, before: seq<History>, x: i32, row: seq<History>, y: i32, stage: nat) {
    stage <= |cs| == |before| && Upto(cs, before, x, stage).0 == y && row == Upto(cs, before, x, stage).1 + before[stage..]
  }

  method StageStep(c: Coeff, rows: array<seq<History>>, row: nat, samples: array<i32>, slot: nat, stage: nat,
      ghost cs: seq<Coeff>, ghost before: seq<History>, ghost x: i32)
    requires row < rows.Length && slot < samples.Length && stage < |cs| && cs[stage] == c
    requires Staged(cs, before, x, rows[row], samples[slot], stage)
    modifies rows, samples
    ensures Staged(cs, before, x, rows[row], samples[slot], stage + 1)
    ensures forall k :: 0 <= k < rows.Length && k != row ==> rows[k] == old(rows[k])
    ensures forall k :: 0 <= k < samples.Length && k != slot ==> samples[k] == old(samples[k])
  {
    hide Tick, Upto;
    UptoStep(cs, before, x, stage);
    RowStep(Upto(cs, before, x, stage).1, before, stage, Tick(c, before[stage], samples[slot]).1);
    samples[slot] := BiquadTick(c, rows, row, stage, samples[slot]);
  }

  lemma StagedEnds(cs: seq<Coeff>, before: seq<History>, x: i32)
    requires |cs| == |before|
    ensures Staged(cs, before, x, before, x, 0)
    ensures forall row: seq<History>, y: i32 :: Staged(cs, before, x, row, y, |cs|) ==> CascadeTick(cs, before, x) == (y, row)
  {
    UptoEnds(cs, before, x);
  }

  // The filters of the three channels: two high-passes for left and right, two low-passes for the mean.
  function CrossFilters(lp: Coeff, hp: Coeff): seq<seq<Coeff>> {
    [[hp, hp], [hp, hp], [lp, lp]]
  }

  // The three samples of a frame after some stages.
  ghost predicate FrameStaged(css: seq<seq<Coeff>>, before: seq<seq<History>>, was: seq<i32>, rows: seq<seq<History>>, now: seq<i32>,
      at: nat, stages: seq<nat>)
  {
    && |css| == |before| == |rows| == |stages| == 3 && |was| == |now| && at + 3 <= |was|
    && (forall k :: 0 <= k < 3 ==> Staged(css[k], before[k], was[at + k], rows[k], now[at + k], stages[k]))
    && (forall p :: 0 <= p < |was| && !(at <= p < at + 3) ==> now[p] == was[p])
  }

  // The stage loop of one frame: both channels through the high-pass, then the mean through the low-pass.
  method CrossFrame(lp: Coeff, hp: Coeff, rows: array<seq<History>>, samples: array<i32>, at: nat)
    requires rows.Length == 3 && at + 3 <= samples.Length && forall k :: 0 <= k < 3 ==> |rows[k]| == 2
    modifies rows, samples
    ensures forall k :: 0 <= k < 3 ==>
      |old(rows[k])| == 2 && CascadeTick(CrossFilters(lp, hp)[k], old(rows[k]), old(samples[at + k])) == (samples[at + k], rows[k])
    ensures forall p :: 0 <= p < samples.Length && !(at <= p < at + 3) ==> samples[p] == old(samples[p])
  {
    hide Upto, Staged, CascadeTick;
    ghost var css, before, was := CrossFilters(lp, hp), rows[..], samples[..];
    StagedEnds(css[0], before[0], was[at]);
    StagedEnds(css[1], before[1], was[at + 1]);
    StagedEnds(css[2], before[2], was[at + 2]);
    var stage := 0;
    while stage < 2
      invariant stage <= 2 && rows.Length == 3 && FrameStaged(css, before, was, rows[..], samples[..], at, [stage, stage, stage])
    {
      StageStep(hp, rows, 0, samples, at, stage, css[0], before[0], was[at]);
      StageStep(hp, rows, 1, samples, at + 1, stage, css[1], before[1], was[at + 1]);
      StageStep(lp, rows, 2, samples, at + 2, stage, css[2], before[2], was[at + 2]);
      stage := stage + 1;
    }
  }

  // A frame whose three samples have been filtered moves all three channels on by one.
  lemma FrameMoves(css: seq<seq<Coeff>>, was: seq<i32>, now: seq<i32>, next: seq<i32>, olds: seq<seq<History>>, rows: seq<seq<History>>,
      after: seq<seq<History>>, i: nat)
    requires Progress(css, was, now, olds, rows, 3, i, 0) && |css| == |rows| == |after| == 3 && |next| == |now| == |was| && Span(i + 1, 3) <= |was|
    requires Span(i, 3) == 3 * i && 3 * i + 3 <= |was| && forall k :: 0 <= k < 3 ==> |css[k]| == |rows[k]|
    requires forall k :: 0 <= k < 3 ==> CascadeTick(css[k], rows[k], now[3 * i + k]) == (next[3 * i + k], after[k])
    requires forall p :: 0 <= p < |now| && !(3 * i <= p < 3 * i + 3) ==> next[p] == now[p]
    ensures Progress(css, was, next, olds, after, 3, i + 1, 0)
  {
    hide CascadeTick, ChannelIs, Progress;
    var at := 3 * i;
    var now1, rows1 := now[at := next[at]], rows[0 := after[0]];
    ProgressStep(css, was, now, now1, olds, rows, rows1, 3, i, 0);
    var now2, rows2 := now1[at + 1 := next[at + 1]], rows1[1 := after[1]];
    ProgressStep(css, was, now1, now2, olds, rows1, rows2, 3, i, 1);
    var now3, rows3 := now2[at + 2 := next[at + 2]], rows2[2 := after[2]];
    ProgressStep(css, was, now2, now3, olds, rows2, rows3, 3, i, 2);
    assert now3 == next && rows3 == after;
    NextFrame(css, was, next, olds, after, 3, i);
  }

  lemma ChannelLast(samples: seq<i32>, channels: nat, ch: nat, n: nat)
    requires ch < channels && n > 0 && channels * n <= |samples|
    ensures Span(n, channels) == channels * n && Span(n - 1, channels) == channels * (n - 1)
    ensures 0 <= channels * (n - 1) && channels * (n - 1) + ch < |samples|
    ensures ChannelOf(samples, channels, ch, n) == ChannelOf(samples, channels, ch, n - 1) + [samples[channels * (n - 1) + ch]]
  {
    SpanIsProduct(n, channels);
    SpanIsProduct(n - 1, channels);
    SampleBounds(channels, n - 1, ch, n);
    SpanLe(n - 1, n, channels);
  }

  lemma {:induction false} ExpandedChannels(stereo: seq<i32>, frames: nat, all: seq<i32>, n: nat)
    requires 2 * frames <= |stereo| && n <= frames && |all| >= 3 * frames && all[..3 * frames] == Expanded(stereo, frames)
    ensures Span(n, 3) == 3 * n && Span(n, 2) == 2 * n
    ensures ChannelOf(all, 3, 0, n) == ChannelOf(stereo, 2, 0, n) && ChannelOf(all, 3, 1, n) == ChannelOf(stereo, 2, 1, n)
    ensures ChannelOf(all, 3, 2, n) == Means(ChannelOf(stereo, 2, 0, n), ChannelOf(stereo, 2, 1, n))
    decreases n
  {
    hide ChannelOf, Expanded, Means, Mean;
    SpanIsProduct(n, 3);
    SpanIsProduct(n, 2);
    if n > 0 {
      ExpandedChannels(stereo, frames, all, n - 1);
      ChannelLast(all, 3, 0, n);
      ChannelLast(all, 3, 1, n);
      ChannelLast(all, 3, 2, n);
      ChannelLast(stereo, 2, 0, n);
      ChannelLast(stereo, 2, 1, n);
      ExpandedAt(stereo, frames, all, n - 1);
      MeansMore(ChannelOf(stereo, 2, 0, n - 1), ChannelOf(stereo, 2, 1, n - 1), stereo[2 * (n - 1)], stereo[2 * (n - 1) + 1]);
    } else {
      NoSamples(stereo, all);
    }
  }

  lemma NoSamples(stereo: seq<i32>, all: seq<i32>)
    ensures Span(0, 2) == 0 && Span(0, 3) == 0 && forall k :: 0 <= k < 3 ==> ChannelOf(all, 3, k, 0) == []
    ensures ChannelOf(stereo, 2, 0, 0) == [] && ChannelOf(stereo, 2, 1, 0) == [] && Means([], []) == []
  {
  }

  lemma ExpandedAt(stereo: seq<i32>, frames: nat, all: seq<i32>, j: nat)
    requires 2 * frames <= |stereo| && j < frames && |all| >= 3 * frames && all[..3 * frames] == Expanded(stereo, frames)
    ensures all[3 * j] == stereo[2 * j] && all[3 * j + 1] == stereo[2 * j + 1] && all[3 * j + 2] == Mean(stereo[2 * j], stereo[2 * j + 1])
  {
    hide Expanded, Mean;
    var e := Expanded(stereo, frames);
    assert all[3 * j] == e[3 * j] && all[3 * j + 1] == e[3 * j + 1] && all[3 * j + 2] == e[3 * j + 2];
  }

  function Means(l: seq<i32>, r: seq<i32>): (m: seq<i32>)
    requires |l| == |r|
    ensures |m| == |l|
  {
    seq(|l|, i requires 0 <= i < |l| => Mean(l[i], r[i]))
  }

  lemma MeansMore(l: seq<i32>, r: seq<i32>, x: i32, y: i32)
    requires |l| == |r|
    ensures Means(l + [x], r + [y]) == Means(l, r) + [Mean(x, y)]
  {
  }

  // The frame loop of cross_process.
  method CrossFrames(lp: Coeff, hp: Coeff, rows: array<seq<History>>, samples: array<i32>, frames: nat)
    requires rows.Length == 3 && 3 * frames <= samples.Length && forall k :: 0 <= k < 3 ==> |rows[k]| == 2
    modifies rows, samples
    ensures Span(frames, 3) == 3 * frames
    ensures forall k :: 0 <= k < 3 ==> |old(rows[k])| == 2
    ensures forall k :: 0 <= k < 3 ==>
      ChannelIs(CrossFilters(lp, hp)[k], old(samples[..]), samples[..], old(rows[..])[k], rows[k], 3, k, frames)
    ensures forall p :: 3 * frames <= p < samples.Length ==> samples[p] == old(samples[p])
  {
    hide CascadeTick, ChannelIs, Progress;
    ghost var css, was, olds := CrossFilters(lp, hp), samples[..], rows[..];
    NoFramesYet(css, was, olds);
    SpanIsProduct(frames, 3);
    var i := 0;
    while i < frames
      invariant i <= frames && Progress(css, was, samples[..], olds, rows[..], 3, i, 0)
      invariant forall k :: 0 <= k < 3 ==> |rows[k]| == 2
    {
      SpanIsProduct(i, 3);
      SpanIsProduct(i + 1, 3);
      ghost var now, before := samples[..], rows[..];
      CrossFrame(lp, hp, rows, samples, 3 * i);
      FrameMoves(css, was, now, samples[..], olds, before, rows[..], i);
      i := i + 1;
    }
    ProgressEnds(css, was, samples[..], olds, rows[..], 3, frames);
  }

  lemma NoFramesYet(css: seq<seq<Coeff>>, was: seq<i32>, rows: seq<seq<History>>)
    requires |css| == |rows| == 3 && forall k :: 0 <= k < 3 ==> |rows[k]| == |css[k]|
    ensures Progress(css, was, was, rows, rows, 3, 0, 0)
  {
    NoFrames(css, was, rows, 3);
  }

  /** cross_process: a stereo block becomes left and right through two high-passes each and their mean through
      two low-passes, as if each channel had been filtered by itself. */
  method CrossProcess(lp: Coeff, hp: Coeff, rows: array<seq<History>>, samples: array<i32>, frames: nat, format: Format)
    returns (rc: int, result: Format)
    requires rows.Length == 3 && forall k :: 0 <= k < 3 ==> |rows[k]| == 2
    modifies rows, samples
    ensures rc == if format.channels != 2 || format.mask != 3 || samples.Length / 3 < frames then INVALID else OK
    ensures rc == OK ==> result == Format(format.sampleRate, 3, 7) && 3 * frames <= samples.Length
    ensures rc == OK ==> (SpanIsProduct(frames, 3); SpanIsProduct(frames, 2);
      var l, r := ChannelOf(old(samples[..]), 2, 0, frames), ChannelOf(old(samples[..]), 2, 1, frames);
      && |old(rows[0])| == |old(rows[1])| == |old(rows[2])| == 2
      && Cascade([hp, hp], old(rows[0]), l) == (ChannelOf(samples[..], 3, 0, frames), rows[0])
      && Cascade([hp, hp], old(rows[1]), r) == (ChannelOf(samples[..], 3, 1, frames), rows[1])
      && Cascade([lp, lp], old(rows[2]), Means(l, r)) == (ChannelOf(samples[..], 3, 2, frames), rows[2]))
    ensures rc != OK ==> samples[..] == old(samples[..]) && rows[..] == old(rows[..])
  {
    hide Cascade, Means, Expanded;
    if format.channels != 2 || format.mask != 3 || samples.Length / 3 < frames {
      return INVALID, format;
    }
    ghost var stereo := samples[..];
    ExpandInPlace(samples, frames);
    ghost var all := samples[..];
    CrossFrames(lp, hp, rows, samples, frames);
    ExpandedChannels(stereo, frames, all, frames);
    rc, result := OK, Format(format.sampleRate, 3, 7);
  }

  // valid_buffer.
  predicate ValidBuffer(b: Buffer)
    reads b
  {
    b.samples != null && FormatValid(b.format) && b.frameCount <= b.capacityFrames && b.frameCount <= b.capacitySamples / b.format.channels
  }

  // flags & ~EAF_FRAME_SILENCE.
  function Audible(flags: u32): (r: u32)
    ensures r % 2 == 0 && r / 2 == flags / 2
  {
    if flags % 2 == FLAG_SILENCE then flags - FLAG_SILENCE else flags
  }

  lemma BlockInside(frames: nat, samples: nat, channels: nat)
    requires channels > 0 && frames <= samples / channels
    ensures Span(frames, channels) <= samples
  {
    SpanIsProduct(frames, channels);
    MulLe(frames, samples / channels, channels);
  }

  // eq_process on a block: a block it accepts is filtered in place and no longer marked silent.
  method EqNode(cs: seq<Coeff>, rows: array<seq<History>>, b: Buffer) returns (rc: int)
    requires b.samples != null ==> b.capacitySamples == b.samples.Length
    requires rows.Length == MAX_CHANNELS && forall k :: 0 <= k < MAX_CHANNELS ==> |rows[k]| == |cs|
    modifies rows, b`flags, if b.samples == null then {} else {b.samples}
    ensures rc == if b.samples != null && FormatValid(b.format) && b.frameCount <= b.capacityFrames
      && b.frameCount <= b.capacitySamples / b.format.channels then OK else INVALID
    ensures rc != OK ==> b.flags == old(b.flags) && rows[..] == old(rows[..]) && (b.samples != null ==> b.samples[..] == old(b.samples[..]))
    ensures rc == OK ==>
      && b.flags % 2 == 0 && b.flags / 2 == old(b.flags) / 2 && Span(b.frameCount, b.format.channels) <= b.samples.Length
      && (forall k :: 0 <= k < b.format.channels ==>
        ChannelIs(cs, old(b.samples[..]), b.samples[..], old(rows[..])[k], rows[k], b.format.channels, k, b.frameCount))
      && (forall p :: Span(b.frameCount, b.format.channels) <= p < b.samples.Length ==> b.samples[p] == old(b.samples[p]))
  {
    hide ChannelIs, FormatValid;
    if !ValidBuffer(b) {
      return INVALID;
    }
    Speakers(b.format);
    BlockInside(b.frameCount, b.capacitySamples, b.format.channels);
    EqProcess(cs, rows, b.samples, b.frameCount, b.format.channels);
    b.flags := Audible(b.flags);
    rc := OK;
  }

  lemma Speakers(f: Format)
    requires FormatValid(f)
    ensures 0 < f.channels <= MAX_CHANNELS
  {
  }

  // cross_process on a block.
  method CrossNode(lp: Coeff, hp: Coeff, rows: array<seq<History>>, b: Buffer) returns (rc: int)
    requires b.samples != null ==> b.capacitySamples == b.samples.Length
    requires rows.Length == 3 && forall k :: 0 <= k < 3 ==> |rows[k]| == 2
    modifies rows, b`flags, b`format, if b.samples == null then {} else {b.samples}
    ensures rc == if b.samples != null && FormatValid(old(b.format)) && b.frameCount <= b.capacityFrames && old(b.format).channels == 2 && old(b.format).mask == 3 && b.frameCount <= b.capacitySamples / 3 then OK
      else INVALID
    ensures rc != OK ==> b.flags == old(b.flags) && b.format == old(b.format)
    ensures rc != OK ==> rows[..] == old(rows[..]) && (b.samples != null ==> b.samples[..] == old(b.samples[..]))
    ensures rc == OK ==> b.flags % 2 == 0 && b.flags / 2 == old(b.flags) / 2 && b.format == Format(old(b.format).sampleRate, 3, 7) && 3 * b.frameCount <= b.samples.Length
    ensures rc == OK ==> (SpanIsProduct(b.frameCount, 3); SpanIsProduct(b.frameCount, 2);
      var l, r := ChannelOf(old(b.samples[..]), 2, 0, b.frameCount), ChannelOf(old(b.samples[..]), 2, 1, b.frameCount);
      && |old(rows[0])| == |old(rows[1])| == |old(rows[2])| == 2
      && Cascade([hp, hp], old(rows[0]), l) == (ChannelOf(b.samples[..], 3, 0, b.frameCount), rows[0])
      && Cascade([hp, hp], old(rows[1]), r) == (ChannelOf(b.samples[..], 3, 1, b.frameCount), rows[1])
      && Cascade([lp, lp], old(rows[2]), Means(l, r)) == (ChannelOf(b.samples[..], 3, 2, b.frameCount), rows[2]))
  {
    hide Cascade, Means, ChannelOf, FormatValid;
    if !ValidBuffer(b) {
      return INVALID;
    }
    var format;
    rc, format := CrossProcess(lp, hp, rows, b.samples, b.frameCount, b.format);
    if rc == OK {
      b.format := format;
      b.flags := Audible(b.flags);
    }
  }
}
