/** core/eaf_reservoir.c: a ring of interleaved frames between a decoder and the audio
    owner, its playback phases, and the recovery ramp. */
module Reservoirs {
  import opened Common
  import opened RingArithmetic
  import opened Rings

  datatype Phase = Prebuffering | Streaming | Underrun | Drained

  // How many real frames one pull delivers, the phase it leaves and the flags it reports.
  datatype Verdict = Verdict(take: u32, phase: Phase, flags: u32)

  function Decide(finished: bool, phase: Phase, available: nat, high: nat, n: u32): Verdict {
    var take := Min(available, n);
    if finished then
      var drained := available <= n;
      Verdict(take, if drained then Drained else Streaming,
              (if take == 0 then FLAG_SILENCE else 0) + (if drained then FLAG_EOS else 0))
    else if phase == Underrun || phase == Streaming || (phase == Prebuffering && available >= high && available >= n) then
      if take < n then Verdict(take, Underrun, FLAG_UNDERRUN) else Verdict(n, Streaming, 0)
    else
      Verdict(0, phase, FLAG_SILENCE)
  }

  /** When a pull plays, by the numbers: a prebuffering reservoir starts exactly when the watermark and the whole
      block are there, and gives nothing before; one that has started gives what there is, and a short block is
      an underrun; after the end the last block, and only it, carries the EOS mark. */
  lemma PlaysFromTheWatermark(phase: Phase, queued: nat, high: nat, n: u32)
    requires n > 0
    ensures var v := Decide(false, Prebuffering, queued, high, n);
      if queued >= high && queued >= n then v == Verdict(n, Streaming, 0) else v == Verdict(0, Prebuffering, FLAG_SILENCE)
    ensures phase.Streaming? || phase.Underrun? ==>
      Decide(false, phase, queued, high, n) == if queued < n then Verdict(queued, Underrun, FLAG_UNDERRUN) else Verdict(n, Streaming, 0)
    ensures var v := Decide(true, phase, queued, high, n);
      && v.take == Min(queued, n) && v.phase == (if queued <= n then Drained else Streaming)
      && (v.flags >= FLAG_EOS <==> queued <= n) && (v.flags % 2 == FLAG_SILENCE <==> queued == 0) && v.flags / 2 % 2 == 0
  {
  }

  // The short ramp that follows the last real sample of a starved block.
  function FadeLength(missing: nat): nat {
    if missing < 16 then missing else 16
  }

  function Fade(from: i32, missing: nat, i: nat): (r: i32)
    requires i < missing
    ensures from >= 0 ==> 0 <= r <= from
    ensures from <= 0 ==> from <= r <= 0
  {
    var fade := FadeLength(missing);
    if i < fade then
      FadeInRange(from, fade, i);
      TruncDiv(from * (fade - i - 1), fade)
    else 0
  }

  lemma FadeInRange(from: int, fade: nat, i: nat)
    requires i < fade
    ensures from >= 0 ==> 0 <= TruncDiv(from * (fade - i - 1), fade) <= from
    ensures from <= 0 ==> from <= TruncDiv(from * (fade - i - 1), fade) <= 0
  {
    var k := fade - i - 1;
    var a := if from >= 0 then from else -from;
    assert from >= 0 ==> from * k == a * k;
    assert from <= 0 ==> from * k == -(a * k);
    MulLe(0, a, k);
    MulLe(k, fade, a);
    DivBelow(a * k, fade, a);
    assert from < 0 && a * k == 0 ==> TruncDiv(from * k, fade) == 0;
  }

  lemma DivBelow(x: nat, d: nat, a: nat)
    requires d > 0 && x <= d * a
    ensures 0 <= x / d <= a
  {
    var q := x / d;
    assert x == q * d + x % d;
    if q > a {
      MulLe(a + 1, q, d);
      assert false;
    }
  }

  // The ramp never moves away from zero, and a starved block ends in silence.
  lemma FadeDescends(from: i32, missing: nat, i: nat)
    requires i + 1 < missing
    ensures from >= 0 ==> Fade(from, missing, i + 1) <= Fade(from, missing, i)
    ensures from <= 0 ==> Fade(from, missing, i) <= Fade(from, missing, i + 1)
  {
    var fade := FadeLength(missing);
    if i + 1 < fade {
      var k := fade - i - 1;
      ScaleDescends(from, k, fade);
      assert fade - (i + 1) - 1 == k - 1;
    }
  }

  lemma FadeEndsSilent(from: i32, missing: nat)
    requires missing > 0
    ensures Fade(from, missing, missing - 1) == 0
  {
    var fade := FadeLength(missing);
    if missing - 1 < fade {
      assert fade - (missing - 1) - 1 == 0 && from * 0 == 0 && TruncDiv(0, fade) == 0;
    }
  }

  /** The ramp is the straight line from the last sample down to zero over at most 16 frames, rounded toward zero,
      and silence after it. */
  lemma FadeIsALine(from: i32, missing: nat, i: nat)
    requires i < missing
    ensures i >= Min(missing, 16) ==> Fade(from, missing, i) == 0
    ensures i < Min(missing, 16) && from >= 0 ==>
      var n, exact := Min(missing, 16), from * (Min(missing, 16) - 1 - i);
      n * Fade(from, missing, i) <= exact < n * (Fade(from, missing, i) + 1)
    ensures i < Min(missing, 16) && from <= 0 ==>
      var n, exact := Min(missing, 16), from * (Min(missing, 16) - 1 - i);
      n * (Fade(from, missing, i) - 1) < exact <= n * Fade(from, missing, i)
  {
    var n := Min(missing, 16);
    if i < n {
      var x: int := from * (n - 1 - i);
      assert from >= 0 ==> x == from * (n - 1 - i) && x >= 0 by { if from >= 0 { MulLe(0, from, n - 1 - i); } }
      assert from <= 0 ==> x <= 0 by {
        if from <= 0 {
          var a: nat := -(from as int);
          MulLe(0, a, n - 1 - i);
          assert x == -(a * (n - 1 - i));
        }
      }
      Quotient(x, n);
    }
  }

  lemma Quotient(x: int, n: nat)
    requires n > 0
    ensures x >= 0 ==> n * TruncDiv(x, n) <= x < n * (TruncDiv(x, n) + 1)
    ensures x <= 0 ==> n * (TruncDiv(x, n) - 1) < x <= n * TruncDiv(x, n)
  {
    if x >= 0 {
      assert x == n * (x / n) + x % n;
    } else {
      assert -x == n * (-x / n) + -x % n;
    }
  }

  lemma ScaleDescends(from: int, k: nat, fade: nat)
    requires 0 < k < fade
    ensures from >= 0 ==> TruncDiv(from * (k - 1), fade) <= TruncDiv(from * k, fade)
    ensures from <= 0 ==> TruncDiv(from * k, fade) <= TruncDiv(from * (k - 1), fade)
  {
    var a := if from >= 0 then from else -from;
    MulLe(0, k - 1, a);
    MulLe(k - 1, k, a);
    DivMonotone(a * (k - 1), a * k, fade);
    assert from < 0 ==> from * k == -(a * k) && from * (k - 1) == -(a * (k - 1));
  }

  lemma DivMonotone(x: nat, y: nat, d: nat)
    requires d > 0 && x <= y
    ensures x / d <= y / d
  {
    if x / d > y / d {
      MulLe(y / d + 1, x / d, d);
      assert false;
    }
  }

  ghost predicate RingShape(storage: array<i32>, capacity: nat, c: nat) {
    IsPow2(capacity) && 2 <= capacity <= 0x8000_0000 && 1 <= c <= MAX_CHANNELS && 0 < storage.Length == Span(capacity, c)
  }

  method ClearSamples(dst: array<i32>, from: nat, to: nat)
    requires from <= to <= dst.Length
    modifies dst
    ensures forall p :: 0 <= p < dst.Length ==> dst[p] == if from <= p < to then 0 else old(dst[p])
  {
    forall p | from <= p < to {
      dst[p] := 0;
    }
  }

  // The two-part copy of storage_store is one modulo-indexed write.
  method StorageStore(storage: array<i32>, capacity: u32, start: u32, src: seq<i32>, frames: nat, c: nat, ghost pos: nat)
    requires RingShape(storage, capacity, c) && frames <= capacity
    requires start == Wrap(pos, TWO32) && |src| >= Span(frames, c)
    modifies storage
    ensures Stored(old(storage[..]), storage[..], Span(pos, c), src[..Span(frames, c)])
  {
    var slot := BitAnd(start, capacity - 1);
    var first := capacity - slot;
    CursorSlot(pos, capacity);
    if first > frames {
      first := frames;
    }
    SplitSizes(pos, capacity, c, slot, first, frames);
    CopyWrapped(storage, Span(slot, c), src[..Span(frames, c)], Span(first, c), Span(pos, c));
  }

  // Where a copy of `frames` frames at stream position pos is cut in two.
  lemma SplitSizes(pos: nat, capacity: nat, c: nat, slot: nat, first: nat, frames: nat)
    requires capacity > 0 && c > 0 && slot == Wrap(pos, capacity) && first == Min(capacity - slot, frames) && frames <= capacity
    ensures Span(capacity, c) > 0 && Span(slot, c) == Wrap(Span(pos, c), Span(capacity, c))
    ensures Span(slot, c) + Span(first, c) <= Span(capacity, c)
    ensures first < frames ==> Span(slot, c) + Span(first, c) == Span(capacity, c)
    ensures Span(first, c) + Span(frames - first, c) == Span(frames, c) <= Span(capacity, c)
    ensures Span(frames - first, c) <= Span(slot, c)
  {
    WrapSpan(pos, capacity, c);
    SpanAdd(slot, first, c);
    SpanLe(slot + first, capacity, c);
    SpanLe(first, frames, c);
    SpanLe(frames, capacity, c);
    SpanLe(frames - first, slot, c);
  }

  method StorageLoad(dst: array<i32>, storage: array<i32>, capacity: u32, start: u32, frames: nat, c: nat, ghost pos: nat)
    requires RingShape(storage, capacity, c) && frames <= capacity && Span(frames, c) <= dst.Length
    requires start == Wrap(pos, TWO32) && dst != storage
    modifies dst
    ensures forall j :: 0 <= j < Span(frames, c) ==> dst[j] == Slot(storage[..], Span(pos, c) + j)
    ensures forall j :: Span(frames, c) <= j < dst.Length ==> dst[j] == old(dst[j])
  {
    var slot := BitAnd(start, capacity - 1);
    var first := capacity - slot;
    CursorSlot(pos, capacity);
    if first > frames {
      first := frames;
    }
    SplitSizes(pos, capacity, c, slot, first, frames);
    CopyInto(dst, 0, storage[Span(slot, c)..Span(slot, c) + Span(first, c)]);
    if first < frames {
      CopyInto(dst, Span(first, c), storage[..Span(frames - first, c)]);
    }
    LoadedSlots(dst[..], storage[..], Span(frames, c), Span(slot, c), Span(first, c), Span(pos, c));
  }

  // A read cut at the end of the ring, put together again.
  lemma LoadedSlots(dst: seq<i32>, slots: seq<i32>, n: nat, at: nat, cut: nat, s: nat)
    requires 0 < |slots| && n <= |dst| && n <= |slots| && at == Wrap(s, |slots|) && cut <= n && at + cut <= |slots| && (cut < n ==> at + cut == |slots|)
    requires forall j :: 0 <= j < cut ==> dst[j] == slots[at + j]
    requires forall j :: cut <= j < n ==> dst[j] == slots[j - cut]
    ensures forall j :: 0 <= j < n ==> dst[j] == Slot(slots, s + j)
  {
    hide Wrap;
    forall j | 0 <= j < n ensures dst[j] == Slot(slots, s + j) {
      WrapShift(s, j, |slots|);
    }
  }

  type Frame = seq<i32>

  // Frames 0..i of the ramp that covers `missing` frames.
  function Ramp(from: Frame, missing: nat, i: nat): (r: seq<i32>)
    requires i <= missing
    ensures |r| == Span(i, |from|)
    decreases i
  {
    if i == 0 then [] else Ramp(from, missing, i - 1) + RampFrame(from, missing, i - 1)
  }

  function RampFrame(from: Frame, missing: nat, i: nat): (r: Frame)
    requires i < missing
    ensures |r| == |from| && forall ch :: 0 <= ch < |r| ==> r[ch] == Fade(from[ch], missing, i)
  {
    seq(|from|, ch requires 0 <= ch < |from| => Fade(from[ch], missing, i))
  }

  function Silence(n: nat): (r: seq<i32>)
    ensures |r| == n && forall j :: 0 <= j < n ==> r[j] == 0
  {
    seq(n, _ => 0)
  }

  // Beyond its fade length the ramp is silence.
  lemma {:induction false} RampTail(from: Frame, missing: nat, i: nat)
    requires FadeLength(missing) <= i <= missing
    ensures Span(FadeLength(missing), |from|) <= Span(i, |from|)
    ensures Ramp(from, missing, i) == Ramp(from, missing, FadeLength(missing)) + Silence(Span(i, |from|) - Span(FadeLength(missing), |from|))
    decreases i
  {
    if i > FadeLength(missing) {
      RampTail(from, missing, i - 1);
    }
  }

  // The samples of a pulled block of n frames, given the queued samples.
  function Block(queue: seq<i32>, v: Verdict, n: nat, c: nat, last: seq<i32>): seq<i32>
    requires v.take <= n && Span(v.take, c) <= |queue| && c <= |last|
  {
    queue[..Span(v.take, c)] +
    if v.phase.Underrun? then Ramp(RampFrom(queue, v.take, c, last), n - v.take, n - v.take) else Silence(Span(n - v.take, c))
  }

  // Where the ramp starts: the last real frame, or the one the previous block ended on.
  function RampFrom(queue: seq<i32>, take: nat, c: nat, last: seq<i32>): (r: Frame)
    requires Span(take, c) <= |queue| && c <= |last|
    ensures |r| == c
  {
    if take > 0 then queue[Span(take - 1, c)..Span(take, c)] else last[..c]
  }

  /** An underrun block after its real frames, by the positions: in each channel the ramp from the last real sample,
      or from where the previous block ended when there is none. */
  lemma RampedBlock(queue: seq<i32>, v: Verdict, n: nat, c: nat, last: seq<i32>, i: nat, ch: nat, at: nat, start: nat)
    requires v.phase.Underrun? && v.take <= n && Span(v.take, c) <= |queue| && c <= |last| && ch < c && v.take + i < n
    requires at == c * (v.take + i) + ch && (v.take > 0 ==> start == c * (v.take - 1) + ch)
    ensures at < |Block(queue, v, n, c, last)| && (v.take > 0 ==> start < |queue|)
    ensures Block(queue, v, n, c, last)[at] == Fade(if v.take > 0 then queue[start] else last[ch], n - v.take, i)
  {
    hide Fade, Ramp;
    var from, missing := RampFrom(queue, v.take, c, last), n - v.take;
    SpanIsProduct(v.take, c);
    SpanIsProduct(i, c);
    RampAt(from, missing, missing, i, ch);
    assert c * (v.take + i) == c * v.take + c * i;
    if v.take > 0 {
      SpanIsProduct(v.take - 1, c);
      assert c * v.take == c * (v.take - 1) + c;
    }
  }

  lemma {:induction false} RampAt(from: Frame, missing: nat, m: nat, i: nat, ch: nat)
    requires i < m <= missing && ch < |from|
    ensures Span(i, |from|) + ch < |Ramp(from, missing, m)| && Ramp(from, missing, m)[Span(i, |from|) + ch] == Fade(from[ch], missing, i)
    decreases m
  {
    hide Fade;
    if i < m - 1 {
      RampAt(from, missing, m - 1, i, ch);
      hide Ramp;
      RampGrows(from, missing, m, Span(i, |from|) + ch);
    } else {
      assert RampFrame(from, missing, i)[ch] == Fade(from[ch], missing, i);
    }
  }

  lemma RampGrows(from: Frame, missing: nat, m: nat, k: nat)
    requires 0 < m <= missing && k < |Ramp(from, missing, m - 1)|
    ensures k < |Ramp(from, missing, m)| && Ramp(from, missing, m)[k] == Ramp(from, missing, m - 1)[k]
  {
    hide RampFrame;
    assert Ramp(from, missing, m) == Ramp(from, missing, m - 1) + RampFrame(from, missing, m - 1);
  }

  // Ramps `missing` cleared frames at sample `at` down from `from`, one value per channel.
  method FadeTail(dst: array<i32>, at: nat, missing: nat, c: nat, from: Frame)
    requires 0 < missing && 1 <= c == |from| && at + Span(missing, c) <= dst.Length
    requires forall p :: at <= p < at + Span(missing, c) ==> dst[p] == 0
    modifies dst
    ensures forall p :: 0 <= p < dst.Length ==>
      dst[p] == if at <= p < at + Span(missing, c) then Ramp(from, missing, missing)[p - at] else old(dst[p])
  {
    var fade := FadeLength(missing);
    SpanLe(fade, missing, c);
    for i := 0 to fade
      invariant Span(i, c) <= Span(fade, c)
      invariant forall p :: 0 <= p < dst.Length ==>
        dst[p] == if at <= p < at + Span(i, c) then Ramp(from, missing, i)[p - at] else old(dst[p])
    {
      SpanLe(i + 1, fade, c);
      FadeOneFrame(dst, at + Span(i, c), from, fade, i, missing);
    }
    RampTail(from, missing, missing);
  }

  method FadeOneFrame(dst: array<i32>, at: nat, from: Frame, fade: nat, i: nat, missing: nat)
    requires at + |from| <= dst.Length && i < fade == FadeLength(missing)
    modifies dst
    ensures forall p :: 0 <= p < dst.Length ==>
      dst[p] == if at <= p < at + |from| then RampFrame(from, missing, i)[p - at] else old(dst[p])
  {
    for ch := 0 to |from|
      invariant forall p :: 0 <= p < dst.Length ==>
        dst[p] == if at <= p < at + ch then Fade(from[p - at], missing, i) else old(dst[p])
    {
      FadeInRange(from[ch], fade, i);
      dst[at + ch] := TruncDiv(from[ch] * (fade - i - 1), fade);
    }
  }

  // Ramps a short block down and returns the history kept for the next one.
  method CompleteBlock(dst: array<i32>, take: u32, n: nat, c: nat, last: seq<i32>, ghost queue: seq<i32>) returns (last': seq<i32>)
    requires take <= n && 0 < n && 1 <= c <= |last| == MAX_CHANNELS && Span(n, c) <= dst.Length
    requires Span(take, c) <= |queue| && Span(take, c) <= Span(n, c)
    requires forall p :: 0 <= p < Span(n, c) ==> dst[p] == if p < Span(take, c) then queue[p] else 0
    modifies dst
    ensures dst[..Span(n, c)] == Block(queue, Verdict(take, if take < n then Underrun else Streaming, 0), n, c, last)
    ensures forall p :: Span(n, c) <= p < dst.Length ==> dst[p] == old(dst[p])
    ensures last' == if take < n then [0, 0, 0, 0] else RampFrom(queue, n, c, last) + last[c..]
  {
    var from := last[..c];
    SpanLe(take, n, c);
    if take > 0 {
      from := dst[Span(take - 1, c)..Span(take, c)];
    }
    assert from == RampFrom(queue, take, c, last);
    if take < n {
      FadeTail(dst, Span(take, c), n - take, c, from);
      last' := [0, 0, 0, 0];
    } else {
      last' := from + last[c..];
    }
  }

  // Pulls of n frames until one reports EOS, once the producer has finished.
  function PullsToDrain(phase: Phase, level: u32, high: nat, n: u32): nat
    requires n > 0
    decreases level
  {
    var v := Decide(true, phase, level, high, n);
    if v.flags >= FLAG_EOS then 1 else 1 + PullsToDrain(v.phase, level - v.take, high, n)
  }

  // After finish a level of L drains in exactly max(1, ceil(L / n)) pulls, none of them an underrun.
  lemma {:induction false} DrainTakesCeilingPulls(phase: Phase, level: u32, high: nat, n: u32)
    requires n > 0
    ensures PullsToDrain(phase, level, high, n) == Max(1, (level + n - 1) / n)
    ensures !Decide(true, phase, level, high, n).phase.Underrun?
    decreases level
  {
    if level > n {
      DrainTakesCeilingPulls(Streaming, level - n, high, n);
    }
    CeilStep(level, n);
  }

  lemma CeilStep(level: nat, n: nat)
    requires n > 0
    ensures level > n ==> (level + n - 1) / n == 1 + (level - n + n - 1) / n && (level - n + n - 1) / n >= 1
    ensures level == 0 ==> (level + n - 1) / n == 0
    ensures 0 < level <= n ==> (level + n - 1) / n == 1
  {
    if level > n {
      var q, r := (level - 1) / n, (level - 1) % n;
      assert (q + 1) * n == q * n + n;
      ModUnique(level + n - 1, n, q + 1, r);
      if q < 1 {
        MulLe(q, 0, n);
        assert false;
      }
    } else if level == 0 {
      ModUnique(n - 1, n, 0, n - 1);
    } else {
      ModUnique(level + n - 1, n, 1, level - 1);
    }
  }

  // The samples those pulls hand out, block after block.
  function DrainOutput(phase: Phase, queue: seq<i32>, level: u32, high: nat, n: u32, c: nat, last: seq<i32>): seq<i32>
    requires n > 0 && |queue| == Span(level, c) && c <= |last|
    decreases level
  {
    var v := Decide(true, phase, level, high, n);
    SpanLe(v.take, level, c);
    Block(queue, v, n, c, last) +
    if v.flags >= FLAG_EOS then []
    else DrainOutput(v.phase, queue[Span(v.take, c)..], level - v.take, high, n, c, last)
  }

  // They are the queued samples, once each and in order, then silence up to the end of the last block.
  lemma {:induction false} DrainDeliversTheQueue(phase: Phase, queue: seq<i32>, level: u32, high: nat, n: u32, c: nat, last: seq<i32>)
    requires n > 0 && |queue| == Span(level, c) && c <= |last|
    ensures var out := DrainOutput(phase, queue, level, high, n, c, last);
      |out| == Span(PullsToDrain(phase, level, high, n), Span(n, c)) && |queue| <= |out| && out == queue + Silence(|out| - |queue|)
    decreases level
  {
    hide Span, Block;
    var v, w := Decide(true, phase, level, high, n), Span(n, c);
    SpanLe(v.take, level, c);
    SpanLe(v.take, n, c);
    SpanZero(w);
    SpanZero(c);
    EndingBlock(queue, v, n, c, last);
    if v.flags < FLAG_EOS {
      DrainDeliversTheQueue(v.phase, queue[w..], level - n, high, n, c, last);
      SpanStep(PullsToDrain(v.phase, level - n, high, n), w);
      JoinDrain(queue, w, DrainOutput(v.phase, queue[w..], level - n, high, n, c, last));
    }
  }

  lemma JoinDrain(queue: seq<i32>, w: nat, rest: seq<i32>)
    requires w <= |queue| <= w + |rest| && rest == queue[w..] + Silence(|rest| - (|queue| - w))
    ensures queue[..w] + Silence(0) + rest == queue[..w] + rest == queue + Silence(w + |rest| - |queue|)
  {
  }

  lemma EndingBlock(queue: seq<i32>, v: Verdict, n: u32, c: nat, last: seq<i32>)
    requires !v.phase.Underrun? && v.take <= n && Span(v.take, c) <= |queue| && c <= |last|
    ensures Block(queue, v, n, c, last) == queue[..Span(v.take, c)] + Silence(Span(n - v.take, c))
  {
  }

  function InitCode(capacity: u32, format: Format, high: u32): int {
    if !FormatValid(format) || capacity < 2 || capacity > 0x7fff_ffff || !IsPow2(capacity) || high == 0 || high > capacity then INVALID else OK
  }

  // The fill level as eaf_reservoir_level reads it from two separate loads.
  function ClampedLevel(write: u32, read: u32, capacity: u32): u32 {
    Min(Sub32(write, read), capacity)
  }

  class Reservoir {
    const storage: array<i32>
    const capacity: u32
    const highWatermark: u32
    const backpressureLow: u32
    const backpressureHigh: u32
    const format: Format
    var readCursor: u32
    var writeCursor: u32
    var finished: u32
    var phase: Phase
    var underruns: u32
    var framesRead: u64
    var last: seq<i32>
    var wakesProducer: bool

    // Every sample accepted since the last reset, split into those consumed and those still
    // queued, with the frame counts of both parts.
    ghost var delivered: seq<i32>
    ghost var queue: seq<i32>
    ghost var consumed: nat
    ghost var queued: nat

    ghost predicate Valid()
      reads this, storage
    {
      && RingShape(storage, capacity, format.channels)
      && backpressureLow == capacity / 2 && backpressureHigh == capacity - capacity / 10
      && 0 < highWatermark <= capacity
      && readCursor == Wrap(consumed, TWO32) && writeCursor == Wrap(consumed + queued, TWO32)
      && queued <= capacity
      && |delivered| == Span(consumed, format.channels) && |queue| == Span(queued, format.channels)
      && Holds(storage[..], |delivered|, queue)
      && |last| == MAX_CHANNELS
      && (phase.Drained? ==> finished != 0)
    }

    constructor (storage: array<i32>, capacity: u32, format: Format, high: u32)
      requires InitCode(capacity, format, high) == OK && storage.Length == Span(capacity, format.channels)
      ensures Valid() && queue == [] && delivered == [] && queued == 0 && phase == Prebuffering && finished == 0
      ensures this.storage == storage && this.capacity == capacity && this.format == format && highWatermark == high
      ensures framesRead == 0 && underruns == 0 && !wakesProducer
    {
      this.storage := storage;
      this.capacity := capacity;
      this.highWatermark := high;
      this.backpressureLow := capacity / 2;
      this.backpressureHigh := capacity - capacity / 10;
      this.format := format;
      readCursor, writeCursor, finished := 0, 0, 0;
      phase, underruns, framesRead := Prebuffering, 0, 0;
      last := [0, 0, 0, 0];
      wakesProducer := false;
      delivered, queue, consumed, queued := [], [], 0, 0;
    }

    method Reset()
      requires Valid()
      modifies this
      ensures Valid() && queue == [] && delivered == [] && queued == 0
      ensures finished == 0 && phase == Prebuffering && underruns == 0 && framesRead == 0 && last == [0, 0, 0, 0]
      ensures wakesProducer == old(wakesProducer)
    {
      readCursor, writeCursor, finished := 0, 0, 0;
      phase, underruns, framesRead := Prebuffering, 0, 0;
      last := [0, 0, 0, 0];
      delivered, queue, consumed, queued := [], [], 0, 0;
    }

    method Level() returns (level: u32)
      requires Valid()
      ensures level == queued
    {
      hide Wrap, Span, IsPow2;
      WrappedDistance(consumed + queued, consumed);
      level := ClampedLevel(writeCursor, readCursor, capacity);
    }

    method Backpressure() returns (b: bool)
      requires Valid()
      ensures b <==> queued >= capacity - capacity / 10
    {
      hide Wrap, Span, IsPow2;
      var level := Level();
      b := level >= backpressureHigh;
    }

    method Write(src: seq<i32>, frames: u32) returns (n: u32)
      requires Valid() && |src| >= Span(frames, format.channels)
      modifies this`writeCursor, this`queue, this`queued, storage
      ensures Valid()
      ensures n == if finished != 0 then 0 else Min(frames, capacity - old(queued))
      ensures Span(n, format.channels) <= |src| && queued == old(queued) + n
      ensures queue == old(queue) + src[..Span(n, format.channels)]
    {
      hide Wrap, IsPow2;
      if finished != 0 {
        return 0;
      }
      WrappedDistance(consumed + queued, consumed);
      var available := capacity - Sub32(writeCursor, readCursor);
      n := frames;
      if n > available {
        n := available;
      }
      SpanLe(n, frames, format.channels);
      Append(src, n);
    }

    // Stores n frames behind the write cursor, then publishes them.
    method Append(src: seq<i32>, n: u32)
      requires Valid() && n <= capacity - queued && |src| >= Span(n, format.channels)
      modifies this`writeCursor, this`queue, this`queued, storage
      ensures Valid() && queued == old(queued) + n
      ensures queue == old(queue) + src[..Span(n, format.channels)]
    {
      hide Wrap, Span, IsPow2;
      SpanAdd(queued, n, format.channels);
      SpanLe(queued + n, capacity, format.channels);
      SpanAdd(consumed, queued, format.channels);
      StorageStore(storage, capacity, writeCursor, src, n, format.channels, consumed + queued);
      RingHoldsMore(old(storage[..]), storage[..], |delivered|, queue, src[..Span(n, format.channels)]);
      WrappedAdvance(consumed + queued, n);
      writeCursor := Add32(writeCursor, n);
      queue, queued := queue + src[..Span(n, format.channels)], queued + n;
    }

    // A word to the audio owner: nothing more will be written until a reset.
    method Finish()
      requires Valid()
      modifies this`finished
      ensures Valid() && finished == 1
    {
      finished := 1;
    }

    ghost function Outcome(n: u32): Verdict
      reads this
    {
      Decide(finished != 0, phase, queued, highWatermark, n)
    }

    ghost predicate Pullable(buf: Buffer)
      reads this, buf
      requires format.channels > 0
    {
      buf.samples != null && buf.frameCount != 0 && buf.frameCount <= buf.capacityFrames && buf.frameCount <= capacity
      && buf.capacitySamples / format.channels >= buf.frameCount
    }

    // Loads `take` frames to the front of a block and clears the rest.
    method Load(dst: array<i32>, take: u32, n: nat)
      requires Valid() && dst != storage && take <= queued && take <= n && Span(n, format.channels) <= dst.Length
      modifies dst
      ensures Span(take, format.channels) <= |queue| && Span(take, format.channels) <= Span(n, format.channels)
      ensures forall p :: 0 <= p < dst.Length ==>
        dst[p] == if p < Span(take, format.channels) then queue[p] else if p < Span(n, format.channels) then 0 else old(dst[p])
    {
      hide Wrap, Span, IsPow2;
      SpanLe(take, n, format.channels);
      SpanLe(take, queued, format.channels);
      StorageLoad(dst, storage, capacity, readCursor, take, format.channels, consumed);
      ClearSamples(dst, Span(take, format.channels), Span(n, format.channels));
    }

    // Advances the read cursor.
    method Retire(take: u32)
      requires Valid() && take <= queued
      modifies this`readCursor, this`framesRead, this`consumed, this`queued, this`delivered, this`queue, this`queued, this`delivered, this`queue
      ensures Valid() && Retired(take)
    {
      hide Wrap, Span, IsPow2;
      var k := Span(take, format.channels);
      SpanAdd(consumed, take, format.channels);
      SpanLe(take, queued, format.channels);
      WrappedAdvance(consumed, take);
      readCursor := Add32(readCursor, take);
      framesRead := Add64(framesRead, take);
      HeldTail(storage[..], |delivered|, queue, k);
      delivered, queue := delivered + queue[..k], queue[k..];
      consumed, queued := consumed + take, queued - take;
    }

    // `take` frames have moved from the queue to the consumer.
    twostate predicate Retired(take: u32)
      reads this
    {
      var k := Span(take, format.channels);
      && take <= old(queued) && consumed == old(consumed) + take && queued == old(queued) - take
      && k <= |old(queue)| && delivered == old(delivered) + old(queue)[..k] && queue == old(queue)[k..]
      && framesRead == Add64(old(framesRead), take)
    }

    // The block of n frames that a verdict describes.
    ghost predicate Filled(dst: array<i32>, n: nat, queue: seq<i32>, v: Verdict, last: seq<i32>)
      reads dst
    {
      && v.take <= n && Span(v.take, format.channels) <= |queue| && format.channels <= |last|
      && Span(n, format.channels) <= dst.Length
      && dst[..Span(n, format.channels)] == Block(queue, v, n, format.channels, last)
    }

    // Samples past the block are not touched.
    twostate predicate Kept(dst: array<i32>, n: nat)
      reads dst
    {
      forall p :: Span(n, format.channels) <= p < dst.Length ==> dst[p] == old(dst[p])
    }

    // What every successful pull of n frames does to the queue and its counters.
    twostate predicate Pulled(n: u32)
      reads this
    {
      && Retired(old(Outcome(n)).take)
      && phase == old(Outcome(n)).phase
      && underruns == (if old(Outcome(n)).phase.Underrun? then Add32(old(underruns), 1) else old(underruns))
    }

    method PullEnding(dst: array<i32>, n: u32) returns (flags: u32)
      requires Valid() && finished != 0 && dst != storage && Span(n, format.channels) <= dst.Length
      modifies this`readCursor, this`framesRead, this`consumed, this`queued, this`delivered, this`queue, this`phase, dst
      ensures Valid() && Pulled(n) && flags == old(Outcome(n)).flags
      ensures Filled(dst, n, old(queue), old(Outcome(n)), last) && Kept(dst, n)
    {
      hide Wrap, Span, IsPow2;
      WrappedDistance(consumed + queued, consumed);
      var available := Sub32(writeCursor, readCursor);
      var take := Min(available, n);
      SpanLe(take, n, format.channels);
      Load(dst, take, n);
      Retire(take);
      phase := if available <= n then Drained else Streaming;
      flags := 0;
      if take == 0 {
        flags := flags + FLAG_SILENCE;
      }
      if phase.Drained? {
        flags := flags + FLAG_EOS;
      }
    }

    // The history kept for the next ramp.
    ghost function LastAfter(n: u32): seq<i32>
      requires |last| == MAX_CHANNELS && format.channels <= MAX_CHANNELS
      reads this
    {
      var v := Outcome(n);
      if finished != 0 || v.phase.Prebuffering? || v.phase.Drained? then last
      else if v.phase.Underrun? then [0, 0, 0, 0]
      else if Span(n, format.channels) <= |queue| then RampFrom(queue, n, format.channels, last) + last[format.channels..]
      else last
    }

    /** What is remembered for the next ramp: the last frame of a full block, silence after an underrun, and what
        was remembered before when nothing was played or the stream is ending. */
    lemma HistoryIsTheLastFrame(n: u32)
      requires Valid() && n > 0
      ensures finished == 0 && Outcome(n).phase.Streaming? ==> var c := format.channels;
        c * n <= |queue| && LastAfter(n) == queue[c * (n - 1)..c * n] + last[c..]
      ensures finished == 0 && Outcome(n).phase.Underrun? ==> LastAfter(n) == [0, 0, 0, 0]
      ensures finished != 0 || Outcome(n).phase.Prebuffering? ==> LastAfter(n) == last
    {
      hide Wrap, IsPow2;
      var c := format.channels;
      SpanIsProduct(n, c);
      SpanIsProduct(n - 1, c);
      SpanLe(n, Max(n, queued), c);
    }

    // Fills a block while streaming and returns the history for the next one.
    method FillStreaming(dst: array<i32>, take: u32, n: u32) returns (history: seq<i32>)
      requires Valid() && dst != storage && 0 < n && Span(n, format.channels) <= dst.Length && take == Min(queued, n)
      modifies dst
      ensures Filled(dst, n, queue, Verdict(take, if take < n then Underrun else Streaming, 0), last) && Kept(dst, n)
      ensures history == if take < n then [0, 0, 0, 0] else RampFrom(queue, n, format.channels, last) + last[format.channels..]
    {
      hide Wrap, Span, IsPow2;
      Load(dst, take, n);
      history := CompleteBlock(dst, take, n, format.channels, last, queue);
    }

    // The branch of a pull that plays: queued frames, then the ramp if they run out.
    method PullStreaming(dst: array<i32>, n: u32, take: u32) returns (flags: u32)
      requires Valid() && finished == 0 && dst != storage && 0 < n && Span(n, format.channels) <= dst.Length
      requires phase.Streaming? && take == Min(queued, n)
      modifies this`readCursor, this`framesRead, this`consumed, this`queued, this`delivered, this`queue, this`phase, this`last, this`underruns, dst
      ensures Valid() && Pulled(n) && flags == old(Outcome(n)).flags && last == old(LastAfter(n))
      ensures Filled(dst, n, old(queue), old(Outcome(n)), old(last)) && Kept(dst, n)
    {
      hide Wrap, Span, IsPow2;
      var history := FillStreaming(dst, take, n);
      Retire(take);
      last := history;
      flags := 0;
      if take < n {
        phase := Underrun;
        underruns := Add32(underruns, 1);
        flags := FLAG_UNDERRUN;
      }
    }

    // The branch of a pull that is still waiting for the watermark.
    method PullSilent(dst: array<i32>, n: u32)
      requires Valid() && dst != storage && Span(n, format.channels) <= dst.Length && Outcome(n).take == 0 && !Outcome(n).phase.Underrun?
      modifies dst
      ensures Filled(dst, n, queue, Outcome(n), last) && Kept(dst, n)
    {
      ClearSamples(dst, 0, Span(n, format.channels));
    }

    // Fills n frames of a block; also reports whether the producer was woken.
    method PullBlock(dst: array<i32>, n: u32) returns (flags: u32, woke: bool)
      requires Valid() && dst != storage && 0 < n && Span(n, format.channels) <= dst.Length
      modifies this`readCursor, this`framesRead, this`consumed, this`queued, this`delivered, this`queue, this`phase, this`last, this`underruns, dst
      ensures Valid() && Pulled(n) && flags == old(Outcome(n)).flags && last == old(LastAfter(n))
      ensures Filled(dst, n, old(queue), old(Outcome(n)), old(last)) && Kept(dst, n)
      ensures woke <==> finished == 0 && queued < backpressureLow && wakesProducer
    {
      hide Wrap, Span, IsPow2, Block;
      SpanZero(format.channels);
      if finished != 0 {
        flags := PullEnding(dst, n);
        return flags, false;
      }
      WrappedDistance(consumed + queued, consumed);
      var available := Sub32(writeCursor, readCursor);
      if phase.Underrun? || (phase.Prebuffering? && available >= highWatermark && available >= n) {
        phase := Streaming;
      }
      if phase.Streaming? {
        var take := Min(available, n);
        flags := PullStreaming(dst, n, take);
        available := available - take;
      } else {
        PullSilent(dst, n);
        flags := FLAG_SILENCE;
      }
      woke := available < backpressureLow && wakesProducer;
    }

    method Pull(buf: Buffer) returns (rc: int, woke: bool)
      requires Valid()
      requires buf.samples != null ==> buf.samples != storage && buf.capacitySamples <= buf.samples.Length
      modifies this`readCursor, this`framesRead, this`consumed, this`queued, this`delivered, this`queue, this`phase, this`last, this`underruns
      modifies buf`format, buf`flags, if buf.samples == null then {} else {buf.samples}
      ensures Valid()
      ensures rc == if buf.samples != null && 0 < buf.frameCount <= buf.capacityFrames && buf.frameCount <= capacity
        && buf.frameCount <= buf.capacitySamples / format.channels then OK else INVALID
      ensures rc != OK ==> unchanged(this) && unchanged(buf) && !woke
      ensures rc != OK && buf.samples != null ==> unchanged(buf.samples)
      ensures rc == OK ==> Pulled(buf.frameCount) && buf.flags == old(Outcome(buf.frameCount)).flags && buf.format == format
      ensures rc == OK ==> (woke <==> finished == 0 && queued < backpressureLow && wakesProducer)
      ensures rc == OK ==> Filled(buf.samples, buf.frameCount, old(queue), old(Outcome(buf.frameCount)), old(last))
      ensures rc == OK ==> Kept(buf.samples, buf.frameCount) && last == old(LastAfter(buf.frameCount))
      ensures rc == OK && finished == 0 && old(phase).Prebuffering? ==>
        if old(queued) >= highWatermark && old(queued) >= buf.frameCount then
          old(queued) - queued == buf.frameCount && phase.Streaming? && buf.flags == 0 && underruns == old(underruns)
        else queued == old(queued) && phase.Prebuffering? && buf.flags == FLAG_SILENCE && underruns == old(underruns)
      ensures rc == OK && finished == 0 && (old(phase).Streaming? || old(phase).Underrun?) ==>
        if old(queued) >= buf.frameCount then
          old(queued) - queued == buf.frameCount && phase.Streaming? && buf.flags == 0 && underruns == old(underruns)
        else queued == 0 && phase.Underrun? && buf.flags == FLAG_UNDERRUN && underruns == Add32(old(underruns), 1)
      ensures rc == OK && finished != 0 ==>
        && queued == Max(0, old(queued) - buf.frameCount) && phase == (if old(queued) <= buf.frameCount then Drained else Streaming)
        && buf.flags == (if old(queued) == 0 then FLAG_SILENCE else 0) + (if old(queued) <= buf.frameCount then FLAG_EOS else 0)
        && underruns == old(underruns)
      ensures rc == OK ==> var k := Span(old(queued) - queued, format.channels);
        && k <= |old(queue)| && k <= Span(buf.frameCount, format.channels) <= buf.samples.Length
        && queue == old(queue)[k..] && buf.samples[..k] == old(queue)[..k]
        && (!phase.Underrun? ==> forall p :: k <= p < Span(buf.frameCount, format.channels) ==> buf.samples[p] == 0)
    {
      hide Wrap, Span, IsPow2;
      if buf.samples == null || buf.frameCount == 0 || buf.frameCount > buf.capacityFrames || buf.frameCount > capacity ||
         buf.capacitySamples / format.channels < buf.frameCount {
        return INVALID, false;
      }
      DivRoom(buf.capacitySamples, format.channels, buf.frameCount);
      buf.format := format;
      var flags: u32;
      flags, woke := PullBlock(buf.samples, buf.frameCount);
      buf.flags := flags;
      rc := OK;
    }
  }

  lemma DivRoom(room: nat, c: nat, n: nat)
    requires c > 0 && room / c >= n
    ensures Span(n, c) <= room
  {
    MulLe(n, room / c, c);
    SpanIsProduct(n, c);
  }
}
