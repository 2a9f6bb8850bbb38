/** platform/esp32_output/board_output.c: the volume mailbox between the transport thread, which writes a pair
    of gains, and the audio worker, which reads a pair once per block. One step is one atomic access. */
module GainMailbox {
  import opened Common

  type Pair = (i32, i32)

  datatype Writer = Idle | Begun(pair: Pair) | LeftStored(pair: Pair) | RightStored(pair: Pair)

  // The reader remembers the sequence number it saw; `at` is how many increments had been made then.
  datatype Reader = Away | Saw(at: nat) | HasLeft(at: nat, left: i32) | HasBoth(at: nat, left: i32, right: i32)

  // `count` is the number of increments ever made; the sequence word holds its low 32 bits. `pairs` lists
  // every pair a call has written or is writing, the initial one first.
  datatype State = State(
    count: nat, left: i32, right: i32, writer: Writer, reader: Reader, gains: Pair, pairs: seq<Pair>)

  datatype Step = SetVolume(pair: Pair) | Write | Read

  const UNITY: Pair := (INT32_MAX, INT32_MAX)

  function Sequence(count: nat): u32 {
    count % TWO32
  }

  function OnWrite(s: State): State {
    match s.writer
    case Idle => s
    case Begun(pair) => s.(left := pair.0, writer := LeftStored(pair))
    case LeftStored(pair) => s.(right := pair.1, writer := RightStored(pair))
    case RightStored(pair) => s.(count := s.count + 1, writer := Idle)
  }

  // apply_volume: an odd or changed sequence leaves the gains alone until the next block.
  function OnRead(s: State): State {
    match s.reader
    case Away => if Sequence(s.count) % 2 == 1 then s else s.(reader := Saw(s.count))
    case Saw(at) => s.(reader := HasLeft(at, s.left))
    case HasLeft(at, left) => s.(reader := HasBoth(at, left, s.right))
    case HasBoth(at, left, right) =>
      if Sequence(at) != Sequence(s.count) then s.(reader := Away) else s.(reader := Away, gains := (left, right))
  }

  // set_volume starts by making the sequence odd.
  function Next(s: State, step: Step): State {
    match step
    case SetVolume(pair) =>
      if s.writer != Idle then s else s.(count := s.count + 1, writer := Begun(pair), pairs := s.pairs + [pair])
    case Write => OnWrite(s)
    case Read => OnRead(s)
  }

  const START: State := State(0, INT32_MAX, INT32_MAX, Idle, Away, UNITY, [UNITY])

  // While no increment has happened since the reader looked, the words it read are those of one call.
  ghost predicate ReadTogether(s: State) {
    match s.reader
    case Away => true
    case Saw(at) => at <= s.count && at % 2 == 0 && at / 2 < |s.pairs|
    case HasLeft(at, left) => at <= s.count && at % 2 == 0 && at / 2 < |s.pairs| && (at == s.count ==> left == s.pairs[at / 2].0)
    case HasBoth(at, left, right) =>
      at <= s.count && at % 2 == 0 && at / 2 < |s.pairs| && (at == s.count ==> (left, right) == s.pairs[at / 2])
  }

  ghost predicate WrittenInTurn(s: State) {
    && |s.pairs| == (s.count + 1) / 2 + 1
    && (s.writer == Idle <==> s.count % 2 == 0)
    && (s.writer == Idle ==> (s.left, s.right) == s.pairs[s.count / 2])
    && (s.writer != Idle ==> s.writer.pair == s.pairs[|s.pairs| - 1])
    && (s.writer.LeftStored? || s.writer.RightStored? ==> s.left == s.writer.pair.0)
    && (s.writer.RightStored? ==> s.right == s.writer.pair.1)
  }

  ghost predicate Inv(s: State) {
    WrittenInTurn(s) && ReadTogether(s) && s.gains in s.pairs
  }

  // Fewer than 2^31 calls since the reader looked.
  ghost predicate Timely(s: State) {
    match s.reader
    case Away => true
    case Saw(at) => s.count - at < TWO32
    case HasLeft(at, left) => s.count - at < TWO32
    case HasBoth(at, left, right) => s.count - at < TWO32
  }

  lemma SequenceParity(count: nat)
    ensures Sequence(count) % 2 == count % 2
  {
    var q := count / TWO32;
    assert count == TWO32 * q + Sequence(count);
  }

  lemma SequenceDistinguishes(a: nat, b: nat)
    requires a <= b && b - a < TWO32 && Sequence(a) == Sequence(b)
    ensures a == b
  {
    var p, q := a / TWO32, b / TWO32;
    assert a == TWO32 * p + Sequence(a) && b == TWO32 * q + Sequence(b);
    assert b - a == TWO32 * (q - p);
  }

  lemma WriteKeepsInv(s: State)
    requires Inv(s)
    ensures Inv(OnWrite(s))
  {
    var t := OnWrite(s);
    assert t.pairs == s.pairs;
  }

  lemma SetKeepsInv(s: State, pair: Pair)
    requires Inv(s)
    ensures Inv(Next(s, SetVolume(pair)))
  {
    var t := Next(s, SetVolume(pair));
    assert t.pairs == s.pairs || t.pairs == s.pairs + [pair];
  }

  lemma ReadKeepsInv(s: State)
    requires Inv(s) && Timely(s)
    ensures Inv(OnRead(s))
  {
    hide Sequence;
    SequenceParity(s.count);
    if s.reader.HasBoth? && Sequence(s.reader.at) == Sequence(s.count) {
      SequenceDistinguishes(s.reader.at, s.count);
    }
  }

  function Run(s: State, steps: seq<Step>): State
    decreases |steps|
  {
    if steps == [] then s else Run(Next(s, steps[0]), steps[1..])
  }

  ghost predicate TimelyRun(s: State, steps: seq<Step>)
    decreases |steps|
  {
    Timely(s) && (steps == [] || TimelyRun(Next(s, steps[0]), steps[1..]))
  }

  lemma {:induction false} RunKeepsInv(s: State, steps: seq<Step>)
    requires Inv(s) && TimelyRun(s, steps)
    ensures Inv(Run(s, steps))
    decreases |steps|
  {
    hide Inv, Timely, OnRead, OnWrite;
    if steps != [] {
      match steps[0] {
        case SetVolume(pair) => SetKeepsInv(s, pair);
        case Write => WriteKeepsInv(s);
        case Read => ReadKeepsInv(s);
      }
      RunKeepsInv(Next(s, steps[0]), steps[1..]);
    }
  }

  // Step i is a call with this pair that really began: no other call was under way.
  predicate Began(s: State, steps: seq<Step>, i: nat, pair: Pair) {
    i < |steps| && steps[i] == SetVolume(pair) && Run(s, steps[..i]).writer == Idle
  }

  lemma {:induction false} PairsBegan(s: State, steps: seq<Step>, pair: Pair)
    requires pair in Run(s, steps).pairs && pair !in s.pairs
    ensures exists i: nat :: Began(s, steps, i, pair)
    decreases |steps|
  {
    hide OnRead, OnWrite;
    var t := Next(s, steps[0]);
    if pair in t.pairs {
      StepPairs(s, steps[0]);
      assert Began(s, steps, 0, pair);
    } else {
      PairsBegan(t, steps[1..], pair);
      var i: nat :| Began(t, steps[1..], i, pair);
      assert steps[..i + 1][1..] == steps[1..][..i];
      assert Began(s, steps, i + 1, pair);
    }
  }

  lemma StepPairs(s: State, step: Step)
    ensures forall p :: p in Next(s, step).pairs ==> p in s.pairs || (step == SetVolume(p) && s.writer == Idle)
  {
  }

  /** In every interleaving the gains in force are unity or both come from one and the same set_volume call, one
      that began. */
  lemma GainsComeFromOneCall(steps: seq<Step>)
    requires TimelyRun(START, steps)
    ensures var g := Run(START, steps).gains;
      g in Run(START, steps).pairs && (g == UNITY || exists i: nat :: Began(START, steps, i, g))
  {
    hide Timely, OnRead, OnWrite, Run, Began;
    RunKeepsInv(START, steps);
    var g := Run(START, steps).gains;
    if g != UNITY {
      PairsBegan(START, steps, g);
    }
  }

  /** A pair that has been written whole, with no call since, is what the next read applies. */
  lemma QuietReadApplies(s: State)
    requires Inv(s) && s.writer == Idle && s.reader == Away
    ensures Run(s, [Read, Read, Read, Read]).gains == s.pairs[|s.pairs| - 1]
    ensures Run(s, [Read, Read, Read, Read]).reader == Away
  {
    hide Sequence;
    SequenceParity(s.count);
    var s1 := Next(s, Read);
    var s2 := Next(s1, Read);
    var s3 := Next(s2, Read);
    assert [Read, Read, Read, Read][1..] == [Read, Read, Read] && [Read, Read, Read][1..] == [Read, Read] && [Read, Read][1..] == [Read];
    assert Run(s, [Read, Read, Read, Read]) == Run(s1, [Read, Read, Read]);
    assert Run(s1, [Read, Read, Read]) == Run(s2, [Read, Read]);
    assert Run(s2, [Read, Read]) == Run(s3, [Read]);
    assert [Read][1..] == [];
    assert Run(s3, [Read]) == Run(Next(s3, Read), []);
  }

  // One whole set_volume call.
  function Call(pair: Pair): seq<Step> {
    [SetVolume(pair), Write, Write, Write]
  }

  function Calls(pair: Pair, n: nat): seq<Step>
    decreases n
  {
    if n == 0 then [] else Call(pair) + Calls(pair, n - 1)
  }

  lemma {:induction false} RunAdd(s: State, a: seq<Step>, b: seq<Step>)
    ensures Run(s, a + b) == Run(Run(s, a), b)
    decreases |a|
  {
    hide Next;
    if a == [] {
      assert a + b == b;
    } else {
      RunAdd(Next(s, a[0]), a[1..], b);
      assert (a + b)[1..] == a[1..] + b;
    }
  }

  lemma OneCall(s: State, pair: Pair)
    requires s.writer == Idle
    ensures Run(s, Call(pair)) == s.(count := s.count + 2, left := pair.0, right := pair.1, pairs := s.pairs + [pair])
  {
    hide OnRead;
    var c := Call(pair);
    var s1 := Next(s, c[0]);
    var s2 := Next(s1, c[1]);
    var s3 := Next(s2, c[2]);
    assert c[1..][0] == Write && c[1..][1..][0] == Write && c[1..][1..][1..] == [Write];
    assert Run(s, c) == Run(s1, c[1..]) == Run(s2, c[1..][1..]) == Run(s3, [Write]);
    assert [Write][1..] == [];
    assert Run(s3, [Write]) == Run(Next(s3, Write), []);
  }

  lemma {:induction false} ManyCalls(s: State, pair: Pair, n: nat)
    requires s.writer == Idle && n > 0
    ensures var t := Run(s, Calls(pair, n));
      t.count == s.count + 2 * n && t.left == pair.0 && t.right == pair.1 && t.reader == s.reader && t.writer == Idle && t.gains == s.gains
    decreases n
  {
    hide Next, Call;
    RunAdd(s, Call(pair), Calls(pair, n - 1));
    OneCall(s, pair);
    if n > 1 {
      ManyCalls(Run(s, Call(pair)), pair, n - 1);
    } else {
      assert Calls(pair, 0) == [];
    }
  }

  /** The last volume set is applied: once a call has run to its end, the next undisturbed read has its pair. */
  lemma LastCallIsApplied(s: State, pair: Pair)
    requires Inv(s) && s.writer == Idle && s.reader == Away
    ensures Run(s, Call(pair) + [Read, Read, Read, Read]).gains == pair
  {
    hide Next, Call, Inv;
    OneCall(s, pair);
    RunAdd(s, Call(pair), [Read, Read, Read, Read]);
    CallKeepsInv(s, pair);
    QuietReadApplies(Run(s, Call(pair)));
  }

  lemma CallKeepsInv(s: State, pair: Pair)
    requires Inv(s) && s.writer == Idle && s.reader == Away
    ensures Inv(Run(s, Call(pair)))
  {
    hide Next, Call;
    OneCall(s, pair);
    var t := Run(s, Call(pair));
    assert t.pairs == s.pairs + [pair];
  }

  /** The bound is needed: with 2^31 calls inside one read the sequence word comes round, and the left gain of
      one call is applied with the right gain of another. */
  lemma TornAfterWrap()
    ensures exists steps: seq<Step> :: var g := Run(START, steps).gains; g != UNITY && SetVolume(g) !in steps
  {
    hide Next, Calls;
    var quiet: Pair := (0, 0);
    var n := 0x8000_0000;
    var steps := [Read, Read] + Calls(quiet, n) + [Read, Read];
    var s := START.(reader := HasLeft(0, INT32_MAX));
    TwoReads();
    RunAdd(START, [Read, Read] + Calls(quiet, n), [Read, Read]);
    RunAdd(START, [Read, Read], Calls(quiet, n));
    ManyCalls(s, quiet, n);
    var t := Run(s, Calls(quiet, n));
    LastReads(t);
    OnlyQuiet(quiet, n, (INT32_MAX, 0));
    assert Run(START, steps).gains == (INT32_MAX, 0);
    assert SetVolume((INT32_MAX, 0)) !in steps;
  }

  lemma TwoReads()
    ensures Run(START, [Read, Read]) == START.(reader := HasLeft(0, INT32_MAX))
  {
    assert [Read, Read][1..] == [Read] && [Read][1..] == [];
    assert Run(START, [Read, Read]) == Run(Next(START, Read), [Read]);
    assert Run(Next(START, Read), [Read]) == Run(Next(Next(START, Read), Read), []);
  }

  lemma LastReads(t: State)
    requires t.reader == HasLeft(0, INT32_MAX) && t.count == TWO32 && t.right == 0
    ensures Run(t, [Read, Read]).gains == (INT32_MAX, 0)
  {
    assert [Read, Read][1..] == [Read] && [Read][1..] == [];
    var t1 := Next(t, Read);
    assert Sequence(TWO32) == 0 && Sequence(0) == 0;
    assert Run(t, [Read, Read]) == Run(t1, [Read]);
    assert Run(t1, [Read]) == Run(Next(t1, Read), []);
  }

  lemma {:induction false} OnlyQuiet(pair: Pair, n: nat, other: Pair)
    requires other != pair
    ensures SetVolume(other) !in Calls(pair, n)
    decreases n
  {
    if n > 0 {
      OnlyQuiet(pair, n - 1, other);
    }
  }
}
