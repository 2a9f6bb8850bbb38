/** The reservoir between two threads. One step is one atomic load, one copied frame or one
    publication, in any interleaving. A load of the other side's cursor may return any value
    published since the last one seen (release/acquire, not only sequential consistency); seeing
    `finished` makes everything published before it visible. */
module SpscSteps {
  import opened Common
  import opened RingArithmetic
  import opened Reservoirs

  datatype RawConfig = Config(capacity: u32, high: u32)

  // What eaf_reservoir_init accepts.
  predicate Sound(c: RawConfig) {
    IsPow2(c.capacity) && 2 <= c.capacity <= 0x7fff_ffff && 0 < c.high <= c.capacity
  }

  type Config = c: RawConfig | Sound(c) witness Config(2, 1)

  // Where the producer is inside eaf_reservoir_write.
  datatype Producer<T> =
    | Idle
    | Checked(src: seq<T>)                                  // finished was loaded and is clear
    | GotWrite(src: seq<T>, write: u32)                     // write cursor loaded
    | Storing(src: seq<T>, write: u32, n: u32, done: set<nat>)  // read cursor loaded, frames being stored

  // Where the consumer is inside eaf_reservoir_pull.
  datatype Consumer<T> =
    | Resting
    | GotFinished(n: u32, finished: bool)                   // finished loaded first
    | GotRead(n: u32, finished: bool, read: u32)            // then the read cursor
    | Loading(n: u32, finished: bool, read: u32, verdict: Verdict, got: map<nat, T>)  // then the write cursor

  datatype State<T> = State(
    slots: seq<T>, readCursor: u32, writeCursor: u32, finished: bool,
    producer: Producer<T>, consumer: Consumer<T>, phase: Phase, underruns: nat,
    // History: frames accepted and handed out, and the newest positions each side has observed.
    accepted: seq<T>, delivered: seq<T>, seenRead: nat, seenWrite: nat, ended: bool)

  datatype Action<T> =
    | WriteCall(src: seq<T>)
    | LoadOwnWrite
    | LoadRead(position: nat)
    | StoreFrame(k: nat)
    | PublishWrite
    | FinishCall
    | PullCall(n: u32, sawFinished: bool)
    | LoadOwnRead
    | LoadWrite(position: nat)
    | LoadFrame(k: nat)
    | PublishRead

  // Slot of the k-th frame of a copy that starts at a cursor and is cut at the end of the ring.
  function CopySlot(c: Config, cursor: u32, k: nat): int {
    var slot := BitAnd(cursor, c.capacity - 1);
    if k < c.capacity - slot then slot + k else k - (c.capacity - slot)
  }

  predicate Enabled<T>(c: Config, s: State<T>, a: Action<T>) {
    match a
    case WriteCall(src) => s.producer.Idle? && |src| < TWO32
    case LoadOwnWrite => s.producer.Checked?
    case LoadRead(position) => s.producer.GotWrite? && s.seenRead <= position <= |s.delivered|
    case StoreFrame(k) => s.producer.Storing? && k < s.producer.n && k !in s.producer.done && 0 <= CopySlot(c, s.producer.write, k) < |s.slots|
    case PublishWrite => s.producer.Storing? && forall k: nat :: k < s.producer.n ==> k in s.producer.done
    case FinishCall => s.producer.Idle?
    case PullCall(n, saw) => s.consumer.Resting? && 0 < n <= c.capacity && (saw ==> s.finished)
    case LoadOwnRead => s.consumer.GotFinished?
    case LoadWrite(position) => s.consumer.GotRead? && s.seenWrite <= position <= |s.accepted|
    case LoadFrame(k) => s.consumer.Loading? && k < s.consumer.verdict.take && k !in s.consumer.got && 0 <= CopySlot(c, s.consumer.read, k) < |s.slots|
    case PublishRead => s.consumer.Loading? && forall k: nat :: k < s.consumer.verdict.take ==> k in s.consumer.got
  }

  function Apply<T>(c: Config, s: State<T>, a: Action<T>): State<T>
    requires Enabled(c, s, a)
  {
    match a
    case WriteCall(src) => if s.finished then s else s.(producer := Checked(src))
    case LoadOwnWrite => s.(producer := GotWrite(s.producer.src, s.writeCursor))
    case LoadRead(position) =>
      var available := Sub32(c.capacity, Sub32(s.producer.write, Wrap(position, TWO32)));
      s.(producer := Storing(s.producer.src, s.producer.write, Min(|s.producer.src|, available), {}), seenRead := position)
    case StoreFrame(k) =>
      if k < |s.producer.src| then
        s.(slots := s.slots[CopySlot(c, s.producer.write, k) := s.producer.src[k]],
           producer := s.producer.(done := s.producer.done + {k}))
      else s
    case PublishWrite =>
      s.(writeCursor := Add32(s.producer.write, s.producer.n),
         accepted := s.accepted + s.producer.src[..Min(s.producer.n, |s.producer.src|)], producer := Idle)
    case FinishCall => s.(finished := true)
    case PullCall(n, saw) =>
      s.(consumer := GotFinished(n, saw), seenWrite := if saw then |s.accepted| else s.seenWrite)
    case LoadOwnRead => s.(consumer := GotRead(s.consumer.n, s.consumer.finished, s.readCursor))
    case LoadWrite(position) =>
      var available := Sub32(Wrap(position, TWO32), s.consumer.read);
      var v := Decide(s.consumer.finished, s.phase, available, c.high, s.consumer.n);
      s.(consumer := Loading(s.consumer.n, s.consumer.finished, s.consumer.read, v, map[]), seenWrite := position)
    case LoadFrame(k) =>
      s.(consumer := s.consumer.(got := s.consumer.got[k := s.slots[CopySlot(c, s.consumer.read, k)]]))
    case PublishRead =>
      var v := s.consumer.verdict;
      var got := s.consumer.got;
      s.(readCursor := Add32(s.consumer.read, v.take),
         delivered := s.delivered + seq(v.take, k requires 0 <= k < v.take => got[k]),
         phase := v.phase, underruns := s.underruns + (if v.phase.Underrun? then 1 else 0),
         ended := s.ended || HasEos(v), consumer := Resting)
  }

  predicate HasEos(v: Verdict) {
    v.flags >= FLAG_EOS
  }

  predicate Start<T>(c: Config, s: State<T>) {
    |s.slots| == c.capacity && s.readCursor == s.writeCursor == 0 && !s.finished && s.producer.Idle? && s.consumer.Resting?
    && s.phase.Prebuffering? && s.underruns == 0 && s.accepted == [] && s.delivered == []
    && s.seenRead == s.seenWrite == 0 && !s.ended
  }

  // A run: every action is enabled where it happens.
  function Run<T>(c: Config, s: State<T>, actions: seq<Action<T>>): Option<State<T>>
    decreases |actions|
  {
    if actions == [] then Some(s)
    else if Enabled(c, s, actions[0]) then Run(c, Apply(c, s, actions[0]), actions[1..])
    else None
  }

  ghost predicate ProducerInv<T>(c: Config, s: State<T>)
    requires |s.slots| == c.capacity
  {
    var w := |s.accepted|;
    && (s.finished ==> s.producer.Idle?)
    && (s.producer.GotWrite? ==> s.producer.write == s.writeCursor)
    && (s.producer.Storing? ==>
         && s.producer.write == s.writeCursor && s.producer.n <= |s.producer.src| && w + s.producer.n <= s.seenRead + c.capacity
         && forall k :: k in s.producer.done ==> k < s.producer.n && s.slots[Wrap(w + k, c.capacity)] == s.producer.src[k])
  }

  ghost predicate ConsumerInv<T>(c: Config, s: State<T>)
    requires |s.delivered| <= s.seenWrite <= |s.accepted|
  {
    var r := |s.delivered|;
    && (s.consumer.GotFinished? ==> 0 < s.consumer.n && (s.consumer.finished ==> s.finished && s.seenWrite == |s.accepted|))
    && (s.consumer.GotRead? ==> 0 < s.consumer.n && s.consumer.read == s.readCursor && (s.consumer.finished ==> s.finished && s.seenWrite == |s.accepted|))
    && (s.consumer.Loading? ==>
         && 0 < s.consumer.n && s.consumer.read == s.readCursor && (s.consumer.finished ==> s.finished && s.seenWrite == |s.accepted|)
         && s.consumer.verdict == Decide(s.consumer.finished, s.phase, s.seenWrite - r, c.high, s.consumer.n)
         && forall k :: k in s.consumer.got ==> k < s.consumer.verdict.take && r + k < |s.accepted| && s.consumer.got[k] == s.accepted[r + k])
  }

  // What holds between any two steps.
  ghost predicate Inv<T>(c: Config, s: State<T>) {
    var r, w := |s.delivered|, |s.accepted|;
    && |s.slots| == c.capacity
    && s.readCursor == Wrap(r, TWO32) && s.writeCursor == Wrap(w, TWO32)
    && s.seenRead <= r <= s.seenWrite <= w <= s.seenRead + c.capacity
    && s.delivered == s.accepted[..r]
    && (forall p :: r <= p < w ==> s.slots[Wrap(p, c.capacity)] == s.accepted[p])
    && (s.ended ==> s.finished && r == w)
    && ProducerInv(c, s) && ConsumerInv(c, s)
  }

  lemma CopySlotIsWrap(c: Config, pos: nat, k: nat)
    requires k < c.capacity
    ensures CopySlot(c, Wrap(pos, TWO32), k) == Wrap(pos + k, c.capacity)
  {
    CursorSlot(pos, c.capacity);
    WrapShift(pos, k, c.capacity);
  }

  // Positions less than one lap apart live in different slots.
  lemma WrapDistinct(a: nat, b: nat, m: nat)
    requires a < b < a + m
    ensures Wrap(a, m) != Wrap(b, m)
  {
    WrapShift(a, b - a, m);
  }

  lemma LoadReadKeepsInv<T>(c: Config, s: State<T>, position: nat)
    requires Inv(c, s) && Enabled(c, s, LoadRead(position))
    ensures Inv(c, Apply(c, s, LoadRead(position)))
  {
    hide Wrap, IsPow2, BitAnd, CopySlot;
    WrappedDistance(|s.accepted|, position);
  }

  lemma StoreFrameKeepsInv<T>(c: Config, s: State<T>, k: nat)
    requires Inv(c, s) && Enabled(c, s, StoreFrame(k))
    ensures Inv(c, Apply(c, s, StoreFrame(k)))
  {
    hide Wrap, IsPow2, BitAnd, CopySlot;
    var s', r, w, m := Apply(c, s, StoreFrame(k)), |s.delivered|, |s.accepted|, c.capacity;
    CopySlotIsWrap(c, w, k);
    forall p | r <= p < w + s.producer.n && p != w + k ensures Wrap(p, m) != Wrap(w + k, m) {
      if p < w + k {
        WrapDistinct(p, w + k, m);
      } else {
        WrapDistinct(w + k, p, m);
      }
    }
    assert forall j :: j in s.producer.done ==> s'.slots[Wrap(w + j, m)] == s.producer.src[j];
  }

  lemma PublishWriteKeepsInv<T>(c: Config, s: State<T>)
    requires Inv(c, s) && Enabled(c, s, PublishWrite)
    ensures Inv(c, Apply(c, s, PublishWrite))
  {
    hide Wrap, IsPow2, BitAnd, CopySlot;
    var s', w := Apply(c, s, PublishWrite), |s.accepted|;
    WrappedAdvance(w, s.producer.n);
    forall p | |s.delivered| <= p < |s'.accepted| ensures s'.slots[Wrap(p, c.capacity)] == s'.accepted[p] {
      if p >= w {
        assert p - w in s.producer.done;
      }
    }
    assert s'.accepted[..|s.delivered|] == s.accepted[..|s.delivered|];
  }

  lemma LoadWriteKeepsInv<T>(c: Config, s: State<T>, position: nat)
    requires Inv(c, s) && Enabled(c, s, LoadWrite(position))
    ensures Inv(c, Apply(c, s, LoadWrite(position)))
  {
    hide Wrap, IsPow2, BitAnd, CopySlot;
    WrappedDistance(position, |s.delivered|);
  }

  lemma LoadFrameKeepsInv<T>(c: Config, s: State<T>, k: nat)
    requires Inv(c, s) && Enabled(c, s, LoadFrame(k))
    ensures Inv(c, Apply(c, s, LoadFrame(k)))
  {
    hide Wrap, IsPow2, BitAnd, CopySlot;
    CopySlotIsWrap(c, |s.delivered|, k);
  }

  lemma PublishReadKeepsInv<T>(c: Config, s: State<T>)
    requires Inv(c, s) && Enabled(c, s, PublishRead)
    ensures Inv(c, Apply(c, s, PublishRead))
  {
    hide Wrap, IsPow2, BitAnd, CopySlot;
    var s', r, v := Apply(c, s, PublishRead), |s.delivered|, s.consumer.verdict;
    WrappedAdvance(r, v.take);
    assert forall k: nat :: k < v.take ==> k in s.consumer.got;
    assert s'.delivered == s.accepted[..r + v.take];
  }

  lemma StepKeepsInv<T>(c: Config, s: State<T>, a: Action<T>)
    requires Inv(c, s) && Enabled(c, s, a)
    ensures Inv(c, Apply(c, s, a))
  {
    hide Wrap, IsPow2, BitAnd, CopySlot;
    match a
    case LoadRead(position) => LoadReadKeepsInv(c, s, position);
    case StoreFrame(k) => StoreFrameKeepsInv(c, s, k);
    case PublishWrite => PublishWriteKeepsInv(c, s);
    case LoadWrite(position) => LoadWriteKeepsInv(c, s, position);
    case LoadFrame(k) => LoadFrameKeepsInv(c, s, k);
    case PublishRead => PublishReadKeepsInv(c, s);
    case _ =>
  }

  lemma {:induction false} RunKeepsInv<T>(c: Config, s: State<T>, actions: seq<Action<T>>)
    requires Inv(c, s) && Run(c, s, actions).Some?
    ensures Inv(c, Run(c, s, actions).value)
    decreases |actions|
  {
    hide Wrap, IsPow2, BitAnd, CopySlot;
    if actions != [] {
      StepKeepsInv(c, s, actions[0]);
      RunKeepsInv(c, Apply(c, s, actions[0]), actions[1..]);
    }
  }

  lemma StartInv<T>(c: Config, s: State<T>)
    requires Start(c, s)
    ensures Inv(c, s)
  {
  }

  // In every interleaving, what was pulled is a prefix of what was accepted, at most one ring of
  // frames is unread, and a block flagged EOS means that everything accepted has been delivered.
  lemma EveryRunDeliversAPrefix<T>(c: Config, s: State<T>, actions: seq<Action<T>>)
    requires Start(c, s) && Run(c, s, actions).Some?
    ensures var t := Run(c, s, actions).value;
      && t.delivered <= t.accepted && |t.accepted| - |t.delivered| <= c.capacity
      && (forall p :: |t.delivered| <= p < |t.accepted| ==> |t.slots| == c.capacity && t.slots[Wrap(p, c.capacity)] == t.accepted[p])
      && (t.ended ==> t.finished && t.delivered == t.accepted)
  {
    StartInv(c, s);
    RunKeepsInv(c, s, actions);
  }

  /** What a pull does when it is published, by the frames the consumer has seen and not taken: it starts a
      prebuffering reservoir exactly when the watermark and the whole block are there; one that has started gives
      what there is, and a short block is an underrun; after finish the block that empties the ring ends it. */
  lemma PublishedByTheNumbers<T>(c: Config, s: State<T>)
    requires Inv(c, s) && Enabled(c, s, PublishRead)
    ensures var t, n, seen := Apply(c, s, PublishRead), s.consumer.n, s.seenWrite - |s.delivered|;
      var taken := |t.delivered| - |s.delivered|;
      && t.delivered == s.accepted[..|s.delivered| + taken] && t.accepted == s.accepted
      && (!s.consumer.finished && s.phase.Prebuffering? ==>
        if seen >= c.high && seen >= n then taken == n && t.phase.Streaming? && t.underruns == s.underruns
        else taken == 0 && t.phase.Prebuffering? && t.underruns == s.underruns)
      && (!s.consumer.finished && (s.phase.Streaming? || s.phase.Underrun?) ==>
        if seen >= n then taken == n && t.phase.Streaming? && t.underruns == s.underruns
        else taken == seen && t.phase.Underrun? && t.underruns == s.underruns + 1)
      && (s.consumer.finished ==>
        && taken == Min(seen, n) && t.underruns == s.underruns
        && (t.phase.Drained? <==> seen <= n) && (!t.phase.Drained? ==> t.phase.Streaming?)
        && (t.ended <==> s.ended || |s.accepted| <= |s.delivered| + n))
  {
    hide Wrap, IsPow2, BitAnd, CopySlot;
    PublishReadKeepsInv(c, s);
  }

  // Nothing follows the end: once a block was flagged EOS, no run changes what was accepted or delivered.
  lemma {:induction false} NothingFollowsEos<T>(c: Config, s: State<T>, actions: seq<Action<T>>)
    requires Inv(c, s) && s.ended && Run(c, s, actions).Some?
    ensures var t := Run(c, s, actions).value; t.ended && t.accepted == s.accepted && t.delivered == s.delivered
    decreases |actions|
  {
    hide Wrap, IsPow2, BitAnd, CopySlot;
    if actions != [] {
      var s' := Apply(c, s, actions[0]);
      StepKeepsInv(c, s, actions[0]);
      if actions[0].PublishRead? {
        assert |s'.delivered| <= |s.accepted|;
        assert s'.delivered == s.delivered;
      }
      NothingFollowsEos(c, s', actions[1..]);
    }
  }

  // The plain copies never touch the same slot at the same time, and a store never hits an unread
  // frame: the two memcpy regions of the two threads are disjoint in every reachable state.
  lemma CopiesAreDisjoint<T>(c: Config, s: State<T>, k: nat, j: nat)
    requires Inv(c, s) && s.producer.Storing? && k < s.producer.n
    ensures 0 <= CopySlot(c, s.producer.write, k) < |s.slots|
    ensures s.consumer.Loading? && j < s.consumer.verdict.take ==>
      0 <= CopySlot(c, s.consumer.read, j) < |s.slots| && CopySlot(c, s.producer.write, k) != CopySlot(c, s.consumer.read, j)
    ensures |s.delivered| <= j < |s.accepted| ==> CopySlot(c, s.producer.write, k) != Wrap(j, c.capacity)
  {
    hide Wrap, IsPow2, BitAnd, CopySlot;
    var r, w := |s.delivered|, |s.accepted|;
    CopySlotIsWrap(c, w, k);
    if s.consumer.Loading? && j < s.consumer.verdict.take {
      CopySlotIsWrap(c, r, j);
      WrapDistinct(r + j, w + k, c.capacity);
    }
    if r <= j < w {
      WrapDistinct(j, w + k, c.capacity);
    }
  }

  // The count a write settles on never exceeds the room that is really free.
  lemma WriteNeverOverfills<T>(c: Config, s: State<T>, position: nat)
    requires Inv(c, s) && Enabled(c, s, LoadRead(position))
    ensures var p := Apply(c, s, LoadRead(position)).producer;
      p.n == Min(|s.producer.src|, c.capacity - (|s.accepted| - position)) && |s.accepted| + p.n - |s.delivered| <= c.capacity
  {
    WrappedDistance(|s.accepted|, position);
  }

  lemma StoringFits<T>(c: Config, s: State<T>)
    requires Inv(c, s) && s.producer.Storing?
    ensures s.producer.n <= |s.producer.src|
  {
  }

  lemma EndedIsAll<T>(c: Config, s: State<T>)
    requires Inv(c, s)
    ensures s.ended ==> s.finished && s.delivered == s.accepted
  {
  }

  lemma DeliveredIsPrefix<T>(c: Config, s: State<T>)
    requires Inv(c, s)
    ensures s.delivered <= s.accepted
  {
  }

  // What the publishing store of a write changes that anyone else can see.
  lemma PublishEffect<T>(c: Config, s: State<T>)
    requires Enabled(c, s, PublishWrite) && s.producer.n <= |s.producer.src|
    ensures var t := Apply(c, s, PublishWrite);
      t == s.(writeCursor := t.writeCursor, accepted := s.accepted + s.producer.src[..s.producer.n], producer := Idle)
  {
  }
}
