/** apps/player/eaf_player.c: the owner's start, step, seek and stop calls interleaved with the
    producer thread, on top of the two-thread reservoir. One step is one flag access, one callback
    or one reservoir step. Callbacks may fail at any time. */
module PlayerSteps {
  import opened Common
  import RingArithmetic
  import Reservoirs
  import Spsc = SpscSteps

  const DECODE_FRAMES := 256

  // Where the producer thread is inside produce().
  datatype Thread<T> =
    | NoThread                                  // never created, or joined
    | Gated                                     // waiting for gate or quit
    | AtLoop(ended: bool)                       // top of the main loop
    | AtPressure                                // waiting for the level to fall
    | AtRead                                    // about to read the source
    | AtWrite(buffer: seq<T>, offset: nat)      // handing a decoded buffer to the reservoir
    | Leaving                                   // has seen quit
    | Exited                                    // returned, not joined yet

  datatype Pipe = Configured | Running | Stopped | Recovery

  datatype Outcome = Fine | Eof | Error(code: int)

  // What a stop continues with.
  datatype After = Return(result: Outcome) | ThenSeek(frame: nat, running: bool)

  // Where the owner is inside a call.
  datatype Owner =
    | Free
    | StartThread
    | StartReset
    | StartSink
    | StartUndo(code: int)
    | OpenGate
    | AbortQuit(code: int)
    | AbortJoin(code: int)
    | StopSink(after: After)
    | StopQuit(after: After, code: int)
    | StopJoin(after: After)
    | SeekSource(frame: nat, running: bool)
    | SeekReset(running: bool)
    | LoadFailed
    | Process
    | Pulling
    | Committing(eos: bool)

  datatype World<T> = World(
    ring: Spsc.State<T>, thread: Thread<T>, owner: Owner, gate: bool, quit: bool, failed: bool,
    pipe: Pipe, completed: bool, pos: nat, result: Outcome,
    // History: the source position at the last reset, how far the source was handed to the
    // producer since, and what had been consumed (from where) when the pipeline last reported EOF.
    base: nat, fed: nat, reported: Option<(nat, seq<T>)>)

  datatype Act<T> =
    // Producer thread. A flag may be seen set only once it is set.
    | LeaveGate(sawGate: bool, sawQuit: bool)
    | LoopTop(sawQuit: bool)
    | Pressure(sawQuit: bool)
    | ReadFrames(n: nat)
    | ReadEnd
    | ReadFail(position: nat)
    | WriteTurn(sawQuit: bool)
    | RingWrite(step: Spsc.Action<T>)
    | Leave
    // Owner thread.
    | CallStart
    | CallStop
    | CallSeek(frame: nat)
    | CallStep
    | Create(code: int)
    | DoReset
    | SinkStart(code: int)
    | SinkStop(code: int, resets: int)
    | SetQuit
    | Join(code: int)
    | SetGate
    | SourceSeek(code: int, position: nat)
    | SawFailed(saw: bool, code: int)
    | Acquire(code: int, block: u32, sawFinished: bool)
    | RingPull(step: Spsc.Action<T>)
    | Commit(nodes: int, sink: int)

  predicate WriteStep<T>(a: Spsc.Action<T>) {
    a.LoadOwnWrite? || a.LoadRead? || a.StoreFrame? || a.PublishWrite?
  }

  predicate PullStep<T>(a: Spsc.Action<T>) {
    a.LoadOwnRead? || a.LoadWrite? || a.LoadFrame? || a.PublishRead?
  }

  function Emptied<T>(r: Spsc.State<T>): Spsc.State<T> {
    Spsc.State(r.slots, 0, 0, false, r.producer, r.consumer, Reservoirs.Prebuffering, 0, [], [], 0, 0, false)
  }

  predicate Enabled<T>(c: Spsc.Config, source: seq<T>, s: World<T>, a: Act<T>) {
    match a
    case LeaveGate(g, q) => s.thread.Gated? && (g || q) && (g ==> s.gate) && (q ==> s.quit)
    case LoopTop(q) => s.thread.AtLoop? && (q ==> s.quit)
    case Pressure(q) => s.thread.AtPressure? && (q ==> s.quit)
    case ReadFrames(n) => s.thread.AtRead? && 0 < n <= DECODE_FRAMES && s.pos + n <= |source|
    case ReadEnd => s.thread.AtRead? && s.pos == |source| && Spsc.Enabled(c, s.ring, Spsc.FinishCall)
    case ReadFail(position) => s.thread.AtRead? && position <= |source|
    case WriteTurn(q) => s.thread.AtWrite? && s.ring.producer.Idle? && (q ==> s.quit) && s.thread.offset <= |s.thread.buffer| < TWO32
    case RingWrite(step) => s.thread.AtWrite? && WriteStep(step) && Spsc.Enabled(c, s.ring, step)
    case Leave => s.thread.Leaving?
    case CallStart => s.owner.Free?
    case CallStop => s.owner.Free?
    case CallSeek(frame) => s.owner.Free?
    case CallStep => s.owner.Free?
    case Create(code) => s.owner.StartThread?
    case DoReset => s.owner.StartReset? || s.owner.SeekReset?
    case SinkStart(code) => s.owner.StartSink?
    case SinkStop(code, resets) => s.owner.StartUndo? || s.owner.StopSink?
    case SetQuit => s.owner.AbortQuit? || s.owner.StopQuit?
    case Join(code) => (s.owner.AbortJoin? || s.owner.StopJoin?) && (code == OK && !s.thread.NoThread? ==> s.thread.Exited?)
    case SetGate => s.owner.OpenGate?
    case SourceSeek(code, position) => s.owner.SeekSource? && position <= |source|
    case SawFailed(saw, code) => s.owner.LoadFailed? && (saw ==> s.failed)
    case Acquire(code, n, saw) => s.owner.Process? && Spsc.Enabled(c, s.ring, Spsc.PullCall(n, saw))
    case RingPull(step) => s.owner.Pulling? && PullStep(step) && Spsc.Enabled(c, s.ring, step)
    case Commit(nodes, sink) => s.owner.Committing?
  }

  // eaf_player_start up to its first callback.
  function BeginStart<T>(s: World<T>): World<T> {
    if !s.thread.NoThread? || !(s.pipe.Configured? || s.pipe.Stopped?) then s.(owner := Free, result := Error(STATE))
    else s.(gate := false, quit := false, failed := false, owner := StartThread)
  }

  function Done<T>(s: World<T>, v: Outcome): World<T> {
    s.(owner := Free, result := v)
  }

  function CodeOf(code: int): Outcome {
    if code == OK then Fine else Error(code)
  }

  function OnReset<T>(s: World<T>): World<T>
    requires s.owner.StartReset? || s.owner.SeekReset?
  {
    var cleared := s.(ring := Emptied(s.ring), base := s.pos, fed := s.pos);
    if s.owner.StartReset? then cleared.(completed := false, owner := StartSink)
    else if s.owner.running then BeginStart(cleared)
    else Done(cleared, Fine)
  }

  function OnSinkStart<T>(s: World<T>, code: int): World<T> {
    if code == OK then s.(pipe := Running, owner := OpenGate) else s.(pipe := Recovery, owner := StartUndo(code))
  }

  // eaf_pipeline_stop, from a failed start or from eaf_player_stop.
  function OnSinkStop<T>(s: World<T>, code: int, resets: int): World<T>
    requires s.owner.StartUndo? || s.owner.StopSink?
  {
    if s.owner.StartUndo? then
      s.(pipe := if code == OK then Stopped else s.pipe,
         owner := AbortQuit(if code != OK then code else if resets != OK then resets else s.owner.code))
    else if !s.pipe.Running? && !s.pipe.Recovery? then s.(owner := StopQuit(s.owner.after, OK))
    else if code != OK then s.(owner := StopQuit(s.owner.after, code))
    else s.(pipe := Stopped, owner := StopQuit(s.owner.after, resets))
  }

  function OnSetQuit<T>(s: World<T>): World<T>
    requires s.owner.AbortQuit? || s.owner.StopQuit?
  {
    var asked := s.(quit := true);
    if s.owner.AbortQuit? then asked.(owner := AbortJoin(s.owner.code))
    else if s.owner.code != OK then Done(asked, Error(s.owner.code))
    else asked.(owner := StopJoin(s.owner.after))
  }

  function OnJoin<T>(s: World<T>, code: int): World<T>
    requires s.owner.AbortJoin? || s.owner.StopJoin?
  {
    if s.owner.AbortJoin? then Done(s.(thread := if code == OK then NoThread else s.thread), Error(s.owner.code))
    else if !s.thread.NoThread? && code != OK then Done(s, Error(code))
    else if s.owner.after.Return? then Done(s.(thread := NoThread), s.owner.after.result)
    else s.(thread := NoThread, owner := SeekSource(s.owner.after.frame, s.owner.after.running))
  }

  function OnSeek<T>(s: World<T>, code: int, position: nat): World<T>
    requires s.owner.SeekSource?
  {
    if code == OK then s.(pos := s.owner.frame, owner := SeekReset(s.owner.running)) else Done(s.(pos := position), Error(code))
  }

  // eaf_pipeline_process up to the pull, and after it.
  function OnAcquire<T>(c: Spsc.Config, s: World<T>, code: int, n: u32, saw: bool): World<T>
    requires Spsc.Enabled(c, s.ring, Spsc.PullCall(n, saw))
  {
    if s.completed then s.(owner := StopSink(Return(Eof)), reported := Some((s.base, s.ring.delivered)))
    else if code != OK then s.(owner := StopSink(Return(Error(code))))
    else s.(ring := Spsc.Apply(c, s.ring, Spsc.PullCall(n, saw)), owner := Pulling)
  }

  function OnCommit<T>(s: World<T>, nodes: int, sink: int): World<T>
    requires s.owner.Committing?
  {
    if nodes != OK || sink != OK then s.(owner := StopSink(Return(Error(if nodes != OK then nodes else sink))))
    else if s.owner.eos then s.(completed := true, owner := StopSink(Return(Eof)), reported := Some((s.base, s.ring.delivered)))
    else Done(s, Fine)
  }

  function OnCall<T>(source: seq<T>, s: World<T>, a: Act<T>): World<T> {
    match a
    case CallStart => BeginStart(s)
    case CallStop => s.(owner := StopSink(Return(Fine)))
    case CallSeek(frame) =>
      if frame > |source| then Done(s, Error(INVALID)) else s.(owner := StopSink(ThenSeek(frame, s.pipe.Running?)))
    case CallStep => if s.pipe.Running? then s.(owner := LoadFailed) else Done(s, Error(STATE))
    case SawFailed(saw, code) => if saw then s.(owner := StopSink(Return(Error(code)))) else s.(owner := Process)
    case _ => s
  }

  function OnRead<T>(c: Spsc.Config, source: seq<T>, s: World<T>, a: Act<T>): World<T>
    requires Enabled(c, source, s, a)
  {
    match a
    case ReadFrames(n) => s.(thread := AtWrite(source[s.pos..s.pos + n], 0), pos := s.pos + n, fed := s.pos + n)
    case ReadEnd => s.(thread := AtLoop(true), ring := Spsc.Apply(c, s.ring, Spsc.FinishCall))
    case ReadFail(position) => s.(thread := AtLoop(true), failed := true, pos := position)
    case _ => s
  }

  function OnWriteTurn<T>(c: Spsc.Config, s: World<T>, sawQuit: bool): World<T>
    requires s.thread.AtWrite? && s.ring.producer.Idle? && s.thread.offset <= |s.thread.buffer| < TWO32
  {
    if s.thread.offset == |s.thread.buffer| then s.(thread := AtLoop(false))
    else if sawQuit then s.(thread := Leaving)
    else s.(ring := Spsc.Apply(c, s.ring, Spsc.WriteCall(s.thread.buffer[s.thread.offset..])))
  }

  function OnRingWrite<T>(c: Spsc.Config, s: World<T>, step: Spsc.Action<T>): World<T>
    requires s.thread.AtWrite? && WriteStep(step) && Spsc.Enabled(c, s.ring, step)
  {
    s.(ring := Spsc.Apply(c, s.ring, step),
       thread := if step.PublishWrite? then s.thread.(offset := s.thread.offset + s.ring.producer.n) else s.thread)
  }

  function OnRingPull<T>(c: Spsc.Config, s: World<T>, step: Spsc.Action<T>): World<T>
    requires PullStep(step) && Spsc.Enabled(c, s.ring, step)
  {
    s.(ring := Spsc.Apply(c, s.ring, step),
       owner := if step.PublishRead? then Committing(Spsc.HasEos(s.ring.consumer.verdict)) else Pulling)
  }

  function Apply<T>(c: Spsc.Config, source: seq<T>, s: World<T>, a: Act<T>): World<T>
    requires Enabled(c, source, s, a)
  {
    match a
    case LeaveGate(g, q) => s.(thread := if q then Leaving else AtLoop(false))
    case LoopTop(q) => s.(thread := if q then Exited else if s.thread.ended then s.thread else AtPressure)
    case Pressure(q) => s.(thread := if q then Exited else AtRead)
    case ReadFrames(_) => OnRead(c, source, s, a)
    case ReadEnd => OnRead(c, source, s, a)
    case ReadFail(_) => OnRead(c, source, s, a)
    case WriteTurn(q) => OnWriteTurn(c, s, q)
    case RingWrite(step) => OnRingWrite(c, s, step)
    case Leave => s.(thread := Exited)
    case Create(code) => if code == OK then s.(thread := Gated, owner := StartReset) else Done(s, Error(code))
    case DoReset => OnReset(s)
    case SinkStart(code) => OnSinkStart(s, code)
    case SinkStop(code, resets) => OnSinkStop(s, code, resets)
    case SetQuit => OnSetQuit(s)
    case Join(code) => OnJoin(s, code)
    case SetGate => Done(s.(gate := true), Fine)
    case SourceSeek(code, position) => OnSeek(s, code, position)
    case Acquire(code, n, saw) => OnAcquire(c, s, code, n, saw)
    case RingPull(step) => OnRingPull(c, s, step)
    case Commit(nodes, sink) => OnCommit(s, nodes, sink)
    case _ => OnCall(source, s, a)
  }

  predicate Start<T>(c: Spsc.Config, s: World<T>) {
    Spsc.Start(c, s.ring) && s.thread.NoThread? && s.owner.Free? && s.pipe.Configured? && s.base == s.fed == s.pos && s.reported.None?
  }

  function Run<T>(c: Spsc.Config, source: seq<T>, s: World<T>, acts: seq<Act<T>>): Option<World<T>>
    decreases |acts|
  {
    if acts == [] then Some(s)
    else if Enabled(c, source, s, acts[0]) then Run(c, source, Apply(c, source, s, acts[0]), acts[1..])
    else None
  }

  // Frames decoded but not yet accepted by the reservoir.
  function Pending<T>(t: Thread<T>): seq<T> {
    if t.AtWrite? && t.offset <= |t.buffer| then t.buffer[t.offset..] else []
  }

  // The producer can still put frames into the reservoir.
  predicate Feeding<T>(t: Thread<T>) {
    t.AtLoop? || t.AtPressure? || t.AtRead? || t.AtWrite?
  }

  // The thread is about to feed a reservoir that has been reset for it.
  predicate Ready<T>(s: World<T>) {
    Feeding(s.thread) || (s.thread.Gated? && !s.owner.StartReset?)
  }

  predicate Starting(o: Owner) {
    o.StartReset? || o.StartSink? || o.StartUndo? || o.OpenGate? || o.AbortQuit?
  }

  ghost predicate ThreadInv<T>(s: World<T>) {
    && (s.thread.AtWrite? ==> s.thread.offset <= |s.thread.buffer| <= DECODE_FRAMES)
    && (!s.ring.producer.Idle? ==> s.thread.AtWrite? && s.ring.producer.src == Pending(s.thread) && !s.ring.finished)
    && (Ready(s) && !(s.thread.AtLoop? && s.thread.ended) ==> s.pos == s.fed && !s.ring.finished)
  }

  // A stop that went well has stopped the pipeline.
  predicate PastSink(o: Owner) {
    (o.StopQuit? && o.code == OK) || o.StopJoin? || o.SeekSource?
  }

  // The frame an unfinished seek is heading for.
  function Target(o: Owner): nat {
    match o
    case SeekSource(frame, _) => frame
    case StopSink(ThenSeek(frame, _)) => frame
    case StopQuit(ThenSeek(frame, _), _) => frame
    case StopJoin(ThenSeek(frame, _)) => frame
    case _ => 0
  }

  ghost predicate OwnerInv<T>(s: World<T>) {
    && (PastSink(s.owner) ==> !s.pipe.Running?)
    && (!s.ring.consumer.Resting? ==> s.owner.Pulling?)
    && (s.owner.StartThread? || s.owner.SeekSource? || s.owner.SeekReset? ==> s.thread.NoThread?)
    && (s.owner.StartThread? || Starting(s.owner) ==> !s.gate && !s.quit)
    && (Starting(s.owner) ==> s.thread.Gated?)
    && (s.owner.LoadFailed? || s.owner.Process? || s.owner.Pulling? || s.owner.Committing? || s.owner.OpenGate? ==> s.pipe.Running?)
    && (s.owner.StartThread? || s.owner.StartReset? || s.owner.StartSink? || s.owner.SeekReset? ==> !s.pipe.Running?)
    && (s.pipe.Running? && s.completed ==> s.ring.ended) && (s.owner.StartSink? ==> !s.completed)
    && (s.owner.Committing? && s.owner.eos ==> s.ring.ended)
  }

  // xs is the stretch of the source that starts at `at`.
  ghost predicate Follows<T>(source: seq<T>, xs: seq<T>, at: nat) {
    at + |xs| <= |source| && xs == source[at..at + |xs|]
  }

  ghost predicate SourceInv<T>(source: seq<T>, s: World<T>) {
    var accepted, pending := s.ring.accepted, Pending(s.thread);
    && s.base <= s.fed <= |source| && s.pos <= |source| && Target(s.owner) <= |source|
    && Follows(source, accepted, s.base) && Follows(source, pending, s.base + |accepted|)
    && s.base + |accepted| + |pending| <= s.fed
    && (Ready(s) ==> s.base + |accepted| + |pending| == s.fed)
    && (s.ring.finished ==> s.base + |accepted| == |source|)
    && (s.reported.Some? ==> s.reported.value.0 + |s.reported.value.1| == |source| && Follows(source, s.reported.value.1, s.reported.value.0))
  }

  ghost predicate Inv<T>(c: Spsc.Config, source: seq<T>, s: World<T>) {
    Spsc.Inv(c, s.ring) && ThreadInv(s) && OwnerInv(s) && SourceInv(source, s)
  }

  lemma FollowsNothing<T>(source: seq<T>)
    ensures forall at: nat :: at <= |source| ==> Follows(source, [], at)
  {
  }

  lemma FollowsMore<T>(source: seq<T>, xs: seq<T>, ys: seq<T>, at: nat, n: nat)
    requires Follows(source, xs, at) && Follows(source, ys, at + |xs|) && n <= |ys|
    ensures Follows(source, xs + ys[..n], at) && Follows(source, ys[n..], at + |xs| + n)
  {
  }

  // Emptying a reservoir that neither side is using is a fresh start.
  lemma EmptiedInv<T>(c: Spsc.Config, r: Spsc.State<T>)
    requires Spsc.Inv(c, r) && r.producer.Idle? && r.consumer.Resting?
    ensures Spsc.Inv(c, Emptied(r))
  {
  }

  lemma TargetBound<T>(source: seq<T>, s: World<T>)
    requires SourceInv(source, s)
    ensures Target(s.owner) <= |source|
  {
  }

  // A step that leaves the reservoir, the producer (unless it has exited) and the source alone keeps what is known of them.
  lemma UntouchedSource<T>(source: seq<T>, s: World<T>, s': World<T>)
    requires ThreadInv(s) && SourceInv(source, s) && Target(s'.owner) <= |source| && (s'.owner.StartReset? || !s.owner.StartReset?)
    requires s'.thread == s.thread || (s'.thread.NoThread? && (s.thread.Exited? || s.thread.NoThread?))
    requires s'.ring == s.ring && s'.pos == s.pos && s'.base == s.base && s'.fed == s.fed && s'.reported == s.reported
    ensures ThreadInv(s') && SourceInv(source, s')
  {
    hide Follows;
  }

  // One lemma per step; all of them treat the reservoir's own invariant as a black box.
  lemma FlagStepKeepsInv<T>(c: Spsc.Config, source: seq<T>, s: World<T>, a: Act<T>)
    requires Inv(c, source, s) && Enabled(c, source, s, a) && (a.LeaveGate? || a.LoopTop? || a.Pressure? || a.Leave?)
    ensures Inv(c, source, Apply(c, source, s, a))
  {
    hide Spsc.Inv, Follows;
    FollowsNothing(source);
  }

  lemma ReadKeepsInv<T>(c: Spsc.Config, source: seq<T>, s: World<T>, a: Act<T>)
    requires Inv(c, source, s) && Enabled(c, source, s, a) && (a.ReadFrames? || a.ReadEnd? || a.ReadFail?)
    ensures Inv(c, source, OnRead(c, source, s, a))
  {
    hide Spsc.Inv;
    if a.ReadEnd? {
      Spsc.StepKeepsInv(c, s.ring, Spsc.FinishCall);
    }
  }

  lemma WriteTurnKeepsInv<T>(c: Spsc.Config, source: seq<T>, s: World<T>, sawQuit: bool)
    requires Inv(c, source, s) && Enabled(c, source, s, WriteTurn(sawQuit))
    ensures Inv(c, source, OnWriteTurn(c, s, sawQuit))
  {
    hide Spsc.Inv, Follows;
    Spsc.StepKeepsInv(c, s.ring, Spsc.WriteCall(Pending(s.thread)));
    FollowsNothing(source);
  }

  lemma PublishKeepsInv<T>(c: Spsc.Config, source: seq<T>, s: World<T>)
    requires Inv(c, source, s) && s.thread.AtWrite? && Spsc.Enabled(c, s.ring, Spsc.PublishWrite)
    ensures Inv(c, source, OnRingWrite(c, s, Spsc.PublishWrite))
  {
    hide Spsc.Inv, Spsc.Apply, Follows, SourceInv;
    Spsc.StepKeepsInv(c, s.ring, Spsc.PublishWrite);
    Spsc.StoringFits(c, s.ring);
    Spsc.PublishEffect(c, s.ring);
    PublishKeepsSource(source, s, OnRingWrite(c, s, Spsc.PublishWrite));
  }

  lemma PublishKeepsSource<T>(source: seq<T>, s: World<T>, t: World<T>)
    requires ThreadInv(s) && SourceInv(source, s) && s.thread.AtWrite? && s.ring.producer.Storing? && s.ring.producer.n <= |s.ring.producer.src|
    requires t == s.(ring := t.ring, thread := s.thread.(offset := s.thread.offset + s.ring.producer.n))
    requires t.ring.accepted == s.ring.accepted + s.ring.producer.src[..s.ring.producer.n] && t.ring.finished == s.ring.finished
    ensures SourceInv(source, t)
  {
    hide Follows;
    var n := s.ring.producer.n;
    assert Pending(t.thread) == Pending(s.thread)[n..];
    FollowsMore(source, s.ring.accepted, Pending(s.thread), s.base, n);
  }

  lemma RingWriteKeepsInv<T>(c: Spsc.Config, source: seq<T>, s: World<T>, step: Spsc.Action<T>)
    requires Inv(c, source, s) && s.thread.AtWrite? && WriteStep(step) && Spsc.Enabled(c, s.ring, step) && !step.PublishWrite?
    ensures Inv(c, source, OnRingWrite(c, s, step))
  {
    Spsc.StepKeepsInv(c, s.ring, step);
    hide Spsc.Inv, Follows;
  }

  lemma RingPullKeepsInv<T>(c: Spsc.Config, source: seq<T>, s: World<T>, step: Spsc.Action<T>)
    requires Inv(c, source, s) && s.owner.Pulling? && PullStep(step) && Spsc.Enabled(c, s.ring, step)
    ensures Inv(c, source, OnRingPull(c, s, step))
  {
    hide Spsc.Inv, Spsc.Apply, Spsc.Enabled, Spsc.HasEos, Follows;
    Spsc.StepKeepsInv(c, s.ring, step);
    PullEffect(c, s.ring, step);
  }

  lemma PullEffect<T>(c: Spsc.Config, r: Spsc.State<T>, step: Spsc.Action<T>)
    requires PullStep(step) && Spsc.Enabled(c, r, step)
    ensures var t := Spsc.Apply(c, r, step);
      && t.producer == r.producer && t.accepted == r.accepted && t.finished == r.finished && (r.ended ==> t.ended)
      && !r.consumer.Resting?
      && (step.PublishRead? ==> r.consumer.Loading? && t.consumer.Resting? && (Spsc.HasEos(r.consumer.verdict) ==> t.ended))
  {
    hide Spsc.HasEos;
  }

  lemma CallKeepsInv<T>(c: Spsc.Config, source: seq<T>, s: World<T>, a: Act<T>)
    requires Inv(c, source, s)
    requires (s.owner.Free? && (a.CallStart? || a.CallStop? || a.CallSeek? || a.CallStep?)) || (s.owner.LoadFailed? && a.SawFailed?)
    ensures Inv(c, source, OnCall(source, s, a))
  {
    hide Spsc.Inv, ThreadInv, SourceInv, OwnerInv, OnCall;
    TargetBound(source, s);
    CallEffect(source, s, a);
    UntouchedSource(source, s, OnCall(source, s, a));
  }

  lemma CallEffect<T>(source: seq<T>, s: World<T>, a: Act<T>)
    requires OwnerInv(s) && Target(s.owner) <= |source|
    requires (s.owner.Free? && (a.CallStart? || a.CallStop? || a.CallSeek? || a.CallStep?)) || (s.owner.LoadFailed? && a.SawFailed?)
    ensures var t := OnCall(source, s, a);
      && OwnerInv(t) && Target(t.owner) <= |source| && !s.owner.StartReset?
      && t == s.(gate := t.gate, quit := t.quit, failed := t.failed, owner := t.owner, result := t.result)
  {
    hide BeginStart, OwnerInv;
    BeginStartEffect(s);
    CallKeepsOwner(source, s, a);
  }

  lemma CallKeepsOwner<T>(source: seq<T>, s: World<T>, a: Act<T>)
    requires OwnerInv(s)
    requires (s.owner.Free? && (a.CallStart? || a.CallStop? || a.CallSeek? || a.CallStep?)) || (s.owner.LoadFailed? && a.SawFailed?)
    ensures OwnerInv(OnCall(source, s, a))
  {
    hide BeginStart;
    BeginStartEffect(s);
  }

  lemma CreateKeepsInv<T>(c: Spsc.Config, source: seq<T>, s: World<T>, a: Act<T>)
    requires Inv(c, source, s) && Enabled(c, source, s, a) && (a.Create? || a.SetGate?)
    ensures Inv(c, source, Apply(c, source, s, a))
  {
    hide Spsc.Inv, Follows;
    FollowsNothing(source);
  }

  lemma SinkStartKeepsInv<T>(c: Spsc.Config, source: seq<T>, s: World<T>, code: int)
    requires Inv(c, source, s) && s.owner.StartSink?
    ensures Inv(c, source, OnSinkStart(s, code))
  {
    hide Spsc.Inv, ThreadInv, SourceInv;
    TargetBound(source, s);
    UntouchedSource(source, s, OnSinkStart(s, code));
  }

  lemma SinkStopKeepsInv<T>(c: Spsc.Config, source: seq<T>, s: World<T>, code: int, resets: int)
    requires Inv(c, source, s) && (s.owner.StartUndo? || s.owner.StopSink?)
    ensures Inv(c, source, OnSinkStop(s, code, resets))
  {
    hide Spsc.Inv, ThreadInv, SourceInv;
    TargetBound(source, s);
    UntouchedSource(source, s, OnSinkStop(s, code, resets));
  }

  lemma SetQuitKeepsInv<T>(c: Spsc.Config, source: seq<T>, s: World<T>)
    requires Inv(c, source, s) && (s.owner.AbortQuit? || s.owner.StopQuit?)
    ensures Inv(c, source, OnSetQuit(s))
  {
    hide Spsc.Inv, ThreadInv, SourceInv;
    TargetBound(source, s);
    UntouchedSource(source, s, OnSetQuit(s));
  }

  lemma JoinKeepsInv<T>(c: Spsc.Config, source: seq<T>, s: World<T>, code: int)
    requires Inv(c, source, s) && Enabled(c, source, s, Join(code))
    ensures Inv(c, source, OnJoin(s, code))
  {
    hide Spsc.Inv, ThreadInv, SourceInv;
    TargetBound(source, s);
    UntouchedSource(source, s, OnJoin(s, code));
  }

  lemma SeekKeepsInv<T>(c: Spsc.Config, source: seq<T>, s: World<T>, code: int, position: nat)
    requires Inv(c, source, s) && s.owner.SeekSource? && position <= |source|
    ensures Inv(c, source, OnSeek(s, code, position))
  {
    hide Spsc.Inv, Follows;
  }

  lemma ResetKeepsInv<T>(c: Spsc.Config, source: seq<T>, s: World<T>)
    requires Inv(c, source, s) && (s.owner.StartReset? || s.owner.SeekReset?)
    ensures Inv(c, source, OnReset(s))
  {
    hide Spsc.Inv, Follows, SourceInv, BeginStart;
    EmptiedInv(c, s.ring);
    ResetKeepsSource(source, s);
    BeginStartEffect(s.(ring := Emptied(s.ring), base := s.pos, fed := s.pos));
  }

  lemma BeginStartEffect<T>(s: World<T>)
    ensures var t := BeginStart(s);
      && t == s.(gate := t.gate, quit := t.quit, failed := t.failed, owner := t.owner, result := t.result)
      && (t.owner.Free? || (t.owner.StartThread? && s.thread.NoThread? && !t.gate && !t.quit && !s.pipe.Running?))
  {
  }

  lemma ResetKeepsSource<T>(source: seq<T>, s: World<T>)
    requires ThreadInv(s) && OwnerInv(s) && SourceInv(source, s) && (s.owner.StartReset? || s.owner.SeekReset?)
    ensures SourceInv(source, OnReset(s))
  {
    hide Follows;
    FollowsNothing(source);
  }

  lemma AcquireKeepsInv<T>(c: Spsc.Config, source: seq<T>, s: World<T>, code: int, n: u32, saw: bool)
    requires Inv(c, source, s) && s.owner.Process? && Spsc.Enabled(c, s.ring, Spsc.PullCall(n, saw))
    ensures Inv(c, source, OnAcquire(c, s, code, n, saw))
  {
    hide Spsc.Inv, Follows;
    Spsc.EndedIsAll(c, s.ring);
    var s' := OnAcquire(c, s, code, n, saw);
    if s.completed || code != OK {
      assert s'.ring == s.ring;
    } else {
      Spsc.StepKeepsInv(c, s.ring, Spsc.PullCall(n, saw));
    }
  }

  lemma CommitKeepsInv<T>(c: Spsc.Config, source: seq<T>, s: World<T>, nodes: int, sink: int)
    requires Inv(c, source, s) && s.owner.Committing?
    ensures Inv(c, source, OnCommit(s, nodes, sink))
  {
    hide Spsc.Inv, OwnerInv, SourceInv;
    Spsc.EndedIsAll(c, s.ring);
    CommitKeepsOwner(s, nodes, sink);
    CommitWasEnd(s);
    CommitKeepsSource(source, s, nodes, sink);
  }

  lemma CommitKeepsSource<T>(source: seq<T>, s: World<T>, nodes: int, sink: int)
    requires ThreadInv(s) && SourceInv(source, s) && s.owner.Committing?
    requires s.owner.eos ==> s.ring.finished && s.ring.delivered == s.ring.accepted
    ensures SourceInv(source, OnCommit(s, nodes, sink))
  {
    hide Follows, ThreadInv;
  }

  lemma CommitWasEnd<T>(s: World<T>)
    requires OwnerInv(s) && s.owner.Committing?
    ensures s.owner.eos ==> s.ring.ended
  {
  }

  lemma CommitKeepsOwner<T>(s: World<T>, nodes: int, sink: int)
    requires OwnerInv(s) && s.owner.Committing?
    ensures OwnerInv(OnCommit(s, nodes, sink))
  {
  }

  lemma StepKeepsInv<T>(c: Spsc.Config, source: seq<T>, s: World<T>, a: Act<T>)
    requires Inv(c, source, s) && Enabled(c, source, s, a)
    ensures Inv(c, source, Apply(c, source, s, a))
  {
    hide Inv, OnRead, OnWriteTurn, OnRingWrite, OnRingPull, OnReset, OnSinkStart, OnSinkStop, OnSetQuit, OnJoin, OnSeek, OnAcquire, OnCommit, OnCall;
    match a {
      case LeaveGate(_, _) => FlagStepKeepsInv(c, source, s, a);
      case LoopTop(_) => FlagStepKeepsInv(c, source, s, a);
      case Pressure(_) => FlagStepKeepsInv(c, source, s, a);
      case Leave => FlagStepKeepsInv(c, source, s, a);
      case ReadFrames(_) => ReadKeepsInv(c, source, s, a);
      case ReadEnd => ReadKeepsInv(c, source, s, a);
      case ReadFail(_) => ReadKeepsInv(c, source, s, a);
      case WriteTurn(q) => WriteTurnKeepsInv(c, source, s, q);
      case RingWrite(step) =>
        if step.PublishWrite? {
          PublishKeepsInv(c, source, s);
        } else {
          RingWriteKeepsInv(c, source, s, step);
        }
      case RingPull(step) => RingPullKeepsInv(c, source, s, step);
      case Create(_) => CreateKeepsInv(c, source, s, a);
      case SetGate => CreateKeepsInv(c, source, s, a);
      case DoReset => ResetKeepsInv(c, source, s);
      case SinkStart(code) => SinkStartKeepsInv(c, source, s, code);
      case SinkStop(code, resets) => SinkStopKeepsInv(c, source, s, code, resets);
      case SetQuit => SetQuitKeepsInv(c, source, s);
      case Join(code) => JoinKeepsInv(c, source, s, code);
      case SourceSeek(code, position) => SeekKeepsInv(c, source, s, code, position);
      case Acquire(code, n, saw) => AcquireKeepsInv(c, source, s, code, n, saw);
      case Commit(nodes, sink) => CommitKeepsInv(c, source, s, nodes, sink);
      case _ => CallKeepsInv(c, source, s, a);
    }
  }

  lemma {:induction false} RunKeepsInv<T>(c: Spsc.Config, source: seq<T>, s: World<T>, acts: seq<Act<T>>)
    requires Inv(c, source, s) && Run(c, source, s, acts).Some?
    ensures Inv(c, source, Run(c, source, s, acts).value)
    decreases |acts|
  {
    hide Inv, Enabled, Apply;
    if acts != [] {
      StepKeepsInv(c, source, s, acts[0]);
      RunKeepsInv(c, source, Apply(c, source, s, acts[0]), acts[1..]);
    }
  }

  // In every run, what the pipeline consumed since the last reset is a contiguous run of the
  // source from its position there, and a reported EOF means that run reached the end.
  lemma EveryRunPlaysTheSource<T>(c: Spsc.Config, source: seq<T>, s: World<T>, acts: seq<Act<T>>)
    requires Start(c, s) && s.pos <= |source| && Run(c, source, s, acts).Some?
    ensures var t := Run(c, source, s, acts).value;
      && t.base <= |source| && t.ring.delivered <= source[t.base..]
      && (t.reported.Some? ==> t.reported.value.0 <= |source| && t.reported.value.1 == source[t.reported.value.0..])
  {
    Spsc.StartInv(c, s.ring);
    RunKeepsInv(c, source, s, acts);
    var t := Run(c, source, s, acts).value;
    Spsc.DeliveredIsPrefix(c, t.ring);
    hide Spsc.Inv;
  }

  // The reservoir is emptied only while the producer is gated or joined: it is inside no reservoir
  // call, and no step it could take next touches the reservoir.
  lemma ResetIsQuiescent<T>(c: Spsc.Config, source: seq<T>, s: World<T>, acts: seq<Act<T>>)
    requires Start(c, s) && s.pos <= |source| && Run(c, source, s, acts).Some?
    ensures var t := Run(c, source, s, acts).value;
      Enabled(c, source, t, DoReset) ==>
        && (t.thread.Gated? || t.thread.NoThread?) && t.ring.producer.Idle? && t.ring.consumer.Resting?
        && forall a | Enabled(c, source, t, a) && !a.DoReset? :: Apply(c, source, t, a).ring == t.ring && !(a.LeaveGate? && a.sawGate)
  {
    hide Spsc.Inv, Spsc.Enabled, Spsc.Apply, Inv, Run;
    Spsc.StartInv(c, s.ring);
    FreshInv(c, source, s);
    RunKeepsInv(c, source, s, acts);
    var t := Run(c, source, s, acts).value;
    if Enabled(c, source, t, DoReset) {
      QuietReset(c, source, t);
    }
  }

  lemma FreshInv<T>(c: Spsc.Config, source: seq<T>, s: World<T>)
    requires Start(c, s) && s.pos <= |source| && Spsc.Inv(c, s.ring)
    ensures Inv(c, source, s)
  {
    hide Spsc.Inv, Spsc.Enabled, Spsc.Apply;
  }

  lemma QuietReset<T>(c: Spsc.Config, source: seq<T>, t: World<T>)
    requires Inv(c, source, t) && Enabled(c, source, t, DoReset)
    ensures (t.thread.Gated? || t.thread.NoThread?) && t.ring.producer.Idle? && t.ring.consumer.Resting?
    ensures forall a | Enabled(c, source, t, a) && !a.DoReset? :: Apply(c, source, t, a).ring == t.ring && !(a.LeaveGate? && a.sawGate)
  {
    hide Spsc.Inv, Spsc.Enabled, Spsc.Apply, SourceInv;
  }

  // The producer may go on: its gate is open, nobody has told it to quit, and it is there.
  predicate MayProduce<T>(s: World<T>) {
    s.gate && !s.quit && !s.thread.NoThread? && !s.thread.Leaving? && !s.thread.Exited?
  }

  // Inside eaf_player_start, and after it returned.
  predicate InStart<T>(s: World<T>) {
    match s.owner
    case Free => s.result.Error? || (s.result.Fine? && s.pipe.Running? && MayProduce(s))
    case StartThread => !s.gate && !s.quit
    case StartReset => !s.quit && s.thread.Gated?
    case StartSink => !s.quit && s.thread.Gated?
    case OpenGate => !s.quit && s.thread.Gated? && s.pipe.Running?
    case StartUndo(_) => true
    case AbortQuit(_) => true
    case AbortJoin(_) => true
    case _ => false
  }

  predicate IsCall<T>(a: Act<T>) {
    a.CallStart? || a.CallStop? || a.CallSeek? || a.CallStep?
  }

  lemma StartByProducer<T>(c: Spsc.Config, source: seq<T>, s: World<T>, a: Act<T>)
    requires Enabled(c, source, s, a) && ByProducer(a) && InStart(s) && OwnerInv(s)
    ensures InStart(Apply(c, source, s, a))
  {
    hide Spsc.Enabled, Spsc.Apply;
  }

  lemma StartByOwner<T>(c: Spsc.Config, source: seq<T>, s: World<T>, a: Act<T>)
    requires Enabled(c, source, s, a) && !ByProducer(a) && !IsCall(a) && InStart(s)
    ensures InStart(Apply(c, source, s, a))
  {
    hide Spsc.Enabled, Spsc.Apply;
  }

  lemma {:induction false} StartRun<T>(c: Spsc.Config, source: seq<T>, s: World<T>, acts: seq<Act<T>>)
    requires Inv(c, source, s) && Run(c, source, s, acts).Some? && InStart(s) && forall a :: a in acts ==> !IsCall(a)
    ensures InStart(Run(c, source, s, acts).value)
    decreases |acts|
  {
    hide Enabled, Apply, InStart, ByProducer, IsCall, Spsc.Inv, ThreadInv, SourceInv, OwnerInv;
    if acts != [] {
      if ByProducer(acts[0]) {
        StartByProducer(c, source, s, acts[0]);
      } else {
        StartByOwner(c, source, s, acts[0]);
      }
      StepKeepsInv(c, source, s, acts[0]);
      StartRun(c, source, Apply(c, source, s, acts[0]), acts[1..]);
    }
  }

  /** In every run, an eaf_player_start that returns Fine has left the pipeline running and the producer's gate
      open; the producer is there, and free to leave the gate and decode. */
  lemma StartOpensTheGate<T>(c: Spsc.Config, source: seq<T>, s: World<T>, before: seq<Act<T>>, during: seq<Act<T>>)
    requires Start(c, s) && s.pos <= |source| && Run(c, source, s, before).Some? && Run(c, source, s, before).value.owner.Free?
    requires Run(c, source, BeginStart(Run(c, source, s, before).value), during).Some? && forall a :: a in during ==> !IsCall(a)
    ensures var t := Run(c, source, BeginStart(Run(c, source, s, before).value), during).value;
      t.owner.Free? ==>
        && (t.result.Fine? || t.result.Error?)
        && (t.result.Fine? ==> t.pipe.Running? && t.gate && !t.quit && !t.thread.NoThread? && !t.thread.Leaving? && !t.thread.Exited?)
        && (t.result.Fine? && t.thread.Gated? ==>
          Enabled(c, source, t, LeaveGate(true, false)) && Apply(c, source, t, LeaveGate(true, false)).thread == AtLoop(false))
  {
    hide Spsc.Inv, Spsc.Enabled, Spsc.Apply, Inv, Run, BeginStart;
    Spsc.StartInv(c, s.ring);
    FreshInv(c, source, s);
    RunKeepsInv(c, source, s, before);
    var u := Run(c, source, s, before).value;
    CallKeepsInv(c, source, u, CallStart);
    StartBegins(u);
    StartRun(c, source, BeginStart(u), during);
  }

  // Inside eaf_player_stop, and after it returned.
  predicate InStop<T>(s: World<T>) {
    match s.owner
    case Free => s.result.Error? || (s.result.Fine? && s.thread.NoThread? && (s.pipe.Configured? || s.pipe.Stopped?))
    case StopSink(after) => after == Return(Fine)
    case StopQuit(after, code) => after == Return(Fine) && (code == OK ==> s.pipe.Configured? || s.pipe.Stopped?)
    case StopJoin(after) => after == Return(Fine) && s.quit && (s.pipe.Configured? || s.pipe.Stopped?)
    case _ => false
  }

  lemma StopStep<T>(c: Spsc.Config, source: seq<T>, s: World<T>, a: Act<T>)
    requires Enabled(c, source, s, a) && !IsCall(a) && InStop(s)
    ensures InStop(Apply(c, source, s, a))
  {
    hide Spsc.Enabled, Spsc.Apply;
    if ByProducer(a) {
      ProducerStep(c, source, s, a);
      ProducerStays(c, source, s, a);
    } else {
      hide OnRead, OnWriteTurn, OnRingWrite, OnRingPull, OnAcquire, OnCommit;
    }
  }

  lemma ProducerStays<T>(c: Spsc.Config, source: seq<T>, s: World<T>, a: Act<T>)
    requires Enabled(c, source, s, a) && ByProducer(a)
    ensures !Apply(c, source, s, a).thread.NoThread? && !s.thread.NoThread?
  {
    hide Spsc.Enabled, Spsc.Apply;
  }

  lemma {:induction false} StopRun<T>(c: Spsc.Config, source: seq<T>, s: World<T>, acts: seq<Act<T>>)
    requires Run(c, source, s, acts).Some? && InStop(s) && forall a :: a in acts ==> !IsCall(a)
    ensures InStop(Run(c, source, s, acts).value)
    decreases |acts|
  {
    hide Enabled, Apply, InStop, IsCall;
    if acts != [] {
      StopStep(c, source, s, acts[0]);
      StopRun(c, source, Apply(c, source, s, acts[0]), acts[1..]);
    }
  }

  /** eaf_player_stop, from any state: it waits for the producer only after telling it to quit, and when it returns
      Fine the producer is joined and the pipeline is stopped. */
  lemma StopJoinsTheProducer<T>(c: Spsc.Config, source: seq<T>, s: World<T>, during: seq<Act<T>>)
    requires s.owner.Free? && Run(c, source, OnCall(source, s, CallStop), during).Some? && forall a :: a in during ==> !IsCall(a)
    ensures var t := Run(c, source, OnCall(source, s, CallStop), during).value;
      && (t.owner.StopJoin? ==> t.quit)
      && (t.owner.Free? && t.result.Fine? ==> t.thread.NoThread? && (t.pipe.Configured? || t.pipe.Stopped?))
      && (t.owner.Free? ==> t.result.Fine? || t.result.Error?)
  {
    hide Run, Enabled, Apply;
    StopRun(c, source, OnCall(source, s, CallStop), during);
  }

  lemma StartBegins<T>(u: World<T>)
    requires u.owner.Free?
    ensures InStart(BeginStart(u))
  {
  }

  // An owner on the way from eaf_player_seek(frame) to its reservoir reset remembers the frame and whether the
  // pipeline was running; one that was is stopped on the way.
  predicate Seeks<T>(s: World<T>, frame: nat, running: bool) {
    match s.owner
    case StopSink(ThenSeek(f, r)) => f == frame && r == running == s.pipe.Running?
    case StopQuit(ThenSeek(f, r), code) => f == frame && r == running && (running && code == OK ==> s.pipe.Stopped?)
    case StopJoin(ThenSeek(f, r)) => f == frame && r == running && (running ==> s.pipe.Stopped?)
    case SeekSource(f, r) => f == frame && r == running && (running ==> s.pipe.Stopped?)
    case SeekReset(r) => r == running && (running ==> s.pipe.Stopped?)
    case _ => true
  }

  predicate ByProducer<T>(a: Act<T>) {
    a.LeaveGate? || a.LoopTop? || a.Pressure? || Moves(a) || a.ReadEnd? || a.WriteTurn? || a.RingWrite? || a.Leave?
  }

  // The source moves when frames are read from it, or when a read fails.
  predicate Moves<T>(a: Act<T>) {
    a.ReadFrames? || a.ReadFail?
  }

  // The producer leaves the owner's side alone.
  lemma ProducerStep<T>(c: Spsc.Config, source: seq<T>, s: World<T>, a: Act<T>)
    requires Enabled(c, source, s, a) && ByProducer(a)
    ensures !s.thread.NoThread?
    ensures var t := Apply(c, source, s, a);
      t == s.(ring := t.ring, thread := t.thread, failed := t.failed, pos := t.pos, fed := t.fed) && (!Moves(a) ==> t.pos == s.pos)
  {
    hide Spsc.Enabled, Spsc.Apply;
  }

  // A step of the owner that is neither a reset nor the source's seek: what the source and the history say is
  // kept, and a seek on its way stays on its way.
  ghost predicate Onward<T>(s: World<T>, t: World<T>, frame: nat, running: bool) {
    && t.pos == s.pos && t.base == s.base && !s.owner.SeekReset? && !t.owner.SeekReset?
    && (t.reported == s.reported || t.reported == Some((s.base, s.ring.delivered)))
    && (Seeks(s, frame, running) ==> Seeks(t, frame, running))
  }

  lemma CallOnward<T>(source: seq<T>, s: World<T>, a: Act<T>, frame: nat, running: bool)
    requires (s.owner.Free? && (a.CallStart? || a.CallStop? || a.CallStep?)) || (s.owner.LoadFailed? && a.SawFailed?)
    ensures Onward(s, OnCall(source, s, a), frame, running)
  {
  }

  lemma StartOnward<T>(s: World<T>, code: int, frame: nat, running: bool)
    requires s.owner.StartSink?
    ensures Onward(s, OnSinkStart(s, code), frame, running)
  {
  }

  lemma StopOnward<T>(s: World<T>, code: int, resets: int, frame: nat, running: bool)
    requires s.owner.StartUndo? || s.owner.StopSink?
    ensures Onward(s, OnSinkStop(s, code, resets), frame, running)
  {
  }

  lemma QuitOnward<T>(s: World<T>, frame: nat, running: bool)
    requires s.owner.AbortQuit? || s.owner.StopQuit?
    ensures Onward(s, OnSetQuit(s), frame, running)
  {
  }

  lemma JoinOnward<T>(s: World<T>, code: int, frame: nat, running: bool)
    requires s.owner.AbortJoin? || s.owner.StopJoin?
    ensures Onward(s, OnJoin(s, code), frame, running)
  {
  }

  lemma AcquireOnward<T>(c: Spsc.Config, s: World<T>, code: int, n: u32, saw: bool, frame: nat, running: bool)
    requires s.owner.Process? && Spsc.Enabled(c, s.ring, Spsc.PullCall(n, saw))
    ensures Onward(s, OnAcquire(c, s, code, n, saw), frame, running)
  {
    hide Spsc.Enabled, Spsc.Apply;
  }

  lemma PullOnward<T>(c: Spsc.Config, s: World<T>, step: Spsc.Action<T>, frame: nat, running: bool)
    requires s.owner.Pulling? && PullStep(step) && Spsc.Enabled(c, s.ring, step)
    ensures Onward(s, OnRingPull(c, s, step), frame, running)
  {
    hide Spsc.Enabled, Spsc.Apply;
  }

  lemma CommitOnward<T>(s: World<T>, nodes: int, sink: int, frame: nat, running: bool)
    requires s.owner.Committing?
    ensures Onward(s, OnCommit(s, nodes, sink), frame, running)
  {
  }

  lemma CreateOnward<T>(c: Spsc.Config, source: seq<T>, s: World<T>, a: Act<T>, frame: nat, running: bool)
    requires Enabled(c, source, s, a) && (a.Create? || a.SetGate?)
    ensures Onward(s, Apply(c, source, s, a), frame, running)
  {
    hide Spsc.Enabled, Spsc.Apply;
  }

  lemma OwnerStep<T>(c: Spsc.Config, source: seq<T>, s: World<T>, a: Act<T>, frame: nat, running: bool)
    requires Enabled(c, source, s, a) && !ByProducer(a) && !a.DoReset? && !a.SourceSeek? && !a.CallSeek?
    ensures Onward(s, Apply(c, source, s, a), frame, running)
  {
    hide Spsc.Enabled, Spsc.Apply, Onward, OnReset, OnSinkStart, OnSinkStop, OnSetQuit, OnJoin, OnSeek, OnAcquire, OnCommit, OnCall,
      OnRead, OnWriteTurn, OnRingWrite, OnRingPull;
    match a {
      case Create(_) => CreateOnward(c, source, s, a, frame, running);
      case SetGate => CreateOnward(c, source, s, a, frame, running);
      case SinkStart(code) => StartOnward(s, code, frame, running);
      case SinkStop(code, resets) => StopOnward(s, code, resets, frame, running);
      case SetQuit => QuitOnward(s, frame, running);
      case Join(code) => JoinOnward(s, code, frame, running);
      case Acquire(code, n, saw) => AcquireOnward(c, s, code, n, saw, frame, running);
      case RingPull(step) => PullOnward(c, s, step, frame, running);
      case Commit(nodes, sink) => CommitOnward(s, nodes, sink, frame, running);
      case _ => CallOnward(source, s, a, frame, running);
    }
  }

  lemma SeeksStep<T>(c: Spsc.Config, source: seq<T>, s: World<T>, a: Act<T>, frame: nat, running: bool)
    requires Enabled(c, source, s, a) && Seeks(s, frame, running) && !a.CallSeek?
    ensures Seeks(Apply(c, source, s, a), frame, running)
  {
    hide Spsc.Enabled, Spsc.Apply, Enabled, Apply, ByProducer;
    if ByProducer(a) {
      ProducerStep(c, source, s, a);
    } else if a.DoReset? || a.SourceSeek? {
      SeeksMoves(c, source, s, a, frame, running);
    } else {
      OwnerStep(c, source, s, a, frame, running);
    }
  }

  lemma SeeksMoves<T>(c: Spsc.Config, source: seq<T>, s: World<T>, a: Act<T>, frame: nat, running: bool)
    requires Enabled(c, source, s, a) && Seeks(s, frame, running) && (a.DoReset? || a.SourceSeek?)
    ensures Seeks(Apply(c, source, s, a), frame, running)
  {
    hide Spsc.Enabled, Spsc.Apply;
  }

  lemma {:induction false} SeeksRun<T>(c: Spsc.Config, source: seq<T>, s: World<T>, acts: seq<Act<T>>, frame: nat, running: bool)
    requires Run(c, source, s, acts).Some? && Seeks(s, frame, running) && forall a :: a in acts ==> !a.CallSeek?
    ensures Seeks(Run(c, source, s, acts).value, frame, running)
    decreases |acts|
  {
    hide Enabled, Apply, Seeks;
    if acts != [] {
      SeeksStep(c, source, s, acts[0], frame, running);
      SeeksRun(c, source, Apply(c, source, s, acts[0]), acts[1..], frame, running);
    }
  }

  // No further seek of the source, and no start once frames have been read.
  predicate Undisturbed<T>(acts: seq<Act<T>>, read: bool)
    decreases |acts|
  {
    acts == [] || (!acts[0].SourceSeek? && !(read && acts[0].DoReset?) && Undisturbed(acts[1..], read || Moves(acts[0])))
  }

  // After the source was sought: it stands there until it is read, and every reset until then starts the count there.
  ghost predicate Plays<T>(s: World<T>, frame: nat, running: bool, read: bool, reported: Option<(nat, seq<T>)>) {
    && (s.owner.SeekReset? ==> !read && s.owner.running == running && (running ==> s.pipe.Stopped?))
    && (!read ==> s.pos == frame) && (!s.owner.SeekReset? ==> s.base == frame)
    && (s.reported == reported || (s.reported.Some? && s.reported.value.0 == frame))
  }

  lemma PlaysStep<T>(
    c: Spsc.Config, source: seq<T>, s: World<T>, a: Act<T>, frame: nat, running: bool, read: bool, reported: Option<(nat, seq<T>)>)
    requires Inv(c, source, s) && Enabled(c, source, s, a) && Plays(s, frame, running, read, reported)
    requires !a.SourceSeek? && !(read && a.DoReset?)
    ensures Plays(Apply(c, source, s, a), frame, running, read || Moves(a), reported)
  {
    hide Spsc.Inv, Spsc.Enabled, Spsc.Apply, ThreadInv, SourceInv, Enabled, Apply, Seeks;
    if ByProducer(a) {
      ProducerStep(c, source, s, a);
    } else if a.DoReset? {
      PlaysReset(c, source, s, frame, running, reported);
    } else if a.CallSeek? {
      SeekAgain(c, source, s, a);
    } else {
      OwnerStep(c, source, s, a, frame, running);
    }
  }

  lemma SeekAgain<T>(c: Spsc.Config, source: seq<T>, s: World<T>, a: Act<T>)
    requires Enabled(c, source, s, a) && a.CallSeek?
    ensures var t := Apply(c, source, s, a); t == s.(owner := t.owner, result := t.result) && s.owner.Free? && !t.owner.SeekReset?
  {
    hide Spsc.Enabled, Spsc.Apply;
  }

  lemma PlaysReset<T>(c: Spsc.Config, source: seq<T>, s: World<T>, frame: nat, running: bool, reported: Option<(nat, seq<T>)>)
    requires Enabled(c, source, s, DoReset) && Plays(s, frame, running, false, reported)
    ensures Plays(Apply(c, source, s, DoReset), frame, running, false, reported) && !ByProducer<T>(DoReset) && !Moves<T>(DoReset)
  {
    hide Spsc.Enabled, Spsc.Apply;
  }

  lemma {:induction false} PlaysRun<T>(
    c: Spsc.Config, source: seq<T>, s: World<T>, acts: seq<Act<T>>, frame: nat, running: bool, read: bool, reported: Option<(nat, seq<T>)>)
    requires Inv(c, source, s) && Run(c, source, s, acts).Some? && Plays(s, frame, running, read, reported) && Undisturbed(acts, read)
    ensures exists r: bool :: Plays(Run(c, source, s, acts).value, frame, running, r, reported)
    ensures Inv(c, source, Run(c, source, s, acts).value)
    decreases |acts|
  {
    hide Enabled, Apply, Plays, Inv, Moves;
    if acts != [] {
      StepKeepsInv(c, source, s, acts[0]);
      PlaysStep(c, source, s, acts[0], frame, running, read, reported);
      PlaysRun(c, source, Apply(c, source, s, acts[0]), acts[1..], frame, running, read || Moves(acts[0]), reported);
    }
  }

  /** A seek, in every run. From a state the player can be in, eaf_player_seek(frame) is called; `before` leads
      to the source's own seek, which succeeds, and `later` is anything after it that neither seeks the source
      again nor starts once more after frames were read: the restart that belongs to the seek, starts that
      fail, stops, and a start by the owner. From the seek's reset on, what was consumed is a run of the source
      from the sought frame, and an EOF reported since means that run is all of it. The reset itself goes on to
      start the thread exactly when the pipeline was running at the call. */
  lemma SeekRestartsAt<T>(
    c: Spsc.Config, source: seq<T>, s: World<T>, acts: seq<Act<T>>, frame: nat, before: seq<Act<T>>, position: nat, later: seq<Act<T>>)
    requires Start(c, s) && s.pos <= |source| && Run(c, source, s, acts).Some?
    requires var t := Run(c, source, s, acts).value;
      && t.owner.Free? && frame <= |source| && Run(c, source, OnCall(source, t, CallSeek(frame)), before).Some?
      && (forall a :: a in before ==> !a.CallSeek?)
      && var v := Run(c, source, OnCall(source, t, CallSeek(frame)), before).value;
      && Enabled(c, source, v, SourceSeek(OK, position)) && Undisturbed(later, false)
      && Run(c, source, OnSeek(v, OK, position), later).Some?
    ensures var t := Run(c, source, s, acts).value;
      var v := Run(c, source, OnCall(source, t, CallSeek(frame)), before).value;
      var u := Run(c, source, OnSeek(v, OK, position), later).value;
      && (!u.owner.SeekReset? ==> u.base == frame && u.ring.delivered <= source[frame..])
      && (u.reported != v.reported ==> u.reported == Some((frame, source[frame..])))
      && (u.owner.SeekReset? ==>
        var w := OnReset(u);
        w.base == frame && w.ring.accepted == [] && if t.pipe.Running? then w.owner == StartThread else w.owner == Free && w.result == Fine)
  {
    hide Spsc.Inv, Spsc.Enabled, Spsc.Apply, Inv, Run, Enabled, Plays, Seeks, OnSeek, OnReset, Undisturbed, OnCall;
    Spsc.StartInv(c, s.ring);
    FreshInv(c, source, s);
    RunKeepsInv(c, source, s, acts);
    var t := Run(c, source, s, acts).value;
    var call := OnCall(source, t, CallSeek(frame));
    CallKeepsInv(c, source, t, CallSeek(frame));
    SeekBegins(source, t, frame);
    RunKeepsInv(c, source, call, before);
    SeeksRun(c, source, call, before, frame, t.pipe.Running?);
    var v := Run(c, source, call, before).value;
    CanSeek(c, source, v, position);
    SeekKeepsInv(c, source, v, OK, position);
    SoughtPlays(v, frame, t.pipe.Running?, position);
    PlaysRun(c, source, OnSeek(v, OK, position), later, frame, t.pipe.Running?, false, v.reported);
    var u := Run(c, source, OnSeek(v, OK, position), later).value;
    var read :| Plays(u, frame, t.pipe.Running?, read, v.reported);
    PlayedSoFar(c, source, u, frame, t.pipe.Running?, read, v.reported);
  }

  lemma SeekBegins<T>(source: seq<T>, t: World<T>, frame: nat)
    requires t.owner.Free? && frame <= |source|
    ensures Seeks(OnCall(source, t, CallSeek(frame)), frame, t.pipe.Running?)
  {
  }

  lemma CanSeek<T>(c: Spsc.Config, source: seq<T>, v: World<T>, position: nat)
    requires Enabled(c, source, v, SourceSeek(OK, position))
    ensures v.owner.SeekSource? && position <= |source|
  {
    hide Spsc.Enabled;
  }

  lemma SoughtPlays<T>(v: World<T>, frame: nat, running: bool, position: nat)
    requires v.owner.SeekSource? && Seeks(v, frame, running)
    ensures Plays(OnSeek(v, OK, position), frame, running, false, v.reported)
  {
  }

  lemma PlayedSoFar<T>(c: Spsc.Config, source: seq<T>, u: World<T>, frame: nat, running: bool, read: bool, reported: Option<(nat, seq<T>)>)
    requires Inv(c, source, u) && Plays(u, frame, running, read, reported)
    ensures !u.owner.SeekReset? ==> frame <= |source| && u.base == frame && u.ring.delivered <= source[frame..]
    ensures u.reported != reported ==> frame <= |source| && u.reported == Some((frame, source[frame..]))
    ensures u.owner.SeekReset? ==>
      var w := OnReset(u);
      w.base == frame && w.ring.accepted == [] && if running then w.owner == StartThread else w.owner == Free && w.result == Fine
  {
    Spsc.DeliveredIsPrefix(c, u.ring);
    hide Spsc.Inv, ThreadInv;
    if u.reported != reported {
      assert source[frame..frame + |u.reported.value.1|] == source[frame..];
    }
  }
}
