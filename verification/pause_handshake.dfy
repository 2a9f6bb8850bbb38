/** platform/esp32_output/board_output.c: the pause handshake between the transport thread and the audio
    worker during one stream. One step is one atomic access or one call into the sink or the pipeline. */
module PauseHandshake {
  import opened Common

  // The audio worker's next step.
  datatype Worker =
    | Gate           // run_gate or quit?
    | Top            // quit?
    | Check          // pause_request?
    | HookOn         // sink_pause_hook(true)
    | Ack            // pause_ack := 1
    | Wait           // pause_request still set?
    | WaitQuit       // and quit not set?
    | HookOff        // sink_pause_hook(false)
    | Unack          // pause_ack := 0
    | Process        // apply_volume and eaf_pipeline_process
    | Leave          // done := 1
    | Gone

  // The transport thread's next step.
  datatype Transport =
    | Ready
    | Requested(want: bool)     // run_gate?
    | Early(want: bool)         // pause_ack := want, before the first release
    | Awaiting(want: bool)      // pause_ack == want?
    | AskDone(want: bool)       // done?
    | AskFailed(want: bool)     // failed?
    | Releasing | Releasing2    // pause_ack := 0, then run_gate := 1
    | Quitting                  // join

  // `paused` is set while the last answer to pause(true) was OK and neither pause(false) nor release has been
  // called since; `blocks` counts the blocks processed.
  datatype State = State(
    request: bool, ack: bool, gate: bool, quit: bool, done: bool, failed: bool,
    worker: Worker, transport: Transport, paused: bool, blocks: nat)

  // A step of the worker, with the result of a hook or of the pipeline; or a step of the transport thread:
  // a new call, the next access of the current one, or its time-out.
  datatype Step = Work(ok: bool, end: bool) | Pause(want: bool) | Release | Quit | Go | TimeOut

  predicate Calling(t: Transport) {
    t.Requested? || t.Awaiting? || t.AskDone? || t.AskFailed? || t.Early?
  }

  // Before a block: the gate, then quit, then the request.
  function OnLook(s: State): State {
    match s.worker
    case Gate => if s.gate || s.quit then s.(worker := Top) else s
    case Top => s.(worker := if s.quit then Leave else Check)
    case Check => s.(worker := if s.request then HookOn else Process)
    case _ => s
  }

  function OnPause(s: State, ok: bool): State {
    match s.worker
    case HookOn => if ok then s.(worker := Ack) else s.(failed := true, worker := Leave)
    case Ack => s.(ack := true, worker := Wait)
    case Wait => s.(worker := if s.request then WaitQuit else HookOff)
    case WaitQuit => s.(worker := if s.quit then HookOff else Wait)
    case HookOff => if ok then s.(worker := Unack) else s.(failed := true, worker := Leave)
    case Unack => s.(ack := false, worker := Top)
    case _ => s
  }

  function OnPlay(s: State, ok: bool, end: bool): State {
    match s.worker
    case Process =>
      if ok then s.(blocks := s.blocks + 1, worker := if end then Leave else Top)
      else s.(blocks := s.blocks + 1, failed := true, worker := Leave)
    case Leave => s.(done := true, worker := Gone)
    case _ => s
  }

  function OnWork(s: State, ok: bool, end: bool): State {
    if s.worker == Gate || s.worker == Top || s.worker == Check then OnLook(s)
    else if s.worker == Process || s.worker == Leave then OnPlay(s, ok, end)
    else OnPause(s, ok)
  }

  function OnCall(s: State): State {
    match s.transport
    case Requested(want) => s.(transport := if s.gate then Awaiting(want) else Early(want))
    case Early(want) => s.(ack := want, paused := want, transport := Ready)
    case Awaiting(want) => s.(transport := if s.ack == want then AskFailed(want) else AskDone(want))
    case AskDone(want) => s.(transport := if s.done then AskFailed(want) else Awaiting(want))
    case AskFailed(want) => s.(paused := want && !s.failed, transport := Ready)
    case _ => s
  }

  function OnRelease(s: State): State {
    match s.transport
    case Releasing => s.(ack := false, transport := Releasing2)
    case Releasing2 => s.(gate := true, transport := Ready)
    case Quitting => if s.worker == Gone then s.(transport := Ready) else s
    case _ => s
  }

  function OnGo(s: State): State {
    if Calling(s.transport) then OnCall(s) else OnRelease(s)
  }

  // pause(false) and release end the pause the moment they are called.
  function Next(s: State, step: Step): State {
    match step
    case Work(ok, end) => OnWork(s, ok, end)
    case Pause(want) => if s.transport != Ready then s else s.(request := want, paused := s.paused && want, transport := Requested(want))
    case Release => if s.transport != Ready || s.failed then s else s.(request := false, paused := false, transport := Releasing)
    case Quit => if s.transport != Ready then s else s.(quit := true, transport := Quitting)
    case Go => OnGo(s)
    case TimeOut => if s.transport.Awaiting? || s.transport.AskDone? then s.(transport := Ready) else s
  }

  // eaf_board_output_start, with the output held or not.
  function Start(held: bool): State {
    State(false, false, !held, false, false, false, Gate, Ready, false, 0)
  }

  // The worker has acknowledged a pause and not yet taken that back.
  predicate Acked(w: Worker) {
    w == Wait || w == WaitQuit || w == HookOff || w == Unack
  }

  // The worker cannot process a block before it looks at pause_request again.
  predicate MustLook(w: Worker) {
    w != Process
  }

  // An acknowledgement is only up while the worker is bound to look at the request again.
  ghost predicate AckIsSafe(s: State) {
    (s.ack && s.gate ==> Acked(s.worker) || s.worker == Leave || s.worker == Gone) && (s.transport.Releasing2? ==> !s.ack || s.gate)
    && GateHolds(s)
  }

  // Before the release the worker is still gated, or on its way out.
  ghost predicate GateHolds(s: State) {
    && (!s.gate ==> s.worker == Gate || (s.quit && (s.worker == Top || s.worker == Leave || s.worker == Gone)))
    && (s.done ==> s.worker == Gone)
    && (s.transport.Awaiting? || s.transport.AskDone? ==> s.gate)
    && (s.transport.Early? ==> !s.gate)
  }

  ghost predicate PauseIsSafe(s: State) {
    && (s.paused ==> s.request && MustLook(s.worker))
    && (Calling(s.transport) ==> s.request == s.transport.want)
    && (s.transport.AskFailed? && s.transport.want ==> MustLook(s.worker))
    && (s.transport.Releasing? || s.transport.Releasing2? ==> !s.request)
  }

  ghost predicate Inv(s: State) {
    AckIsSafe(s) && PauseIsSafe(s)
  }

  // The worker takes no part in the calls, and starts on a block only after it saw no request.
  predicate OnlyWorked(s: State, t: State) {
    && t.request == s.request && t.transport == s.transport && t.paused == s.paused && t.gate == s.gate && t.quit == s.quit
    && (t.worker == Process ==> !s.request) && (t.blocks != s.blocks ==> s.worker == Process)
  }

  lemma LookEffect(s: State)
    requires s.worker == Gate || s.worker == Top || s.worker == Check
    ensures OnlyWorked(s, OnLook(s)) && (AckIsSafe(s) ==> AckIsSafe(OnLook(s)))
  {
  }

  lemma PauseEffect(s: State, ok: bool)
    requires s.worker != Process
    ensures OnlyWorked(s, OnPause(s, ok)) && (AckIsSafe(s) ==> AckIsSafe(OnPause(s, ok)))
  {
  }

  lemma PlayEffect(s: State, ok: bool, end: bool)
    requires s.worker == Process || s.worker == Leave
    ensures OnlyWorked(s, OnPlay(s, ok, end)) && (AckIsSafe(s) ==> AckIsSafe(OnPlay(s, ok, end)))
  {
  }

  lemma WorkEffect(s: State, ok: bool, end: bool)
    ensures OnlyWorked(s, OnWork(s, ok, end)) && (AckIsSafe(s) ==> AckIsSafe(OnWork(s, ok, end)))
  {
    hide OnLook, OnPause, OnPlay, OnlyWorked, AckIsSafe;
    if s.worker == Gate || s.worker == Top || s.worker == Check {
      LookEffect(s);
    } else if s.worker == Process || s.worker == Leave {
      PlayEffect(s, ok, end);
    } else {
      PauseEffect(s, ok);
    }
  }

  lemma WorkKeepsInv(s: State, ok: bool, end: bool)
    requires Inv(s)
    ensures Inv(OnWork(s, ok, end))
  {
    hide OnWork, AckIsSafe;
    WorkEffect(s, ok, end);
  }

  lemma CallKeepsAck(s: State)
    requires AckIsSafe(s)
    ensures AckIsSafe(OnCall(s))
  {
  }

  lemma CallKeepsPause(s: State)
    requires Inv(s) && Calling(s.transport)
    ensures PauseIsSafe(OnCall(s))
  {
  }

  lemma ReleaseKeepsInv(s: State)
    requires Inv(s) && !Calling(s.transport)
    ensures Inv(OnRelease(s))
  {
  }

  lemma GoKeepsInv(s: State)
    requires Inv(s)
    ensures Inv(OnGo(s))
  {
    hide OnCall, OnRelease, AckIsSafe, PauseIsSafe;
    if Calling(s.transport) {
      CallKeepsAck(s);
      CallKeepsPause(s);
    } else {
      ReleaseKeepsInv(s);
    }
  }

  lemma StepKeepsInv(s: State, step: Step)
    requires Inv(s)
    ensures Inv(Next(s, step))
  {
    hide OnWork, OnGo;
    match step
    case Work(ok, end) => WorkKeepsInv(s, ok, end);
    case Go => GoKeepsInv(s);
    case _ =>
  }

  function Run(s: State, steps: seq<Step>): State
    decreases |steps|
  {
    if steps == [] then s else Run(Next(s, steps[0]), steps[1..])
  }

  lemma {:induction false} RunKeepsInv(s: State, steps: seq<Step>)
    requires Inv(s)
    ensures Inv(Run(s, steps))
    decreases |steps|
  {
    hide Next, Inv;
    if steps != [] {
      StepKeepsInv(s, steps[0]);
      RunKeepsInv(Next(s, steps[0]), steps[1..]);
    }
  }

  // The calls that end a pause.
  predicate Ends(step: Step) {
    step == Pause(false) || step == Release
  }

  // The request is up, nobody is taking it down, and the worker has to look at it before the next block.
  predicate Quiet(s: State) {
    s.request && MustLook(s.worker) && !s.transport.Releasing? && !s.transport.Releasing2? && (Calling(s.transport) ==> s.transport.want)
  }

  lemma QuietWork(s: State, ok: bool, end: bool)
    requires Quiet(s)
    ensures Quiet(OnWork(s, ok, end)) && OnWork(s, ok, end).blocks == s.blocks
  {
    hide OnWork;
    WorkEffect(s, ok, end);
  }

  lemma QuietCall(s: State)
    requires Quiet(s) && Calling(s.transport)
    ensures Quiet(OnCall(s)) && OnCall(s).blocks == s.blocks
  {
  }

  lemma QuietGo(s: State)
    requires Quiet(s)
    ensures Quiet(OnGo(s)) && OnGo(s).blocks == s.blocks
  {
    hide OnCall;
    if Calling(s.transport) {
      QuietCall(s);
    }
  }

  lemma QuietStep(s: State, step: Step)
    requires Quiet(s) && !Ends(step)
    ensures Quiet(Next(s, step)) && Next(s, step).blocks == s.blocks
  {
    hide OnWork, OnGo;
    match step
    case Work(ok, end) => QuietWork(s, ok, end);
    case Go => QuietGo(s);
    case _ =>
  }

  lemma {:induction false} QuietRun(s: State, steps: seq<Step>)
    requires Quiet(s) && forall step :: step in steps ==> !Ends(step)
    ensures Run(s, steps).blocks == s.blocks
    decreases |steps|
  {
    hide Next, Quiet;
    if steps != [] {
      assert steps[0] in steps;
      QuietStep(s, steps[0]);
      QuietRun(Next(s, steps[0]), steps[1..]);
    }
  }

  /** In every interleaving, from a pause(true) that returned OK until the next pause(false) or release, no block
      is processed. */
  lemma NoBlockWhilePaused(held: bool, before: seq<Step>, after: seq<Step>)
    requires Run(Start(held), before).paused && forall step :: step in after ==> !Ends(step)
    ensures Run(Run(Start(held), before), after).blocks == Run(Start(held), before).blocks
  {
    hide Next, Run;
    RunKeepsInv(Start(held), before);
    QuietRun(Run(Start(held), before), after);
  }

  // Steps of the worker in a run.
  function Works(steps: seq<Step>): nat
    decreases |steps|
  {
    if steps == [] then 0 else Works(steps[1..]) + if steps[0].Work? then 1 else 0
  }

  // Hooks and the pipeline succeed, the stream does not end, and nobody stops the output.
  predicate Smooth(step: Step) {
    !step.Quit? && (step.Work? ==> step.ok && !step.end)
  }

  // Steps of the worker until it has finished a block, while no pause is requested.
  function ToBlock(w: Worker): nat {
    match w
    case HookOn => 8
    case Ack => 7
    case WaitQuit => 7
    case Wait => 6
    case HookOff => 5
    case Unack => 4
    case Top => 3
    case Check => 2
    case Process => 1
    case _ => 4
  }

  // Released, with the worker at work or on its way from the gate.
  predicate Free(s: State) {
    s.gate && !s.quit && s.worker != Leave && s.worker != Gone
  }

  lemma FreeWork(s: State)
    requires Free(s) && !s.request
    ensures var t := OnWork(s, true, false);
      Free(t) && !t.request && (t.blocks > s.blocks || (t.blocks == s.blocks && ToBlock(t.worker) < ToBlock(s.worker)))
  {
  }

  lemma FreeStep(s: State, step: Step)
    requires Free(s) && Smooth(step) && !step.Work?
    ensures var t := Next(s, step); Free(t) && t.worker == s.worker && t.blocks == s.blocks && (t.request ==> s.request || step == Pause(true))
  {
    match s.transport {
      case Requested(want) =>
      case Early(want) =>
      case Awaiting(want) =>
      case AskDone(want) =>
      case AskFailed(want) =>
      case _ =>
    }
  }

  lemma BlocksGrow(s: State, step: Step)
    ensures Next(s, step).blocks >= s.blocks
  {
    hide OnLook;
    if step.Go? {
      match s.transport {
        case Requested(want) =>
        case Early(want) =>
        case Awaiting(want) =>
        case AskDone(want) =>
        case AskFailed(want) =>
        case _ =>
      }
    } else if step.Work? {
      WorkBlocks(s, step.ok, step.end);
    }
  }

  lemma WorkBlocks(s: State, ok: bool, end: bool)
    ensures OnWork(s, ok, end).blocks >= s.blocks
  {
    hide OnLook, OnPause;
    if s.worker != Process {
      hide OnWork;
      WorkEffect(s, ok, end);
    }
  }

  lemma {:induction false} RunBlocksGrow(s: State, steps: seq<Step>)
    ensures Run(s, steps).blocks >= s.blocks
    decreases |steps|
  {
    hide Next;
    if steps != [] {
      BlocksGrow(s, steps[0]);
      RunBlocksGrow(Next(s, steps[0]), steps[1..]);
    }
  }

  /** Playback goes on: from any state after the release with no pause requested, a pause just withdrawn included,
      eight steps of the worker finish another block, whatever the transport thread does in between except
      requesting a pause or stopping. */
  lemma {:induction false} PlaybackGoesOn(s: State, steps: seq<Step>)
    requires Free(s) && !s.request && Works(steps) >= ToBlock(s.worker)
    requires forall step :: step in steps ==> Smooth(step) && step != Pause(true)
    ensures Run(s, steps).blocks > s.blocks
    decreases |steps|
  {
    hide Next, Smooth, Free, ToBlock;
    if steps == [] {
      SomeWork(s.worker);
    } else {
      var step := steps[0];
      assert step in steps;
      if step.Work? {
        SmoothWork(s, step);
        FreeWork(s);
        if Next(s, step).blocks > s.blocks {
          RunBlocksGrow(Next(s, step), steps[1..]);
        } else {
          PlaybackGoesOn(Next(s, step), steps[1..]);
        }
      } else {
        FreeStep(s, step);
        PlaybackGoesOn(Next(s, step), steps[1..]);
      }
    }
  }

  lemma SomeWork(w: Worker)
    ensures ToBlock(w) > 0
  {
  }

  lemma SmoothWork(s: State, step: Step)
    requires step.Work? && Smooth(step)
    ensures Next(s, step) == OnWork(s, true, false)
  {
  }

  // Steps of the worker until it has acknowledged a pause.
  function ToAck(w: Worker): nat {
    match w
    case Process => 5
    case Top => 4
    case Check => 3
    case HookOn => 2
    case Ack => 1
    case HookOff => 6
    case Unack => 5
    case Gate => 5
    case _ => 0
  }

  lemma PausingWork(s: State)
    requires Free(s) && s.request && !(s.worker == Wait || s.worker == WaitQuit)
    ensures var t := OnWork(s, true, false); Free(t) && t.request && ToAck(t.worker) < ToAck(s.worker) && (t.worker == Wait ==> t.ack)
  {
  }

  lemma HoldingWork(s: State)
    requires Free(s) && s.request && (s.worker == Wait || s.worker == WaitQuit)
    ensures var t := OnWork(s, true, false); Free(t) && t.request && t.ack == s.ack && (t.worker == Wait || t.worker == WaitQuit)
  {
  }

  // The transport thread leaves the acknowledgement alone while it only asks for the pause.
  lemma AskingStep(s: State, step: Step)
    requires Free(s) && s.request && Smooth(step) && !Ends(step) && !step.Work?
    requires !s.transport.Releasing? && !s.transport.Releasing2? && !s.transport.Early? && (Calling(s.transport) ==> s.transport.want)
    ensures var t := Next(s, step);
      && Free(t) && t.request && t.worker == s.worker && t.ack == s.ack
      && !t.transport.Releasing? && !t.transport.Releasing2? && !t.transport.Early? && (Calling(t.transport) ==> t.transport.want)
  {
    match s.transport {
      case Requested(want) =>
      case Awaiting(want) =>
      case AskDone(want) =>
      case AskFailed(want) =>
      case _ =>
    }
  }

  lemma TakenAlready(s: State)
    requires Free(s) && ToAck(s.worker) == 0
    ensures s.worker == Wait || s.worker == WaitQuit
  {
  }

  /** A requested pause is taken: within six steps of the worker it has acknowledged it and waits, as long as
      nobody withdraws the request, and it stays so. */
  lemma {:induction false} PauseIsTaken(s: State, steps: seq<Step>)
    requires Free(s) && s.request && ((s.worker == Wait || s.worker == WaitQuit) ==> s.ack) && Works(steps) >= ToAck(s.worker)
    requires !s.transport.Releasing? && !s.transport.Releasing2? && !s.transport.Early? && (Calling(s.transport) ==> s.transport.want)
    requires forall step :: step in steps ==> Smooth(step) && !Ends(step)
    ensures var t := Run(s, steps); t.ack && (t.worker == Wait || t.worker == WaitQuit)
    decreases |steps|
  {
    hide Next, Smooth, Free, Ends;
    if steps == [] {
      TakenAlready(s);
    } else {
      var step := steps[0];
      assert step in steps;
      if step.Work? {
        SmoothWork(s, step);
        WorkEffect(s, true, false);
        if s.worker == Wait || s.worker == WaitQuit {
          HoldingWork(s);
        } else {
          PausingWork(s);
        }
      } else {
        AskingStep(s, step);
      }
      PauseIsTaken(Next(s, step), steps[1..]);
    }
  }
}
