/** hal/common/sink_i2s_core.c: the I2S sink's ownership of DMA blocks and of the running hardware, for every
    sequence of sink calls and every failure of the backend. */
module I2sCore {
  import opened Common

  const MAX_FRAMES := 1024

  // Calls to the backend, with what they returned.
  datatype Call =
    | Alloc(block: nat)
    | Free(block: nat)
    | Write(block: nat, full: bool)
    | Enable(rc: int)
    | StartClock(rc: int)
    | Drain(rc: int)
    | Disable(rc: int)
    | Drop(rc: int)
    | Delete(rc: int)

  // What the driver holds after a log of calls. `drained` waits for the clock to be disabled.
  datatype Driver = Driver(held: Option<nat>, on: bool, drained: bool, taken: nat, freed: nat, written: nat)

  const IDLE: Driver := Driver(None, false, false, 0, 0, 0)

  // The rules: one block at a time, given back or written whole; the clock goes up when it is down; it goes
  // down after a drain, and after a disable where the backend has one; drop and delete come last.
  predicate Allowed(d: Driver, c: Call) {
    match c
    case Alloc(block) => d.held == None
    case Free(block) => d.held == Some(block)
    case Write(block, full) => d.held == Some(block)
    case Enable(rc) => !d.on
    case StartClock(rc) => !d.on
    case Drain(rc) => d.on
    case Disable(rc) => d.on && d.drained
    case Drop(rc) => !d.on && d.held == None
    case Delete(rc) => !d.on && d.held == None
  }

  function Apply(hasDisable: bool, d: Driver, c: Call): Driver {
    match c
    case Alloc(block) => d.(held := Some(block), taken := d.taken + 1)
    case Free(block) => d.(held := None, freed := d.freed + 1)
    case Write(block, full) => if full then d.(held := None, written := d.written + 1) else d
    case Enable(rc) => d.(on := rc == OK, drained := false)
    case StartClock(rc) => d.(on := rc == OK, drained := false)
    case Drain(rc) => if rc != OK then d.(drained := false) else if hasDisable then d.(drained := true) else d.(on := false, drained := false)
    case Disable(rc) => if rc == OK then d.(on := false, drained := false) else d
    case Drop(rc) => d
    case Delete(rc) => d
  }

  function DriverOf(hasDisable: bool, log: seq<Call>): Driver
    decreases |log|
  {
    if log == [] then IDLE else Apply(hasDisable, DriverOf(hasDisable, log[..|log| - 1]), log[|log| - 1])
  }

  ghost predicate Lawful(hasDisable: bool, log: seq<Call>) {
    forall i :: 0 <= i < |log| ==> Allowed(DriverOf(hasDisable, log[..i]), log[i])
  }

  lemma LawfulMore(hasDisable: bool, log: seq<Call>, c: Call)
    requires Lawful(hasDisable, log) && Allowed(DriverOf(hasDisable, log), c)
    ensures Lawful(hasDisable, log + [c]) && DriverOf(hasDisable, log + [c]) == Apply(hasDisable, DriverOf(hasDisable, log), c)
  {
    hide Allowed, Apply;
    var more := log + [c];
    assert more[..|log|] == log;
    forall i | 0 <= i < |more| ensures Allowed(DriverOf(hasDisable, more[..i]), more[i]) {
      assert i < |log| ==> more[..i] == log[..i];
    }
  }

  /** Every block ever allocated was freed, was written whole, or is the one held. */
  lemma {:induction false} BlocksAreConserved(hasDisable: bool, log: seq<Call>)
    requires Lawful(hasDisable, log)
    ensures var d := DriverOf(hasDisable, log); d.taken == d.freed + d.written + if d.held.Some? then 1 else 0
    decreases |log|
  {
    hide Allowed, Apply;
    if log != [] {
      var prefix, c := log[..|log| - 1], log[|log| - 1];
      forall i | 0 <= i < |prefix| ensures Allowed(DriverOf(hasDisable, prefix[..i]), prefix[i]) {
        assert prefix[..i] == log[..i];
      }
      BlocksAreConserved(hasDisable, prefix);
      BlockMoves(hasDisable, DriverOf(hasDisable, prefix), c);
    }
  }

  lemma BlockMoves(hasDisable: bool, d: Driver, c: Call)
    requires Allowed(d, c) && d.taken == d.freed + d.written + if d.held.Some? then 1 else 0
    ensures var e := Apply(hasDisable, d, c); e.taken == e.freed + e.written + if e.held.Some? then 1 else 0
  {
  }

  /** The clock is found stopped only after a drain that succeeded, and a disable too where there is one. */
  lemma {:induction false} StopsAreClean(hasDisable: bool, log: seq<Call>, i: nat, j: nat)
    requires Lawful(hasDisable, log) && i < j <= |log| && DriverOf(hasDisable, log[..i]).on && !DriverOf(hasDisable, log[..j]).on
    ensures Drain(OK) in log[i..j] || DriverOf(hasDisable, log[..i]).drained
    ensures hasDisable ==> Disable(OK) in log[i..j]
    decreases j - i
  {
    hide Apply;
    var d := DriverOf(hasDisable, log[..i]);
    assert log[..i + 1][..i] == log[..i];
    var e := DriverOf(hasDisable, log[..i + 1]);
    assert Allowed(d, log[i]) && e == Apply(hasDisable, d, log[i]);
    ClockMoves(hasDisable, d, log[i]);
    assert log[i] in log[i..j];
    if e.on {
      StopsAreClean(hasDisable, log, i + 1, j);
      assert forall c :: c in log[i + 1..j] ==> c in log[i..j];
    }
  }

  lemma ClockMoves(hasDisable: bool, d: Driver, c: Call)
    requires Allowed(d, c) && d.on
    ensures var e := Apply(hasDisable, d, c);
      if e.on then e.drained ==> d.drained || c == Drain(OK)
      else if hasDisable then c == Disable(OK) && d.drained
      else c == Drain(OK) || d.drained
  {
  }

  // What the backend answers during one sink call.
  datatype Answers = Answers(
    configure: int, block: Option<nat>, enable: int, write: int, written: nat, start: int, drain: int, disable: int, drop: int, delete: int)

  /** eaf_i2s_core_t. */
  class Core {
    const enableFirst: bool
    const hasDisable: bool
    const hasDrop: bool
    const hasDelete: bool
    var dma: Option<nat>
    var frames: nat
    var submitted: nat
    var configured: bool
    var running: bool
    var started: bool
    var paused: bool
    var held: bool
    ghost var log: seq<Call>
    ghost var driver: Driver

    ghost predicate Logged()
      reads `log, `driver
    {
      Lawful(hasDisable, log) && driver == DriverOf(hasDisable, log)
    }

    ghost predicate Owns()
      reads `dma, `configured, `running, `started, `paused, `held, `driver
    {
      && driver.held == dma && held == dma.Some? && driver.on == started
      && (held ==> running) && (started ==> running) && (running ==> configured)
      && (paused ==> running && !started && !held)
    }

    ghost predicate Valid()
      reads this
    {
      Logged() && Owns()
    }

    constructor (enableFirst: bool, hasDisable: bool, hasDrop: bool, hasDelete: bool)
      ensures Valid() && !configured && log == []
    {
      this.enableFirst, this.hasDisable, this.hasDrop, this.hasDelete := enableFirst, hasDisable, hasDrop, hasDelete;
      dma, frames, submitted := None, 0, 0;
      configured, running, started, paused, held := false, false, false, false, false;
      log, driver := [], IDLE;
    }

    ghost method Note(c: Call)
      requires Logged() && Allowed(driver, c)
      modifies `log, `driver
      ensures Logged() && log == old(log) + [c] && driver == Apply(hasDisable, old(driver), c)
    {
      LawfulMore(hasDisable, log, c);
      log := log + [c];
      driver := Apply(hasDisable, driver, c);
    }

    // The calls of a drain, and whether they succeed.
    function DrainCalls(a: Answers): seq<Call> {
      [Drain(a.drain)] + if a.drain == OK && hasDisable then [Disable(a.disable)] else []
    }

    predicate Drains(a: Answers) {
      a.drain == OK && (hasDisable ==> a.disable == OK)
    }

    // eaf_i2s_core_drain.
    method DrainQueue(a: Answers) returns (rc: int)
      requires Valid()
      modifies `log, `driver, `started
      ensures Valid() && log == old(log) + if old(started) then DrainCalls(a) else []
      ensures rc == (if old(started) && !Drains(a) then IO else OK) && started == (rc != OK)
      ensures old(started) && a.drain != OK ==> rc == IO && log == old(log) + [Drain(a.drain)]
      ensures old(started) && a.drain == OK && hasDisable ==> log == old(log) + [Drain(OK), Disable(a.disable)] && (rc == OK <==> a.disable == OK)
      ensures old(started) && a.drain == OK && !hasDisable ==> log == old(log) + [Drain(OK)] && rc == OK
    {
      hide Logged;
      rc := OK;
      if !started {
        return;
      }
      Note(Drain(a.drain));
      if a.drain != OK {
        return IO;
      }
      if hasDisable {
        Note(Disable(a.disable));
        if a.disable != OK {
          return IO;
        }
      }
      started := false;
    }

    // eaf_i2s_core_pause.
    method Pause(want: bool, a: Answers) returns (rc: int)
      requires Valid()
      modifies `log, `driver, `started, `paused
      ensures Valid() && old(log) <= log
      ensures rc == (if !running || held then STATE else if !old(paused) && want && old(started) && !Drains(a) then IO else OK)
      ensures paused == (if rc == OK then want else old(paused))
      ensures started == (old(started) && !(rc == OK && want)) && (rc == OK && paused ==> !held)
      ensures log == old(log) + if running && !held && !old(paused) && want && old(started) then DrainCalls(a) else []
    {
      hide Logged;
      if !running || held {
        return STATE;
      }
      if paused == want {
        return OK;
      }
      if want && started {
        rc := DrainQueue(a);
        if rc != OK {
          return;
        }
      }
      paused := want;
      rc := OK;
    }

    method Init(format: Format, blockFrames: nat, a: Answers) returns (rc: int)
      requires Valid()
      modifies `frames, `dma, `held, `configured
      ensures Valid()
      ensures rc == if old(configured) || running then STATE
        else if !FormatValid(format) || format.channels != 2 || format.mask != 3 || blockFrames == 0 then INVALID
        else a.configure
      ensures configured == (old(configured) || rc == OK)
      ensures rc == OK && !old(configured) ==> frames == Min(blockFrames, MAX_FRAMES)
    {
      hide Logged, FormatValid;
      if configured || running {
        return STATE;
      }
      if !FormatValid(format) || format.channels != 2 || format.mask != 3 || blockFrames == 0 {
        return INVALID;
      }
      rc := a.configure;
      if rc != OK {
        return;
      }
      frames := Min(blockFrames, MAX_FRAMES);
      dma, held, configured := None, false, true;
    }

    method Start() returns (rc: int)
      requires Valid()
      modifies `paused, `submitted, `running, `started, `held
      ensures Valid() && rc == (if !configured || old(running) then STATE else OK)
      ensures rc == OK ==> running && !paused && submitted == 0 && started == old(started) && held == old(held)
    {
      hide Logged;
      if !configured || running {
        return STATE;
      }
      paused, submitted, running, started, held := false, 0, true, false, false;
      rc := OK;
    }

    method Acquire(a: Answers) returns (rc: int)
      requires Valid()
      modifies `dma, `held, `log, `driver
      ensures Valid() && old(log) <= log
      ensures rc == if !running || paused || old(held) then STATE else if a.block == None then IO else OK
      ensures rc == OK ==> held && dma == a.block && driver.taken == old(driver).taken + 1
      ensures rc != OK ==> held == old(held) && log == old(log)
    {
      hide Logged;
      if !running || paused || held {
        return STATE;
      }
      if a.block == None {
        return IO;
      }
      dma, held := a.block, true;
      Note(Alloc(a.block.value));
      rc := OK;
    }

    // The write of the held block: it leaves only when it was written whole.
    method Submit(frameCount: nat, a: Answers) returns (rc: int)
      requires Valid() && held && !paused
      modifies `dma, `held, `log, `driver, `submitted
      ensures Valid() && log == old(log) + [Write(old(dma).value, rc == OK)] && (rc == OK || rc == IO)
      ensures (rc == OK) == (a.write == OK && a.written == frameCount * 8)
      ensures if rc == OK then !held && submitted == old(submitted) + 1 && driver.written == old(driver).written + 1
        else held && submitted == old(submitted) && driver.written == old(driver).written && dma == old(dma)
    {
      hide Logged;
      var full := a.write == OK && a.written == frameCount * 8;
      Note(Write(dma.value, full));
      if !full {
        return IO;
      }
      held, dma, submitted := false, None, submitted + 1;
      rc := OK;
    }

    // core_commit; `own` says that the buffer is the sink's own.
    method Commit(own: bool, frameCount: nat, eos: bool, a: Answers) returns (rc: int)
      requires Valid()
      modifies `dma, `held, `log, `driver, `submitted, `started
      ensures Valid() && old(log) <= log
      ensures !running || !old(held) || !own ==> rc == STATE && log == old(log) && held == old(held) && started == old(started)
      ensures running && old(held) && own ==>
        var enabled := old(started) || !enableFirst || a.enable == OK;
        var whole := enabled && a.write == OK && a.written == frameCount * 8;
        var on := whole && (old(started) || enableFirst || a.start == OK);
        && held == !whole && submitted == old(submitted) + (if whole then 1 else 0)
        && rc == (if on && (eos ==> Drains(a)) then OK else IO)
        && started == (if on && eos && Drains(a) then false else old(started) || (enableFirst && a.enable == OK) || on)
        && log == old(log)
          + (if !old(started) && enableFirst then [Enable(a.enable)] else [])
          + (if enabled then [Write(old(dma).value, whole)] else [])
          + (if whole && !old(started) && !enableFirst then [StartClock(a.start)] else [])
          + (if on && eos then DrainCalls(a) else [])
    {
      hide Logged;
      if !running || !held || !own {
        return STATE;
      }
      if !started && enableFirst {
        Note(Enable(a.enable));
        if a.enable != OK {
          return IO;
        }
        started := true;
      }
      rc := Submit(frameCount, a);
      if rc != OK {
        return;
      }
      if !started {
        Note(StartClock(a.start));
        if a.start != OK {
          return IO;
        }
        started := true;
      }
      if eos {
        rc := DrainQueue(a);
      }
    }

    method GiveBack()
      requires Valid() && held
      modifies `dma, `held, `log, `driver
      ensures Valid() && !held && log == old(log) + [Free(old(dma).value)] && driver.freed == old(driver).freed + 1
    {
      hide Logged;
      Note(Free(dma.value));
      dma, held := None, false;
    }

    // core_stop: the held block is given back before the queue is drained.
    method Stop(a: Answers) returns (rc: int)
      requires Valid()
      modifies `dma, `held, `log, `driver, `started, `running, `paused
      ensures Valid() && !held && rc == if (old(started) && !Drains(a)) || (hasDrop && a.drop != OK) then IO else OK
      ensures running == (old(running) && rc != OK) && paused == (old(paused) && rc != OK) && started == (old(started) && !Drains(a))
      ensures log == old(log)
        + (if old(held) then [Free(old(dma).value)] else [])
        + (if old(started) then DrainCalls(a) else [])
        + (if hasDrop && (old(started) ==> Drains(a)) then [Drop(a.drop)] else [])
    {
      hide Logged;
      if held {
        GiveBack();
      }
      if started {
        rc := DrainQueue(a);
        if rc != OK {
          return;
        }
      }
      if hasDrop {
        Note(Drop(a.drop));
        if a.drop != OK {
          return IO;
        }
      }
      running, paused := false, false;
      rc := OK;
    }

    method Deinit(a: Answers) returns (rc: int)
      requires Valid()
      modifies `dma, `held, `log, `driver, `started, `running, `paused, `configured
      ensures Valid() && old(log) <= log && !held
      ensures rc == if (old(started) && !Drains(a)) || (hasDrop && a.drop != OK) || (hasDelete && a.delete != OK) then IO else OK
      ensures rc == OK ==> !configured && !running && !started && driver.taken == driver.freed + driver.written
      ensures rc != OK ==> configured == old(configured)
    {
      hide Lawful, DriverOf, DrainCalls, Drains;
      rc := Stop(a);
      if rc != OK {
        return;
      }
      if hasDelete {
        Note(Delete(a.delete));
        if a.delete != OK {
          return IO;
        }
      }
      configured := false;
      BlocksAreConserved(hasDisable, log);
    }

    /** What holds between any two calls: every block is accounted for, only a running sink holds one, and a
        paused sink neither holds a block nor runs the clock. */
    lemma NothingLeaks()
      requires Valid()
      ensures driver.taken == driver.freed + driver.written + (if held then 1 else 0)
      ensures (held ==> running) && (paused ==> !started && !held) && (!running ==> !started)
    {
      hide Lawful, DriverOf;
      BlocksAreConserved(hasDisable, log);
    }
  }
}
