/** core/eaf_graph.c: the pipeline's lifecycle under arbitrary results of its nodes and its sink. Every call
    out is logged, and every log the pipeline can produce is lawful. */
module Pipelines {
  import opened Common

  datatype State = Uninitialized | Initialized | Configured | Running | Stopped | Recovery

  // eaf_buffer_t; `storage` is the identity of the sample storage it points to.
  datatype Block = Block(storage: int, frameCount: nat, capacityFrames: nat, capacitySamples: nat, format: Format, flags: nat)

  // Calls out of the pipeline, with what they returned.
  datatype Call =
    | Adopt(count: nat)
    | NodeInit(node: nat, rc: int)
    | NodeDeinit(node: nat)
    | NodeReset(node: nat)
    | SinkInit(rc: int, format: Format, frames: nat)
    | SinkDeinit(rc: int)
    | SourceReset            // eaf_reservoir_reset
    | SinkStart(rc: int)
    | SinkStop(rc: int)
    | Commit(block: Block, owned: Block, rc: int, last: bool)

  // What a log has left standing.
  datatype Account = Account(
    count: nat, live: nat, sinkOwed: bool, ready: bool, running: bool, done: bool, format: Format, frames: nat)

  const NO_FORMAT: Format := Format(0, 0, 0)
  const NOTHING: Account := Account(0, 0, false, false, false, false, NO_FORMAT, 0)

  // The rules: nodes come up in order and go down in reverse order with the sink already down; the sink
  // comes up over all nodes and works only while it is up; a committed block is the sink's own storage
  // with the configured format and length, and none follows the last one until the next start.
  predicate Allowed(a: Account, c: Call) {
    match c
    case Adopt(count) => a.live == 0 && !a.sinkOwed
    case NodeInit(node, rc) => node == a.live < a.count && !a.sinkOwed
    case NodeDeinit(node) => node + 1 == a.live && !a.sinkOwed
    case NodeReset(node) => node < a.live
    case SinkInit(rc, format, frames) => a.live == a.count && !a.sinkOwed
    case SinkDeinit(rc) => a.sinkOwed && !a.running
    case SourceReset => !a.running
    case SinkStart(rc) => a.ready && a.live == a.count && !a.running
    case SinkStop(rc) => a.sinkOwed
    case Commit(block, owned, rc, last) =>
      a.running && a.ready && a.live == a.count && !a.done
      && block.storage == owned.storage && block.capacityFrames == owned.capacityFrames && block.capacitySamples == owned.capacitySamples
      && block.format == a.format && block.frameCount == a.frames <= block.capacityFrames
  }

  function Apply(a: Account, c: Call): Account {
    match c
    case Adopt(count) => a.(count := count)
    case NodeInit(node, rc) => a.(live := a.live + 1)
    case NodeDeinit(node) => if a.live > 0 then a.(live := a.live - 1) else a
    case NodeReset(node) => a
    case SinkInit(rc, format, frames) => a.(sinkOwed := true, ready := rc == OK, format := format, frames := frames)
    case SinkDeinit(rc) => a.(sinkOwed := rc != OK, ready := false)
    case SourceReset => a
    case SinkStart(rc) => a.(running := rc == OK, done := false)
    case SinkStop(rc) => if rc == OK then a.(running := false) else a
    case Commit(block, owned, rc, last) => a.(done := a.done || (last && rc == OK))
  }

  function AccountOf(log: seq<Call>): Account
    decreases |log|
  {
    if log == [] then NOTHING else Apply(AccountOf(log[..|log| - 1]), log[|log| - 1])
  }

  ghost predicate Lawful(log: seq<Call>) {
    forall i :: 0 <= i < |log| ==> Allowed(AccountOf(log[..i]), log[i])
  }

  lemma LawfulMore(log: seq<Call>, c: Call)
    requires Lawful(log) && Allowed(AccountOf(log), c)
    ensures Lawful(log + [c]) && AccountOf(log + [c]) == Apply(AccountOf(log), c)
  {
    hide Allowed, Apply;
    var more := log + [c];
    assert more[..|log|] == log;
    forall i | 0 <= i < |more| ensures Allowed(AccountOf(more[..i]), more[i]) {
      assert i < |log| ==> more[..i] == log[..i];
    }
  }

  lemma LawfulPrefix(log: seq<Call>, n: nat)
    requires Lawful(log) && n <= |log|
    ensures Lawful(log[..n])
  {
    hide Allowed;
    forall i | 0 <= i < n ensures Allowed(AccountOf(log[..n][..i]), log[..n][i]) {
      assert log[..n][..i] == log[..i];
    }
  }

  // Calls of one node's init, and of its deinit.
  function Inits(log: seq<Call>, node: nat): nat
    decreases |log|
  {
    if log == [] then 0
    else
      var last := log[|log| - 1];
      Inits(log[..|log| - 1], node) + if last.NodeInit? && last.node == node then 1 else 0
  }

  function Deinits(log: seq<Call>, node: nat): nat
    decreases |log|
  {
    if log == [] then 0
    else Deinits(log[..|log| - 1], node) + if log[|log| - 1] == NodeDeinit(node) then 1 else 0
  }

  /** Each init call of a node is matched by exactly one deinit call; the nodes not yet matched are the live ones. */
  lemma {:induction false} InitsAreMatched(log: seq<Call>, node: nat)
    requires Lawful(log)
    ensures Inits(log, node) == Deinits(log, node) + if node < AccountOf(log).live then 1 else 0
    decreases |log|
  {
    hide Lawful;
    if log != [] {
      var prefix, c := log[..|log| - 1], log[|log| - 1];
      LawfulPrefix(log, |log| - 1);
      InitsAreMatched(prefix, node);
      LastAllowed(log);
      LiveMoves(AccountOf(prefix), c, node);
    }
  }

  lemma LastAllowed(log: seq<Call>)
    requires Lawful(log) && log != []
    ensures Allowed(AccountOf(log[..|log| - 1]), log[|log| - 1])
  {
  }

  lemma LiveMoves(a: Account, c: Call, node: nat)
    requires Allowed(a, c)
    ensures (if node < Apply(a, c).live then 1 else 0)
         == (if node < a.live then 1 else 0) + (if c.NodeInit? && c.node == node then 1 else 0) - (if c == NodeDeinit(node) then 1 else 0)
  {
  }

  /** After the block that ends the stream was committed, no block is until the sink is started again. */
  lemma {:induction false} NothingAfterTheLast(log: seq<Call>, i: nat, j: nat)
    requires Lawful(log) && i < j < |log| && log[i].Commit? && log[i].last && log[i].rc == OK && log[j].Commit?
    ensures exists k :: i < k < j && log[k].SinkStart?
  {
    hide Allowed, Apply;
    if forall k :: i < k < j ==> !log[k].SinkStart? {
      DoneStays(log, i, j);
      assert Allowed(AccountOf(log[..j]), log[j]);
      CommitNeeds(AccountOf(log[..j]), log[j]);
      assert false;
    }
  }

  lemma CommitNeeds(a: Account, c: Call)
    requires c.Commit? && Allowed(a, c)
    ensures !a.done
  {
  }

  lemma {:induction false} DoneStays(log: seq<Call>, i: nat, j: nat)
    requires i < j <= |log| && log[i].Commit? && log[i].last && log[i].rc == OK
    requires forall k :: i < k < j ==> !log[k].SinkStart?
    ensures AccountOf(log[..j]).done
    decreases j
  {
    hide Apply;
    assert log[..j][..j - 1] == log[..j - 1] && log[..j][j - 1] == log[j - 1];
    DoneApplies(AccountOf(log[..j - 1]), log[j - 1]);
    if i < j - 1 {
      DoneStays(log, i, j - 1);
    }
  }

  lemma DoneApplies(a: Account, c: Call)
    ensures a.done && !c.SinkStart? ==> Apply(a, c).done
    ensures c.Commit? && c.last && c.rc == OK ==> Apply(a, c).done
  {
  }

  // Call i brought the sink up so, and it has not been touched up to call j.
  ghost predicate UpSince(log: seq<Call>, i: nat, j: nat, format: Format, frames: nat) {
    i < j <= |log| && log[i] == SinkInit(OK, format, frames) && forall k :: i < k < j ==> !log[k].SinkInit? && !log[k].SinkDeinit?
  }

  // Call i started the sink, and it has not been stopped up to call j.
  ghost predicate OnSince(log: seq<Call>, i: nat, j: nat) {
    i < j <= |log| && log[i] == SinkStart(OK) && forall k :: i < k < j ==> !log[k].SinkStart? && log[k] != SinkStop(OK)
  }

  lemma AccountAt(log: seq<Call>, j: nat)
    requires 0 < j <= |log|
    ensures AccountOf(log[..j]) == Apply(AccountOf(log[..j - 1]), log[j - 1])
  {
    hide Apply;
    assert log[..j][..j - 1] == log[..j - 1];
  }

  lemma {:induction false} ReadyHasCause(log: seq<Call>, j: nat)
    requires j <= |log| && AccountOf(log[..j]).ready
    ensures exists i: nat :: UpSince(log, i, j, AccountOf(log[..j]).format, AccountOf(log[..j]).frames)
    decreases j
  {
    hide Apply, AccountOf;
    NothingIsUp();
    assert log[..0] == [];
    AccountAt(log, j);
    var before, c := AccountOf(log[..j - 1]), log[j - 1];
    ReadyMoves(before, c);
    if c.SinkInit? {
      assert UpSince(log, j - 1, j, c.format, c.frames);
    } else {
      ReadyHasCause(log, j - 1);
      var i: nat :| UpSince(log, i, j - 1, before.format, before.frames);
      assert UpSince(log, i, j, before.format, before.frames);
    }
  }

  lemma NothingIsUp()
    ensures AccountOf([]) == NOTHING
  {
  }

  lemma ReadyMoves(a: Account, c: Call)
    requires Apply(a, c).ready
    ensures !c.SinkDeinit?
    ensures c.SinkInit? ==> c.rc == OK && Apply(a, c).format == c.format && Apply(a, c).frames == c.frames
    ensures !c.SinkInit? ==> a.ready && Apply(a, c).format == a.format && Apply(a, c).frames == a.frames
  {
  }

  lemma {:induction false} RunningHasCause(log: seq<Call>, j: nat)
    requires j <= |log| && AccountOf(log[..j]).running
    ensures exists i: nat :: OnSince(log, i, j)
    decreases j
  {
    AccountAt(log, j);
    if log[j - 1].SinkStart? {
      assert OnSince(log, j - 1, j);
    } else {
      RunningHasCause(log, j - 1);
      var i: nat :| OnSince(log, i, j - 1);
      assert OnSince(log, i, j);
    }
  }

  // Each time the sink was brought up, or tried to be, it has been taken down since.
  ghost predicate SinkIsDown(log: seq<Call>) {
    forall i :: 0 <= i < |log| && log[i].SinkInit? ==> exists k :: i < k < |log| && log[k] == SinkDeinit(OK)
  }

  lemma {:induction false} NotOwedIsDown(log: seq<Call>)
    requires !AccountOf(log).sinkOwed
    ensures SinkIsDown(log)
    decreases |log|
  {
    if log != [] {
      var prefix, c := log[..|log| - 1], log[|log| - 1];
      if c != SinkDeinit(OK) {
        NotOwedIsDown(prefix);
        forall i | 0 <= i < |log| && log[i].SinkInit? ensures exists k :: i < k < |log| && log[k] == SinkDeinit(OK) {
          assert prefix[i].SinkInit?;
          var k :| i < k < |prefix| && prefix[k] == SinkDeinit(OK);
          assert log[k] == SinkDeinit(OK);
        }
      }
    }
  }

  /** Over every run, a node goes down only after the sink and after every node that came up later: it is then
      the last one live. */
  lemma DeinitsAreReversed(log: seq<Call>, j: nat, node: nat)
    requires Lawful(log) && j < |log| && log[j].NodeDeinit?
    ensures Inits(log[..j], node) == Deinits(log[..j], node) + if node <= log[j].node then 1 else 0
    ensures SinkIsDown(log[..j])
  {
    assert Allowed(AccountOf(log[..j]), log[j]);
    LawfulPrefix(log, j);
    InitsAreMatched(log[..j], node);
    NotOwedIsDown(log[..j]);
  }

  /** Over every run, a block is committed only while every node is up and the sink is up and on; it lies in the
      sink's own storage, with the format and the length that the sink was last brought up with. */
  lemma CommitsAreConfigured(log: seq<Call>, j: nat, node: nat)
    requires Lawful(log) && j < |log| && log[j].Commit?
    ensures log[j].block.storage == log[j].owned.storage && log[j].block.frameCount <= log[j].owned.capacityFrames
    ensures exists i: nat :: UpSince(log, i, j, log[j].block.format, log[j].block.frameCount)
    ensures exists i: nat :: OnSince(log, i, j)
    ensures Inits(log[..j], node) == Deinits(log[..j], node) + if node < AccountOf(log[..j]).count then 1 else 0
  {
    hide UpSince, OnSince;
    assert Allowed(AccountOf(log[..j]), log[j]);
    LawfulPrefix(log, j);
    InitsAreMatched(log[..j], node);
    ReadyHasCause(log, j);
    RunningHasCause(log, j);
  }

  // Samples in a number of frames.
  function Samples(frames: nat, channels: nat): nat {
    if channels <= 1 then frames else if channels == 2 then 2 * frames else if channels == 3 then 3 * frames else 4 * frames
  }

  predicate StagesOk(stages: seq<nat>) {
    (forall i :: 0 <= i < |stages| ==> stages[i] <= 2) && (forall i :: 0 < i < |stages| ==> stages[i - 1] <= stages[i])
  }

  // Results of the calls made while configuring.
  datatype Bringup = Bringup(inits: seq<(int, Format)>, sinkInit: int, firstDeinit: int, secondDeinit: int)

  // Results of the calls made while processing one block: the pull, each node, the commit.
  datatype Turn = Turn(acquire: int, offered: Option<Block>, pull: int, pulledFormat: Format, pulledFlags: nat, nodes: seq<(int, Block)>, commit: int)

  // The pull ended the stream.
  predicate Eos(t: Turn) {
    t.pull == OK && t.pulledFlags / FLAG_EOS % 2 == 1
  }

  /** eaf_pipeline_t. */
  class Pipeline {
    var nodeCount: nat
    var capacity: nat
    var source: Format
    var state: State
    var outputFormat: Format
    var blockFrames: nat
    var initializedNodes: nat
    var sinkInitialized: bool
    var sinkReady: bool
    var completed: bool
    ghost var log: seq<Call>
    ghost var account: Account

    ghost predicate Logged()
      reads `log, `account
    {
      Lawful(log) && account == AccountOf(log)
    }

    // The fields say what the calls so far have left standing.
    ghost predicate FieldsTell()
      reads `nodeCount, `initializedNodes, `sinkInitialized, `sinkReady, `account
    {
      && account.live == initializedNodes <= nodeCount == account.count
      && account.sinkOwed == sinkInitialized && account.ready == sinkReady && (sinkInitialized ==> initializedNodes == nodeCount)
      && (sinkReady ==> sinkInitialized)
    }

    ghost predicate StateTells()
      reads `state, `nodeCount, `initializedNodes, `sinkInitialized, `sinkReady, `outputFormat, `blockFrames, `completed, `account
    {
      && account.running == (state == Running)
      && (state == Uninitialized ==> initializedNodes == 0 && !sinkInitialized)
      && (state == Configured || state == Running || state == Stopped ==> initializedNodes == nodeCount && sinkReady)
      && (sinkReady ==> account.format == outputFormat && account.frames == blockFrames && FormatValid(outputFormat))
      && (state == Recovery ==> sinkInitialized)
      && (state == Running ==> account.done == completed)
    }

    ghost predicate Valid()
      reads this
    {
      Logged() && FieldsTell() && StateTells()
    }

    constructor ()
      ensures Valid() && state == Uninitialized && log == []
    {
      nodeCount, capacity, source, state := 0, 0, NO_FORMAT, Uninitialized;
      outputFormat, blockFrames, initializedNodes := NO_FORMAT, 0, 0;
      sinkInitialized, sinkReady, completed := false, false, false;
      log, account := [], NOTHING;
    }

    /** In CONFIGURED, RUNNING and STOPPED every node has been brought up once more than down, and the sink has
        been brought up in the output format and not been touched since; in RUNNING it is also on. */
    lemma StateMeansUp(node: nat)
      requires Valid() && (state == Configured || state == Running || state == Stopped)
      ensures Inits(log, node) == Deinits(log, node) + if node < nodeCount then 1 else 0
      ensures exists i: nat :: UpSince(log, i, |log|, outputFormat, blockFrames)
      ensures state == Running <==> AccountOf(log).running
      ensures state == Running ==> exists i: nat :: OnSince(log, i, |log|)
    {
      hide UpSince, OnSince, Lawful, AccountOf;
      assert log[..|log|] == log;
      InitsAreMatched(log, node);
      ReadyHasCause(log, |log|);
      if state == Running {
        RunningHasCause(log, |log|);
      }
    }

    ghost method Note(c: Call)
      requires Logged() && Allowed(account, c)
      modifies `log, `account
      ensures Logged() && log == old(log) + [c] && account == Apply(old(account), c)
    {
      LawfulMore(log, c);
      log := log + [c];
      account := Apply(account, c);
    }

    // release: the sink first, then the nodes in reverse; a sink that will not go leaves everything in place.
    method Release(deinitRc: int) returns (rc: int)
      requires Logged() && FieldsTell() && !account.running
      modifies `log, `account, `sinkReady, `sinkInitialized, `initializedNodes, `state
      ensures Logged() && FieldsTell() && !account.running && old(log) <= log && !sinkReady
      ensures rc == if old(sinkInitialized) then deinitRc else OK
      ensures if rc == OK then initializedNodes == 0 && !sinkInitialized && state == old(state)
        else state == Recovery && sinkInitialized && initializedNodes == old(initializedNodes)
    {
      hide Logged;
      if sinkInitialized {
        sinkReady := false;
        Note(SinkDeinit(deinitRc));
        rc := deinitRc;
        if rc != OK {
          state := Recovery;
          return;
        }
      }
      sinkInitialized, sinkReady := false, false;
      while initializedNodes > 0
        invariant Logged() && FieldsTell() && !account.running && old(log) <= log && !sinkInitialized && !sinkReady && state == old(state)
      {
        initializedNodes := initializedNodes - 1;
        Note(NodeDeinit(initializedNodes));
      }
      rc := OK;
    }

    method CheckStages(stages: seq<nat>) returns (ok: bool)
      ensures ok == StagesOk(stages)
    {
      var i := 0;
      while i < |stages|
        invariant i <= |stages| && (forall j :: 0 <= j < i ==> stages[j] <= 2) && forall j :: 0 < j < i ==> stages[j - 1] <= stages[j]
      {
        if stages[i] > 2 || (i > 0 && stages[i - 1] > stages[i]) {
          return false;
        }
        i := i + 1;
      }
      ok := true;
    }

    // eaf_pipeline_init.
    method Init(stages: seq<nat>, capacity: nat, source: Format) returns (rc: int)
      requires Valid()
      modifies this
      ensures Valid() && old(log) <= log
      ensures rc == if old(state) != Uninitialized then STATE
        else if (exists i :: 0 <= i < |stages| && stages[i] > 2) || (exists i :: 0 < i < |stages| && stages[i - 1] > stages[i]) then INVALID
        else OK
      ensures if rc == OK then state == Initialized && nodeCount == |stages| && this.capacity == capacity && this.source == source
        else state == old(state) && log == old(log)
    {
      hide Logged;
      if state != Uninitialized {
        return STATE;
      }
      var ok := CheckStages(stages);
      if !ok {
        return INVALID;
      }
      nodeCount, this.capacity, this.source := |stages|, capacity, source;
      Note(Adopt(nodeCount));
      state := Initialized;
      rc := OK;
    }

    // A node that fails to come up is taken down at once.
    method InitNode(nodeRc: int)
      requires Logged() && FieldsTell() && !account.running && initializedNodes < nodeCount && !sinkInitialized
      modifies `log, `account, `initializedNodes
      ensures Logged() && FieldsTell() && !account.running && old(log) <= log
      ensures initializedNodes == if nodeRc == OK then old(initializedNodes) + 1 else old(initializedNodes)
    {
      hide Logged;
      Note(NodeInit(initializedNodes, nodeRc));
      if nodeRc != OK {
        Note(NodeDeinit(initializedNodes));
      } else {
        initializedNodes := initializedNodes + 1;
      }
    }

    // What the nodes from i on answer, the one before having handed over `format`.
    function InitResult(inits: seq<(int, Format)>, i: nat, format: Format): (r: (int, Format))
      requires i <= |inits|
      decreases |inits| - i
    {
      if i == |inits| then (OK, format)
      else if inits[i].0 != OK then (inits[i].0, format)
      else if !FormatValid(inits[i].1) || inits[i].1.sampleRate != format.sampleRate || inits[i].1.channels < format.channels then (INVALID, format)
      else InitResult(inits, i + 1, inits[i].1)
    }

    // The format that node k is handed.
    function HandedFormat(inits: seq<(int, Format)>, i: nat, format: Format, k: nat): Format
      requires i <= k <= |inits|
    {
      if k == i then format else inits[k - 1].1
    }

    /** The nodes come up exactly when each one's init succeeds and answers with a valid format of the same rate and
        no fewer channels than it was handed; the last answer is the sink's format. */
    lemma {:induction false} NodesComeUp(inits: seq<(int, Format)>, i: nat, format: Format)
      requires i <= |inits|
      ensures InitResult(inits, i, format).0 == OK <==>
        forall k :: i <= k < |inits| ==>
          var handed := HandedFormat(inits, i, format, k);
          inits[k].0 == OK && FormatValid(inits[k].1) && inits[k].1.sampleRate == handed.sampleRate && inits[k].1.channels >= handed.channels
      ensures InitResult(inits, i, format).0 == OK ==> InitResult(inits, i, format).1 == HandedFormat(inits, i, format, |inits|)
      decreases |inits| - i
    {
      hide FormatValid;
      if i < |inits| {
        NodesComeUp(inits, i + 1, inits[i].1);
        forall k | i + 1 <= k <= |inits| ensures HandedFormat(inits, i, format, k) == HandedFormat(inits, i + 1, inits[i].1, k) {
        }
        if InitResult(inits, i, format).0 != OK && inits[i].0 == OK && InitResult(inits, i + 1, inits[i].1).0 == OK {
          assert HandedFormat(inits, i, format, i) == format;
        }
      }
    }

    // The loop over the nodes: each hands its format to the next.
    method InitNodes(inits: seq<(int, Format)>) returns (rc: int, format: Format)
      requires Logged() && FieldsTell() && !account.running && initializedNodes == 0 && !sinkInitialized && |inits| == nodeCount
      modifies `log, `account, `sinkReady, `sinkInitialized, `initializedNodes, `state
      ensures Logged() && FieldsTell() && !account.running && old(log) <= log && !sinkInitialized && state == old(state)
      ensures (rc, format) == InitResult(inits, 0, source) && (FormatValid(source) ==> FormatValid(format))
      ensures initializedNodes == if rc == OK then nodeCount else 0
    {
      hide Logged, FormatValid;
      format := source;
      while initializedNodes < nodeCount
        invariant Logged() && FieldsTell() && !account.running && old(log) <= log && !sinkInitialized && state == old(state)
        invariant (FormatValid(source) ==> FormatValid(format)) && InitResult(inits, 0, source) == InitResult(inits, initializedNodes, format)
      {
        var (nodeRc, next) := inits[initializedNodes];
        InitNode(nodeRc);
        if nodeRc != OK {
          var cleaned := Release(OK);
          return nodeRc, format;
        }
        if !FormatValid(next) || next.sampleRate != format.sampleRate || next.channels < format.channels {
          var cleaned := Release(OK);
          return INVALID, format;
        }
        format := next;
      }
      rc := OK;
    }

    // eaf_pipeline_configure.
    method Configure(frames: nat, b: Bringup) returns (rc: int)
      requires Valid() && |b.inits| == nodeCount && FormatValid(source)
      modifies this
      ensures Valid() && old(log) <= log
      ensures old(state) != Initialized && old(state) != Stopped && old(state) != Configured ==> rc == STATE && state == old(state) && log == old(log)
      ensures rc == OK ==> state == Configured && blockFrames == frames && 0 < frames <= capacity && initializedNodes == nodeCount && sinkReady
      ensures rc == OK ==> InitResult(b.inits, 0, source) == (OK, outputFormat) && b.sinkInit == OK
      ensures (rc == OK) == (
        && (old(state) == Initialized || old(state) == Stopped || old(state) == Configured) && 0 < frames <= capacity
        && (old(sinkInitialized) ==> b.firstDeinit == OK) && InitResult(b.inits, 0, source).0 == OK && b.sinkInit == OK)
      ensures rc != OK && state != old(state) ==> state == Recovery || (state == Initialized && initializedNodes == 0 && !sinkInitialized)
    {
      hide Logged, FormatValid;
      if state != Initialized && state != Stopped && state != Configured {
        return STATE;
      }
      if frames == 0 || frames > capacity {
        return INVALID;
      }
      rc := Release(b.firstDeinit);
      if rc != OK {
        return;
      }
      state := Initialized;
      var format;
      rc, format := InitNodes(b.inits);
      if rc != OK {
        return;
      }
      rc := InitSink(format, frames, b.sinkInit, b.secondDeinit);
    }

    method InitSink(format: Format, frames: nat, sinkRc: int, deinitRc: int) returns (rc: int)
      requires Logged() && FieldsTell() && !account.running && !sinkInitialized && !sinkReady && initializedNodes == nodeCount && state == Initialized
      requires FormatValid(format)
      modifies `log, `account, `sinkReady, `sinkInitialized, `initializedNodes, `state, `outputFormat, `blockFrames
      ensures Valid() && old(log) <= log
      ensures rc == OK ==> state == Configured && blockFrames == frames && outputFormat == format && initializedNodes == nodeCount && sinkReady
      ensures rc == OK <==> sinkRc == OK
      ensures rc != OK ==> state == Recovery || (state == Initialized && initializedNodes == 0 && !sinkInitialized)
    {
      hide Logged, FormatValid;
      sinkInitialized := true;
      Note(SinkInit(sinkRc, format, frames));
      if sinkRc != OK {
        rc := Release(deinitRc);
        return if rc != OK then rc else sinkRc;
      }
      sinkReady := true;
      outputFormat, blockFrames, state := format, frames, Configured;
      rc := OK;
    }

    // eaf_pipeline_start: a sink that fails to start may be half on, so it is stopped.
    method Start(startRc: int, stopRc: int, resets: seq<int>) returns (rc: int)
      requires Valid() && |resets| == nodeCount
      modifies `log, `account, `state, `completed
      ensures Valid() && old(log) <= log
      ensures old(state) != Configured && old(state) != Stopped ==> rc == STATE && state == old(state) && log == old(log)
      ensures rc == OK <==> (old(state) == Configured || old(state) == Stopped) && startRc == OK
      ensures rc == OK ==> state == Running && !completed && log == old(log) + [SourceReset] + [SinkStart(OK)]
      ensures rc != OK && (old(state) == Configured || old(state) == Stopped) ==>
        (if stopRc != OK then rc == stopRc && state == Recovery && log == old(log) + [SourceReset] + [SinkStart(startRc)] + [SinkStop(stopRc)]
         else
           && state == Stopped && rc == (if FirstFailure(resets, initializedNodes) != OK then FirstFailure(resets, initializedNodes) else startRc)
           && log == old(log) + [SourceReset] + [SinkStart(startRc)] + [SinkStop(OK)] + ResetCalls(initializedNodes))
    {
      hide Logged, FormatValid;
      if state != Configured && state != Stopped {
        return STATE;
      }
      Note(SourceReset);
      completed := false;
      Note(SinkStart(startRc));
      rc := startRc;
      if rc == OK {
        state := Running;
      } else {
        state := Recovery;
        var stopped := Stop(stopRc, resets);
        if stopped != OK {
          rc := stopped;
        }
      }
    }

    // Every node's reset call, from the first to the last, and the first failure among the results.
    function ResetCalls(n: nat): seq<Call>
      decreases n
    {
      if n == 0 then [] else ResetCalls(n - 1) + [NodeReset(n - 1)]
    }

    lemma {:induction false} ResetsAreInOrder(n: nat, resets: seq<int>)
      requires n <= |resets|
      ensures |ResetCalls(n)| == n && forall k :: 0 <= k < n ==> ResetCalls(n)[k] == NodeReset(k)
      ensures FirstFailure(resets, n) == OK <==> forall k :: 0 <= k < n ==> resets[k] == OK
      ensures FirstFailure(resets, n) != OK ==> exists k :: 0 <= k < n && resets[k] == FirstFailure(resets, n) && forall j :: 0 <= j < k ==> resets[j] == OK
      decreases n
    {
      if n > 0 {
        ResetsAreInOrder(n - 1, resets);
      }
    }

    function FirstFailure(resets: seq<int>, n: nat): int
      requires n <= |resets|
      decreases n
    {
      if n == 0 then OK else if FirstFailure(resets, n - 1) != OK then FirstFailure(resets, n - 1) else resets[n - 1]
    }

    // eaf_pipeline_stop.
    method Stop(stopRc: int, resets: seq<int>) returns (rc: int)
      requires Valid() && |resets| == nodeCount
      modifies `log, `account, `state
      ensures Valid() && old(log) <= log
      ensures old(state) != Running && old(state) != Recovery ==> rc == STATE && state == old(state) && log == old(log)
      ensures old(state) == Running || old(state) == Recovery ==>
        (if stopRc != OK then rc == stopRc && state == old(state) && log == old(log) + [SinkStop(stopRc)]
         else
           && state == (if sinkReady then Stopped else Initialized) && rc == FirstFailure(resets, initializedNodes)
           && log == old(log) + [SinkStop(OK)] + ResetCalls(initializedNodes))
    {
      hide Logged, FormatValid;
      if state != Running && state != Recovery {
        return STATE;
      }
      Note(SinkStop(stopRc));
      rc := stopRc;
      if rc != OK {
        return;
      }
      state := if sinkReady then Stopped else Initialized;
      var i := 0;
      while i < initializedNodes
        invariant Valid() && i <= initializedNodes && state == if sinkReady then Stopped else Initialized
        invariant log == old(log) + [SinkStop(OK)] + ResetCalls(i) && rc == FirstFailure(resets, i)
      {
        Note(NodeReset(i));
        if rc == OK {
          rc := resets[i];
        }
        i := i + 1;
      }
    }

    // eaf_pipeline_deinit.
    method Deinit(deinitRc: int) returns (rc: int)
      requires Valid()
      modifies this
      ensures Valid() && old(log) <= log
      ensures old(state) == Running ==> rc == STATE && state == old(state) && log == old(log)
      ensures old(state) != Running ==> rc == if old(sinkInitialized) then deinitRc else OK
      ensures rc == OK ==> state == Uninitialized && account.live == 0 && !account.sinkOwed
      ensures old(state) != Running && rc != OK ==> state == Recovery
    {
      hide Logged, FormatValid;
      if state == Running {
        return STATE;
      }
      rc := Release(deinitRc);
      if rc != OK {
        return;
      }
      Note(Adopt(0));
      nodeCount, state, completed := 0, Uninitialized, false;
    }

    // One node's turn: what it left in the buffer's fields must still be the sink's buffer.
    function Checked(rc: int, after: Block, before: Block, owned: Block): int
      reads `blockFrames, `outputFormat
    {
      if after.storage != owned.storage || after.capacitySamples != owned.capacitySamples || after.capacityFrames != owned.capacityFrames
        || after.frameCount != blockFrames || !FormatValid(after.format) || after.format.sampleRate != outputFormat.sampleRate
        || after.format.channels < before.format.channels || after.format.channels > outputFormat.channels
      then INVALID
      else rc
    }

    // The nodes one after another, until one fails or breaks the buffer.
    function Chain(nodes: seq<(int, Block)>, i: nat, rc: int, block: Block, owned: Block): (r: (int, Block))
      requires i <= |nodes|
      reads `blockFrames, `outputFormat
      decreases |nodes| - i
    {
      if rc != OK || i == |nodes| then (rc, block)
      else Chain(nodes, i + 1, Checked(nodes[i].0, nodes[i].1, block, owned), nodes[i].1, owned)
    }

    // The block that the pull and the nodes make of the offered one, and whether it may be committed.
    function Made(t: Turn, owned: Block): (int, Block)
      reads `blockFrames, `outputFormat
    {
      var pulled := if t.pull == OK then owned.(frameCount := blockFrames, format := t.pulledFormat, flags := t.pulledFlags) else owned.(frameCount := blockFrames);
      var (rc, block) := Chain(t.nodes, 0, t.pull, pulled, owned);
      (if rc == OK && block.format != outputFormat then INVALID else rc, block)
    }

    // A node's turn that leaves the sink's buffer in place and the format no narrower than it was, and no wider than
    // the output's.
    ghost predicate GoodTurn(node: (int, Block), channels: nat, owned: Block)
      reads `blockFrames, `outputFormat
    {
      var (rc, b) := node;
      && rc == OK && b.storage == owned.storage && b.capacitySamples == owned.capacitySamples && b.capacityFrames == owned.capacityFrames
      && b.frameCount == blockFrames && FormatValid(b.format) && b.format.sampleRate == outputFormat.sampleRate
      && channels <= b.format.channels <= outputFormat.channels
    }

    // The channels that node k was handed.
    function Handed(nodes: seq<(int, Block)>, i: nat, channels: nat, k: nat): nat
      requires i <= k < |nodes|
    {
      if k == i then channels else nodes[k - 1].1.format.channels
    }

    ghost predicate GoodTurns(nodes: seq<(int, Block)>, i: nat, channels: nat, owned: Block)
      reads `blockFrames, `outputFormat
    {
      forall k :: i <= k < |nodes| ==> GoodTurn(nodes[k], Handed(nodes, i, channels, k), owned)
    }

    lemma GoodTurnsSplit(nodes: seq<(int, Block)>, i: nat, channels: nat, owned: Block)
      requires i < |nodes|
      ensures GoodTurns(nodes, i, channels, owned) <==>
        GoodTurn(nodes[i], channels, owned) && GoodTurns(nodes, i + 1, nodes[i].1.format.channels, owned)
    {
      hide GoodTurn;
      forall k | i + 1 <= k < |nodes| ensures Handed(nodes, i, channels, k) == Handed(nodes, i + 1, nodes[i].1.format.channels, k) {
      }
      if GoodTurns(nodes, i, channels, owned) {
        assert GoodTurn(nodes[i], Handed(nodes, i, channels, i), owned);
      }
    }

    lemma {:induction false} ChainIsGood(nodes: seq<(int, Block)>, i: nat, rc: int, block: Block, owned: Block)
      requires i <= |nodes|
      ensures Chain(nodes, i, rc, block, owned).0 == OK <==> rc == OK && GoodTurns(nodes, i, block.format.channels, owned)
      ensures Chain(nodes, i, rc, block, owned).0 == OK ==>
        Chain(nodes, i, rc, block, owned).1 == if i == |nodes| then block else nodes[|nodes| - 1].1
      decreases |nodes| - i
    {
      hide FormatValid, GoodTurns;
      if i == |nodes| {
        NoTurns(nodes, block.format.channels, owned);
      } else if rc == OK {
        var next := Checked(nodes[i].0, nodes[i].1, block, owned);
        ChainIsGood(nodes, i + 1, next, nodes[i].1, owned);
        GoodTurnsSplit(nodes, i, block.format.channels, owned);
      }
    }

    lemma NoTurns(nodes: seq<(int, Block)>, channels: nat, owned: Block)
      ensures GoodTurns(nodes, |nodes|, channels, owned)
    {
    }

    /** A block is good exactly when the pull and every node succeeded, each node left the sink's buffer in place and
        a valid format that only grows up to the output's, and the last format is the output's. */
    lemma GoodBlocks(t: Turn, owned: Block)
      ensures Made(t, owned).0 == OK <==>
        && t.pull == OK && GoodTurns(t.nodes, 0, t.pulledFormat.channels, owned)
        && (if t.nodes == [] then t.pulledFormat else t.nodes[|t.nodes| - 1].1.format) == outputFormat
      ensures Made(t, owned).0 == OK ==>
        Made(t, owned).1 == if t.nodes == [] then owned.(frameCount := blockFrames, format := t.pulledFormat, flags := t.pulledFlags)
          else t.nodes[|t.nodes| - 1].1
    {
      hide GoodTurns, Chain;
      var pulled := if t.pull == OK then owned.(frameCount := blockFrames, format := t.pulledFormat, flags := t.pulledFlags) else owned.(frameCount := blockFrames);
      ChainIsGood(t.nodes, 0, t.pull, pulled, owned);
    }

    predicate SameBuffer(block: Block, owned: Block)
      reads `blockFrames
    {
      block.storage == owned.storage && block.capacitySamples == owned.capacitySamples && block.capacityFrames == owned.capacityFrames
      && block.frameCount == blockFrames
    }

    // Nodes may change samples and widen the format; what comes out good is still the sink's own buffer.
    lemma {:induction false} ChainKeepsBuffer(nodes: seq<(int, Block)>, i: nat, rc: int, block: Block, owned: Block)
      requires i <= |nodes| && SameBuffer(block, owned)
      ensures Chain(nodes, i, rc, block, owned).0 == OK ==> SameBuffer(Chain(nodes, i, rc, block, owned).1, owned)
      decreases |nodes| - i
    {
      hide FormatValid;
      if rc == OK && i < |nodes| {
        var next := Checked(nodes[i].0, nodes[i].1, block, owned);
        if next == OK {
          ChainKeepsBuffer(nodes, i + 1, next, nodes[i].1, owned);
        }
      }
    }

    method RunNodes(t: Turn, owned: Block) returns (rc: int, block: Block)
      requires |t.nodes| == nodeCount
      ensures (rc, block) == Made(t, owned)
    {
      hide FormatValid, Checked;
      rc := t.pull;
      block := owned.(frameCount := blockFrames);
      if rc == OK {
        block := block.(format := t.pulledFormat, flags := t.pulledFlags);
      }
      var i := 0;
      ghost var goal := Chain(t.nodes, 0, rc, block, owned);
      while rc == OK && i < nodeCount
        invariant i <= nodeCount && goal == Chain(t.nodes, i, rc, block, owned)
        decreases nodeCount - i
      {
        var (nodeRc, after) := t.nodes[i];
        rc := Checked(nodeRc, after, block, owned);
        block := after;
        i := i + 1;
      }
      if rc == OK && block.format != outputFormat {
        rc := INVALID;
      }
    }

    predicate BigEnough(b: Block)
      reads `blockFrames, `outputFormat
    {
      outputFormat.channels > 0 && b.storage != 0 && b.capacityFrames >= blockFrames && b.capacitySamples / outputFormat.channels >= blockFrames
    }

    lemma StorageIsEnough(b: Block)
      requires FormatValid(outputFormat) && BigEnough(b)
      ensures Samples(blockFrames, outputFormat.channels) <= b.capacitySamples
    {
      hide PopCount;
      var c := b.capacitySamples;
      if outputFormat.channels == 2 {
        assert c / 2 * 2 <= c;
      } else if outputFormat.channels == 3 {
        assert c / 3 * 3 <= c;
      } else if outputFormat.channels == 4 {
        assert c / 4 * 4 <= c;
      }
    }

    lemma SamplesAreFramesTimesChannels(frames: nat, channels: nat)
      requires 1 <= channels <= 4
      ensures Samples(frames, channels) == frames * channels
    {
    }

    method Silence(samples: array<i32>, n: nat)
      requires n <= samples.Length
      modifies samples
      ensures forall k :: 0 <= k < samples.Length ==> samples[k] == if k < n then 0 else old(samples[k])
    {
      forall k | 0 <= k < n {
        samples[k] := 0;
      }
    }

    function WithEos(flags: nat): nat {
      if flags / FLAG_EOS % 2 == 0 then flags + FLAG_EOS else flags
    }

    predicate Offers(t: Turn)
      reads `blockFrames, `outputFormat
    {
      t.acquire == OK && t.offered.Some? && BigEnough(t.offered.value)
    }

    // What is committed: the block that was made, or silence in the offered buffer.
    function Committed(t: Turn, owned: Block): Call
      reads `blockFrames, `outputFormat
    {
      var (rc, block) := Made(t, owned);
      if rc != OK then Commit(owned.(format := outputFormat, frameCount := blockFrames, flags := FLAG_SILENCE), owned, t.commit, false)
      else Commit(if Eos(t) then block.(flags := WithEos(block.flags)) else block, owned, t.commit, Eos(t))
    }

    lemma CommitIsAllowed(t: Turn)
      requires FieldsTell() && StateTells() && state == Running && !completed && outputFormat.channels > 0 && Offers(t)
      ensures Allowed(account, Committed(t, t.offered.value))
    {
      hide FormatValid, Checked, Chain;
      var owned := t.offered.value;
      var pulled := if t.pull == OK then owned.(frameCount := blockFrames, format := t.pulledFormat, flags := t.pulledFlags) else owned.(frameCount := blockFrames);
      ChainKeepsBuffer(t.nodes, 0, t.pull, pulled, owned);
    }

    lemma RunningFormat()
      requires StateTells() && state == Running
      ensures FormatValid(outputFormat) && outputFormat.channels > 0
    {
    }

    // eaf_pipeline_process. `samples` is the offered storage, holding what the pull and the nodes wrote; a
    // block that is not good is replaced by silence in the same storage.
    method Process(t: Turn, samples: array<i32>) returns (rc: int)
      requires Valid() && |t.nodes| == nodeCount
      requires t.offered.Some? ==> samples.Length == t.offered.value.capacitySamples
      modifies `log, `account, `completed, samples
      ensures Valid()
      ensures state != Running || old(completed) ==>
        rc == (if state != Running then STATE else EOF) && log == old(log) && completed == old(completed) && samples[..] == old(samples[..])
      ensures state == Running && !old(completed) && Offers(t) ==> (
        && t.acquire == OK && t.offered.Some? && t.offered.value.storage != 0 && t.offered.value.capacityFrames >= blockFrames
        && outputFormat.channels > 0 && t.offered.value.capacitySamples / outputFormat.channels >= blockFrames)
      ensures state == Running && !old(completed) && !Offers(t) && t.acquire == OK && t.offered.Some? && t.offered.value.storage != 0 ==>
        t.offered.value.capacityFrames < blockFrames || t.offered.value.capacitySamples < outputFormat.channels * blockFrames
      ensures state == Running && !old(completed) && !Offers(t) ==>
        rc == (if t.acquire != OK then t.acquire else INVALID) && log == old(log) && !completed && samples[..] == old(samples[..])
      ensures state == Running && !old(completed) && Offers(t) ==> log == old(log) + [Committed(t, t.offered.value)]
      ensures state == Running && !old(completed) && Offers(t) ==>
        var c, made := log[|old(log)|], Made(t, t.offered.value);
        && c.Commit? && c.owned == t.offered.value && c.rc == t.commit && c.block.frameCount == (if made.0 == OK then made.1.frameCount else blockFrames)
        && c.block.storage == (if made.0 == OK then made.1.storage else c.owned.storage)
        && c.block.format == (if made.0 == OK then made.1.format else outputFormat)
        && (made.0 != OK ==> c.block.flags == FLAG_SILENCE && !c.last)
        && (made.0 == OK ==> c.last == Eos(t) && (if Eos(t) then c.block.flags / 4 % 2 == 1 else c.block.flags == made.1.flags))
      ensures state == Running && !old(completed) && Offers(t) && Made(t, t.offered.value).0 != OK ==>
        rc == Made(t, t.offered.value).0 && !completed && Samples(blockFrames, outputFormat.channels) <= samples.Length
        && forall k :: 0 <= k < samples.Length ==> samples[k] == if k < Samples(blockFrames, outputFormat.channels) then 0 else old(samples[k])
      ensures state == Running && !old(completed) && Offers(t) && Made(t, t.offered.value).0 == OK ==>
        rc == (if t.commit != OK then t.commit else if Eos(t) then EOF else OK) && completed == (t.commit == OK && Eos(t))
        && samples[..] == old(samples[..])
    {
      hide Logged, FormatValid, Chain, Checked;
      if state != Running {
        return STATE;
      }
      if completed {
        return EOF;
      }
      if t.acquire != OK {
        return t.acquire;
      }
      RunningFormat();
      if t.offered == None || !BigEnough(t.offered.value) {
        return INVALID;
      }
      var owned := t.offered.value;
      var block;
      rc, block := RunNodes(t, owned);
      if rc != OK {
        block := owned.(format := outputFormat, frameCount := blockFrames, flags := FLAG_SILENCE);
        StorageIsEnough(owned);
        Silence(samples, Samples(blockFrames, outputFormat.channels));
      } else if Eos(t) {
        block := block.(flags := WithEos(block.flags));
      }
      CommitIsAllowed(t);
      Note(Commit(block, owned, t.commit, rc == OK && Eos(t)));
      if rc == OK && t.commit == OK && Eos(t) {
        completed := true;
        return EOF;
      }
      if rc == OK {
        rc := t.commit;
      }
    }
  }
}
