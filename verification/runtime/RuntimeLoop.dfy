/** The training loop as it is written: an object whose fields are the loop's variables, the disk and the served
    address. Each method is proved to perform exactly its steps of the machine, so that a whole run is one of its
    executions, and a crash leaves one of the states on the way. */
module RuntimeLoop {
  import opened Text
  import opened TrainingDisk
  import opened TrainingMachine
  import opened TrainingSafety
  import opened TrainingTheorems

  /** What one step meets: rows left after filtering, the trainer's tree and success, and whether the restarted
      server becomes ready. */
  datatype Outcome = Outcome(rows: nat, tree: seq<Global>, trainerOk: bool, ready: bool)

  /** What a whole run meets: whether the first server becomes ready, and every step's outcome. */
  datatype Script = Script(ready: bool, outcomes: nat -> Outcome)

  // ---------------------------------------------------------------- loops over lists

  predicate Kept(entry: Option<Summary>, committed: int, seen: set<int>) {
    entry.Some? && 0 <= entry.value.step <= committed && entry.value.step !in seen
  }

  lemma NormalizedHead(done: seq<Summary>, raw: seq<Option<Summary>>, committed: int, seen: set<int>)
    requires raw != []
    ensures done + Normalized(raw, committed, seen) ==
      if Kept(raw[0], committed, seen)
      then (done + [raw[0].value]) + Normalized(raw[1..], committed, seen + {raw[0].value.step})
      else done + Normalized(raw[1..], committed, seen)
  {
    if Kept(raw[0], committed, seen) {
      var rest := Normalized(raw[1..], committed, seen + {raw[0].value.step});
      assert done + ([raw[0].value] + rest) == (done + [raw[0].value]) + rest;
    }
  }

  lemma NothingNormalized(done: seq<Summary>, committed: int, seen: set<int>)
    ensures IndexesOf([]) == {} && done + Normalized([], committed, seen) == done
  {
  }

  /** The normalization loop of _load_existing_runtime_manifest. */
  method NormalizeSteps(raw: seq<Option<Summary>>, committed: int) returns (normalized: seq<Summary>, seen: set<int>)
    ensures normalized == Normalized(raw, committed, {})
    ensures seen == IndexesOf(normalized)
  {
    hide Normalized, IndexesOf;
    normalized, seen := [], {};
    var i := 0;
    assert raw[0..] == raw && [] + Normalized(raw, committed, {}) == Normalized(raw, committed, {});
    NothingNormalized([], committed, {});
    while i < |raw|
      invariant 0 <= i <= |raw|
      invariant normalized + Normalized(raw[i..], committed, seen) == Normalized(raw, committed, {})
      invariant seen == IndexesOf(normalized)
    {
      assert raw[i..][1..] == raw[i + 1..];
      NormalizedHead(normalized, raw[i..], committed, seen);
      if raw[i].Some? {
        var parsed := raw[i].value;
        if 0 <= parsed.step <= committed && parsed.step !in seen {
          IndexSnoc(normalized, parsed);
          seen := seen + {parsed.step};
          normalized := normalized + [parsed];
        }
      }
      i := i + 1;
    }
    assert raw[|raw|..] == [];
    NothingNormalized(normalized, committed, seen);
  }

  lemma IndexSnoc(s: seq<Summary>, e: Summary)
    ensures IndexesOf(s + [e]) == IndexesOf(s) + {e.step}
  {
    var t := s + [e];
    assert t[|s|] == e;
    forall x | x in IndexesOf(s) ensures x in IndexesOf(t) {
      var i :| 0 <= i < |s| && s[i].step == x;
      assert t[i].step == x;
    }
  }

  /** The recovery loop of _load_existing_runtime_manifest. */
  method RecoverSteps(summaries: map<nat, Summary>, committed: int, seen: set<int>) returns (recovered: seq<Summary>)
    requires committed >= 0
    ensures recovered == Recovered(summaries, 0, committed, seen)
  {
    recovered := [];
    var k := 0;
    while k <= committed
      invariant 0 <= k <= committed + 1
      invariant recovered + Recovered(summaries, k, committed, seen) == Recovered(summaries, 0, committed, seen)
    {
      if k !in seen && k in summaries && summaries[k].step == k {
        ghost var rest := Recovered(summaries, k + 1, committed, seen);
        assert recovered + ([summaries[k]] + rest) == recovered + [summaries[k]] + rest;
        recovered := recovered + [summaries[k]];
      }
      k := k + 1;
    }
    assert recovered + [] == recovered;
  }

  /** _load_existing_step_summaries */
  method LoadStepSummaries(summaries: map<nat, Summary>, committed: int) returns (existing: seq<Summary>)
    requires committed >= 0
    ensures existing == Existing(summaries, 0, committed)
  {
    existing := [];
    var k := 0;
    while k <= committed
      invariant 0 <= k <= committed + 1
      invariant existing + Existing(summaries, k, committed) == Existing(summaries, 0, committed)
    {
      if k in summaries {
        ghost var rest := Existing(summaries, k + 1, committed);
        assert existing + ([summaries[k]] + rest) == existing + [summaries[k]] + rest;
        existing := existing + [summaries[k]];
      }
      k := k + 1;
    }
    assert existing + [] == existing;
  }

  /** _load_existing_runtime_manifest, reduced to `steps`. */
  method LoadExistingSteps(d: Disk) returns (steps: seq<Summary>)
    ensures steps == LoadedSteps(d)
  {
    var committed := Committed(d);
    if committed < 0 {
      return [];
    }
    if d.manifest.None? {
      steps := LoadStepSummaries(d.summaries, committed);
      return;
    }
    var raw := d.manifest.value;
    if |raw| > committed + 1 {
      raw := raw[..committed + 1];
    }
    var normalized, seen := NormalizeSteps(raw, committed);
    var recovered := RecoverSteps(d.summaries, committed, seen);
    steps := SortSummaries(normalized + recovered);
  }

  /** prune_old_global_step_checkpoints: the oldest directories go one by one. */
  method PruneOldGlobals(tree: seq<Global>, keepLast: nat) returns (left: seq<Global>)
    requires keepLast >= 1
    ensures left == LastGlobals(tree, keepLast)
  {
    if |tree| <= keepLast {
      return tree;
    }
    left := SortGlobals(tree);
    ghost var sorted := left;
    for i := 0 to |tree| - keepLast
      invariant left == sorted[i..]
    {
      left := left[1..];
    }
  }

  /** The directories a prune removes. */
  method StepsToPrune(steps: seq<nat>, keepLast: nat, protected: set<nat>) returns (todo: seq<nat>)
    ensures todo == PruneTargets(steps, keepLast, protected)
  {
    todo := [];
    if |steps| <= keepLast {
      return;
    }
    var early := steps[..|steps| - keepLast];
    assert early[0..] == early;
    for i := 0 to |early|
      invariant todo + Unprotected(early[i..], protected) == Unprotected(early, protected)
    {
      assert early[i..][1..] == early[i + 1..];
      if early[i] !in protected {
        ghost var rest := Unprotected(early[i + 1..], protected);
        assert todo + ([early[i]] + rest) == todo + [early[i]] + rest;
        todo := todo + [early[i]];
      } else {
        assert [] + Unprotected(early[i + 1..], protected) == Unprotected(early[i + 1..], protected);
      }
    }
    assert todo + [] == todo;
  }

  // ---------------------------------------------------------------- the loop

  lemma Reached(c: Config, start: State, events: seq<Event>, s: State)
    requires Inv(Safe(c), start) && AllRuns(events, c) && Execute(start, events) == Some(s)
    ensures Inv(Safe(c), s) && Inv(false, s)
  {
    hide Inv, Execute, Safe;
    assert Safe(c) ==> SafeRuns(events);
    ExecuteKeeps(Safe(c), start, events);
    StillInv(Safe(c), s);
  }

  lemma PruneReady(s: State)
    requires Inv(false, s) && s.process.Some? && s.process.value.pc == TrainingMachine.PruneGlobals
    ensures s.process.value.pending.Some? && s.process.value.step in s.disk.trees
  {
    hide SummariesComplete, OnePerStep, EndsIn, EndsBelow, Latest;
  }

  lemma CommitIs(s: State, p: Process)
    requires Inv(false, s) && s.process == Some(p) && p.pc == WritePointer
    ensures var d := if p.pending.Some? then s.disk.(pointer := p.pending) else s.disk;
      && PointerValid(d)
      && Step(s, Go) == Some(State(d, s.endpoint, Some(p.(
          committed := if p.pending.Some? then p.pending else p.committed, step := p.step + 1, pending := None, pc := LoopHead))))
  {
    hide Inv;
    ReadBackSucceeds(s);
  }

  /** The one event that comes next in a run nobody kills. */
  function Next(c: Config, script: Script, s: State): Event {
    match s.process
    case None => Begin(c)
    case Some(p) =>
      match p.pc
      case Launch => Start(script.ready)
      case LoopHead => if p.step < c.rftSteps then Reset else Go
      case Collecting => Collect(script.outcomes(p.step).rows)
      case StopServer => Stop
      case Training => Train(script.outcomes(p.step).tree, script.outcomes(p.step).trainerOk)
      case Restart => Start(script.outcomes(p.step).ready)
      case _ => Go
  }

  /** Each event is the one that comes next. */
  ghost predicate Driven(c: Config, script: Script, s: State, events: seq<Event>)
    decreases |events|
  {
    events != [] ==>
      && events[0] == Next(c, script, s)
      && (Step(s, events[0]).Some? ==> Driven(c, script, Step(s, events[0]).value, events[1..]))
  }

  lemma {:induction false} DrivenOn(c: Config, script: Script, s: State, events: seq<Event>)
    requires Driven(c, script, s, events) && Execute(s, events).Some?
    ensures Driven(c, script, s, events + [Next(c, script, Execute(s, events).value)])
    decreases |events|
  {
    hide Step, Next;
    if events == [] {
      assert [Next(c, script, s)][1..] == [];
    } else {
      var next := Step(s, events[0]).value;
      DrivenOn(c, script, next, events[1..]);
      var e := Next(c, script, Execute(s, events).value);
      assert (events + [e])[0] == events[0] && (events + [e])[1..] == events[1..] + [e];
    }
  }

  lemma BeginIs(c: Config, script: Script, s: State)
    requires s.process.None?
    ensures Step(s, TrainingMachine.Begin(c)) == Some(BeginRun(c, s)) && Next(c, script, s) == TrainingMachine.Begin(c)
  {
  }

  lemma OneCommandLine(c: Config, script: Script, s: State)
    ensures Next(c, script, s).Begin? ==> Next(c, script, s).config == c
  {
  }

  /** A run that has nothing to start from, one that has nothing left to do, and one that starts. */
  lemma BeginCases(c: Config, s: State)
    ensures var d, first, loaded := s.disk, Committed(s.disk) + 1, LoadedSteps(s.disk);
      BeginRun(c, s) ==
        if !PointerValid(d) then s
        else if first >= c.rftSteps then s.(disk := d.(manifest := Some(Written(loaded))))
        else s.(process := Some(Process(
          c, ModelOf(d.pointer), d.pointer, StepsBelow(d.dirs, first), WithTree(StepsBelow(d.dirs, first), d.trees), loaded, None,
          first, None, Launch)))
  {
  }

  class Loop {
    const config: Config
    const script: Script
    ghost const start: State
    var disk: Disk
    var endpoint: Option<Model>
    var current: Model
    var committed: Option<Pointer>
    var runSteps: seq<nat>
    var checkpointSteps: seq<nat>
    var steps: seq<Summary>
    var server: Option<Model>
    var step: nat
    var pending: Option<Pointer>
    ghost var events: seq<Event>

    ghost function Now(pc: Pc): State
      reads this
    {
      State(disk, endpoint, Some(Process(config, current, committed, runSteps, checkpointSteps, steps, server, step, pending, pc)))
    }

    /** The recorded events are the ones the script leaves no choice about, and lead from the start to `s`. */
    ghost predicate Reaches(s: State)
      reads this`events
    {
      && Inv(Safe(config), start) && AllRuns(events, config)
      && Driven(config, script, start, events) && Execute(start, events) == Some(s)
    }

    /** The fields are what the machine reaches from the start by the recorded events, with the run at `pc`. */
    ghost predicate At(pc: Pc)
      reads this
    {
      Reaches(Now(pc))
    }

    /** The same, with no run alive. */
    ghost predicate Idle()
      reads this
    {
      Reaches(State(disk, endpoint, None))
    }

    constructor (config: Config, script: Script, disk: Disk, endpoint: Option<Model>)
      requires Inv(Safe(config), State(disk, endpoint, None))
      ensures Idle() && this.disk == disk && this.endpoint == endpoint && this.config == config && this.script == script
      ensures start == State(disk, endpoint, None) && events == []
    {
      this.config, this.script, this.disk, this.endpoint := config, script, disk, endpoint;
      current, committed, runSteps, checkpointSteps, steps := Initial, None, [], [], [];
      server, step, pending := None, 0, None;
      start, events := State(disk, endpoint, None), [];
    }

    /** Records one event of the machine. */
    ghost method Record(e: Event, s: State)
      requires Reaches(s) && e == Next(config, script, s) && Step(s, e).Some?
      modifies this`events
      ensures Reaches(Step(s, e).value) && events == old(events) + [e]
    {
      hide Step, Inv, Driven, Safe;
      OneCommandLine(config, script, s);
      hide Next;
      DrivenOn(config, script, start, events);
      ExecuteTwice(start, events, [e]);
      FirstEvent(s, e, []);
      assert [e] + [] == [e];
      NoEvents(Step(s, e).value);
      events := events + [e];
    }

    /** The `finally` clause after an exception. */
    method Abandon(ghost before: State, ghost e: Event)
      requires Reaches(before) && e == Next(config, script, before)
      requires Step(before, e) == Some(State(disk, if server.Some? then None else endpoint, None))
      modifies this`endpoint, this`server, this`events
      ensures Idle() && events == old(events) + [e]
    {
      hide Step, Execute, Inv, Driven, Next;
      Record(e, before);
      if server.Some? {
        endpoint, server := None, None;
      }
    }

    /** The committed checkpoint is there, and steps are left to do. */
    ghost predicate Starts(d: Disk) {
      PointerValid(d) && Committed(d) + 1 < config.rftSteps
    }

    /** Loading the committed checkpoint and the manifest; false when there is nothing to run or the checkpoint is
        incomplete. */
    method Begin() returns (live: bool)
      requires Idle()
      modifies this
      ensures (if live then At(Launch) else Idle()) && events == old(events) + [TrainingMachine.Begin(config)]
      ensures live == Starts(old(disk))
      ensures live ==> step == Committed(disk) + 1 && pending.None? && server.None? && endpoint == old(endpoint)
      ensures disk.pointer == old(disk.pointer)
    {
      hide Execute, Driven, Inv, LoadedSteps, Written, StepsBelow, WithTree, PointerValid, Step, ModelOf, Committed, Next,
        BeginRun;
      hide Reaches;
      ghost var before := State(disk, endpoint, None);
      BeginIs(config, script, before);
      Record(TrainingMachine.Begin(config), before);
      BeginCases(config, before);
      if !PointerValid(disk) {
        return false;
      }
      var first := Committed(disk) + 1;
      var loaded := LoadExistingSteps(disk);
      if first >= config.rftSteps {
        disk := disk.(manifest := Some(Written(loaded)));
        return false;
      }
      SetUp(first, loaded);
      return true;
    }

    /** The variables a run starts with. */
    method SetUp(first: nat, loaded: seq<Summary>)
      modifies this`current, this`committed, this`steps, this`runSteps, this`checkpointSteps, this`server, this`step,
        this`pending
      ensures Now(Launch) == State(disk, endpoint, Some(Process(
        config, ModelOf(disk.pointer), disk.pointer, StepsBelow(disk.dirs, first),
        WithTree(StepsBelow(disk.dirs, first), disk.trees), loaded, None, first, None, Launch)))
      ensures step == first && pending.None? && server.None?
    {
      hide ModelOf, StepsBelow, WithTree;
      current, committed, steps := ModelOf(disk.pointer), disk.pointer, loaded;
      runSteps := StepsBelow(disk.dirs, first);
      checkpointSteps := WithTree(runSteps, disk.trees);
      server, step, pending := None, first, None;
    }

    /** VLLMServerController.start with the current model. */
    method StartServer(ready: bool, ghost from: Pc, ghost next: Pc) returns (ok: bool)
      requires At(from) && config.managed && Start(ready) == Next(config, script, Now(from))
      requires StartStep(Now(from), Now(from).process.value, ready)
        == Some(TrainingMachine.StartServer(Now(from), Now(from).process.value, ready, next))
      modifies this`endpoint, this`server, this`events
      ensures (if ok then At(next) else Idle()) && events == old(events) + [Start(ready)]
      ensures ok == (ready && old(server).None? && old(endpoint).None?) && (ok ==> server.Some?)
    {
      hide Execute, Driven, Inv, StartStep;
      ghost var before := Now(from);
      if server.Some? || endpoint.Some? || !ready {
        Abandon(before, Start(ready));
        return false;
      }
      Record(Start(ready), before);
      server, endpoint := Some(current), Some(current);
      return true;
    }

    /** The first start. */
    method LaunchServer() returns (ok: bool)
      requires At(Launch)
      modifies this`endpoint, this`server, this`events
      ensures (if ok then At(LoopHead) else Idle()) && events == old(events) + [Start(script.ready)]
      ensures ok == (config.managed ==> script.ready && old(server).None? && old(endpoint).None?)
      ensures ok && config.managed ==> server.Some?
    {
      hide Execute, Driven, Inv;
      if config.managed {
        ok := StartServer(script.ready, Launch, LoopHead);
      } else {
        Record(Start(script.ready), Now(Launch));
        ok := true;
      }
    }

    method ResetStepArtifacts()
      requires At(LoopHead) && step < config.rftSteps
      modifies this`disk, this`runSteps, this`events
      ensures At(Collecting) && events == old(events) + [Reset] && disk.pointer == old(disk.pointer)
    {
      hide Execute, Driven, Inv, ResetStep, AppendUnique;
      Record(Reset, Now(LoopHead));
      ResetPointer(disk, step);
      disk := ResetStep(disk, step);
      runSteps := AppendUnique(runSteps, step);
    }

    /** Collection: whether the trainer is skipped, or the run fails for lack of rows. */
    method CollectBatch() returns (failed: bool, skipped: bool)
      requires At(Collecting)
      modifies this`disk, this`endpoint, this`server, this`events
      ensures if failed then Idle() else At(if skipped then PrunePayloads else TrainingMachine.StopServer)
      ensures skipped == (script.outcomes(step).rows == 0) && failed == (1 <= script.outcomes(step).rows < config.minRows)
      ensures disk == old(disk).(payloads := old(disk).payloads + {step})
      ensures !failed ==> endpoint == old(endpoint) && server == old(server)
      ensures events == old(events) + [Collect(script.outcomes(step).rows)]
    {
      hide Execute, Driven, Inv;
      ghost var before := Now(Collecting);
      var rows := script.outcomes(step).rows;
      disk := disk.(payloads := disk.payloads + {step});
      if rows < 1 {
        Record(Collect(rows), before);
        return false, true;
      }
      if rows < config.minRows {
        Abandon(before, Collect(rows));
        return true, false;
      }
      Record(Collect(rows), before);
      return false, false;
    }

    /** VLLMServerController.stop before training. */
    method StopServer()
      requires At(TrainingMachine.StopServer)
      modifies this`endpoint, this`server, this`events
      ensures At(Training) && events == old(events) + [Stop]
      ensures config.managed ==> server.None? && (endpoint.None? <==> old(server).Some? || old(endpoint).None?)
    {
      hide Execute, Driven, Inv;
      Record(Stop, Now(TrainingMachine.StopServer));
      if config.managed {
        if server.Some? {
          endpoint := None;
        }
        server := None;
      }
    }

    /** The trainer has something to commit. */
    ghost predicate Trains(o: Outcome) {
      o.trainerOk && o.tree != []
    }

    /** A step ends up with a checkpoint to commit. */
    ghost predicate Commits(o: Outcome) {
      o.rows >= 1 && o.rows >= config.minRows && Trains(o)
    }

    /** The trainer and the export of its newest checkpoint; when either fails, nothing is left to commit. */
    method Train() returns (trained: bool)
      requires At(Training)
      modifies this`disk, this`pending, this`endpoint, this`server, this`events
      ensures if trained then At(TrainingMachine.PruneGlobals) else Idle()
      ensures trained == (script.outcomes(step).trainerOk && script.outcomes(step).tree != [])
      ensures disk == old(disk).(trees := old(disk).trees[step := script.outcomes(step).tree])
      ensures trained ==> pending == Some(Pointer(step, Latest(script.outcomes(step).tree)))
      ensures trained ==> endpoint == old(endpoint) && server == old(server)
      ensures events == old(events) + [TrainingMachine.Train(script.outcomes(step).tree, script.outcomes(step).trainerOk)]
    {
      hide Execute, Driven, Inv, Latest;
      ghost var before := Now(Training);
      var tree, ok := script.outcomes(step).tree, script.outcomes(step).trainerOk;
      disk := disk.(trees := disk.trees[step := tree]);
      if !ok || tree == [] {
        Abandon(before, TrainingMachine.Train(tree, ok));
        return false;
      }
      Record(TrainingMachine.Train(tree, ok), before);
      pending := Some(Pointer(step, Latest(tree)));
      return true;
    }

    /** prune_old_global_step_checkpoints, and the trained model made current. */
    method PruneStepTree()
      requires At(TrainingMachine.PruneGlobals)
      modifies this`disk, this`current, this`checkpointSteps, this`events
      ensures At(Restart) && events == old(events) + [Go] && disk.pointer == old(disk.pointer)
    {
      hide Execute, Driven, LastGlobals, AppendUnique, Inv;
      ghost var before := Now(TrainingMachine.PruneGlobals);
      Reached(config, start, events, before);
      PruneReady(before);
      Record(Go, before);
      var left := PruneOldGlobals(disk.trees[step], config.keepLast);
      disk := disk.(trees := disk.trees[step := left]);
      current := ModelOf(pending);
      checkpointSteps := AppendUnique(checkpointSteps, step);
    }

    function ProtectedSteps(): set<nat>
      reads this
    {
      if pending.Some? then {pending.value.step} else if committed.Some? then {committed.value.step} else {}
    }

    ghost function Todo(): seq<nat>
      reads this
    {
      PruneTargets(checkpointSteps, config.keepLast, ProtectedSteps())
    }

    /** The restart, unless no collection follows. */
    method RestartServer() returns (ok: bool)
      requires At(Restart)
      modifies this`endpoint, this`server, this`events
      ensures if ok then At(PruneTrees(Todo())) else Idle()
      ensures config.managed && step + 1 < config.rftSteps ==>
        ok == (script.outcomes(step).ready && old(server).None? && old(endpoint).None?) && (ok ==> server.Some?)
      ensures !config.managed || step + 1 >= config.rftSteps ==> ok
      ensures events == old(events) + [Start(script.outcomes(step).ready)]
    {
      hide Execute, Driven, Inv, PruneTargets;
      var ready := script.outcomes(step).ready;
      if config.managed && step + 1 < config.rftSteps {
        ok := StartServer(ready, Restart, PruneTrees(Todo()));
      } else {
        Record(Start(ready), Now(Restart));
        ok := true;
      }
    }

    /** prune_old_step_checkpoints: one tree after the other. */
    method PruneOldStepCheckpoints()
      requires At(PruneTrees(Todo()))
      modifies this`disk, this`events
      ensures At(TrainingMachine.PrunePayloads) && old(events) < events && disk.pointer == old(disk.pointer)
    {
      hide Execute, Driven, Inv, PruneTargets, DropTree;
      var todo := StepsToPrune(checkpointSteps, config.keepLast, ProtectedSteps());
      while todo != []
        invariant At(PruneTrees(todo)) && old(events) <= events && disk.pointer == old(disk.pointer)
        decreases |todo|
      {
        Record(Go, Now(PruneTrees(todo)));
        DropKeeps(disk, todo[0]);
        disk := DropTree(disk, todo[0]);
        todo := todo[1..];
      }
      Record(Go, Now(PruneTrees([])));
    }

    /** prune_old_step_payloads; summaries stay. */
    method PruneOldStepPayloads()
      requires At(TrainingMachine.PrunePayloads)
      modifies this`disk, this`events
      ensures At(TrainingMachine.WriteSummary) && events == old(events) + [Go] && disk.pointer == old(disk.pointer)
    {
      hide Execute, Driven, Inv, PruneTargets;
      Record(Go, Now(TrainingMachine.PrunePayloads));
      var gone := StepsToPrune(runSteps, config.keepLast, ProtectedSteps());
      disk := disk.(payloads := set k | k in disk.payloads && k !in gone);
    }

    method WriteSummary()
      requires At(TrainingMachine.WriteSummary)
      modifies this`disk, this`steps, this`events
      ensures At(TrainingMachine.WriteManifest) && events == old(events) + [Go] && disk.pointer == old(disk.pointer)
    {
      hide Execute, Driven, Inv;
      Record(Go, Now(TrainingMachine.WriteSummary));
      var summary := Summary(step, current);
      steps := steps + [summary];
      disk := disk.(summaries := disk.summaries[step := summary]);
    }

    method WriteManifest()
      requires At(TrainingMachine.WriteManifest)
      modifies this`disk, this`events
      ensures At(WritePointer) && events == old(events) + [Go] && disk.pointer == old(disk.pointer)
    {
      hide Execute, Driven, Inv, Written;
      Record(Go, Now(TrainingMachine.WriteManifest));
      disk := disk.(manifest := Some(Written(steps)));
    }

    /** The commit, when the step trained, and on to the next step. */
    method CommitStep()
      requires At(WritePointer)
      modifies this`disk, this`committed, this`step, this`pending, this`events
      ensures At(LoopHead) && step == old(step) + 1 && PointerValid(disk) && events == old(events) + [Go]
      ensures disk.pointer == (if old(pending).Some? then old(pending) else old(disk.pointer)) && pending.None?
    {
      hide Execute, Driven, Inv, PointerValid, Step;
      ghost var before := Now(WritePointer);
      Reached(config, start, events, before);
      CommitIs(before, before.process.value);
      Record(Go, before);
      if pending.Some? {
        disk := disk.(pointer := pending);
        committed := pending;
      }
      step, pending := step + 1, None;
    }

    /** The `finally` clause and the last manifest. */
    method Finish()
      requires At(LoopHead) && step >= config.rftSteps
      modifies this`disk, this`endpoint, this`server, this`events
      ensures Idle() && events == old(events) + [Go, Go] && disk.pointer == old(disk.pointer)
    {
      hide Execute, Driven, Inv, Written, PruneTargets, LastGlobals, DropTree, AppendUnique, StartStep, CollectRows, TrainStep,
        ResetArtifacts, StopForTraining;
      Record(Go, Now(LoopHead));
      if server.Some? {
        endpoint := None;
      }
      server := None;
      Record(Go, Now(FinalManifest));
      disk := disk.(manifest := Some(Written(steps)));
    }

    /** Training, from stopping the server to pruning the old trees; false when an exception ends the run. */
    method TrainBatch() returns (ok: bool)
      requires At(TrainingMachine.StopServer)
      modifies this`disk, this`current, this`checkpointSteps, this`pending, this`endpoint, this`server, this`events
      ensures (if ok then At(TrainingMachine.PrunePayloads) else Idle()) && old(events) < events
      ensures var o := script.outcomes(step);
        && ok == (Trains(o) && (config.managed && step + 1 < config.rftSteps ==>
                    o.ready && (old(server).Some? || old(endpoint).None?)))
        && (ok ==> pending == Some(Pointer(step, Latest(o.tree))))
      ensures disk.pointer == old(disk.pointer)
      ensures ok && config.managed && step + 1 < config.rftSteps ==> server.Some?
    {
      hide Execute, Driven, Inv, PointerValid, PruneTargets;
      StopServer();
      ok := Train();
      if !ok {
        return;
      }
      PruneStepTree();
      ok := RestartServer();
      if !ok {
        return;
      }
      PruneOldStepCheckpoints();
    }

    /** What ends every iteration, trained or skipped. */
    method RecordStep()
      requires At(TrainingMachine.PrunePayloads)
      modifies this`disk, this`steps, this`committed, this`step, this`pending, this`events
      ensures At(LoopHead) && step == old(step) + 1 && PointerValid(disk) && events == old(events) + [Go, Go, Go, Go]
      ensures disk.pointer == (if old(pending).Some? then old(pending) else old(disk.pointer)) && pending.None?
    {
      hide Execute, Driven, Inv, PointerValid, PruneTargets;
      PruneOldStepPayloads();
      WriteSummary();
      WriteManifest();
      CommitStep();
    }

    /** One iteration of the loop; false when an exception ends the run: too few rows, a trainer that fails, or a server
        that does not come back. Exactly a trained step changes the pointer, to its newest checkpoint. */
    method Iterate() returns (ok: bool)
      requires At(LoopHead) && step < config.rftSteps && pending.None?
      modifies this
      ensures if ok then At(LoopHead) && step == old(step) + 1 && PointerValid(disk) && pending.None? else Idle()
      ensures old(events) < events
      ensures var o := script.outcomes(old(step));
        && ok == (o.rows == 0 || (Commits(o) && (config.managed && old(step) + 1 < config.rftSteps ==>
                                     o.ready && (old(server).Some? || old(endpoint).None?))))
        && disk.pointer ==
             if ok && o.rows > 0 then Some(Pointer(old(step), Latest(o.tree))) else old(disk.pointer)
      ensures ok && config.managed && old(server).Some? && step < config.rftSteps ==> server.Some?
    {
      hide Execute, Driven, Inv, PointerValid, PruneTargets;
      ResetStepArtifacts();
      var failed, skipped := CollectBatch();
      ok := !failed;
      if ok && !skipped {
        ok := TrainBatch();
      }
      if ok {
        RecordStep();
      }
    }

    /** Every step from `first` on can be trained, and the server comes up whenever it is started. */
    ghost predicate Smooth(first: int, free: bool) {
      && (config.managed ==> script.ready && free)
      && forall k: nat :: first <= k < config.rftSteps ==> Commits(script.outcomes(k)) && script.outcomes(k).ready
    }

    /** run_rft_runtime_loop: whatever the steps meet, the run is an execution of the machine, with every event in
        its turn, up to where the machine stands still again. A run in which nothing fails commits the newest
        checkpoint of its last step; one that has nothing to start from, or nothing left to do, commits nothing. */
    method Run()
      requires Idle()
      modifies this
      ensures Idle() && old(events) < events
      ensures Inv(Safe(config), State(disk, endpoint, None))
      ensures Starts(old(disk)) && Smooth(Committed(old(disk)) + 1, old(endpoint).None?) ==>
        disk.pointer == Some(Pointer(config.rftSteps - 1, Latest(script.outcomes(config.rftSteps - 1).tree)))
      ensures !Starts(old(disk)) ==> disk.pointer == old(disk.pointer)
    {
      hide Execute, Driven, Inv, PointerValid, Smooth, Latest;
      RunSteps();
      Reached(config, start, events, State(disk, endpoint, None));
    }

    method RunSteps()
      requires Idle()
      modifies this
      ensures Idle() && old(events) < events
      ensures Starts(old(disk)) && Smooth(Committed(old(disk)) + 1, old(endpoint).None?) ==>
        disk.pointer == Some(Pointer(config.rftSteps - 1, Latest(script.outcomes(config.rftSteps - 1).tree)))
      ensures !Starts(old(disk)) ==> disk.pointer == old(disk.pointer)
    {
      hide Execute, Driven, Inv, PointerValid, Latest;
      ghost var first := Committed(disk) + 1;
      ghost var smooth := Smooth(first, endpoint.None?);
      var live := Begin();
      if !live {
        return;
      }
      var up := LaunchServer();
      if !up {
        return;
      }
      while step < config.rftSteps
        invariant At(LoopHead) && old(events) < events && first <= step <= config.rftSteps && pending.None?
        invariant smooth && config.managed && step < config.rftSteps ==> server.Some?
        invariant smooth && step > first ==>
          disk.pointer == Some(Pointer(step - 1, Latest(script.outcomes(step - 1).tree)))
        decreases config.rftSteps - step
      {
        var ok := Iterate();
        if !ok {
          return;
        }
      }
      Finish();
    }
  }
}
