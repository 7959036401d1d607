/** The main results about the training loop, over runs and crashes. */
module TrainingTheorems {
  import opened Text
  import opened Permutations
  import opened TrainingDisk
  import opened TrainingMachine
  import opened TrainingSafety

  function Fresh(endpoint: Option<Model>): State {
    State(EMPTY, endpoint, None)
  }

  // ---------------------------------------------------------------- the committed step only grows

  lemma StepGrows(s: State, e: Event)
    requires Inv(false, s) && Step(s, e).Some?
    ensures Committed(Step(s, e).value.disk) >= Committed(s.disk)
  {
    hide SummariesComplete, OnePerStep, HasTree, EndsIn, EndsBelow, LoadedSteps, Written, StepsBelow, WithTree,
      Latest, LastGlobals, PruneTargets, AppendUnique, Remains;
  }

  /** No event, failure or crash ever moves the committed step back. */
  lemma {:induction false} CommittedGrows(s: State, events: seq<Event>)
    requires Inv(false, s)
    ensures var r := Execute(s, events); r.Some? ==> Committed(r.value.disk) >= Committed(s.disk)
    decreases |events|
  {
    hide Inv, Step, Committed;
    if events != [] && Step(s, events[0]).Some? {
      StepKeeps(false, s, events[0]);
      StepGrows(s, events[0]);
      CommittedGrows(Step(s, events[0]).value, events[1..]);
    }
  }

  // ---------------------------------------------------------------- the committed pointer

  /** When every run keeps a window of at least two checkpoints, or has at most one step to do, the committed pointer
      refers to an existing checkpoint at every point, so a crash anywhere can be resumed from. Whatever earlier runs
      did, it does throughout such a run, and in any run outside the stretch between pruning and the commit, in
      particular at every iteration boundary. Every run has its own command line. */
  lemma PointerSafe(endpoint: Option<Model>, events: seq<Event>)
    requires Execute(Fresh(endpoint), events).Some?
    ensures var s := Execute(Fresh(endpoint), events).value;
      && (SafeRuns(events) ==> PointerValid(s.disk))
      && (s.process.Some? && (Safe(s.process.value.config) || !AfterPrune(s.process.value.pc)) ==> PointerValid(s.disk))
  {
    hide Safe;
    FreshInv(SafeRuns(events), endpoint);
    ExecuteKeeps(SafeRuns(events), Fresh(endpoint), events);
  }

  /** Reading the committed pointer back right after writing it never fails. */
  lemma ReadBackSucceeds(s: State)
    requires Inv(false, s) && s.process.Some? && s.process.value.pc == WritePointer
    ensures var r := Step(s, Go);
      && r.Some? && r.value.process.Some? && PointerValid(r.value.disk)
      && (s.process.value.pending.Some? ==> Committed(r.value.disk) == s.process.value.step)
      && (s.process.value.pending.None? ==> r.value.disk == s.disk)
  {
    WritePointerKeeps(false, s);
  }

  /** Once the named checkpoint is gone, no later run changes anything: each refuses to start. */
  lemma {:induction false} LostForGood(s: State, events: seq<Event>)
    requires s.process.None? && !PointerValid(s.disk)
    ensures var r := Execute(s, events); r.Some? ==> r.value.disk == s.disk && r.value.process.None?
    decreases |events|
  {
    if events != [] && Step(s, events[0]).Some? {
      LostForGood(Step(s, events[0]).value, events[1..]);
    }
  }

  // ---------------------------------------------------------------- the manifest

  /** Wherever the last run stopped, the next one loads exactly one manifest entry per committed step, in
      order. */
  lemma ManifestRecovered(endpoint: Option<Model>, events: seq<Event>)
    requires Execute(Fresh(endpoint), events).Some?
    ensures var d := Execute(Fresh(endpoint), events).value.disk;
      OnePerStep(LoadedSteps(d), Committed(d) + 1)
  {
    FreshInv(false, endpoint);
    ExecuteKeeps(false, Fresh(endpoint), events);
    ReloadIsExact(Execute(Fresh(endpoint), events).value.disk);
  }

  /** While a run lasts, its list holds exactly one entry per step done, in order, and so does every manifest it
      writes. */
  lemma ManifestGrows(endpoint: Option<Model>, events: seq<Event>)
    requires Execute(Fresh(endpoint), events).Some?
    requires Execute(Fresh(endpoint), events).value.process.Some?
    ensures var p := Execute(Fresh(endpoint), events).value.process.value;
      OnePerStep(p.steps, Done(p))
  {
    FreshInv(false, endpoint);
    ExecuteKeeps(false, Fresh(endpoint), events);
  }

  // ---------------------------------------------------------------- a window of one is not enough

  lemma {:induction false} ExecuteTwice(s: State, a: seq<Event>, b: seq<Event>)
    requires Execute(s, a).Some?
    ensures Execute(s, a + b) == Execute(Execute(s, a).value, b)
    decreases |a|
  {
    hide Step;
    if a == [] {
      assert a + b == b;
    } else {
      assert (a + b)[0] == a[0] && (a + b)[1..] == a[1..] + b;
      ExecuteTwice(Step(s, a[0]).value, a[1..], b);
    }
  }

  lemma FirstEvent(s: State, e: Event, rest: seq<Event>)
    requires Step(s, e).Some?
    ensures Execute(s, [e] + rest) == Execute(Step(s, e).value, rest)
  {
    hide Step;
    assert ([e] + rest)[1..] == rest;
  }

  const G := Global(1, 0)

  /** The state is in a live run at `pc`. */
  ghost predicate At(s: State, step: nat, pc: Pc) {
    s.process.Some? && s.process.value.step == step && s.process.value.pc == pc
  }

  /** The server and the address agree with what the loop expects before training. */
  ghost predicate Serving(c: Config, s: State) {
    s.process.Some? && s.process.value.config == c && (c.managed ==> s.process.value.server.Some?)
  }

  ghost predicate Quiet(c: Config, s: State) {
    s.process.Some? && s.process.value.config == c && (c.managed ==> s.process.value.server.None? && s.endpoint.None?)
  }

  function Rows(c: Config): nat {
    if c.minRows < 1 then 1 else c.minRows
  }

  lemma CollectsEnough(c: Config, s: State, step: nat)
    requires At(s, step, LoopHead) && step < c.rftSteps && Serving(c, s)
    ensures var r := Execute(s, [Reset, Collect(Rows(c))]);
      r.Some? && At(r.value, step, StopServer) && Serving(c, r.value) && r.value.disk.pointer == s.disk.pointer
  {
    hide ResetStep, AppendUnique, Execute;
    ResetPointer(s.disk, step);
    var s1 := Step(s, Reset).value;
    var s2 := Step(s1, Collect(Rows(c))).value;
    FirstEvent(s1, Collect(Rows(c)), []);
    FirstEvent(s, Reset, [Collect(Rows(c))]);
    NoEvents(s2);
    assert [Collect(Rows(c))] + [] == [Collect(Rows(c))];
    assert [Reset] + [Collect(Rows(c))] == [Reset, Collect(Rows(c))];
  }

  lemma NoEvents(s: State)
    ensures Execute(s, []) == Some(s)
  {
  }

  lemma ResetPointer(d: Disk, step: nat)
    ensures ResetStep(d, step).pointer == d.pointer
  {
  }

  lemma Stops(c: Config, s: State, step: nat)
    requires At(s, step, StopServer) && Serving(c, s)
    ensures var r := Step(s, Stop);
      r.Some? && At(r.value, step, Training) && Quiet(c, r.value) && r.value.disk.pointer == s.disk.pointer
  {
  }

  lemma WritesTree(c: Config, s: State, step: nat)
    requires At(s, step, Training) && Quiet(c, s)
    ensures var r := Step(s, Train([G], true));
      && r.Some? && At(r.value, step, PruneGlobals) && Quiet(c, r.value) && r.value.disk.pointer == s.disk.pointer
      && step in r.value.disk.trees && r.value.process.value.pending == Some(Pointer(step, G))
  {
    LatestIsNewest([G]);
  }

  lemma PrunesTree(c: Config, s: State, step: nat)
    requires At(s, step, PruneGlobals) && Quiet(c, s)
    requires step in s.disk.trees && s.process.value.pending.Some?
    ensures var r := Step(s, Go);
      && r.Some? && At(r.value, step, Restart) && Quiet(c, r.value) && r.value.disk.pointer == s.disk.pointer
      && r.value.process.value.pending == s.process.value.pending
  {
    hide AppendUnique, LastGlobals;
  }

  lemma TrainsOne(c: Config, s: State, step: nat)
    requires At(s, step, StopServer) && Serving(c, s)
    ensures var r := Execute(s, [Stop, Train([G], true), Go]);
      && r.Some? && At(r.value, step, Restart) && Quiet(c, r.value) && r.value.disk.pointer == s.disk.pointer
      && r.value.process.value.pending == Some(Pointer(step, G))
  {
    hide Step, Execute, At, Quiet, Serving;
    Stops(c, s, step);
    var s1 := Step(s, Stop).value;
    WritesTree(c, s1, step);
    var s2 := Step(s1, Train([G], true)).value;
    PrunesTree(c, s2, step);
    var s3 := Step(s2, Go).value;
    NoEvents(s3);
    FirstEvent(s2, Go, []);
    FirstEvent(s1, Train([G], true), [Go]);
    FirstEvent(s, Stop, [Train([G], true), Go]);
    assert [Go] + [] == [Go] && [Train([G], true)] + [Go] == [Train([G], true), Go];
    assert [Stop] + [Train([G], true), Go] == [Stop, Train([G], true), Go];
  }

  lemma StartsNext(c: Config, s: State, step: nat)
    requires At(s, step, Restart) && Quiet(c, s)
    ensures var todo := PruneTargets(s.process.value.checkpointSteps, c.keepLast, Protected(s.process.value));
      var r := Step(s, Start(true));
      && r.Some? && At(r.value, step, PruneTrees(todo)) && r.value.disk == s.disk
      && r.value.process.value.pending == s.process.value.pending
      && (step + 1 < c.rftSteps ==> Serving(c, r.value))
  {
    hide PruneTargets;
  }

  lemma GoesOn(c: Config, s: State, step: nat)
    requires At(s, step, PruneTrees([])) && Serving(c, s) && Inv(false, s)
    ensures var r := Execute(s, [Go, Go, Go, Go, Go]);
      && r.Some? && At(r.value, step + 1, LoopHead) && Serving(c, r.value)
      && (s.process.value.pending.Some? ==> r.value.disk.pointer == s.process.value.pending)
  {
    hide Inv, Execute;
    var s1 := GoOnce(c, s, step, PrunePayloads);
    var s2 := GoOnce(c, s1, step, WriteSummary);
    var s3 := GoOnce(c, s2, step, WriteManifest);
    var s4 := GoOnce(c, s3, step, WritePointer);
    var s5 := Commit(c, s4, step);
    NoEvents(s5);
    FirstEvent(s4, Go, []);
    FirstEvent(s3, Go, [Go]);
    FirstEvent(s2, Go, [Go, Go]);
    FirstEvent(s1, Go, [Go, Go, Go]);
    FirstEvent(s, Go, [Go, Go, Go, Go]);
    assert [Go] + [] == [Go] && [Go] + [Go] == [Go, Go] && [Go] + [Go, Go] == [Go, Go, Go];
    assert [Go] + [Go, Go, Go] == [Go, Go, Go, Go] && [Go] + [Go, Go, Go, Go] == [Go, Go, Go, Go, Go];
  }

  lemma GoOnce(c: Config, s: State, step: nat, next: Pc) returns (t: State)
    requires s.process.Some? && s.process.value.step == step && Serving(c, s) && Inv(false, s)
    requires (s.process.value.pc, next) in
      {(PruneTrees([]), PrunePayloads), (PrunePayloads, WriteSummary), (WriteSummary, WriteManifest), (WriteManifest, WritePointer)}
    ensures Step(s, Go) == Some(t) && At(t, step, next) && Serving(c, t) && Inv(false, t)
    ensures t.process.value.pending == s.process.value.pending
  {
    hide Inv, PruneTargets, Written;
    StepKeeps(false, s, Go);
    t := Step(s, Go).value;
  }

  lemma Commit(c: Config, s: State, step: nat) returns (t: State)
    requires At(s, step, WritePointer) && Serving(c, s) && Inv(false, s)
    ensures Step(s, Go) == Some(t) && At(t, step + 1, LoopHead) && Serving(c, t)
    ensures s.process.value.pending.Some? ==> t.disk.pointer == s.process.value.pending
  {
    hide Inv;
    WritePointerKeeps(false, s);
    t := Step(s, Go).value;
  }

  lemma {:induction false} AscendingLow(s: seq<nat>, i: nat)
    requires Ascending(s) && i < |s|
    ensures s[i] >= i
    decreases i
  {
    if i > 0 {
      AscendingLow(s, i - 1);
    }
  }

  lemma ListOfOne(cs: seq<nat>)
    requires EndsIn(cs, None, 0)
    ensures PruneTargets(cs, 1, {0}) == []
  {
    AscendingLow(cs, |cs| - 1);
  }

  lemma ListOfTwo(cs: seq<nat>, g: Global)
    requires EndsIn(cs, Some(Pointer(0, g)), 1)
    ensures PruneTargets(cs, 1, {1}) == [0]
  {
    AscendingLow(cs, |cs| - 2);
    assert cs[..|cs| - 1] == [0];
    assert Unprotected([0], {1}) == [0] + Unprotected([0][1..], {1});
  }

  lemma AtRestart(s: State, step: nat)
    requires Inv(false, s) && At(s, step, Restart)
    ensures EndsIn(s.process.value.checkpointSteps, s.disk.pointer, step)
    ensures Protected(s.process.value) == {step}
  {
    hide SummariesComplete, OnePerStep, HasTree, EndsIn;
  }

  /** A crash after the second step's prune: its events. */
  function LosingEvents(c: Config): seq<Event> {
    var training := [Reset, Collect(Rows(c))] + [Stop, Train([G], true), Go];
    [Begin(c), Start(true)] + training + [Start(true), Go, Go, Go, Go, Go] + training + [Start(true), Go, Crash]
  }

  lemma Launches(c: Config)
    requires c.rftSteps >= 1
    ensures var r := Execute(Fresh(None), [Begin(c), Start(true)]);
      r.Some? && At(r.value, 0, LoopHead) && Serving(c, r.value) && r.value.disk.pointer.None? && Inv(false, r.value)
  {
    hide Inv, Execute;
    var s := Fresh(None);
    FreshInv(false, None);
    ExecuteKeeps(false, s, [Begin(c), Start(true)]);
    var s1 := Step(s, Begin(c)).value;
    var s2 := Step(s1, Start(true)).value;
    NoEvents(s2);
    FirstEvent(s1, Start(true), []);
    FirstEvent(s, Begin(c), [Start(true)]);
    assert [Start(true)] + [] == [Start(true)] && [Begin(c)] + [Start(true)] == [Begin(c), Start(true)];
  }

  /** Collecting and training one step from the loop head. */
  lemma Trains(c: Config, s: State, step: nat)
    requires At(s, step, LoopHead) && step < c.rftSteps && Serving(c, s) && Inv(false, s)
    ensures var r := Execute(s, [Reset, Collect(Rows(c))] + [Stop, Train([G], true), Go]);
      && r.Some? && At(r.value, step, Restart) && Quiet(c, r.value) && r.value.disk.pointer == s.disk.pointer
      && r.value.process.value.pending == Some(Pointer(step, G)) && Inv(false, r.value)
  {
    hide Inv, Execute;
    CollectsEnough(c, s, step);
    TrainsOne(c, Execute(s, [Reset, Collect(Rows(c))]).value, step);
    ExecuteTwice(s, [Reset, Collect(Rows(c))], [Stop, Train([G], true), Go]);
    ExecuteKeeps(false, s, [Reset, Collect(Rows(c))] + [Stop, Train([G], true), Go]);
  }

  /** The first step commits its checkpoint. */
  lemma FirstCommits(c: Config, s: State)
    requires c.keepLast == 1 && c.rftSteps >= 2 && At(s, 0, Restart) && Quiet(c, s) && Inv(false, s)
    requires s.disk.pointer.None? && s.process.value.pending == Some(Pointer(0, G))
    ensures var r := Execute(s, [Start(true), Go, Go, Go, Go, Go]);
      && r.Some? && At(r.value, 1, LoopHead) && Serving(c, r.value) && Inv(false, r.value)
      && r.value.disk.pointer == Some(Pointer(0, G))
  {
    hide Inv, Execute, EndsIn, PruneTargets, Step, Protected;
    AtRestart(s, 0);
    ListOfOne(s.process.value.checkpointSteps);
    StartsNext(c, s, 0);
    StepKeeps(false, s, Start(true));
    var s1 := Step(s, Start(true)).value;
    GoesOn(c, s1, 0);
    FirstEvent(s, Start(true), [Go, Go, Go, Go, Go]);
    assert [Start(true)] + [Go, Go, Go, Go, Go] == [Start(true), Go, Go, Go, Go, Go];
    ExecuteKeeps(false, s, [Start(true), Go, Go, Go, Go, Go]);
  }

  /** The second step prunes the committed checkpoint before it commits its own. */
  lemma SecondLoses(c: Config, s: State)
    requires c.keepLast == 1 && c.rftSteps >= 2 && At(s, 1, Restart) && Quiet(c, s) && Inv(false, s)
    requires s.disk.pointer == Some(Pointer(0, G))
    ensures var r := Execute(s, [Start(true), Go, Crash]);
      r.Some? && r.value.process.None? && !PointerValid(r.value.disk)
  {
    hide Inv, Execute, EndsIn, PruneTargets, Protected;
    AtRestart(s, 1);
    ListOfTwo(s.process.value.checkpointSteps, G);
    StartsNext(c, s, 1);
    var s1 := Step(s, Start(true)).value;
    var s2 := Step(s1, Go).value;
    var s3 := Step(s2, Crash).value;
    NoEvents(s3);
    FirstEvent(s2, Crash, []);
    FirstEvent(s1, Go, [Crash]);
    FirstEvent(s, Start(true), [Go, Crash]);
    assert [Crash] + [] == [Crash] && [Go] + [Crash] == [Go, Crash] && [Start(true)] + [Go, Crash] == [Start(true), Go, Crash];
  }

  /** A run that loses its only committed checkpoint. */
  lemma WindowOfOneLoses(c: Config)
    requires c.keepLast == 1 && c.rftSteps >= 2
    ensures var r := Execute(Fresh(None), LosingEvents(c));
      r.Some? && r.value.process.None? && !PointerValid(r.value.disk)
  {
    hide Inv, Execute, PointerValid;
    var training := [Reset, Collect(Rows(c))] + [Stop, Train([G], true), Go];
    var commit, lose := [Start(true), Go, Go, Go, Go, Go], [Start(true), Go, Crash];
    var s := Fresh(None);
    Launches(c);
    var s1 := Execute(s, [Begin(c), Start(true)]).value;
    Trains(c, s1, 0);
    var s2 := Execute(s1, training).value;
    FirstCommits(c, s2);
    var s3 := Execute(s2, commit).value;
    Trains(c, s3, 1);
    var s4 := Execute(s3, training).value;
    SecondLoses(c, s4);
    ExecuteTwice(s, [Begin(c), Start(true)], training);
    ExecuteTwice(s, [Begin(c), Start(true)] + training, commit);
    ExecuteTwice(s, [Begin(c), Start(true)] + training + commit, training);
    ExecuteTwice(s, [Begin(c), Start(true)] + training + commit + training, lose);
  }

  /** Every run has the same command line. */
  ghost predicate AllRuns(events: seq<Event>, c: Config) {
    forall i :: 0 <= i < |events| && events[i].Begin? ==> events[i].config == c
  }

  lemma LosingRuns(c: Config)
    ensures AllRuns(LosingEvents(c), c)
  {
    var training := [Reset, Collect(Rows(c))] + [Stop, Train([G], true), Go];
    var commit, lose := [Start(true), Go, Go, Go, Go, Go], [Start(true), Go, Crash];
    JoinedRuns([Begin(c), Start(true)], training, c);
    JoinedRuns([Begin(c), Start(true)] + training, commit, c);
    JoinedRuns([Begin(c), Start(true)] + training + commit, training, c);
    JoinedRuns([Begin(c), Start(true)] + training + commit + training, lose, c);
  }

  lemma JoinedRuns(a: seq<Event>, b: seq<Event>, c: Config)
    requires AllRuns(a, c) && AllRuns(b, c)
    ensures AllRuns(a + b, c)
  {
  }

  /** From a fresh directory, the committed pointer is valid after every sequence of runs with this command line. */
  ghost predicate AlwaysResumable(c: Config) {
    forall events ::
      AllRuns(events, c) && Execute(Fresh(None), events).Some? ==> PointerValid(Execute(Fresh(None), events).value.disk)
  }

  /** With one command line for all runs, every crash can be resumed from exactly when its window holds at least two
      checkpoints or it has at most one step to do. */
  lemma CrashSafeExactly(c: Config)
    ensures AlwaysResumable(c) <==> c.keepLast >= 2 || c.rftSteps <= 1
  {
    hide Execute, PointerValid;
    forall events | AllRuns(events, c) && Execute(Fresh(None), events).Some?
      ensures Safe(c) ==> PointerValid(Execute(Fresh(None), events).value.disk)
    {
      PointerSafe(None, events);
    }
    if !Safe(c) {
      LosingRuns(c);
      WindowOfOneLoses(c);
      assert !PointerValid(Execute(Fresh(None), LosingEvents(c)).value.disk);
    }
  }
}
