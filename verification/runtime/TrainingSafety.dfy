/** What every step of the training loop keeps, whatever happens and wherever it dies. */
module TrainingSafety {
  import opened Text
  import opened Permutations
  import opened TrainingDisk
  import opened TrainingMachine

  // ---------------------------------------------------------------- the invariant

  /** A run that can be resumed from wherever it dies: its window holds two checkpoints, or it has one step to do. */
  predicate Safe(c: Config) {
    c.keepLast >= 2 || c.rftSteps <= 1
  }

  /** Every run that starts is a safe one. */
  ghost predicate SafeRuns(events: seq<Event>) {
    forall i :: 0 <= i < |events| && events[i].Begin? ==> Safe(events[i].config)
  }

  /** `safe` is whether all runs so far were safe ones. */
  ghost predicate DiskOk(safe: bool, d: Disk) {
    && SummariesComplete(d.summaries, Committed(d) + 1)
    && d.trees.Keys <= d.dirs
    && (safe ==> PointerValid(d))
  }

  /** The steps whose entry is in the run's list. */
  function Done(p: Process): nat {
    if p.pc == WriteManifest || p.pc == WritePointer then p.step + 1 else p.step
  }

  /** From the prune of old trees to the commit. */
  predicate AfterPrune(pc: Pc) {
    pc.PruneTrees? || pc == PrunePayloads || pc == WriteSummary || pc == WriteManifest || pc == WritePointer
  }

  ghost predicate PendingOk(trees: map<nat, seq<Global>>, p: Process) {
    && (p.pending.Some? ==>
          && p.pending.value.step == p.step && HasTree(trees, p.pending.value)
          && (p.pc == PruneGlobals || p.pc == Restart || AfterPrune(p.pc)))
    && (p.pc == PruneGlobals || p.pc == Restart || p.pc.PruneTrees? ==> p.pending.Some?)
    && (p.pc == PruneGlobals ==> trees[p.step] != [] && p.pending.value.global == Latest(trees[p.step]))
  }

  /** The step's own checkpoint has been put on the list. */
  predicate Listed(p: Process) {
    p.pending.Some? && p.pc != PruneGlobals
  }

  /** The checkpoint list ends in `last`, and before it in the committed step. */
  ghost predicate EndsIn(cs: seq<nat>, pointer: Option<Pointer>, last: nat) {
    && Ascending(cs) && cs != [] && cs[|cs| - 1] == last
    && (pointer.Some? ==> |cs| >= 2 && cs[|cs| - 2] == pointer.value.step)
  }

  /** The checkpoint list stays below `step` and ends in the committed step. */
  ghost predicate EndsBelow(cs: seq<nat>, pointer: Option<Pointer>, step: nat) {
    && Ascending(cs) && (forall k :: k in cs ==> k < step)
    && (pointer.Some? ==> cs != [] && cs[|cs| - 1] == pointer.value.step)
  }

  ghost predicate ListOk(pointer: Option<Pointer>, p: Process) {
    if Listed(p) then EndsIn(p.checkpointSteps, pointer, p.step) else EndsBelow(p.checkpointSteps, pointer, p.step)
  }

  ghost predicate Spared(keep: nat, todo: seq<nat>, pointer: Option<Pointer>, step: nat) {
    forall k :: k in todo ==> k != step && (keep >= 2 && pointer.Some? ==> k != pointer.value.step)
  }

  ghost predicate DataOk(safe: bool, d: Disk, p: Process) {
    && (safe ==> Safe(p.config))
    && p.committed == d.pointer && Committed(d) < p.step
    && (p.step < p.config.rftSteps || p.pc == LoopHead || p.pc == FinalManifest)
    && (p.step in d.dirs || p.pc == Launch || p.pc == LoopHead || p.pc == FinalManifest)
    && OnePerStep(p.steps, Done(p)) && SummariesComplete(d.summaries, Done(p))
    && PendingOk(d.trees, p) && ListOk(d.pointer, p)
    && (p.pc.PruneTrees? ==> Spared(p.config.keepLast, p.pc.todo, d.pointer, p.step))
    && (Safe(p.config) || p.pending.None? || !AfterPrune(p.pc) ==> PointerValid(d))
    && p.current == (if Listed(p) then ModelOf(p.pending) else ModelOf(d.pointer))
  }

  ghost predicate Inv(safe: bool, s: State) {
    DiskOk(safe, s.disk) && (s.process.Some? ==> DataOk(safe, s.disk, s.process.value))
  }

  const EMPTY := Disk({}, map[], {}, map[], None, None)

  lemma FreshInv(safe: bool, endpoint: Option<Model>)
    ensures Inv(safe, State(EMPTY, endpoint, None))
  {
  }

  lemma StillInv(safe: bool, s: State)
    requires Inv(safe, s)
    ensures Inv(false, s)
  {
    hide SummariesComplete, OnePerStep, HasTree, EndsIn, EndsBelow, Spared, Safe, Latest;
  }

  // ---------------------------------------------------------------- each event keeps it

  lemma BeginKeeps(safe: bool, s: State, c: Config)
    requires Inv(safe, s) && s.process.None? && (safe ==> Safe(c))
    ensures Inv(safe, BeginRun(c, s))
  {
    hide LoadedSteps, Written, StepsBelow, WithTree, SummariesComplete, OnePerStep, EndsBelow, EndsIn;
    var d := s.disk;
    ReloadIsExact(d);
    if PointerValid(d) && Committed(d) + 1 < c.rftSteps {
      ListBegins(d, Committed(d) + 1);
    }
  }

  lemma ListBegins(d: Disk, start: nat)
    requires PointerValid(d) && d.trees.Keys <= d.dirs && start == Committed(d) + 1
    ensures EndsBelow(WithTree(StepsBelow(d.dirs, start), d.trees), d.pointer, start)
  {
    hide StepsBelow, WithTree;
    var existing := StepsBelow(d.dirs, start);
    StepsBelowAre(d.dirs, start);
    WithTreeAre(existing, d.trees);
    if d.pointer.Some? {
      LastIs(WithTree(existing, d.trees), d.pointer.value.step);
    }
  }

  /** The largest element of an ascending list stands last. */
  lemma LastIs(s: seq<nat>, k: nat)
    requires Ascending(s) && k in s && forall i :: i in s ==> i <= k
    ensures s != [] && s[|s| - 1] == k
  {
    var i :| 0 <= i < |s| && s[i] == k;
    assert s[|s| - 1] in s;
  }

  lemma StartKeeps(safe: bool, s: State, ready: bool)
    requires Inv(safe, s) && s.process.Some?
    requires StartStep(s, s.process.value, ready).Some?
    ensures Inv(safe, StartStep(s, s.process.value, ready).value)
  {
    hide SummariesComplete, OnePerStep, HasTree, Latest, PruneTargets, Spared, EndsIn, EndsBelow;
    var p, d := s.process.value, s.disk;
    if p.pc == Restart {
      TargetsSpared(p.checkpointSteps, p.config.keepLast, d.pointer, p.step);
    }
  }

  /** Neither the step's own checkpoint nor, with a window of two, the committed one is on the prune list. */
  lemma TargetsSpared(cs: seq<nat>, keep: nat, pointer: Option<Pointer>, step: nat)
    requires keep >= 1 && EndsIn(cs, pointer, step)
    ensures Spared(keep, PruneTargets(cs, keep, {step}), pointer, step)
  {
    if |cs| > keep {
      TargetsAre(cs[..|cs| - keep], {step});
      forall k | k in PruneTargets(cs, keep, {step}) ensures keep >= 2 && pointer.Some? ==> k != pointer.value.step {
        var i :| 0 <= i < |cs| - keep && cs[i] == k;
      }
    }
  }

  lemma ErasedSummaries(d: Disk, step: nat, tree: Option<seq<Global>>, payload: bool, summary: bool)
    ensures forall n: int ::
      n <= step && SummariesComplete(d.summaries, n) ==> SummariesComplete(Erased(d, step, tree, payload, summary).summaries, n)
  {
  }

  lemma ErasedTrees(d: Disk, step: nat, tree: Option<seq<Global>>, payload: bool, summary: bool, pointer: Pointer)
    requires pointer.step != step
    ensures HasTree(Erased(d, step, tree, payload, summary).trees, pointer) == HasTree(d.trees, pointer)
  {
  }

  lemma DroppedTrees(d: Disk, step: nat, pointer: Pointer)
    requires pointer.step != step
    ensures HasTree(DropTree(d, step).trees, pointer) == HasTree(d.trees, pointer)
  {
  }

  /** Deleting any part of an uncommitted step's artifacts. */
  lemma ErasedKeeps(safe: bool, s: State, tree: Option<seq<Global>>, payload: bool, summary: bool)
    requires Inv(safe, s) && s.process.Some? && s.process.value.pc == LoopHead
    ensures Inv(safe, s.(disk := Erased(s.disk, s.process.value.step, tree, payload, summary)))
  {
    hide SummariesComplete, OnePerStep, HasTree, EndsIn, EndsBelow;
    var p, d := s.process.value, s.disk;
    ErasedSummaries(d, p.step, tree, payload, summary);
    if d.pointer.Some? {
      ErasedTrees(d, p.step, tree, payload, summary, d.pointer.value);
    }
  }

  lemma ResetKeeps(safe: bool, s: State)
    requires Inv(safe, s) && s.process.Some?
    requires ResetArtifacts(s, s.process.value).Some?
    ensures Inv(safe, ResetArtifacts(s, s.process.value).value)
  {
    hide SummariesComplete, OnePerStep, HasTree, EndsIn, EndsBelow, AppendUnique, Erased;
    ErasedKeeps(safe, s, None, false, false);
    InDirs(s.disk, s.process.value.step);
  }

  lemma InDirs(d: Disk, step: nat)
    ensures step in ResetStep(d, step).dirs && ResetStep(d, step).pointer == d.pointer
  {
  }

  /** Events that change neither trees nor summaries nor the lists. */
  lemma CollectKeeps(safe: bool, s: State, rows: nat)
    requires Inv(safe, s) && s.process.Some?
    ensures var r := CollectRows(s, s.process.value, rows); r.Some? ==> Inv(safe, r.value)
  {
    hide SummariesComplete, OnePerStep, HasTree, EndsIn, EndsBelow;
  }

  lemma StopKeeps(safe: bool, s: State)
    requires Inv(safe, s) && s.process.Some?
    ensures var r := StopForTraining(s, s.process.value); r.Some? ==> Inv(safe, r.value)
  {
    hide SummariesComplete, OnePerStep, HasTree, EndsIn, EndsBelow;
  }

  lemma OtherTree(trees: map<nat, seq<Global>>, step: nat, tree: seq<Global>, pointer: Pointer)
    requires pointer.step != step
    ensures HasTree(trees[step := tree], pointer) == HasTree(trees, pointer)
  {
  }

  /** Whatever is written into the tree of the step being trained. */
  lemma SpillKeeps(safe: bool, s: State, tree: seq<Global>)
    requires Inv(safe, s) && s.process.Some? && s.process.value.pc == Training
    ensures Inv(safe, s.(disk := s.disk.(trees := s.disk.trees[s.process.value.step := tree])))
  {
    hide SummariesComplete, OnePerStep, HasTree, EndsIn, EndsBelow;
    var p, d := s.process.value, s.disk;
    if d.pointer.Some? {
      OtherTree(d.trees, p.step, tree, d.pointer.value);
    }
  }

  lemma TrainKeeps(safe: bool, s: State, tree: seq<Global>, ok: bool)
    requires Inv(safe, s) && s.process.Some?
    ensures var r := TrainStep(s, s.process.value, tree, ok); r.Some? ==> Inv(safe, r.value)
  {
    hide SummariesComplete, OnePerStep, EndsIn, EndsBelow, Latest;
    var p, d := s.process.value, s.disk;
    if p.pc == Training {
      SpillKeeps(safe, s, tree);
      if tree != [] {
        LatestIsNewest(tree);
      }
    }
  }

  lemma AppendListed(cs: seq<nat>, pointer: Option<Pointer>, step: nat)
    requires EndsBelow(cs, pointer, step)
    ensures EndsIn(AppendUnique(cs, step), pointer, step)
  {
    assert forall i :: 0 <= i < |cs| ==> cs[i] in cs;
  }

  lemma PruneGlobalsKeeps(safe: bool, s: State)
    requires Inv(safe, s) && s.process.Some? && s.process.value.pc == PruneGlobals
    ensures var r := GoStep(s, s.process.value); r.Some? ==> Inv(safe, r.value)
  {
    hide SummariesComplete, OnePerStep, EndsIn, EndsBelow, Latest, LastGlobals, AppendUnique;
    var p, d := s.process.value, s.disk;
    AppendListed(p.checkpointSteps, d.pointer, p.step);
    LatestSurvives(d.trees[p.step], p.config.keepLast);
    if d.pointer.Some? {
      OtherTree(d.trees, p.step, LastGlobals(d.trees[p.step], p.config.keepLast), d.pointer.value);
    }
  }

  lemma NextSpared(keep: nat, todo: seq<nat>, pointer: Option<Pointer>, step: nat)
    requires Spared(keep, todo, pointer, step) && todo != []
    ensures Spared(keep, todo[1..], pointer, step)
    ensures todo[0] != step && (keep >= 2 && pointer.Some? ==> todo[0] != pointer.value.step)
  {
    assert todo[0] in todo && forall k :: k in todo[1..] ==> k in todo;
  }

  lemma DropKeeps(d: Disk, step: nat)
    ensures var e := DropTree(d, step);
      e.dirs == d.dirs && e.summaries == d.summaries && e.pointer == d.pointer && e.trees.Keys <= d.trees.Keys
  {
  }

  lemma PruneTreesKeeps(safe: bool, s: State)
    requires Inv(safe, s) && s.process.Some? && s.process.value.pc.PruneTrees?
    ensures var r := GoStep(s, s.process.value); r.Some? ==> Inv(safe, r.value)
  {
    hide SummariesComplete, OnePerStep, EndsIn, EndsBelow, HasTree, Spared, DropTree;
    var p, d := s.process.value, s.disk;
    if p.pc.todo != [] {
      var gone := p.pc.todo[0];
      NextSpared(p.config.keepLast, p.pc.todo, d.pointer, p.step);
      DropKeeps(d, gone);
      DroppedTrees(d, gone, p.pending.value);
      if d.pointer.Some? && p.config.keepLast >= 2 {
        DroppedTrees(d, gone, d.pointer.value);
      }
    }
  }

  lemma ChipKeeps(safe: bool, s: State, tree: seq<Global>)
    requires Inv(safe, s) && s.process.Some?
    ensures var r := ChipTree(s, s.process.value, tree); r.Some? ==> Inv(safe, r.value)
  {
    hide SummariesComplete, OnePerStep, EndsIn, EndsBelow, HasTree, Spared;
    var p, d := s.process.value, s.disk;
    if ChipTree(s, p, tree).Some? {
      var chipped := p.pc.todo[0];
      NextSpared(p.config.keepLast, p.pc.todo, d.pointer, p.step);
      OtherTree(d.trees, chipped, tree, p.pending.value);
      if d.pointer.Some? && p.config.keepLast >= 2 {
        OtherTree(d.trees, chipped, tree, d.pointer.value);
      }
    }
  }

  lemma SummaryAdds(summaries: map<nat, Summary>, n: nat, model: Model)
    requires SummariesComplete(summaries, n)
    ensures SummariesComplete(summaries[n := Summary(n, model)], n + 1)
  {
  }

  lemma FewerSummaries(summaries: map<nat, Summary>, n: nat, m: int)
    requires SummariesComplete(summaries, n) && m <= n
    ensures SummariesComplete(summaries, m)
  {
  }

  lemma EntryAdds(steps: seq<Summary>, n: nat, model: Model)
    requires OnePerStep(steps, n)
    ensures OnePerStep(steps + [Summary(n, model)], n + 1)
  {
  }

  lemma WriteSummaryKeeps(safe: bool, s: State)
    requires Inv(safe, s) && s.process.Some? && s.process.value.pc == WriteSummary
    ensures var r := GoStep(s, s.process.value); r.Some? ==> Inv(safe, r.value)
  {
    hide SummariesComplete, OnePerStep, EndsIn, EndsBelow, HasTree;
    var p, d := s.process.value, s.disk;
    SummaryAdds(d.summaries, p.step, p.current);
    FewerSummaries(d.summaries[p.step := Summary(p.step, p.current)], p.step + 1, Committed(d) + 1);
    EntryAdds(p.steps, p.step, p.current);
  }

  lemma ListCommits(cs: seq<nat>, pointer: Option<Pointer>, step: nat, next: Pointer)
    requires EndsIn(cs, pointer, step) && next.step == step
    ensures EndsBelow(cs, Some(next), step + 1)
  {
    forall k | k in cs ensures k < step + 1 {
      var i :| 0 <= i < |cs| && cs[i] == k;
    }
  }

  lemma ListStays(cs: seq<nat>, pointer: Option<Pointer>, step: nat)
    requires EndsBelow(cs, pointer, step)
    ensures EndsBelow(cs, pointer, step + 1)
  {
  }

  lemma WritePointerKeeps(safe: bool, s: State)
    requires Inv(safe, s) && s.process.Some? && s.process.value.pc == WritePointer
    ensures var r := GoStep(s, s.process.value); r.Some? && Inv(safe, r.value)
    ensures GoStep(s, s.process.value).value.process.Some?
  {
    hide SummariesComplete, OnePerStep, EndsIn, EndsBelow, HasTree, Spared;
    var p, d := s.process.value, s.disk;
    if p.pending.Some? {
      ListCommits(p.checkpointSteps, d.pointer, p.step, p.pending.value);
    } else {
      ListStays(p.checkpointSteps, d.pointer, p.step);
    }
  }

  lemma GoKeeps(safe: bool, s: State)
    requires Inv(safe, s) && s.process.Some?
    ensures var r := GoStep(s, s.process.value); r.Some? ==> Inv(safe, r.value)
  {
    match s.process.value.pc
    case PruneGlobals => PruneGlobalsKeeps(safe, s);
    case PruneTrees(_) => PruneTreesKeeps(safe, s);
    case WriteSummary => WriteSummaryKeeps(safe, s);
    case WritePointer => WritePointerKeeps(safe, s);
    case _ => PlainGoKeeps(safe, s);
  }

  lemma PlainGoKeeps(safe: bool, s: State)
    requires Inv(safe, s) && s.process.Some?
    requires s.process.value.pc in {Launch, LoopHead, Collecting, StopServer, Training, Restart, PrunePayloads, WriteManifest, FinalManifest}
    ensures var r := GoStep(s, s.process.value); r.Some? ==> Inv(safe, r.value)
  {
    hide SummariesComplete, OnePerStep, EndsIn, EndsBelow, HasTree, PruneTargets, Protected, Written, Spared, LastGlobals,
      AppendUnique, DropTree, Latest;
  }

  /** Every event keeps the invariant. */
  lemma StepKeeps(safe: bool, s: State, e: Event)
    requires Inv(safe, s) && (safe && e.Begin? ==> Safe(e.config))
    ensures var r := Step(s, e); r.Some? ==> Inv(safe, r.value)
  {
    hide Inv, BeginRun, StartStep, ResetArtifacts, CollectRows, StopForTraining, TrainStep, GoStep,
      Erased, ChipTree;
    if s.process.None? {
      IdleKeeps(safe, s);
      if e.Begin? {
        BeginKeeps(safe, s, e.config);
      }
    } else {
      var p := s.process.value;
      match e
      case Start(ready) => if StartStep(s, p, ready).Some? { StartKeeps(safe, s, ready); }
      case Erase(tree, payload, summary) =>
        if p.pc == LoopHead {
          ErasedKeeps(safe, s, tree, payload, summary);
        }
      case Chip(tree) => ChipKeeps(safe, s, tree);
      case Reset => if ResetArtifacts(s, p).Some? { ResetKeeps(safe, s); }
      case Collect(rows) => CollectKeeps(safe, s, rows);
      case Stop => StopKeeps(safe, s);
      case Spill(tree) => if p.pc == Training { SpillKeeps(safe, s, tree); }
      case Train(tree, ok) => TrainKeeps(safe, s, tree, ok);
      case Go => GoKeeps(safe, s);
      case _ => IdleKeeps(safe, s);
    }
  }

  lemma IdleKeeps(safe: bool, s: State)
    requires Inv(safe, s)
    ensures Inv(safe, s.(process := None)) && Inv(safe, s.(endpoint := None, process := None))
    ensures s.process.Some? ==> Inv(safe, Unwind(s, s.process.value))
    ensures s.process.None? ==> Inv(safe, s.(endpoint := None))
  {
  }

  /** Every reachable state satisfies the invariant. */
  lemma {:induction false} ExecuteKeeps(safe: bool, s: State, events: seq<Event>)
    requires Inv(safe, s) && (safe ==> SafeRuns(events))
    ensures var r := Execute(s, events); r.Some? ==> Inv(safe, r.value)
    decreases |events|
  {
    hide Inv, Step, Safe;
    if events != [] && Step(s, events[0]).Some? {
      StepKeeps(safe, s, events[0]);
      assert forall i :: 0 <= i < |events| - 1 ==> events[1..][i] == events[i + 1];
      ExecuteKeeps(safe, Step(s, events[0]).value, events[1..]);
    }
  }
}
