/** What a step of the loop deletes, and how a run ends. */
module Retention {
  import opened Text
  import opened TrainingDisk
  import opened TrainingMachine

  /** `k` stands before the last `keep` places of a list of steps. */
  ghost predicate Outside(steps: seq<nat>, keep: nat, k: nat) {
    exists i :: 0 <= i < |steps| - keep && steps[i] == k
  }

  /** The step that no prune touches: the one about to be committed, else the committed one. */
  ghost predicate Spares(p: Process, k: nat) {
    (p.pending.Some? && p.pending.value.step == k)
    || (p.pending.None? && p.committed.Some? && p.committed.value.step == k)
  }

  lemma TargetsOutside(p: Process, steps: seq<nat>, k: nat)
    ensures k in PruneTargets(steps, p.config.keepLast, Protected(p)) <==>
              Outside(steps, p.config.keepLast, k) && !Spares(p, k)
  {
    var keep := p.config.keepLast;
    if |steps| > keep {
      var early := steps[..|steps| - keep];
      TargetsAre(early, Protected(p));
      if k in early {
        var i :| 0 <= i < |early| && early[i] == k;
        assert steps[i] == k;
      }
      if Outside(steps, keep, k) {
        var i :| 0 <= i < |steps| - keep && steps[i] == k;
        assert early[i] == k;
      }
    }
  }

  /** A step's end deletes the payloads of the steps outside the window, except the spared one, and nothing else. */
  lemma PayloadsPruned(s: State, k: nat)
    requires s.process.Some? && s.process.value.pc == PrunePayloads
    ensures var p, r := s.process.value, Step(s, Go);
      && r.Some? && r.value == s.(disk := s.disk.(payloads := r.value.disk.payloads), process := r.value.process)
      && r.value.process == Some(p.(pc := WriteSummary))
      && (k in r.value.disk.payloads <==>
            k in s.disk.payloads && !(Outside(p.runSteps, p.config.keepLast, k) && !Spares(p, k)))
  {
    hide PruneTargets, Protected, Outside, Spares;
    TargetsOutside(s.process.value, s.process.value.runSteps, k);
  }

  /** After a training, a managed run with a step left comes to serve the current model or ends; any other goes on. The
      trees it goes on to delete are those outside the window, except the spared one. */
  lemma RestartDecides(s: State, ready: bool, k: nat)
    requires s.process.Some? && s.process.value.pc == Restart
    ensures var p, r := s.process.value, Step(s, Start(ready));
      var serves, free := p.config.managed && p.step + 1 < p.config.rftSteps, p.server.None? && s.endpoint.None?;
      && r.Some? && r.value.disk == s.disk && (r.value.process.Some? <==> !serves || (ready && free))
      && (r.value.process.Some? ==>
            var q := r.value.process.value;
            && (serves ==> r.value.endpoint == q.server == Some(p.current))
            && (!serves ==> r.value.endpoint == s.endpoint && q.server == p.server)
            && q == p.(server := q.server, pc := q.pc) && q.pc.PruneTrees?
            && (k in q.pc.todo <==> Outside(p.checkpointSteps, p.config.keepLast, k) && !Spares(p, k)))
  {
    hide PruneTargets, Protected, Outside, Spares;
    TargetsOutside(s.process.value, s.process.value.checkpointSteps, k);
  }

  /** Each listed tree is deleted, whole and alone. */
  lemma TreeDropped(s: State, k: nat)
    requires s.process.Some? && s.process.value.pc.PruneTrees? && s.process.value.pc.todo != []
    ensures var p, r := s.process.value, Step(s, Go);
      && r.Some? && r.value == s.(disk := s.disk.(trees := r.value.disk.trees), process := r.value.process)
      && r.value.process == Some(p.(pc := PruneTrees(p.pc.todo[1..])))
      && (k in r.value.disk.trees <==> k in s.disk.trees && k != p.pc.todo[0])
      && (k in r.value.disk.trees ==> r.value.disk.trees[k] == s.disk.trees[k])
  {
  }

  /** At the head of the loop: a step that is left can only be begun, from nothing; when none is left, the run stops its
      server, writes the manifest with one entry per entry of its list, and ends. */
  lemma LoopEnds(s: State)
    requires s.process.Some? && s.process.value.pc == LoopHead
    ensures var p := s.process.value;
      if p.step < p.config.rftSteps then
        && Step(s, Go).None? && Step(s, Reset).Some?
        && var r := Step(s, Reset).value;
           && p.step in r.disk.dirs && p.step !in r.disk.trees && p.step !in r.disk.payloads && p.step !in r.disk.summaries
           && r.process.Some? && r.process.value.pc == Collecting && p.step in r.process.value.runSteps
      else
        && Step(s, Reset).None? && Execute(s, [Go, Go]).Some?
        && var r := Execute(s, [Go, Go]).value;
           && r.process.None? && r.endpoint == (if p.server.Some? then None else s.endpoint)
           && r.disk == s.disk.(manifest := r.disk.manifest) && r.disk.manifest.Some?
           && |r.disk.manifest.value| == |p.steps|
           && forall i :: 0 <= i < |p.steps| ==> r.disk.manifest.value[i] == Some(p.steps[i])
  {
    if s.process.value.step >= s.process.value.config.rftSteps {
      hide StartStep, CollectRows, TrainStep, EraseSome, ChipTree, BeginRun, StopForTraining, PruneTargets, LastGlobals, DropTree;
      var t := Step(s, Go).value;
      assert [Go, Go][1..] == [Go];
      assert Execute(s, [Go, Go]) == Execute(t, [Go]);
      assert [Go][1..] == [];
      assert Execute(t, [Go]) == Step(t, Go);
    }
  }

  // ---------------------------------------------------------------- deletions part way

  /** Every checkpoint of the tree stood in the tree before. */
  ghost predicate Within(tree: seq<Global>, before: seq<Global>) {
    forall i :: 0 <= i < |tree| ==> tree[i] in before
  }

  /** A reset can stop part way exactly before a step that is left; what it has touched is that step, and of its checkpoints
      it leaves only such as were there. */
  lemma ResetPartWay(s: State, left: Option<seq<Global>>, payload: bool, summary: bool, k: nat)
    requires s.process.Some?
    ensures var p, r := s.process.value, Step(s, Erase(left, payload, summary));
      && (r.Some? <==>
            && p.pc == LoopHead && p.step < p.config.rftSteps
            && (left.Some? ==> p.step in s.disk.trees && Within(left.value, s.disk.trees[p.step])))
      && (r.Some? ==>
            && r.value.process == s.process && r.value.endpoint == s.endpoint
            && r.value.disk.pointer == s.disk.pointer && r.value.disk.manifest == s.disk.manifest
            && (k in r.value.disk.trees <==> if k == p.step then left.Some? else k in s.disk.trees)
            && (k in r.value.disk.trees ==> r.value.disk.trees[k] == if k == p.step then left.value else s.disk.trees[k])
            && (k in r.value.disk.payloads <==> k in s.disk.payloads && (k == p.step ==> payload))
            && (k in r.value.disk.summaries <==> k in s.disk.summaries && (k == p.step ==> summary)))
  {
    if left.Some? && s.process.value.step in s.disk.trees {
      SameMembers(left.value, s.disk.trees[s.process.value.step]);
    }
    hide Remains, Within;
  }

  /** A prune can stop part way exactly within the next tree on its list, of which it leaves only what was there. */
  lemma PrunePartWay(s: State, left: seq<Global>)
    requires s.process.Some?
    ensures var p, r := s.process.value, Step(s, Chip(left));
      && (r.Some? <==>
            && p.pc.PruneTrees? && p.pc.todo != [] && p.pc.todo[0] in s.disk.trees
            && Within(left, s.disk.trees[p.pc.todo[0]]))
      && (r.Some? ==> r.value == s.(disk := s.disk.(trees := s.disk.trees[p.pc.todo[0] := left])))
  {
    var p := s.process.value;
    if p.pc.PruneTrees? && p.pc.todo != [] && p.pc.todo[0] in s.disk.trees {
      SameMembers(left, s.disk.trees[p.pc.todo[0]]);
    }
    hide Remains, Within;
  }

  lemma SameMembers(tree: seq<Global>, before: seq<Global>)
    ensures Remains(tree, before) <==> Within(tree, before)
  {
  }
}
