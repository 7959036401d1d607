/** Where a committed checkpoint comes from: only a trainer that succeeded, in the run that commits it. */
module CommitOrigin {
  import opened Text
  import opened TrainingDisk
  import opened TrainingMachine
  import opened TrainingTheorems

  /** Event `i` is a successful training of the pointer's step, and its global is the newest checkpoint. */
  ghost predicate TrainedAt(start: State, events: seq<Event>, i: nat, p: Pointer) {
    && i < |events| && events[i].Train? && events[i].ok && events[i].tree != [] && Latest(events[i].tree) == p.global
    && var before := Execute(start, events[..i]);
    before.Some? && before.value.process.Some? && before.value.process.value.step == p.step
  }

  /** Nothing was trained after event `i`, and no other run has started. */
  ghost predicate LastTraining(events: seq<Event>, i: nat) {
    forall m :: i < m < |events| ==> !events[m].Train? && !events[m].Begin?
  }

  /** The pointer is what the last training of this run left. */
  ghost predicate JustTrained(start: State, events: seq<Event>, p: Pointer) {
    exists i: nat :: TrainedAt(start, events, i, p) && LastTraining(events, i)
  }

  /** Event `j` is the commit of the pointer, in the run that trained it and with no training in between. */
  ghost predicate CommitsAt(start: State, events: seq<Event>, j: nat, p: Pointer) {
    && j < |events| && events[j] == Go && JustTrained(start, events[..j], p)
    && var before := Execute(start, events[..j]);
    before.Some? && before.value.process.Some? && before.value.process.value.pc == WritePointer
    && before.value.process.value.pending == Some(p)
  }

  ghost predicate WasCommitted(start: State, events: seq<Event>, p: Pointer) {
    exists j: nat :: CommitsAt(start, events, j, p)
  }

  // ---------------------------------------------------------------- one event

  /** Only the commit changes the pointer, and only to the pending checkpoint. */
  lemma PointerChanges(s: State, e: Event)
    requires Step(s, e).Some? && Step(s, e).value.disk.pointer != s.disk.pointer
    ensures e == Go && s.process.Some? && s.process.value.pc == WritePointer && s.process.value.pending.Some?
    ensures Step(s, e).value.disk.pointer == s.process.value.pending
  {
    hide LoadedSteps, Written, StepsBelow, WithTree, LastGlobals, PruneTargets, AppendUnique, Remains, Protected, Latest,
      PointerValid, ModelOf;
  }

  /** Only a training that succeeds makes a checkpoint pending: the newest one of its tree, for the run's step. */
  lemma PendingChanges(s: State, e: Event)
    requires Step(s, e).Some? && Step(s, e).value.process.Some?
    ensures var pending := Step(s, e).value.process.value.pending;
      pending.Some? ==>
        && s.process.Some? && !e.Begin?
        && if e.Train? then e.ok && e.tree != [] && pending.value == Pointer(s.process.value.step, Latest(e.tree))
           else pending == s.process.value.pending
  {
    hide LoadedSteps, Written, StepsBelow, WithTree, LastGlobals, PruneTargets, AppendUnique, Remains, Protected, Latest,
      PointerValid, ModelOf;
  }

  // ---------------------------------------------------------------- longer histories

  lemma PrefixOf(events: seq<Event>, e: Event, i: nat)
    requires i <= |events|
    ensures (events + [e])[..i] == events[..i]
  {
  }

  lemma StillTrained(start: State, events: seq<Event>, e: Event, p: Pointer)
    requires JustTrained(start, events, p) && !e.Train? && !e.Begin?
    ensures JustTrained(start, events + [e], p)
  {
    hide Execute, Latest;
    var i: nat :| TrainedAt(start, events, i, p) && LastTraining(events, i);
    PrefixOf(events, e, i);
    assert TrainedAt(start, events + [e], i, p) && LastTraining(events + [e], i);
  }

  lemma NowTrained(start: State, events: seq<Event>, e: Event, p: Pointer)
    requires Execute(start, events).Some? && Execute(start, events).value.process.Some?
    requires Execute(start, events).value.process.value.step == p.step
    requires e.Train? && e.ok && e.tree != [] && Latest(e.tree) == p.global
    ensures JustTrained(start, events + [e], p)
  {
    hide Execute, Latest;
    PrefixOf(events, e, |events|);
    assert events[..|events|] == events;
    assert TrainedAt(start, events + [e], |events|, p) && LastTraining(events + [e], |events|);
  }

  lemma StillCommitted(start: State, events: seq<Event>, e: Event, p: Pointer)
    requires WasCommitted(start, events, p)
    ensures WasCommitted(start, events + [e], p)
  {
    hide Execute, JustTrained;
    var j: nat :| CommitsAt(start, events, j, p);
    PrefixOf(events, e, j);
    assert CommitsAt(start, events + [e], j, p);
  }

  lemma NowCommitted(start: State, events: seq<Event>, p: Pointer)
    requires JustTrained(start, events, p) && Execute(start, events).Some?
    requires var s := Execute(start, events).value;
      s.process.Some? && s.process.value.pc == WritePointer && s.process.value.pending == Some(p)
    ensures WasCommitted(start, events + [Go], p)
  {
    hide Execute, JustTrained;
    PrefixOf(events, Go, |events|);
    assert events[..|events|] == events;
    assert CommitsAt(start, events + [Go], |events|, p);
  }

  lemma LastEvent(start: State, events: seq<Event>)
    requires events != [] && Execute(start, events).Some?
    ensures var front, e := events[..|events| - 1], events[|events| - 1];
      && events == front + [e] && Execute(start, front).Some?
      && Step(Execute(start, front).value, e) == Execute(start, events)
    decreases |events|
  {
    hide Step;
    if |events| == 1 {
      assert events[1..] == [];
    } else {
      var rest := events[1..];
      LastEvent(Step(start, events[0]).value, rest);
      assert rest[..|rest| - 1] == events[..|events| - 1][1..];
    }
  }

  /** Over every sequence of runs, failures and crashes: the committed checkpoint is the newest one of a training that
      succeeded, for the step it names, committed by the same run with no training in between; so is what a run is
      about to commit. */
  lemma {:induction false} CommitsWhatWasTrained(endpoint: Option<Model>, events: seq<Event>)
    requires Execute(Fresh(endpoint), events).Some?
    ensures var s := Execute(Fresh(endpoint), events).value;
      && (s.disk.pointer.Some? ==> WasCommitted(Fresh(endpoint), events, s.disk.pointer.value))
      && (s.process.Some? && s.process.value.pending.Some? ==>
            JustTrained(Fresh(endpoint), events, s.process.value.pending.value))
    decreases |events|
  {
    hide Execute, Step, WasCommitted, JustTrained, Latest;
    var start := Fresh(endpoint);
    if events == [] {
      NoEvents(start);
    } else {
      LastEvent(start, events);
      var front, e := events[..|events| - 1], events[|events| - 1];
      CommitsWhatWasTrained(endpoint, front);
      var before, after := Execute(start, front).value, Execute(start, events).value;
      if after.disk.pointer != before.disk.pointer {
        PointerChanges(before, e);
        NowCommitted(start, front, after.disk.pointer.value);
      } else if after.disk.pointer.Some? {
        StillCommitted(start, front, e, after.disk.pointer.value);
      }
      if after.process.Some? && after.process.value.pending.Some? {
        PendingChanges(before, e);
        if e.Train? {
          NowTrained(start, front, e, after.process.value.pending.value);
        } else {
          StillTrained(start, front, e, after.process.value.pending.value);
        }
      }
    }
  }

  /** A trainer that fails, or leaves no checkpoint, ends the run and changes nothing but its step's tree. */
  lemma FailedTrainingEnds(s: State, e: Event)
    requires e.Train? && (!e.ok || e.tree == []) && Step(s, e).Some?
    ensures var t := Step(s, e).value;
      t.process.None? && t.disk == s.disk.(trees := s.disk.trees[s.process.value.step := e.tree])
  {
  }

  /** Collection decides: without rows the trainer is skipped, with fewer than one distributed batch the run ends, and
      otherwise the server is stopped for training; the pointer stays in every case. */
  lemma CollectDecides(s: State, rows: nat)
    requires Step(s, Collect(rows)).Some?
    ensures var p, t := s.process.value, Step(s, Collect(rows)).value;
      && t.disk == s.disk.(payloads := s.disk.payloads + {p.step})
      && (rows == 0 ==> t.process == Some(p.(pc := PrunePayloads)))
      && (1 <= rows < p.config.minRows ==> t.process.None?)
      && (rows >= 1 && rows >= p.config.minRows ==> t.process == Some(p.(pc := StopServer)))
  {
  }
}
