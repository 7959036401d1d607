/** Which model is served when. */
module ServerAgreement {
  import opened Text
  import opened TrainingDisk
  import opened TrainingMachine
  import opened TrainingSafety
  import opened TrainingTheorems

  /** What the controller holds at each point of a managed run. */
  predicate Held(p: Process) {
    match p.pc
    case Launch | Training | PruneGlobals | Restart | FinalManifest => p.server.None?
    case LoopHead => if p.step < p.config.rftSteps then p.server == Some(p.current) else p.server in {None, Some(p.current)}
    case Collecting | StopServer => p.server == Some(p.current)
    case _ => if p.step + 1 < p.config.rftSteps then p.server == Some(p.current) else p.server in {None, Some(p.current)}
  }

  predicate ServerOk(s: State, p: Process) {
    && (p.step < p.config.rftSteps || p.pc == LoopHead || p.pc == FinalManifest)
    && (p.server.Some? ==> s.endpoint == p.server)
    && (if p.config.managed then Held(p) && (p.server.None? && p.pc != Launch ==> s.endpoint.None?) else p.server.None?)
  }

  predicate Agree(s: State) {
    s.process.Some? ==> ServerOk(s, s.process.value)
  }

  lemma StepAgrees(s: State, e: Event)
    requires Agree(s)
    ensures var r := Step(s, e); r.Some? ==> Agree(r.value)
  {
    hide LoadedSteps, Written, StepsBelow, WithTree, PointerValid, ResetStep, DropTree, AppendUnique, Latest, LastGlobals,
      PruneTargets, Protected, ModelOf, Committed, Erased, Remains;
  }

  lemma {:induction false} ExecuteAgrees(s: State, events: seq<Event>)
    requires Agree(s)
    ensures var r := Execute(s, events); r.Some? ==> Agree(r.value)
    decreases |events|
  {
    hide Agree, Step;
    if events != [] && Step(s, events[0]).Some? {
      StepAgrees(s, events[0]);
      ExecuteAgrees(Step(s, events[0]).value, events[1..]);
    }
  }

  /** In a managed run every collection runs while the address serves the committed checkpoint, or the initial
      model when nothing is committed yet. */
  lemma CollectsFromCommitted(endpoint: Option<Model>, events: seq<Event>, rows: nat)
    requires Execute(Fresh(endpoint), events).Some?
    requires var s := Execute(Fresh(endpoint), events).value;
      s.process.Some? && s.process.value.config.managed && Step(s, Collect(rows)).Some?
    ensures var s := Execute(Fresh(endpoint), events).value;
      s.endpoint == Some(ModelOf(s.disk.pointer)) && s.process.value.server == s.endpoint
  {
    hide Inv, Execute, SummariesComplete, OnePerStep, HasTree, EndsIn, EndsBelow;
    var s := Execute(Fresh(endpoint), events).value;
    ExecuteAgrees(Fresh(endpoint), events);
    FreshInv(false, endpoint);
    ExecuteKeeps(false, Fresh(endpoint), events);
    CurrentIsCommitted(s);
  }

  lemma CurrentIsCommitted(s: State)
    requires Inv(false, s) && s.process.Some? && s.process.value.pc == Collecting
    ensures s.process.value.current == ModelOf(s.disk.pointer)
  {
    hide SummariesComplete, OnePerStep, HasTree, EndsIn, EndsBelow;
  }

  /** Training runs with nothing served, a start is never attempted while a server is held, and a run that ends
      by itself, well or badly, leaves the address empty unless it found it taken before its first start. */
  lemma ServerDiscipline(endpoint: Option<Model>, events: seq<Event>, e: Event)
    requires Execute(Fresh(endpoint), events).Some?
    requires var s := Execute(Fresh(endpoint), events).value; s.process.Some? && s.process.value.config.managed && Step(s, e).Some?
    ensures var s := Execute(Fresh(endpoint), events).value;
      var p, t := s.process.value, Step(s, e).value;
      && (e.Train? ==> s.endpoint.None? && p.server.None?)
      && (e.Start? ==> p.server.None?)
      && (t.process.None? && e != Crash && p.pc != Launch ==> t.endpoint.None?)
      && (t.process.None? && e != Crash && p.pc == Launch ==> t.endpoint == s.endpoint)
  {
    hide Execute, LoadedSteps, Written, StepsBelow, WithTree, PointerValid, ResetStep, DropTree, AppendUnique, Latest,
      LastGlobals, PruneTargets, Protected, ModelOf, Committed, Erased, Remains;
    ExecuteAgrees(Fresh(endpoint), events);
  }
}
