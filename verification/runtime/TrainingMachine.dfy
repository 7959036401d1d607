/** run_rft_runtime_loop as a machine of disk-sized steps: the run may die between any two of them. */
module TrainingMachine {
  import opened Text
  import opened TrainingDisk

  /** checkpoint_keep_last, which the command line refuses below 1 (src/trainer/rft_runtime_loop.py:3210). */
  type Window = k: nat | k >= 1 witness 1

  /** The command line of one run. */
  datatype Config = Config(rftSteps: nat, keepLast: Window, managed: bool, minRows: nat)

  /** What the loop does next. */
  datatype Pc =
    | Launch                    // the first vLLM start
    | LoopHead
    | Collecting
    | StopServer
    | Training
    | PruneGlobals
    | Restart
    | PruneTrees(todo: seq<nat>)
    | PrunePayloads
    | WriteSummary
    | WriteManifest
    | WritePointer
    | FinalManifest

  /** The variables of one run. `server` is the process the controller holds. */
  datatype Process = Process(
    config: Config,
    current: Model,
    committed: Option<Pointer>,
    runSteps: seq<nat>,
    checkpointSteps: seq<nat>,
    steps: seq<Summary>,
    server: Option<Model>,
    step: nat,
    pending: Option<Pointer>,
    pc: Pc)

  /** `endpoint` is the model served at the configured address, by whomever. */
  datatype State = State(disk: Disk, endpoint: Option<Model>, process: Option<Process>)

  /** What happens, with what the outside world contributes to it. */
  datatype Event =
    | Begin(config: Config)              // a run starts with its own command line
    | Crash                              // the run dies; its server may live on
    | Vacate                             // an operator stops a left-over server
    | Raise                              // any exception: the `finally` clause stops the server
    | Start(ready: bool)                 // a vLLM start, becoming ready or not
    | Erase(left: Option<seq<Global>>, payload: bool, summary: bool) // a reset part way: what is left so far
    | Reset
    | Collect(rows: nat)                 // rows left after the length filter
    | Stop
    | Spill(tree: seq<Global>)           // what the trainer has written so far
    | Train(tree: seq<Global>, ok: bool) // the trainer's checkpoints, and whether it and its export succeeded
    | Chip(tree: seq<Global>)            // the prune of a tree part way: what is left of it so far
    | Go                                 // every step without outside input

  function ModelOf(p: Option<Pointer>): Model {
    match p
    case None => Initial
    case Some(pointer) => Checkpoint(pointer.step, pointer.global)
  }

  /** The exception path: the controller's server is stopped and the run ends. */
  function Unwind(s: State, p: Process): State {
    State(s.disk, if p.server.Some? then None else s.endpoint, None)
  }

  /** VLLMServerController.start: refused while a server is held or the address is taken. */
  function StartServer(s: State, p: Process, ready: bool, next: Pc): State {
    if p.server.Some? || s.endpoint.Some? || !ready then Unwind(s, p)
    else State(s.disk, Some(p.current), Some(p.(server := Some(p.current), pc := next)))
  }

  function BeginRun(c: Config, s: State): State {
    var d := s.disk;
    if !PointerValid(d) then s
    else
      var start := Committed(d) + 1;
      var loaded := LoadedSteps(d);
      if start >= c.rftSteps then s.(disk := d.(manifest := Some(Written(loaded))))
      else
        var existing := StepsBelow(d.dirs, start);
        s.(process := Some(Process(
          c, ModelOf(d.pointer), d.pointer, existing, WithTree(existing, d.trees), loaded, None, start, None, Launch)))
  }

  function Written(steps: seq<Summary>): seq<Option<Summary>> {
    seq(|steps|, i requires 0 <= i < |steps| => Some(steps[i]))
  }

  /** The step whose payload and checkpoints are protected from pruning. */
  function Protected(p: Process): set<nat> {
    if p.pending.Some? then {p.pending.value.step}
    else if p.committed.Some? then {p.committed.value.step}
    else {}
  }

  /** The steps that need nothing from outside. */
  function GoStep(s: State, p: Process): Option<State>
  {
    var d := s.disk;
    match p.pc
    case LoopHead =>
      if p.step < p.config.rftSteps then None
      else Some(State(d, if p.server.Some? then None else s.endpoint, Some(p.(server := None, pc := FinalManifest))))
    case PruneGlobals =>
      if p.pending.None? || p.step !in d.trees then None
      else
        Some(s.(disk := d.(trees := d.trees[p.step := LastGlobals(d.trees[p.step], p.config.keepLast)]),
                process := Some(p.(current := ModelOf(p.pending),
                                   checkpointSteps := AppendUnique(p.checkpointSteps, p.step),
                                   pc := Restart))))
    case PruneTrees(todo) =>
      if todo == [] then Some(s.(process := Some(p.(pc := PrunePayloads))))
      else Some(s.(disk := DropTree(d, todo[0]), process := Some(p.(pc := PruneTrees(todo[1..])))))
    case PrunePayloads =>
      var gone := PruneTargets(p.runSteps, p.config.keepLast, Protected(p));
      Some(s.(disk := d.(payloads := set k | k in d.payloads && k !in gone), process := Some(p.(pc := WriteSummary))))
    case WriteSummary =>
      var summary := Summary(p.step, p.current);
      Some(s.(disk := d.(summaries := d.summaries[p.step := summary]),
              process := Some(p.(steps := p.steps + [summary], pc := WriteManifest))))
    case WriteManifest =>
      Some(s.(disk := d.(manifest := Some(Written(p.steps))), process := Some(p.(pc := WritePointer))))
    case WritePointer =>
      var after := if p.pending.Some? then d.(pointer := p.pending) else d;
      var head := p.(step := p.step + 1, pending := None, pc := LoopHead,
                     committed := if p.pending.Some? then p.pending else p.committed);
      if p.pending.Some? && !PointerValid(after) then Some(Unwind(s.(disk := after), p))
      else Some(s.(disk := after, process := Some(head)))
    case FinalManifest => Some(State(d.(manifest := Some(Written(p.steps))), s.endpoint, None))
    case _ => None
  }

  function StartStep(s: State, p: Process, ready: bool): Option<State> {
    match p.pc
    case Launch =>
      Some(if p.config.managed then StartServer(s, p, ready, LoopHead) else s.(process := Some(p.(pc := LoopHead))))
    case Restart =>
      // A last step has no successor to serve.
      var next := PruneTrees(PruneTargets(p.checkpointSteps, p.config.keepLast, Protected(p)));
      Some(if p.config.managed && p.step + 1 < p.config.rftSteps then StartServer(s, p, ready, next)
           else s.(process := Some(p.(pc := next))))
    case _ => None
  }

  function ResetArtifacts(s: State, p: Process): Option<State> {
    if p.pc != LoopHead || p.step >= p.config.rftSteps then None
    else Some(s.(disk := ResetStep(s.disk, p.step),
                 process := Some(p.(runSteps := AppendUnique(p.runSteps, p.step), pc := Collecting))))
  }

  /** A reset has deleted some of the step's artifacts. */
  function EraseSome(s: State, p: Process, tree: Option<seq<Global>>, payload: bool, summary: bool): Option<State> {
    if p.pc != LoopHead || p.step >= p.config.rftSteps then None
    else if tree.Some? && (p.step !in s.disk.trees || !Remains(tree.value, s.disk.trees[p.step])) then None
    else Some(s.(disk := Erased(s.disk, p.step, tree, payload, summary)))
  }

  /** The prune has deleted some of the next tree on its list. */
  function ChipTree(s: State, p: Process, tree: seq<Global>): Option<State> {
    if !p.pc.PruneTrees? || p.pc.todo == [] || p.pc.todo[0] !in s.disk.trees then None
    else if !Remains(tree, s.disk.trees[p.pc.todo[0]]) then None
    else Some(s.(disk := s.disk.(trees := s.disk.trees[p.pc.todo[0] := tree])))
  }

  /** No rows: the trainer is skipped. Fewer than one distributed batch: an error. */
  function CollectRows(s: State, p: Process, rows: nat): Option<State> {
    if p.pc != Collecting then None
    else
      var after := s.(disk := s.disk.(payloads := s.disk.payloads + {p.step}));
      if rows < 1 then Some(after.(process := Some(p.(pc := PrunePayloads))))
      else if rows < p.config.minRows then Some(Unwind(after, p))
      else Some(after.(process := Some(p.(pc := StopServer))))
  }

  function StopForTraining(s: State, p: Process): Option<State> {
    if p.pc != StopServer then None
    else if p.config.managed then
      Some(State(s.disk, if p.server.Some? then None else s.endpoint, Some(p.(server := None, pc := Training))))
    else Some(s.(process := Some(p.(pc := Training))))
  }

  /** Whatever the trainer leaves in the step's tree stays there, also when it fails. */
  function TrainStep(s: State, p: Process, tree: seq<Global>, ok: bool): Option<State> {
    if p.pc != Training then None
    else
      var after := s.(disk := s.disk.(trees := s.disk.trees[p.step := tree]));
      if !ok || tree == [] then Some(Unwind(after, p))
      else Some(after.(process := Some(p.(pending := Some(Pointer(p.step, Latest(tree))), pc := PruneGlobals))))
  }

  /** An event in the life of a run. */
  function Live(s: State, p: Process, e: Event): Option<State>
  {
    match e
    case Crash => Some(s.(process := None))
    case Raise => Some(Unwind(s, p))
    case Start(ready) => StartStep(s, p, ready)
    case Erase(tree, payload, summary) => EraseSome(s, p, tree, payload, summary)
    case Reset => ResetArtifacts(s, p)
    case Collect(rows) => CollectRows(s, p, rows)
    case Stop => StopForTraining(s, p)
    case Spill(tree) =>
      if p.pc == Training then Some(s.(disk := s.disk.(trees := s.disk.trees[p.step := tree]))) else None
    case Train(tree, ok) => TrainStep(s, p, tree, ok)
    case Chip(tree) => ChipTree(s, p, tree)
    case Go => GoStep(s, p)
    case Begin(_) => None
    case Vacate => None
  }

  /** One step of the machine; None when the event cannot happen in this state. */
  function Step(s: State, e: Event): Option<State>
  {
    match s.process
    case Some(p) => Live(s, p, e)
    case None =>
      match e
      case Begin(c) => Some(BeginRun(c, s))
      case Vacate => Some(s.(endpoint := None))
      case _ => None
  }

  /** The state after a sequence of events; None when one of them cannot happen. */
  function Execute(s: State, events: seq<Event>): Option<State>
    decreases |events|
  {
    if events == [] then Some(s)
    else
      match Step(s, events[0])
      case None => None
      case Some(next) => Execute(next, events[1..])
  }
}
