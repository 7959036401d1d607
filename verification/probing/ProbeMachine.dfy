/** Resumable difficulty-band probing (src/env/preload_onpolicy_difficulty_bands.py) as a machine of file-sized
    steps: a run may die between any two of them, and tasks complete in any order. */
module ProbeMachine {
  import opened Text

  /** A finished task and the band its rollouts gave it. */
  datatype Record = Record(task: nat, band: nat)

  /** What the cache metadata identifies: the settings, and the selected tasks in order. */
  datatype Job = Job(settings: nat, tasks: seq<nat>)

  datatype Progress = Progress(job: Job, completed: nat)

  datatype Cache = Cache(job: Job, records: seq<Record>)

  /** The three files. */
  datatype Disk = Disk(progress: Option<Progress>, records: Option<seq<Record>>, cache: Option<Cache>)

  datatype Pc =
    | DropProgress | DropRecords      // an unusable or refused partial result
    | Plan
    | FirstProgress
    | Filling                         // submit while the window has room
    | Waiting
    | Append(record: Record)
    | Advance                         // the progress write after an append
    | WriteCache
    | EndProgress | EndRecords        // a complete cache needs no partial result

  datatype Process = Process(
    job: Job, window: nat, found: map<nat, Record>, queue: seq<nat>, pending: set<nat>, pc: Pc)

  datatype State = State(disk: Disk, process: Option<Process>)

  datatype Event =
    | Begin(job: Job, window: nat, force: bool)
    | Crash
    | Fail                                // a probe raises
    | Complete(task: nat, band: nat)      // one of the pending probes is done
    | Go

  function IdsOf(records: seq<Record>): set<nat> {
    set i | 0 <= i < |records| :: records[i].task
  }

  predicate DistinctTasks(tasks: seq<nat>) {
    forall i, j :: 0 <= i < j < |tasks| ==> tasks[i] != tasks[j]
  }

  predicate DistinctRecords(records: seq<Record>) {
    forall i, j :: 0 <= i < j < |records| ==> records[i].task != records[j].task
  }

  function TaskSet(tasks: seq<nat>): set<nat> {
    set i | 0 <= i < |tasks| :: tasks[i]
  }

  /** _load_partial_records */
  function Found(records: seq<Record>): map<nat, Record> {
    if records == [] then map[]
    else Found(records[..|records| - 1])[records[|records| - 1].task := records[|records| - 1]]
  }

  /** The selected tasks without a record, in order. */
  function Remaining(tasks: seq<nat>, found: map<nat, Record>): seq<nat> {
    if tasks == [] then []
    else (if tasks[0] in found then [] else [tasks[0]]) + Remaining(tasks[1..], found)
  }

  /** _ordered_records_for_tasks */
  function Ordered(tasks: seq<nat>, found: map<nat, Record>): seq<Record> {
    if tasks == [] then []
    else (if tasks[0] in found then [found[tasks[0]]] else []) + Ordered(tasks[1..], found)
  }

  /** The cache on disk is complete for this job. */
  predicate Cached(d: Disk, job: Job) {
    && d.cache.Some? && d.cache.value.job == job && DistinctRecords(d.cache.value.records)
    && IdsOf(d.cache.value.records) == TaskSet(job.tasks)
  }

  predicate Resumes(d: Disk, job: Job, force: bool) {
    !force && d.progress.Some? && d.progress.value.job == job
  }

  /** Loading the partial result fails. */
  predicate LoadRaises(d: Disk, job: Job) {
    d.records.None? || !DistinctRecords(d.records.value) || !(IdsOf(d.records.value) <= TaskSet(job.tasks))
  }

  /** The start of main, up to the decision what to do with a partial result. */
  function BeginRun(s: State, job: Job, window: nat, force: bool): State {
    if Cached(s.disk, job) && !force then s
    else if !Resumes(s.disk, job, force) then s.(process := Some(Process(job, window, map[], [], {}, DropProgress)))
    else if LoadRaises(s.disk, job) then s
    else s.(process := Some(Process(job, window, Found(s.disk.records.value), [], {}, Plan)))
  }

  function Window(window: nat, remaining: nat): nat {
    var w := if window < remaining then window else remaining;
    if w < 1 then 1 else w
  }

  /** The steps that need nothing from outside. */
  function GoStep(s: State, p: Process): Option<State> {
    var d := s.disk;
    match p.pc
    case DropProgress => Some(State(d.(progress := None), Some(p.(pc := DropRecords))))
    case DropRecords => Some(State(d.(records := None), Some(p.(pc := Plan))))
    case Plan =>
      var queue := Remaining(p.job.tasks, p.found);
      Some(s.(process := Some(
        if queue == [] then p.(pc := WriteCache)
        else p.(queue := queue, window := Window(p.window, |queue|), pc := FirstProgress))))
    case FirstProgress =>
      Some(State(d.(progress := Some(Progress(p.job, |p.found|))), Some(p.(pc := Filling))))
    case Filling =>
      Some(s.(process := Some(
        if |p.pending| < p.window && p.queue != [] then p.(pending := p.pending + {p.queue[0]}, queue := p.queue[1..])
        else if p.pending == {} then p.(pc := WriteCache)
        else p.(pc := Waiting))))
    case Append(record) =>
      var before := if d.records.Some? then d.records.value else [];
      Some(State(d.(records := Some(before + [record])), Some(p.(pc := Advance))))
    case Advance =>
      Some(State(d.(progress := Some(Progress(p.job, |p.found|))), Some(p.(pc := Filling))))
    case WriteCache =>
      var ordered := Ordered(p.job.tasks, p.found);
      if |ordered| != |p.job.tasks| then Some(s.(process := None))
      else Some(State(d.(cache := Some(Cache(p.job, ordered))), Some(p.(pc := EndProgress))))
    case EndProgress => Some(State(d.(progress := None), Some(p.(pc := EndRecords))))
    case EndRecords => Some(State(d.(records := None), None))
    case Waiting => None
  }

  function Step(s: State, e: Event): Option<State> {
    match s.process
    case None =>
      (match e
       case Begin(job, window, force) => if DistinctTasks(job.tasks) then Some(BeginRun(s, job, window, force)) else None
       case _ => None)
    case Some(p) =>
      (match e
       case Crash => Some(s.(process := None))
       case Fail => if p.pc == Waiting then Some(s.(process := None)) else None
       case Complete(task, band) =>
         if p.pc != Waiting || task !in p.pending then None
         else
           var record := Record(task, band);
           Some(s.(process := Some(p.(pending := p.pending - {task}, found := p.found[task := record], pc := Append(record)))))
       case Go => GoStep(s, p)
       case Begin(_, _, _) => None)
  }

  function Execute(s: State, events: seq<Event>): Option<State>
    decreases |events|
  {
    if events == [] then Some(s)
    else
      match Step(s, events[0])
      case None => None
      case Some(next) => Execute(next, events[1..])
  }
}
