/** main and the probing loop as they are written (src/env/preload_onpolicy_difficulty_bands.py), each method
    performing steps of the machine. */
module ProbeLoop {
  import opened Text
  import opened ProbeMachine
  import opened ProbeSafety
  import opened ProbeTheorems

  /** _load_partial_records, on a file without repetition. */
  method LoadPartialRecords(records: seq<Record>) returns (found: map<nat, Record>)
    ensures found == Found(records)
  {
    found := map[];
    for i := 0 to |records|
      invariant found == Found(records[..i])
    {
      assert records[..i + 1][..i] == records[..i];
      found := found[records[i].task := records[i]];
    }
    assert records[..|records|] == records;
  }

  /** The selected tasks without a record. */
  method RemainingTasks(tasks: seq<nat>, found: map<nat, Record>) returns (queue: seq<nat>)
    ensures queue == Remaining(tasks, found)
  {
    queue := [];
    assert tasks[0..] == tasks;
    for i := 0 to |tasks|
      invariant queue + Remaining(tasks[i..], found) == Remaining(tasks, found)
    {
      assert tasks[i..][1..] == tasks[i + 1..];
      ghost var rest := Remaining(tasks[i + 1..], found);
      if tasks[i] !in found {
        assert queue + ([tasks[i]] + rest) == (queue + [tasks[i]]) + rest;
        queue := queue + [tasks[i]];
      } else {
        assert [] + rest == rest;
      }
    }
    assert queue + [] == queue;
  }

  /** _ordered_records_for_tasks */
  method OrderedRecords(tasks: seq<nat>, found: map<nat, Record>) returns (ordered: seq<Record>)
    ensures ordered == Ordered(tasks, found)
  {
    ordered := [];
    assert tasks[0..] == tasks;
    for i := 0 to |tasks|
      invariant ordered + Ordered(tasks[i..], found) == Ordered(tasks, found)
    {
      assert tasks[i..][1..] == tasks[i + 1..];
      ghost var rest := Ordered(tasks[i + 1..], found);
      if tasks[i] in found {
        assert ordered + ([found[tasks[i]]] + rest) == (ordered + [found[tasks[i]]]) + rest;
        ordered := ordered + [found[tasks[i]]];
      } else {
        assert [] + rest == rest;
      }
    }
    assert ordered + [] == ordered;
  }

  lemma {:induction false} ExecuteTwice(s: State, a: seq<Event>, b: seq<Event>)
    requires Execute(s, a).Some?
    ensures Execute(s, a + b) == Execute(Execute(s, a).value, b)
    decreases |a|
  {
    hide Step;
    if a == [] {
      assert a + b == b;
    } else {
      assert (a + b)[0] == a[0] && (a + b)[1..] == a[1..] + b;
      ExecuteTwice(Step(s, a[0]).value, a[1..], b);
    }
  }

  /** What one run is asked to do, and what probing each task gives: a band, or an exception. */
  datatype Request = Request(job: Job, window: nat, force: bool, probe: nat -> Option<nat>)

  /** The events that can come next in a run nobody kills: running probes finish in any order. */
  ghost predicate Allowed(r: Request, s: State, e: Event) {
    match s.process
    case None => e == Begin(r.job, r.window, r.force)
    case Some(p) =>
      if p.pc != Waiting then e == Go
      else
        || (e.Complete? && e.task in p.pending && r.probe(e.task) == Some(e.band))
        || (e == Fail && exists task :: task in p.pending && r.probe(task).None?)
  }

  ghost predicate Driven(r: Request, s: State, events: seq<Event>)
    decreases |events|
  {
    events != [] ==>
      && Allowed(r, s, events[0])
      && (Step(s, events[0]).Some? ==> Driven(r, Step(s, events[0]).value, events[1..]))
  }

  lemma {:induction false} DrivenOn(r: Request, s: State, events: seq<Event>, e: Event)
    requires Driven(r, s, events) && Execute(s, events).Some? && Allowed(r, Execute(s, events).value, e)
    ensures Driven(r, s, events + [e])
    decreases |events|
  {
    hide Step, Allowed;
    if events == [] {
      assert [e][1..] == [];
    } else {
      DrivenOn(r, Step(s, events[0]).value, events[1..], e);
      assert (events + [e])[0] == events[0] && (events + [e])[1..] == events[1..] + [e];
    }
  }

  /** A run that is alive was started with the requested window. */
  lemma {:induction false} DrivenWindow(r: Request, s: State, events: seq<Event>)
    requires Driven(r, s, events) && Execute(s, events).Some?
    ensures forall i :: 0 <= i < |events| && events[i].Begin? ==> events[i].window == r.window
    decreases |events|
  {
    hide Step;
    if events != [] {
      DrivenWindow(r, Step(s, events[0]).value, events[1..]);
      assert forall i :: 0 < i < |events| ==> events[i] == events[1..][i - 1];
    }
  }

  lemma {:induction false} OneWindow(events: seq<Event>, window: nat)
    requires forall i :: 0 <= i < |events| && events[i].Begin? ==> events[i].window == window
    ensures RunWindow(events) == window || forall i :: 0 <= i < |events| ==> !events[i].Begin?
    decreases |events|
  {
    if events != [] {
      var front := events[..|events| - 1];
      OneWindow(front, window);
      assert forall i :: 0 <= i < |front| ==> events[i] == front[i];
    }
  }

  lemma {:induction false} NeverStarted(s: State, events: seq<Event>)
    requires s.process.None? && Execute(s, events).Some? && forall i :: 0 <= i < |events| ==> !events[i].Begin?
    ensures events == []
  {
    if events != [] {
      OnlyBeginStarts(s, events[0]);
    }
  }

  lemma WindowIs(r: Request, start: State, events: seq<Event>)
    requires start.process.None? && Driven(r, start, events) && Execute(start, events).Some?
    requires Execute(start, events).value.process.Some?
    ensures WindowOk(Execute(start, events).value.process.value, r.window)
  {
    hide Execute, Driven, WindowOk;
    DrivenWindow(r, start, events);
    OneWindow(events, r.window);
    WindowKept(start, events);
    if forall i :: 0 <= i < |events| ==> !events[i].Begin? {
      NeverStarted(start, events);
      NoEvents(start);
    }
  }

  /** One run of the probe over the files it finds. */
  class Probe {
    ghost const start: State
    const request: Request
    const job: Job
    var window: nat
    var disk: Disk
    var found: map<nat, Record>
    var queue: seq<nat>
    var pending: set<nat>
    ghost var events: seq<Event>

    /** The recorded events are ones the request allows, and lead from the start to `s`. */
    ghost predicate Reaches(s: State)
      reads this`events
    {
      && DistinctTasks(job.tasks) && request.job == job && start.process.None?
      && Driven(request, start, events) && Execute(start, events) == Some(s)
    }

    ghost predicate At(pc: Pc)
      reads this
    {
      Reaches(Now(pc))
    }

    ghost predicate Idle()
      reads this
    {
      Reaches(State(disk, None))
    }

    constructor (request: Request, disk: Disk)
      requires DistinctTasks(request.job.tasks)
      ensures Idle() && this.request == request && job == request.job && window == request.window && this.disk == disk
      ensures start == State(disk, None) && events == [] && found == map[] && queue == [] && pending == {}
    {
      this.request, this.job, this.window, this.disk := request, request.job, request.window, disk;
      found, queue, pending := map[], [], {};
      start, events := State(disk, None), [];
    }

    ghost method Record(e: Event, s: State)
      requires Reaches(s) && Allowed(request, s, e) && Step(s, e).Some?
      modifies this`events
      ensures Reaches(Step(s, e).value) && events == old(events) + [e]
    {
      hide Step, Allowed, Driven;
      DrivenOn(request, start, events, e);
      ExecuteTwice(start, events, [e]);
      FirstEvent(s, e, []);
      assert [e] + [] == [e];
      NoEvents(Step(s, e).value);
      events := events + [e];
    }

    ghost function Now(pc: Pc): State
      reads this
    {
      State(disk, Some(Process(job, window, found, queue, pending, pc)))
    }

    /** The resume decision of main; false when the run ends here, with a complete cache or an unusable partial
        result. */
    method Begin() returns (live: bool)
      requires Idle() && found == map[] && queue == [] && pending == {} && window == request.window
      modifies this`disk, this`found, this`events
      ensures if live then At(Plan) else Idle()
      ensures old(events) + [ProbeMachine.Begin(job, window, request.force)] <= events
      ensures !live ==> events == old(events) + [ProbeMachine.Begin(job, window, request.force)]
    {
      hide Execute, Driven, Found, DistinctRecords, IdsOf, TaskSet, Cached;
      var force := request.force;
      Record(ProbeMachine.Begin(job, window, force), State(disk, None));
      if Cached(disk, job) && !force {
        return false;
      }
      if Resumes(disk, job, force) {
        if LoadRaises(disk, job) {
          return false;
        }
        found := LoadPartialRecords(disk.records.value);
        return true;
      }
      Record(Go, Now(DropProgress));
      disk := disk.(progress := None);
      Record(Go, Now(DropRecords));
      disk := disk.(records := None);
      return true;
    }

    /** The first progress write, when there is anything to probe. */
    method PlanProbes() returns (any: bool)
      requires At(Plan)
      modifies this`disk, this`queue, this`window, this`events
      ensures At(if any then Filling else WriteCache) && events == old(events) + if any then [Go, Go] else [Go]
    {
      hide Execute, Driven, Remaining, Window;
      ghost var before := Now(Plan);
      var remaining := RemainingTasks(job.tasks, found);
      Record(Go, before);
      if remaining == [] {
        return false;
      }
      queue, window := remaining, Window(window, |remaining|);
      Record(Go, Now(FirstProgress));
      disk := disk.(progress := Some(Progress(job, |found|)));
      return true;
    }

    /** Submitting while the window has room; false when nothing is left to wait for. Never more probes run than the
        window asked for, or one, and as many as that while work is left to submit. */
    method Submit() returns (waiting: bool)
      requires At(Filling)
      modifies this`queue, this`pending, this`events
      ensures At(if waiting then Waiting else WriteCache)
      ensures waiting ==> pending != {}
      ensures |pending| <= AtLeastOne(request.window)
      ensures waiting && queue != [] ==> |pending| == AtLeastOne(request.window)
      ensures old(events) < events
      ensures TaskCount() <= old(TaskCount())
    {
      hide Execute, Driven;
      while |pending| < window && queue != []
        invariant At(Filling) && old(events) <= events
        invariant TaskCount() <= old(TaskCount())
        decreases |queue|
      {
        Record(Go, Now(Filling));
        pending, queue := pending + {queue[0]}, queue[1..];
      }
      Record(Go, Now(Filling));
      waiting := pending != {};
      if waiting {
        WindowIs(request, start, events);
      }
    }

    /** The tasks that are still to be recorded. */
    ghost function TaskCount(): nat
      reads this
    {
      |queue| + |pending|
    }

    /** One finished probe: its record, appended to the file before the progress write. */
    method RecordResult(task: nat, band: nat)
      requires At(Waiting) && task in pending && request.probe(task) == Some(band)
      modifies this`disk, this`found, this`pending, this`events
      ensures At(Filling) && |pending| == old(|pending|) - 1
      ensures events == old(events) + [Complete(task, band), Go, Go]
    {
      hide Execute, Driven, Reaches;
      Collect(task, band);
      AppendRecord(ProbeMachine.Record(task, band));
      WriteProgress();
    }

    method Collect(task: nat, band: nat)
      requires At(Waiting) && task in pending && request.probe(task) == Some(band)
      modifies this`found, this`pending, this`events
      ensures At(Append(ProbeMachine.Record(task, band))) && |pending| == old(|pending|) - 1
      ensures events == old(events) + [Complete(task, band)]
    {
      hide Execute, Driven, Reaches;
      Record(Complete(task, band), Now(Waiting));
      pending := pending - {task};
      found := found[task := ProbeMachine.Record(task, band)];
    }

    method AppendRecord(record: Record)
      requires At(Append(record))
      modifies this`disk, this`events
      ensures At(Advance) && events == old(events) + [Go]
    {
      hide Execute, Driven, Reaches;
      Record(Go, Now(Append(record)));
      disk := disk.(records := Some((if disk.records.Some? then disk.records.value else []) + [record]));
    }

    method WriteProgress()
      requires At(Advance)
      modifies this`disk, this`events
      ensures At(Filling) && events == old(events) + [Go]
    {
      hide Execute, Driven, Reaches;
      Record(Go, Now(Advance));
      disk := disk.(progress := Some(Progress(job, |found|)));
    }

    /** _probe_tasks_with_progress_writes: probes finish in any order, with the outcome the request gives them; false
        when one raises. */
    method ProbeTasks() returns (ok: bool)
      requires At(Filling)
      modifies this`disk, this`found, this`queue, this`pending, this`events
      ensures (if ok then At(WriteCache) else Idle()) && old(events) < events
    {
      hide Execute, Driven;
      var waiting := Submit();
      while waiting
        invariant At(if waiting then Waiting else WriteCache) && old(events) < events
        invariant waiting ==> pending != {}
        decreases TaskCount()
      {
        var task :| task in pending;
        var outcome := request.probe(task);
        if outcome.None? {
          Record(Fail, Now(Waiting));
          return false;
        }
        RecordResult(task, outcome.value);
        waiting := Submit();
      }
      return true;
    }

    /** The complete cache, then the removal of the partial result; false when a task has no record. */
    method WriteResult() returns (ok: bool)
      requires At(WriteCache)
      modifies this`disk, this`events
      ensures Idle() && old(events) < events
      ensures ok ==> disk.cache.Some? && disk.cache.value.job == job && disk.progress.None? && disk.records.None?
    {
      hide Execute, Driven, Reaches;
      ok := WriteCompleteCache();
      if ok {
        RemovePartial();
      }
    }

    method WriteCompleteCache() returns (ok: bool)
      requires At(WriteCache)
      modifies this`disk, this`events
      ensures (if ok then At(EndProgress) else Idle()) && events == old(events) + [Go]
      ensures ok ==> disk.cache.Some? && disk.cache.value.job == job
    {
      hide Execute, Driven, Ordered, Reaches;
      ghost var before := Now(WriteCache);
      var ordered := OrderedRecords(job.tasks, found);
      Record(Go, before);
      if |ordered| != |job.tasks| {
        return false;
      }
      disk := disk.(cache := Some(Cache(job, ordered)));
      return true;
    }

    method RemovePartial()
      requires At(EndProgress)
      modifies this`disk, this`events
      ensures Idle() && events == old(events) + [Go, Go]
      ensures disk == old(disk).(progress := None, records := None)
    {
      hide Execute, Driven, Reaches;
      Record(Go, Now(EndProgress));
      disk := disk.(progress := None);
      Record(Go, Now(EndRecords));
      disk := disk.(records := None);
    }

    /** main: a run that probes to the end leaves exactly one record per selected task, in task order. */
    method Run() returns (complete: bool)
      requires Idle() && Inv(start) && found == map[] && queue == [] && pending == {} && window == request.window
      modifies this
      ensures Idle() && old(events) < events && DistinctRecords(FileOf(disk.records))
      ensures complete ==> disk.cache.Some? && disk.cache.value.job == job && CacheExact(disk.cache.value)
      ensures complete ==> disk.progress.None? && disk.records.None?
    {
      hide Execute, Driven, CacheExact, DistinctRecords, Cached;
      complete := RunSteps();
      hide Inv;
      ExecuteKeeps(start, events);
      InvDisk(State(disk, None));
    }

    method RunSteps() returns (complete: bool)
      requires Idle() && found == map[] && queue == [] && pending == {} && window == request.window
      modifies this
      ensures Idle() && old(events) < events
      ensures complete ==> disk.cache.Some? && disk.cache.value.job == job && disk.progress.None? && disk.records.None?
    {
      hide Execute, Driven, Cached;
      var live := Begin();
      if !live {
        return false;
      }
      var any := PlanProbes();
      if any {
        var ok := ProbeTasks();
        if !ok {
          return false;
        }
      }
      complete := WriteResult();
    }
  }

  lemma InvDisk(s: State)
    requires Inv(s)
    ensures DistinctRecords(FileOf(s.disk.records)) && (s.disk.cache.Some? ==> CacheExact(s.disk.cache.value))
  {
  }
}
