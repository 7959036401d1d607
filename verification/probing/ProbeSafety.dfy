/** What probing keeps over every completion order, failure and crash: the invariant over the files and the
    variables of a run. */
module ProbeSafety {
  import opened Text
  import opened ProbeMachine

  // ---------------------------------------------------------------- records and tasks

  lemma {:induction false} FoundExact(records: seq<Record>)
    ensures Found(records).Keys == IdsOf(records)
    ensures Tagged(Found(records))
    decreases |records|
  {
    if records != [] {
      FoundExact(records[..|records| - 1]);
      var last := records[|records| - 1];
      IdsAppend(records[..|records| - 1], last);
      assert records == records[..|records| - 1] + [last];
    }
  }

  lemma IdsAppend(records: seq<Record>, r: Record)
    ensures IdsOf(records + [r]) == IdsOf(records) + {r.task}
  {
    var all := records + [r];
    assert all[|records|] == r;
    forall k | k in IdsOf(records) ensures k in IdsOf(all) {
      var i :| 0 <= i < |records| && records[i].task == k;
      assert all[i].task == k;
    }
  }

  /** One more record, of a task without one. */
  lemma AppendExact(records: seq<Record>, r: Record)
    requires DistinctRecords(records) && r.task !in IdsOf(records)
    ensures DistinctRecords(records + [r]) && Found(records + [r]) == Found(records)[r.task := r]
    ensures IdsOf(records + [r]) == IdsOf(records) + {r.task}
  {
    var all := records + [r];
    IdsAppend(records, r);
    assert all[..|all| - 1] == records && all[|all| - 1] == r;
    forall i, j | 0 <= i < j < |all| ensures all[i].task != all[j].task {
      if j == |records| {
        assert records[i].task in IdsOf(records);
      }
    }
  }

  lemma TaskSetCons(task: nat, tasks: seq<nat>)
    ensures TaskSet([task] + tasks) == {task} + TaskSet(tasks)
  {
    var all := [task] + tasks;
    assert all[0] == task;
    assert forall i :: 0 <= i < |tasks| ==> all[i + 1] == tasks[i];
    forall k | k in TaskSet(tasks) ensures k in TaskSet(all) {
      var i :| 0 <= i < |tasks| && tasks[i] == k;
      assert all[i + 1] == k;
    }
  }

  lemma DistinctCons(task: nat, tasks: seq<nat>)
    requires DistinctTasks(tasks) && task !in TaskSet(tasks)
    ensures DistinctTasks([task] + tasks)
  {
    forall i | 0 <= i < |tasks| ensures tasks[i] != task {
      assert tasks[i] in TaskSet(tasks);
    }
  }

  /** The head of a list without repetition is not in its tail. */
  lemma DistinctHead(tasks: seq<nat>)
    requires DistinctTasks(tasks) && tasks != []
    ensures DistinctTasks(tasks[1..]) && tasks[0] !in TaskSet(tasks[1..])
    ensures TaskSet(tasks) == {tasks[0]} + TaskSet(tasks[1..])
  {
    assert tasks == [tasks[0]] + tasks[1..];
    TaskSetCons(tasks[0], tasks[1..]);
  }

  lemma {:induction false} RemainingExact(tasks: seq<nat>, found: map<nat, Record>)
    requires DistinctTasks(tasks)
    ensures TaskSet(Remaining(tasks, found)) == TaskSet(tasks) - found.Keys && DistinctTasks(Remaining(tasks, found))
    decreases |tasks|
  {
    if tasks != [] {
      DistinctHead(tasks);
      RemainingExact(tasks[1..], found);
      if tasks[0] !in found {
        DistinctCons(tasks[0], Remaining(tasks[1..], found));
        TaskSetCons(tasks[0], Remaining(tasks[1..], found));
      } else {
        assert [] + Remaining(tasks[1..], found) == Remaining(tasks[1..], found);
      }
    }
  }

  lemma NoTasks(tasks: seq<nat>)
    ensures TaskSet(tasks) == {} <==> tasks == []
  {
    if tasks != [] {
      assert tasks[0] in TaskSet(tasks);
    }
  }

  /** One record per selected task, in task order, exactly when every task has one. */
  lemma {:induction false} OrderedExact(tasks: seq<nat>, found: map<nat, Record>)
    ensures |Ordered(tasks, found)| <= |tasks|
    ensures |Ordered(tasks, found)| == |tasks| <==> TaskSet(tasks) <= found.Keys
    ensures |Ordered(tasks, found)| == |tasks| ==>
      forall i :: 0 <= i < |tasks| ==> tasks[i] in found && Ordered(tasks, found)[i] == found[tasks[i]]
    decreases |tasks|
  {
    if tasks != [] {
      OrderedExact(tasks[1..], found);
      assert tasks == [tasks[0]] + tasks[1..];
      TaskSetCons(tasks[0], tasks[1..]);
    }
  }

  // ---------------------------------------------------------------- the invariant

  /** A cache with exactly one record per task of its job, in task order. */
  predicate CacheExact(cache: Cache) {
    |cache.records| == |cache.job.tasks|
    && forall i :: 0 <= i < |cache.job.tasks| ==> cache.records[i].task == cache.job.tasks[i]
  }

  function FileOf(records: Option<seq<Record>>): seq<Record> {
    if records.Some? then records.value else []
  }

  ghost predicate DiskOk(d: Disk) {
    && DistinctRecords(FileOf(d.records))
    && (d.progress.Some? && d.records.Some? ==> IdsOf(d.records.value) <= TaskSet(d.progress.value.job.tasks))
    && (d.cache.Some? ==> CacheExact(d.cache.value))
  }

  /** Done, running and waiting tasks are the selected ones, each in one place, and the window is respected. */
  ghost predicate Shared(found: set<nat>, pending: set<nat>, queue: seq<nat>, window: nat, tasks: seq<nat>) {
    && found + pending + TaskSet(queue) == TaskSet(tasks)
    && found !! pending && found !! TaskSet(queue) && pending !! TaskSet(queue)
    && DistinctTasks(queue) && window >= 1 && |pending| <= window
  }

  ghost predicate SharedOk(p: Process) {
    Shared(p.found.Keys, p.pending, p.queue, p.window, p.job.tasks)
  }

  lemma SharedPlan(found: map<nat, Record>, window: nat, tasks: seq<nat>)
    requires DistinctTasks(tasks) && found.Keys <= TaskSet(tasks)
    ensures Shared(found.Keys, {}, Remaining(tasks, found), Window(window, |Remaining(tasks, found)|), tasks)
    ensures Remaining(tasks, found) == [] ==> found.Keys == TaskSet(tasks)
  {
    RemainingExact(tasks, found);
    NoTasks(Remaining(tasks, found));
  }

  lemma SharedSubmit(found: set<nat>, pending: set<nat>, queue: seq<nat>, window: nat, tasks: seq<nat>)
    requires Shared(found, pending, queue, window, tasks) && |pending| < window && queue != []
    ensures Shared(found, pending + {queue[0]}, queue[1..], window, tasks)
    ensures queue[0] !in found
  {
    DistinctHead(queue);
  }

  lemma SharedComplete(found: set<nat>, pending: set<nat>, queue: seq<nat>, window: nat, tasks: seq<nat>, task: nat)
    requires Shared(found, pending, queue, window, tasks) && task in pending
    ensures task !in found && Shared(found + {task}, pending - {task}, queue, window, tasks)
  {
  }

  lemma SharedDone(found: set<nat>, pending: set<nat>, queue: seq<nat>, window: nat, tasks: seq<nat>)
    requires Shared(found, pending, queue, window, tasks)
    ensures pending == {} && !(|pending| < window && queue != []) ==> found == TaskSet(tasks)
    ensures found <= TaskSet(tasks)
  {
    NoTasks(queue);
  }

  /** Every record is filed under its own task. */
  ghost predicate Tagged(found: map<nat, Record>) {
    forall k :: k in found ==> found[k].task == k
  }

  lemma TaggedAdd(found: map<nat, Record>, r: Record)
    requires Tagged(found)
    ensures Tagged(found[r.task := r]) && found[r.task := r].Keys == found.Keys + {r.task}
  {
  }

  predicate Probing(pc: Pc) {
    pc == Filling || pc == Waiting || pc.Append? || pc == Advance
  }

  ghost predicate ProcessOk(d: Disk, p: Process) {
    && DistinctTasks(p.job.tasks) && Tagged(p.found)
    && (d.progress.Some? && p.pc != DropProgress ==> d.progress.value.job == p.job)
    && (Probing(p.pc) ==> d.progress.Some?)
    && match p.pc
       case DropProgress => p.found == map[] && p.pending == {}
       case DropRecords => p.found == map[] && p.pending == {} && d.progress.None?
       case Plan => p.found == Found(FileOf(d.records)) && p.found.Keys <= TaskSet(p.job.tasks) && p.pending == {}
       case FirstProgress => p.found == Found(FileOf(d.records)) && SharedOk(p)
       case Filling | Waiting | Advance => p.found == Found(FileOf(d.records)) && SharedOk(p)
       case Append(r) =>
         r.task !in IdsOf(FileOf(d.records)) && p.found == Found(FileOf(d.records))[r.task := r] && SharedOk(p)
       case WriteCache => p.found == Found(FileOf(d.records)) && p.found.Keys == TaskSet(p.job.tasks)
       case EndProgress => d.cache.Some? && d.cache.value.job == p.job
       case EndRecords => d.cache.Some? && d.cache.value.job == p.job && d.progress.None?
  }

  ghost predicate Inv(s: State) {
    DiskOk(s.disk) && (s.process.Some? ==> ProcessOk(s.disk, s.process.value))
  }

  const EMPTY := Disk(None, None, None)

  lemma EmptyInv()
    ensures Inv(State(EMPTY, None))
  {
  }

  lemma BeginKeeps(s: State, job: Job, window: nat, force: bool)
    requires Inv(s) && s.process.None? && DistinctTasks(job.tasks)
    ensures Inv(BeginRun(s, job, window, force))
  {
    hide Found, DistinctRecords, TaskSet, IdsOf, Cached;
    if s.disk.records.Some? {
      FoundExact(s.disk.records.value);
    }
  }

  lemma PlanKeeps(s: State)
    requires Inv(s) && s.process.Some? && s.process.value.pc == Plan
    ensures Inv(GoStep(s, s.process.value).value)
  {
    hide Found, DistinctRecords, TaskSet, IdsOf, DistinctTasks, Remaining, Shared, Window, Tagged;
    var p := s.process.value;
    SharedPlan(p.found, p.window, p.job.tasks);
  }

  lemma FillKeeps(s: State)
    requires Inv(s) && s.process.Some? && s.process.value.pc == Filling
    ensures Inv(GoStep(s, s.process.value).value)
  {
    hide Found, DistinctRecords, TaskSet, IdsOf, DistinctTasks, Shared, Tagged;
    var p := s.process.value;
    SharedDone(p.found.Keys, p.pending, p.queue, p.window, p.job.tasks);
    if |p.pending| < p.window && p.queue != [] {
      SharedSubmit(p.found.Keys, p.pending, p.queue, p.window, p.job.tasks);
    }
  }

  lemma AppendKeeps(s: State)
    requires Inv(s) && s.process.Some? && s.process.value.pc.Append?
    ensures Inv(GoStep(s, s.process.value).value)
  {
    hide Found, DistinctRecords, TaskSet, IdsOf, DistinctTasks, Shared, Tagged;
    var p, file := s.process.value, FileOf(s.disk.records);
    AppendExact(file, p.pc.record);
    FoundExact(file + [p.pc.record]);
    SharedDone(p.found.Keys, p.pending, p.queue, p.window, p.job.tasks);
  }

  lemma WriteCacheKeeps(s: State)
    requires Inv(s) && s.process.Some? && s.process.value.pc == WriteCache
    ensures Inv(GoStep(s, s.process.value).value)
    ensures GoStep(s, s.process.value).value.process.Some?
  {
    hide Found, DistinctRecords, TaskSet, IdsOf, DistinctTasks, Ordered;
    var p := s.process.value;
    OrderedExact(p.job.tasks, p.found);
  }

  lemma DropKeeps(s: State)
    requires Inv(s) && s.process.Some? && s.process.value.pc in {DropProgress, DropRecords, EndProgress, EndRecords}
    ensures Inv(GoStep(s, s.process.value).value)
  {
    hide TaskSet, IdsOf, DistinctTasks, Found, DistinctRecords, Shared, Tagged;
    NoRecords();
  }

  lemma ProgressKeeps(s: State)
    requires Inv(s) && s.process.Some? && s.process.value.pc in {FirstProgress, Advance}
    ensures Inv(GoStep(s, s.process.value).value)
  {
    hide TaskSet, IdsOf, DistinctTasks, Found, DistinctRecords, Shared, Tagged;
    var p := s.process.value;
    FoundExact(FileOf(s.disk.records));
    SharedDone(p.found.Keys, p.pending, p.queue, p.window, p.job.tasks);
  }

  lemma NoRecords()
    ensures IdsOf([]) == {} && Found([]) == map[] && DistinctRecords([])
  {
  }

  lemma CompletedShared(p: Process, r: Record)
    requires SharedOk(p) && Tagged(p.found) && r.task in p.pending
    ensures SharedOk(p.(pending := p.pending - {r.task}, found := p.found[r.task := r], pc := Append(r)))
    ensures Tagged(p.found[r.task := r]) && r.task !in p.found
  {
    hide Shared, Tagged;
    SharedComplete(p.found.Keys, p.pending, p.queue, p.window, p.job.tasks, r.task);
    TaggedAdd(p.found, r);
  }

  lemma CompletedOk(d: Disk, p: Process, r: Record)
    requires ProcessOk(d, p) && p.pc == Waiting && r.task in p.pending
    ensures ProcessOk(d, p.(pending := p.pending - {r.task}, found := p.found[r.task := r], pc := Append(r)))
  {
    hide Found, TaskSet, DistinctTasks, IdsOf, SharedOk, Tagged, FileOf;
    FoundExact(FileOf(d.records));
    CompletedShared(p, r);
  }

  lemma CompleteKeeps(s: State, task: nat, band: nat)
    requires Inv(s) && s.process.Some? && s.process.value.pc == Waiting && task in s.process.value.pending
    ensures Inv(Step(s, Complete(task, band)).value)
  {
    hide ProcessOk, DiskOk, GoStep, BeginRun;
    CompletedOk(s.disk, s.process.value, Record(task, band));
  }

  /** Every event keeps the invariant. */
  lemma StepKeeps(s: State, e: Event)
    requires Inv(s)
    ensures Step(s, e).Some? ==> Inv(Step(s, e).value)
  {
    hide ProcessOk, DiskOk, BeginRun, GoStep;
    if s.process.None? {
      if e.Begin? && DistinctTasks(e.job.tasks) {
        BeginKeeps(s, e.job, e.window, e.force);
      }
    } else if e == Go {
      match s.process.value.pc
      case Plan => PlanKeeps(s);
      case Filling => FillKeeps(s);
      case Append(_) => AppendKeeps(s);
      case WriteCache => WriteCacheKeeps(s);
      case Waiting => NothingToDo(s);
      case FirstProgress | Advance => ProgressKeeps(s);
      case _ => DropKeeps(s);
    } else if e.Complete? {
      var p := s.process.value;
      if p.pc == Waiting && e.task in p.pending {
        CompleteKeeps(s, e.task, e.band);
      }
    }
  }

  lemma NothingToDo(s: State)
    requires s.process.Some? && s.process.value.pc == Waiting
    ensures GoStep(s, s.process.value).None?
  {
  }

  /** Every reachable state satisfies the invariant. */
  lemma {:induction false} ExecuteKeeps(s: State, events: seq<Event>)
    requires Inv(s)
    ensures Execute(s, events).Some? ==> Inv(Execute(s, events).value)
    decreases |events|
  {
    hide Inv, Step;
    if events != [] && Step(s, events[0]).Some? {
      StepKeeps(s, events[0]);
      ExecuteKeeps(Step(s, events[0]).value, events[1..]);
    }
  }
}
