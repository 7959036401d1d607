/** The main results about probing, over every sequence of runs and crashes. */
module ProbeTheorems {
  import opened Text
  import opened ProbeMachine
  import opened ProbeSafety

  const START := State(EMPTY, None)

  // ---------------------------------------------------------------- the window a run was started with

  /** The window the last run was asked to use. */
  function RunWindow(events: seq<Event>): nat {
    if events == [] then 0
    else
      var last := events[|events| - 1];
      if last.Begin? then last.window else RunWindow(events[..|events| - 1])
  }

  function AtLeastOne(window: nat): nat {
    if window < 1 then 1 else window
  }

  /** Before the plan a run still has its own window; afterwards it never runs more probes than that, and falls short of
      it only when everything that is left fits. */
  ghost predicate WindowOk(p: Process, window: nat) {
    && (p.pc in {DropProgress, DropRecords, Plan} ==> p.window == window && p.pending == {})
    && (p.pc == FirstProgress || Probing(p.pc) ==>
          && |p.pending| <= p.window <= AtLeastOne(window)
          && (p.window == AtLeastOne(window) || |p.queue| + |p.pending| <= p.window))
    && (p.pc == FirstProgress ==> p.pending == {})
    && (p.pc == Waiting ==> p.pending != {} && (p.queue != [] ==> |p.pending| == p.window))
  }

  lemma PlanWindow(s: State, p: Process, window: nat)
    requires s.process == Some(p) && p.pc == Plan && WindowOk(p, window)
    ensures GoStep(s, p).value.process.Some? && WindowOk(GoStep(s, p).value.process.value, window)
  {
    hide Remaining;
  }

  lemma FillWindow(s: State, p: Process, window: nat)
    requires s.process == Some(p) && p.pc == Filling && WindowOk(p, window)
    ensures GoStep(s, p).value.process.Some? && WindowOk(GoStep(s, p).value.process.value, window)
  {
    if |p.pending| < p.window && p.queue != [] {
      OneMoreProbe(p.pending, p.queue[0]);
    }
  }

  lemma OneMoreProbe(pending: set<nat>, task: nat)
    ensures |pending + {task}| <= |pending| + 1
  {
  }

  /** The steps that touch neither the window nor the probes. */
  lemma OtherWindow(s: State, p: Process, window: nat)
    requires s.process == Some(p) && p.pc != Plan && p.pc != Filling && WindowOk(p, window) && GoStep(s, p).Some?
    ensures var t := GoStep(s, p).value.process; t.Some? ==> WindowOk(t.value, window)
  {
    hide Ordered;
  }

  lemma CompleteWindow(p: Process, task: nat, found: map<nat, Record>, record: Record, window: nat)
    requires p.pc == Waiting && task in p.pending && WindowOk(p, window)
    ensures WindowOk(p.(pending := p.pending - {task}, found := found, pc := Append(record)), window)
  {
  }

  lemma BeginWindow(s: State, job: Job, window: nat, force: bool)
    requires s.process.None?
    ensures var t := BeginRun(s, job, window, force).process; t.Some? ==> WindowOk(t.value, window)
  {
    hide Found, Cached, LoadRaises, Resumes;
  }

  lemma WindowStep(s: State, e: Event, window: nat)
    requires Step(s, e).Some? && Step(s, e).value.process.Some?
    requires s.process.Some? ==> WindowOk(s.process.value, window)
    requires e.Begin? ==> e.window == window
    ensures WindowOk(Step(s, e).value.process.value, window)
  {
    hide WindowOk, GoStep, BeginRun, DistinctTasks;
    match s.process
    case None => BeginWindow(s, e.job, e.window, e.force);
    case Some(p) =>
      if e.Complete? {
        CompleteWindow(p, e.task, p.found[e.task := Record(e.task, e.band)], Record(e.task, e.band), window);
      } else if p.pc == Plan {
        PlanWindow(s, p, window);
      } else if p.pc == Filling {
        FillWindow(s, p, window);
      } else {
        OtherWindow(s, p, window);
      }
  }

  lemma LastEvent(start: State, events: seq<Event>)
    requires events != [] && Execute(start, events).Some?
    ensures var front, e := events[..|events| - 1], events[|events| - 1];
      && Execute(start, front).Some? && Step(Execute(start, front).value, e) == Execute(start, events)
    decreases |events|
  {
    hide Step;
    if |events| == 1 {
      assert events[1..] == [];
    } else {
      var rest := events[1..];
      LastEvent(Step(start, events[0]).value, rest);
      assert rest[..|rest| - 1] == events[..|events| - 1][1..];
    }
  }

  lemma {:induction false} WindowKept(start: State, events: seq<Event>)
    requires start.process.None? && Execute(start, events).Some? && Execute(start, events).value.process.Some?
    ensures WindowOk(Execute(start, events).value.process.value, RunWindow(events))
    decreases |events|
  {
    hide Execute, Step, WindowOk;
    if events == [] {
      NoEvents(start);
    } else {
      LastEvent(start, events);
      var front, e := events[..|events| - 1], events[|events| - 1];
      var s := Execute(start, front).value;
      if s.process.Some? {
        WindowKept(start, front);
        NoBeginInside(s, e);
      } else {
        OnlyBeginStarts(s, e);
      }
      WindowStep(s, e, RunWindow(events));
    }
  }

  lemma NoBeginInside(s: State, e: Event)
    requires s.process.Some? && Step(s, e).Some?
    ensures !e.Begin?
  {
    hide GoStep;
  }

  lemma OnlyBeginStarts(s: State, e: Event)
    requires s.process.None? && Step(s, e).Some?
    ensures e.Begin?
  {
    hide BeginRun, DistinctTasks;
  }

  /** The records file never repeats a task, a cache that exists holds exactly one record per selected task, in task
      order, and a run never has more probes in flight than the window it was asked to use, or one. While it waits with
      work left to submit it has exactly that many. */
  lemma ProbingIsSafe(events: seq<Event>)
    requires Execute(START, events).Some?
    ensures var s := Execute(START, events).value;
      && DistinctRecords(FileOf(s.disk.records))
      && (s.disk.cache.Some? ==> CacheExact(s.disk.cache.value))
      && (s.process.Some? && Probing(s.process.value.pc) ==> |s.process.value.pending| <= AtLeastOne(RunWindow(events)))
      && (s.process.Some? && s.process.value.pc == Waiting && s.process.value.queue != [] ==>
            |s.process.value.pending| == AtLeastOne(RunWindow(events)))
  {
    hide Execute, Step;
    EmptyInv();
    ExecuteKeeps(START, events);
    if Execute(START, events).value.process.Some? {
      WindowKept(START, events);
    }
  }

  /** A probe is only ever started for a selected task without a record in the file, and for none that is already
      running. */
  lemma NeverProbedAgain(events: seq<Event>)
    requires Execute(START, events).Some? && Execute(START, events).value.process.Some?
    ensures var s := Execute(START, events).value;
      var p := s.process.value;
      p.pc == Filling && |p.pending| < p.window && p.queue != [] ==>
        && Step(s, Go).Some? && Step(s, Go).value.process.value.pending == p.pending + {p.queue[0]}
        && p.queue[0] !in IdsOf(FileOf(s.disk.records)) && p.queue[0] !in p.pending && p.queue[0] in TaskSet(p.job.tasks)
  {
    hide Execute, Found, DistinctRecords, IdsOf, TaskSet, DistinctTasks;
    EmptyInv();
    ExecuteKeeps(START, events);
    var s := Execute(START, events).value;
    var p := s.process.value;
    FoundExact(FileOf(s.disk.records));
    if p.pc == Filling && |p.pending| < p.window && p.queue != [] {
      HeadIsIn(p.queue);
    }
  }

  lemma HeadIsIn(tasks: seq<nat>)
    requires tasks != []
    ensures tasks[0] in TaskSet(tasks)
  {
  }

  /** What a run writes as its cache comes record by record from the file. */
  lemma CacheComesFromFile(events: seq<Event>)
    requires Execute(START, events).Some? && Execute(START, events).value.process.Some?
    requires Execute(START, events).value.process.value.pc == WriteCache
    ensures var s := Execute(START, events).value;
      var t := Step(s, Go);
      && t.Some? && t.value.process.Some? && t.value.disk.cache.Some? && t.value.disk.records == s.disk.records
      && var cache := t.value.disk.cache.value;
      cache.job == s.process.value.job && |cache.records| == |cache.job.tasks|
      && forall i :: 0 <= i < |cache.records| ==>
           cache.job.tasks[i] in Found(FileOf(s.disk.records)) && cache.records[i] == Found(FileOf(s.disk.records))[cache.job.tasks[i]]
  {
    hide Execute, Found, DistinctRecords, IdsOf, TaskSet, DistinctTasks, Ordered;
    EmptyInv();
    ExecuteKeeps(START, events);
    var s := Execute(START, events).value;
    var p := s.process.value;
    WriteCacheKeeps(s);
    OrderedExact(p.job.tasks, p.found);
  }

  ghost predicate HasRecord(records: seq<Record>, task: nat) {
    exists j :: 0 <= j < |records| && records[j].task == task
  }

  /** Records of different tasks, one for each of the tasks and for no other. */
  ghost predicate OneEach(records: seq<Record>, tasks: seq<nat>) {
    && (forall i, j :: 0 <= i < j < |records| ==> records[i].task != records[j].task)
    && (forall i :: 0 <= i < |records| ==> records[i].task in tasks)
    && forall i :: 0 <= i < |tasks| ==> HasRecord(records, tasks[i])
  }

  /** Records of different tasks, all of them selected. */
  ghost predicate Resumable(records: seq<Record>, tasks: seq<nat>) {
    && (forall i, j :: 0 <= i < j < |records| ==> records[i].task != records[j].task)
    && forall i :: 0 <= i < |records| ==> records[i].task in tasks
  }

  lemma CachedExact(d: Disk, job: Job)
    ensures Cached(d, job) <==> d.cache.Some? && d.cache.value.job == job && OneEach(d.cache.value.records, job.tasks)
    ensures LoadRaises(d, job) <==> d.records.None? || !Resumable(d.records.value, job.tasks)
  {
    hide IdsOf, TaskSet, HasRecord;
    if d.cache.Some? {
      var ids, tasks := IdsOf(d.cache.value.records), TaskSet(job.tasks);
      IdsAre(d.cache.value.records, job.tasks);
      assert ids == tasks <==> ids <= tasks && tasks <= ids;
    }
    if d.records.Some? {
      IdsAre(d.records.value, job.tasks);
    }
  }

  lemma IdsAre(records: seq<Record>, tasks: seq<nat>)
    ensures IdsOf(records) <= TaskSet(tasks) <==> forall i :: 0 <= i < |records| ==> records[i].task in tasks
    ensures TaskSet(tasks) <= IdsOf(records) <==> forall i :: 0 <= i < |tasks| ==> HasRecord(records, tasks[i])
  {
    assert forall i :: 0 <= i < |records| ==> records[i].task in IdsOf(records);
    assert forall i :: 0 <= i < |tasks| ==> tasks[i] in TaskSet(tasks);
  }

  /** A run that finds the complete cache, one record for each selected task, stops, unless it is forced; a forced run, and
      one that finds no progress of its job, drops the partial result; otherwise it goes on from the records of the file,
      exactly when they are of different tasks that are all selected, and raises when they are not. */
  lemma BeginExact(s: State, job: Job, window: nat, force: bool)
    requires s.process.None?
    ensures var t := BeginRun(s, job, window, force);
      var mine := s.disk.progress.Some? && s.disk.progress.value.job == job;
      var complete := s.disk.cache.Some? && s.disk.cache.value.job == job && OneEach(s.disk.cache.value.records, job.tasks);
      && t.disk == s.disk
      && (!force && complete ==> t.process.None?)
      && (force || (!complete && !mine) ==>
            t.process.Some? && t.process.value.pc == DropProgress && t.process.value.found == map[])
      && (!force && !complete && mine ==>
            (t.process.Some? <==> s.disk.records.Some? && Resumable(s.disk.records.value, job.tasks)))
      && (!force && !complete && mine && t.process.Some? ==>
            t.process.value.pc == Plan && t.process.value.found == Found(FileOf(s.disk.records)))
      && (t.process.Some? ==>
            t.process.value.job == job && t.process.value.window == window && t.process.value.pending == {}
            && t.process.value.queue == [])
  {
    CachedExact(s.disk, job);
    hide Found, Cached, LoadRaises, OneEach, Resumable;
  }

  /** Only a waiting run hears of its probes. One that fails ends the run and changes no file; one that completes is taken
      off the running ones, and its record is the next thing appended. */
  lemma ProbesHeard(s: State, task: nat, band: nat)
    requires s.process.Some?
    ensures Step(s, Fail).Some? <==> s.process.value.pc == Waiting
    ensures Step(s, Fail).Some? ==> Step(s, Fail).value == State(s.disk, None)
    ensures Step(s, Complete(task, band)).Some? <==> s.process.value.pc == Waiting && task in s.process.value.pending
    ensures Step(s, Complete(task, band)).Some? ==>
      var t := Step(s, Complete(task, band)).value;
      && t.disk == s.disk && t.process.Some? && t.process.value.pending == s.process.value.pending - {task}
      && Step(t, Go).Some?
      && Step(t, Go).value.disk == s.disk.(records := Some(FileOf(s.disk.records) + [Record(task, band)]))
  {
    hide Found, Remaining, Ordered, Cached, LoadRaises, Resumes, DistinctTasks, Window;
  }

  /** Once the cache is written, the partial files go, the progress first, and the run ends. */
  lemma EndsClean(s: State)
    requires s.process.Some? && s.process.value.pc == EndProgress
    ensures var t := Step(s, Go);
      && t.Some? && t.value.disk == s.disk.(progress := None) && Step(t.value, Go).Some?
      && Step(t.value, Go).value == State(s.disk.(progress := None, records := None), None)
  {
    hide Found, Remaining, Ordered, Cached, LoadRaises, Resumes, DistinctTasks, Window;
  }

  lemma CountStep(s: State, e: Event)
    requires Step(s, e).Some? && Step(s, e).value.process.Some?
    requires s.process.Some? ==> CountOk(s.disk, s.process.value)
    ensures CountOk(Step(s, e).value.disk, Step(s, e).value.process.value)
  {
    hide Found, Remaining, Ordered, Cached, LoadRaises, Resumes, DistinctTasks, Window;
  }

  /** What the progress file says while probes are submitted and awaited. */
  ghost predicate CountOk(d: Disk, p: Process) {
    p.pc in {Filling, Waiting} ==> d.progress == Some(Progress(p.job, |p.found|))
  }

  lemma {:induction false} CountKept(s: State, events: seq<Event>)
    requires s.process.Some? ==> CountOk(s.disk, s.process.value)
    ensures var r := Execute(s, events); r.Some? && r.value.process.Some? ==> CountOk(r.value.disk, r.value.process.value)
    decreases |events|
  {
    hide Step, CountOk;
    if events != [] && Step(s, events[0]).Some? {
      if Step(s, events[0]).value.process.Some? {
        CountStep(s, events[0]);
      }
      CountKept(Step(s, events[0]).value, events[1..]);
    }
  }

  /** While a run submits and waits, the progress file names its job and counts exactly the tasks with a record in the
      file. */
  lemma ProgressCounts(events: seq<Event>)
    requires Execute(START, events).Some? && Execute(START, events).value.process.Some?
    requires Execute(START, events).value.process.value.pc in {Filling, Waiting}
    ensures var s := Execute(START, events).value;
      s.disk.progress == Some(Progress(s.process.value.job, |IdsOf(FileOf(s.disk.records))|))
  {
    hide Execute, Step, IdsOf, DistinctRecords, TaskSet, Found;
    EmptyInv();
    ExecuteKeeps(START, events);
    CountKept(START, events);
    var s := Execute(START, events).value;
    FoundExact(FileOf(s.disk.records));
    KeyCount(s.process.value.found);
  }

  lemma KeyCount(found: map<nat, Record>)
    ensures |found| == |found.Keys|
  {
  }

  // ---------------------------------------------------------------- records survive until the cache is complete

  /** Later runs of the same job that are not forced. */
  predicate SameJob(events: seq<Event>, job: Job) {
    forall i :: 0 <= i < |events| && events[i].Begin? ==> events[i].job == job && !events[i].force
  }

  /** The partial result of the job stands, with at least the records `known`. */
  ghost predicate Standing(s: State, job: Job, known: seq<Record>) {
    && s.disk.progress.Some? && s.disk.progress.value.job == job
    && s.disk.records.Some? && known <= s.disk.records.value
    && (s.process.Some? ==>
          s.process.value.job == job && s.process.value.pc !in {DropProgress, DropRecords, EndProgress, EndRecords})
  }

  /** The job's cache is complete, and only leftovers are being removed. */
  ghost predicate Finished(s: State, job: Job) {
    && s.disk.cache.Some? && s.disk.cache.value.job == job
    && (s.process.Some? ==> s.process.value.job == job && s.process.value.pc in {EndProgress, EndRecords})
  }

  lemma CompleteIsCached(d: Disk, job: Job)
    requires DiskOk(d) && d.cache.Some? && d.cache.value.job == job && DistinctTasks(job.tasks)
    ensures Cached(d, job)
  {
    var records := d.cache.value.records;
    assert forall i :: 0 <= i < |records| ==> records[i].task == job.tasks[i];
    forall k | k in TaskSet(job.tasks) ensures k in IdsOf(records) {
      var i :| 0 <= i < |job.tasks| && job.tasks[i] == k;
      assert records[i].task == k;
    }
    forall k | k in IdsOf(records) ensures k in TaskSet(job.tasks) {
      var i :| 0 <= i < |records| && records[i].task == k;
      assert job.tasks[i] == k;
    }
  }

  lemma StepStands(s: State, e: Event, job: Job, known: seq<Record>)
    requires Inv(s) && Standing(s, job, known) && Step(s, e).Some?
    requires e.Begin? ==> e.job == job && !e.force
    ensures Standing(Step(s, e).value, job, known) || Finished(Step(s, e).value, job)
  {
    hide Found, DistinctRecords, IdsOf, TaskSet, DistinctTasks, Ordered, Remaining, Shared, Tagged, Cached, LoadRaises;
    if s.process.Some? && s.process.value.pc == WriteCache && e == Go {
      WriteCacheKeeps(s);
    }
  }

  lemma StepFinishes(s: State, e: Event, job: Job)
    requires Inv(s) && Finished(s, job) && DistinctTasks(job.tasks) && Step(s, e).Some?
    requires e.Begin? ==> e.job == job && !e.force
    ensures Finished(Step(s, e).value, job)
  {
    hide Found, DistinctRecords, IdsOf, TaskSet, DistinctTasks, Ordered, Remaining, Shared, Tagged, Cached, LoadRaises;
    CompleteIsCached(s.disk, job);
  }

  /** No crash, failure or completion order loses a record: over later runs of the same job the records file only
      grows until the job's cache is complete. */
  lemma {:induction false} RecordsSurvive(s: State, events: seq<Event>, job: Job, known: seq<Record>)
    requires Inv(s) && DistinctTasks(job.tasks) && SameJob(events, job) && Execute(s, events).Some?
    requires Standing(s, job, known) || Finished(s, job)
    ensures Standing(Execute(s, events).value, job, known) || Finished(Execute(s, events).value, job)
    decreases |events|
  {
    hide Inv, Standing, Finished, Step, DistinctTasks;
    if events != [] {
      var t := Step(s, events[0]).value;
      StepKeeps(s, events[0]);
      if Standing(s, job, known) {
        StepStands(s, events[0], job, known);
      } else {
        StepFinishes(s, events[0], job);
      }
      assert forall i :: 0 <= i < |events| - 1 ==> events[1..][i] == events[i + 1];
      RecordsSurvive(t, events[1..], job, known);
    }
  }

  // ---------------------------------------------------------------- when resuming raises

  /** A run that is not forced and finds no complete cache raises exactly when the progress file of its job stands
      without a records file. */
  lemma ResumeRaisesExactly(events: seq<Event>, job: Job, window: nat)
    requires Execute(START, events).Some? && Execute(START, events).value.process.None? && DistinctTasks(job.tasks)
    requires !Cached(Execute(START, events).value.disk, job)
    ensures var s := Execute(START, events).value;
      BeginRun(s, job, window, false).process.None? <==>
        s.disk.progress.Some? && s.disk.progress.value.job == job && s.disk.records.None?
  {
    hide Execute;
    EmptyInv();
    ExecuteKeeps(START, events);
  }

  lemma FirstEvent(s: State, e: Event, rest: seq<Event>)
    requires Step(s, e).Some?
    ensures Execute(s, [e] + rest) == Execute(Step(s, e).value, rest)
  {
    assert ([e] + rest)[1..] == rest;
  }

  /** A crash after the first progress write and before the first record: its events. */
  function TrapEvents(job: Job): seq<Event> {
    [Begin(job, 1, false)] + ([Go] + ([Go] + ([Go] + ([Go] + ([Crash] + [])))))
  }

  /** Such a crash does happen, and it leaves a state that raises. */
  lemma CrashBeforeFirstRecord(job: Job)
    requires DistinctTasks(job.tasks) && job.tasks != []
    ensures Execute(START, TrapEvents(job)) == Some(State(Disk(Some(Progress(job, 0)), None, None), None))
  {
    hide Execute;
    var s1 := Step(START, Begin(job, 1, false)).value;
    var s2 := Step(s1, Go).value;
    var s3 := Step(s2, Go).value;
    FirstIsLeft(job.tasks);
    var s4 := Step(s3, Go).value;
    var s5 := Step(s4, Go).value;
    var s6 := Step(s5, Crash).value;
    NoEvents(s6);
    FirstEvent(s5, Crash, []);
    FirstEvent(s4, Go, [Crash] + []);
    FirstEvent(s3, Go, [Go] + ([Crash] + []));
    FirstEvent(s2, Go, [Go] + ([Go] + ([Crash] + [])));
    FirstEvent(s1, Go, [Go] + ([Go] + ([Go] + ([Crash] + []))));
    FirstEvent(START, Begin(job, 1, false), [Go] + ([Go] + ([Go] + ([Go] + ([Crash] + [])))));
  }

  lemma NoEvents(s: State)
    ensures Execute(s, []) == Some(s)
  {
  }

  lemma FirstIsLeft(tasks: seq<nat>)
    requires tasks != []
    ensures Remaining(tasks, map[]) != []
  {
  }

  /** From there every further run of the job raises, until one is forced. */
  lemma {:induction false} RaisesUntilForced(s: State, events: seq<Event>, job: Job)
    requires s.process.None? && !Cached(s.disk, job) && s.disk.records.None?
    requires s.disk.progress.Some? && s.disk.progress.value.job == job
    requires SameJob(events, job) && Execute(s, events).Some?
    ensures Execute(s, events) == Some(s)
    decreases |events|
  {
    if events != [] {
      assert forall i :: 0 <= i < |events| - 1 ==> events[1..][i] == events[i + 1];
      RaisesUntilForced(s, events[1..], job);
    }
  }
}
