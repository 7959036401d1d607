/** Building the task pool and holding out its eval tasks. */
module TaskPool {
  import opened Text
  import opened Permutations
  import opened StableSort

  /** `key` is the logical identity of a task, `rank` the number its split digest stands for, `band` its difficulty
      band as written. */
  datatype Task = Task(id: string, image: string, key: string, rank: nat, band: string)

  /** A dataset row: not a mapping, or a mapping with its resolved id and what coercing it gives, an error being one
      that is counted or one that aborts the build. */
  datatype Row = NotMapping | Mapping(id: string, task: Coerced)
  datatype Coerced = Valid(task: Task) | Invalid | Fatal

  datatype Bucket = InvalidRow | CachedBad | Duplicate | ProbeUnlabeled

  datatype Verdict = Keep(task: Task) | Filter(bucket: Bucket) | Abort

  /** What the caller filters by: the ids a partial rollout probe has labelled, and the cached bad tasks. */
  datatype Filters = Filters(probeIds: Option<set<string>>, badIds: set<string>, badImages: set<string>)

  /** One row of the build loop, in its order of tests. */
  function Judge(row: Row, f: Filters, seen: set<string>): Verdict {
    match row
    case NotMapping => Filter(InvalidRow)
    case Mapping(id, coerced) =>
      if f.probeIds.Some? && id !in f.probeIds.value then Filter(ProbeUnlabeled)
      else
        match coerced
        case Fatal => Abort
        case Invalid => Filter(InvalidRow)
        case Valid(task) =>
          if task.id in f.badIds || task.image in f.badImages then Filter(CachedBad)
          else if task.key in seen then Filter(Duplicate)
          else Keep(task)
  }

  /** The pool: the kept tasks, and one bucket name per filtered row. */
  datatype Pool = Pool(tasks: seq<Task>, filtered: seq<Bucket>)

  /** The rows still to judge; None is the aborting error. */
  function PoolFrom(rows: seq<Row>, f: Filters, seen: set<string>): Option<Pool> {
    if rows == [] then Some(Pool([], []))
    else
      match Judge(rows[0], f, seen)
      case Abort => None
      case Filter(bucket) =>
        (match PoolFrom(rows[1..], f, seen)
         case None => None
         case Some(pool) => Some(Pool(pool.tasks, [bucket] + pool.filtered)))
      case Keep(task) =>
        (match PoolFrom(rows[1..], f, seen + {task.key})
         case None => None
         case Some(pool) => Some(Pool([task] + pool.tasks, pool.filtered)))
  }

  /** The counters agree with the filtered rows. */
  ghost predicate Counted(counts: map<Bucket, nat>, filtered: seq<Bucket>) {
    forall b: Bucket :: b in counts && counts[b] == multiset(filtered)[b]
  }

  lemma CountOne(counts: map<Bucket, nat>, filtered: seq<Bucket>, b: Bucket)
    requires Counted(counts, filtered)
    ensures Counted(counts[b := counts[b] + 1], filtered + [b])
  {
  }

  lemma NothingAppended(rest: Option<Pool>)
    ensures Appended([], [], rest) == rest
  {
    assert rest.Some? ==> [] + rest.value.tasks == rest.value.tasks && [] + rest.value.filtered == rest.value.filtered;
  }

  lemma NoRows(f: Filters, seen: set<string>)
    ensures PoolFrom([], f, seen) == Some(Pool([], []))
  {
  }

  lemma CountNone()
    ensures Counted(map[InvalidRow := 0, CachedBad := 0, Duplicate := 0, ProbeUnlabeled := 0], [])
  {
    var none := map[InvalidRow := 0, CachedBad := 0, Duplicate := 0, ProbeUnlabeled := 0];
    forall b: Bucket ensures b in none && none[b] == 0 {
      assert b == InvalidRow || b == CachedBad || b == Duplicate || b == ProbeUnlabeled;
    }
  }

  function Appended(tasks: seq<Task>, filtered: seq<Bucket>, rest: Option<Pool>): Option<Pool> {
    match rest
    case None => None
    case Some(pool) => Some(Pool(tasks + pool.tasks, filtered + pool.filtered))
  }

  lemma AppendedOn(tasks: seq<Task>, filtered: seq<Bucket>, rows: seq<Row>, f: Filters, seen: set<string>)
    requires rows != []
    ensures var v := Judge(rows[0], f, seen);
      Appended(tasks, filtered, PoolFrom(rows, f, seen)) ==
      if v.Abort? then None
      else if v.Filter? then Appended(tasks, filtered + [v.bucket], PoolFrom(rows[1..], f, seen))
      else Appended(tasks + [v.task], filtered, PoolFrom(rows[1..], f, seen + {v.task.key}))
  {
    hide Judge;
    var v := Judge(rows[0], f, seen);
    if v.Filter? && PoolFrom(rows[1..], f, seen).Some? {
      Regroup(filtered, v.bucket, PoolFrom(rows[1..], f, seen).value.filtered);
    }
    if v.Keep? && PoolFrom(rows[1..], f, seen + {v.task.key}).Some? {
      Regroup(tasks, v.task, PoolFrom(rows[1..], f, seen + {v.task.key}).value.tasks);
    }
  }

  lemma Regroup<T>(s: seq<T>, x: T, rest: seq<T>)
    ensures s + ([x] + rest) == (s + [x]) + rest
  {
  }

  /** A row whose task passes every filter but the duplicate one. */
  predicate Acceptable(row: Row, f: Filters) {
    && row.Mapping? && (f.probeIds.Some? ==> row.id in f.probeIds.value) && row.task.Valid?
    && row.task.task.id !in f.badIds && row.task.task.image !in f.badImages
  }

  /** The logical tasks of the acceptable rows. */
  function Keys(rows: seq<Row>, f: Filters): set<string> {
    set i | 0 <= i < |rows| && Acceptable(rows[i], f) :: rows[i].task.task.key
  }

  /** A row whose error aborts the build. */
  predicate Aborts(row: Row, f: Filters) {
    row.Mapping? && (f.probeIds.Some? ==> row.id in f.probeIds.value) && row.task.Fatal?
  }

  /** The acceptable rows whose logical task no earlier acceptable row has, in row order. */
  function FirstTasks(rows: seq<Row>, f: Filters): seq<Task> {
    if rows == [] then []
    else
      var front, last := rows[..|rows| - 1], rows[|rows| - 1];
      FirstTasks(front, f) + (if Acceptable(last, f) && last.task.task.key !in Keys(front, f) then [last.task.task] else [])
  }

  /** The probe has not labelled the row, whatever coercing it would give. */
  predicate Unlabeled(row: Row, f: Filters) {
    row.Mapping? && f.probeIds.Some? && row.id !in f.probeIds.value
  }

  /** A row that gives a task, known to be bad by its id or its image. */
  predicate KnownBad(row: Row, f: Filters) {
    row.Mapping? && row.task.Valid? && (row.task.task.id in f.badIds || row.task.task.image in f.badImages)
  }

  /** Which rows are kept, abort the build, or are counted in which bucket. */
  lemma JudgeIs(row: Row, f: Filters, seen: set<string>)
    ensures var v := Judge(row, f, seen);
      && (v.Abort? <==> Aborts(row, f))
      && (v.Keep? <==> Acceptable(row, f) && row.task.task.key !in seen)
      && (v.Keep? ==> v.task == row.task.task)
      && (v == Filter(Duplicate) <==> Acceptable(row, f) && row.task.task.key in seen)
      && (v == Filter(ProbeUnlabeled) <==> Unlabeled(row, f))
      && (v == Filter(CachedBad) <==> KnownBad(row, f) && !Unlabeled(row, f))
      && (v == Filter(InvalidRow) <==> row.NotMapping? || (row.task.Invalid? && !Unlabeled(row, f)))
  {
  }

  lemma KeysSnoc(rows: seq<Row>, f: Filters, n: nat)
    requires n < |rows|
    ensures Keys(rows[..n + 1], f) == Keys(rows[..n], f) + (if Acceptable(rows[n], f) then {rows[n].task.task.key} else {})
  {
    var more := rows[..n + 1];
    assert forall i :: 0 <= i < n ==> more[i] == rows[..n][i];
    forall k | k in Keys(rows[..n], f) ensures k in Keys(more, f) {
      var i :| 0 <= i < n && Acceptable(rows[..n][i], f) && rows[..n][i].task.task.key == k;
      assert more[i] == rows[..n][i];
    }
    if Acceptable(rows[n], f) {
      assert more[n] == rows[n];
    }
    forall k | k in Keys(more, f) && !(Acceptable(rows[n], f) && rows[n].task.task.key == k) ensures k in Keys(rows[..n], f) {
      var i :| 0 <= i < |more| && Acceptable(more[i], f) && more[i].task.task.key == k;
      assert rows[..n][i] == more[i];
    }
  }

  lemma FirstTasksSnoc(rows: seq<Row>, f: Filters, n: nat)
    requires n < |rows|
    ensures FirstTasks(rows[..n + 1], f) == FirstTasks(rows[..n], f) +
      (if Acceptable(rows[n], f) && rows[n].task.task.key !in Keys(rows[..n], f) then [rows[n].task.task] else [])
  {
    assert rows[..n + 1][..n] == rows[..n];
  }

  lemma NoFirstTasks(rows: seq<Row>, f: Filters)
    ensures Keys(rows[..0], f) == {} && FirstTasks(rows[..0], f) == []
  {
  }

  /** _build_task_pool: tasks and the four counters. None is the empty-dataset error or the aborting row error. */
  method BuildTaskPool(rows: seq<Row>, f: Filters) returns (r: Option<Pool>, counts: map<Bucket, nat>)
    ensures r == if rows == [] then None else PoolFrom(rows, f, {})
    ensures r.Some? ==> Counted(counts, r.value.filtered)
    ensures r.Some? ==> r.value.tasks == FirstTasks(rows, f)
    ensures r.None? <==> rows == [] || exists i :: 0 <= i < |rows| && Aborts(rows[i], f)
  {
    hide PoolFrom, Judge, Acceptable, Aborts, Keys, FirstTasks;
    NoFirstTasks(rows, f);
    counts := map[InvalidRow := 0, CachedBad := 0, Duplicate := 0, ProbeUnlabeled := 0];
    CountNone();
    if rows == [] {
      return None, counts;
    }
    var tasks: seq<Task> := [];
    var seen: set<string> := {};
    var filtered: seq<Bucket> := [];
    assert rows[0..] == rows;
    NothingAppended(PoolFrom(rows, f, {}));
    for i := 0 to |rows|
      invariant PoolFrom(rows, f, {}) == Appended(tasks, filtered, PoolFrom(rows[i..], f, seen))
      invariant Counted(counts, filtered)
      invariant seen == Keys(rows[..i], f) && tasks == FirstTasks(rows[..i], f)
      invariant forall k :: 0 <= k < i ==> !Aborts(rows[k], f)
    {
      hide Appended;
      JudgeIs(rows[i], f, seen);
      KeysSnoc(rows, f, i);
      FirstTasksSnoc(rows, f, i);
      AppendedOn(tasks, filtered, rows[i..], f, seen);
      assert rows[i..][1..] == rows[i + 1..];
      var verdict := Judge(rows[i], f, seen);
      if verdict.Abort? {
        return None, counts;
      }
      if verdict.Filter? {
        CountOne(counts, filtered, verdict.bucket);
        counts := counts[verdict.bucket := counts[verdict.bucket] + 1];
        filtered := filtered + [verdict.bucket];
      } else {
        seen := seen + {verdict.task.key};
        tasks := tasks + [verdict.task];
      }
    }
    NoRows(f, seen);
    assert rows[..|rows|] == rows;
    assert tasks + [] == tasks && filtered + [] == filtered;
    return Some(Pool(tasks, filtered)), counts;
  }

  // ---------------------------------------------------------------- what the pool holds

  predicate DistinctKeys(tasks: seq<Task>) {
    forall i, j :: 0 <= i < j < |tasks| ==> tasks[i].key != tasks[j].key
  }

  function KeySet(tasks: seq<Task>): set<string> {
    set i | 0 <= i < |tasks| :: tasks[i].key
  }

  lemma KeysCons(rows: seq<Row>, f: Filters)
    requires rows != []
    ensures Keys(rows, f) == (if Acceptable(rows[0], f) then {rows[0].task.task.key} else {}) + Keys(rows[1..], f)
  {
    forall k | k in Keys(rows[1..], f) ensures k in Keys(rows, f) {
      var i :| 0 <= i < |rows| - 1 && Acceptable(rows[1..][i], f) && rows[1..][i].task.task.key == k;
      assert rows[i + 1] == rows[1..][i];
    }
    forall k | k in Keys(rows, f) && !(Acceptable(rows[0], f) && rows[0].task.task.key == k) ensures k in Keys(rows[1..], f) {
      var i :| 0 <= i < |rows| && Acceptable(rows[i], f) && rows[i].task.task.key == k;
      assert rows[1..][i - 1] == rows[i];
    }
  }

  lemma KeySetCons(task: Task, tasks: seq<Task>)
    ensures KeySet([task] + tasks) == {task.key} + KeySet(tasks)
  {
    var all := [task] + tasks;
    assert all[0] == task;
    assert forall i :: 0 <= i < |tasks| ==> all[i + 1] == tasks[i];
    forall k | k in KeySet(tasks) ensures k in KeySet(all) {
      var i :| 0 <= i < |tasks| && tasks[i].key == k;
      assert all[i + 1].key == k;
    }
  }

  /** Every scanned row is kept or counted in exactly one bucket; the kept tasks are distinct, and are exactly the
      logical tasks of the acceptable rows. */
  lemma {:induction false} PoolExact(rows: seq<Row>, f: Filters, seen: set<string>)
    ensures var r := PoolFrom(rows, f, seen);
      r.Some? ==>
        && |r.value.tasks| + |r.value.filtered| == |rows|
        && DistinctKeys(r.value.tasks)
        && KeySet(r.value.tasks) == Keys(rows, f) - seen
    decreases |rows|
  {
    if rows != [] && PoolFrom(rows, f, seen).Some? {
      KeysCons(rows, f);
      match Judge(rows[0], f, seen)
      case Filter(_) => PoolExact(rows[1..], f, seen);
      case Keep(task) =>
        PoolExact(rows[1..], f, seen + {task.key});
        var rest := PoolFrom(rows[1..], f, seen + {task.key}).value;
        KeySetCons(task, rest.tasks);
        forall i | 0 <= i < |rest.tasks| ensures rest.tasks[i].key != task.key {
          assert rest.tasks[i].key in KeySet(rest.tasks);
        }
    }
  }

  // ---------------------------------------------------------------- the held-out split

  datatype SplitError = BadFraction | BadMinimum | BadCount | NoTasks | TooFewTasks

  /** eval_task_count None or 0 means "by fraction". */
  datatype SplitRequest = SplitRequest(fraction: real, minRows: int, count: Option<int>)

  /** How many tasks are held out. int() truncates, which on these values is the floor. */
  function EvalTarget(total: nat, q: SplitRequest): Result<nat> {
    if q.fraction < 0.0 || q.fraction >= 1.0 then Fails(BadFraction)
    else if q.minRows < 0 then Fails(BadMinimum)
    else if q.count.Some? && q.count.value < 0 then Fails(BadCount)
    else if total < 1 then Fails(NoTasks)
    else if q.count.Some? && q.count.value > 0 then
      if q.count.value > total - 1 then Fails(TooFewTasks) else Gives(q.count.value)
    else if total - 1 < 1 || q.fraction <= 0.0 then Gives(0)
    else
      var byFraction := (total as real * q.fraction).Floor;
      var wanted := if byFraction > q.minRows then byFraction else q.minRows;
      Gives(if wanted < 0 then 0 else if wanted > total - 1 then total - 1 else wanted)
  }

  datatype Result<T> = Gives(value: T) | Fails(error: SplitError)

  function Ranks(tasks: seq<Task>): (r: seq<nat>)
    ensures |r| == |tasks|
  {
    seq(|tasks|, i requires 0 <= i < |tasks| => tasks[i].rank)
  }

  /** The first `target` indexes in rank order. */
  function EvalIndexes(tasks: seq<Task>, target: nat): set<nat> {
    var ranked := SortedFrom(0, Ranks(tasks));
    set k | 0 <= k < target && k < |ranked| :: ranked[k]
  }

  /** The tasks at the indexes in `chosen`, or at the others, in their order. */
  function Part(tasks: seq<Task>, from: nat, chosen: set<nat>, inside: bool): seq<Task>
    requires from <= |tasks|
    decreases |tasks| - from
  {
    if from == |tasks| then []
    else (if (from in chosen) == inside then [tasks[from]] else []) + Part(tasks, from + 1, chosen, inside)
  }

  function TrainPart(tasks: seq<Task>, target: nat): seq<Task> {
    Part(tasks, 0, EvalIndexes(tasks, target), false)
  }

  function EvalPart(tasks: seq<Task>, target: nat): seq<Task> {
    Part(tasks, 0, EvalIndexes(tasks, target), true)
  }

  function Split(tasks: seq<Task>, q: SplitRequest): Result<(seq<Task>, seq<Task>)> {
    match EvalTarget(|tasks|, q)
    case Fails(error) => Fails(error)
    case Gives(target) => Gives((TrainPart(tasks, target), EvalPart(tasks, target)))
  }

  lemma RankedIndexes(tasks: seq<Task>)
    ensures Permutes(SortedFrom(0, Ranks(tasks)), |tasks|) && |SortedFrom(0, Ranks(tasks))| == |tasks|
  {
    SortedKeepsAll(0, Ranks(tasks));
    assert Range(|tasks|)[0..] == Range(|tasks|);
    PermutesLength(SortedFrom(0, Ranks(tasks)), |tasks|);
  }

  lemma {:induction false} FirstCount(s: seq<nat>, n: nat, k: nat)
    requires Permutes(s, n) && k <= |s|
    ensures |set i | 0 <= i < k && i < |s| :: s[i]| == k
    decreases k
  {
    var chosen := set i | 0 <= i < k && i < |s| :: s[i];
    if k == 0 {
      assert chosen == {};
    } else {
      FirstCount(s, n, k - 1);
      var fewer := set i | 0 <= i < k - 1 && i < |s| :: s[i];
      if s[k - 1] in fewer {
        var i :| 0 <= i < k - 1 && s[i] == s[k - 1];
        PermutesDistinct(s, n, i, k - 1);
      }
      assert chosen == fewer + {s[k - 1]};
    }
  }

  /** The held-out indexes: as many as asked for, all of them indexes of tasks, lowest ranks first. */
  lemma EvalIndexesExact(tasks: seq<Task>, target: nat)
    requires target <= |tasks|
    ensures var chosen := EvalIndexes(tasks, target);
      && |chosen| == target && (forall i :: i in chosen ==> i < |tasks|)
      && forall i, j: nat :: i in chosen && j !in chosen && j < |tasks| && i < |tasks| ==> Precedes(i, j, Ranks(tasks))
  {
    var ranked := SortedFrom(0, Ranks(tasks));
    RankedIndexes(tasks);
    FirstCount(ranked, |tasks|, target);
    SortedIsByKey(0, Ranks(tasks));
    var chosen := EvalIndexes(tasks, target);
    assert chosen == set k | 0 <= k < target && k < |ranked| :: ranked[k];
    forall i, j: nat | i in chosen && j !in chosen && j < |tasks| && i < |tasks| ensures Precedes(i, j, Ranks(tasks)) {
      var a :| 0 <= a < target && a < |ranked| && ranked[a] == i;
      PermutesCovers(ranked, |tasks|, j);
      var b :| 0 <= b < |ranked| && ranked[b] == j;
      assert b >= target;
    }
  }

  /** Asking for more held-out tasks only adds to the held-out set. */
  lemma EvalExtends(tasks: seq<Task>, fewer: nat, more: nat)
    requires fewer <= more
    ensures EvalIndexes(tasks, fewer) <= EvalIndexes(tasks, more)
  {
  }

  // ---------------------------------------------------------------- the split is an order-preserving partition

  /** The positions of a part, from `from` on. */
  function Positions(n: nat, from: nat, chosen: set<nat>, inside: bool): seq<nat>
    requires from <= n
    decreases n - from
  {
    if from == n then []
    else (if (from in chosen) == inside then [from] else []) + Positions(n, from + 1, chosen, inside)
  }

  lemma {:induction false} PositionsExact(n: nat, from: nat, chosen: set<nat>, inside: bool)
    requires from <= n
    ensures var s := Positions(n, from, chosen, inside);
      Ascending(s) && forall k :: k in s <==> from <= k < n && (k in chosen) == inside
    decreases n - from
  {
    if from < n {
      PositionsExact(n, from + 1, chosen, inside);
      var s := Positions(n, from + 1, chosen, inside);
      LowestPosition(from, s);
      assert [] + s == s;
    }
  }

  lemma LowestPosition(from: nat, s: seq<nat>)
    requires Ascending(s) && forall k :: k in s ==> from < k
    ensures Ascending([from] + s) && forall k :: k in [from] + s <==> k == from || k in s
  {
    assert forall i :: 0 <= i < |s| ==> s[i] in s;
  }

  lemma PositionsBound(n: nat, from: nat, chosen: set<nat>, inside: bool)
    requires from <= n
    ensures var s := Positions(n, from, chosen, inside); forall i :: 0 <= i < |s| ==> from <= s[i] < n
  {
    PositionsExact(n, from, chosen, inside);
    var s := Positions(n, from, chosen, inside);
    assert forall i :: 0 <= i < |s| ==> s[i] in s;
  }

  lemma {:induction false} PartIsPick(tasks: seq<Task>, from: nat, chosen: set<nat>, inside: bool)
    requires from <= |tasks|
    ensures var s := Positions(|tasks|, from, chosen, inside);
      (forall i :: 0 <= i < |s| ==> s[i] < |tasks|) && Part(tasks, from, chosen, inside) == Pick(tasks, s)
    decreases |tasks| - from
  {
    PositionsBound(|tasks|, from, chosen, inside);
    if from < |tasks| {
      PartIsPick(tasks, from + 1, chosen, inside);
      var rest := Positions(|tasks|, from + 1, chosen, inside);
      assert (from in chosen) == inside ==> Pick(tasks, [from] + rest) == [tasks[from]] + Pick(tasks, rest);
    }
  }

  lemma {:induction false} PositionsCount(n: nat, from: nat, chosen: set<nat>)
    requires from <= n && forall k :: k in chosen ==> k < n
    ensures |Positions(n, from, chosen, true)| == |FromOn(chosen, from)|
    ensures |Positions(n, from, chosen, true)| + |Positions(n, from, chosen, false)| == n - from
    decreases n - from
  {
    if from == n {
      assert FromOn(chosen, from) == {};
    } else {
      PositionsCount(n, from + 1, chosen);
      OneMorePosition(chosen, from);
    }
  }

  function FromOn(chosen: set<nat>, from: nat): set<nat> {
    set k | k in chosen && from <= k
  }

  lemma OneMorePosition(chosen: set<nat>, from: nat)
    ensures |FromOn(chosen, from)| == |FromOn(chosen, from + 1)| + (if from in chosen then 1 else 0)
  {
    var here, later := FromOn(chosen, from), FromOn(chosen, from + 1);
    if from in chosen {
      assert here == later + {from} && from !in later;
    } else {
      assert here == later;
    }
  }

  /** The split is a partition that keeps the order: each side lists, in ascending order, the tasks at its positions,
      the positions of both sides are all positions, the eval side holds the lowest ranks and the train side is never
      empty. */
  lemma SplitExact(tasks: seq<Task>, q: SplitRequest)
    requires Split(tasks, q).Gives?
    ensures var (train, held) := Split(tasks, q).value;
      var chosen := EvalIndexes(tasks, |held|);
      var inTrain, inEval := Positions(|tasks|, 0, chosen, false), Positions(|tasks|, 0, chosen, true);
      && (forall i :: 0 <= i < |inTrain| ==> inTrain[i] < |tasks|) && (forall i :: 0 <= i < |inEval| ==> inEval[i] < |tasks|)
      && train == Pick(tasks, inTrain) && held == Pick(tasks, inEval)
      && Ascending(inTrain) && Ascending(inEval)
      && (forall k: nat :: k < |tasks| ==> (k in inEval <==> k !in inTrain))
      && |train| + |held| == |tasks| && train != []
  {
    hide EvalIndexes;
    var target := EvalTarget(|tasks|, q).value;
    var chosen := EvalIndexes(tasks, target);
    assert target < |tasks|;
    EvalIndexesExact(tasks, target);
    PartIsPick(tasks, 0, chosen, false);
    PartIsPick(tasks, 0, chosen, true);
    PositionsExact(|tasks|, 0, chosen, false);
    PositionsExact(|tasks|, 0, chosen, true);
    PositionsCount(|tasks|, 0, chosen);
    assert chosen == FromOn(chosen, 0);
  }

  predicate ValidRequest(q: SplitRequest) {
    0.0 <= q.fraction < 1.0 && q.minRows >= 0 && (q.count.Some? ==> q.count.value >= 0)
  }

  /** Exactly when the split is refused, and with which error. */
  lemma SplitErrors(tasks: seq<Task>, q: SplitRequest)
    ensures Split(tasks, q) == Fails(BadFraction) <==> !(0.0 <= q.fraction < 1.0)
    ensures Split(tasks, q) == Fails(BadMinimum) <==> 0.0 <= q.fraction < 1.0 && q.minRows < 0
    ensures Split(tasks, q) == Fails(BadCount) <==>
      0.0 <= q.fraction < 1.0 && q.minRows >= 0 && q.count.Some? && q.count.value < 0
    ensures Split(tasks, q) == Fails(NoTasks) <==> ValidRequest(q) && tasks == []
    ensures Split(tasks, q) == Fails(TooFewTasks) <==>
      ValidRequest(q) && tasks != [] && q.count.Some? && q.count.value >= |tasks| && q.count.value > 0
    ensures Split(tasks, q).Gives? <==>
      ValidRequest(q) && tasks != [] && (q.count.Some? ==> q.count.value < |tasks|)
  {
    hide TrainPart, EvalPart;
    assert |tasks| == 0 <==> tasks == [];
  }

  /** How many tasks are held out: as many as a positive count says; none with a fraction of 0 or a single task; otherwise
      the floor `f` of that fraction of the tasks or the minimum, whichever is more, but never all of them. */
  lemma HeldOutCount(tasks: seq<Task>, q: SplitRequest, f: int)
    requires Split(tasks, q).Gives?
    requires f as real <= |tasks| as real * q.fraction < f as real + 1.0
    ensures var held := |Split(tasks, q).value.1|;
      var counted := q.count.Some? && q.count.value > 0;
      var most := |tasks| - 1;
      && (counted ==> held == q.count.value)
      && (!counted && (q.fraction == 0.0 || |tasks| == 1) ==> held == 0)
      && (!counted && q.fraction > 0.0 && |tasks| >= 2 ==>
            && held <= most && (held >= f || held == most) && (held >= q.minRows || held == most)
            && (held == f || held == q.minRows || held == most))
  {
    hide EvalIndexes;
    var target := EvalTarget(|tasks|, q).value;
    SplitCount(tasks, q);
    SplitErrors(tasks, q);
    FloorIs(|tasks| as real * q.fraction, f);
    Share(|tasks|, q.fraction);
  }

  lemma FloorIs(x: real, f: int)
    requires f as real <= x < f as real + 1.0
    ensures x.Floor == f
  {
  }

  lemma Share(n: nat, fraction: real)
    requires fraction >= 0.0
    ensures n as real * fraction >= 0.0
  {
  }

  lemma SplitCount(tasks: seq<Task>, q: SplitRequest)
    requires Split(tasks, q).Gives?
    ensures EvalTarget(|tasks|, q).Gives? && |Split(tasks, q).value.1| == EvalTarget(|tasks|, q).value < |tasks|
  {
    hide EvalIndexes;
    var target := EvalTarget(|tasks|, q).value;
    var chosen := EvalIndexes(tasks, target);
    EvalIndexesExact(tasks, target);
    PartIsPick(tasks, 0, chosen, true);
    PositionsCount(|tasks|, 0, chosen);
    assert chosen == FromOn(chosen, 0);
  }

  /** Held-out isolation at the pool: no logical task is on both sides. */
  lemma SidesAreDisjoint(tasks: seq<Task>, q: SplitRequest, a: nat, b: nat)
    requires DistinctKeys(tasks) && Split(tasks, q).Gives?
    requires a < |Split(tasks, q).value.0| && b < |Split(tasks, q).value.1|
    ensures Split(tasks, q).value.0[a].key != Split(tasks, q).value.1[b].key
  {
    hide EvalIndexes, Positions;
    SplitExact(tasks, q);
    var chosen := EvalIndexes(tasks, |Split(tasks, q).value.1|);
    var i, j := Positions(|tasks|, 0, chosen, false)[a], Positions(|tasks|, 0, chosen, true)[b];
    assert i in Positions(|tasks|, 0, chosen, false) && j in Positions(|tasks|, 0, chosen, true);
  }

  /** split_task_samples_for_eval: the loop over the ranked tasks. */
  method SplitTaskSamplesForEval(tasks: seq<Task>, q: SplitRequest) returns (r: Result<(seq<Task>, seq<Task>)>)
    ensures r == Split(tasks, q)
  {
    hide EvalIndexes;
    var target := EvalTarget(|tasks|, q);
    if target.Fails? {
      return Fails(target.error);
    }
    var chosen := EvalIndexes(tasks, target.value);
    var train: seq<Task> := [];
    var held: seq<Task> := [];
    for i := 0 to |tasks|
      invariant train + Part(tasks, i, chosen, false) == Part(tasks, 0, chosen, false)
      invariant held + Part(tasks, i, chosen, true) == Part(tasks, 0, chosen, true)
    {
      if i in chosen {
        Regroup(held, tasks[i], Part(tasks, i + 1, chosen, true));
        assert [] + Part(tasks, i + 1, chosen, false) == Part(tasks, i + 1, chosen, false);
        held := held + [tasks[i]];
      } else {
        Regroup(train, tasks[i], Part(tasks, i + 1, chosen, false));
        assert [] + Part(tasks, i + 1, chosen, true) == Part(tasks, i + 1, chosen, true);
        train := train + [tasks[i]];
      }
    }
    assert train + [] == train && held + [] == held;
    r := Gives((train, held));
    SplitExact(tasks, q);
    // The source moves one task back when no train task is left, which SplitExact excludes.
    assert train != [];
  }
}
