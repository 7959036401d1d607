/** Loading a partition and drawing batches from it, step after step. */
module TaskBatches {
  import opened Text
  import opened Arithmetic
  import opened Permutations
  import opened StableSort
  import opened TaskPool

  datatype Partition = All | Train | Eval

  /** Only the positive stage orders by difficulty. */
  datatype Stage = FormatStage | PositiveStage

  datatype LoadError = Unloadable | BadSplit(error: SplitError) | WrongCache | BadStep | BadBatch | TooSmall

  datatype Loaded = Tasks(tasks: seq<Task>) | LoadFails(error: LoadError)

  /** A dataset with its split request. `labelled` is whether a partial rollout probe restricts the pool, and
      `cached` the partition that probe was made for. */
  datatype Source = Source(pool: seq<Task>, split: SplitRequest, labelled: bool, cached: Option<Partition>)

  /** load_task_samples */
  function LoadSamples(s: Source, partition: Partition): Loaded {
    if s.pool == [] then LoadFails(Unloadable)
    else if s.cached.Some? && partition != All && s.cached.value != partition then LoadFails(WrongCache)
    else if s.cached == Some(Train) || s.cached == Some(Eval) then Tasks(s.pool)
    else if partition == All then Tasks(s.pool)
    else
      match Split(s.pool, s.split)
      case Fails(error) => LoadFails(BadSplit(error))
      case Gives((train, held)) => Tasks(if partition == Train then train else held)
  }

  /** What is loaded, and when it is not: an empty pool is an error; otherwise the whole pool, or a side of its split; a
      pool that was probed for one partition stands for that partition and serves no other. */
  lemma SamplesExact(s: Source, partition: Partition)
    ensures s.pool == [] ==> LoadSamples(s, partition) == LoadFails(Unloadable)
    ensures var r := LoadSamples(s, partition); s.pool != [] ==>
      && (s.cached in {None, Some(All)} && partition == All ==> r == Tasks(s.pool))
      && (s.cached in {Some(Train), Some(Eval)} && partition in {All, s.cached.value} ==> r == Tasks(s.pool))
      && (s.cached.Some? && partition !in {All, s.cached.value} ==> r == LoadFails(WrongCache))
      && (s.cached.None? && partition != All && Split(s.pool, s.split).Fails? ==>
            r == LoadFails(BadSplit(Split(s.pool, s.split).error)))
      && (s.cached.None? && partition == Train && Split(s.pool, s.split).Gives? ==> r == Tasks(Split(s.pool, s.split).value.0))
      && (s.cached.None? && partition == Eval && Split(s.pool, s.split).Gives? ==> r == Tasks(Split(s.pool, s.split).value.1))
  {
    hide Split;
  }

  // ---------------------------------------------------------------- the stage's order

  function BandPriority(band: string): nat {
    var b := Lower(Strip(band));
    if b == "easy" then 0 else if b == "learnable" then 1 else if b == "near_impossible" then 3 else 2
  }

  function Priorities(tasks: seq<Task>): (r: seq<nat>)
    ensures |r| == |tasks|
  {
    seq(|tasks|, i requires 0 <= i < |tasks| => BandPriority(tasks[i].band))
  }

  /** _order_tasks_for_stage: held-out tasks keep their order. */
  function OrderForStage(tasks: seq<Task>, stage: Stage, partition: Partition, cached: Option<Partition>): seq<Task> {
    if |tasks| < 2 || stage == FormatStage || partition == Eval || (partition == All && cached == Some(Eval)) then tasks
    else Pick(tasks, SortedFrom(0, Priorities(tasks)))
  }

  lemma OrderedIsPermutation(tasks: seq<Task>, stage: Stage, partition: Partition, cached: Option<Partition>)
    ensures multiset(OrderForStage(tasks, stage, partition, cached)) == multiset(tasks)
    ensures |OrderForStage(tasks, stage, partition, cached)| == |tasks|
  {
    SortedKeepsAll(0, Priorities(tasks));
    assert Range(|tasks|)[0..] == Range(|tasks|);
    PickPermutes(tasks, SortedFrom(0, Priorities(tasks)));
    assert |multiset(OrderForStage(tasks, stage, partition, cached))| == |OrderForStage(tasks, stage, partition, cached)|;
    assert |multiset(tasks)| == |tasks|;
  }

  /** In the positive stage tasks that are not held out stand in band order, and in pool order within a band. */
  lemma OrderedByBand(tasks: seq<Task>, partition: Partition, cached: Option<Partition>)
    requires partition == Train || (partition == All && cached != Some(Eval))
    ensures var order := SortedFrom(0, Priorities(tasks));
      && Permutes(order, |tasks|) && ByKey(order, Priorities(tasks)) && (forall i :: 0 <= i < |order| ==> order[i] < |tasks|)
      && OrderForStage(tasks, PositiveStage, partition, cached) == Pick(tasks, order)
  {
    hide ByKey, BandPriority;
    var order := SortedFrom(0, Priorities(tasks));
    SortedKeepsAll(0, Priorities(tasks));
    assert Range(|tasks|)[0..] == Range(|tasks|);
    SortedIsByKey(0, Priorities(tasks));
    PermutesLength(order, |tasks|);
    if |tasks| == 1 {
      assert order == [0];
    }
  }

  /** A task of band `a` stands before one of band `b`: easy before learnable before any other band before near-impossible,
      as the bands read stripped and in lower case. */
  ghost predicate BandBefore(a: string, b: string) {
    var x, y := Lower(Strip(a)), Lower(Strip(b));
    (x == "easy" && y != "easy") || (x == "learnable" && y !in ["easy", "learnable"])
    || (x !in ["easy", "learnable", "near_impossible"] && y == "near_impossible")
  }

  lemma BandsDiffer()
    ensures "easy" != "learnable" && "easy" != "near_impossible" && "learnable" != "near_impossible"
  {
    assert |"easy"| == 4 && |"learnable"| == 9 && |"near_impossible"| == 15;
  }

  lemma PriorityIs(a: string, b: string)
    ensures BandPriority(a) < BandPriority(b) <==> BandBefore(a, b)
  {
    hide Lower, Strip;
    BandsDiffer();
  }

  /** The order of the positive stage, band by band: no task stands before one of an earlier band, and tasks of which
      neither band is earlier keep their places. */
  lemma BandOrder(tasks: seq<Task>, i: nat, j: nat)
    requires i < j < |SortedFrom(0, Priorities(tasks))|
    ensures var order := SortedFrom(0, Priorities(tasks));
      && order[i] < |tasks| && order[j] < |tasks|
      && !BandBefore(tasks[order[j]].band, tasks[order[i]].band)
      && (!BandBefore(tasks[order[i]].band, tasks[order[j]].band) ==> order[i] < order[j])
  {
    hide BandPriority, BandBefore;
    OrderedByBand(tasks, Train, None);
    var order := SortedFrom(0, Priorities(tasks));
    PriorityIs(tasks[order[i]].band, tasks[order[j]].band);
    PriorityIs(tasks[order[j]].band, tasks[order[i]].band);
  }

  /** The format stage, and held-out tasks in every stage, keep the order of the pool. */
  lemma OrderKept(tasks: seq<Task>, stage: Stage, partition: Partition, cached: Option<Partition>)
    requires stage == FormatStage || partition == Eval || (partition == All && cached == Some(Eval))
    ensures OrderForStage(tasks, stage, partition, cached) == tasks
  {
  }

  // ---------------------------------------------------------------- batches

  /** The indexes a step draws from a list of `n` tasks. */
  function BatchIndexes(step: nat, batch: nat, n: nat): seq<nat>
    requires n >= 1
  {
    seq(batch, k requires 0 <= k < batch => (step * batch % n + k) % n)
  }

  lemma IndexesInRange(step: nat, batch: nat, n: nat)
    requires n >= 1
    ensures |BatchIndexes(step, batch, n)| == batch && forall k :: 0 <= k < batch ==> BatchIndexes(step, batch, n)[k] < n
  {
  }

  /** load_task_batch */
  function LoadBatch(s: Source, step: int, batch: int, partition: Partition, stage: Stage): Loaded {
    if step < 0 then LoadFails(BadStep)
    else if batch < 1 then LoadFails(BadBatch)
    else
      match LoadSamples(s, partition)
      case LoadFails(error) => LoadFails(error)
      case Tasks(samples) =>
        if samples == [] then Tasks([])
        else
          var tasks := OrderForStage(samples, stage, partition, s.cached);
          OrderedIsPermutation(samples, stage, partition, s.cached);
          if partition == All && |tasks| < batch && !s.labelled then LoadFails(TooSmall)
          else
            IndexesInRange(step, batch, |tasks|);
            Tasks(Pick(tasks, BatchIndexes(step, batch, |tasks|)))
  }

  /** load_task_batch: filling the batch with wraparound. */
  method LoadTaskBatch(s: Source, step: int, batch: int, partition: Partition, stage: Stage) returns (r: Loaded)
    ensures r == LoadBatch(s, step, batch, partition, stage)
  {
    if step < 0 {
      return LoadFails(BadStep);
    }
    if batch < 1 {
      return LoadFails(BadBatch);
    }
    var loaded := LoadSamples(s, partition);
    if loaded.LoadFails? || loaded.tasks == [] {
      return loaded;
    }
    var tasks := OrderForStage(loaded.tasks, stage, partition, s.cached);
    OrderedIsPermutation(loaded.tasks, stage, partition, s.cached);
    if partition == All && |tasks| < batch && !s.labelled {
      return LoadFails(TooSmall);
    }
    var samples := FillBatch(tasks, step, batch);
    return Tasks(samples);
  }

  /** The filling loop of load_task_batch. */
  method FillBatch(tasks: seq<Task>, step: nat, batch: nat) returns (samples: seq<Task>)
    requires tasks != [] && batch >= 1
    ensures (forall i :: 0 <= i < batch ==> BatchIndexes(step, batch, |tasks|)[i] < |tasks|)
    ensures samples == Pick(tasks, BatchIndexes(step, batch, |tasks|))
  {
    var start := step * batch % |tasks|;
    samples := [];
    IndexesInRange(step, batch, |tasks|);
    for offset := 0 to batch
      invariant samples == Pick(tasks, BatchIndexes(step, batch, |tasks|))[..offset]
    {
      samples := samples + [tasks[(start + offset) % |tasks|]];
    }
  }

  /** Exactly when a batch is refused, and with which error; an empty partition gives an empty batch. */
  lemma BatchErrors(s: Source, step: int, batch: int, partition: Partition, stage: Stage)
    ensures var r, samples := LoadBatch(s, step, batch, partition, stage), LoadSamples(s, partition);
      && (r == LoadFails(BadStep) <==> step < 0)
      && (r == LoadFails(BadBatch) <==> step >= 0 && batch < 1)
      && (step >= 0 && batch >= 1 && samples.LoadFails? ==> r == samples)
      && (step >= 0 && batch >= 1 && samples == Tasks([]) ==> r == Tasks([]))
      && (step >= 0 && batch >= 1 && samples.Tasks? && samples.tasks != [] ==>
            if partition == All && |samples.tasks| < batch && !s.labelled then r == LoadFails(TooSmall)
            else r.Tasks? && |r.tasks| == batch)
  {
    hide Split, OrderForStage;
    var samples := LoadSamples(s, partition);
    if step >= 0 && batch >= 1 && samples.Tasks? && samples.tasks != [] {
      OrderedIsPermutation(samples.tasks, stage, partition, s.cached);
      IndexesInRange(step, batch, |samples.tasks|);
    }
  }

  lemma BatchComesFrom(s: Source, step: int, batch: int, partition: Partition, stage: Stage, k: nat)
    requires LoadBatch(s, step, batch, partition, stage).Tasks? && k < |LoadBatch(s, step, batch, partition, stage).tasks|
    ensures LoadSamples(s, partition).Tasks?
    ensures LoadBatch(s, step, batch, partition, stage).tasks[k] in LoadSamples(s, partition).tasks
  {
    var samples := LoadSamples(s, partition).tasks;
    var tasks := OrderForStage(samples, stage, partition, s.cached);
    OrderedIsPermutation(samples, stage, partition, s.cached);
    var t := LoadBatch(s, step, batch, partition, stage).tasks[k];
    IndexesInRange(step, batch, |tasks|);
    assert t == tasks[BatchIndexes(step, batch, |tasks|)[k]];
    assert t in multiset(tasks);
    assert t in multiset(samples);
  }

  /** Held-out isolation over all steps and stages: outside the partial-probe mode, no train batch ever shares a
      logical task with an eval batch. */
  lemma HeldOutNeverTrained(s: Source, step: int, batch: int, stage: Stage, k: nat, step2: int, batch2: int, stage2: Stage, j: nat)
    requires DistinctKeys(s.pool)
    requires LoadBatch(s, step, batch, Train, stage).Tasks? && k < |LoadBatch(s, step, batch, Train, stage).tasks|
    requires LoadBatch(s, step2, batch2, Eval, stage2).Tasks? && j < |LoadBatch(s, step2, batch2, Eval, stage2).tasks|
    ensures LoadBatch(s, step, batch, Train, stage).tasks[k].key != LoadBatch(s, step2, batch2, Eval, stage2).tasks[j].key
  {
    hide LoadBatch, Split;
    BatchComesFrom(s, step, batch, Train, stage, k);
    BatchComesFrom(s, step2, batch2, Eval, stage2, j);
    var (train, held) := Split(s.pool, s.split).value;
    var t, u := LoadBatch(s, step, batch, Train, stage).tasks[k], LoadBatch(s, step2, batch2, Eval, stage2).tasks[j];
    var a :| 0 <= a < |train| && train[a] == t;
    var b :| 0 <= b < |held| && held[b] == u;
    SidesAreDisjoint(s.pool, s.split, a, b);
  }

  // ---------------------------------------------------------------- fairness

  /** How often index `i` is drawn from the draws number `from` up to `to`, draw p reading index p mod n. */
  function Draws(i: nat, n: nat, from: nat, upto: nat): nat
    requires n >= 1 && from <= upto
    decreases upto - from
  {
    if from == upto then 0 else Draws(i, n, from, upto - 1) + (if (upto - 1) % n == i then 1 else 0)
  }

  /** Draw p of a run is what step p / batch reads at place p mod batch. */
  lemma DrawIsRead(step: nat, batch: nat, n: nat, k: nat)
    requires n >= 1 && k < batch
    ensures BatchIndexes(step, batch, n)[k] == (step * batch + k) % n
  {
    ModAddsMod(step * batch, k, n);
  }

  lemma {:induction false} DrawsSplit(i: nat, n: nat, from: nat, mid: nat, upto: nat)
    requires n >= 1 && from <= mid <= upto
    ensures Draws(i, n, from, upto) == Draws(i, n, from, mid) + Draws(i, n, mid, upto)
    decreases upto - mid
  {
    if mid < upto {
      DrawsSplit(i, n, from, mid, upto - 1);
    }
  }

  /** The number of draws below `to` that read index `i`. */
  lemma {:induction false} DrawsFromZero(i: nat, n: nat, upto: nat)
    requires i < n
    ensures Draws(i, n, 0, upto) == (upto + (n - 1 - i)) / n
    decreases upto
  {
    if upto == 0 {
      DivModUnique(n - 1 - i, n, 0, n - 1 - i);
    } else {
      DrawsFromZero(i, n, upto - 1);
      var x := upto - 1 + (n - 1 - i);
      EndsRound(upto - 1, i, n);
      StepRound(x, n);
    }
  }

  lemma StepRound(x: nat, n: nat)
    requires n >= 1
    ensures (x + 1) / n == x / n + (if x % n == n - 1 then 1 else 0)
  {
    DivAdds(x, 1, n);
    if n == 1 {
      DivModUnique(1, 1, 1, 0);
      DivModUnique(x, 1, x, 0);
    } else {
      DivModUnique(1, n, 0, 1);
    }
  }

  /** Any `count` consecutive draws read every index floor(count / n) or ceil(count / n) times. */
  lemma DrawsAreFair(i: nat, n: nat, from: nat, count: nat)
    requires i < n
    ensures var d := Draws(i, n, from, from + count);
      if count % n == 0 then d == count / n else d == count / n || d == count / n + 1
  {
    DrawsSplit(i, n, 0, from, from + count);
    DrawsFromZero(i, n, from);
    DrawsFromZero(i, n, from + count);
    DivAdds(from + (n - 1 - i), count, n);
    Parts(from + (n - 1 - i), n);
    assert from + count + (n - 1 - i) == from + (n - 1 - i) + count;
  }

  /** How often index `i` is read in a run of `steps` steps starting at step `first`. */
  function Reads(i: nat, n: nat, batch: nat, first: nat, steps: nat): nat
    requires n >= 1
    decreases steps
  {
    if steps == 0 then 0
    else Reads(i, n, batch, first, steps - 1) + multiset(BatchIndexes(first + steps - 1, batch, n))[i]
  }

  lemma {:induction false} OneBatchReads(i: nat, n: nat, step: nat, batch: nat, upTo: nat)
    requires n >= 1 && upTo <= batch
    ensures multiset(BatchIndexes(step, batch, n)[..upTo])[i] == Draws(i, n, step * batch, step * batch + upTo)
    decreases upTo
  {
    var s := BatchIndexes(step, batch, n);
    if upTo == 0 {
      assert s[..0] == [];
    } else {
      OneBatchReads(i, n, step, batch, upTo - 1);
      DrawIsRead(step, batch, n, upTo - 1);
      assert s[..upTo] == s[..upTo - 1] + [s[upTo - 1]];
    }
  }

  lemma BatchReads(i: nat, n: nat, step: nat, batch: nat)
    requires n >= 1
    ensures multiset(BatchIndexes(step, batch, n))[i] == Draws(i, n, step * batch, step * batch + batch)
  {
    OneBatchReads(i, n, step, batch, batch);
    assert BatchIndexes(step, batch, n)[..batch] == BatchIndexes(step, batch, n);
  }

  lemma {:induction false} RunReads(i: nat, n: nat, batch: nat, first: nat, steps: nat)
    requires n >= 1
    ensures Reads(i, n, batch, first, steps) == Draws(i, n, first * batch, first * batch + steps * batch)
    decreases steps
  {
    hide BatchIndexes;
    if steps == 0 {
      assert 0 * batch == 0;
    } else {
      hide Draws;
      var step := first + (steps - 1);
      RunReads(i, n, batch, first, steps - 1);
      BatchReads(i, n, step, batch);
      NextStep(first, steps, batch);
      DrawsSplit(i, n, first * batch, step * batch, step * batch + batch);
    }
  }

  lemma NextStep(first: nat, steps: nat, batch: nat)
    requires steps > 0
    ensures (first + (steps - 1)) * batch == first * batch + (steps - 1) * batch
    ensures steps * batch == (steps - 1) * batch + batch
  {
    Distribute(first, steps - 1, batch);
    Distribute(steps - 1, 1, batch);
  }

  lemma IndexesAreFair(i: nat, n: nat, batch: nat, first: nat, steps: nat)
    requires i < n
    ensures var draws := steps * batch;
      var d := Reads(i, n, batch, first, steps);
      if draws % n == 0 then d == draws / n else d == draws / n || d == draws / n + 1
  {
    hide Reads, Draws;
    RunReads(i, n, batch, first, steps);
    FairCount(i, n, first * batch, steps * batch, Reads(i, n, batch, first, steps));
  }

  lemma FairCount(i: nat, n: nat, from: nat, count: nat, d: nat)
    requires i < n && d == Draws(i, n, from, from + count)
    ensures if count % n == 0 then d == count / n else d == count / n || d == count / n + 1
  {
    hide Draws;
    DrawsAreFair(i, n, from, count);
  }

  // ---------------------------------------------------------------- how often a task is drawn

  /** How often task `t` stands in the batches of `steps` consecutive steps. */
  function TaskDraws(s: Source, t: Task, batch: int, partition: Partition, stage: Stage, first: nat, steps: nat): nat
    decreases steps
  {
    if steps == 0 then 0
    else
      TaskDraws(s, t, batch, partition, stage, first, steps - 1) +
      match LoadBatch(s, first + steps - 1, batch, partition, stage)
      case LoadFails(_) => 0
      case Tasks(tasks) => multiset(tasks)[t]
  }

  lemma PickDistinct(tasks: seq<Task>, at: seq<nat>)
    requires DistinctKeys(tasks) && Ascending(at) && forall i :: 0 <= i < |at| ==> at[i] < |tasks|
    ensures DistinctKeys(Pick(tasks, at))
  {
  }

  /** A partition of a pool without duplicates has none. */
  lemma SamplesDistinct(s: Source, partition: Partition)
    requires DistinctKeys(s.pool) && LoadSamples(s, partition).Tasks?
    ensures DistinctKeys(LoadSamples(s, partition).tasks)
  {
    hide DistinctKeys, EvalIndexes, EvalTarget, Positions, Pick, Part;
    if s.cached.None? && partition != All {
      SplitExact(s.pool, s.split);
      var chosen := EvalIndexes(s.pool, |Split(s.pool, s.split).value.1|);
      PickDistinct(s.pool, Positions(|s.pool|, 0, chosen, partition == Eval));
    }
  }

  lemma OnePlace(tasks: seq<Task>, t: Task)
    requires DistinctKeys(tasks) && t in tasks
    ensures multiset(tasks)[t] == 1
  {
    var i :| 0 <= i < |tasks| && tasks[i] == t;
    assert tasks == tasks[..i] + [t] + tasks[i + 1..];
    assert t !in tasks[..i] && t !in tasks[i + 1..];
  }

  /** A task with one place in a list. */
  lemma PlaceOf(tasks: seq<Task>, t: Task) returns (i: nat)
    requires multiset(tasks)[t] == 1
    ensures i < |tasks| && forall j :: 0 <= j < |tasks| ==> (tasks[j] == t <==> j == i)
  {
    assert t in multiset(tasks);
    i :| 0 <= i < |tasks| && tasks[i] == t;
    forall j | 0 <= j < |tasks| && tasks[j] == t ensures j == i {
      if j < i {
        TwoPlaces(tasks, j, i);
      } else if i < j {
        TwoPlaces(tasks, i, j);
      }
    }
  }

  lemma TwoPlaces(tasks: seq<Task>, i: nat, j: nat)
    requires i < j < |tasks| && tasks[i] == tasks[j]
    ensures multiset(tasks)[tasks[i]] >= 2
  {
    assert tasks == tasks[..i] + [tasks[i]] + tasks[i + 1..j] + [tasks[j]] + tasks[j + 1..];
  }

  lemma {:induction false} PickCounts(tasks: seq<Task>, t: Task, i: nat, at: seq<nat>)
    requires i < |tasks| && forall j :: 0 <= j < |tasks| ==> (tasks[j] == t <==> j == i)
    requires forall k :: 0 <= k < |at| ==> at[k] < |tasks|
    ensures multiset(Pick(tasks, at))[t] == multiset(at)[i]
    decreases |at|
  {
    if at == [] {
      assert Pick(tasks, at) == [];
    } else {
      PickHead(tasks, at);
      HeadOff(at);
      PickCounts(tasks, t, i, at[1..]);
      assert multiset(at) == multiset{at[0]} + multiset(at[1..]) by {
        assert at == [at[0]] + at[1..];
      }
    }
  }

  /** What a step loads, when the batch loads at all. */
  lemma BatchIs(s: Source, first: nat, step: nat, batch: int, partition: Partition, stage: Stage)
    requires LoadBatch(s, first, batch, partition, stage).Tasks?
    requires LoadSamples(s, partition).Tasks? && LoadSamples(s, partition).tasks != []
    ensures batch >= 1
    ensures var tasks := OrderForStage(LoadSamples(s, partition).tasks, stage, partition, s.cached);
      && tasks != [] && |BatchIndexes(step, batch, |tasks|)| == batch
      && (forall k :: 0 <= k < batch ==> BatchIndexes(step, batch, |tasks|)[k] < |tasks|)
      && LoadBatch(s, step, batch, partition, stage) == Tasks(Pick(tasks, BatchIndexes(step, batch, |tasks|)))
  {
    hide LoadSamples, OrderForStage, Pick, BatchIndexes;
    var samples := LoadSamples(s, partition).tasks;
    OrderedIsPermutation(samples, stage, partition, s.cached);
    IndexesInRange(step, batch, |samples|);
  }

  lemma {:induction false} DrawsAreReads(s: Source, t: Task, i: nat, batch: int, partition: Partition, stage: Stage, first: nat, steps: nat)
    requires LoadBatch(s, first, batch, partition, stage).Tasks? && batch >= 1
    requires LoadSamples(s, partition).Tasks? && LoadSamples(s, partition).tasks != []
    requires var tasks := OrderForStage(LoadSamples(s, partition).tasks, stage, partition, s.cached);
      i < |tasks| && forall j :: 0 <= j < |tasks| ==> (tasks[j] == t <==> j == i)
    ensures TaskDraws(s, t, batch, partition, stage, first, steps)
      == Reads(i, |OrderForStage(LoadSamples(s, partition).tasks, stage, partition, s.cached)|, batch, first, steps)
    decreases steps
  {
    hide LoadSamples, OrderForStage, LoadBatch, Pick, BatchIndexes;
    if steps > 0 {
      var tasks := OrderForStage(LoadSamples(s, partition).tasks, stage, partition, s.cached);
      DrawsAreReads(s, t, i, batch, partition, stage, first, steps - 1);
      BatchIs(s, first, first + steps - 1, batch, partition, stage);
      PickCounts(tasks, t, i, BatchIndexes(first + steps - 1, batch, |tasks|));
    }
  }

  /** Fair cyclic batches: over any run of consecutive steps, every task of the partition stands in the batches floor
      or ceil of draws over tasks times. */
  lemma BatchesAreFair(s: Source, t: Task, batch: int, partition: Partition, stage: Stage, first: nat, steps: nat)
    requires DistinctKeys(s.pool) && LoadBatch(s, first, batch, partition, stage).Tasks?
    requires LoadSamples(s, partition).Tasks? && t in LoadSamples(s, partition).tasks
    ensures var draws, n, d := steps * batch, |LoadSamples(s, partition).tasks|, TaskDraws(s, t, batch, partition, stage, first, steps);
      if draws % n == 0 then d == draws / n else d == draws / n || d == draws / n + 1
  {
    hide *;
    var samples := LoadSamples(s, partition).tasks;
    BatchIs(s, first, first, batch, partition, stage);
    SamplesDistinct(s, partition);
    OnePlace(samples, t);
    OrderedIsPermutation(samples, stage, partition, s.cached);
    var tasks := OrderForStage(samples, stage, partition, s.cached);
    var i := PlaceOf(tasks, t);
    DrawsAreReads(s, t, i, batch, partition, stage, first, steps);
    IndexesAreFair(i, |samples|, batch, first, steps);
  }

  /** A batch as large as the partition reads every task once, in the same order at every step. */
  lemma WholeBatchIsFixed(s: Source, step: nat, batch: int, partition: Partition, stage: Stage)
    requires LoadSamples(s, partition).Tasks? && LoadSamples(s, partition).tasks != []
    requires batch == |LoadSamples(s, partition).tasks|
    ensures LoadBatch(s, step, batch, partition, stage)
      == Tasks(OrderForStage(LoadSamples(s, partition).tasks, stage, partition, s.cached))
  {
    hide LoadSamples, OrderForStage;
    var samples := LoadSamples(s, partition).tasks;
    var tasks := OrderForStage(samples, stage, partition, s.cached);
    OrderedIsPermutation(samples, stage, partition, s.cached);
    MultipleHasNoRest(step, batch);
    forall k | 0 <= k < batch ensures BatchIndexes(step, batch, batch)[k] == k {
      DivModUnique(k, batch, 0, k);
    }
    IndexesInRange(step, batch, batch);
    assert Pick(tasks, BatchIndexes(step, batch, batch)) == tasks;
  }
}
