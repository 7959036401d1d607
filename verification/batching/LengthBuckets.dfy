/** Length buckets, their shuffling and the replicas' slices. */
module LengthBuckets {
  import opened Text
  import opened Arithmetic
  import opened Permutations
  import opened StableSort
  import opened BatchArithmetic

  // ---------------------------------------------------------------- bucketing

  function Buckets(s: seq<nat>, size: nat): seq<seq<nat>>
    requires size >= 1
    decreases |s|
  {
    if s == [] then [] else if |s| <= size then [s] else [s[..size]] + Buckets(s[size..], size)
  }

  lemma {:induction false} BucketsConcat(s: seq<nat>, size: nat)
    requires size >= 1
    ensures Concat(Buckets(s, size)) == s
    ensures forall k :: 0 <= k < |Buckets(s, size)| ==>
      0 < |Buckets(s, size)[k]| <= size && (k < |Buckets(s, size)| - 1 ==> |Buckets(s, size)[k]| == size)
    decreases |s|
  {
    if |s| > size {
      BucketsConcat(s[size..], size);
      assert ([s[..size]] + Buckets(s[size..], size))[1..] == Buckets(s[size..], size);
      assert s == s[..size] + s[size..];
    } else if s != [] {
      assert Concat([s]) == s + Concat([s][1..]);
    }
  }

  /** An earlier bucket holds nothing longer than a later one. */
  lemma {:induction false} BucketsContiguous(s: seq<nat>, size: nat, lengths: seq<nat>, a: nat, b: nat)
    requires size >= 1 && ByKey(s, lengths) && a < b < |Buckets(s, size)|
    ensures forall x, y :: x in Buckets(s, size)[a] && y in Buckets(s, size)[b] && x < |lengths| && y < |lengths| ==>
      lengths[x] <= lengths[y]
    decreases |s|
  {
    var rest := s[size..];
    if a > 0 {
      BucketsContiguous(rest, size, lengths, a - 1, b - 1);
    } else {
      BucketsConcat(rest, size);
      PartInConcat(Buckets(rest, size), b - 1);
      HeadContiguous(s, size, lengths);
    }
  }

  lemma HeadContiguous(s: seq<nat>, size: nat, lengths: seq<nat>)
    requires size <= |s| && ByKey(s, lengths)
    ensures forall x, y :: x in s[..size] && y in s[size..] && x < |lengths| && y < |lengths| ==> lengths[x] <= lengths[y]
  {
    forall x, y | x in s[..size] && y in s[size..] && x < |lengths| && y < |lengths| ensures lengths[x] <= lengths[y] {
      var i :| 0 <= i < size && s[i] == x;
      var j :| size <= j < |s| && s[j] == y;
      assert Precedes(s[i], s[j], lengths);
    }
  }

  /** Cut from the dataset's own length order, buckets are contiguous in length. */
  lemma DatasetBucketsContiguous(lengths: seq<nat>, size: nat, a: nat, b: nat)
    requires size >= 1 && a < b < |Buckets(SortedFrom(0, lengths), size)|
    ensures var buckets := Buckets(SortedFrom(0, lengths), size);
      forall x, y :: x in buckets[a] && y in buckets[b] ==> x < |lengths| && y < |lengths| && lengths[x] <= lengths[y]
  {
    hide ByKey, Buckets;
    var s := SortedFrom(0, lengths);
    SortedIsByKey(0, lengths);
    BucketsContiguous(s, size, lengths, a, b);
    BucketsConcat(s, size);
    PartInConcat(Buckets(s, size), a);
    PartInConcat(Buckets(s, size), b);
  }

  lemma {:induction false} PartInConcat(parts: seq<seq<nat>>, k: nat)
    requires k < |parts|
    ensures forall x :: x in parts[k] ==> x in Concat(parts)
    decreases |parts|
  {
    if k > 0 {
      PartInConcat(parts[1..], k - 1);
    }
  }

  // ---------------------------------------------------------------- shuffling

  /** One epoch's randperm results: the order of the buckets, and the order inside each visited bucket. */
  datatype Draws = Draws(order: seq<nat>, inner: seq<seq<nat>>)

  ghost predicate GoodDraws(d: Draws, buckets: seq<seq<nat>>) {
    && Permutes(d.order, |buckets|) && |d.inner| == |buckets| && |d.order| == |buckets|
    && forall k :: 0 <= k < |buckets| ==> d.order[k] < |buckets| && Permutes(d.inner[k], |buckets[d.order[k]]|)
  }

  /** The visited buckets, each in its drawn order. */
  ghost function Visited(d: Draws, buckets: seq<seq<nat>>): seq<seq<nat>>
    requires GoodDraws(d, buckets)
  {
    seq(|buckets|, k requires 0 <= k < |buckets| =>
      PickPermutes(buckets[d.order[k]], d.inner[k]);
      Pick(buckets[d.order[k]], d.inner[k]))
  }

  /** The order the sampler emits before it pads or truncates. */
  ghost function Emitted(lengths: seq<nat>, size: nat, shuffle: bool, d: Draws): seq<nat>
    requires size >= 1 && GoodDraws(d, Buckets(SortedFrom(0, lengths), size))
  {
    var buckets := Buckets(SortedFrom(0, lengths), size);
    Concat(if shuffle then Visited(d, buckets) else buckets)
  }

  /** The emitted order is a permutation of the dataset, made of whole buckets each in some order. */
  lemma EmittedPermutes(lengths: seq<nat>, size: nat, shuffle: bool, d: Draws)
    requires size >= 1 && GoodDraws(d, Buckets(SortedFrom(0, lengths), size))
    ensures Permutes(Emitted(lengths, size, shuffle, d), |lengths|)
    ensures forall k :: 0 <= k < |d.order| ==>
      multiset(Visited(d, Buckets(SortedFrom(0, lengths), size))[k]) == multiset(Buckets(SortedFrom(0, lengths), size)[d.order[k]])
  {
    hide Buckets, SortedFrom, GoodDraws, Concat, Visited, Pick;
    var sorted := SortedFrom(0, lengths);
    SortedKeepsAll(0, lengths);
    assert Range(|lengths|)[0..] == Range(|lengths|);
    BucketsConcat(sorted, size);
    VisitedKeeps(d, Buckets(sorted, size));
  }

  /** Without shuffling the dataset is read in its length order; with it, bucket after bucket in the drawn order, and each
      bucket in its own. */
  lemma EmittedOrder(lengths: seq<nat>, size: nat, d: Draws)
    requires size >= 1 && GoodDraws(d, Buckets(SortedFrom(0, lengths), size))
    ensures Emitted(lengths, size, false, d) == SortedFrom(0, lengths)
    ensures var buckets := Buckets(SortedFrom(0, lengths), size);
      exists parts: seq<seq<nat>> ::
        && Emitted(lengths, size, true, d) == Concat(parts) && |parts| == |d.order|
        && forall k :: 0 <= k < |parts| ==>
             && d.order[k] < |buckets| && |parts[k]| == |buckets[d.order[k]]| == |d.inner[k]|
             && forall i :: 0 <= i < |parts[k]| ==>
                  d.inner[k][i] < |buckets[d.order[k]]| && parts[k][i] == buckets[d.order[k]][d.inner[k][i]]
  {
    hide Buckets, SortedFrom, Concat, Permutes;
    var buckets := Buckets(SortedFrom(0, lengths), size);
    BucketsConcat(SortedFrom(0, lengths), size);
    var parts := Visited(d, buckets);
    forall k | 0 <= k < |buckets|
      ensures |parts[k]| == |buckets[d.order[k]]| == |d.inner[k]|
      ensures forall i :: 0 <= i < |parts[k]| ==>
        d.inner[k][i] < |buckets[d.order[k]]| && parts[k][i] == buckets[d.order[k]][d.inner[k][i]]
    {
      PickPermutes(buckets[d.order[k]], d.inner[k]);
      PermutesLength(d.inner[k], |buckets[d.order[k]]|);
    }
  }

  /** Visiting the buckets keeps every element, bucket by bucket and in all. */
  lemma VisitedKeeps(d: Draws, buckets: seq<seq<nat>>)
    requires GoodDraws(d, buckets)
    ensures |d.order| == |Visited(d, buckets)| == |buckets|
    ensures forall k :: 0 <= k < |d.order| ==> d.order[k] < |buckets|
    ensures forall k :: 0 <= k < |d.order| ==> multiset(Visited(d, buckets)[k]) == multiset(buckets[d.order[k]])
    ensures multiset(Concat(Visited(d, buckets))) == multiset(Concat(buckets))
  {
    hide Concat, Permutes;
    var visited := Visited(d, buckets);
    PickPermutes(buckets, d.order);
    var ordered := Pick(buckets, d.order);
    forall k | 0 <= k < |buckets| ensures multiset(visited[k]) == multiset(ordered[k]) {
      PickPermutes(buckets[d.order[k]], d.inner[k]);
    }
    ConcatSame(ordered, buckets);
    ConcatInner(visited, ordered);
  }

  // ---------------------------------------------------------------- the replicas' slices

  function PerReplica(n: nat, replicas: nat, dropLast: bool): nat
    requires replicas >= 1
  {
    if dropLast then n / replicas else (n + replicas - 1) / replicas
  }

  function Cyclic(s: seq<nat>, count: nat): seq<nat>
    requires s != []
  {
    seq(count, i requires 0 <= i < count => s[i % |s|])
  }

  lemma PerReplicaBounds(n: nat, replicas: nat)
    requires replicas >= 1
    ensures n / replicas * replicas <= n < n / replicas * replicas + replicas
    ensures n <= (n + replicas - 1) / replicas * replicas < n + replicas
  {
  }

  /** The emitted order truncated, or padded by repeating it from the start, to a multiple of the replicas. */
  function Levelled(s: seq<nat>, replicas: nat, dropLast: bool): (r: seq<nat>)
    requires replicas >= 1
    ensures |r| == PerReplica(|s|, replicas, dropLast) * replicas
  {
    PerReplicaBounds(|s|, replicas);
    var total := PerReplica(|s|, replicas, dropLast) * replicas;
    if dropLast then s[..total]
    else if s == [] then s
    else s + Cyclic(s, total - |s|)
  }

  /** The place of the levelled order that replica `rank` reads as its j-th sample. */
  function Place(rank: nat, j: nat, replicas: nat): nat {
    rank + j * replicas
  }

  lemma PlaceBound(rank: nat, j: nat, replicas: nat, count: nat)
    requires rank < replicas && j < count
    ensures Place(rank, j, replicas) < count * replicas
  {
    Monotone(j + 1, count, replicas);
  }

  /** indices[rank : total : replicas] */
  function RankSlice(s: seq<nat>, rank: nat, replicas: nat): (r: seq<nat>)
    requires rank < replicas && |s| % replicas == 0
    ensures |r| == |s| / replicas
  {
    var count := |s| / replicas;
    seq(count, j requires 0 <= j < count =>
      PlaceBound(rank, j, replicas, count);
      assert count * replicas == |s|;
      s[Place(rank, j, replicas)])
  }

  lemma LevelledDivides(s: seq<nat>, replicas: nat, dropLast: bool)
    requires replicas >= 1
    ensures |Levelled(s, replicas, dropLast)| % replicas == 0
    ensures |Levelled(s, replicas, dropLast)| / replicas == PerReplica(|s|, replicas, dropLast)
  {
    DivModUnique(|Levelled(s, replicas, dropLast)|, replicas, PerReplica(|s|, replicas, dropLast), 0);
  }

  /** Two replicas never read the same place, and none reads a place twice. */
  lemma PlacesDiffer(rank: nat, j: nat, rank2: nat, j2: nat, replicas: nat)
    requires rank < replicas && rank2 < replicas && Place(rank, j, replicas) == Place(rank2, j2, replicas)
    ensures rank == rank2 && j == j2
  {
    var p := Place(rank, j, replicas);
    DivModUnique(p, replicas, j, rank);
    DivModUnique(p, replicas, j2, rank2);
  }

  /** Every place of the levelled order is read by some replica. */
  lemma PlaceRead(s: seq<nat>, replicas: nat, p: nat)
    requires replicas >= 1 && |s| % replicas == 0 && p < |s|
    ensures var rank, j := p % replicas, p / replicas;
      && rank < replicas && j < |s| / replicas && Place(rank, j, replicas) == p
      && RankSlice(s, rank, replicas)[j] == s[p]
  {
    var j, count := p / replicas, |s| / replicas;
    assert p == j * replicas + p % replicas && |s| == count * replicas;
    if j >= count {
      Monotone(count, j, replicas);
    }
  }

  lemma NothingLevelled(replicas: nat, dropLast: bool)
    requires replicas >= 1
    ensures Levelled([], replicas, dropLast) == []
  {
    DivModUnique(0, replicas, 0, 0);
    DivModUnique(replicas - 1, replicas, 0, replicas - 1);
  }

  /** The levelled order repeats the emitted order cyclically, by less than one round of the replicas; truncated,
      it is a prefix of it that leaves out less than one round. */
  lemma LevelledCyclic(s: seq<nat>, replicas: nat, dropLast: bool)
    requires replicas >= 1
    ensures var r := Levelled(s, replicas, dropLast);
      && (s == [] ==> r == [])
      && (forall p :: 0 <= p < |r| && s != [] ==> r[p] == s[p % |s|])
      && (if dropLast then |r| <= |s| < |r| + replicas else |s| <= |r| < |s| + replicas)
  {
    NothingLevelled(replicas, dropLast);
    PerReplicaBounds(|s|, replicas);
    var r, n := Levelled(s, replicas, dropLast), |s|;
    forall p | 0 <= p < |r| && s != [] ensures r[p] == s[p % |s|] {
      if p < n {
        DivModUnique(p, n, 0, p);
      } else {
        ModAdds(p - n, n);
      }
    }
  }

  // ---------------------------------------------------------------- whole epochs

  /** The samples replica `rank` reads in an epoch with these draws. */
  ghost function Samples(lengths: seq<nat>, size: nat, shuffle: bool, d: Draws, replicas: nat, dropLast: bool, rank: nat): seq<nat>
    requires size >= 1 && GoodDraws(d, Buckets(SortedFrom(0, lengths), size)) && rank < replicas
  {
    var emitted := Emitted(lengths, size, shuffle, d);
    LevelledDivides(emitted, replicas, dropLast);
    RankSlice(Levelled(emitted, replicas, dropLast), rank, replicas)
  }

  lemma SamplesLength(lengths: seq<nat>, size: nat, shuffle: bool, d: Draws, replicas: nat, dropLast: bool, rank: nat)
    requires size >= 1 && GoodDraws(d, Buckets(SortedFrom(0, lengths), size)) && rank < replicas
    ensures |Samples(lengths, size, shuffle, d, replicas, dropLast, rank)| == PerReplica(|lengths|, replicas, dropLast)
  {
    EmittedPermutes(lengths, size, shuffle, d);
    PermutesLength(Emitted(lengths, size, shuffle, d), |lengths|);
    LevelledDivides(Emitted(lengths, size, shuffle, d), replicas, dropLast);
  }

  lemma SamplesAre(lengths: seq<nat>, size: nat, shuffle: bool, d: Draws, replicas: nat, dropLast: bool, rank: nat)
    requires size >= 1 && GoodDraws(d, Buckets(SortedFrom(0, lengths), size)) && rank < replicas
    ensures var full := Levelled(Emitted(lengths, size, shuffle, d), replicas, dropLast);
      |full| % replicas == 0 && Samples(lengths, size, shuffle, d, replicas, dropLast, rank) == RankSlice(full, rank, replicas)
  {
    hide Emitted, GoodDraws, Levelled, SortedFrom, Buckets, RankSlice;
    LevelledDivides(Emitted(lengths, size, shuffle, d), replicas, dropLast);
  }

  /** Replica `rank` reads index `x` as its j-th sample of the epoch. */
  ghost predicate ReadAt(lengths: seq<nat>, size: nat, shuffle: bool, d: Draws, replicas: nat, dropLast: bool, x: nat, rank: nat, j: nat)
    requires size >= 1 && GoodDraws(d, Buckets(SortedFrom(0, lengths), size)) && replicas >= 1
  {
    && rank < replicas && j < PerReplica(|lengths|, replicas, dropLast)
    && j < |Samples(lengths, size, shuffle, d, replicas, dropLast, rank)|
    && Samples(lengths, size, shuffle, d, replicas, dropLast, rank)[j] == x
  }

  /** Without dropping, every index of the dataset is read by some replica. */
  lemma NothingMissed(lengths: seq<nat>, size: nat, shuffle: bool, d: Draws, replicas: nat, x: nat)
    requires size >= 1 && GoodDraws(d, Buckets(SortedFrom(0, lengths), size)) && replicas >= 1 && x < |lengths|
    ensures exists rank, j :: ReadAt(lengths, size, shuffle, d, replicas, false, x, rank, j)
  {
    hide Emitted, GoodDraws, Levelled, SortedFrom, Buckets, RankSlice, Permutes, Place, PerReplica, Samples;
    var emitted := Emitted(lengths, size, shuffle, d);
    var full := Levelled(emitted, replicas, false);
    EmittedPermutes(lengths, size, shuffle, d);
    PermutesLength(emitted, |lengths|);
    PermutesCovers(emitted, |lengths|, x);
    var i :| 0 <= i < |emitted| && emitted[i] == x;
    LevelledCyclic(emitted, replicas, false);
    DivModUnique(i, |emitted|, 0, i);
    LevelledDivides(emitted, replicas, false);
    PlaceRead(full, replicas, i);
    SamplesLength(lengths, size, shuffle, d, replicas, false, i % replicas);
    SamplesAre(lengths, size, shuffle, d, replicas, false, i % replicas);
    assert ReadAt(lengths, size, shuffle, d, replicas, false, x, i % replicas, i / replicas);
  }

  /** With dropping, no index is read twice in an epoch, by one replica or by two. */
  lemma NothingRepeated(lengths: seq<nat>, size: nat, shuffle: bool, d: Draws, replicas: nat, x: nat, rank: nat, j: nat, rank2: nat, j2: nat)
    requires size >= 1 && GoodDraws(d, Buckets(SortedFrom(0, lengths), size)) && replicas >= 1
    requires ReadAt(lengths, size, shuffle, d, replicas, true, x, rank, j)
    requires ReadAt(lengths, size, shuffle, d, replicas, true, x, rank2, j2)
    ensures rank == rank2 && j == j2
  {
    hide Emitted, GoodDraws, SortedFrom, Buckets;
    var n := |lengths|;
    var emitted := Emitted(lengths, size, shuffle, d);
    EmittedPermutes(lengths, size, shuffle, d);
    PermutesLength(emitted, n);
    PerReplicaBounds(n, replicas);
    PlaceBound(rank, j, replicas, n / replicas);
    PlaceBound(rank2, j2, replicas, n / replicas);
    LevelledDivides(emitted, replicas, true);
    PermutesDistinct(emitted, n, Place(rank, j, replicas), Place(rank2, j2, replicas));
    PlacesDiffer(rank, j, rank2, j2, replicas);
  }

  /** When the replicas divide the dataset, dropping drops nothing: every index is read. */
  lemma NothingDropped(lengths: seq<nat>, size: nat, shuffle: bool, d: Draws, replicas: nat, x: nat)
    requires size >= 1 && GoodDraws(d, Buckets(SortedFrom(0, lengths), size))
    requires replicas >= 1 && |lengths| % replicas == 0 && x < |lengths|
    ensures exists rank, j :: ReadAt(lengths, size, shuffle, d, replicas, true, x, rank, j)
  {
    hide Emitted, GoodDraws, Levelled, SortedFrom, Buckets;
    var emitted := Emitted(lengths, size, shuffle, d);
    EmittedPermutes(lengths, size, shuffle, d);
    PermutesLength(emitted, |lengths|);
    WholeWhenDivided(emitted, replicas);
    PermutesCovers(emitted, |lengths|, x);
    var i :| 0 <= i < |emitted| && emitted[i] == x;
    PlaceRead(emitted, replicas, i);
    assert ReadAt(lengths, size, shuffle, d, replicas, true, x, i % replicas, i / replicas);
  }

  lemma WholeWhenDivided(s: seq<nat>, replicas: nat)
    requires replicas >= 1 && |s| % replicas == 0
    ensures Levelled(s, replicas, true) == s && |s| / replicas * replicas == |s|
  {
  }

  // ---------------------------------------------------------------- from selected rows to the replicas

  lemma DividesThrough(a: nat, b: nat, w: nat, m: nat)
    requires w >= 1 && m >= 1 && w * m >= 1 && b >= 1 && b % (w * m) == 0 && a % b == 0
    ensures b % w == 0 && a % w == 0 && b / w >= 1 && (a / w) % (b / w) == 0
  {
    Parts(b, w * m);
    Parts(a, b);
    Regroup(b / (w * m), w, m);
    Factored(a, b, w, b / (w * m) * m, a / b);
  }

  lemma Factored(a: nat, b: nat, w: nat, x: nat, q: nat)
    requires w >= 1 && b >= 1 && b == x * w && a == q * b
    ensures b % w == 0 && a % w == 0 && b / w >= 1 && (a / w) % (b / w) == 0
  {
    NonZeroFactor(x, w);
    Regroup2(q, x, w);
    DivModUnique(b, w, x, 0);
    DivModUnique(a, w, q * x, 0);
    MultipleHasNoRest(q, x);
  }

  lemma NonZeroFactor(x: nat, w: nat)
    ensures x * w >= 1 ==> x >= 1
  {
  }

  lemma Regroup(k: nat, w: nat, m: nat)
    ensures k * (w * m) == (k * m) * w
  {
  }

  lemma Regroup2(q: nat, x: nat, w: nat)
    ensures q * (x * w) == (q * x) * w
  {
  }

  /** Index `x` is read at one place of one replica's epoch, and nowhere else. */
  ghost predicate ReadOnce(lengths: seq<nat>, size: nat, shuffle: bool, d: Draws, replicas: nat, x: nat)
    requires size >= 1 && GoodDraws(d, Buckets(SortedFrom(0, lengths), size)) && replicas >= 1
  {
    && (exists rank, j :: ReadAt(lengths, size, shuffle, d, replicas, true, x, rank, j))
    && forall rank, j, rank2, j2 ::
         ReadAt(lengths, size, shuffle, d, replicas, true, x, rank, j) && ReadAt(lengths, size, shuffle, d, replicas, true, x, rank2, j2)
         ==> rank == rank2 && j == j2
  }

  lemma DividedIsReadOnce(lengths: seq<nat>, size: nat, shuffle: bool, d: Draws, replicas: nat, x: nat)
    requires size >= 1 && GoodDraws(d, Buckets(SortedFrom(0, lengths), size))
    requires replicas >= 1 && |lengths| % replicas == 0 && x < |lengths|
    ensures ReadOnce(lengths, size, shuffle, d, replicas, x)
  {
    hide ReadAt, GoodDraws, Buckets, SortedFrom;
    NothingDropped(lengths, size, shuffle, d, replicas, x);
    forall rank, j, rank2, j2 |
      ReadAt(lengths, size, shuffle, d, replicas, true, x, rank, j) && ReadAt(lengths, size, shuffle, d, replicas, true, x, rank2, j2)
      ensures rank == rank2 && j == j2
    {
      NothingRepeated(lengths, size, shuffle, d, replicas, x, rank, j, rank2, j2);
    }
  }

  /** Selected rows reach the replicas without loss: with at least one micro-batch per replica, the upsampled rows
      split evenly into whole batches per replica, and every one of them is read exactly once per epoch, whatever
      was drawn. */
  lemma RowsReachReplicas<T>(rows: seq<T>, requested: nat, worldSize: nat, microBatch: nat, batch: nat,
                             lengths: seq<nat>, size: nat, shuffle: bool, d: Draws, rank: nat, x: nat)
    requires requested >= 1 && worldSize >= 1 && microBatch >= 1 && rows != []
    requires EffectiveBatch(requested, |rows|, worldSize, microBatch) == Some(batch)
    requires size >= 1 && GoodDraws(d, Buckets(SortedFrom(0, lengths), size)) && |lengths| == |Upsampled(rows, batch)|
    requires rank < worldSize && x < |lengths|
    ensures batch % worldSize == 0 && batch / worldSize >= 1
    ensures |Samples(lengths, size, shuffle, d, worldSize, true, rank)| == |lengths| / worldSize
    ensures (|lengths| / worldSize) % (batch / worldSize) == 0
    ensures ReadOnce(lengths, size, shuffle, d, worldSize, x)
  {
    hide Samples, GoodDraws, SortedFrom, Buckets, EffectiveBatch, Upsampled, ReadAt, ReadOnce;
    EffectiveBatchExact(requested, |rows|, worldSize, microBatch);
    UpsampledExact(rows, batch);
    DividesThrough(|lengths|, batch, worldSize, microBatch);
    SamplesLength(lengths, size, shuffle, d, worldSize, true, rank);
    DividedIsReadOnce(lengths, size, shuffle, d, worldSize, x);
  }
}
