/** The sampler class with its epoch, as it is written (src/trainer/rft_token_cache.py), proved to give the samples
    LengthBuckets is about. */
module LengthBucketSampler {
  import opened Text
  import opened Arithmetic
  import opened Permutations
  import opened StableSort
  import opened LengthBuckets

  /** The default bucket holds eight global batches; 0 counts as not given. */
  function BucketSize(given: Option<nat>, batchSize: nat, replicas: nat): nat {
    var global := batchSize * replicas;
    if given.Some? && given.value != 0 then given.value else if global * 8 > global then global * 8 else global
  }

  /** A bucket size that is given and not 0 is used; otherwise a bucket holds eight batches of every replica. */
  lemma BucketSizeExact(given: Option<nat>, batchSize: nat, replicas: nat)
    requires batchSize >= 1 && replicas >= 1
    ensures given.Some? && given.value > 0 ==> BucketSize(given, batchSize, replicas) == given.value
    ensures given in {None, Some(0)} ==> BucketSize(given, batchSize, replicas) == 8 * (batchSize * replicas)
  {
    ProductPositive(batchSize, replicas);
  }

  class LengthBucketDistributedSampler {
    const lengths: seq<nat>
    const numReplicas: nat
    const rank: nat
    const batchSize: nat
    const shuffle: bool
    const seed: int
    const dropLast: bool
    const bucketSize: nat
    const numSamples: nat
    const totalSize: nat
    /** What torch draws from a generator seeded with its argument, for this dataset's buckets. */
    const generator: int -> Draws
    var epoch: int

    ghost predicate Valid() {
      && numReplicas >= 1 && rank < numReplicas && bucketSize >= 1
      && numSamples == PerReplica(|lengths|, numReplicas, dropLast) && totalSize == numSamples * numReplicas
      && forall s: int :: GoodDraws(generator(s), Buckets(SortedFrom(0, lengths), bucketSize))
    }

    constructor (lengths: seq<nat>, numReplicas: nat, rank: nat, batchSize: nat, shuffle: bool, seed: int, dropLast: bool,
                 bucketSize: Option<nat>, generator: int -> Draws)
      requires numReplicas >= 1 && rank < numReplicas && batchSize >= 1
      requires BucketSize(bucketSize, batchSize, numReplicas) >= 1
      requires forall s: int ::
        GoodDraws(generator(s), Buckets(SortedFrom(0, lengths), BucketSize(bucketSize, batchSize, numReplicas)))
      ensures Valid() && epoch == 0 && this.lengths == lengths && this.numReplicas == numReplicas && this.rank == rank
      ensures this.shuffle == shuffle && this.seed == seed && this.dropLast == dropLast && this.generator == generator
      ensures this.bucketSize == BucketSize(bucketSize, batchSize, numReplicas)
    {
      this.lengths, this.numReplicas, this.rank, this.batchSize := lengths, numReplicas, rank, batchSize;
      this.shuffle, this.seed, this.dropLast, this.generator := shuffle, seed, dropLast, generator;
      this.bucketSize := BucketSize(bucketSize, batchSize, numReplicas);
      epoch := 0;
      numSamples := PerReplica(|lengths|, numReplicas, dropLast);
      totalSize := PerReplica(|lengths|, numReplicas, dropLast) * numReplicas;
    }

    method SetEpoch(next: int)
      modifies this`epoch
      ensures epoch == next
    {
      epoch := next;
    }

    /** The shuffling loop: the visited buckets one after the other. */
    method ShuffleBuckets(buckets: seq<seq<nat>>, draws: Draws) returns (shuffled: seq<nat>)
      requires GoodDraws(draws, buckets)
      ensures shuffled == Concat(Visited(draws, buckets))
    {
      shuffled := [];
      ghost var visited := Visited(draws, buckets);
      for k := 0 to |draws.order|
        invariant shuffled == Concat(visited[..k])
      {
        var bucket := buckets[draws.order[k]];
        PickPermutes(bucket, draws.inner[k]);
        assert visited[..k + 1] == visited[..k] + [visited[k]];
        ConcatSplit(visited[..k], [visited[k]]);
        assert Concat([visited[k]]) == visited[k] + Concat([visited[k]][1..]);
        shuffled := shuffled + Pick(bucket, draws.inner[k]);
      }
      assert visited[..|draws.order|] == visited;
    }

    /** Cutting the sorted indexes into buckets. */
    method CutBuckets(indices: seq<nat>) returns (buckets: seq<seq<nat>>)
      requires bucketSize >= 1
      ensures buckets == Buckets(indices, bucketSize)
    {
      buckets := [];
      var offset := 0;
      assert indices[0..] == indices;
      while offset < |indices|
        invariant 0 <= offset
        invariant buckets + (if offset < |indices| then Buckets(indices[offset..], bucketSize) else []) == Buckets(indices, bucketSize)
      {
        var end := if offset + bucketSize < |indices| then offset + bucketSize else |indices|;
        ghost var rest := indices[offset..];
        assert |rest| > bucketSize ==> rest[..bucketSize] == indices[offset..end] && rest[bucketSize..] == indices[end..];
        assert |rest| <= bucketSize ==> rest == indices[offset..end];
        buckets := buckets + [indices[offset..end]];
        offset := offset + bucketSize;
      }
    }

    /** __iter__ */
    method Iterate() returns (samples: seq<nat>)
      requires Valid()
      ensures samples == Samples(lengths, bucketSize, shuffle, generator(seed + epoch), numReplicas, dropLast, rank)
      ensures |samples| == numSamples
    {
      hide GoodDraws, Buckets, SortedFrom, Concat, Visited, Levelled, PerReplica, RankSlice, Permutes;
      var draws := generator(seed + epoch);
      var buckets := CutBuckets(SortedFrom(0, lengths));
      var indices: seq<nat>;
      if shuffle {
        indices := ShuffleBuckets(buckets, draws);
      } else {
        indices := Concat(buckets);
      }
      EmittedPermutes(lengths, bucketSize, shuffle, draws);
      PermutesLength(indices, |lengths|);
      LevelledDivides(indices, numReplicas, dropLast);
      samples := RankSlice(Levelled(indices, numReplicas, dropLast), rank, numReplicas);
    }
  }
}
