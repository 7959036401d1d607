/** Effective batch size and upsampling (src/trainer/rft_runtime_loop.py). */
module BatchArithmetic {
  import opened Text
  import opened Arithmetic

  /** resolve_effective_train_batch_size on inputs it accepts. */
  function EffectiveBatch(requested: nat, selected: nat, worldSize: nat, microBatch: nat): (b: Option<nat>)
    requires requested >= 1 && selected >= 1 && worldSize >= 1 && microBatch >= 1
    ensures b.Some? ==> b.value >= 1
  {
    var divisor := worldSize * microBatch;
    ProductPositive(worldSize, microBatch);
    if selected < divisor then None
    else
      var wanted := if requested > divisor then requested else divisor;
      var maxGlobal := if wanted < selected then wanted else selected;
      var divisible := maxGlobal / divisor * divisor;
      if divisible < 1 then None else Some(divisible)
  }

  /** The largest multiple of `d` that does not exceed `top`. */
  ghost predicate LargestMultiple(b: nat, d: nat, top: nat)
    requires d >= 1
  {
    b % d == 0 && b <= top && forall x: nat :: x % d == 0 && x <= top ==> x <= b
  }

  lemma FloorIsLargest(top: nat, d: nat)
    requires d >= 1
    ensures LargestMultiple(top / d * d, d, top)
  {
    var q := top / d;
    MultipleHasNoRest(q, d);
    forall x: nat | x % d == 0 && x <= top ensures x <= q * d {
      var k := x / d;
      assert x == k * d;
      if k > q {
        assert k * d >= (q + 1) * d by { Monotone(q + 1, k, d); }
      } else {
        Monotone(k, q, d);
      }
    }
  }

  /** No batch exactly when the rows do not fill one micro-batch per replica; otherwise the largest usable one. */
  lemma EffectiveBatchExact(requested: nat, selected: nat, worldSize: nat, microBatch: nat)
    requires requested >= 1 && selected >= 1 && worldSize >= 1 && microBatch >= 1
    ensures worldSize * microBatch >= 1
    ensures var b := EffectiveBatch(requested, selected, worldSize, microBatch);
      var d := worldSize * microBatch;
      var wanted := if requested > d then requested else d;
      && (b.None? <==> selected < d)
      && (b.Some? ==> d <= b.value && LargestMultiple(b.value, d, if wanted < selected then wanted else selected))
  {
    var d := worldSize * microBatch;
    ProductPositive(worldSize, microBatch);
    if selected >= d {
      var wanted := if requested > d then requested else d;
      var top := if wanted < selected then wanted else selected;
      FloorIsLargest(top, d);
      MultipleHasNoRest(1, d);
      assert 1 * d == d && d % d == 0;
    }
  }

  // ---------------------------------------------------------------- upsampling

  /** How many rows upsample_selected_rows_to_batch_multiple adds. */
  function Needed(n: nat, batch: nat): nat
    requires batch >= 1
  {
    if n % batch == 0 then 0 else batch - n % batch
  }

  function CyclicRows<T>(rows: seq<T>, count: nat): seq<T>
    requires rows != []
  {
    seq(count, i requires 0 <= i < count => rows[i % |rows|])
  }

  function Upsampled<T>(rows: seq<T>, batch: nat): seq<T>
    requires rows != [] && batch >= 1
  {
    rows + CyclicRows(rows, Needed(|rows|, batch))
  }

  /** upsample_selected_rows_to_batch_multiple */
  method UpsampleSelectedRows<T>(selected: seq<T>, batch: nat) returns (rows: seq<T>, added: nat)
    requires selected != [] && batch >= 1
    ensures rows == Upsampled(selected, batch) && added == |rows| - |selected|
  {
    rows := selected;
    var remainder := |rows| % batch;
    if remainder == 0 {
      assert CyclicRows(selected, 0) == [];
      return rows, 0;
    }
    added := batch - remainder;
    for index := 0 to added
      invariant rows == selected + CyclicRows(selected, index)
    {
      rows := rows + [selected[index % |selected|]];
    }
  }

  /** The result fills whole batches, adds fewer than one batch, and, with no more rows in a batch than there are
      rows, holds every row once and the first ones twice. */
  lemma UpsampledExact<T>(rows: seq<T>, batch: nat)
    requires rows != [] && batch >= 1
    ensures |Upsampled(rows, batch)| % batch == 0 && |Upsampled(rows, batch)| < |rows| + batch
    ensures batch <= |rows| ==> Upsampled(rows, batch) == rows + rows[..|Upsampled(rows, batch)| - |rows|]
  {
    NeededFills(|rows|, batch);
    hide Needed;
    if batch <= |rows| {
      CyclicPrefix(rows, Needed(|rows|, batch));
    }
  }

  lemma NeededFills(n: nat, batch: nat)
    requires batch >= 1
    ensures (n + Needed(n, batch)) % batch == 0 && Needed(n, batch) < batch
  {
    if n % batch != 0 {
      var q := n / batch;
      assert n + Needed(n, batch) == (q + 1) * batch + 0;
      DivModUnique(n + Needed(n, batch), batch, q + 1, 0);
    }
  }

  lemma CyclicPrefix<T>(rows: seq<T>, count: nat)
    requires rows != [] && count <= |rows|
    ensures CyclicRows(rows, count) == rows[..count]
  {
    forall i | 0 <= i < count ensures CyclicRows(rows, count)[i] == rows[i] {
      DivModUnique(i, |rows|, 0, i);
    }
  }
}
