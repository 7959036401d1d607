/** list.sort with a key: the indexes of a list in key order, equal keys in index order, as a function and its
    properties. */
module StableSort {
  import opened Permutations

  function InsertByKey(i: nat, sorted: seq<nat>, keys: seq<nat>): seq<nat>
    requires i < |keys| && forall k :: 0 <= k < |sorted| ==> sorted[k] < |keys|
  {
    if sorted == [] || keys[i] <= keys[sorted[0]] then [i] + sorted
    else [sorted[0]] + InsertByKey(i, sorted[1..], keys)
  }

  /** The indexes from `k` on, stably sorted by their keys. */
  function SortedFrom(k: nat, keys: seq<nat>): (r: seq<nat>)
    requires k <= |keys|
    ensures forall j :: 0 <= j < |r| ==> k <= r[j] < |keys|
    decreases |keys| - k
  {
    if k == |keys| then []
    else
      var rest := SortedFrom(k + 1, keys);
      InsertKeepsAll(k, rest, keys);
      InsertByKey(k, rest, keys)
  }

  lemma {:induction false} SortedKeepsAll(k: nat, keys: seq<nat>)
    requires k <= |keys|
    ensures multiset(SortedFrom(k, keys)) == multiset(Range(|keys|)[k..])
    decreases |keys| - k
  {
    if k < |keys| {
      SortedKeepsAll(k + 1, keys);
      SortedStep(k, keys);
      RangeStep(k, |keys|);
    }
  }

  lemma SortedStep(k: nat, keys: seq<nat>)
    requires k < |keys|
    ensures multiset(SortedFrom(k, keys)) == multiset{k} + multiset(SortedFrom(k + 1, keys))
  {
    hide InsertByKey;
    InsertKeepsAll(k, SortedFrom(k + 1, keys), keys);
  }

  lemma RangeStep(k: nat, n: nat)
    requires k < n
    ensures multiset(Range(n)[k..]) == multiset{k} + multiset(Range(n)[k + 1..])
  {
    assert Range(n)[k..] == [k] + Range(n)[k + 1..];
  }

  lemma {:induction false} InsertKeepsAll(i: nat, sorted: seq<nat>, keys: seq<nat>)
    requires i < |keys| && forall k :: 0 <= k < |sorted| ==> sorted[k] < |keys|
    ensures multiset(InsertByKey(i, sorted, keys)) == multiset{i} + multiset(sorted)
    ensures var r := InsertByKey(i, sorted, keys); forall j :: 0 <= j < |r| ==> r[j] == i || r[j] in sorted
    decreases |sorted|
  {
    if sorted != [] && keys[i] > keys[sorted[0]] {
      InsertKeepsAll(i, sorted[1..], keys);
      assert sorted == [sorted[0]] + sorted[1..];
    }
  }

  /** Smaller key first, and equal keys in index order. */
  predicate Precedes(a: nat, b: nat, keys: seq<nat>)
    requires a < |keys| && b < |keys|
  {
    keys[a] < keys[b] || (keys[a] == keys[b] && a < b)
  }

  predicate ByKey(s: seq<nat>, keys: seq<nat>) {
    (forall i :: 0 <= i < |s| ==> s[i] < |keys|)
    && forall i, j :: 0 <= i < j < |s| ==> Precedes(s[i], s[j], keys)
  }

  lemma {:induction false} InsertSorted(i: nat, sorted: seq<nat>, keys: seq<nat>)
    requires i < |keys| && ByKey(sorted, keys) && forall k :: 0 <= k < |sorted| ==> i < sorted[k]
    ensures ByKey(InsertByKey(i, sorted, keys), keys)
    decreases |sorted|
  {
    if sorted != [] && keys[i] > keys[sorted[0]] {
      InsertSorted(i, sorted[1..], keys);
      var r := InsertByKey(i, sorted[1..], keys);
      InsertKeepsAll(i, sorted[1..], keys);
      forall j | 0 <= j < |r| ensures Precedes(sorted[0], r[j], keys) {
        if r[j] != i {
          var m :| 0 <= m < |sorted[1..]| && sorted[1..][m] == r[j];
        }
      }
    }
  }

  lemma {:induction false} SortedIsByKey(k: nat, keys: seq<nat>)
    requires k <= |keys|
    ensures ByKey(SortedFrom(k, keys), keys)
    decreases |keys| - k
  {
    if k < |keys| {
      SortedIsByKey(k + 1, keys);
      InsertSorted(k, SortedFrom(k + 1, keys), keys);
    }
  }
}
