/** Ranges, permutations and concatenations, compared by multiplicity: what reordering, picking and cutting leave
    unchanged. */
module Permutations {
  function Range(n: nat): (r: seq<nat>)
    ensures |r| == n && forall i :: 0 <= i < n ==> r[i] == i
  {
    seq(n, i requires 0 <= i < n => i)
  }

  /** `s` holds each of 0..n-1 exactly once. */
  ghost predicate Permutes(s: seq<nat>, n: nat) {
    multiset(s) == multiset(Range(n))
  }

  predicate Ascending(s: seq<nat>) {
    forall i, j :: 0 <= i < j < |s| ==> s[i] < s[j]
  }

  function Concat<T>(parts: seq<seq<T>>): seq<T> {
    if parts == [] then [] else parts[0] + Concat(parts[1..])
  }

  /** The elements of `s` in the order `order` names them. */
  function Pick<T>(s: seq<T>, order: seq<nat>): seq<T>
    requires forall i :: 0 <= i < |order| ==> order[i] < |s|
  {
    seq(|order|, i requires 0 <= i < |order| => s[order[i]])
  }

  lemma RangeGrows(n: nat)
    ensures Range(n + 1) == Range(n) + [n]
  {
  }

  lemma {:induction false} RangeCounts(n: nat)
    ensures forall x: nat :: multiset(Range(n))[x] == if x < n then 1 else 0
    decreases n
  {
    if n > 0 {
      RangeCounts(n - 1);
      RangeGrows(n - 1);
    } else {
      assert Range(0) == [];
    }
  }

  lemma PermutesLength(s: seq<nat>, n: nat)
    requires Permutes(s, n)
    ensures |s| == n
  {
    assert |multiset(s)| == |s| && |multiset(Range(n))| == n;
  }

  /** Each value below `n` stands at some place. */
  lemma PermutesCovers(s: seq<nat>, n: nat, x: nat)
    requires Permutes(s, n) && x < n
    ensures exists i :: 0 <= i < |s| && s[i] == x
  {
    RangeCounts(n);
    assert x in multiset(s);
  }

  lemma PermutesBound(s: seq<nat>, n: nat, i: nat)
    requires Permutes(s, n) && i < |s|
    ensures s[i] < n
  {
    RangeCounts(n);
    assert s[i] in multiset(s);
  }

  /** No value stands at two places. */
  lemma PermutesDistinct(s: seq<nat>, n: nat, i: nat, j: nat)
    requires Permutes(s, n) && i < |s| && j < |s| && s[i] == s[j]
    ensures i == j
  {
    RangeCounts(n);
    PermutesBound(s, n, i);
    if i < j {
      TwiceCounted(s, i, j);
    } else if j < i {
      TwiceCounted(s, j, i);
    }
  }

  lemma TwiceCounted(s: seq<nat>, a: nat, b: nat)
    requires a < b < |s| && s[a] == s[b]
    ensures multiset(s)[s[a]] >= 2
  {
    assert s == s[..a] + [s[a]] + s[a + 1..b] + [s[b]] + s[b + 1..];
  }

  lemma RemoveAt<T>(s: seq<T>, j: nat)
    requires j < |s|
    ensures multiset(s[..j] + s[j + 1..]) == multiset(s) - multiset{s[j]}
  {
    assert s == s[..j] + [s[j]] + s[j + 1..];
  }

  lemma HeadOff<T>(s: seq<T>)
    requires s != []
    ensures multiset(s[1..]) == multiset(s) - multiset{s[0]}
  {
    assert s == [s[0]] + s[1..];
  }

  lemma PickHead<T>(s: seq<T>, a: seq<nat>)
    requires a != [] && forall i :: 0 <= i < |a| ==> a[i] < |s|
    ensures multiset(Pick(s, a)) == multiset{s[a[0]]} + multiset(Pick(s, a[1..]))
  {
    assert Pick(s, a) == [s[a[0]]] + Pick(s, a[1..]);
  }

  lemma PickRemove<T>(s: seq<T>, b: seq<nat>, j: nat)
    requires j < |b| && forall i :: 0 <= i < |b| ==> b[i] < |s|
    ensures var rest := b[..j] + b[j + 1..];
      (forall i :: 0 <= i < |rest| ==> rest[i] < |s|)
      && multiset(Pick(s, b)) == multiset{s[b[j]]} + multiset(Pick(s, rest))
  {
    var p, rest := Pick(s, b), b[..j] + b[j + 1..];
    assert Pick(s, rest) == p[..j] + p[j + 1..];
    assert p == p[..j] + [p[j]] + p[j + 1..];
  }

  /** Picking in two orders with the same indexes gives the same elements. */
  lemma {:induction false} PickSame<T>(s: seq<T>, a: seq<nat>, b: seq<nat>)
    requires multiset(a) == multiset(b)
    requires forall i :: 0 <= i < |a| ==> a[i] < |s|
    requires forall i :: 0 <= i < |b| ==> b[i] < |s|
    ensures multiset(Pick(s, a)) == multiset(Pick(s, b))
    decreases |a|
  {
    hide Pick;
    assert |a| == |multiset(a)| == |multiset(b)| == |b|;
    if a != [] {
      assert a[0] in multiset(b);
      var j :| 0 <= j < |b| && b[j] == a[0];
      HeadOff(a);
      RemoveAt(b, j);
      PickHead(s, a);
      PickRemove(s, b, j);
      PickSame(s, a[1..], b[..j] + b[j + 1..]);
    } else {
      assert b == [];
    }
  }

  lemma PickAll<T>(s: seq<T>)
    ensures Pick(s, Range(|s|)) == s
  {
  }

  /** A permutation of the indexes permutes the elements. */
  lemma PickPermutes<T>(s: seq<T>, order: seq<nat>)
    requires Permutes(order, |s|)
    ensures forall i :: 0 <= i < |order| ==> order[i] < |s|
    ensures multiset(Pick(s, order)) == multiset(s)
  {
    forall i | 0 <= i < |order| ensures order[i] < |s| {
      PermutesBound(order, |s|, i);
    }
    PickSame(s, order, Range(|s|));
    PickAll(s);
  }

  lemma {:induction false} ConcatSplit<T>(a: seq<seq<T>>, b: seq<seq<T>>)
    ensures Concat(a + b) == Concat(a) + Concat(b)
    decreases |a|
  {
    if a == [] {
      assert a + b == b;
    } else {
      assert (a + b)[0] == a[0] && (a + b)[1..] == a[1..] + b;
      ConcatSplit(a[1..], b);
    }
  }

  lemma ConcatRemove<T>(parts: seq<seq<T>>, j: nat)
    requires j < |parts|
    ensures multiset(Concat(parts)) == multiset(parts[j]) + multiset(Concat(parts[..j] + parts[j + 1..]))
  {
    hide Concat;
    var before, after := parts[..j], parts[j + 1..];
    ConcatSplit(before, after);
    ConcatSplit(before, [parts[j]] + after);
    ConcatSplit([parts[j]], after);
    OnePart(parts[j]);
    assert parts == before + ([parts[j]] + after);
  }

  lemma OnePart<T>(part: seq<T>)
    ensures Concat([part]) == part
  {
    assert Concat([part]) == part + Concat([part][1..]);
  }

  /** Reordering the parts keeps the elements. */
  lemma {:induction false} ConcatSame<T>(a: seq<seq<T>>, b: seq<seq<T>>)
    requires multiset(a) == multiset(b)
    ensures multiset(Concat(a)) == multiset(Concat(b))
    decreases |a|
  {
    hide Concat;
    assert |a| == |multiset(a)| == |multiset(b)| == |b|;
    if a == [] {
      assert b == [];
    } else {
      assert a[0] in multiset(b);
      var j :| 0 <= j < |b| && b[j] == a[0];
      HeadOff(a);
      RemoveAt(b, j);
      ConcatSame(a[1..], b[..j] + b[j + 1..]);
      ConcatRemove(a, 0);
      assert a[..0] + a[1..] == a[1..];
      ConcatRemove(b, j);
    }
  }

  /** Reordering inside the parts keeps the elements. */
  lemma {:induction false} ConcatInner<T>(a: seq<seq<T>>, b: seq<seq<T>>)
    requires |a| == |b| && forall i :: 0 <= i < |a| ==> multiset(a[i]) == multiset(b[i])
    ensures multiset(Concat(a)) == multiset(Concat(b))
    decreases |a|
  {
    if a != [] {
      ConcatInner(a[1..], b[1..]);
    }
  }
}
