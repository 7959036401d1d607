/** Student and teacher reward pairs, over real numbers. */
module PairRewards {
  datatype Key = Key(task: string, attempt: int)

  /** A pair record. */
  datatype Pair = Pair(key: Key, student: real, teacher: real, delta: real, missing: bool)

  datatype Summary = Summary(
    count: nat, studentMean: real, teacherMean: real, deltaMean: real, improved: nat, worsened: nat, tied: nat)

  const EMPTY := Summary(0, 0.0, 0.0, 0.0, 0, 0, 0)

  function Sum(values: seq<real>): real {
    if values == [] then 0.0 else Sum(values[..|values| - 1]) + values[|values| - 1]
  }

  function Mean(values: seq<real>): real {
    if values == [] then 0.0 else Sum(values) / |values| as real
  }

  function Students(pairs: seq<Pair>): (r: seq<real>)
    ensures |r| == |pairs|
  {
    seq(|pairs|, i requires 0 <= i < |pairs| => pairs[i].student)
  }

  function Teachers(pairs: seq<Pair>): (r: seq<real>)
    ensures |r| == |pairs|
  {
    seq(|pairs|, i requires 0 <= i < |pairs| => pairs[i].teacher)
  }

  function Deltas(pairs: seq<Pair>): (r: seq<real>)
    ensures |r| == |pairs|
  {
    seq(|pairs|, i requires 0 <= i < |pairs| => pairs[i].delta)
  }

  /** -1, 0 or 1 */
  function Sign(x: real): int {
    if x > 0.0 then 1 else if x < 0.0 then -1 else 0
  }

  function CountSign(values: seq<real>, sign: int): nat {
    if values == [] then 0
    else CountSign(values[..|values| - 1], sign) + (if Sign(values[|values| - 1]) == sign then 1 else 0)
  }

  /** summarize_pair_rewards */
  function Summarize(pairs: seq<Pair>): Summary {
    Summary(|pairs|, Mean(Students(pairs)), Mean(Teachers(pairs)), Mean(Deltas(pairs)),
            CountSign(Deltas(pairs), 1), CountSign(Deltas(pairs), -1), CountSign(Deltas(pairs), 0))
  }

  lemma AddLast(pairs: seq<Pair>, p: Pair)
    ensures Sum(Students(pairs + [p])) == Sum(Students(pairs)) + p.student
    ensures Sum(Teachers(pairs + [p])) == Sum(Teachers(pairs)) + p.teacher
    ensures Sum(Deltas(pairs + [p])) == Sum(Deltas(pairs)) + p.delta
    ensures forall sign :: CountSign(Deltas(pairs + [p]), sign) == CountSign(Deltas(pairs), sign) + (if Sign(p.delta) == sign then 1 else 0)
  {
    var all := pairs + [p];
    assert Students(all)[..|pairs|] == Students(pairs);
    assert Teachers(all)[..|pairs|] == Teachers(pairs);
    assert Deltas(all)[..|pairs|] == Deltas(pairs);
  }

  /** A pair's delta is what the teacher gained. */
  predicate DeltasTrue(pairs: seq<Pair>) {
    forall i :: 0 <= i < |pairs| ==> pairs[i].delta == pairs[i].teacher - pairs[i].student
  }

  lemma {:induction false} DeltaSum(pairs: seq<Pair>)
    requires DeltasTrue(pairs)
    ensures Sum(Deltas(pairs)) == Sum(Teachers(pairs)) - Sum(Students(pairs))
    decreases |pairs|
  {
    if pairs != [] {
      var front, last := pairs[..|pairs| - 1], pairs[|pairs| - 1];
      DeltaSum(front);
      AddLast(front, last);
      assert pairs == front + [last];
    }
  }

  lemma {:induction false} SignsCover(values: seq<real>)
    ensures CountSign(values, 1) + CountSign(values, -1) + CountSign(values, 0) == |values|
    decreases |values|
  {
    if values != [] {
      SignsCover(values[..|values| - 1]);
    }
  }

  /** The summary is consistent: every pair improves, worsens or ties, and the mean gain is the difference of the
      means. */
  lemma SummaryConsistent(pairs: seq<Pair>)
    requires DeltasTrue(pairs)
    ensures var s := Summarize(pairs);
      s.improved + s.worsened + s.tied == s.count && s.deltaMean == s.teacherMean - s.studentMean
  {
    SignsCover(Deltas(pairs));
    DeltaSum(pairs);
    if pairs != [] {
      Quotients(Sum(Teachers(pairs)), Sum(Students(pairs)), |pairs| as real);
    }
  }

  lemma Quotients(a: real, b: real, n: real)
    requires n > 0.0
    ensures (a - b) / n == a / n - b / n
  {
  }

  /** The sum is what it is of one value, and adds up over two lists. */
  lemma {:induction false} SumExact(a: seq<real>, b: seq<real>, x: real)
    ensures Sum([]) == 0.0 && Sum([x]) == x && Sum(a + b) == Sum(a) + Sum(b)
    decreases |b|
  {
    assert [x][..0] == [];
    if b == [] {
      assert a + b == a;
    } else {
      SumExact(a, b[..|b| - 1], x);
      assert (a + b)[..|a + b| - 1] == a + b[..|b| - 1];
    }
  }

  function Where(values: seq<real>, sign: int): set<nat> {
    set i | 0 <= i < |values| && Sign(values[i]) == sign
  }

  lemma {:induction false} SignCount(values: seq<real>, sign: int)
    ensures CountSign(values, sign) == |Where(values, sign)|
    decreases |values|
  {
    hide Sign;
    if values == [] {
      assert Where(values, sign) == {};
    } else {
      var n := |values| - 1;
      SignCount(values[..n], sign);
      assert Where(values, sign) == Where(values[..n], sign) + (if Sign(values[n]) == sign then {n} else {});
    }
  }

  lemma SignIs(x: real)
    ensures (Sign(x) == 1 <==> x > 0.0) && (Sign(x) == -1 <==> x < 0.0) && (Sign(x) == 0 <==> x == 0.0)
  {
  }

  /** The summary counts the pairs in which the teacher's reward is higher, lower and the same, and its means are those
      of the student's and of the teacher's rewards; without pairs they are 0. */
  lemma SummaryExact(pairs: seq<Pair>)
    requires DeltasTrue(pairs)
    ensures var s := Summarize(pairs);
      && s.count == |pairs|
      && s.improved == |set i | 0 <= i < |pairs| && pairs[i].teacher > pairs[i].student|
      && s.worsened == |set i | 0 <= i < |pairs| && pairs[i].teacher < pairs[i].student|
      && s.tied == |set i | 0 <= i < |pairs| && pairs[i].teacher == pairs[i].student|
      && s.studentMean * |pairs| as real == Sum(seq(|pairs|, i requires 0 <= i < |pairs| => pairs[i].student))
      && s.teacherMean * |pairs| as real == Sum(seq(|pairs|, i requires 0 <= i < |pairs| => pairs[i].teacher))
      && (pairs == [] ==> s.studentMean == s.teacherMean == s.deltaMean == 0.0)
  {
    SignSets(pairs);
    assert Students(pairs) == seq(|pairs|, i requires 0 <= i < |pairs| => pairs[i].student);
    assert Teachers(pairs) == seq(|pairs|, i requires 0 <= i < |pairs| => pairs[i].teacher);
    if pairs != [] {
      MeanTimes(Sum(Students(pairs)), |pairs| as real);
      MeanTimes(Sum(Teachers(pairs)), |pairs| as real);
    }
  }

  lemma SignSets(pairs: seq<Pair>)
    requires DeltasTrue(pairs)
    ensures CountSign(Deltas(pairs), 1) == |set i | 0 <= i < |pairs| && pairs[i].teacher > pairs[i].student|
    ensures CountSign(Deltas(pairs), -1) == |set i | 0 <= i < |pairs| && pairs[i].teacher < pairs[i].student|
    ensures CountSign(Deltas(pairs), 0) == |set i | 0 <= i < |pairs| && pairs[i].teacher == pairs[i].student|
  {
    hide Sign, CountSign;
    var d := Deltas(pairs);
    SignCount(d, 1);
    SignCount(d, -1);
    SignCount(d, 0);
    forall i | 0 <= i < |pairs|
      ensures (Sign(d[i]) == 1 <==> pairs[i].teacher > pairs[i].student)
        && (Sign(d[i]) == -1 <==> pairs[i].teacher < pairs[i].student)
        && (Sign(d[i]) == 0 <==> pairs[i].teacher == pairs[i].student)
    {
      SignIs(d[i]);
    }
    assert Where(d, 1) == set i | 0 <= i < |pairs| && pairs[i].teacher > pairs[i].student;
    assert Where(d, -1) == set i | 0 <= i < |pairs| && pairs[i].teacher < pairs[i].student;
    assert Where(d, 0) == set i | 0 <= i < |pairs| && pairs[i].teacher == pairs[i].student;
  }

  lemma MeanTimes(a: real, n: real)
    requires n > 0.0
    ensures a / n * n == a
  {
  }

  /** The running totals of _PairRewardAccumulator. */
  class PairRewardAccumulator {
    var pairCount: nat
    var studentTotal: real
    var teacherTotal: real
    var deltaTotal: real
    var improved: nat
    var worsened: nat
    var tied: nat

    /** The totals are those of the pairs added so far. */
    ghost predicate Totals(pairs: seq<Pair>)
      reads this
    {
      && pairCount == |pairs| && studentTotal == Sum(Students(pairs)) && teacherTotal == Sum(Teachers(pairs))
      && deltaTotal == Sum(Deltas(pairs)) && improved == CountSign(Deltas(pairs), 1)
      && worsened == CountSign(Deltas(pairs), -1) && tied == CountSign(Deltas(pairs), 0)
    }

    constructor ()
      ensures Totals([])
    {
      pairCount, improved, worsened, tied := 0, 0, 0, 0;
      studentTotal, teacherTotal, deltaTotal := 0.0, 0.0, 0.0;
    }

    method Add(p: Pair, ghost before: seq<Pair>)
      requires Totals(before)
      modifies this
      ensures Totals(before + [p])
    {
      AddLast(before, p);
      pairCount := pairCount + 1;
      studentTotal := studentTotal + p.student;
      teacherTotal := teacherTotal + p.teacher;
      deltaTotal := deltaTotal + p.delta;
      if p.delta > 0.0 {
        improved := improved + 1;
      } else if p.delta < 0.0 {
        worsened := worsened + 1;
      } else {
        tied := tied + 1;
      }
    }

    /** The running summary is the batch summary of the pairs added. */
    method Snapshot(ghost pairs: seq<Pair>) returns (s: Summary)
      requires Totals(pairs)
      ensures s == Summarize(pairs)
    {
      if pairCount == 0 {
        return EMPTY;
      }
      var n := pairCount as real;
      return Summary(pairCount, studentTotal / n, teacherTotal / n, deltaTotal / n, improved, worsened, tied);
    }
  }
}
