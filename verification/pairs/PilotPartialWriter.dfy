/** PilotPartialWriter (scripts/run_teacher_reprompt_pilot.py): rows, pairs and summaries written while a long pilot
    runs. Files are line counts: what was handed to the handles and what was flushed. */
module PilotPartialWriter {
  import opened Text
  import opened PairRewards

  datatype Phase = Baseline | Teacher | Other

  datatype Status = Running | Completed | Failed

  /** pilot_summary.json: the status, the row counts and the reward summary. */
  datatype Report = Report(
    status: Status, baselineRows: nat, teacherRows: nat, pairRows: nat, missingTeachers: nat, rewards: Summary)

  /** Lines in the three files. */
  datatype Lines = Lines(baseline: nat, teacher: nat, pairs: nat)

  function Total(l: Lines): nat {
    l.baseline + l.teacher + l.pairs
  }

  function KeysOf(pairs: seq<Pair>): set<Key> {
    set i | 0 <= i < |pairs| :: pairs[i].key
  }

  predicate OncePerKey(pairs: seq<Pair>) {
    forall i, j :: 0 <= i < j < |pairs| ==> pairs[i].key != pairs[j].key
  }

  function KeySet(keys: seq<Key>): set<Key> {
    set i | 0 <= i < |keys| :: keys[i]
  }

  lemma KeysAppend(pairs: seq<Pair>, p: Pair)
    ensures KeysOf(pairs + [p]) == KeysOf(pairs) + {p.key}
    ensures OncePerKey(pairs) && p.key !in KeysOf(pairs) ==> OncePerKey(pairs + [p])
  {
    var all := pairs + [p];
    assert all[|pairs|] == p;
    forall k | k in KeysOf(pairs) ensures k in KeysOf(all) {
      var i :| 0 <= i < |pairs| && pairs[i].key == k;
      assert all[i].key == k;
    }
    if OncePerKey(pairs) && p.key !in KeysOf(pairs) {
      forall i, j | 0 <= i < j < |all| ensures all[i].key != all[j].key {
        if j == |pairs| {
          assert pairs[i].key in KeysOf(pairs);
        }
      }
    }
  }

  lemma KeySetAppend(keys: seq<Key>, k: Key)
    ensures KeySet(keys + [k]) == KeySet(keys) + {k}
  {
    var all := keys + [k];
    assert all[|keys|] == k;
    forall x | x in KeySet(keys) ensures x in KeySet(all) {
      var i :| 0 <= i < |keys| && keys[i] == x;
      assert all[i] == x;
    }
  }

  /** Each report counts only lines that were flushed when it was written. */
  predicate Covered(reports: seq<Report>, flushed: Lines) {
    forall i :: 0 <= i < |reports| ==>
      && reports[i].baselineRows <= flushed.baseline && reports[i].teacherRows <= flushed.teacher
      && reports[i].pairRows <= flushed.pairs
  }

  predicate AtMost(a: Lines, b: Lines) {
    a.baseline <= b.baseline && a.teacher <= b.teacher && a.pairs <= b.pairs
  }

  /** What a teacher never answered is worth nothing. */
  predicate MissingAreZero(pairs: seq<Pair>) {
    forall i :: 0 <= i < |pairs| && pairs[i].missing ==> pairs[i].teacher == 0.0
  }

  /** At most one pair per key, over exactly the paired keys. */
  ghost predicate PairsOk(pairs: seq<Pair>, paired: set<Key>) {
    OncePerKey(pairs) && KeysOf(pairs) == paired && DeltasTrue(pairs) && MissingAreZero(pairs)
  }

  /** Fewer lines than the limit wait for a flush. */
  predicate LinesOk(written: Lines, flushed: Lines, pending: nat, limit: nat) {
    AtMost(flushed, written) && pending == Total(written) - Total(flushed) && pending < limit
  }

  /** Every keyed teacher row is paired, and nothing but keys of rows is. */
  ghost predicate KeysOk(order: seq<Key>, students: set<Key>, teachers: set<Key>, paired: set<Key>, unpaired: set<Key>) {
    KeySet(order) == students && NoRepeats(order) && teachers <= paired + unpaired && paired <= students + teachers
  }

  predicate NoRepeats(keys: seq<Key>) {
    forall i, j :: 0 <= i < j < |keys| ==> keys[i] != keys[j]
  }

  lemma {:induction false} KeySetSize(keys: seq<Key>)
    requires NoRepeats(keys)
    ensures |KeySet(keys)| == |keys|
    decreases |keys|
  {
    if keys == [] {
      assert KeySet(keys) == {};
    } else {
      var front, last := keys[..|keys| - 1], keys[|keys| - 1];
      KeySetSize(front);
      assert keys == front + [last];
      KeySetAppend(front, last);
      assert forall i :: 0 <= i < |front| ==> front[i] == keys[i] != last;
      assert last !in KeySet(front);
    }
  }

  lemma NoRepeatsAppend(keys: seq<Key>, k: Key)
    requires NoRepeats(keys) && k !in KeySet(keys)
    ensures NoRepeats(keys + [k])
  {
    forall i | 0 <= i < |keys| ensures keys[i] != k {
      assert keys[i] in KeySet(keys);
    }
  }

  lemma {:induction false} SubsetSize(a: set<Key>, b: set<Key>)
    requires a <= b
    ensures |a| <= |b|
    decreases |a|
  {
    if a != {} {
      var k :| k in a;
      SubsetSize(a - {k}, b - {k});
    }
  }

  function RewardOr0(rewards: map<Key, real>, key: Key): real {
    if key in rewards then rewards[key] else 0.0
  }

  /** The pairs after a teacher row. */
  function WithTeacher(pairs: seq<Pair>, paired: set<Key>, students: map<Key, real>, key: Option<Key>, reward: real): seq<Pair> {
    if key.None? || key.value in paired then pairs
    else
      var student := RewardOr0(students, key.value);
      pairs + [Pair(key.value, student, reward, reward - student, false)]
  }

  /** The pairs for the keys that no teacher row has answered, in the order of the keys. */
  function MissingPairs(keys: seq<Key>, paired: set<Key>, students: map<Key, real>): seq<Pair> {
    if keys == [] then []
    else
      var key := keys[|keys| - 1];
      var student := RewardOr0(students, key);
      MissingPairs(keys[..|keys| - 1], paired, students)
      + if key in paired then [] else [Pair(key, student, 0.0, 0.0 - student, true)]
  }

  lemma NothingMissing(paired: set<Key>, students: map<Key, real>)
    ensures MissingPairs([], paired, students) == [] && KeySet([]) == {}
  {
  }

  /** One more key in first-seen order is a new one. */
  lemma OneMoreKey(keys: seq<Key>, i: nat, paired: set<Key>, students: map<Key, real>)
    requires i < |keys| && NoRepeats(keys)
    ensures KeySet(keys[..i + 1]) == KeySet(keys[..i]) + {keys[i]} && keys[i] !in KeySet(keys[..i]) && keys[i] in KeySet(keys)
    ensures var student := RewardOr0(students, keys[i]);
      MissingPairs(keys[..i + 1], paired, students) == MissingPairs(keys[..i], paired, students)
        + if keys[i] in paired then [] else [Pair(keys[i], student, 0.0, 0.0 - student, true)]
  {
    assert keys[..i + 1] == keys[..i] + [keys[i]] && keys[..i + 1][..i] == keys[..i];
    KeySetAppend(keys[..i], keys[i]);
    assert keys[i] in KeySet(keys);
  }

  /** A teacher row adds one pair, unless its key is paired already: the reward the baseline got for that key, or 0 without
      one, beside the teacher's. */
  lemma TeacherPair(pairs: seq<Pair>, paired: set<Key>, students: map<Key, real>, key: Key, reward: real)
    ensures key in paired ==> WithTeacher(pairs, paired, students, Some(key), reward) == pairs
    ensures key !in paired ==>
      var all := WithTeacher(pairs, paired, students, Some(key), reward);
      && |all| == |pairs| + 1 && all[..|pairs|] == pairs
      && var p := all[|pairs|];
      && p.key == key && p.teacher == reward && p.delta == p.teacher - p.student && !p.missing
      && (key in students ==> p.student == students[key]) && (key !in students ==> p.student == 0.0)
    ensures WithTeacher(pairs, paired, students, None, reward) == pairs
  {
  }

  /** The pair of a key that was not answered: the baseline's reward beside 0. */
  ghost predicate Unanswered(p: Pair, key: Key, students: map<Key, real>) {
    && p == Pair(key, p.student, 0.0, 0.0 - p.student, true)
    && (key in students ==> p.student == students[key]) && (key !in students ==> p.student == 0.0)
  }

  /** The missing pairs are those of the keys without one, each once and in the order of the keys, with the baseline's
      reward beside 0. */
  lemma {:induction false} MissingExact(keys: seq<Key>, paired: set<Key>, students: map<Key, real>) returns (at: seq<nat>)
    ensures var missing := MissingPairs(keys, paired, students);
      && |at| == |missing| && (forall i, j :: 0 <= i < j < |at| ==> at[i] < at[j])
      && (forall k :: 0 <= k < |keys| && keys[k] !in paired ==> k in at)
      && forall i :: 0 <= i < |missing| ==>
           at[i] < |keys| && keys[at[i]] !in paired && Unanswered(missing[i], keys[at[i]], students)
    decreases |keys|
  {
    hide Unanswered;
    if keys == [] {
      at := [];
    } else {
      var n := |keys| - 1;
      at := MissingExact(keys[..n], paired, students);
      if keys[n] !in paired {
        LastUnanswered(keys, paired, students);
        at := at + [n];
      }
    }
  }

  lemma LastUnanswered(keys: seq<Key>, paired: set<Key>, students: map<Key, real>)
    requires keys != [] && keys[|keys| - 1] !in paired
    ensures var all, front := MissingPairs(keys, paired, students), MissingPairs(keys[..|keys| - 1], paired, students);
      |all| == |front| + 1 && all[..|front|] == front && Unanswered(all[|front|], keys[|keys| - 1], students)
  {
  }

  lemma PairsAre(pairs: seq<Pair>, paired: set<Key>)
    requires PairsOk(pairs, paired)
    ensures OncePerKey(pairs) && KeysOf(pairs) == paired
  {
  }

  lemma NoneMissing(order: seq<Key>, students: set<Key>, teachers: set<Key>, paired: set<Key>)
    requires KeysOk(order, students, teachers, paired, {}) && paired == students + teachers
    ensures |order| <= |paired|
  {
    KeySetSize(order);
    SubsetSize(KeySet(order), paired);
  }

  lemma PairAppend(pairs: seq<Pair>, paired: set<Key>, p: Pair)
    requires PairsOk(pairs, paired) && p.key !in paired && p.delta == p.teacher - p.student && (p.missing ==> p.teacher == 0.0)
    ensures PairsOk(pairs + [p], paired + {p.key})
  {
    hide OncePerKey, KeysOf;
    KeysAppend(pairs, p);
  }

  lemma MoreLines(a: Lines, b: Lines)
    requires a.baseline <= b.baseline && a.teacher <= b.teacher && a.pairs <= b.pairs
    ensures AtMost(a, b)
  {
  }

  lemma CoveredMore(reports: seq<Report>, flushed: Lines, later: Lines)
    requires Covered(reports, flushed) && AtMost(flushed, later)
    ensures Covered(reports, later)
  {
  }

  lemma CoveredAppend(reports: seq<Report>, flushed: Lines, report: Report)
    requires Covered(reports, flushed)
    requires report.baselineRows <= flushed.baseline && report.teacherRows <= flushed.teacher && report.pairRows <= flushed.pairs
    ensures Covered(reports + [report], flushed)
  {
  }

  class PilotPartialWriter {
    const flushEvery: nat
    const summaryEvery: nat
    const accumulator: PairRewardAccumulator
    var baselineRows: nat
    var teacherRows: nat
    var baselineRewards: map<Key, real>
    var teacherRewards: map<Key, real>
    var baselineKeys: seq<Key>
    var pairedKeys: set<Key>
    var pairs: seq<Pair>
    var pendingRows: nat
    var rowsSinceSummary: nat
    var written: Lines
    var flushed: Lines
    var reports: seq<Report>
    var status: Status

    /** The writer's state, while the teacher rows of `unpaired` are being paired. */
    ghost predicate Consistent(unpaired: set<Key>)
      reads this, accumulator
    {
      && flushEvery >= 1 && summaryEvery >= 1
      && PairsOk(pairs, pairedKeys) && accumulator.Totals(pairs)
      && KeysOk(baselineKeys, baselineRewards.Keys, teacherRewards.Keys, pairedKeys, unpaired)
      && written == Lines(baselineRows, teacherRows, |pairs|) && LinesOk(written, flushed, pendingRows, flushEvery)
      && Covered(reports, flushed)
    }

    /** Each key is paired at most once and every keyed teacher row is paired; the running totals are those of the
        pairs; fewer rows than the flush limit wait for a flush; reports count flushed lines only. */
    ghost predicate Valid()
      reads this, accumulator
    {
      Consistent({})
    }

    constructor (flushEvery: nat, summaryEvery: nat)
      requires flushEvery >= 1 && summaryEvery >= 1
      ensures Valid() && fresh(accumulator) && pairs == [] && |reports| == 1 && status == Running
    {
      this.flushEvery, this.summaryEvery := flushEvery, summaryEvery;
      accumulator := new PairRewardAccumulator();
      baselineRows, teacherRows, baselineRewards, teacherRewards := 0, 0, map[], map[];
      baselineKeys, pairedKeys, pairs, pendingRows, rowsSinceSummary := [], {}, [], 0, 0;
      written, flushed, status := Lines(0, 0, 0), Lines(0, 0, 0), Running;
      reports := [];
      new;
      var _ := WriteSummary();
    }

    /** _flush_jsonl_handles_locked */
    method Flush()
      requires AtMost(flushed, written) && pendingRows == Total(written) - Total(flushed)
      modifies this`flushed, this`pendingRows
      ensures flushed == written && pendingRows == 0
    {
      if pendingRows <= 0 {
        return;
      }
      flushed := written;
      pendingRows := 0;
    }

    /** _append_jsonl_row_locked: one more line, flushed when the limit is reached. */
    method AppendLine(after: Lines)
      requires flushEvery >= 1 && LinesOk(written, flushed, pendingRows, flushEvery) && Covered(reports, flushed)
      requires AtMost(written, after) && Total(after) == Total(written) + 1
      modifies this`written, this`flushed, this`pendingRows
      ensures written == after && LinesOk(written, flushed, pendingRows, flushEvery) && Covered(reports, flushed)
      ensures if old(pendingRows) + 1 >= flushEvery then pendingRows == 0 && flushed == after
        else pendingRows == old(pendingRows) + 1 && flushed == old(flushed)
    {
      written := after;
      pendingRows := pendingRows + 1;
      if pendingRows >= flushEvery {
        Flush();
      }
      CoveredMore(reports, old(flushed), flushed);
    }

    /** _append_pair_locked: at most one pair per key. */
    method AppendPair(key: Key, student: real, teacher: real, missing: bool)
      requires Consistent({key}) && key in baselineRewards.Keys + teacherRewards.Keys && (missing ==> teacher == 0.0)
      modifies this`pairedKeys, this`pairs, this`written, this`flushed, this`pendingRows, accumulator
      ensures Valid() && pairedKeys == old(pairedKeys) + {key}
      ensures pairs == if key in old(pairedKeys) then old(pairs) else old(pairs) + [Pair(key, student, teacher, teacher - student, missing)]
    {
      hide PairsOk, Covered, KeySet, NoRepeats, AtMost, Sum, CountSign;
      if key in pairedKeys {
        return;
      }
      var record := Pair(key, student, teacher, teacher - student, missing);
      PairAppend(pairs, pairedKeys, record);
      MoreLines(written, Lines(written.baseline, written.teacher, written.pairs + 1));
      accumulator.Add(record, pairs);
      pairedKeys := pairedKeys + {key};
      pairs := pairs + [record];
      AppendLine(Lines(written.baseline, written.teacher, written.pairs + 1));
    }

    /** _write_summary_locked: everything is flushed before the summary that counts it. */
    method WriteSummary() returns (report: Report)
      requires Valid()
      modifies this`flushed, this`pendingRows, this`reports, this`rowsSinceSummary
      ensures Valid() && flushed == written && rowsSinceSummary == 0
      ensures reports == old(reports) + [report] && report.rewards == Summarize(pairs)
      ensures report.baselineRows == baselineRows && report.teacherRows == teacherRows && report.pairRows == |pairs|
      ensures report.status == status
      ensures report.missingTeachers == if |baselineKeys| > |pairedKeys| then |baselineKeys| - |pairedKeys| else 0
    {
      hide PairsOk, Covered, KeysOk, Sum, CountSign, Summarize;
      Flush();
      CoveredMore(reports, old(flushed), flushed);
      var rewards := accumulator.Snapshot(pairs);
      var missing := if |baselineKeys| > |pairedKeys| then |baselineKeys| - |pairedKeys| else 0;
      report := Report(status, baselineRows, teacherRows, |pairs|, missing, rewards);
      CoveredAppend(reports, flushed, report);
      reports := reports + [report];
      rowsSinceSummary := 0;
    }

    /** A baseline row: counted, appended, and its reward remembered under its key, in first-seen order. */
    method RecordBaseline(key: Option<Key>, reward: real)
      requires Valid()
      modifies this`baselineRows, this`baselineRewards, this`baselineKeys, this`written, this`flushed, this`pendingRows
      ensures Valid() && baselineRows == old(baselineRows) + 1
      ensures baselineRewards == if key.Some? then old(baselineRewards)[key.value := reward] else old(baselineRewards)
      ensures baselineKeys ==
        if key.Some? && key.value !in old(baselineRewards) then old(baselineKeys) + [key.value] else old(baselineKeys)
    {
      hide PairsOk, Covered, KeySet, NoRepeats, Sum, CountSign;
      baselineRows := baselineRows + 1;
      AppendLine(Lines(written.baseline + 1, written.teacher, written.pairs));
      if key.Some? {
        if key.value !in baselineRewards {
          KeySetAppend(baselineKeys, key.value);
          NoRepeatsAppend(baselineKeys, key.value);
          baselineKeys := baselineKeys + [key.value];
        }
        baselineRewards := baselineRewards[key.value := reward];
      }
    }

    /** A teacher row: counted, appended, and paired with the student's reward so far. */
    method RecordTeacher(key: Option<Key>, reward: real)
      requires Valid()
      modifies this`teacherRows, this`teacherRewards, this`pairedKeys, this`pairs, this`written, this`flushed,
        this`pendingRows, accumulator
      ensures Valid() && teacherRows == old(teacherRows) + 1
      ensures teacherRewards == if key.Some? then old(teacherRewards)[key.value := reward] else old(teacherRewards)
      ensures pairedKeys == old(pairedKeys) + (if key.Some? then {key.value} else {})
      ensures pairs == WithTeacher(old(pairs), old(pairedKeys), baselineRewards, key, reward)
    {
      hide PairsOk, Covered, KeySet, NoRepeats, Sum, CountSign;
      teacherRows := teacherRows + 1;
      AppendLine(Lines(written.baseline, written.teacher + 1, written.pairs));
      if key.Some? {
        teacherRewards := teacherRewards[key.value := reward];
        AppendPair(key.value, RewardOr0(baselineRewards, key.value), reward, false);
      }
    }

    /** The end of record_row: a summary once enough rows have come in since the last one. */
    method CountRow()
      requires Valid()
      modifies this`rowsSinceSummary, this`flushed, this`pendingRows, this`reports
      ensures Valid()
      ensures if old(rowsSinceSummary) + 1 >= summaryEvery then
          && rowsSinceSummary == 0 && |reports| == |old(reports)| + 1 && old(reports) <= reports && flushed == written
          && reports[|reports| - 1].rewards == Summarize(pairs)
        else rowsSinceSummary == old(rowsSinceSummary) + 1 && reports == old(reports)
    {
      hide PairsOk, Covered, KeysOk, Sum, CountSign, LinesOk, Summarize;
      rowsSinceSummary := rowsSinceSummary + 1;
      if rowsSinceSummary >= summaryEvery {
        var _ := WriteSummary();
      }
    }

    /** record_row; false for a phase it does not support, with nothing recorded. A summary is written exactly when
        enough rows have come in since the last one. */
    method RecordRow(phase: Phase, key: Option<Key>, reward: real) returns (ok: bool)
      requires Valid()
      modifies this, accumulator
      ensures Valid() && ok == (phase != Other) && status == old(status)
      ensures baselineRows == old(baselineRows) + (if phase == Baseline then 1 else 0)
      ensures teacherRows == old(teacherRows) + (if phase == Teacher then 1 else 0)
      ensures baselineRewards ==
        if phase == Baseline && key.Some? then old(baselineRewards)[key.value := reward] else old(baselineRewards)
      ensures baselineKeys ==
        if phase == Baseline && key.Some? && key.value !in old(baselineRewards) then old(baselineKeys) + [key.value]
        else old(baselineKeys)
      ensures teacherRewards ==
        if phase == Teacher && key.Some? then old(teacherRewards)[key.value := reward] else old(teacherRewards)
      ensures pairedKeys == old(pairedKeys) + (if phase == Teacher && key.Some? then {key.value} else {})
      ensures pairs ==
        if phase == Teacher then WithTeacher(old(pairs), old(pairedKeys), baselineRewards, key, reward) else old(pairs)
      ensures var due := ok && old(rowsSinceSummary) + 1 >= summaryEvery;
        && rowsSinceSummary == (if !ok then old(rowsSinceSummary) else if due then 0 else old(rowsSinceSummary) + 1)
        && (if due then
              && |reports| == |old(reports)| + 1 && old(reports) <= reports && flushed == written
              && reports[|reports| - 1].rewards == Summarize(pairs)
            else reports == old(reports))
    {
      hide Consistent, WithTeacher, Summarize;
      if phase == Other {
        return false;
      }
      if phase == Baseline {
        RecordBaseline(key, reward);
      } else {
        RecordTeacher(key, reward);
      }
      CountRow();
      return true;
    }

    /** _append_missing_pairs_locked: after it every baseline key is paired, the unanswered ones with reward 0, in the
        order in which they were first seen. */
    method AppendMissingPairs()
      requires Valid()
      modifies this`pairedKeys, this`pairs, this`written, this`flushed, this`pendingRows, accumulator
      ensures Valid() && pairedKeys == baselineRewards.Keys + teacherRewards.Keys
      ensures pairs == old(pairs) + MissingPairs(baselineKeys, old(pairedKeys), baselineRewards)
    {
      hide PairsOk, Covered, Sum, CountSign, LinesOk, KeySet, MissingPairs, NoRepeats;
      NothingMissing(pairedKeys, baselineRewards);
      for i := 0 to |baselineKeys|
        invariant Valid() && pairedKeys == old(pairedKeys) + KeySet(baselineKeys[..i])
        invariant pairs == old(pairs) + MissingPairs(baselineKeys[..i], old(pairedKeys), baselineRewards)
      {
        var key := baselineKeys[i];
        OneMoreKey(baselineKeys, i, old(pairedKeys), baselineRewards);
        if key !in pairedKeys {
          AppendPair(key, RewardOr0(baselineRewards, key), RewardOr0(teacherRewards, key), true);
        }
      }
      assert baselineKeys[..|baselineKeys|] == baselineKeys;
    }

    /** finalize_completed: exactly one pair per key of either phase. */
    method FinalizeCompleted() returns (report: Report)
      requires Valid()
      modifies this, accumulator
      ensures Valid() && KeysOf(pairs) == old(baselineRewards.Keys) + old(teacherRewards.Keys) && OncePerKey(pairs)
      ensures pairs == old(pairs) + MissingPairs(old(baselineKeys), old(pairedKeys), old(baselineRewards))
      ensures status == Completed && report.status == Completed && report.rewards == Summarize(pairs) && flushed == written
      ensures report.missingTeachers == 0
    {
      hide PairsOk, Covered, Sum, CountSign, LinesOk, Summarize, KeysOf, KeysOk, OncePerKey, MissingPairs;
      status := Completed;
      AppendMissingPairs();
      PairsAre(pairs, pairedKeys);
      NoneMissing(baselineKeys, baselineRewards.Keys, teacherRewards.Keys, pairedKeys);
      report := WriteSummary();
    }

    /** mark_failed, also after finalize_completed. */
    method MarkFailed() returns (report: Report)
      requires Valid()
      modifies this`status, this`flushed, this`pendingRows, this`reports, this`rowsSinceSummary
      ensures Valid() && status == Failed && report.status == Failed && report.rewards == Summarize(pairs)
      ensures flushed == written
    {
      status := Failed;
      report := WriteSummary();
    }

    method Close()
      requires Valid()
      modifies this`flushed, this`pendingRows
      ensures Valid() && flushed == written
    {
      Flush();
    }
  }
}
