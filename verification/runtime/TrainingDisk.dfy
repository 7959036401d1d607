/** What the training loop keeps on disk. */
module TrainingDisk {
  import opened Text
  import opened Permutations

  /** A global_step_* directory inside a step's checkpoint tree. */
  datatype Global = Global(number: nat, mtime: nat)

  datatype Pointer = Pointer(step: nat, global: Global)

  datatype Model = Initial | Checkpoint(step: nat, global: Global)

  /** rft_step_summary.json, reduced to its index and the model the step left behind. */
  datatype Summary = Summary(step: int, model: Model)

  /** One run's output directory: the step directories that exist, the checkpoint trees and rollout payloads in
      them, their summaries, the manifest's `steps` list (None is an entry that is not a mapping with an integer
      index) and the committed pointer. */
  datatype Disk = Disk(
    dirs: set<nat>,
    trees: map<nat, seq<Global>>,
    payloads: set<nat>,
    summaries: map<nat, Summary>,
    manifest: Option<seq<Option<Summary>>>,
    pointer: Option<Pointer>)

  predicate HasTree(trees: map<nat, seq<Global>>, pointer: Pointer) {
    pointer.step in trees && pointer.global in trees[pointer.step]
  }

  /** The committed checkpoint exists. */
  predicate PointerValid(d: Disk) {
    d.pointer.Some? ==> HasTree(d.trees, d.pointer.value)
  }

  /** committed_step_index, with -1 for a fresh directory. */
  function Committed(d: Disk): int {
    if d.pointer.Some? then d.pointer.value.step else -1
  }

  // ---------------------------------------------------------------- sorting

  function InsertSummary(e: Summary, sorted: seq<Summary>): seq<Summary> {
    if sorted == [] || e.step <= sorted[0].step then [e] + sorted
    else [sorted[0]] + InsertSummary(e, sorted[1..])
  }

  /** list.sort by step_index. */
  function SortSummaries(s: seq<Summary>): seq<Summary> {
    if s == [] then [] else InsertSummary(s[0], SortSummaries(s[1..]))
  }

  // ---------------------------------------------------------------- the manifest

  /** The manifest entries that survive: in range, first of their index. */
  function Normalized(raw: seq<Option<Summary>>, committed: int, seen: set<int>): seq<Summary> {
    if raw == [] then []
    else if raw[0].None? then Normalized(raw[1..], committed, seen)
    else
      var e := raw[0].value;
      if e.step < 0 || e.step > committed || e.step in seen then Normalized(raw[1..], committed, seen)
      else [e] + Normalized(raw[1..], committed, seen + {e.step})
  }

  function IndexesOf(s: seq<Summary>): set<int> {
    set i | 0 <= i < |s| :: s[i].step
  }

  /** The summaries of the steps from `k` up to `committed` whose index is not in `seen`. */
  function Recovered(summaries: map<nat, Summary>, k: nat, committed: int, seen: set<int>): seq<Summary>
    decreases committed + 1 - k
  {
    if k > committed then []
    else
      var rest := Recovered(summaries, k + 1, committed, seen);
      if k !in seen && k in summaries && summaries[k].step == k then [summaries[k]] + rest else rest
  }

  /** The summaries that exist, in step order. */
  function Existing(summaries: map<nat, Summary>, k: nat, committed: int): seq<Summary>
    decreases committed + 1 - k
  {
    if k > committed then []
    else
      var rest := Existing(summaries, k + 1, committed);
      if k in summaries then [summaries[k]] + rest else rest
  }

  /** The `steps` list of _load_existing_runtime_manifest. */
  function LoadedSteps(d: Disk): seq<Summary> {
    var committed := Committed(d);
    if committed < 0 then []
    else
      match d.manifest
      case None => Existing(d.summaries, 0, committed)
      case Some(raw) =>
        var cut := if |raw| <= committed + 1 then raw else raw[..committed + 1];
        var kept := Normalized(cut, committed, {});
        SortSummaries(kept + Recovered(d.summaries, 0, committed, IndexesOf(kept)))
  }

  /** Exactly one entry per step 0..n-1, in order. */
  predicate OnePerStep(s: seq<Summary>, n: nat) {
    |s| == n && forall k :: 0 <= k < n ==> s[k].step == k
  }

  /** Every step up to the committed one has its summary. */
  predicate SummariesComplete(summaries: map<nat, Summary>, n: int) {
    forall k: nat :: k < n ==> k in summaries && summaries[k].step == k
  }

  // ---------------------------------------------------------------- reloading is exact

  predicate Increasing(s: seq<Summary>) {
    forall i, j :: 0 <= i < j < |s| ==> s[i].step < s[j].step
  }

  predicate Distinct(s: seq<Summary>) {
    forall i, j :: 0 <= i < j < |s| ==> s[i].step != s[j].step
  }

  lemma Indexed(s: seq<Summary>)
    ensures forall i :: 0 <= i < |s| ==> s[i].step in IndexesOf(s)
  {
  }

  lemma IndexCons(e: Summary, s: seq<Summary>)
    ensures IndexesOf([e] + s) == {e.step} + IndexesOf(s)
  {
    var t := [e] + s;
    assert t[0] == e;
    assert forall i :: 0 <= i < |s| ==> t[i + 1] == s[i];
    assert forall i :: 0 < i < |t| ==> t[i] == s[i - 1];
    forall x | x in {e.step} + IndexesOf(s) ensures x in IndexesOf(t) {
      if x != e.step {
        var i :| 0 <= i < |s| && s[i].step == x;
        assert t[i + 1].step == x;
      }
    }
  }

  lemma IncreasingCons(e: Summary, s: seq<Summary>)
    requires Increasing(s) && forall i :: 0 <= i < |s| ==> e.step < s[i].step
    ensures Increasing([e] + s)
  {
  }

  lemma LowestFirst(s: seq<Summary>)
    requires Increasing(s) && s != []
    ensures Increasing(s[1..]) && forall x :: x in IndexesOf(s[1..]) ==> s[0].step < x
    ensures s[0].step in IndexesOf(s) && IndexesOf(s) == {s[0].step} + IndexesOf(s[1..])
  {
    assert s == [s[0]] + s[1..];
    IndexCons(s[0], s[1..]);
  }

  lemma {:induction false} InsertKeeps(e: Summary, s: seq<Summary>)
    requires Increasing(s) && e.step !in IndexesOf(s)
    ensures Increasing(InsertSummary(e, s)) && IndexesOf(InsertSummary(e, s)) == {e.step} + IndexesOf(s)
    decreases |s|
  {
    IndexCons(e, s);
    if s != [] {
      LowestFirst(s);
      if e.step > s[0].step {
        hide Increasing, IndexesOf;
        InsertKeeps(e, s[1..]);
        var r := InsertSummary(e, s[1..]);
        Indexed(r);
        IndexCons(s[0], r);
        IncreasingCons(s[0], r);
      }
    }
  }

  lemma {:induction false} SortKeeps(s: seq<Summary>)
    requires Distinct(s)
    ensures Increasing(SortSummaries(s)) && IndexesOf(SortSummaries(s)) == IndexesOf(s)
    decreases |s|
  {
    if s != [] {
      SortKeeps(s[1..]);
      assert s == [s[0]] + s[1..];
      IndexCons(s[0], s[1..]);
      InsertKeeps(s[0], SortSummaries(s[1..]));
    }
  }

  lemma {:induction false} NormalizedShape(raw: seq<Option<Summary>>, committed: int, seen: set<int>)
    ensures var r := Normalized(raw, committed, seen);
      Distinct(r) && forall i :: 0 <= i < |r| ==> 0 <= r[i].step <= committed && r[i].step !in seen
    decreases |raw|
  {
    if raw != [] {
      NormalizedShape(raw[1..], committed, seen);
      if raw[0].Some? {
        NormalizedShape(raw[1..], committed, seen + {raw[0].value.step});
      }
    }
  }

  lemma {:induction false} RecoveredShape(summaries: map<nat, Summary>, k: nat, committed: int, seen: set<int>)
    requires SummariesComplete(summaries, committed + 1) && k <= committed + 1
    ensures var r := Recovered(summaries, k, committed, seen);
      Distinct(r) && forall x :: x in IndexesOf(r) <==> k <= x <= committed && x !in seen
    decreases committed + 1 - k
  {
    if k <= committed {
      var rest := Recovered(summaries, k + 1, committed, seen);
      RecoveredShape(summaries, k + 1, committed, seen);
      if k !in seen {
        IndexCons(summaries[k], rest);
        forall i | 0 <= i < |rest| ensures rest[i].step != k {
          assert rest[i].step in IndexesOf(rest);
        }
      }
    }
  }

  lemma ConcatDistinct(a: seq<Summary>, b: seq<Summary>)
    requires Distinct(a) && Distinct(b) && IndexesOf(a) !! IndexesOf(b)
    ensures Distinct(a + b) && IndexesOf(a + b) == IndexesOf(a) + IndexesOf(b)
  {
    var c := a + b;
    forall i, j | 0 <= i < j < |c| ensures c[i].step != c[j].step {
      if i < |a| <= j {
        assert a[i].step in IndexesOf(a) && b[j - |a|].step in IndexesOf(b);
      }
    }
    forall x | x in IndexesOf(a) + IndexesOf(b) ensures x in IndexesOf(c) {
      if x in IndexesOf(a) {
        var i :| 0 <= i < |a| && a[i].step == x;
        assert c[i].step == x;
      } else {
        var i :| 0 <= i < |b| && b[i].step == x;
        assert c[|a| + i].step == x;
      }
    }
  }

  /** A strictly increasing list over exactly the indexes 0..n-1 has step k at place k. */
  lemma {:induction false} IncreasingIsExact(s: seq<Summary>, n: nat)
    requires Increasing(s) && forall x :: x in IndexesOf(s) <==> 0 <= x < n
    ensures OnePerStep(s, n)
    decreases n
  {
    SomeIndex(s);
    if n > 0 {
      LastIndex(s, n);
      FrontIndexes(s, s[..|s| - 1], n);
      IncreasingIsExact(s[..|s| - 1], n - 1);
    }
  }

  lemma LastIndex(s: seq<Summary>, n: nat)
    requires n > 0 && Increasing(s) && forall x :: x in IndexesOf(s) <==> 0 <= x < n
    ensures s != [] && s[|s| - 1].step == n - 1
  {
    assert n - 1 in IndexesOf(s);
    var i :| 0 <= i < |s| && s[i].step == n - 1;
    SomeIndex(s);
  }

  lemma SomeIndex(s: seq<Summary>)
    ensures s != [] ==> s[|s| - 1].step in IndexesOf(s)
  {
  }

  lemma FrontIndexes(s: seq<Summary>, front: seq<Summary>, n: nat)
    requires Increasing(s) && s != [] && front == s[..|s| - 1] && n > 0 && s[|s| - 1].step == n - 1
    requires forall x :: x in IndexesOf(s) <==> 0 <= x < n
    ensures forall x :: x in IndexesOf(front) <==> 0 <= x < n - 1
  {
    forall x ensures x in IndexesOf(front) <==> 0 <= x < n - 1 {
      if x in IndexesOf(front) {
        var j :| 0 <= j < |front| && front[j].step == x;
        assert s[j].step == x;
        assert x in IndexesOf(s);
      }
      if 0 <= x < n - 1 {
        assert x in IndexesOf(s);
        var j :| 0 <= j < |s| && s[j].step == x;
        assert front[j].step == x;
      }
    }
  }

  lemma {:induction false} ExistingIsExact(summaries: map<nat, Summary>, k: nat, committed: int)
    requires SummariesComplete(summaries, committed + 1) && k <= committed + 1
    ensures var r := Existing(summaries, k, committed);
      |r| == committed + 1 - k && forall i :: 0 <= i < |r| ==> r[i].step == k + i
    decreases committed + 1 - k
  {
    if k <= committed {
      ExistingIsExact(summaries, k + 1, committed);
    }
  }

  /** Whatever the manifest file holds, reloading gives exactly one entry per committed step, in order, as long
      as every committed step still has its summary. */
  lemma ReloadIsExact(d: Disk)
    requires SummariesComplete(d.summaries, Committed(d) + 1)
    ensures OnePerStep(LoadedSteps(d), Committed(d) + 1)
  {
    var committed := Committed(d);
    if committed >= 0 {
      if d.manifest.None? {
        ExistingIsExact(d.summaries, 0, committed);
      } else {
        var raw := d.manifest.value;
        var cut := if |raw| <= committed + 1 then raw else raw[..committed + 1];
        var kept := Normalized(cut, committed, {});
        NormalizedShape(cut, committed, {});
        var missing := Recovered(d.summaries, 0, committed, IndexesOf(kept));
        RecoveredShape(d.summaries, 0, committed, IndexesOf(kept));
        ConcatDistinct(kept, missing);
        SortKeeps(kept + missing);
        IncreasingIsExact(SortSummaries(kept + missing), committed + 1);
      }
    }
  }

  // ---------------------------------------------------------------- checkpoint trees

  /** The order of (mtime, number). */
  predicate Before(a: Global, b: Global) {
    a.mtime < b.mtime || (a.mtime == b.mtime && a.number <= b.number)
  }

  function InsertGlobal(g: Global, sorted: seq<Global>): (r: seq<Global>)
    ensures |r| == |sorted| + 1
  {
    if sorted == [] || Before(g, sorted[0]) then [g] + sorted else [sorted[0]] + InsertGlobal(g, sorted[1..])
  }

  function SortGlobals(tree: seq<Global>): (r: seq<Global>)
    ensures |r| == |tree|
  {
    if tree == [] then [] else InsertGlobal(tree[0], SortGlobals(tree[1..]))
  }

  /** resolve_latest_hf_checkpoint */
  function Latest(tree: seq<Global>): Global
    requires tree != []
  {
    SortGlobals(tree)[|tree| - 1]
  }

  /** What prune_old_global_step_checkpoints leaves of a tree. */
  function LastGlobals(tree: seq<Global>, keep: nat): seq<Global>
    requires keep >= 1
  {
    if |tree| <= keep then tree else SortGlobals(tree)[|tree| - keep..]
  }

  predicate SortedGlobals(s: seq<Global>) {
    forall i, j :: 0 <= i < j < |s| ==> Before(s[i], s[j])
  }

  lemma {:induction false} InsertGlobalSorted(g: Global, s: seq<Global>)
    requires SortedGlobals(s)
    ensures SortedGlobals(InsertGlobal(g, s))
    ensures forall x :: x in InsertGlobal(g, s) <==> x == g || x in s
    decreases |s|
  {
    if s != [] && !Before(g, s[0]) {
      InsertGlobalSorted(g, s[1..]);
      var r := InsertGlobal(g, s[1..]);
      assert forall i :: 0 <= i < |r| ==> r[i] in r;
      assert forall x :: x in s <==> x == s[0] || x in s[1..];
    }
  }

  lemma {:induction false} SortGlobalsSorted(tree: seq<Global>)
    ensures SortedGlobals(SortGlobals(tree))
    ensures forall x :: x in SortGlobals(tree) <==> x in tree
    decreases |tree|
  {
    if tree != [] {
      SortGlobalsSorted(tree[1..]);
      InsertGlobalSorted(tree[0], SortGlobals(tree[1..]));
    }
  }

  /** The checkpoint that gets committed is the newest in its tree, and of several as new the one with the highest
      number. */
  lemma LatestIsNewest(tree: seq<Global>)
    requires tree != []
    ensures Latest(tree) in tree
    ensures forall g :: g in tree ==>
      g.mtime < Latest(tree).mtime || (g.mtime == Latest(tree).mtime && g.number <= Latest(tree).number)
  {
    SortGlobalsSorted(tree);
    var s := SortGlobals(tree);
    forall g | g in tree ensures Before(g, Latest(tree)) {
      var i :| 0 <= i < |s| && s[i] == g;
    }
  }

  /** Pruning inside the tree never removes the checkpoint that gets committed, and leaves the newest ones. */
  lemma LatestSurvives(tree: seq<Global>, keep: nat)
    requires tree != [] && keep >= 1
    ensures var kept := LastGlobals(tree, keep);
      && Latest(tree) in kept && |kept| == (if |tree| <= keep then |tree| else keep)
      && (forall g :: g in kept ==> g in tree)
      && forall g, h :: g in tree && g !in kept && h in kept ==>
           g.mtime < h.mtime || (g.mtime == h.mtime && g.number <= h.number)
  {
    SortGlobalsSorted(tree);
    var s, kept := SortGlobals(tree), LastGlobals(tree, keep);
    LatestIsNewest(tree);
    if |tree| > keep {
      var cut := |tree| - keep;
      assert forall m :: cut <= m < |s| ==> s[m] == kept[m - cut];
      forall g, h | g in tree && g !in kept && h in kept ensures Before(g, h) {
        var i :| 0 <= i < |s| && s[i] == g;
        var j :| 0 <= j < |kept| && kept[j] == h;
        assert s[cut + j] == h;
      }
    }
  }

  // ---------------------------------------------------------------- step directories

  /** _discover_existing_step_dirs: the step directories below `n`, in order. */
  function StepsBelow(dirs: set<nat>, n: nat): seq<nat> {
    if n == 0 then [] else StepsBelow(dirs, n - 1) + (if n - 1 in dirs then [n - 1] else [])
  }

  function WithTree(steps: seq<nat>, trees: map<nat, seq<Global>>): seq<nat> {
    if steps == [] then []
    else (if steps[0] in trees then [steps[0]] else []) + WithTree(steps[1..], trees)
  }

  function AppendUnique(steps: seq<nat>, step: nat): seq<nat> {
    if step in steps then steps else steps + [step]
  }

  function Unprotected(steps: seq<nat>, protected: set<nat>): seq<nat> {
    if steps == [] then []
    else (if steps[0] in protected then [] else [steps[0]]) + Unprotected(steps[1..], protected)
  }

  /** The step directories a prune goes through: all but the last `keep`, without the protected ones. The lists
      the loop passes hold no directory twice. */
  function PruneTargets(steps: seq<nat>, keep: nat, protected: set<nat>): seq<nat> {
    if |steps| <= keep then [] else Unprotected(steps[..|steps| - keep], protected)
  }

  /** A tree partly deleted. */
  predicate Remains(tree: seq<Global>, before: seq<Global>) {
    forall g :: g in tree ==> g in before
  }

  /** Some of a step's artifacts deleted: what is left of its checkpoints, payload and summary. */
  function Erased(d: Disk, step: nat, tree: Option<seq<Global>>, payload: bool, summary: bool): Disk {
    d.(dirs := d.dirs + {step},
       trees := if tree.Some? then d.trees[step := tree.value] else map k | k in d.trees && k != step :: d.trees[k],
       payloads := if payload then d.payloads else d.payloads - {step},
       summaries := if summary then d.summaries else map k | k in d.summaries && k != step :: d.summaries[k])
  }

  /** reset_step_artifacts, and the directory made again. */
  function ResetStep(d: Disk, step: nat): Disk {
    Erased(d, step, None, false, false)
  }

  function DropTree(d: Disk, step: nat): Disk {
    d.(trees := map k | k in d.trees && k != step :: d.trees[k])
  }

  lemma {:induction false} TargetsAre(steps: seq<nat>, protected: set<nat>)
    ensures forall k :: k in Unprotected(steps, protected) <==> k in steps && k !in protected
    decreases |steps|
  {
    if steps != [] {
      TargetsAre(steps[1..], protected);
    }
  }

  lemma {:induction false} StepsBelowAre(dirs: set<nat>, n: nat)
    ensures Ascending(StepsBelow(dirs, n)) && forall k :: k in StepsBelow(dirs, n) <==> k in dirs && k < n
    decreases n
  {
    if n > 0 {
      StepsBelowAre(dirs, n - 1);
      var s := StepsBelow(dirs, n - 1);
      assert forall i :: 0 <= i < |s| ==> s[i] in s;
    }
  }

  lemma FirstBelow(steps: seq<nat>, s: seq<nat>)
    requires Ascending(steps) && steps != [] && Ascending(s) && forall k :: k in s ==> k in steps[1..]
    ensures Ascending([steps[0]] + s)
  {
    forall i | 0 <= i < |s| ensures steps[0] < s[i] {
      assert s[i] in steps[1..];
    }
  }

  lemma {:induction false} WithTreeAre(steps: seq<nat>, trees: map<nat, seq<Global>>)
    requires Ascending(steps)
    ensures Ascending(WithTree(steps, trees)) && forall k :: k in WithTree(steps, trees) <==> k in steps && k in trees
    decreases |steps|
  {
    if steps != [] {
      WithTreeAre(steps[1..], trees);
      FirstBelow(steps, WithTree(steps[1..], trees));
    }
  }
}
