/** The ranked file search; the score of a path is a parameter. */
module FileSearch {
  import opened Text
  import opened JsonCodec

  // ---------------------------------------------------------------- the greedy matcher

  /** The needle from `n` on is matched greedily in the haystack from `h` on. */
  function Greedy(needle: string, n: nat, haystack: string, h: nat): bool
    requires n <= |needle| && h <= |haystack|
    decreases |haystack| - h
  {
    n == |needle|
    || (h < |haystack| && Greedy(needle, if haystack[h] == needle[n] then n + 1 else n, haystack, h + 1))
  }

  /** is_subsequence; false for an empty needle. */
  method IsSubsequence(needle: string, haystack: string) returns (r: bool)
    ensures r == (needle != "" && Greedy(needle, 0, haystack, 0))
  {
    if needle == "" {
      return false;
    }
    var index := 0;
    for i := 0 to |haystack|
      invariant 0 <= index < |needle|
      invariant Greedy(needle, 0, haystack, 0) == Greedy(needle, index, haystack, i)
    {
      if haystack[i] == needle[index] {
        index := index + 1;
        if index == |needle| {
          return true;
        }
      }
    }
    return false;
  }

  /** Places of the haystack, in order from `h` on, that spell the needle from `n` on. */
  ghost predicate Embedding(places: seq<nat>, needle: string, n: nat, haystack: string, h: nat)
    requires n <= |needle|
  {
    && |places| == |needle| - n
    && (forall i :: 0 <= i < |places| ==> h <= places[i] < |haystack| && haystack[places[i]] == needle[n + i])
    && forall i, j :: 0 <= i < j < |places| ==> places[i] < places[j]
  }

  lemma {:induction false} GreedyFinds(needle: string, n: nat, haystack: string, h: nat) returns (places: seq<nat>)
    requires n <= |needle| && h <= |haystack| && Greedy(needle, n, haystack, h)
    ensures Embedding(places, needle, n, haystack, h)
    decreases |haystack| - h
  {
    if n == |needle| {
      places := [];
    } else if haystack[h] == needle[n] {
      var rest := GreedyFinds(needle, n + 1, haystack, h + 1);
      places := [h] + rest;
    } else {
      places := GreedyFinds(needle, n, haystack, h + 1);
    }
  }

  /** Whatever can be embedded is found by the greedy choice. */
  lemma {:induction false} GreedySuffices(places: seq<nat>, needle: string, n: nat, haystack: string, h: nat)
    requires n <= |needle| && h <= |haystack| && Embedding(places, needle, n, haystack, h)
    ensures Greedy(needle, n, haystack, h)
    decreases |haystack| - h
  {
    if n < |needle| {
      assert h <= places[0] < |haystack|;
      if haystack[h] == needle[n] {
        var rest := places[1..];
        forall i | 0 <= i < |rest| ensures h + 1 <= rest[i] < |haystack| && haystack[rest[i]] == needle[n + 1 + i] {
          assert rest[i] == places[i + 1] && places[0] < places[i + 1];
        }
        GreedySuffices(rest, needle, n + 1, haystack, h + 1);
      } else {
        forall i | 0 <= i < |places| ensures h + 1 <= places[i] {
          assert places[0] != h;
          assert i > 0 ==> places[0] < places[i];
        }
        GreedySuffices(places, needle, n, haystack, h + 1);
      }
    }
  }

  /** The matcher accepts exactly the needles with an order-preserving embedding. */
  lemma GreedyExact(needle: string, haystack: string)
    ensures Greedy(needle, 0, haystack, 0) <==> exists places :: Embedding(places, needle, 0, haystack, 0)
  {
    if Greedy(needle, 0, haystack, 0) {
      var places := GreedyFinds(needle, 0, haystack, 0);
    }
    if exists places :: Embedding(places, needle, 0, haystack, 0) {
      var places :| Embedding(places, needle, 0, haystack, 0);
      GreedySuffices(places, needle, 0, haystack, 0);
    }
  }

  // ---------------------------------------------------------------- ranking

  datatype Hit = Hit(score: int, path: string)

  /** Higher score first, then the smaller path. */
  predicate NoWorse(a: Hit, b: Hit) {
    a.score > b.score || (a.score == b.score && LexLe(a.path, b.path))
  }

  function InsertHit(h: Hit, ranked: seq<Hit>): seq<Hit> {
    if ranked == [] || NoWorse(h, ranked[0]) then [h] + ranked else [ranked[0]] + InsertHit(h, ranked[1..])
  }

  /** ranked_paths.sort */
  function Rank(hits: seq<Hit>): seq<Hit> {
    if hits == [] then [] else InsertHit(hits[0], Rank(hits[1..]))
  }

  /** The paths with a score, in the order they are found. */
  function Hits(paths: seq<string>, score: string -> Option<int>): seq<Hit> {
    if paths == [] then []
    else (match score(paths[0]) case None => [] case Some(s) => [Hit(s, paths[0])]) + Hits(paths[1..], score)
  }

  function PathsOf(hits: seq<Hit>): (r: seq<string>)
    ensures |r| == |hits|
  {
    seq(|hits|, i requires 0 <= i < |hits| => hits[i].path)
  }

  function Prefix<T>(s: seq<T>, n: nat): seq<T> {
    if |s| <= n then s else s[..n]
  }

  /** What the container writes for a list of paths. */
  function Printed(paths: seq<string>): string {
    if paths == [] then "" else paths[0] + "\n" + Printed(paths[1..])
  }

  lemma {:induction false} PrintedMore(paths: seq<string>, path: string)
    ensures Printed(paths + [path]) == Printed(paths) + path + "\n"
    decreases |paths|
  {
    if paths == [] {
      assert paths + [path] == [path] && [path][1..] == [];
      assert path + "\n" + "" == "" + path + "\n";
    } else {
      assert (paths + [path])[0] == paths[0] && (paths + [path])[1..] == paths[1..] + [path];
      PrintedMore(paths[1..], path);
      assert paths[0] + "\n" + (Printed(paths[1..]) + path + "\n") == (paths[0] + "\n" + Printed(paths[1..])) + path + "\n";
    }
  }

  /** The script in the container: it writes the first `limit` ranked paths, one to a line. */
  method SearchFiles(paths: seq<string>, score: string -> Option<int>, limit: nat) returns (stdout: string)
    ensures stdout == Printed(PathsOf(Prefix(Rank(Hits(paths, score)), limit)))
  {
    hide Rank, Printed;
    var hits: seq<Hit> := [];
    assert paths[0..] == paths;
    for i := 0 to |paths|
      invariant hits + Hits(paths[i..], score) == Hits(paths, score)
    {
      assert paths[i..][1..] == paths[i + 1..];
      var s := score(paths[i]);
      ghost var rest := Hits(paths[i + 1..], score);
      if s.Some? {
        assert hits + ([Hit(s.value, paths[i])] + rest) == (hits + [Hit(s.value, paths[i])]) + rest;
        hits := hits + [Hit(s.value, paths[i])];
      } else {
        assert [] + rest == rest;
      }
    }
    assert hits + [] == hits;
    var ranked := PathsOf(Prefix(Rank(hits), limit));
    stdout := WriteLines(ranked);
  }

  /** The writing loop. */
  method WriteLines(paths: seq<string>) returns (stdout: string)
    ensures stdout == Printed(paths)
  {
    stdout := "";
    NothingPrinted();
    for i := 0 to |paths|
      invariant stdout == Printed(paths[..i])
    {
      PrintedMore(paths[..i], paths[i]);
      assert paths[..i] + [paths[i]] == paths[..i + 1];
      stdout := stdout + paths[i] + "\n";
    }
    assert paths[..|paths|] == paths;
  }

  lemma NothingPrinted()
    ensures Printed([]) == ""
  {
  }

  predicate Ranked(hits: seq<Hit>) {
    forall i, j :: 0 <= i < j < |hits| ==> NoWorse(hits[i], hits[j])
  }

  lemma NoWorseThrough(a: Hit, b: Hit, c: Hit)
    requires NoWorse(a, b) && NoWorse(b, c)
    ensures NoWorse(a, c)
  {
    if a.score == b.score == c.score {
      LexTransitive(a.path, b.path, c.path);
    }
  }

  lemma NoWorseTotal(a: Hit, b: Hit)
    ensures NoWorse(a, b) || NoWorse(b, a)
  {
    LexTotal(a.path, b.path);
  }

  lemma {:induction false} InsertRanked(h: Hit, ranked: seq<Hit>)
    requires Ranked(ranked)
    ensures Ranked(InsertHit(h, ranked)) && multiset(InsertHit(h, ranked)) == multiset{h} + multiset(ranked)
    decreases |ranked|
  {
    hide NoWorse;
    if ranked == [] {
    } else if NoWorse(h, ranked[0]) {
      forall j | 0 <= j < |ranked| ensures NoWorse(h, ranked[j]) {
        if j > 0 {
          NoWorseThrough(h, ranked[0], ranked[j]);
        }
      }
    } else {
      NoWorseTotal(h, ranked[0]);
      InsertRanked(h, ranked[1..]);
      var rest := InsertHit(h, ranked[1..]);
      assert ranked == [ranked[0]] + ranked[1..];
      forall j | 0 <= j < |rest| ensures NoWorse(ranked[0], rest[j]) {
        assert rest[j] in multiset(rest);
        if rest[j] != h {
          assert rest[j] in multiset(ranked[1..]);
          var k :| 0 <= k < |ranked[1..]| && ranked[1..][k] == rest[j];
        }
      }
    }
  }

  lemma {:induction false} RankExact(hits: seq<Hit>)
    ensures Ranked(Rank(hits)) && multiset(Rank(hits)) == multiset(hits)
    decreases |hits|
  {
    if hits != [] {
      RankExact(hits[1..]);
      InsertRanked(hits[0], Rank(hits[1..]));
      assert hits == [hits[0]] + hits[1..];
    }
  }

  // ---------------------------------------------------------------- reading the lines back

  /** Where str.splitlines ends a line. */
  predicate IsLineEnd(c: char) {
    var n := c as int;
    10 <= n <= 13 || 28 <= n <= 30 || n == 0x85 || n == 0x2028 || n == 0x2029
  }

  predicate OneLine(s: string) {
    forall i :: 0 <= i < |s| ==> !IsLineEnd(s[i])
  }

  /** The text up to the first line end. */
  function FirstLine(s: string): (r: string)
    ensures r <= s && OneLine(r) && (|r| < |s| ==> IsLineEnd(s[|r|]))
  {
    if s == "" || IsLineEnd(s[0]) then "" else [s[0]] + FirstLine(s[1..])
  }

  /** How many characters end the line; a carriage return takes a newline after it along. */
  function EndLength(s: string, at: nat): (n: nat)
    requires at <= |s|
    ensures at + n <= |s| && (at < |s| ==> n >= 1)
  {
    if at == |s| then 0 else if s[at] == '\r' && at + 1 < |s| && s[at + 1] == '\n' then 2 else 1
  }

  /** str.splitlines */
  function SplitLines(s: string): (lines: seq<string>)
    ensures forall l :: l in lines ==> OneLine(l)
    decreases |s|
  {
    if s == "" then []
    else
      var line := FirstLine(s);
      [line] + SplitLines(s[|line| + EndLength(s, |line|)..])
  }

  lemma {:induction false} FirstLineIs(line: string, rest: string)
    requires OneLine(line) && rest != "" && IsLineEnd(rest[0])
    ensures FirstLine(line + rest) == line
    decreases |line|
  {
    if line == "" {
      assert line + rest == rest;
    } else {
      assert (line + rest)[0] == line[0] && (line + rest)[1..] == line[1..] + rest;
      assert forall i :: 0 <= i < |line| - 1 ==> line[1..][i] == line[i + 1];
      FirstLineIs(line[1..], rest);
    }
  }

  lemma EndsByNewline(a: string)
    ensures |FirstLine(a + "\n")| <= |a|
  {
    var part := a + "\n";
    assert part[|a|] == '\n' && IsLineEnd('\n');
    assert forall i :: 0 <= i < |FirstLine(part)| ==> FirstLine(part)[i] == part[i];
  }

  /** The first line of a text that a newline closes, and what is left, do not depend on what follows the newline. */
  lemma FirstOfTwo(a: string, b: string) returns (line: string, n: nat)
    ensures line == FirstLine(a + "\n") == FirstLine(a + "\n" + b)
    ensures |line| < n <= |a| + 1
    ensures n == |line| + EndLength(a + "\n", |line|) == |line| + EndLength(a + "\n" + b, |line|)
  {
    hide FirstLine, IsLineEnd, OneLine;
    var part := a + "\n";
    line := FirstLine(part);
    EndsByNewline(a);
    assert part == line + part[|line|..];
    assert part + b == line + (part[|line|..] + b);
    FirstLineIs(line, part[|line|..] + b);
    n := |line| + EndLength(part, |line|);
    assert forall i :: 0 <= i < |part| ==> (part + b)[i] == part[i];
    assert part[|a|] == '\n';
  }

  lemma RestOfTwo(a: string, b: string, n: nat)
    requires 0 < n <= |a| + 1
    ensures (a + "\n" + b)[n..] == (a + "\n")[n..] + b
    ensures (a + "\n")[n..] == if n == |a| + 1 then "" else a[n..] + "\n"
  {
  }

  /** A newline ends a line whatever stands before it, so what follows it is split by itself. */
  lemma {:induction false} SplitAfterNewline(a: string, b: string)
    ensures SplitLines(a + "\n" + b) == SplitLines(a + "\n") + SplitLines(b)
    decreases |a|
  {
    hide *;
    var line, n := FirstOfTwo(a, b);
    SplitStep(a + "\n" + b);
    SplitStep(a + "\n");
    RestOfTwo(a, b, n);
    SplitNothing();
    if n == |a| + 1 {
      assert "" + b == b && [line] + SplitLines(b) == ([line] + []) + SplitLines(b);
    } else {
      SplitAfterNewline(a[n..], b);
      var rest := SplitLines(a[n..] + "\n");
      assert [line] + (rest + SplitLines(b)) == ([line] + rest) + SplitLines(b);
    }
  }

  lemma SplitStep(s: string)
    requires s != ""
    ensures SplitLines(s) == [FirstLine(s)] + SplitLines(s[|FirstLine(s)| + EndLength(s, |FirstLine(s)|)..])
  {
    hide FirstLine, EndLength, OneLine, IsLineEnd;
  }

  lemma SplitNothing()
    ensures SplitLines("") == []
  {
  }

  /** The lines a printed path takes up. */
  function LinesOf(path: string): seq<string> {
    SplitLines(path + "\n")
  }

  /** A path takes up its own line exactly when it holds no line end. */
  lemma OwnLine(path: string)
    ensures LinesOf(path) == [path] <==> OneLine(path)
    ensures |LinesOf(path)| >= 1
  {
    hide SplitLines, OneLine;
    SplitStep(path + "\n");
    if OneLine(path) {
      FirstLineIs(path, "\n");
      assert EndLength(path + "\n", |path|) == 1 && (path + "\n")[|path| + 1..] == "";
      SplitNothing();
    } else {
      assert path in [path];
    }
  }

  /** The lines beyond one that the printed paths take up. */
  function ExtraLines(paths: seq<string>): int {
    if paths == [] then 0 else |LinesOf(paths[0])| - 1 + ExtraLines(paths[1..])
  }

  lemma {:induction false} ExtraNone(paths: seq<string>)
    ensures ExtraLines(paths) >= 0
    ensures (forall i :: 0 <= i < |paths| ==> OneLine(paths[i])) ==> ExtraLines(paths) == 0
    decreases |paths|
  {
    hide LinesOf, OneLine;
    if paths != [] {
      OwnLine(paths[0]);
      ExtraNone(paths[1..]);
      assert forall i :: 0 <= i < |paths| - 1 ==> paths[1..][i] == paths[i + 1];
    }
  }

  lemma {:induction false} LineCount(paths: seq<string>)
    ensures |SplitLines(Printed(paths))| == |paths| + ExtraLines(paths)
    decreases |paths|
  {
    hide SplitLines;
    if paths == [] {
      SplitNothing();
    } else {
      SplitAfterNewline(paths[0], Printed(paths[1..]));
      LineCount(paths[1..]);
    }
  }

  /** Printed paths without line ends come back line by line, whatever is printed after them. */
  lemma {:induction false} LinesBack(paths: seq<string>, rest: seq<string>)
    requires forall i :: 0 <= i < |paths| ==> OneLine(paths[i])
    ensures SplitLines(Printed(paths + rest)) == paths + SplitLines(Printed(rest))
    decreases |paths|
  {
    hide SplitLines, OneLine;
    if paths == [] {
      assert paths + rest == rest;
    } else {
      assert (paths + rest)[0] == paths[0] && (paths + rest)[1..] == paths[1..] + rest;
      SplitAfterNewline(paths[0], Printed(paths[1..] + rest));
      OwnLine(paths[0]);
      assert forall i :: 0 <= i < |paths| - 1 ==> paths[1..][i] == paths[i + 1];
      LinesBack(paths[1..], rest);
      assert [paths[0]] + (paths[1..] + SplitLines(Printed(rest))) == paths + SplitLines(Printed(rest));
    }
  }

  // ---------------------------------------------------------------- the reply

  datatype Found = Found(stdout: string, returned: seq<string>, truncated: bool)

  /** "\n".join */
  function JoinLines(lines: seq<string>): string {
    if lines == [] then "" else if |lines| == 1 then lines[0] else lines[0] + "\n" + JoinLines(lines[1..])
  }

  /** _run_compact_search_command, on what the container printed. */
  function Compact(stdout: string, topK: nat): Found {
    var lines := SplitLines(stdout);
    var joined := JoinLines(Prefix(lines, topK));
    Found(if joined == "" then "" else joined + "\n", Prefix(lines, topK), |lines| > topK)
  }

  lemma {:induction false} JoinIsPrinted(lines: seq<string>)
    requires forall i :: 0 <= i < |lines| ==> lines[i] != ""
    ensures Printed(lines) == if JoinLines(lines) == "" then "" else JoinLines(lines) + "\n"
    decreases |lines|
  {
    if |lines| == 1 {
      assert lines[1..] == [];
      assert lines[0] + "\n" + "" == lines[0] + "\n";
    } else if lines != [] {
      assert forall i :: 0 <= i < |lines| - 1 ==> lines[1..][i] == lines[i + 1];
      JoinIsPrinted(lines[1..]);
      assert lines[1..][0] == lines[1] != "";
    }
  }

  /** The reply of the whole search. */
  function Reply(paths: seq<string>, score: string -> Option<int>, topK: nat): Found {
    Compact(Printed(PathsOf(Prefix(Rank(Hits(paths, score)), topK + 1))), topK)
  }

  /** The best `count` of all matching paths. */
  function Top(paths: seq<string>, score: string -> Option<int>, count: nat): seq<string> {
    PathsOf(Prefix(Rank(Hits(paths, score)), count))
  }

  /** Each path with a score is a hit with that score, and no other is, in the order of the paths. */
  lemma {:induction false} HitsExact(paths: seq<string>, path: string, score: string -> Option<int>)
    ensures Hits([], score) == []
    ensures Hits(paths + [path], score) ==
      Hits(paths, score) + if score(path).Some? then [Hit(score(path).value, path)] else []
    decreases |paths|
  {
    if paths == [] {
      assert paths + [path] == [path] && [path][1..] == [];
    } else {
      assert (paths + [path])[0] == paths[0] && (paths + [path])[1..] == paths[1..] + [path];
      HitsExact(paths[1..], path, score);
    }
  }

  ghost predicate DiffersBelow(a: string, b: string) {
    exists k :: 0 <= k < |a| && k < |b| && SameUpTo(a, b, k) && a[k] < b[k]
  }

  ghost predicate SameUpTo(a: string, b: string, k: nat)
    requires k <= |a| && k <= |b|
  {
    forall i :: 0 <= i < k ==> a[i] == b[i]
  }

  lemma FirstSame(a: string, b: string)
    requires a != [] && b != [] && a[0] == b[0]
    ensures DiffersBelow(a, b) <==> DiffersBelow(a[1..], b[1..])
    ensures a <= b <==> a[1..] <= b[1..]
  {
    var c, d := a[1..], b[1..];
    assert a == [a[0]] + c && b == [b[0]] + d;
    if DiffersBelow(a, b) {
      var k :| 0 <= k < |a| && k < |b| && SameUpTo(a, b, k) && a[k] < b[k];
      assert SameUpTo(c, d, k - 1) && c[k - 1] < d[k - 1];
    }
    if DiffersBelow(c, d) {
      var k :| 0 <= k < |c| && k < |d| && SameUpTo(c, d, k) && c[k] < d[k];
      assert SameUpTo(a, b, k + 1) && a[k + 1] < b[k + 1];
    }
  }

  lemma FirstDiffers(a: string, b: string)
    requires a != [] && b != [] && a[0] != b[0]
    ensures DiffersBelow(a, b) <==> a[0] < b[0]
  {
    if a[0] < b[0] {
      assert SameUpTo(a, b, 0);
    }
  }

  /** Python's order of strings: a prefix first, and otherwise the smaller character at the first difference. */
  lemma {:induction false} LexExact(a: string, b: string)
    ensures LexLe(a, b) <==> a <= b || DiffersBelow(a, b)
    decreases |a|
  {
    if a != [] && b != [] {
      if a[0] == b[0] {
        FirstSame(a, b);
        LexExact(a[1..], b[1..]);
      } else {
        FirstDiffers(a, b);
      }
    }
  }

  /** No path of the top is worse than a matching path that is not in it: a higher score is better, and of two equal ones
      the smaller path. */
  lemma TopIsBest(paths: seq<string>, score: string -> Option<int>, topK: nat)
    ensures var hits := Hits(paths, score);
      && multiset(Rank(hits)) == multiset(hits) && |Rank(hits)| == |hits|
      && |Top(paths, score, topK)| == (if |hits| <= topK then |hits| else topK)
      && (forall i :: 0 <= i < |Top(paths, score, topK)| ==> Top(paths, score, topK)[i] == Rank(hits)[i].path)
      && forall i, j :: 0 <= i < j < |hits| ==>
           && Rank(hits)[i].score >= Rank(hits)[j].score
           && (Rank(hits)[i].score == Rank(hits)[j].score ==> LexLe(Rank(hits)[i].path, Rank(hits)[j].path))
  {
    var hits := Hits(paths, score);
    RankExact(hits);
    assert |multiset(Rank(hits))| == |Rank(hits)| && |multiset(hits)| == |hits|;
  }

  lemma PrefixParts(s: seq<string>, k: nat)
    requires |s| <= k + 1
    ensures s == Prefix(s, k) + s[|Prefix(s, k)|..]
  {
  }

  lemma TopGrows(paths: seq<string>, score: string -> Option<int>, k: nat)
    ensures Prefix(Top(paths, score, k + 1), k) == Top(paths, score, k)
    ensures |Top(paths, score, k + 1)| <= k + 1
    ensures |Top(paths, score, k + 1)| > k <==> |Hits(paths, score)| > k
    ensures |Hits(paths, score)| <= k ==> |Top(paths, score, k + 1)| == |Hits(paths, score)|
  {
    hide NoWorse;
    var hits := Hits(paths, score);
    RankExact(hits);
    assert |multiset(Rank(hits))| == |Rank(hits)| && |multiset(hits)| == |hits|;
    assert Prefix(Top(paths, score, k + 1), k) == Top(paths, score, k);
  }

  /** The reply lists the true top k exactly when none of its paths holds a line end. */
  lemma TopKExact(paths: seq<string>, score: string -> Option<int>, topK: nat)
    ensures var found, top := Reply(paths, score, topK), Top(paths, score, topK);
      && (found.returned == top <==> forall i :: 0 <= i < |top| ==> OneLine(top[i]))
      && (found.returned == top && (forall i :: 0 <= i < |top| ==> top[i] != "") ==> found.stdout == Printed(top))
  {
    hide SplitLines, OneLine, Rank, Hits, JoinLines, Printed;
    var found, top, fetched := Reply(paths, score, topK), Top(paths, score, topK), Top(paths, score, topK + 1);
    var rest := fetched[|top|..];
    TopGrows(paths, score, topK);
    PrefixParts(fetched, topK);
    if forall i :: 0 <= i < |top| ==> OneLine(top[i]) {
      LinesBack(top, rest);
      NothingPrinted();
      SplitNothing();
    }
    if found.returned == top {
      forall i | 0 <= i < |top| ensures OneLine(top[i]) {
        assert found.returned[i] in SplitLines(Printed(fetched));
      }
      if forall i :: 0 <= i < |top| ==> top[i] != "" {
        JoinIsPrinted(top);
      }
    }
  }

  /** The truncated flag tells whether more than k paths match exactly when more do, or when the line ends in the
      matching paths do not make up for it; in particular when no printed path holds one. */
  lemma TruncatedExact(paths: seq<string>, score: string -> Option<int>, topK: nat)
    ensures var found, fetched, matching := Reply(paths, score, topK), Top(paths, score, topK + 1), |Hits(paths, score)|;
      && ((found.truncated <==> matching > topK) <==> matching > topK || matching + ExtraLines(fetched) <= topK)
      && ((forall i :: 0 <= i < |fetched| ==> OneLine(fetched[i])) ==> (found.truncated <==> matching > topK))
  {
    hide SplitLines, OneLine, Rank, Hits, JoinLines, Printed;
    var fetched := Top(paths, score, topK + 1);
    TopGrows(paths, score, topK);
    LineCount(fetched);
    ExtraNone(fetched);
  }

  /** One match whose name holds a newline: half of its name is returned, and truncation reported. */
  lemma NewlineInName(score: string -> Option<int>)
    requires score("a\nb").Some?
    ensures Hits(["a\nb"], score) == [Hit(score("a\nb").value, "a\nb")] && Top(["a\nb"], score, 1) == ["a\nb"]
    ensures Reply(["a\nb"], score, 1) == Found("a\n", ["a"], true)
  {
    var paths := ["a\nb"];
    var hit := Hit(score("a\nb").value, "a\nb");
    assert paths[1..] == [];
    assert Hits(paths, score) == [hit] + Hits([], score) == [hit];
    assert Rank([hit]) == InsertHit(hit, Rank([hit][1..])) == [hit];
    assert PathsOf([hit]) == ["a\nb"];
    NewlineSplit();
  }

  lemma NewlineSplit()
    ensures SplitLines(Printed(["a\nb"])) == ["a", "b"]
  {
    hide SplitLines, OneLine, Printed;
    assert ["a\nb"][1..] == [];
    NothingPrinted();
    PrintedMore([], "a\nb");
    assert [] + ["a\nb"] == ["a\nb"] && "" + "a\nb" + "\n" == "a\nb\n";
    assert "a\nb\n" == "a" + "\n" + "b\n" && "b\n" == "b" + "\n";
    SplitAfterNewline("a", "b\n");
    PlainLine("a");
    PlainLine("b");
  }

  lemma PlainLine(s: string)
    requires |s| == 1 && 'a' <= s[0] <= 'z'
    ensures LinesOf(s) == [s]
  {
    OwnLine(s);
  }
}
