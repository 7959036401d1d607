/** Python string operations the models are written with: strip, find, search, lower-casing and prefixes at a
    place. A string is a sequence of Unicode scalar values. */
module Text {

  datatype Option<+T> = None | Some(value: T)

  /** str.isspace of one character; also what strip() removes and what `\s` matches. */
  predicate IsSpace(c: char) {
    var n := c as int;
    9 <= n <= 13 || 28 <= n <= 32 || n == 0x85 || n == 0xA0 || n == 0x1680 || 0x2000 <= n <= 0x200A
    || n == 0x2028 || n == 0x2029 || n == 0x202F || n == 0x205F || n == 0x3000
  }

  /** `\w` for one character; letters beyond ASCII are approximated by "not a space". */
  predicate IsWord(c: char) {
    'a' <= c <= 'z' || 'A' <= c <= 'Z' || '0' <= c <= '9' || c == '_' || (c as int >= 0x80 && !IsSpace(c))
  }

  predicate AllSpace(s: string) {
    forall i :: 0 <= i < |s| ==> IsSpace(s[i])
  }

  function LStrip(s: string): string {
    if s != [] && IsSpace(s[0]) then LStrip(s[1..]) else s
  }

  function RStrip(s: string): string {
    if s != [] && IsSpace(s[|s| - 1]) then RStrip(s[..|s| - 1]) else s
  }

  function Strip(s: string): string {
    RStrip(LStrip(s))
  }

  /** lstrip("\n") */
  function DropNewlines(s: string): string {
    if s != [] && s[0] == '\n' then DropNewlines(s[1..]) else s
  }

  /** A string that strip() leaves alone. */
  predicate Stripped(s: string) {
    s == [] || (!IsSpace(s[0]) && !IsSpace(s[|s| - 1]))
  }

  lemma {:induction false} LStripCuts(s: string)
    ensures |LStrip(s)| <= |s| && LStrip(s) == s[|s| - |LStrip(s)|..]
    ensures LStrip(s) != [] ==> !IsSpace(LStrip(s)[0])
    ensures AllSpace(s[..|s| - |LStrip(s)|])
    decreases |s|
  {
    if s != [] && IsSpace(s[0]) {
      LStripCuts(s[1..]);
      var cut := |s| - |LStrip(s)|;
      assert s[..cut] == [s[0]] + s[1..][..cut - 1];
    }
  }

  lemma {:induction false} RStripCuts(s: string)
    ensures |RStrip(s)| <= |s| && RStrip(s) == s[..|RStrip(s)|]
    ensures RStrip(s) != [] ==> !IsSpace(RStrip(s)[|RStrip(s)| - 1])
    ensures AllSpace(s[|RStrip(s)|..])
    decreases |s|
  {
    if s != [] && IsSpace(s[|s| - 1]) {
      RStripCuts(s[..|s| - 1]);
      var keep := |RStrip(s)|;
      assert s[keep..] == s[..|s| - 1][keep..] + [s[|s| - 1]];
    }
  }

  lemma StripProperties(s: string)
    ensures Stripped(Strip(s))
    ensures Strip(s) == s <==> Stripped(s)
    ensures Strip(s) == [] <==> AllSpace(s)
    ensures |Strip(s)| <= |s|
  {
    LStripCuts(s);
    RStripCuts(LStrip(s));
    var l := LStrip(s);
    var r := RStrip(l);
    if r == [] {
      assert s == s[..|s| - |l|] + l;
    } else {
      assert r[0] == l[0];
      assert l[0] == s[|s| - |l|];
    }
  }

  /** str.lower, as far as an ASCII name can tell. */
  function LowerChar(c: char): char {
    if 'A' <= c <= 'Z' then (c as int + 32) as char else c
  }

  function Lower(s: string): string {
    seq(|s|, i requires 0 <= i < |s| => LowerChar(s[i]))
  }

  /** `lit` stands in `s` at position `i`. */
  predicate StartsAt(s: string, i: int, lit: string) {
    0 <= i && i + |lit| <= |s| && forall k :: 0 <= k < |lit| ==> s[i + k] == lit[k]
  }

  function SkipSpaces(s: string, i: nat): (j: nat)
    requires i <= |s|
    ensures i <= j <= |s|
    ensures forall k :: i <= k < j ==> IsSpace(s[k])
    ensures j < |s| ==> !IsSpace(s[j])
    decreases |s| - i
  {
    if i < |s| && IsSpace(s[i]) then SkipSpaces(s, i + 1) else i
  }

  /** str.find from `from`: the first occurrence, or -1. */
  function Find(lit: string, s: string, from: nat): (r: int)
    ensures r == -1 || (from <= r && r + |lit| <= |s| && StartsAt(s, r, lit))
    ensures forall k :: from <= k && (r == -1 || k < r) ==> !StartsAt(s, k, lit)
    decreases |s| - from
  {
    if from + |lit| > |s| then -1
    else if StartsAt(s, from, lit) then from
    else Find(lit, s, from + 1)
  }

  /** The two XML opener regexes. */
  datatype Opener = ToolOpener | ThinkOpener

  /** The word boundary after a pattern that ends in a letter. */
  predicate WordEnds(s: string, i: nat) {
    i < |s| ==> !IsWord(s[i])
  }

  /** `\bname\s*=` at position `k`. */
  predicate NameAttributeAt(s: string, k: nat) {
    && 0 < k && StartsAt(s, k, "name") && !IsWord(s[k - 1])
    && var j := SkipSpaces(s, k + 4);
    j < |s| && s[j] == '='
  }

  /** `[^>]*\bname\s*=` from position `k`. */
  predicate NameAttributeFrom(s: string, k: nat)
    decreases |s| - k
  {
    k < |s| && (NameAttributeAt(s, k) || (s[k] != '>' && NameAttributeFrom(s, k + 1)))
  }

  predicate OpensAt(p: Opener, s: string, i: int) {
    match p
    case ToolOpener => StartsAt(s, i, "<tool_call") && WordEnds(s, i + 10) && NameAttributeFrom(s, i + 10)
    case ThinkOpener => StartsAt(s, i, "<think") && WordEnds(s, i + 6)
  }

  /** re.search from `from`: the first match, or -1. */
  function Search(p: Opener, s: string, from: nat): (r: int)
    ensures r == -1 || (from <= r < |s| && OpensAt(p, s, r))
    ensures forall k :: from <= k && (r == -1 || k < r) ==> !OpensAt(p, s, k)
    decreases |s| - from
  {
    if from >= |s| then -1
    else if OpensAt(p, s, from) then from
    else Search(p, s, from + 1)
  }

  lemma StartsIsSlice(s: string, i: nat, lit: string)
    ensures StartsAt(s, i, lit) <==> i + |lit| <= |s| && s[i..i + |lit|] == lit
  {
    if i + |lit| <= |s| {
      var here := s[i..i + |lit|];
      assert forall k :: 0 <= k < |lit| ==> here[k] == s[i + k];
      if here == lit {
        assert forall k :: 0 <= k < |lit| ==> here[k] == lit[k];
      }
    }
  }

  /** A concatenation stands at `i` exactly when its parts stand one after the other. */
  lemma SplitAt(s: string, i: nat, a: string, b: string)
    ensures StartsAt(s, i, a + b) <==> StartsAt(s, i, a) && StartsAt(s, i + |a|, b)
  {
    var ab := a + b;
    assert forall k :: 0 <= k < |a| ==> ab[k] == a[k];
    assert forall k :: 0 <= k < |b| ==> ab[|a| + k] == b[k];
    if StartsAt(s, i, a) && StartsAt(s, i + |a|, b) {
      forall k | 0 <= k < |ab| ensures s[i + k] == ab[k] {
        if k >= |a| {
          assert ab[k] == b[k - |a|] == s[i + |a| + (k - |a|)];
        }
      }
    }
    if StartsAt(s, i, ab) {
      forall k | 0 <= k < |b| ensures s[i + |a| + k] == b[k] {
        assert ab[|a| + k] == s[i + (|a| + k)];
      }
    }
  }

  /** A text does not stand where one of its first two characters differs. */
  lemma NotStarting(s: string, i: nat, lit: string)
    requires i < |s| && lit != []
    requires s[i] != lit[0] || (i + 1 < |s| && |lit| > 1 && s[i + 1] != lit[1])
    ensures !StartsAt(s, i, lit)
  {
  }

  lemma FirstTwo(s: string, k: nat, lit: string)
    requires |lit| >= 2
    ensures StartsAt(s, k, lit) ==> k + 1 < |s| && s[k] == lit[0] && s[k + 1] == lit[1]
  {
    assert StartsAt(s, k, lit) ==> s[k + 0] == lit[0];
  }

  lemma NotBeyond(s: string, lit: string)
    requires lit != []
    ensures forall k :: k >= |s| ==> !StartsAt(s, k, lit)
  {
  }

  /** What stands inside a text that stands in `s` stands in `s`, and conversely. */
  lemma StartsInside(s: string, i: nat, t: string, k: nat, lit: string)
    requires StartsAt(s, i, t) && k + |lit| <= |t|
    ensures StartsAt(s, i + k, lit) <==> StartsAt(t, k, lit)
  {
    forall j | 0 <= j < |lit| ensures s[i + k + j] == lit[j] <==> t[k + j] == lit[j] {
      assert t[k + j] == s[i + (k + j)];
    }
  }

  /** `r` is what is left at the end of `s`. */
  predicate Ends(s: string, r: string) {
    |r| <= |s| && s[|s| - |r|..] == r
  }

  lemma EndsThrough(s: string, t: string, r: string)
    requires Ends(s, t) && Ends(t, r)
    ensures Ends(s, r) && |r| <= |t| <= |s|
    ensures |r| < |t| ==> s[|s| - |r| - 1] == t[|t| - |r| - 1]
    ensures |r| + 1 < |t| ==> s[|s| - |r| - 2] == t[|t| - |r| - 2]
  {
    assert forall i :: 0 <= i < |t| ==> t[i] == s[|s| - |t| + i];
  }

  lemma Drop(s: string, n: nat)
    requires n <= |s|
    ensures Ends(s, s[n..])
  {
  }
}
