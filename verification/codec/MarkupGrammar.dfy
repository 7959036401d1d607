/** What the element scanner, the sequence scanner and the construct rejector accept, over every text. */
module MarkupGrammar {
  import opened Text
  import opened ActionRender
  import opened ElementScanner
  import opened ScannerExact
  import opened RejectorAccepts
  import opened DelimiterGrammar

  // ---------------------------------------------------------------- tags

  /** A section or a comment from `i` to `end`: its opener, the first closer after it, and nothing more. */
  ghost predicate Enclosed(s: string, i: nat, end: nat, open: string, close: string) {
    && StartsAt(s, i, open) && i + |open| + |close| <= end && StartsAt(s, end - |close|, close)
    && forall k :: i + |open| <= k < end - |close| ==> !StartsAt(s, k, close)
  }

  /** A tag whose text stands from `i + 1` to `end - 1`, with no closing `>` in it outside quotes. */
  ghost predicate TagAt(s: string, i: nat, end: nat) {
    && i + 2 <= end <= |s| && s[i] == '<' && s[end - 1] == '>' && Quiet(s[i + 1..end - 1], None)
    && !StartsAt(s, i, "<![CDATA[") && !StartsAt(s, i, "<!--")
  }

  function TagBody(s: string, i: nat, end: nat): string
    requires i + 2 <= end <= |s|
  {
    Strip(s[i + 1..end - 1])
  }

  /** The tag opens, closes, or opens and closes an element; it is no declaration and no instruction. */
  ghost predicate OfElement(body: string) {
    body != "" && body[0] !in "?!"
  }

  ghost predicate Closing(body: string) {
    OfElement(body) && body[0] == '/'
  }

  ghost predicate SelfClosing(body: string) {
    OfElement(body) && body[0] != '/' && body[|body| - 1] == '/'
  }

  /** The scan goes on from `i` at `depth` to `next` at `newDepth`: past a character, a section, a comment, or a tag that
      does not end the element entered first. */
  ghost predicate Passes(s: string, i: nat, depth: nat, next: nat, newDepth: nat) {
    || (i < |s| && s[i] != '<' && next == i + 1 && newDepth == depth)
    || ((Enclosed(s, i, next, "<![CDATA[", "]]>") || Enclosed(s, i, next, "<!--", "-->")) && newDepth == depth)
    || (TagAt(s, i, next) && OfElement(TagBody(s, i, next)) &&
          if Closing(TagBody(s, i, next)) then depth >= 2 && newDepth == depth - 1
          else if SelfClosing(TagBody(s, i, next)) then depth >= 1 && newDepth == depth
          else newDepth == depth + 1)
  }

  /** The tag at `i` ends the element entered first. */
  ghost predicate Leaves(s: string, i: nat, depth: nat, end: nat) {
    TagAt(s, i, end) && if Closing(TagBody(s, i, end)) then depth == 1 else SelfClosing(TagBody(s, i, end)) && depth == 0
  }

  lemma {:induction false} TagEndFound(s: string, i: nat, q: Option<char>)
    requires i <= |s|
    ensures var r := TagEndFrom(s, i, q);
      r.Some? ==> i < r.value <= |s| && s[r.value - 1] == '>' && Quiet(s[i..r.value - 1], q)
    decreases |s| - i
  {
    if i < |s| && TagEndFrom(s, i, q).Some? {
      var c, end := s[i], TagEndFrom(s, i, q).value;
      if q.None? && c == '>' {
        assert s[i..end - 1] == "";
      } else {
        TagEndFound(s, i + 1, if q.None? then (if c == '"' || c == '\'' then Some(c) else None)
                              else if c == q.value then None else q);
        assert s[i..end - 1] == [c] + s[i + 1..end - 1];
      }
    }
  }

  lemma TagEndExact(s: string, i: nat, end: nat)
    requires i <= |s|
    ensures TagEndFrom(s, i, None) == Some(end) <==> i < end <= |s| && s[end - 1] == '>' && Quiet(s[i..end - 1], None)
  {
    hide Quiet, TagEndFrom, StartsAt;
    TagEndFound(s, i, None);
    if i < end <= |s| && s[end - 1] == '>' && Quiet(s[i..end - 1], None) {
      StartsIsSlice(s, i, s[i..end - 1]);
      TagEndOver(s, i, s[i..end - 1], None);
    }
  }

  lemma EnclosedExact(s: string, i: nat, end: nat, open: string, close: string)
    requires StartsAt(s, i, open) && close != ""
    ensures Enclosed(s, i, end, open, close) <==> Find(close, s, i + |open|) == end - |close| && end >= |close|
  {
    hide StartsAt;
  }

  // ---------------------------------------------------------------- the element scanner

  lemma StepExact(s: string, i: nat, depth: nat, next: nat, newDepth: nat)
    requires i < |s|
    ensures ScanStep(s, i, depth) == Move(next, newDepth) <==> Passes(s, i, depth, next, newDepth)
    ensures ScanStep(s, i, depth) == Found(Some(next)) <==> Leaves(s, i, depth, next)
  {
    hide StartsAt, Quiet, Strip, Find, Enclosed, TagEndFrom;
    var section, comment := StartsAt(s, i, "<![CDATA["), StartsAt(s, i, "<!--");
    NotBoth(s, i);
    if section {
      EnclosedExact(s, i, next, "<![CDATA[", "]]>");
      NotEnclosed(s, i, next, "<!--", "-->");
    } else if comment {
      EnclosedExact(s, i, next, "<!--", "-->");
      NotEnclosed(s, i, next, "<![CDATA[", "]]>");
    } else {
      NotEnclosed(s, i, next, "<!--", "-->");
      NotEnclosed(s, i, next, "<![CDATA[", "]]>");
      TagEndExact(s, i + 1, next);
    }
  }

  lemma NotEnclosed(s: string, i: nat, end: nat, open: string, close: string)
    requires !StartsAt(s, i, open)
    ensures !Enclosed(s, i, end, open, close)
  {
    hide StartsAt;
  }

  lemma NotBoth(s: string, i: nat)
    ensures StartsAt(s, i, "<![CDATA[") ==> !StartsAt(s, i, "<!--") && s[i] == '<'
    ensures StartsAt(s, i, "<!--") ==> s[i] == '<'
  {
    assert StartsAt(s, i, "<![CDATA[") ==> s[i + 2] == "<![CDATA["[2] && s[i] == "<![CDATA["[0];
    assert StartsAt(s, i, "<!--") ==> s[i + 2] == "<!--"[2] && s[i] == "<!--"[0];
  }

  /** The places and depths the scan goes through. */
  ghost predicate Path(s: string, path: seq<(nat, nat)>) {
    forall n :: 0 < n < |path| ==> Passes(s, path[n - 1].0, path[n - 1].1, path[n].0, path[n].1)
  }

  ghost predicate Scanned(s: string, i: nat, depth: nat, path: seq<(nat, nat)>, end: nat) {
    path != [] && path[0] == (i, depth) && Path(s, path) && Leaves(s, path[|path| - 1].0, path[|path| - 1].1, end)
  }

  lemma LeavesInside(s: string, i: nat, depth: nat, end: nat)
    requires Leaves(s, i, depth, end)
    ensures i < |s|
  {
    hide Strip, Quiet, StartsAt;
  }

  lemma PassesInside(s: string, i: nat, depth: nat, next: nat, newDepth: nat)
    requires Passes(s, i, depth, next, newDepth)
    ensures i < |s| && i < next <= |s|
  {
    hide Strip, Quiet;
    FirstTwo(s, i, "<![CDATA[");
    FirstTwo(s, i, "<!--");
  }

  lemma {:induction false} ScanFound(s: string, i: nat, depth: nat) returns (path: seq<(nat, nat)>)
    requires ElementEndFrom(s, i, depth).Some?
    ensures Scanned(s, i, depth, path, ElementEndFrom(s, i, depth).value)
    decreases |s| - i
  {
    hide Passes, Leaves, ScanStep;
    match ScanStep(s, i, depth)
    case Found(end) =>
      StepExact(s, i, depth, end.value, 0);
      path := [(i, depth)];
    case Move(next, newDepth) =>
      StepExact(s, i, depth, next, newDepth);
      var rest := ScanFound(s, next, newDepth);
      path := [(i, depth)] + rest;
      assert forall n :: 0 < n < |path| ==> path[n] == rest[n - 1];
  }

  lemma {:induction false} ScanFollows(s: string, i: nat, depth: nat, path: seq<(nat, nat)>, end: nat)
    requires Scanned(s, i, depth, path, end)
    ensures ElementEndFrom(s, i, depth) == Some(end)
    decreases |path|
  {
    hide Passes, Leaves, ScanStep;
    if |path| == 1 {
      LeavesInside(s, i, depth, end);
      StepExact(s, i, depth, end, 0);
    } else {
      var (next, newDepth) := path[1];
      assert Passes(s, path[0].0, path[0].1, path[1].0, path[1].1);
      PassesInside(s, i, depth, next, newDepth);
      StepExact(s, i, depth, next, newDepth);
      var rest := path[1..];
      assert forall n :: 0 <= n < |rest| ==> rest[n] == path[n + 1];
      ScanFollows(s, next, newDepth, rest, end);
    }
  }

  /** Over every text: the scanner finds `end` exactly when the tags up to it, with sections, comments and quoted text left
      out, first close there what the first of them opened. */
  lemma ElementExactly(s: string, start: nat, end: nat)
    ensures ElementEnd(s, start) == Some(end) <==>
      start < |s| && s[start] == '<' && exists path :: Scanned(s, start, 0, path, end)
  {
    hide ElementEndFrom, Scanned;
    if ElementEnd(s, start) == Some(end) {
      var path := ScanFound(s, start, 0);
    }
    if start < |s| && s[start] == '<' && exists path :: Scanned(s, start, 0, path, end) {
      var path :| Scanned(s, start, 0, path, end);
      ScanFollows(s, start, 0, path, end);
    }
  }

  // ---------------------------------------------------------------- the sequence scanner

  /** A tool-call element at `i` and the blanks behind it, up to `next`. */
  ghost predicate BlockUpTo(s: string, i: nat, next: nat) {
    && OpensAt(ToolOpener, s, i)
    && exists end: nat ::
         ElementEnd(s, i) == Some(end) && end <= next <= |s| && AllSpace(s[end..next]) && (next < |s| ==> !IsSpace(s[next]))
  }

  ghost predicate BlockPath(s: string, path: seq<nat>) {
    forall n :: 0 < n < |path| ==> BlockUpTo(s, path[n - 1], path[n])
  }

  /** The blocks from `start` to `end`; no further one follows. */
  ghost predicate Blocks(s: string, start: nat, path: seq<nat>, end: nat) {
    path != [] && path[0] == start && BlockPath(s, path) && path[|path| - 1] == end && !OpensAt(ToolOpener, s, end)
  }

  lemma OpensInside(s: string, i: nat)
    ensures OpensAt(ToolOpener, s, i) ==> i < |s|
  {
    FirstTwo(s, i, "<tool_call");
  }

  lemma BlockExact(s: string, i: nat, next: nat)
    ensures BlockUpTo(s, i, next) <==>
      OpensAt(ToolOpener, s, i) && ElementEnd(s, i).Some? && SkipSpaces(s, ElementEnd(s, i).value) == next
  {
    hide OpensAt, ElementEnd, IsSpace, SkipSpaces;
    if OpensAt(ToolOpener, s, i) && ElementEnd(s, i).Some? {
      var end := ElementEnd(s, i).value;
      SkippedBlank(s, end);
      if end <= next <= |s| && AllSpace(s[end..next]) && (next < |s| ==> !IsSpace(s[next])) {
        SkipIs(s, end, next);
      }
    }
  }

  lemma {:induction false} BlocksFound(s: string, cursor: nat, count: nat) returns (path: seq<nat>)
    requires SequenceFrom(s, cursor, count).Some?
    ensures var (end, total) := SequenceFrom(s, cursor, count).value;
      Blocks(s, cursor, path, end) && total == count + |path| - 1 && (total == 0 ==> cursor >= |s|)
    decreases |s| - cursor
  {
    hide OpensAt, ElementEnd, SkipSpaces, BlockUpTo;
    OpensInside(s, cursor);
    if cursor >= |s| || !OpensAt(ToolOpener, s, cursor) {
      path := [cursor];
    } else {
      var next := SkipSpaces(s, ElementEnd(s, cursor).value);
      BlockExact(s, cursor, next);
      var rest := BlocksFound(s, next, count + 1);
      path := [cursor] + rest;
      assert forall n :: 0 < n < |path| ==> path[n] == rest[n - 1];
    }
  }

  lemma {:induction false} BlocksFollow(s: string, cursor: nat, count: nat, path: seq<nat>, end: nat)
    requires Blocks(s, cursor, path, end) && (count + |path| > 1 || cursor >= |s|)
    ensures SequenceFrom(s, cursor, count) == Some((end, count + |path| - 1))
    decreases |path|
  {
    hide OpensAt, ElementEnd, SkipSpaces, BlockUpTo;
    if |path| > 1 {
      assert BlockUpTo(s, path[0], path[1]);
      BlockExact(s, cursor, path[1]);
      OpensInside(s, cursor);
      var rest := path[1..];
      assert forall n :: 0 <= n < |rest| ==> rest[n] == path[n + 1];
      BlocksFollow(s, path[1], count + 1, rest, end);
    }
  }

  /** Over every text: the sequence scanner gives `end` and `count` exactly when that many tool-call elements stand one after
      the other up to there, at least one unless the text is over. */
  lemma SequenceExactly(s: string, start: nat, end: nat, count: nat)
    ensures SequenceFrom(s, start, 0) == Some((end, count)) <==>
      (count > 0 || start >= |s|) && exists path :: |path| == count + 1 && Blocks(s, start, path, end)
  {
    hide SequenceFrom, Blocks;
    if SequenceFrom(s, start, 0) == Some((end, count)) {
      var path := BlocksFound(s, start, 0);
    }
    if (count > 0 || start >= |s|) && exists path :: |path| == count + 1 && Blocks(s, start, path, end) {
      var path :| |path| == count + 1 && Blocks(s, start, path, end);
      BlocksFollow(s, start, 0, path, end);
    }
  }

  // ---------------------------------------------------------------- the rejector

  predicate NameLead(c: char) {
    'a' <= c <= 'z' || 'A' <= c <= 'Z' || c == '_'
  }

  predicate IsEntityName(name: string) {
    name != "" && NameLead(name[0]) && forall i :: 0 < i < |name| ==> NameLead(name[i]) || name[i] in "0123456789.:-"
  }

  /** No declaration, instruction or comment in either case, and no named reference but the built-in ones. */
  ghost predicate Harmless(m: string) {
    && (forall k, lit :: lit in ["<!doctype", "<!entity", "<?", "<!--"] ==> !StartsAt(Lower(m), k, lit))
    && forall i, j :: 0 <= i < j < |m| && m[i] == '&' && m[j] == ';' && IsEntityName(m[i + 1..j]) ==>
         m[i + 1..j] in ["lt", "gt", "amp", "quot", "apos"]
  }

  /** From `i`, harmless text up to a section, which ends at `next`. */
  ghost predicate SectionUpTo(s: string, i: nat, next: nat) {
    exists from: nat ::
      && i <= from <= |s| && (forall k :: i <= k < from ==> !StartsAt(s, k, "<![CDATA["))
      && Enclosed(s, from, next, "<![CDATA[", "]]>") && Harmless(s[i..from])
  }

  /** From `i`, harmless text and no section. */
  ghost predicate NoSection(s: string, i: nat) {
    i >= |s| || (Harmless(s[i..]) && forall k :: i <= k ==> !StartsAt(s, k, "<![CDATA["))
  }

  ghost predicate Sections(s: string, start: nat, path: seq<nat>) {
    && path != [] && path[0] == start && NoSection(s, path[|path| - 1])
    && forall n :: 0 < n < |path| ==> SectionUpTo(s, path[n - 1], path[n])
  }

  lemma NameChars(name: string)
    ensures IsEntityName(name) <==> name != "" && EntityStart(name[0]) && forall i :: 0 <= i < |name| ==> EntityChar(name[i])
  {
  }

  lemma ReferenceExact(m: string, i: nat)
    requires i < |m| && m[i] == '&'
    ensures ReferenceAllowed(m, i) <==>
      forall j :: i < j < |m| && m[j] == ';' && IsEntityName(m[i + 1..j]) ==> m[i + 1..j] in ["lt", "gt", "amp", "quot", "apos"]
  {
    hide TakeEntity, IsEntityName, EntityStart;
    var rest := m[i + 1..];
    var name := TakeEntity(rest);
    var end := i + 1 + |name|;
    assert name == m[i + 1..end];
    NameChars(name);
    forall j | i < j < |m| && m[j] == ';' && IsEntityName(m[i + 1..j]) ensures j == end {
      NameChars(m[i + 1..j]);
      assert rest == m[i + 1..j] + m[j..];
      TakeEntityExact(m[i + 1..j], m[j..]);
    }
  }

  lemma HarmlessExact(m: string)
    ensures SegmentAllowed(m) <==> Harmless(m)
  {
    hide ReferenceAllowed, StartsAt, IsEntityName;
    forall i | 0 <= i < |m| && m[i] == '&'
      ensures ReferenceAllowed(m, i) <==> forall j :: i < j < |m| && m[j] == ';' && IsEntityName(m[i + 1..j]) ==>
        m[i + 1..j] in ["lt", "gt", "amp", "quot", "apos"]
    {
      ReferenceExact(m, i);
    }
    NotNegative(Lower(m));
  }

  lemma NotNegative(s: string)
    ensures forall k: int, lit :: StartsAt(s, k, lit) ==> k >= 0
  {
  }

  lemma SectionExact(s: string, i: nat, next: nat)
    requires i <= |s|
    ensures SectionUpTo(s, i, next) <==>
      var from := Find(CDATA_START, s, i);
      from != -1 && Find(CDATA_END, s, from + 9) == next - 3 && next >= 3 && SegmentAllowed(s[i..from])
  {
    hide StartsAt, SegmentAllowed, Harmless;
    var from := Find(CDATA_START, s, i);
    if from != -1 {
      EnclosedExact(s, from, next, "<![CDATA[", "]]>");
      HarmlessExact(s[i..from]);
    }
    if SectionUpTo(s, i, next) {
      var f: nat :| i <= f <= |s| && (forall k :: i <= k < f ==> !StartsAt(s, k, "<![CDATA["))
        && Enclosed(s, f, next, "<![CDATA[", "]]>") && Harmless(s[i..f]);
      assert from == f;
    }
  }

  lemma NoSectionExact(s: string, i: nat)
    ensures NoSection(s, i) <==> i >= |s| || (Find(CDATA_START, s, i) == -1 && SegmentAllowed(s[i..]))
  {
    hide StartsAt, SegmentAllowed, Harmless;
    if i < |s| {
      HarmlessExact(s[i..]);
    }
  }

  lemma SectionInside(s: string, i: nat, next: nat)
    requires SectionUpTo(s, i, next)
    ensures i < |s| && i < next
  {
    hide StartsAt, Harmless;
    var from: nat :| i <= from <= |s| && (forall k :: i <= k < from ==> !StartsAt(s, k, "<![CDATA["))
      && Enclosed(s, from, next, "<![CDATA[", "]]>") && Harmless(s[i..from]);
    FirstTwo(s, from, "<![CDATA[");
  }

  lemma {:induction false} SectionsFound(s: string, cursor: nat) returns (path: seq<nat>)
    requires AllowedFrom(s, cursor)
    ensures Sections(s, cursor, path)
    decreases |s| - cursor
  {
    hide SegmentAllowed, Find, SectionUpTo, NoSection;
    NoSectionExact(s, cursor);
    if cursor >= |s| || Find(CDATA_START, s, cursor) == -1 {
      path := [cursor];
    } else {
      var next := Find(CDATA_END, s, Find(CDATA_START, s, cursor) + 9) + 3;
      SectionExact(s, cursor, next);
      var rest := SectionsFound(s, next);
      path := [cursor] + rest;
      assert forall n :: 0 < n < |path| ==> path[n] == rest[n - 1];
    }
  }

  lemma {:induction false} SectionsFollow(s: string, cursor: nat, path: seq<nat>)
    requires Sections(s, cursor, path)
    ensures AllowedFrom(s, cursor)
    decreases |path|
  {
    hide SegmentAllowed, Find, SectionUpTo, NoSection;
    NoSectionExact(s, cursor);
    if |path| > 1 {
      assert SectionUpTo(s, path[0], path[1]);
      SectionInside(s, cursor, path[1]);
      SectionExact(s, cursor, path[1]);
      var rest := path[1..];
      assert forall n :: 0 <= n < |rest| ==> rest[n] == path[n + 1];
      SectionsFollow(s, path[1], rest);
    }
  }

  /** Over every text: the rejector accepts exactly the texts made of closed sections and harmless text between them. */
  lemma RejectorExactly(s: string)
    ensures AllowedFrom(s, 0) <==> exists path :: Sections(s, 0, path)
  {
    hide AllowedFrom, Sections;
    if AllowedFrom(s, 0) {
      var path := SectionsFound(s, 0);
    }
    if exists path :: Sections(s, 0, path) {
      var path :| Sections(s, 0, path);
      SectionsFollow(s, 0, path);
    }
  }
}
