/** Which characters and tokens of a rendered conversation are trained on. */
module LossSpans {
  import opened Text

  const THINK_END := "</think>"
  const IM_END_LINE := "<|im_end|>\n"
  const IM_END := "<|im_end|>"
  const ASSISTANT_END := "</assistant>"

  /** A message; content that is not a string has no text. */
  datatype Message = Message(role: string, content: Option<string>)

  predicate IsAssistant(m: Message) {
    Strip(m.role) == "assistant"
  }

  // ---------------------------------------------------------------- candidates

  /** split("</think>")[-1] */
  function AfterLastThink(s: string): string
    decreases |s|
  {
    var k := Find(THINK_END, s, 0);
    if k == -1 then s else AfterLastThink(s[k + 8..])
  }

  function AddCandidate(c: string, found: seq<string>): seq<string> {
    if c == "" || c in found then found else found + [c]
  }

  /** _rendered_message_content_candidates */
  function Candidates(m: Message): seq<string> {
    match m.content
    case None => []
    case Some(content) =>
      var whole := AddCandidate(content, []);
      if !IsAssistant(m) then whole
      else
        var visible := if Find(THINK_END, content, 0) != -1
                       then AddCandidate(DropNewlines(AfterLastThink(content)), whole) else whole;
        AddCandidate(DropNewlines(content), visible)
  }

  /** `r` is `s` without its leading newlines. */
  ghost predicate WithoutNewlines(s: string, r: string) {
    && |r| <= |s| && s[|s| - |r|..] == r && (forall i :: 0 <= i < |s| - |r| ==> s[i] == '\n')
    && (r != "" ==> r[0] != '\n')
  }

  lemma {:induction false} NewlinesDropped(s: string)
    ensures WithoutNewlines(s, DropNewlines(s))
    decreases |s|
  {
    if s != "" && s[0] == '\n' {
      NewlinesDropped(s[1..]);
    }
  }

  lemma OneWithout(s: string, a: string, b: string)
    requires WithoutNewlines(s, a) && WithoutNewlines(s, b)
    ensures a == b
  {
    assert b != "" ==> b[0] == s[|s| - |b|];
    assert a != "" ==> a[0] == s[|s| - |a|];
  }

  /** `r` is what follows the last `</think>` in `s`. */
  ghost predicate AfterThink(s: string, r: string) {
    && |r| + 8 <= |s| && s[|s| - |r|..] == r && StartsAt(s, |s| - |r| - 8, THINK_END)
    && forall k :: |s| - |r| <= k ==> !StartsAt(s, k, THINK_END)
  }

  lemma {:induction false} ThinkCut(s: string)
    requires Find(THINK_END, s, 0) != -1
    ensures AfterThink(s, AfterLastThink(s))
    decreases |s|
  {
    hide StartsAt;
    var at := Find(THINK_END, s, 0);
    var rest := s[at + 8..];
    forall k | 0 <= k ensures StartsAt(rest, k, THINK_END) <==> StartsAt(s, at + 8 + k, THINK_END) {
      Shifted(s, at + 8, k);
    }
    if Find(THINK_END, rest, 0) != -1 {
      ThinkCut(rest);
      var r := AfterLastThink(rest);
      assert s[|s| - |r|..] == rest[|rest| - |r|..];
      forall k | |s| - |r| <= k ensures !StartsAt(s, k, THINK_END) {
        assert !StartsAt(rest, k - at - 8, THINK_END);
      }
    } else {
      forall k | at + 8 <= k ensures !StartsAt(s, k, THINK_END) {
        assert !StartsAt(rest, k - at - 8, THINK_END);
      }
    }
  }

  lemma Shifted(s: string, from: nat, k: nat)
    requires from <= |s|
    ensures StartsAt(s[from..], k, THINK_END) <==> StartsAt(s, from + k, THINK_END)
  {
    assert forall n :: 0 <= n < |s| - from ==> s[from..][n] == s[from + n];
  }

  lemma OneAngle(j: nat)
    requires 0 < j < 8
    ensures THINK_END[j] != '<' && THINK_END[0] == '<'
  {
  }

  /** No end tag starts inside another. */
  lemma NoOverlap(s: string, i: nat, k: nat)
    requires StartsAt(s, i, THINK_END) && i < k < i + 8
    ensures !StartsAt(s, k, THINK_END)
  {
    OneAngle(k - i);
    assert s[i + (k - i)] == THINK_END[k - i];
  }

  lemma NoneLonger(s: string, a: string, b: string)
    requires AfterThink(s, a) && AfterThink(s, b)
    ensures |b| <= |a|
  {
    hide StartsAt;
    var later, earlier := |s| - |a| - 8, |s| - |b| - 8;
    if earlier < later < earlier + 8 {
      NoOverlap(s, earlier, later);
    }
  }

  /** The candidates of a message: its text; and for the assistant also the text without leading newlines, and what
      follows the last `</think>` without them. Empty ones do not count. */
  lemma CandidatesExact(m: Message, c: string)
    ensures c in Candidates(m) <==>
      && m.content.Some? && c != ""
      && (c == m.content.value || (Strip(m.role) == "assistant" &&
           (WithoutNewlines(m.content.value, c)
            || exists r :: AfterThink(m.content.value, r) && WithoutNewlines(r, c))))
  {
    hide StartsAt, WithoutNewlines, AfterThink, AfterLastThink, DropNewlines, Strip;
    if m.content.Some? {
      var content := m.content.value;
      NewlinesDropped(content);
      if WithoutNewlines(content, c) {
        OneWithout(content, c, DropNewlines(content));
      }
      var after := AfterLastThink(content);
      NewlinesDropped(after);
      if Find(THINK_END, content, 0) != -1 {
        ThinkCut(content);
      }
      if exists r :: AfterThink(content, r) && WithoutNewlines(r, c) {
        var r :| AfterThink(content, r) && WithoutNewlines(r, c);
        ThinkStands(content, r);
        ThinkCut(content);
        SameAfter(content, r, after);
        OneWithout(after, c, DropNewlines(after));
      }
    }
  }

  lemma ThinkStands(s: string, r: string)
    requires AfterThink(s, r)
    ensures Find(THINK_END, s, 0) != -1
  {
    hide StartsAt;
  }

  lemma SameAfter(s: string, a: string, b: string)
    requires AfterThink(s, a) && AfterThink(s, b)
    ensures a == b
  {
    hide StartsAt;
    NoneLonger(s, a, b);
    NoneLonger(s, b, a);
  }

  /** The candidate that starts first from `cursor`, the longest of those; `best` is the choice so far. */
  function Best(text: string, candidates: seq<string>, cursor: nat, best: Option<(nat, string)>): Option<(nat, string)> {
    if candidates == [] then best
    else
      var c := candidates[0];
      var start := Find(c, text, cursor);
      var next :=
        if start == -1 then best
        else if best.None? || start < best.value.0 || (start == best.value.0 && |c| > |best.value.1|) then Some((start, c))
        else best;
      Best(text, candidates[1..], cursor, next)
  }

  /** `r` starts no later than any found candidate, and is the longest of those that start there. */
  ghost predicate Chosen(text: string, candidates: seq<string>, cursor: nat, r: Option<(nat, string)>) {
    && (r.Some? ==> r.value.0 >= cursor && StartsAt(text, r.value.0, r.value.1))
    && forall c :: c in candidates && Find(c, text, cursor) != -1 ==>
         r.Some? && (r.value.0 < Find(c, text, cursor) || (r.value.0 == Find(c, text, cursor) && |c| <= |r.value.1|))
  }

  lemma {:induction false} BestIsChosen(text: string, candidates: seq<string>, cursor: nat, best: Option<(nat, string)>, done: seq<string>)
    requires Chosen(text, done, cursor, best)
    ensures Chosen(text, done + candidates, cursor, Best(text, candidates, cursor, best))
    ensures var r := Best(text, candidates, cursor, best);
      r == best || (r.Some? && r.value.1 in candidates && Find(r.value.1, text, cursor) == r.value.0)
    decreases |candidates|
  {
    hide Find, StartsAt;
    if candidates == [] {
      assert done + candidates == done;
    } else {
      var c := candidates[0];
      var start := Find(c, text, cursor);
      var next :=
        if start == -1 then best
        else if best.None? || start < best.value.0 || (start == best.value.0 && |c| > |best.value.1|) then Some((start, c))
        else best;
      assert (done + [c]) + candidates[1..] == done + candidates;
      BestIsChosen(text, candidates[1..], cursor, next, done + [c]);
    }
  }

  lemma BestFits(text: string, candidates: seq<string>, cursor: nat)
    ensures var r := Best(text, candidates, cursor, None);
      r.Some? ==> cursor <= r.value.0 && r.value.0 + |r.value.1| <= |text|
  {
    hide Best;
    BestIsChosen(text, candidates, cursor, None, []);
  }

  /** The best of all candidates, and that there is one exactly when one is found. */
  lemma BestOfAll(text: string, candidates: seq<string>, cursor: nat)
    ensures var r := Best(text, candidates, cursor, None);
      && Chosen(text, candidates, cursor, r) && (r.Some? ==> r.value.1 in candidates)
      && (r.None? <==> forall c :: c in candidates ==> Find(c, text, cursor) == -1)
  {
    hide StartsAt, Best;
    assert [] + candidates == candidates;
    BestIsChosen(text, candidates, cursor, None, []);
  }

  // ---------------------------------------------------------------- spans

  /** The turn's end marker that starts first from `contentEnd`: where it ends. */
  function TurnEnd(text: string, contentEnd: nat): (end: nat)
    requires contentEnd <= |text|
    ensures contentEnd <= end <= |text|
  {
    var line := Find(IM_END_LINE, text, contentEnd);
    var plain := Find(IM_END, text, contentEnd);
    var tag := Find(ASSISTANT_END, text, contentEnd);
    var plainEnd := if plain != -1 && plain + 10 < |text| && text[plain + 10] == '\n' then plain + 11 else plain + 10;
    if line != -1 && (plain == -1 || line <= plain) && (tag == -1 || line <= tag) then line + 11
    else if plain != -1 && (tag == -1 || plain <= tag) then plainEnd
    else if tag != -1 then tag + 12
    else |text|
  }

  /** An end marker stands at `at` and ends at `end`, with the newline that may follow it. */
  ghost predicate MarkerAt(text: string, at: nat, end: nat) {
    || (StartsAt(text, at, "<|im_end|>\n") && end == at + 11)
    || (StartsAt(text, at, "<|im_end|>") && !StartsAt(text, at, "<|im_end|>\n") && end == at + 10)
    || (StartsAt(text, at, "</assistant>") && end == at + 12)
  }

  lemma LineOrNot(text: string, at: nat)
    ensures StartsAt(text, at, IM_END_LINE) <==> StartsAt(text, at, IM_END) && at + 10 < |text| && text[at + 10] == '\n'
  {
    SplitAt(text, at, IM_END, "\n");
    assert IM_END + "\n" == IM_END_LINE;
    assert StartsAt(text, at + 10, "\n") <==> at + 10 < |text| && text[at + 10] == "\n"[0];
  }

  lemma MarkersDiffer(text: string, at: nat)
    ensures !(StartsAt(text, at, IM_END) && StartsAt(text, at, ASSISTANT_END))
  {
    assert IM_END[1] == '|' && ASSISTANT_END[1] == '/';
    if StartsAt(text, at, IM_END) {
      assert text[at + 1] == IM_END[1];
    }
  }

  /** A turn ends behind the first marker after its content, or with the text when there is none. */
  lemma TurnEndExact(text: string, contentEnd: nat)
    requires contentEnd <= |text|
    ensures
      || (exists at: nat :: contentEnd <= at && MarkerAt(text, at, TurnEnd(text, contentEnd))
            && forall k, end: nat :: contentEnd <= k < at ==> !MarkerAt(text, k, end))
      || (TurnEnd(text, contentEnd) == |text| && forall k: nat, end: nat :: contentEnd <= k ==> !MarkerAt(text, k, end))
  {
    hide StartsAt, Find;
    var line := Find(IM_END_LINE, text, contentEnd);
    var plain := Find(IM_END, text, contentEnd);
    var tag := Find(ASSISTANT_END, text, contentEnd);
    forall k: nat ensures StartsAt(text, k, IM_END_LINE) ==> StartsAt(text, k, IM_END) {
      LineOrNot(text, k);
    }
    var at := if plain != -1 && (tag == -1 || plain <= tag) then plain else tag;
    if at != -1 {
      LineOrNot(text, at);
      MarkersDiffer(text, at);
      assert MarkerAt(text, at, TurnEnd(text, contentEnd));
    }
  }

  /** One message of _assistant_loss_char_spans: the next cursor and the span it adds, or the alignment error. */
  function MessageSpan(text: string, m: Message, cursor: nat): (r: Option<(nat, seq<(nat, nat)>)>)
    requires cursor <= |text|
    ensures r.Some? ==> cursor <= r.value.0 <= |text|
  {
    BestFits(text, Candidates(m), cursor);
    match Best(text, Candidates(m), cursor, None)
    case None => if IsAssistant(m) then None else Some((cursor, []))
    case Some((start, shown)) =>
      var contentEnd := start + |shown|;
      Some((if cursor > contentEnd then cursor else contentEnd,
            if IsAssistant(m) then [(start, TurnEnd(text, contentEnd))] else []))
  }

  /** What a message shown at `start` adds. */
  ghost predicate SpanIs(text: string, m: Message, cursor: nat, start: nat, shown: string)
    requires cursor <= |text|
  {
    && shown in Candidates(m) && Chosen(text, Candidates(m), cursor, Some((start, shown))) && start + |shown| <= |text|
    && MessageSpan(text, m, cursor) ==
         Some((start + |shown|, if Strip(m.role) == "assistant" then [(start, TurnEnd(text, start + |shown|))] else []))
  }

  /** A message none of whose candidates is found is an error for the assistant and is passed over otherwise; one that is
      found moves the cursor behind the choice, and gives a span, through its end marker, exactly for the assistant. */
  lemma MessageSpanExact(text: string, m: Message, cursor: nat)
    requires cursor <= |text|
    ensures (forall c :: c in Candidates(m) ==> Find(c, text, cursor) == -1) ==>
      MessageSpan(text, m, cursor) == if Strip(m.role) == "assistant" then None else Some((cursor, []))
    ensures (exists c :: c in Candidates(m) && Find(c, text, cursor) != -1) ==>
      exists start: nat, shown :: SpanIs(text, m, cursor, start, shown)
  {
    hide StartsAt, Find, Candidates, TurnEnd, Best, Strip, Chosen;
    BestOfAll(text, Candidates(m), cursor);
    BestFits(text, Candidates(m), cursor);
    var best := Best(text, Candidates(m), cursor, None);
    if best.Some? {
      assert SpanIs(text, m, cursor, best.value.0, best.value.1);
    }
  }

  function SpansFrom(text: string, messages: seq<Message>, cursor: nat): Option<seq<(nat, nat)>>
    requires cursor <= |text|
  {
    if messages == [] then Some([])
    else
      match MessageSpan(text, messages[0], cursor)
      case None => None
      case Some((next, spans)) =>
        match SpansFrom(text, messages[1..], next)
        case None => None
        case Some(rest) => Some(spans + rest)
  }

  /** _assistant_loss_char_spans: the loop over the messages. */
  method AssistantLossCharSpans(text: string, messages: seq<Message>) returns (r: Option<seq<(nat, nat)>>)
    ensures r == SpansFrom(text, messages, 0)
  {
    hide MessageSpan;
    var spans: seq<(nat, nat)> := [];
    var cursor: nat := 0;
    assert messages[0..] == messages && forall rest: seq<(nat, nat)> :: [] + rest == rest;
    for i := 0 to |messages|
      invariant cursor <= |text|
      invariant SpansFrom(text, messages, 0) ==
        match SpansFrom(text, messages[i..], cursor) case None => None case Some(rest) => Some(spans + rest)
    {
      assert messages[i..][1..] == messages[i + 1..];
      var step := MessageSpan(text, messages[i], cursor);
      if step.None? {
        return None;
      }
      ghost var before := spans;
      spans := spans + step.value.1;
      assert forall rest: seq<(nat, nat)> :: before + (step.value.1 + rest) == spans + rest;
      cursor := step.value.0;
    }
    assert spans + [] == spans;
    return Some(spans);
  }

  /** In bounds, the right way round, and starting in order from `cursor` on. */
  predicate Ordered(spans: seq<(nat, nat)>, cursor: nat, length: nat) {
    && (forall i :: 0 <= i < |spans| ==> cursor <= spans[i].0 <= spans[i].1 <= length)
    && forall i, j :: 0 <= i < j < |spans| ==> spans[i].0 <= spans[j].0
  }

  /** Whatever the text and the messages are, the spans are in bounds and their starts never decrease. */
  lemma {:induction false} SpansOrdered(text: string, messages: seq<Message>, cursor: nat)
    requires cursor <= |text|
    ensures var r := SpansFrom(text, messages, cursor); r.Some? ==> Ordered(r.value, cursor, |text|)
    decreases |messages|
  {
    hide Best, Candidates, TurnEnd, IsAssistant;
    if messages != [] && MessageSpan(text, messages[0], cursor).Some? {
      var (next, spans) := MessageSpan(text, messages[0], cursor).value;
      BestFits(text, Candidates(messages[0]), cursor);
      SpansOrdered(text, messages[1..], next);
    }
  }

  // ---------------------------------------------------------------- ChatML renderings

  /** A rendered turn: what stands before the content, and the content as the template shows it. */
  datatype Turn = Turn(message: Message, before: string, shown: string)

  function Chat(turns: seq<Turn>): string {
    if turns == [] then "" else turns[0].before + (turns[0].shown + (IM_END_LINE + Chat(turns[1..])))
  }

  function Messages(turns: seq<Turn>): seq<Message> {
    seq(|turns|, i requires 0 <= i < |turns| => turns[i].message)
  }

  /** Each assistant content with its end marker. */
  function Expected(at: nat, turns: seq<Turn>): seq<(nat, nat)>
    decreases |turns|
  {
    if turns == [] then []
    else
      var start := at + |turns[0].before|;
      var end := start + |turns[0].shown| + 11;
      (if Strip(turns[0].message.role) == "assistant" then [(start, end)] else []) + Expected(end, turns[1..])
  }

  function NextCursor(t: Turn, cursor: nat, start: nat): nat {
    if Candidates(t.message) == [] then cursor else start + |t.shown|
  }

  /** The shown content is a candidate, no candidate occurs between the cursor and it, and none is longer there.
      Only a message that is not the assistant's may have no candidate. */
  ghost predicate ShownHere(text: string, t: Turn, cursor: nat, start: nat) {
    var cs := Candidates(t.message);
    && cursor <= start
    && (if cs == [] then Strip(t.message.role) != "assistant"
        else
          && t.shown in cs
          && (forall c, k :: c in cs && cursor <= k < start ==> !StartsAt(text, k, c))
          && (forall c :: c in cs && StartsAt(text, start, c) ==> |c| <= |t.shown|))
  }

  ghost predicate Unambiguous(text: string, at: nat, cursor: nat, turns: seq<Turn>)
    decreases |turns|
  {
    turns != [] ==>
      var t, start := turns[0], at + |turns[0].before|;
      && ShownHere(text, t, cursor, start)
      && Unambiguous(text, start + |t.shown| + 11, NextCursor(t, cursor, start), turns[1..])
  }

  lemma FindIs(lit: string, text: string, cursor: nat, at: nat)
    requires cursor <= at && StartsAt(text, at, lit) && forall k :: cursor <= k < at ==> !StartsAt(text, k, lit)
    ensures Find(lit, text, cursor) == at
  {
  }

  lemma SameStart(text: string, at: nat, a: string, b: string)
    requires StartsAt(text, at, a) && StartsAt(text, at, b) && |a| == |b|
    ensures a == b
  {
    assert forall k :: 0 <= k < |a| ==> a[k] == text[at + k] == b[k];
  }

  lemma ChosenIsShown(text: string, candidates: seq<string>, cursor: nat, start: nat, shown: string)
    requires cursor <= start && StartsAt(text, start, shown) && shown in candidates
    requires forall c, k :: c in candidates && cursor <= k < start ==> !StartsAt(text, k, c)
    requires forall c :: c in candidates && StartsAt(text, start, c) ==> |c| <= |shown|
    ensures Best(text, candidates, cursor, None) == Some((start, shown))
  {
    hide StartsAt, Find, Best;
    BestIsChosen(text, candidates, cursor, None, []);
    assert [] + candidates == candidates;
    FindIs(shown, text, cursor, start);
    var r := Best(text, candidates, cursor, None);
    SameStart(text, start, r.value.1, shown);
  }

  lemma TurnEndHere(text: string, contentEnd: nat)
    requires StartsAt(text, contentEnd, IM_END_LINE)
    ensures contentEnd <= |text| && TurnEnd(text, contentEnd) == contentEnd + 11
  {
    hide StartsAt;
    FindIs(IM_END_LINE, text, contentEnd, contentEnd);
    assert contentEnd <= |text| by { StartsIsSlice(text, contentEnd, IM_END_LINE); }
  }

  lemma TurnStands(text: string, at: nat, t: Turn, rest: string)
    requires StartsAt(text, at, t.before + (t.shown + (IM_END_LINE + rest)))
    ensures StartsAt(text, at + |t.before|, t.shown) && StartsAt(text, at + |t.before| + |t.shown|, IM_END_LINE)
    ensures StartsAt(text, at + |t.before| + |t.shown| + 11, rest)
  {
    hide StartsAt;
    SplitAt(text, at, t.before, t.shown + (IM_END_LINE + rest));
    SplitAt(text, at + |t.before|, t.shown, IM_END_LINE + rest);
    SplitAt(text, at + |t.before| + |t.shown|, IM_END_LINE, rest);
  }

  lemma OneTurn(text: string, t: Turn, cursor: nat, start: nat)
    requires StartsAt(text, start, t.shown) && StartsAt(text, start + |t.shown|, IM_END_LINE)
    requires ShownHere(text, t, cursor, start)
    ensures cursor <= |text|
    ensures MessageSpan(text, t.message, cursor) == Some((NextCursor(t, cursor, start),
      if Strip(t.message.role) == "assistant" then [(start, start + |t.shown| + 11)] else []))
    ensures NextCursor(t, cursor, start) <= |text|
  {
    hide StartsAt, Candidates, Strip, TurnEnd;
    var cs := Candidates(t.message);
    TurnEndHere(text, start + |t.shown|);
    if cs != [] {
      ChosenIsShown(text, cs, cursor, start, t.shown);
    }
  }

  lemma {:induction false} SpansExactFrom(text: string, at: nat, cursor: nat, turns: seq<Turn>)
    requires StartsAt(text, at, Chat(turns)) && cursor <= |text| && Unambiguous(text, at, cursor, turns)
    ensures SpansFrom(text, Messages(turns), cursor) == Some(Expected(at, turns))
    decreases |turns|
  {
    hide StartsAt, Candidates, Strip, MessageSpan, NextCursor, ShownHere;
    if turns != [] {
      var t := turns[0];
      var start := at + |t.before|;
      TurnStands(text, at, t, Chat(turns[1..]));
      OneTurn(text, t, cursor, start);
      SpansExactFrom(text, start + |t.shown| + 11, NextCursor(t, cursor, start), turns[1..]);
      assert Messages(turns)[1..] == Messages(turns[1..]);
    }
  }

  /** Ordered, and no span reaches into the next. */
  predicate Disjoint(spans: seq<(nat, nat)>, from: nat) {
    && (forall i :: 0 <= i < |spans| ==> from <= spans[i].0 <= spans[i].1)
    && forall i, j :: 0 <= i < j < |spans| ==> spans[i].1 <= spans[j].0
  }

  lemma {:induction false} ExpectedDisjoint(at: nat, turns: seq<Turn>)
    ensures Disjoint(Expected(at, turns), at)
    decreases |turns|
  {
    hide Strip;
    if turns != [] {
      ExpectedDisjoint(at + |turns[0].before| + |turns[0].shown| + 11, turns[1..]);
    }
  }

  /** On an unambiguous ChatML rendering the spans are exactly each assistant content plus its end marker, in order
      and disjoint. */
  lemma SpansExact(turns: seq<Turn>)
    requires Unambiguous(Chat(turns), 0, 0, turns)
    ensures SpansFrom(Chat(turns), Messages(turns), 0) == Some(Expected(0, turns))
    ensures Disjoint(Expected(0, turns), 0)
  {
    hide Unambiguous, SpansFrom, Expected, Disjoint;
    StartsIsSlice(Chat(turns), 0, Chat(turns));
    SpansExactFrom(Chat(turns), 0, 0, turns);
    ExpectedDisjoint(0, turns);
  }

  // ---------------------------------------------------------------- the token mask

  /** A token with characters, some of them inside the span. */
  predicate Overlaps(token: (nat, nat), span: (nat, nat)) {
    token.1 > token.0 && token.0 < span.1 && token.1 > span.0
  }

  predicate Trained(token: (nat, nat), spans: seq<(nat, nat)>) {
    exists k :: 0 <= k < |spans| && Overlaps(token, spans[k])
  }

  /** The mask loop of _tokenize_multiturn_messages: a token is trained exactly when it is not empty and overlaps a
      span. */
  method LossMask(spans: seq<(nat, nat)>, offsets: seq<(nat, nat)>) returns (mask: array<int>)
    ensures fresh(mask) && mask.Length == |offsets|
    ensures forall t :: 0 <= t < |offsets| ==> mask[t] == if Trained(offsets[t], spans) then 1 else 0
  {
    mask := new int[|offsets|](i => 0);
    for k := 0 to |spans|
      invariant forall t :: 0 <= t < |offsets| ==> mask[t] == if Trained(offsets[t], spans[..k]) then 1 else 0
    {
      forall t | 0 <= t < |offsets| ensures Trained(offsets[t], spans[..k + 1]) == (Trained(offsets[t], spans[..k]) || Overlaps(offsets[t], spans[k])) {
        OneMoreSpan(offsets[t], spans, k);
      }
      for t := 0 to |offsets|
        invariant forall u :: 0 <= u < t ==> mask[u] == if Trained(offsets[u], spans[..k + 1]) then 1 else 0
        invariant forall u :: t <= u < |offsets| ==> mask[u] == if Trained(offsets[u], spans[..k]) then 1 else 0
      {
        var (tokenStart, tokenEnd) := offsets[t];
        if tokenEnd > tokenStart && tokenStart < spans[k].1 && tokenEnd > spans[k].0 {
          mask[t] := 1;
        }
      }
    }
    assert spans[..|spans|] == spans;
  }

  lemma OneMoreSpan(token: (nat, nat), spans: seq<(nat, nat)>, k: nat)
    requires k < |spans|
    ensures Trained(token, spans[..k + 1]) == (Trained(token, spans[..k]) || Overlaps(token, spans[k]))
  {
    hide Overlaps;
    assert forall i :: 0 <= i < k ==> spans[..k + 1][i] == spans[..k][i];
    if Trained(token, spans[..k]) {
      var i :| 0 <= i < k && Overlaps(token, spans[..k][i]);
      assert Overlaps(token, spans[..k + 1][i]);
    }
    if Overlaps(token, spans[k]) {
      assert Overlaps(token, spans[..k + 1][k]);
    }
  }

  /** Character `p` belongs to an assistant content or its end marker. */
  ghost predicate InReply(at: nat, turns: seq<Turn>, p: nat)
    decreases |turns|
  {
    turns != [] &&
      var start := at + |turns[0].before|;
      var end := start + |turns[0].shown| + 11;
      (Strip(turns[0].message.role) == "assistant" && start <= p < end) || InReply(end, turns[1..], p)
  }

  ghost predicate InSpans(spans: seq<(nat, nat)>, p: nat) {
    exists k :: 0 <= k < |spans| && spans[k].0 <= p < spans[k].1
  }

  lemma InSpansConcat(a: seq<(nat, nat)>, b: seq<(nat, nat)>, p: nat)
    ensures InSpans(a + b, p) <==> InSpans(a, p) || InSpans(b, p)
  {
    var c := a + b;
    if InSpans(a, p) {
      var k :| 0 <= k < |a| && a[k].0 <= p < a[k].1;
      assert c[k] == a[k];
    }
    if InSpans(b, p) {
      var k :| 0 <= k < |b| && b[k].0 <= p < b[k].1;
      assert c[|a| + k] == b[k];
    }
  }

  lemma {:induction false} SpansAreReplies(at: nat, turns: seq<Turn>, p: nat)
    ensures InReply(at, turns, p) <==> InSpans(Expected(at, turns), p)
    decreases |turns|
  {
    hide Strip;
    if turns != [] {
      var start := at + |turns[0].before|;
      var end := start + |turns[0].shown| + 11;
      var head := if Strip(turns[0].message.role) == "assistant" then [(start, end)] else [];
      SpansAreReplies(end, turns[1..], p);
      InSpansConcat(head, Expected(end, turns[1..]), p);
      assert InSpans([(start, end)], p) <==> start <= p < end by {
        assert [(start, end)][0] == (start, end);
      }
    }
  }

  /** On an unambiguous ChatML rendering a token is trained exactly when one of its characters belongs to an
      assistant content or its end marker. */
  lemma TrainedExactly(turns: seq<Turn>, token: (nat, nat))
    requires Unambiguous(Chat(turns), 0, 0, turns)
    ensures var spans := SpansFrom(Chat(turns), Messages(turns), 0);
      spans.Some? && (Trained(token, spans.value) <==> exists p: nat :: token.0 <= p < token.1 && InReply(0, turns, p))
  {
    hide Unambiguous, SpansFrom, Expected, Disjoint, InReply;
    SpansExact(turns);
    var spans := Expected(0, turns);
    if Trained(token, spans) {
      var k :| 0 <= k < |spans| && Overlaps(token, spans[k]);
      NotEmpty(turns, k);
      var p := if token.0 > spans[k].0 then token.0 else spans[k].0;
      assert InSpans(spans, p);
      SpansAreReplies(0, turns, p);
      assert token.0 <= p < token.1 && InReply(0, turns, p);
    }
    if exists p: nat :: token.0 <= p < token.1 && InReply(0, turns, p) {
      var p: nat :| token.0 <= p < token.1 && InReply(0, turns, p);
      SpansAreReplies(0, turns, p);
      var k :| 0 <= k < |spans| && spans[k].0 <= p < spans[k].1;
      assert Overlaps(token, spans[k]);
    }
  }

  lemma {:induction false} SpanLength(at: nat, turns: seq<Turn>, k: nat)
    requires k < |Expected(at, turns)|
    ensures Expected(at, turns)[k].0 < Expected(at, turns)[k].1
    decreases |turns|
  {
    hide Strip;
    var end := at + |turns[0].before| + |turns[0].shown| + 11;
    var n := if Strip(turns[0].message.role) == "assistant" then 1 else 0;
    if k >= n {
      SpanLength(end, turns[1..], k - n);
    }
  }

  lemma NotEmpty(turns: seq<Turn>, k: nat)
    requires k < |Expected(0, turns)|
    ensures Expected(0, turns)[k].0 < Expected(0, turns)[k].1
  {
    SpanLength(0, turns, k);
  }
}
