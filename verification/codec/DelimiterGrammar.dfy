/** The delimiter parser against a grammar: which payloads it accepts, and what each of them means. */
module DelimiterGrammar {
  import opened Text
  import opened JsonCodec
  import opened JsonWeight
  import opened Contracts
  import opened ActionRender
  import opened ActionParse

  /** A block of a payload and where its parts stand. */
  datatype Block =
    | ThinkOf(start: nat, textEnd: nat)
    | ToolOf(start: nat, from: nat, to: nat, close: nat, call: ToolCall)

  function EndOf(b: Block): nat {
    if b.ThinkOf? then b.textEnd + |THINK_END| else b.close + |TOOL_END|
  }

  /** A JSON object with a tool name or alias and an object of arguments, whatever else it holds. */
  ghost predicate Names(json: Json, call: ToolCall) {
    && json.Dict? && "tool" in json.members && "args" in json.members
    && json.members["tool"].Str? && CanonicalTool(json.members["tool"].text) == Some(call.tool)
    && json.members["args"] == Dict(call.args)
  }

  /** A think block runs to the first end tag after it; a tool block holds one JSON value between blanks. */
  ghost predicate Stands(s: string, b: Block) {
    match b
    case ThinkOf(start, textEnd) =>
      && StartsAt(s, start, "<think>") && start + 7 <= textEnd && StartsAt(s, textEnd, "</think>")
      && forall k :: start + 7 <= k < textEnd ==> !StartsAt(s, k, "</think>")
    case ToolOf(start, from, to, close, call) =>
      && StartsAt(s, start, "<tool_call>") && start + 11 <= from <= to <= close && StartsAt(s, close, "</tool_call>")
      && AllSpace(s[start + 11..from]) && AllSpace(s[to..close])
      && exists json :: Names(json, call) && ReadValue(s[from..]) == Some((json, s[to..]))
  }

  ghost predicate NoOpener(s: string, from: nat, to: nat) {
    forall k :: from <= k < to ==> !StartsAt(s, k, "<think>") && !StartsAt(s, k, "<tool_call>")
  }

  /** The blocks from `cursor` on, with any text that opens none before, between and after them. */
  ghost predicate Covers(s: string, cursor: nat, blocks: seq<Block>)
    decreases |blocks|
  {
    if blocks == [] then NoOpener(s, cursor, |s|)
    else
      && cursor <= blocks[0].start && NoOpener(s, cursor, blocks[0].start) && Stands(s, blocks[0])
      && Covers(s, EndOf(blocks[0]), blocks[1..])
  }

  function CallsOf(blocks: seq<Block>): seq<ToolCall> {
    if blocks == [] then [] else (if blocks[0].ToolOf? then [blocks[0].call] else []) + CallsOf(blocks[1..])
  }

  function ThinksOf(s: string, blocks: seq<Block>): seq<string> {
    if blocks == [] then []
    else if !blocks[0].ThinkOf? then ThinksOf(s, blocks[1..])
    else
      var start, end := blocks[0].start + 7, blocks[0].textEnd;
      (if start <= end <= |s| then [s[start..end]] else []) + ThinksOf(s, blocks[1..])
  }

  /** At most one think block, whose text is stripped and dropped when nothing is left of it. */
  ghost predicate Thought(thinks: seq<string>, thinking: Option<string>) {
    && |thinks| <= 1
    && thinking == (if thinks == [] || AllSpace(thinks[0]) then None else Some(Strip(thinks[0])))
  }

  /** What the blocks mean after a turn so far. */
  ghost predicate Means(s: string, turn: Turn, blocks: seq<Block>, e: Envelope, maxCalls: int) {
    && e.calls == turn.calls + CallsOf(blocks) && 1 <= |e.calls| <= maxCalls
    && (|e.calls| == 1 || forall i :: 0 <= i < |e.calls| ==> e.calls[i].tool != Submit)
    && (if turn.thinkSeen then ThinksOf(s, blocks) == [] && e.thinking == turn.thinking
        else Thought(ThinksOf(s, blocks), e.thinking))
  }

  /** A turn whose thinking is what a parser can have read. */
  predicate Sound(turn: Turn) {
    && (turn.thinking.Some? ==> turn.thinkSeen && !AllSpace(turn.thinking.value))
    && (|turn.calls| <= 1 || forall i :: 0 <= i < |turn.calls| ==> turn.calls[i].tool != Submit)
  }

  // ---------------------------------------------------------------- one block

  lemma ValueNotBlank(s: string)
    requires s == [] || IsSpace(s[0])
    ensures ReadValue(s) == None
  {
    hide ReadString, ReadItems, ReadMembers;
    if s != [] {
      NotAWord(s);
      assert TakeDigits(s) == "";
      assert ReadInt(s) == None;
    }
  }

  lemma NotAWord(s: string)
    requires s != [] && IsSpace(s[0])
    ensures s[0] !in "\"[{-ntf" && !IsDigit(s[0])
    ensures !StartsAt(s, 0, "null") && !StartsAt(s, 0, "true") && !StartsAt(s, 0, "false")
  {
    assert "null"[0] == 'n' && "true"[0] == 't' && "false"[0] == 'f';
  }

  lemma SkipIs(s: string, i: nat, j: nat)
    requires i <= j <= |s| && AllSpace(s[i..j]) && (j < |s| ==> !IsSpace(s[j]))
    ensures SkipSpaces(s, i) == j
  {
    hide SkipSpaces, IsSpace;
    forall k | i <= k < j ensures IsSpace(s[k]) {
      assert s[k] == s[i..j][k - i];
    }
  }

  lemma SkippedBlank(s: string, i: nat)
    requires i <= |s|
    ensures AllSpace(s[i..SkipSpaces(s, i)])
  {
  }

  lemma MadeExactly(json: Json, call: ToolCall)
    ensures MakeToolCall(json) == Some(call) <==> Names(json, call)
  {
    hide CanonicalTool;
  }

  lemma SubmitAgain(calls: seq<ToolCall>)
    ensures SubmitAlone(calls) <==> (|calls| <= 1 || forall i :: 0 <= i < |calls| ==> calls[i].tool != Submit)
  {
  }

  lemma AddExactly(turn: Turn, call: ToolCall, maxCalls: int, next: Turn)
    requires Sound(turn)
    ensures AddCall(turn, call, maxCalls) == Some(next) <==>
      next == turn.(calls := turn.calls + [call]) && Sound(next) && |next.calls| <= maxCalls
  {
    hide SubmitAlone;
    SubmitAgain(turn.calls + [call]);
  }

  /** What the end of a tool block adds. */
  lemma CloseExactly(s: string, to: nat, json: Json, turn: Turn, maxCalls: int) returns (call: ToolCall)
    requires to <= |s| && Sound(turn) && CloseToolBlock(s, to, json, turn, maxCalls).Continue?
    ensures Names(json, call) && StartsAt(s, SkipSpaces(s, to), "</tool_call>")
    ensures var next := turn.(calls := turn.calls + [call]);
      && CloseToolBlock(s, to, json, turn, maxCalls) == Continue(SkipSpaces(s, to) + 12, next)
      && Sound(next) && |next.calls| <= maxCalls
  {
    hide SkipSpaces, MakeToolCall, AddCall, CanonicalTool, Sound, Names, StartsAt;
    call := MakeToolCall(json).value;
    MadeExactly(json, call);
    AddExactly(turn, call, maxCalls, AddCall(turn, call, maxCalls).value);
  }

  lemma Standing(s: string, start: nat, from: nat, to: nat, close: nat, json: Json, call: ToolCall)
    requires StartsAt(s, start, "<tool_call>") && start + 11 <= from <= to <= close && StartsAt(s, close, "</tool_call>")
    requires AllSpace(s[start + 11..from]) && AllSpace(s[to..close])
    requires Names(json, call) && ReadValue(s[from..]) == Some((json, s[to..]))
    ensures Stands(s, ToolOf(start, from, to, close, call))
  {
    hide StartsAt, AllSpace, Names, ReadValue;
  }

  /** A tool block is read exactly when one stands there, with its call added. */
  lemma ToolExactly(s: string, start: nat, turn: Turn, maxCalls: int) returns (block: Block)
    requires StartsAt(s, start, TOOL_START) && Sound(turn) && ToolBlock(s, start, turn, maxCalls).Continue?
    ensures block.ToolOf? && block.start == start && Stands(s, block)
    ensures var next := turn.(calls := turn.calls + [block.call]);
      ToolBlock(s, start, turn, maxCalls) == Continue(EndOf(block), next) && Sound(next) && |next.calls| <= maxCalls
  {
    hide SkipSpaces, ReadValue, CloseToolBlock, AllSpace, Sound, Names, StartsAt, Stands;
    InTool(s, start);
    var from := SkipSpaces(s, start + 11);
    var (json, rest) := ReadValue(s[from..]).value;
    ValueRead(s[from..]);
    var to := |s| - |rest|;
    assert rest == s[to..] by {
      assert s[from..][|s[from..]| - |rest|..] == s[to..];
    }
    var call := CloseExactly(s, to, json, turn, maxCalls);
    SkippedBlank(s, start + 11);
    SkippedBlank(s, to);
    Standing(s, start, from, to, SkipSpaces(s, to), json, call);
    block := ToolOf(start, from, to, SkipSpaces(s, to), call);
  }

  lemma InTool(s: string, start: nat)
    requires StartsAt(s, start, TOOL_START)
    ensures start + 11 <= |s|
  {
  }

  lemma ToolRead(s: string, b: Block, turn: Turn, maxCalls: int)
    requires b.ToolOf? && Stands(s, b) && Sound(turn)
    ensures var next := turn.(calls := turn.calls + [b.call]);
      ToolBlock(s, b.start, turn, maxCalls) ==
        if Sound(next) && |next.calls| <= maxCalls then Continue(EndOf(b), next) else Fail(Malformed)
  {
    hide SkipSpaces, ReadValue, MakeToolCall, AddCall, CanonicalTool, IsSpace, Sound, Names;
    var json :| Names(json, b.call) && ReadValue(s[b.from..]) == Some((json, s[b.to..]));
    if s[b.from..] == [] || IsSpace(s[b.from]) {
      ValueNotBlank(s[b.from..]);
    }
    SkipIs(s, b.start + 11, b.from);
    NotBlankAt(s, b.close);
    SkipIs(s, b.to, b.close);
    MadeExactly(json, b.call);
    AddExactly(turn, b.call, maxCalls, turn.(calls := turn.calls + [b.call]));
    if AddCall(turn, b.call, maxCalls).Some? {
      AddExactly(turn, b.call, maxCalls, AddCall(turn, b.call, maxCalls).value);
    }
  }

  lemma NotBlankAt(s: string, i: nat)
    requires StartsAt(s, i, TOOL_END)
    ensures i < |s| && !IsSpace(s[i])
  {
    assert s[i] == TOOL_END[0];
  }

  lemma ThinkExactly(s: string, start: nat, turn: Turn) returns (block: Block)
    requires StartsAt(s, start, THINK_START) && ThinkBlock(s, start, turn).Continue?
    ensures block.ThinkOf? && block.start == start && Stands(s, block) && !turn.thinkSeen
    ensures ThinkBlock(s, start, turn) == Continue(EndOf(block), Thinks(s, block, turn))
  {
    hide StartsAt, Strip;
    block := ThinkOf(start, Find(THINK_END, s, start + 7));
  }

  function Thinks(s: string, b: Block, turn: Turn): Turn
    requires b.ThinkOf? && b.start + 7 <= b.textEnd <= |s|
  {
    turn.(thinking := StrippedOrNone(s[b.start + 7..b.textEnd]), thinkSeen := true)
  }

  lemma ThinkRead(s: string, b: Block, turn: Turn)
    requires b.ThinkOf? && Stands(s, b)
    ensures ThinkBlock(s, b.start, turn) == if turn.thinkSeen then Fail(Malformed) else Continue(EndOf(b), Thinks(s, b, turn))
  {
    hide StartsAt, Strip;
    var end := Find(THINK_END, s, b.start + 7);
    assert end == b.textEnd;
  }

  // ---------------------------------------------------------------- one step

  /** The blocks' first opener is the one the step finds. */
  lemma FirstOpener(s: string, cursor: nat, b: Block)
    requires cursor <= b.start && NoOpener(s, cursor, b.start) && Stands(s, b)
    ensures var think, tool := Find(THINK_START, s, cursor), Find(TOOL_START, s, cursor);
      if b.ThinkOf? then think == b.start && (tool == -1 || think < tool)
      else tool == b.start && (think == -1 || tool < think)
  {
    assert THINK_START == "<think>" && TOOL_START == "<tool_call>";
    assert THINK_START[2] != TOOL_START[2];
    hide Find;
    forall k | StartsAt(s, k, THINK_START) ensures !StartsAt(s, k, TOOL_START) {
      assert s[k + 2] == THINK_START[2];
    }
    hide StartsAt;
  }

  /** The turn after a block. */
  function After(s: string, b: Block, turn: Turn): Turn
    requires b.ThinkOf? ==> b.start + 7 <= b.textEnd <= |s|
  {
    if b.ThinkOf? then Thinks(s, b, turn) else turn.(calls := turn.calls + [b.call])
  }

  ghost predicate Leads(s: string, cursor: nat, b: Block) {
    cursor <= b.start && NoOpener(s, cursor, b.start) && Stands(s, b)
  }

  lemma BlocksNeverStop(s: string, start: nat, turn: Turn, maxCalls: int)
    ensures StartsAt(s, start, THINK_START) ==> !ThinkBlock(s, start, turn).Stop?
    ensures StartsAt(s, start, TOOL_START) ==> !ToolBlock(s, start, turn, maxCalls).Stop?
  {
    hide StartsAt, ReadValue, MakeToolCall, AddCall, SkipSpaces, Find;
  }

  lemma NothingFound(s: string, cursor: nat, turn: Turn, maxCalls: int)
    ensures SimpleStep(s, cursor, turn, maxCalls).Stop? <==> NoOpener(s, cursor, |s|)
  {
    hide StartsAt, ThinkBlock, ToolBlock;
    forall start: nat
      ensures StartsAt(s, start, THINK_START) ==> !ThinkBlock(s, start, turn).Stop?
      ensures StartsAt(s, start, TOOL_START) ==> !ToolBlock(s, start, turn, maxCalls).Stop?
    {
      BlocksNeverStop(s, start, turn, maxCalls);
    }
  }

  lemma StepExactly(s: string, cursor: nat, turn: Turn, maxCalls: int) returns (b: Block)
    requires Sound(turn) && SimpleStep(s, cursor, turn, maxCalls).Continue?
    ensures Leads(s, cursor, b) && (b.ThinkOf? ==> !turn.thinkSeen)
    ensures SimpleStep(s, cursor, turn, maxCalls) == Continue(EndOf(b), After(s, b, turn)) && Sound(After(s, b, turn))
    ensures b.ToolOf? ==> |After(s, b, turn).calls| <= maxCalls
  {
    hide StartsAt, ThinkBlock, ToolBlock, Stands, Strip, IsSpace, Sound, StrippedOrNone;
    var think, tool := Find(THINK_START, s, cursor), Find(TOOL_START, s, cursor);
    if think != -1 && (tool == -1 || think < tool) {
      b := ThinkExactly(s, think, turn);
      TextInside(s, b);
      ThoughtSound(s, b, turn);
    } else {
      b := ToolExactly(s, tool, turn, maxCalls);
    }
  }

  lemma TextInside(s: string, b: Block)
    requires Stands(s, b) && b.ThinkOf?
    ensures b.start + 7 <= b.textEnd <= |s|
  {
  }

  lemma ThoughtSound(s: string, b: Block, turn: Turn)
    requires Sound(turn) && b.ThinkOf? && b.start + 7 <= b.textEnd <= |s|
    ensures Sound(Thinks(s, b, turn))
  {
    StripProperties(s[b.start + 7..b.textEnd]);
    StripProperties(Strip(s[b.start + 7..b.textEnd]));
  }

  lemma StepRead(s: string, cursor: nat, b: Block, turn: Turn, maxCalls: int)
    requires Sound(turn) && Leads(s, cursor, b)
    ensures SimpleStep(s, cursor, turn, maxCalls) ==
      if (if b.ThinkOf? then !turn.thinkSeen else Sound(After(s, b, turn)) && |turn.calls| < maxCalls)
      then Continue(EndOf(b), After(s, b, turn)) else Fail(Malformed)
  {
    FirstOpener(s, cursor, b);
    if b.ThinkOf? {
      ThinkRead(s, b, turn);
    } else {
      ToolRead(s, b, turn, maxCalls);
    }
    hide StartsAt, ThinkBlock, ToolBlock, NoOpener, Strip, IsSpace, Sound;
  }

  // ---------------------------------------------------------------- all steps

  lemma NoMoreBlocks(s: string, turn: Turn, e: Envelope, maxCalls: int)
    requires Sound(turn)
    ensures Means(s, turn, [], e, maxCalls) <==> Finish(turn) == Ok(e) && |turn.calls| <= maxCalls
  {
    SubmitAgain(turn.calls);
    assert turn.calls + CallsOf([]) == turn.calls;
  }

  /** A block in front adds to what is meant. */
  lemma MeansCons(s: string, turn: Turn, b: Block, blocks: seq<Block>, e: Envelope, maxCalls: int)
    requires Stands(s, b)
    ensures Means(s, turn, [b] + blocks, e, maxCalls) <==>
      (b.ThinkOf? ==> !turn.thinkSeen) && Means(s, After(s, b, turn), blocks, e, maxCalls)
  {
    hide StartsAt, Strip, AllSpace;
    var all := [b] + blocks;
    assert all[0] == b && all[1..] == blocks;
    if b.ThinkOf? {
      TextInside(s, b);
      var text := s[b.start + 7..b.textEnd];
      StripProperties(text);
      assert ThinksOf(s, all) == [text] + ThinksOf(s, blocks);
    } else {
      assert turn.calls + CallsOf(all) == turn.calls + [b.call] + CallsOf(blocks);
    }
  }

  lemma {:induction false} Accepted(s: string, cursor: nat, turn: Turn, maxCalls: int, e: Envelope) returns (blocks: seq<Block>)
    requires Sound(turn) && |turn.calls| <= maxCalls && SimpleFrom(s, cursor, turn, maxCalls) == Ok(e)
    ensures Covers(s, cursor, blocks) && Means(s, turn, blocks, e, maxCalls)
    decreases |s| - cursor
  {
    hide SimpleStep, Finish, Means, Sound, Stands, NoOpener, After;
    NoMoreBlocks(s, turn, e, maxCalls);
    NothingFound(s, cursor, turn, maxCalls);
    if cursor >= |s| || SimpleStep(s, cursor, turn, maxCalls).Stop? {
      if cursor >= |s| {
        AllCovered(s, cursor);
      }
      blocks := [];
    } else {
      var b := StepExactly(s, cursor, turn, maxCalls);
      CallsKept(s, b, turn, maxCalls);
      if b.ThinkOf? {
        TextInside(s, b);
      }
      var rest := Accepted(s, EndOf(b), After(s, b, turn), maxCalls, e);
      MeansCons(s, turn, b, rest, e, maxCalls);
      blocks := [b] + rest;
    }
  }

  lemma AllCovered(s: string, cursor: nat)
    requires cursor >= |s|
    ensures NoOpener(s, cursor, |s|)
  {
  }

  lemma CallsKept(s: string, b: Block, turn: Turn, maxCalls: int)
    requires Stands(s, b) && |turn.calls| <= maxCalls && (b.ToolOf? ==> |After(s, b, turn).calls| <= maxCalls)
    ensures |After(s, b, turn).calls| <= maxCalls
  {
    hide StartsAt, Strip;
  }

  lemma {:induction false} Understood(s: string, cursor: nat, turn: Turn, maxCalls: int, blocks: seq<Block>, e: Envelope)
    requires Sound(turn) && Covers(s, cursor, blocks) && Means(s, turn, blocks, e, maxCalls)
    ensures SimpleFrom(s, cursor, turn, maxCalls) == Ok(e)
    decreases |blocks|
  {
    hide SimpleStep, Finish, Means, Sound, Stands, NoOpener, After;
    if blocks == [] {
      NoMoreBlocks(s, turn, e, maxCalls);
      NothingFound(s, cursor, turn, maxCalls);
    } else {
      var b, rest := blocks[0], blocks[1..];
      assert blocks == [b] + rest;
      MeansCons(s, turn, b, rest, e, maxCalls);
      StartInside(s, b);
      BlockFits(s, turn, b, rest, e, maxCalls);
      StepRead(s, cursor, b, turn, maxCalls);
      Understood(s, EndOf(b), After(s, b, turn), maxCalls, rest, e);
    }
  }

  lemma StartInside(s: string, b: Block)
    requires Stands(s, b)
    ensures b.start < |s| && (b.ThinkOf? ==> b.start + 7 <= b.textEnd <= |s|)
  {
  }

  /** A block that belongs to what is meant is one the parser does not refuse. */
  lemma BlockFits(s: string, turn: Turn, b: Block, rest: seq<Block>, e: Envelope, maxCalls: int)
    requires Sound(turn) && Stands(s, b) && (b.ThinkOf? ==> !turn.thinkSeen)
    requires b.ThinkOf? ==> b.start + 7 <= b.textEnd <= |s|
    requires Means(s, After(s, b, turn), rest, e, maxCalls)
    ensures Sound(After(s, b, turn)) && (b.ToolOf? ==> |turn.calls| < maxCalls)
  {
    hide StartsAt, Strip, IsSpace, Stands;
    if b.ThinkOf? {
      ThoughtSound(s, b, turn);
    } else {
      var calls := turn.calls + [b.call];
      assert |calls| <= |e.calls| && forall i :: 0 <= i < |calls| ==> e.calls[i] == calls[i];
    }
  }

  // ---------------------------------------------------------------- the parser

  /** The envelope that a payload means. */
  ghost predicate Grammatical(s: string, e: Envelope, maxCalls: int) {
    exists blocks :: Covers(s, 0, blocks) && Means(s, START, blocks, e, maxCalls)
  }

  /** Over every payload: the delimiter parser returns an envelope exactly when the payload consists of blocks that mean
      it, with any text around them. */
  lemma DelimiterExact(s: string, maxCalls: int, e: Envelope)
    ensures ParseSimple(s, maxCalls) == Ok(e) <==> Grammatical(s, e, maxCalls)
  {
    hide SimpleFrom, Means, Covers;
    StartSound();
    if ParseSimple(s, maxCalls) == Ok(e) {
      var blocks := Accepted(s, 0, START, maxCalls, e);
    }
    if Grammatical(s, e, maxCalls) {
      var blocks :| Covers(s, 0, blocks) && Means(s, START, blocks, e, maxCalls);
      Understood(s, 0, START, maxCalls, blocks, e);
      LimitIsPositive(s, blocks, e, maxCalls);
    }
  }

  /** A payload that means nothing is malformed; a limit below one is the other error. */
  lemma DelimiterFails(s: string, maxCalls: int)
    ensures var r := ParseSimple(s, maxCalls); r.Err? ==> r.error == (if maxCalls < 1 then BadLimit else Malformed)
  {
    if maxCalls >= 1 {
      SimpleFails(s, 0, START, maxCalls);
    }
  }

  lemma {:induction false} SimpleFails(s: string, cursor: nat, turn: Turn, maxCalls: int)
    ensures var r := SimpleFrom(s, cursor, turn, maxCalls); r.Err? ==> r.error == Malformed
    decreases |s| - cursor
  {
    hide SimpleStep, MakeEnvelope;
    if cursor < |s| {
      StepFails(s, cursor, turn, maxCalls);
      match SimpleStep(s, cursor, turn, maxCalls)
      case Stop =>
      case Fail(_) =>
      case Continue(next, newTurn) => SimpleFails(s, next, newTurn, maxCalls);
    }
  }

  lemma StepFails(s: string, cursor: nat, turn: Turn, maxCalls: int)
    ensures var step := SimpleStep(s, cursor, turn, maxCalls); step.Fail? ==> step.error == Malformed
  {
    hide Find, StartsAt, ReadValue, SkipSpaces, MakeToolCall, SubmitAlone;
  }

  lemma StartSound()
    ensures Sound(START) && START.calls == []
  {
  }

  lemma LimitIsPositive(s: string, blocks: seq<Block>, e: Envelope, maxCalls: int)
    requires Means(s, START, blocks, e, maxCalls)
    ensures maxCalls >= 1
  {
  }
}
