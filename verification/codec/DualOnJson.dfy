/** The simple and the XML-aware JSON parser on rendered JSON payloads. */
module DualOnJson {
  import opened Text
  import opened JsonCodec
  import opened JsonRoundTrip
  import opened Contracts
  import opened XmlTree
  import opened ActionRender
  import opened ElementScanner
  import opened JsonWeight
  import opened ParsedWeight
  import opened RejectorAccepts
  import opened ActionParse
  import opened XmlExact
  import opened DualOnXml

  // ---------------------------------------------------------------- one block

  lemma PayloadIsCall(call: ToolCall)
    ensures MakeToolCall(CallPayload(call)) == Some(call)
  {
    hide ToolName, CanonicalTool;
    CanonicalOfName(call.tool);
    assert "args" != "tool" by { assert "args"[0] != "tool"[0]; }
  }

  lemma BlockParts(s: string, i: nat, call: ToolCall, compact: bool)
    requires StartsAt(s, i, RenderJsonCall(call, compact))
    ensures var json := Encode(CallPayload(call), compact);
      && StartsAt(s, i, TOOL_START) && StartsAt(s, i + 11, json) && StartsAt(s, i + 11 + |json|, TOOL_END)
      && |RenderJsonCall(call, compact)| == 23 + |json| && json[0] == '{'
  {
    hide StartsAt, SortedKeys, EncodeMembers;
    var json := Encode(CallPayload(call), compact);
    SplitAt(s, i, TOOL_START + json, TOOL_END);
    SplitAt(s, i, TOOL_START, json);
  }

  lemma ReadAt(s: string, i: nat, j: Json, compact: bool, end: nat)
    requires StartsAt(s, i, Encode(j, compact)) && end == i + |Encode(j, compact)| && StartsAt(s, end, TOOL_END)
    ensures i <= end <= |s| && ReadValue(s[i..]) == Some((j, s[end..]))
  {
    hide Encode, ReadValue;
    var json, rest := Encode(j, compact), s[end..];
    StartsIsSlice(s, i, json);
    assert s[i..] == json + rest;
    CharAt(s, end, TOOL_END, 0);
    assert TOOL_END[0] == '<';
    ValueRoundTrip(j, compact, rest);
  }

  lemma SkipNone(s: string, i: nat)
    requires i < |s| && !IsSpace(s[i])
    ensures SkipSpaces(s, i) == i
  {
  }

  lemma ToolBlockUnfold(s: string, i: nat, turn: Turn, maxCalls: int, json: nat, end: nat, call: ToolCall)
    requires StartsAt(s, i, TOOL_START) && json == i + 11 <= end <= |s| && SkipSpaces(s, i + 11) == json
    requires ReadValue(s[json..]) == Some((CallPayload(call), s[end..]))
    requires SkipSpaces(s, end) == end && StartsAt(s, end, TOOL_END)
    requires MakeToolCall(CallPayload(call)) == Some(call)
    ensures ToolBlock(s, i, turn, maxCalls) ==
      match AddCall(turn, call, maxCalls)
      case None => Fail(Malformed)
      case Some(next) => Continue(end + 12, next)
  {
    hide ReadValue, SkipSpaces, StartsAt, MakeToolCall, CallPayload, AddCall;
    assert |s| - |s[end..]| == end;
  }

  /** A rendered block reads back as its call and ends where it was printed. */
  lemma ToolBlockExact(s: string, i: nat, call: ToolCall, compact: bool, turn: Turn, maxCalls: int)
    requires StartsAt(s, i, RenderJsonCall(call, compact))
    ensures StartsAt(s, i, TOOL_START)
    ensures ToolBlock(s, i, turn, maxCalls) ==
      match AddCall(turn, call, maxCalls)
      case None => Fail(Malformed)
      case Some(next) => Continue(i + |RenderJsonCall(call, compact)|, next)
  {
    hide *;
    BlockParts(s, i, call, compact);
    var end := i + 11 + |Encode(CallPayload(call), compact)|;
    ReadAt(s, i + 11, CallPayload(call), compact, end);
    CharAt(s, i + 11, Encode(CallPayload(call), compact), 0);
    CharAt(s, end, TOOL_END, 0) by { EndTagText(); }
    EndTagText();
    SkipNone(s, i + 11) by { NoSpaces(); }
    SkipNone(s, end) by { NoSpaces(); }
    PayloadIsCall(call);
    ToolBlockUnfold(s, i, turn, maxCalls, i + 11, end, call);
  }

  lemma EndTagText()
    ensures |TOOL_END| == 12 && TOOL_END[0] == '<' && |TOOL_START| == 11
  {
  }

  lemma NoSpaces()
    ensures !IsSpace('{') && !IsSpace('<')
  {
  }

  lemma BlockOpens(s: string, i: nat)
    requires StartsAt(s, i, TOOL_START)
    ensures i < |s| && !OpensAt(ThinkOpener, s, i) && !OpensAt(ToolOpener, s, i) && !StartsAt(s, i, THINK_START)
  {
    hide StartsAt;
    CharAt(s, i, TOOL_START, 10);
    CharAt(s, i, TOOL_START, 2);
    assert TOOL_START[10] == '>' && TOOL_START[2] == 'o';
    DiffersAt(s, i, "<think", 2);
    DiffersAt(s, i, THINK_START, 2);
    NoNameHere(s, i + 10);
  }

  lemma NoNameHere(s: string, k: nat)
    requires k < |s| && s[k] == '>'
    ensures !NameAttributeFrom(s, k)
  {
    hide SkipSpaces;
    NotStarting(s, k, "name");
  }

  lemma BlockRegions(s: string, i: nat)
    requires StartsAt(s, i, TOOL_START)
    ensures XmlThinkStart(s, i) == None && XmlToolStart(s, i) == None
  {
    hide OpensAt, StartsAt;
    BlockOpens(s, i);
    assert Find(TOOL_START, s, i) == i;
    assert Search(ThinkOpener, s, i) != i && Search(ToolOpener, s, i) != i;
  }

  lemma NoRegions(s: string, i: nat)
    requires XmlThinkStart(s, i) == None && XmlToolStart(s, i) == None
    ensures XmlThinkRegion(s, i) == None && XmlToolRegion(s, i) == None && !ThinkRefused(s, i) && !ToolsRefused(s, i)
  {
    hide XmlThinkStart, XmlToolStart, CDataThinkEnd, ToolCallsEnd, ThinkRaises, ToolCallsRaise;
  }

  lemma BlockIsTool(s: string, i: nat, turn: Turn, maxCalls: int)
    requires StartsAt(s, i, TOOL_START)
    ensures JsonBlockStep(s, i, turn, maxCalls) == ToolBlock(s, i, turn, maxCalls)
    ensures SimpleStep(s, i, turn, maxCalls) == ToolBlock(s, i, turn, maxCalls)
  {
    hide OpensAt, StartsAt, CDataThinkEnd, ThinkBlock, ToolBlock;
    BlockOpens(s, i);
    assert Find(TOOL_START, s, i) == i && Find(THINK_START, s, i) != i;
  }

  /** Where a tool-call block starts, both JSON parsers read that block. */
  lemma StepOnToolBlock(s: string, i: nat, turn: Turn, maxCalls: int)
    requires StartsAt(s, i, TOOL_START)
    ensures i < |s|
    ensures DualStep(s, i, turn, maxCalls) == ToolBlock(s, i, turn, maxCalls)
    ensures SimpleStep(s, i, turn, maxCalls) == ToolBlock(s, i, turn, maxCalls)
  {
    hide *;
    BlockOpens(s, i);
    BlockRegions(s, i);
    NoRegions(s, i);
    StepOnBlock(s, i, turn, maxCalls);
    BlockIsTool(s, i, turn, maxCalls);
  }

  // ---------------------------------------------------------------- all blocks

  ghost function JsonBlocks(calls: seq<ToolCall>, compact: bool): string {
    if calls == [] then "" else RenderJsonCall(calls[0], compact) + JsonBlocks(calls[1..], compact)
  }

  lemma {:induction false} RenderIsBlocks(calls: seq<ToolCall>, compact: bool)
    ensures RenderCalls(calls, JsonFormat, compact) == Some(JsonBlocks(calls, compact))
    decreases |calls|
  {
    hide RenderJsonCall;
    if calls != [] {
      RenderIsBlocks(calls[1..], compact);
    }
  }

  lemma SimpleUnfold(s: string, cursor: nat, turn: Turn, maxCalls: int)
    requires cursor < |s|
    ensures SimpleFrom(s, cursor, turn, maxCalls) ==
      match SimpleStep(s, cursor, turn, maxCalls)
      case Stop => Finish(turn)
      case Fail(error) => Err(error)
      case Continue(next, newTurn) => SimpleFrom(s, next, newTurn, maxCalls)
  {
    hide SimpleStep, Finish;
  }

  lemma AtEnd(s: string, turn: Turn, maxCalls: int)
    ensures DualFrom(s, |s|, turn, maxCalls) == Finish(turn) && SimpleFrom(s, |s|, turn, maxCalls) == Finish(turn)
  {
  }

  /** From the first rendered block to the end, both JSON parsers collect the calls, up to the limit. */
  lemma {:induction false} BlocksRead(s: string, i: nat, calls: seq<ToolCall>, compact: bool, turn: Turn, maxCalls: int)
    requires StartsAt(s, i, JsonBlocks(calls, compact)) && i + |JsonBlocks(calls, compact)| == |s|
    requires SubmitAlone(turn.calls + calls) && |turn.calls| <= maxCalls
    ensures DualFrom(s, i, turn, maxCalls) ==
      if |turn.calls| + |calls| > maxCalls then Err(Malformed) else Finish(turn.(calls := turn.calls + calls))
    ensures SimpleFrom(s, i, turn, maxCalls) == DualFrom(s, i, turn, maxCalls)
    decreases |calls|
  {
    hide DualFrom, SimpleFrom, StartsAt, RenderJsonCall, SubmitAlone, AddCall, Finish, ToolBlock, DualStep, SimpleStep;
    if calls == [] {
      AtEnd(s, turn, maxCalls);
      assert turn.calls + calls == turn.calls;
    } else {
      var head, rest := RenderJsonCall(calls[0], compact), JsonBlocks(calls[1..], compact);
      SplitAt(s, i, head, rest);
      ToolBlockExact(s, i, calls[0], compact, turn, maxCalls);
      StepOnToolBlock(s, i, turn, maxCalls);
      DualUnfold(s, i, turn, maxCalls);
      SimpleUnfold(s, i, turn, maxCalls);
      AddOne(turn, calls, maxCalls);
      if |turn.calls| < maxCalls {
        BlocksRead(s, i + |head|, calls[1..], compact, turn.(calls := turn.calls + [calls[0]]), maxCalls);
      }
    }
  }

  // ---------------------------------------------------------------- thinking

  /** A JSON payload can carry the thinking text: stripped, and without the end tag. */
  predicate Readable(thinking: Option<string>) {
    thinking.Some? ==> Stripped(thinking.value) && Find(THINK_END, thinking.value, 0) == -1
  }

  ghost function JsonText(e: Envelope, compact: bool): string {
    (if e.thinking.Some? then THINK_START + e.thinking.value + THINK_END else "") + JsonBlocks(e.calls, compact)
  }

  lemma RenderIsText(e: Envelope, compact: bool)
    requires ValidEnvelope(e)
    ensures Render(e, JsonFormat, compact) == Some(JsonText(e, compact))
  {
    hide JsonBlocks, RenderCalls, SubmitAlone;
    RenderIsBlocks(e.calls, compact);
  }

  lemma ThinkKept(s: string, start: nat, turn: Turn)
    requires StartsAt(s, start, THINK_START) && turn.thinkSeen
    ensures ThinkBlock(s, start, turn) == Fail(Malformed)
  {
    hide StartsAt, Find;
  }

  lemma ToolKeeps(s: string, start: nat, turn: Turn, maxCalls: int)
    requires StartsAt(s, start, TOOL_START) && ToolBlock(s, start, turn, maxCalls).Continue?
    ensures var next := ToolBlock(s, start, turn, maxCalls).turn;
      next.thinking == turn.thinking && next.thinkSeen == turn.thinkSeen
  {
    hide StartsAt, ReadValue, SkipSpaces, MakeToolCall, SubmitAlone;
  }

  lemma BlockKeeps(s: string, cursor: nat, turn: Turn, maxCalls: int)
    requires turn.thinkSeen && JsonBlockStep(s, cursor, turn, maxCalls).Continue?
    ensures var next := JsonBlockStep(s, cursor, turn, maxCalls).turn;
      next.thinking == turn.thinking && next.thinkSeen
  {
    hide StartsAt, ThinkBlock, ToolBlock, CDataThinkEnd;
    var think, tool := Find(THINK_START, s, cursor), Find(TOOL_START, s, cursor);
    if think != -1 && (tool == -1 || think < tool) {
      ThinkKept(s, think, turn);
    } else {
      ToolKeeps(s, tool, turn, maxCalls);
    }
  }

  lemma StepKeeps(s: string, cursor: nat, turn: Turn, maxCalls: int)
    requires turn.thinkSeen && DualStep(s, cursor, turn, maxCalls).Continue?
    ensures var next := DualStep(s, cursor, turn, maxCalls).turn;
      next.thinking == turn.thinking && next.thinkSeen
  {
    hide JsonBlockStep, XmlThinkRegion, XmlToolRegion, Find, Search, BlankOrXmlThink;
    if XmlThinkRegion(s, cursor).None? && XmlToolRegion(s, cursor).None? {
      BlockKeeps(s, cursor, turn, maxCalls);
    }
  }

  lemma FinishKeeps(turn: Turn)
    ensures Finish(turn).Ok? ==> Finish(turn).envelope.thinking in {None, turn.thinking}
  {
  }

  /** Once a think block has been read, no later text changes the thinking. */
  lemma {:induction false} DualKeeps(s: string, cursor: nat, turn: Turn, maxCalls: int)
    requires turn.thinkSeen
    ensures var r := DualFrom(s, cursor, turn, maxCalls);
      r.Ok? ==> r.envelope.thinking in {None, turn.thinking}
    decreases |s| - cursor
  {
    hide DualStep, Finish;
    FinishKeeps(turn);
    if cursor < |s| {
      match DualStep(s, cursor, turn, maxCalls)
      case Stop =>
      case Fail(_) =>
      case Continue(next, newTurn) =>
        StepKeeps(s, cursor, turn, maxCalls);
        DualKeeps(s, next, newTurn, maxCalls);
    }
  }

  lemma SimpleStepKeeps(s: string, cursor: nat, turn: Turn, maxCalls: int)
    requires turn.thinkSeen && SimpleStep(s, cursor, turn, maxCalls).Continue?
    ensures var next := SimpleStep(s, cursor, turn, maxCalls).turn;
      next.thinking == turn.thinking && next.thinkSeen
  {
    hide StartsAt, ThinkBlock, ToolBlock;
    var think, tool := Find(THINK_START, s, cursor), Find(TOOL_START, s, cursor);
    if think != -1 && (tool == -1 || think < tool) {
      ThinkKept(s, think, turn);
    } else {
      ToolKeeps(s, tool, turn, maxCalls);
    }
  }

  lemma {:induction false} SimpleKeeps(s: string, cursor: nat, turn: Turn, maxCalls: int)
    requires turn.thinkSeen
    ensures var r := SimpleFrom(s, cursor, turn, maxCalls);
      r.Ok? ==> r.envelope.thinking in {None, turn.thinking}
    decreases |s| - cursor
  {
    hide SimpleStep, Finish;
    FinishKeeps(turn);
    if cursor < |s| {
      match SimpleStep(s, cursor, turn, maxCalls)
      case Stop =>
      case Fail(_) =>
      case Continue(next, newTurn) =>
        SimpleStepKeeps(s, cursor, turn, maxCalls);
        SimpleKeeps(s, next, newTurn, maxCalls);
    }
  }

  lemma SimpleThinkStep(s: string, maxCalls: int)
    requires StartsAt(s, 0, THINK_START)
    ensures SimpleStep(s, 0, START, maxCalls) == ThinkBlock(s, 0, START)
  {
    hide StartsAt, ThinkBlock, ToolBlock;
    ThinkOpens(s);
    assert Find(THINK_START, s, 0) == 0 && Find(TOOL_START, s, 0) != 0;
  }

  /** The thinking text up to its first end tag. */
  function FirstPart(thinking: string): string {
    var end := Find(THINK_END, thinking, 0);
    if end == -1 then thinking else thinking[..end]
  }

  lemma ThinkParts(thinking: string, rest: string)
    ensures var s := THINK_START + thinking + THINK_END + rest;
      StartsAt(s, 0, THINK_START) && StartsAt(s, 7, thinking) && StartsAt(s, 7 + |thinking|, THINK_END)
  {
  }

  lemma HeadStarts(s: string, i: nat, t: string, n: nat)
    requires StartsAt(s, i, t) && n <= |t|
    ensures StartsAt(s, i, t[..n])
  {
  }

  lemma FirstPartStands(thinking: string, rest: string)
    ensures StartsAt(THINK_START + thinking + THINK_END + rest, 0, THINK_START + FirstPart(thinking) + THINK_END)
    ensures Find(THINK_END, FirstPart(thinking), 0) == -1
    ensures Find(THINK_END, thinking, 0) != -1 ==> |FirstPart(thinking)| < |thinking|
  {
    hide Find, StartsAt;
    var s := THINK_START + thinking + THINK_END + rest;
    var end := Find(THINK_END, thinking, 0);
    var part := FirstPart(thinking);
    FirstEnd(thinking, part);
    ThinkParts(thinking, rest);
    if end != -1 {
      WithinLength(thinking, end, THINK_END);
      StartsInside(s, 7, thinking, end, THINK_END);
      HeadStarts(s, 7, thinking, end);
    }
    SplitAt(s, 0, THINK_START, part);
    SplitAt(s, 0, THINK_START + part, THINK_END);
  }

  lemma FirstEnd(thinking: string, part: string)
    requires part == FirstPart(thinking)
    ensures Find(THINK_END, part, 0) == -1
    ensures Find(THINK_END, thinking, 0) != -1 ==> |part| + 8 <= |thinking|
  {
    var end := Find(THINK_END, thinking, 0);
    if end != -1 {
      forall k: nat | k < end ensures !StartsAt(part, k, THINK_END) {
        if k + 8 <= end {
          assert StartsAt(thinking, 0, part);
          StartsInside(thinking, 0, part, k, THINK_END);
        }
      }
    }
  }

  /** The thinking text is read back unchanged exactly when a JSON payload can carry it. */
  lemma ThinkingRead(thinking: string)
    requires !AllSpace(thinking)
    ensures StrippedOrNone(FirstPart(thinking)) == Some(thinking) <==> Readable(Some(thinking))
    ensures Readable(Some(thinking)) ==> FirstPart(thinking) == thinking
  {
    hide Find, Strip;
    FirstEnd(thinking, FirstPart(thinking));
    StripProperties(FirstPart(thinking));
  }

  lemma FinishSame(e: Envelope, seen: bool)
    requires ValidEnvelope(e)
    ensures Finish(Turn(e.thinking, seen, e.calls)) == Ok(e)
  {
    hide SubmitAlone;
  }

  lemma BlocksPlaced(e: Envelope, compact: bool)
    ensures var s, blocks := JsonText(e, compact), JsonBlocks(e.calls, compact);
      StartsAt(s, |s| - |blocks|, blocks) && |s| >= |blocks|
    ensures e.thinking.Some? ==> |JsonText(e, compact)| - |JsonBlocks(e.calls, compact)| == |THINK_START + e.thinking.value + THINK_END|
  {
    hide JsonBlocks;
  }

  lemma NothingBefore(calls: seq<ToolCall>)
    ensures [] + calls == calls
  {
  }

  /** Both parsers on a payload without thinking: the envelope, up to the limit. */
  lemma WithoutThinking(e: Envelope, compact: bool, maxCalls: int)
    requires ValidEnvelope(e) && e.thinking.None? && maxCalls >= 1
    ensures DualFrom(JsonText(e, compact), 0, START, maxCalls) == if |e.calls| > maxCalls then Err(Malformed) else Ok(e)
    ensures SimpleFrom(JsonText(e, compact), 0, START, maxCalls) == DualFrom(JsonText(e, compact), 0, START, maxCalls)
  {
    hide DualFrom, SimpleFrom, JsonBlocks, StartsAt, Finish, SubmitAlone;
    var s := JsonText(e, compact);
    assert s == JsonBlocks(e.calls, compact);
    BlocksPlaced(e, compact);
    NothingBefore(e.calls);
    BlocksRead(s, 0, e.calls, compact, START, maxCalls);
    FinishSame(e, false);
  }

  /** The think block of a JSON payload is read up to its first end tag. */
  lemma FirstBlock(e: Envelope, compact: bool, maxCalls: int)
    requires ValidEnvelope(e) && e.thinking.Some?
    ensures var s, part := JsonText(e, compact), FirstPart(e.thinking.value);
      && StartsAt(s, 0, THINK_START) && s != ""
      && ThinkBlock(s, 0, START) == Continue(|THINK_START + part + THINK_END|, Turn(StrippedOrNone(part), true, []))
  {
    hide JsonBlocks, FirstPart, ThinkBlock, StrippedOrNone, StartsAt, Find;
    var th := e.thinking.value;
    FirstPartStands(th, JsonBlocks(e.calls, compact));
    ThinkBlockExact(JsonText(e, compact), FirstPart(th));
  }

  lemma AfterThinking(e: Envelope, compact: bool, maxCalls: int)
    requires ValidEnvelope(e) && e.thinking.Some? && Readable(e.thinking) && maxCalls >= 1
    ensures var s, next := JsonText(e, compact), Turn(e.thinking, true, []);
      var cursor := |THINK_START + e.thinking.value + THINK_END|;
      && DualFrom(s, cursor, next, maxCalls) == (if |e.calls| > maxCalls then Err(Malformed) else Ok(e))
      && SimpleFrom(s, cursor, next, maxCalls) == DualFrom(s, cursor, next, maxCalls)
  {
    hide DualFrom, SimpleFrom, JsonBlocks, StartsAt, Finish, SubmitAlone, Find, JsonText;
    var s := JsonText(e, compact);
    BlocksPlaced(e, compact);
    NothingBefore(e.calls);
    BlocksRead(s, |s| - |JsonBlocks(e.calls, compact)|, e.calls, compact, Turn(e.thinking, true, []), maxCalls);
    FinishSame(e, true);
  }

  lemma BlocksStart(calls: seq<ToolCall>, compact: bool)
    requires calls != []
    ensures StartsAt(JsonBlocks(calls, compact), 0, TOOL_START)
  {
    hide Encode, CallPayload, StartsAt;
    StandsAhead(TOOL_START, Encode(CallPayload(calls[0]), compact) + TOOL_END, JsonBlocks(calls[1..], compact),
               JsonBlocks(calls, compact));
  }

  lemma StandsAhead(head: string, middle: string, rest: string, all: string)
    requires all == head + middle + rest
    ensures StartsAt(all, 0, head)
  {
  }

  lemma StandsAfter(head: string, tail: string, lit: string)
    requires StartsAt(tail, 0, lit)
    ensures StartsAt(head + tail, |head|, lit)
  {
    assert forall k :: 0 <= k < |lit| ==> (head + tail)[|head| + k] == tail[k];
  }

  lemma StandsFirst(head: string, tail: string)
    ensures StartsAt(head + tail, 0, head)
  {
  }

  lemma BlockFirst(e: Envelope, compact: bool)
    requires ValidEnvelope(e) && e.thinking.None?
    ensures CDataThinkEnd(JsonText(e, compact), 0) == None
  {
    hide JsonBlocks, XmlThinkEnd, StartsAt, SubmitAlone;
    var s := JsonText(e, compact);
    assert s == JsonBlocks(e.calls, compact);
    BlocksStart(e.calls, compact);
    NotThinkHere(s);
  }

  lemma NotThinkHere(s: string)
    requires StartsAt(s, 0, TOOL_START)
    ensures XmlThinkEnd(s, 0) == None
  {
    hide ElementEnd, FromString, AllowedFrom, Children, StartsAt;
    CharAt(s, 0, TOOL_START, 2);
    DiffersAt(s, 0, "<think", 2);
  }

  // ---------------------------------------------------------------- a payload whose beginning is skipped

  lemma {:induction false} BlocksWeight(calls: seq<ToolCall>, compact: bool)
    ensures Weight(JsonBlocks(calls, compact)) == CallsWeight(calls)
    decreases |calls|
  {
    hide Weight, Encode, CallPayload, ValueWeight;
    if calls != [] {
      var payload := CallPayload(calls[0]);
      var text := Encode(payload, compact);
      TagWeights();
      PrintedWeight(payload, compact);
      WeightConcat(TOOL_START, text);
      WeightConcat(TOOL_START + text, TOOL_END);
      BlocksWeight(calls[1..], compact);
      WeightConcat(RenderJsonCall(calls[0], compact), JsonBlocks(calls[1..], compact));
    } else {
      Weightless("");
    }
  }

  lemma TextWeight(e: Envelope, compact: bool)
    ensures Weight(JsonText(e, compact)) == EnvelopeWeight(e)
  {
    hide Weight, JsonBlocks, CallsWeight;
    var blocks := JsonBlocks(e.calls, compact);
    BlocksWeight(e.calls, compact);
    if e.thinking.Some? {
      var th := e.thinking.value;
      TagWeights();
      WeightConcat(THINK_START, th);
      WeightConcat(THINK_START + th, THINK_END);
      WeightConcat(THINK_START + th + THINK_END, blocks);
    } else {
      assert "" + blocks == blocks;
    }
  }

  /** What follows a skipped beginning weighs less than the payload, so the payload's envelope cannot come from it. */
  lemma SkippedLoses(e: Envelope, compact: bool, end: nat, maxCalls: int)
    requires 0 < end <= |JsonText(e, compact)| && JsonText(e, compact)[0] == '<'
    ensures DualFrom(JsonText(e, compact), end, START, maxCalls) != Ok(e)
  {
    hide Weight, JsonText, DualFrom, CallsWeight, Sound;
    var s := JsonText(e, compact);
    TextWeight(e, compact);
    NothingYet();
    ParsedIsPaid(s, end, START, maxCalls);
    AngleAhead(s);
    LaterWeight(s, 1, end);
  }

  lemma NothingYet()
    ensures Sound(START) && TurnWeight(START) == 0
  {
  }

  lemma AngleAhead(s: string)
    requires s != "" && s[0] == '<'
    ensures Weight(s) == 1 + Weight(s[1..])
  {
  }

  /** When a beginning of the payload is an XML think block with CDATA, the parser skips it and never returns the
      envelope. */
  lemma SkippedThinking(e: Envelope, compact: bool, maxCalls: int)
    requires ValidEnvelope(e) && e.thinking.Some? && CDataThinkEnd(JsonText(e, compact), 0).Some?
    ensures DualFrom(JsonText(e, compact), 0, START, maxCalls) != Ok(e)
  {
    hide *;
    var s := JsonText(e, compact);
    var end := CDataThinkEnd(s, 0).value;
    FirstBlock(e, compact, maxCalls);
    ThinkOpens(s);
    TagHead();
    CharAt(s, 0, THINK_START, 0);
    ThinkRegion(s, end);
    StepOnThink(s, end, START, maxCalls);
    DualUnfold(s, 0, START, maxCalls);
    SkipKind(s, end);
    SkippedLoses(e, compact, end, maxCalls);
  }

  lemma TagHead()
    ensures |THINK_START| == 7 && THINK_START[0] == '<'
  {
  }

  lemma SkipKind(s: string, end: nat)
    requires 0 < end <= |s|
    ensures var r := SkipXmlThink(s, 0, 0, end, START); r == Fail(MixedPayload) || r == Continue(end, START)
  {
    hide Find, Search;
  }

  /** _parse_json_assistant_turn_payload_dual(render(e)) is e exactly when the payload does not begin with an XML think
      block that has a CDATA section, the thinking text can be carried and the limit allows the calls. */
  lemma DualJsonExact(e: Envelope, compact: bool, maxCalls: int)
    requires ValidEnvelope(e)
    ensures ParseJsonDual(JsonText(e, compact), maxCalls) == Ok(e) <==>
      CDataThinkEnd(JsonText(e, compact), 0) == None && Readable(e.thinking) && |e.calls| <= maxCalls
  {
    hide *;
    HasCalls(e);
    ParseDualUnfold(JsonText(e, compact), maxCalls);
    if maxCalls >= 1 {
      if e.thinking.None? {
        BlockFirst(e, compact);
        WithoutThinking(e, compact, maxCalls);
        NoThinkingReadable();
      } else if CDataThinkEnd(JsonText(e, compact), 0).Some? {
        SkippedThinking(e, compact, maxCalls);
      } else {
        ThinkingInPlace(e, compact, maxCalls);
      }
    }
  }

  lemma ThinkingInPlace(e: Envelope, compact: bool, maxCalls: int)
    requires ValidEnvelope(e) && e.thinking.Some? && maxCalls >= 1 && CDataThinkEnd(JsonText(e, compact), 0) == None
    ensures DualFrom(JsonText(e, compact), 0, START, maxCalls) == Ok(e) <==> Readable(e.thinking) && |e.calls| <= maxCalls
  {
    hide *;
    var s, th := JsonText(e, compact), e.thinking.value;
    var part := FirstPart(th);
    var next := Turn(StrippedOrNone(part), true, []);
    FirstBlock(e, compact, maxCalls);
    ThinkStep(s, maxCalls);
    DualUnfold(s, 0, START, maxCalls);
    NotBlank(e);
    ThinkingRead(th);
    DualKeeps(s, |THINK_START + part + THINK_END|, next, maxCalls);
    if Readable(e.thinking) {
      AfterThinking(e, compact, maxCalls);
    }
  }

  lemma NoThinkingReadable()
    ensures Readable(None)
  {
  }

  lemma NotBlank(e: Envelope)
    requires ValidEnvelope(e) && e.thinking.Some?
    ensures !AllSpace(e.thinking.value)
  {
  }

  /** TurnParser.parse_assistant_turn_payload(render(e)) is e exactly when the thinking text can be carried and
      the limit allows the calls. */
  lemma SimpleJsonExact(e: Envelope, compact: bool, maxCalls: int)
    requires ValidEnvelope(e)
    ensures ParseSimple(JsonText(e, compact), maxCalls) == Ok(e) <==> Readable(e.thinking) && |e.calls| <= maxCalls
  {
    hide *;
    var s := JsonText(e, compact);
    HasCalls(e);
    ParseSimpleUnfold(s, maxCalls);
    if maxCalls >= 1 {
      if e.thinking.None? {
        WithoutThinking(e, compact, maxCalls);
        NoThinkingReadable();
      } else {
        var th := e.thinking.value;
        var part := FirstPart(th);
        var next := Turn(StrippedOrNone(part), true, []);
        FirstBlock(e, compact, maxCalls);
        SimpleThinkStep(s, maxCalls);
        SimpleUnfold(s, 0, START, maxCalls);
        NotBlank(e);
        ThinkingRead(th);
        SimpleKeeps(s, |THINK_START + part + THINK_END|, next, maxCalls);
        if Readable(e.thinking) {
          AfterThinking(e, compact, maxCalls);
        }
      }
    }
  }

  lemma ParseSimpleUnfold(s: string, maxCalls: int)
    ensures ParseSimple(s, maxCalls) == if maxCalls < 1 then Err(BadLimit) else SimpleFrom(s, 0, START, maxCalls)
  {
    hide SimpleFrom;
  }
}
