/** The parsers' loops as they are written: each updates its cursor, thinking and calls, and is proved to compute
    the function of ActionParse that the codec's properties are about. */
module ActionLoops {
  import opened Text
  import opened JsonCodec
  import opened Contracts
  import opened XmlTree
  import opened ActionRender
  import opened ElementScanner
  import opened ActionParse

  /** What reading a tool-call block makes of a turn. */
  function BlockStep(r: Option<(nat, seq<ToolCall>)>, turn: Turn): Step {
    match r
    case None => Fail(Malformed)
    case Some((cursor, calls)) => Continue(cursor, turn.(calls := calls))
  }

  /** The tool-call block both JSON parsers read: where it ends and the calls so far, or a parse error. */
  method ReadToolBlock(payload: string, toolStart: nat, toolCalls: seq<ToolCall>, maxToolCalls: int)
    returns (r: Option<(nat, seq<ToolCall>)>)
    requires StartsAt(payload, toolStart, TOOL_START)
    ensures forall turn: Turn :: turn.calls == toolCalls ==>
      ToolBlock(payload, toolStart, turn, maxToolCalls) == BlockStep(r, turn)
    ensures r.Some? ==> toolStart < r.value.0 <= |payload|
  {
    hide ReadValue, StartsAt, SkipSpaces, MakeToolCall, SubmitAlone;
    assert toolStart + 11 <= |payload| by { StartsIsSlice(payload, toolStart, TOOL_START); }
    var jsonStart := SkipWhitespace(payload, toolStart + 11);
    var decoded := ReadValue(payload[jsonStart..]);
    if decoded.None? {
      return None;
    }
    var jsonEnd := |payload| - |decoded.value.1|;
    var endTagStart := SkipWhitespace(payload, jsonEnd);
    if !StartsAt(payload, endTagStart, TOOL_END) {
      return None;
    }
    var call := MakeToolCall(decoded.value.0);
    if call.None? {
      return None;
    }
    var calls := toolCalls + [call.value];
    if !SubmitAlone(calls) || |calls| > maxToolCalls {
      return None;
    }
    assert endTagStart + 12 <= |payload| by { StartsIsSlice(payload, endTagStart, TOOL_END); }
    return Some((endTagStart + 12, calls));
  }

  /** TurnParser.parse_assistant_turn_payload */
  method ParseAssistantTurnPayload(payload: string, maxToolCalls: int) returns (r: Parsed)
    ensures r == ParseSimple(payload, maxToolCalls)
  {
    hide ToolBlock, StartsAt, Finish, StrippedOrNone;
    if maxToolCalls < 1 {
      return Err(BadLimit);
    }
    var thinking: Option<string> := None;
    var thinkSeen := false;
    var toolCalls: seq<ToolCall> := [];
    var cursor: nat := 0;
    while cursor < |payload|
      invariant ParseSimple(payload, maxToolCalls)
        == SimpleFrom(payload, cursor, Turn(thinking, thinkSeen, toolCalls), maxToolCalls)
      decreases |payload| - cursor
    {
      ghost var turn := Turn(thinking, thinkSeen, toolCalls);
      var thinkStart := Find(THINK_START, payload, cursor);
      var toolStart := Find(TOOL_START, payload, cursor);
      if thinkStart == -1 && toolStart == -1 {
        return Finish(Turn(thinking, thinkSeen, toolCalls));
      }
      if thinkStart != -1 && (toolStart == -1 || thinkStart < toolStart) {
        if thinkSeen {
          return Err(Malformed);
        }
        var thinkEnd := Find(THINK_END, payload, thinkStart + 7);
        if thinkEnd < 0 {
          return Err(Malformed);
        }
        thinkSeen := true;
        thinking := StrippedOrNone(payload[thinkStart + 7..thinkEnd]);
        assert SimpleStep(payload, cursor, turn, maxToolCalls)
          == Continue(thinkEnd + 8, Turn(thinking, thinkSeen, toolCalls));
        cursor := thinkEnd + 8;
        continue;
      }
      var block := ReadToolBlock(payload, toolStart, toolCalls, maxToolCalls);
      assert turn.calls == toolCalls;
      if block.None? {
        return Err(Malformed);
      }
      toolCalls := block.value.1;
      assert SimpleStep(payload, cursor, turn, maxToolCalls)
        == Continue(block.value.0, Turn(thinking, thinkSeen, toolCalls));
      cursor := block.value.0;
    }
    return Finish(Turn(thinking, thinkSeen, toolCalls));
  }

  // ---------------------------------------------------------------- XML regions

  /** _find_xml_think_end; `raised` is its exception for an element in a namespace. */
  method FindXmlThinkEnd(payload: string, start: nat) returns (raised: bool, r: Option<nat>)
    ensures raised == ThinkRaises(payload, start) && r == XmlThinkEnd(payload, start)
  {
    hide ElementEnd, AllowedFrom, FromString, Children, StartsAt, InNamespace;
    if !StartsAt(payload, start, "<think") {
      return false, None;
    }
    var elementEnd := FindXmlElementEnd(payload, start);
    if elementEnd.None? {
      return false, None;
    }
    var candidate := payload[start..elementEnd.value];
    var allowed := RejectDisallowedXmlConstructs(candidate);
    if !allowed {
      return false, None;
    }
    var element := FromString(candidate);
    if element.None? {
      return false, None;
    }
    if InNamespace(element.value) {
      NamespaceShows(element.value);
      return true, None;
    }
    if element.value.name != "think" || element.value.attributes != map[] || Children(element.value.content) != [] {
      return false, None;
    }
    return false, elementEnd;
  }

  lemma NamespaceShows(element: Element)
    requires InNamespace(element)
    ensures element.name != "think"
  {
  }

  /** _find_xml_cdata_think_end */
  method FindXmlCDataThinkEnd(payload: string, start: nat) returns (raised: bool, r: Option<nat>)
    ensures raised == ThinkRaises(payload, start) && r == CDataThinkEnd(payload, start)
  {
    hide ThinkRaises, XmlThinkEnd, Find;
    raised, r := FindXmlThinkEnd(payload, start);
    if r.Some? && Find(CDATA_START, payload[start..r.value], 0) == -1 {
      r := None;
    }
  }

  /** _looks_like_xml_tool_call_sequence */
  method LooksLikeXmlToolCallSequence(segment: string) returns (r: Verdict)
    ensures r == LooksLikeToolCalls(segment)
  {
    hide FromString, Document, Strip, AllSpace, InNamespace, NamedToolCall;
    var candidate := Strip(segment);
    if candidate == "" {
      return No;
    }
    var root := FromString(Document(candidate));
    if root.None? {
      return No;
    }
    var content := root.value.content;
    assert content[0..] == content;
    for i := 0 to |content|
      invariant ItemsLook(content) == ItemsLook(content[i..])
    {
      assert content[i..][1..] == content[i + 1..];
      match content[i] {
        case Chars(text) =>
          if !AllSpace(text) {
            return No;
          }
        case Child(child) =>
          if InNamespace(child) {
            return Raised;
          }
          if !NamedToolCall(child) {
            return No;
          }
      }
    }
    return Yes;
  }

  /** The XML tool-call run at `start`, when it looks like one: where it ends. */
  method FindToolCallsEnd(payload: string, start: nat) returns (raised: bool, r: Option<nat>)
    requires start < |payload|
    ensures raised == ToolCallsRaise(payload, start) && r == ToolCallsEnd(payload, start)
  {
    hide SequenceFrom, LooksLikeToolCalls;
    var sequence := FindXmlToolCallSequence(payload, start);
    if sequence.None? {
      return false, None;
    }
    var end := sequence.value.0;
    var looks := LooksLikeXmlToolCallSequence(payload[start..end]);
    return looks == Raised, if looks == Yes then Some(end) else None;
  }

  /** _is_whitespace_or_single_xml_think */
  method IsWhitespaceOrSingleXmlThink(payload: string, start: nat, end: nat) returns (raised: bool, r: bool)
    requires start <= end <= |payload|
    ensures raised == BlankRaises(payload, start, end) && r == BlankOrXmlThink(payload, start, end)
  {
    hide ThinkRaises, XmlThinkEnd;
    var cursor := SkipWhitespace(payload, start);
    if cursor >= end {
      return false, true;
    }
    var thinkEnd: Option<nat>;
    raised, thinkEnd := FindXmlThinkEnd(payload, cursor);
    r := thinkEnd.Some? && thinkEnd.value <= end && AllSpace(payload[thinkEnd.value..end]);
  }

  // ---------------------------------------------------------------- the XML-aware JSON parser

  /** The region an iteration skips as XML, thinking first: where it starts and ends, and which kind it is; or the
      exception raised while looking for it. */
  method FindXmlRegion(payload: string, cursor: nat)
    returns (raised: bool, think: Option<(nat, nat)>, tools: Option<(nat, nat)>)
    ensures raised == (ThinkRefused(payload, cursor) || (XmlThinkRegion(payload, cursor).None? && ToolsRefused(payload, cursor)))
    ensures !raised ==> think == XmlThinkRegion(payload, cursor)
    ensures !raised && think.None? ==> tools == XmlToolRegion(payload, cursor)
  {
    hide Find, Search, StartsAt, OpensAt, CDataThinkEnd, ToolCallsEnd, ToolCallsRaise, ThinkRaises;
    raised, think, tools := false, None, None;
    var thinkStart := Find(THINK_START, payload, cursor);
    var toolStart := Find(TOOL_START, payload, cursor);
    var nextSupportedStart := Earlier(thinkStart, toolStart);
    var xmlThinkStart := Search(ThinkOpener, payload, cursor);
    var xmlToolStart := Search(ToolOpener, payload, cursor);
    if xmlThinkStart != -1
      && (nextSupportedStart == -1 || xmlThinkStart <= nextSupportedStart)
      && (xmlToolStart == -1 || xmlThinkStart < xmlToolStart)
    {
      var xmlThinkEnd: Option<nat>;
      raised, xmlThinkEnd := FindXmlCDataThinkEnd(payload, xmlThinkStart);
      if raised {
        return;
      }
      if xmlThinkEnd.Some? {
        think := Some((xmlThinkStart, xmlThinkEnd.value));
        return;
      }
    }
    if xmlToolStart != -1 && (nextSupportedStart == -1 || xmlToolStart < nextSupportedStart) {
      var xmlEnd: Option<nat>;
      raised, xmlEnd := FindToolCallsEnd(payload, xmlToolStart);
      if xmlEnd.Some? {
        tools := Some((xmlToolStart, xmlEnd.value));
      }
    }
  }

  /** One iteration of the loop, from the variables it reads to the variables it leaves. */
  method DualIteration(payload: string, cursor: nat, turn: Turn, maxToolCalls: int) returns (r: Step)
    ensures r == DualStep(payload, cursor, turn, maxToolCalls)
  {
    hide Find, Search, StartsAt, OpensAt, CDataThinkEnd, XmlThinkRegion, XmlToolRegion, ThinkBlock, ToolBlock,
      BlankOrXmlThink, BlankRaises, AllSpace, ThinkRefused, ToolsRefused, ThinkRaises;
    var raised, think, tools := FindXmlRegion(payload, cursor);
    if raised {
      return Fail(Namespaced);
    }
    if think.Some? {
      var (start, end) := think.value;
      return SkipXmlThink(payload, cursor, start, end, turn);
    }
    if tools.Some? {
      var (start, end) := tools.value;
      var found := Earlier(Search(ThinkOpener, payload, end), Find(TOOL_START, payload, end));
      var boundary := if found == -1 then |payload| else found;
      var alone: bool;
      raised, alone := IsWhitespaceOrSingleXmlThink(payload, cursor, start);
      if raised {
        return Fail(Namespaced);
      }
      return if alone && AllSpace(payload[end..boundary]) then Fail(MixedPayload) else Continue(end, turn);
    }
    var thinkStart := Find(THINK_START, payload, cursor);
    var toolStart := Find(TOOL_START, payload, cursor);
    if thinkStart == -1 && toolStart == -1 {
      return Stop;
    }
    if thinkStart != -1 && (toolStart == -1 || thinkStart < toolStart) {
      var xmlThinkEnd: Option<nat>;
      raised, xmlThinkEnd := FindXmlCDataThinkEnd(payload, thinkStart);
      if raised {
        return Fail(Namespaced);
      }
      if xmlThinkEnd.Some? {
        return Continue(xmlThinkEnd.value, turn);
      }
      return ThinkBlock(payload, thinkStart, turn);
    }
    var block := ReadToolBlock(payload, toolStart, turn.calls, maxToolCalls);
    return BlockStep(block, turn);
  }

  /** _parse_json_assistant_turn_payload_dual */
  method ParseJsonAssistantTurnPayloadDual(payload: string, maxToolCalls: int) returns (r: Parsed)
    ensures r == ParseJsonDual(payload, maxToolCalls)
  {
    hide DualStep, Finish;
    if maxToolCalls < 1 {
      return Err(BadLimit);
    }
    var turn := START;
    var cursor: nat := 0;
    while cursor < |payload|
      invariant ParseJsonDual(payload, maxToolCalls) == DualFrom(payload, cursor, turn, maxToolCalls)
      decreases |payload| - cursor
    {
      var step := DualIteration(payload, cursor, turn, maxToolCalls);
      match step {
        case Stop => return Finish(turn);
        case Fail(error) => return Err(error);
        case Continue(next, newTurn) => cursor, turn := next, newTurn;
      }
    }
    return Finish(turn);
  }

  // ---------------------------------------------------------------- the XML parser

  /** The values of a list argument. */
  method ReadListItems(tag: string, children: seq<Element>) returns (r: Option<seq<Json>>)
    ensures r == ListItems(tag, children)
  {
    hide Children, DirectText;
    var values: seq<Json> := [];
    assert children[0..] == children && forall rest: seq<Json> :: [] + rest == rest;
    for i := 0 to |children|
      invariant ListItems(tag, children) ==
        match ListItems(tag, children[i..]) case None => None case Some(rest) => Some(values + rest)
    {
      var child := children[i];
      assert children[i..][1..] == children[i + 1..];
      if child.name != tag || child.attributes != map[] || Children(child.content) != [] {
        return None;
      }
      ghost var before := values;
      values := values + [Str(DirectText(child.content))];
      assert forall rest: seq<Json> :: before + ([Str(DirectText(child.content))] + rest) == values + rest;
    }
    assert values + [] == values;
    return Some(values);
  }

  /** _coerce_xml_arg_value */
  method CoerceXmlArgValue(tool: Tool, element: Element) returns (r: Option<Json>)
    ensures r == CoerceArg(tool, element)
  {
    hide Children, DirectText, ListItems, ArgKindOf, ItemTag, PythonInt, AllSpace;
    if ArgKindOf(tool, element.name) == Some(StringListArg) {
      if !AllSpace(DirectText(element.content)) {
        return None;
      }
      var items := ReadListItems(ItemTag(element.name), Children(element.content));
      return if items.Some? then Some(Arr(items.value)) else None;
    }
    if Children(element.content) != [] {
      return None;
    }
    if ArgKindOf(tool, element.name) == Some(IntArg) {
      var n := PythonInt(DirectText(element.content));
      return if n.Some? then Some(Int(n.value)) else None;
    }
    return Some(Str(DirectText(element.content)));
  }

  /** The argument loop of _parse_xml_tool_call. */
  method ReadXmlArgs(tool: Tool, children: seq<Element>) returns (r: Option<map<string, Json>>)
    ensures r == ReadArgs(tool, children, map[])
  {
    hide CoerceArg;
    var args: map<string, Json> := map[];
    assert children[0..] == children;
    for i := 0 to |children|
      invariant ReadArgs(tool, children, map[]) == ReadArgs(tool, children[i..], args)
    {
      var child := children[i];
      assert children[i..][1..] == children[i + 1..];
      if InNamespace(child) || child.attributes != map[] || child.name in args {
        return None;
      }
      var value := CoerceXmlArgValue(tool, child);
      if value.None? {
        return None;
      }
      args := args[child.name := value.value];
    }
    return Some(args);
  }

  /** _parse_xml_tool_call */
  method ParseXmlToolCall(element: Element) returns (r: Option<ToolCall>)
    ensures r == XmlToolCall(element)
  {
    hide Children, DirectText, CanonicalTool, Strip, ReadArgs, AllSpace;
    if element.attributes.Keys != {"name"} || Strip(element.attributes["name"]) == "" {
      return None;
    }
    var tool := CanonicalTool(Strip(element.attributes["name"]));
    if tool.None? || !AllSpace(DirectText(element.content)) {
      return None;
    }
    var args := ReadXmlArgs(tool.value, Children(element.content));
    return if args.Some? then Some(ToolCall(tool.value, args.value)) else None;
  }

  /** One child of the payload's root. */
  method ParseXmlChild(child: Element, turn: Turn, maxToolCalls: int) returns (r: Option<Turn>)
    ensures r == XmlChild(child, turn, maxToolCalls)
  {
    hide Children, DirectText, StrippedOrNone, XmlToolCall, AddCall;
    if child.name == "think" {
      if turn.thinkSeen || child.attributes != map[] || Children(child.content) != [] {
        return None;
      }
      return Some(turn.(thinking := StrippedOrNone(DirectText(child.content)), thinkSeen := true));
    }
    if child.name != "tool_call" {
      return None;
    }
    var call := ParseXmlToolCall(child);
    return if call.Some? then AddCall(turn, call.value, maxToolCalls) else None;
  }

  /** parse_xml_assistant_turn_payload */
  method ParseXmlAssistantTurnPayload(payload: string, maxToolCalls: int) returns (r: Parsed)
    ensures r == ParseXml(payload, maxToolCalls)
  {
    hide AllowedFrom, FromString, Document, DirectText, Children, XmlChild, Finish;
    if maxToolCalls < 1 {
      return Err(BadLimit);
    }
    var allowed := RejectDisallowedXmlConstructs(payload);
    if !allowed {
      return Err(Malformed);
    }
    var root := FromString(Document(payload));
    if root.None? || !AllSpace(DirectText(root.value.content)) {
      return Err(Malformed);
    }
    var children := Children(root.value.content);
    var turn := START;
    assert children[0..] == children;
    for i := 0 to |children|
      invariant ParseXml(payload, maxToolCalls) == XmlFold(children[i..], turn, maxToolCalls)
    {
      assert children[i..][1..] == children[i + 1..];
      var next := ParseXmlChild(children[i], turn, maxToolCalls);
      if next.None? {
        return Err(Malformed);
      }
      turn := next.value;
    }
    return Finish(turn);
  }

  /** parse_assistant_payload */
  method ParseAssistantPayload(payload: string, mode: Mode, maxToolCalls: int) returns (r: ParsedAction)
    ensures r == ParsePayload(payload, mode, maxToolCalls)
  {
    hide ParseAs, FormatHint;
    var candidates :=
      match mode
      case JsonOnly => [JsonFormat]
      case XmlOnly => [XmlFormat]
      case Dual => if FormatHint(payload) == XmlFormat then [XmlFormat, JsonFormat] else [JsonFormat, XmlFormat];
    r := ParseAssistantPayloadAs(payload, candidates[0], maxToolCalls);
    if |candidates| == 1 || r.Action? || r.error == BadLimit {
      return;
    }
    var second := ParseAssistantPayloadAs(payload, candidates[1], maxToolCalls);
    if second.Action? {
      r := second;
    }
  }

  /** _parse_assistant_payload_as */
  method ParseAssistantPayloadAs(payload: string, format: Format, maxToolCalls: int) returns (r: ParsedAction)
    ensures r == ParseAs(payload, format, maxToolCalls)
  {
    hide ParseJsonDual, ParseXml;
    var parsed: Parsed;
    if format.JsonFormat? {
      parsed := ParseJsonAssistantTurnPayloadDual(payload, maxToolCalls);
    } else {
      parsed := ParseXmlAssistantTurnPayload(payload, maxToolCalls);
    }
    return match parsed case Ok(e) => Action(e, format) case Err(error) => Failed(error);
  }
}
