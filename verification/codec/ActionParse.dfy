/** The three assistant-payload parsers and the format-detecting dual mode (src/rollout/action_format.py,
    src/rollout/turn_parser.py), as functions of the payload. */
module ActionParse {
  import opened Text
  import opened JsonCodec
  import opened Contracts
  import opened XmlTree
  import opened ActionRender
  import opened ElementScanner

  /** BadLimit is the ValueError for max_tool_calls < 1; the others are TurnParseError, Namespaced the one that the
      XML-aware JSON parser raises when an element it looks at is in a namespace. */
  datatype ParseError = BadLimit | MixedPayload | Namespaced | Malformed

  datatype Parsed = Ok(envelope: Envelope) | Err(error: ParseError)

  /** The variables of a parser's loop. */
  datatype Turn = Turn(thinking: Option<string>, thinkSeen: bool, calls: seq<ToolCall>)

  datatype Step = Continue(cursor: nat, turn: Turn) | Stop | Fail(error: ParseError)

  const START := Turn(None, false, [])

  function Finish(turn: Turn): Parsed {
    match MakeEnvelope(turn.thinking, turn.calls)
    case None => Err(Malformed)
    case Some(e) => Ok(e)
  }

  function Earlier(a: int, b: int): int {
    if a == -1 then b else if b == -1 || a <= b then a else b
  }

  function StrippedOrNone(text: string): Option<string> {
    if Strip(text) == "" then None else Some(Strip(text))
  }

  // ---------------------------------------------------------------- blocks both JSON parsers share

  /** A think block whose opener is at `start`. */
  function ThinkBlock(payload: string, start: nat, turn: Turn): (r: Step)
    requires StartsAt(payload, start, THINK_START)
    ensures r.Continue? ==> start < r.cursor <= |payload|
  {
    var end := Find(THINK_END, payload, start + 7);
    if turn.thinkSeen || end == -1 then Fail(Malformed)
    else Continue(end + 8, turn.(thinking := StrippedOrNone(payload[start + 7..end]), thinkSeen := true))
  }

  /** One more call, or the limit and submit checks that refuse it. */
  function AddCall(turn: Turn, call: ToolCall, maxCalls: int): Option<Turn> {
    var calls := turn.calls + [call];
    if !SubmitAlone(calls) || |calls| > maxCalls then None else Some(turn.(calls := calls))
  }

  /** The end tag of a tool-call block whose JSON ended at `jsonEnd`. */
  function CloseToolBlock(payload: string, jsonEnd: nat, decoded: Json, turn: Turn, maxCalls: int): (r: Step)
    requires jsonEnd <= |payload|
    ensures r.Continue? ==> jsonEnd < r.cursor <= |payload|
  {
    var endTag := SkipSpaces(payload, jsonEnd);
    if !StartsAt(payload, endTag, TOOL_END) then Fail(Malformed)
    else
      match MakeToolCall(decoded)
      case None => Fail(Malformed)
      case Some(call) =>
        match AddCall(turn, call, maxCalls)
        case None => Fail(Malformed)
        case Some(next) => Continue(endTag + 12, next)
  }

  /** A tool-call block whose opener is at `start`. */
  function ToolBlock(payload: string, start: nat, turn: Turn, maxCalls: int): (r: Step)
    requires StartsAt(payload, start, TOOL_START)
    ensures r.Continue? ==> start < r.cursor <= |payload|
  {
    var jsonStart := SkipSpaces(payload, start + 11);
    match ReadValue(payload[jsonStart..])
    case None => Fail(Malformed)
    case Some((decoded, rest)) => CloseToolBlock(payload, |payload| - |rest|, decoded, turn, maxCalls)
  }

  // ---------------------------------------------------------------- the simple parser

  function SimpleStep(payload: string, cursor: nat, turn: Turn, maxCalls: int): (r: Step)
    ensures r.Continue? ==> cursor < r.cursor <= |payload|
  {
    var think := Find(THINK_START, payload, cursor);
    var tool := Find(TOOL_START, payload, cursor);
    if think == -1 && tool == -1 then Stop
    else if think != -1 && (tool == -1 || think < tool) then ThinkBlock(payload, think, turn)
    else ToolBlock(payload, tool, turn, maxCalls)
  }

  function SimpleFrom(payload: string, cursor: nat, turn: Turn, maxCalls: int): Parsed
    decreases |payload| - cursor
  {
    if cursor >= |payload| then Finish(turn)
    else
      match SimpleStep(payload, cursor, turn, maxCalls)
      case Stop => Finish(turn)
      case Fail(error) => Err(error)
      case Continue(next, newTurn) => SimpleFrom(payload, next, newTurn, maxCalls)
  }

  function ParseSimple(payload: string, maxCalls: int): Parsed {
    if maxCalls < 1 then Err(BadLimit) else SimpleFrom(payload, 0, START, maxCalls)
  }

  // ---------------------------------------------------------------- XML regions inside a JSON payload

  /** _local_xml_name raises. */
  predicate InNamespace(element: Element) {
    '}' in element.name || ':' in element.name
  }

  /** What ElementTree reads of an element that opens like a think block, and where it ends. */
  function ThinkElementAt(payload: string, start: nat): (r: Option<(nat, Element)>)
    ensures r.Some? ==> start < r.value.0 <= |payload|
  {
    if !StartsAt(payload, start, "<think") then None
    else
      match ElementEnd(payload, start)
      case None => None
      case Some(end) =>
        var candidate := payload[start..end];
        if !AllowedFrom(candidate, 0) then None
        else
          match FromString(candidate)
          case None => None
          case Some(element) => Some((end, element))
  }

  /** _find_xml_think_end raises. */
  predicate ThinkRaises(payload: string, start: nat) {
    ThinkElementAt(payload, start).Some? && InNamespace(ThinkElementAt(payload, start).value.1)
  }

  /** _find_xml_think_end */
  function XmlThinkEnd(payload: string, start: nat): (r: Option<nat>)
    ensures r.Some? ==> start < r.value <= |payload|
  {
    match ThinkElementAt(payload, start)
    case None => None
    case Some((end, element)) =>
      if element.name == "think" && element.attributes == map[] && Children(element.content) == [] then Some(end) else None
  }

  /** _find_xml_cdata_think_end */
  function CDataThinkEnd(payload: string, start: nat): (r: Option<nat>)
    ensures r.Some? ==> start < r.value <= |payload|
  {
    match XmlThinkEnd(payload, start)
    case None => None
    case Some(end) => if Find(CDATA_START, payload[start..end], 0) == -1 then None else Some(end)
  }

  /** The document a run of blocks is wrapped into for ElementTree. */
  function Document(body: string): string {
    "<assistant_payload>" + body + "</assistant_payload>"
  }

  datatype Verdict = Yes | No | Raised

  /** The loop over the children of the document, each with the text behind it. */
  function ItemsLook(content: seq<Item>): Verdict {
    if content == [] then Yes
    else
      match content[0]
      case Chars(text) => if AllSpace(text) then ItemsLook(content[1..]) else No
      case Child(element) =>
        if InNamespace(element) then Raised
        else if NamedToolCall(element) then ItemsLook(content[1..]) else No
  }

  /** _looks_like_xml_tool_call_sequence */
  function LooksLikeToolCalls(segment: string): Verdict {
    var candidate := Strip(segment);
    if candidate == "" then No
    else
      match FromString(Document(candidate))
      case None => No
      case Some(root) => ItemsLook(root.content)
  }

  predicate NamedToolCall(child: Element) {
    child.name == "tool_call" && "name" in child.attributes && Strip(child.attributes["name"]) != ""
  }

  /** Deciding whether a run of XML tool calls starts at `start` raises. */
  predicate ToolCallsRaise(payload: string, start: nat)
    requires start < |payload|
  {
    match SequenceFrom(payload, start, 0)
    case None => false
    case Some((end, count)) => LooksLikeToolCalls(payload[start..end]) == Raised
  }

  /** The end of a run of XML tool calls starting at `start`, when it is one. */
  function ToolCallsEnd(payload: string, start: nat): (r: Option<nat>)
    requires start < |payload|
    ensures r.Some? ==> start < r.value <= |payload|
  {
    match SequenceFrom(payload, start, 0)
    case None => None
    case Some((end, count)) => if LooksLikeToolCalls(payload[start..end]) == Yes then Some(end) else None
  }

  /** _is_whitespace_or_single_xml_think raises. */
  predicate BlankRaises(payload: string, start: nat, end: nat)
    requires start <= end <= |payload|
  {
    SkipSpaces(payload, start) < end && ThinkRaises(payload, SkipSpaces(payload, start))
  }

  /** _is_whitespace_or_single_xml_think */
  function BlankOrXmlThink(payload: string, start: nat, end: nat): bool
    requires start <= end <= |payload|
  {
    var cursor := SkipSpaces(payload, start);
    cursor >= end ||
    match XmlThinkEnd(payload, cursor)
    case None => false
    case Some(thinkEnd) => thinkEnd <= end && AllSpace(payload[thinkEnd..end])
  }

  // ---------------------------------------------------------------- the XML-aware JSON parser

  /** An XML think block with CDATA, from `start` to `end`: skipped, or the sign of a mixed payload. */
  function SkipXmlThink(payload: string, cursor: nat, start: nat, end: nat, turn: Turn): (r: Step)
    requires cursor <= start < end <= |payload|
    ensures r.Continue? ==> r.cursor == end
  {
    var boundary := Earlier(Find(THINK_START, payload, end),
                            Earlier(Find(TOOL_START, payload, end), Search(ToolOpener, payload, end)));
    if boundary != -1 && AllSpace(payload[cursor..start]) && AllSpace(payload[end..boundary]) then Fail(MixedPayload)
    else Continue(end, turn)
  }

  /** A run of XML tool calls from `start` to `end`: skipped, or the sign of a mixed payload. */
  function SkipXmlTools(payload: string, cursor: nat, start: nat, end: nat, turn: Turn): (r: Step)
    requires cursor <= start < end <= |payload|
    ensures r.Continue? ==> r.cursor == end
  {
    var found := Earlier(Search(ThinkOpener, payload, end), Find(TOOL_START, payload, end));
    var boundary := if found == -1 then |payload| else found;
    if BlankRaises(payload, cursor, start) then Fail(Namespaced)
    else if BlankOrXmlThink(payload, cursor, start) && AllSpace(payload[end..boundary]) then Fail(MixedPayload)
    else Continue(end, turn)
  }

  /** Neither XML branch applies. */
  function JsonBlockStep(payload: string, cursor: nat, turn: Turn, maxCalls: int): (r: Step)
    ensures r.Continue? ==> cursor < r.cursor <= |payload|
  {
    var think := Find(THINK_START, payload, cursor);
    var tool := Find(TOOL_START, payload, cursor);
    if think == -1 && tool == -1 then Stop
    else if think != -1 && (tool == -1 || think < tool) then
      if ThinkRaises(payload, think) then Fail(Namespaced)
      else
        match CDataThinkEnd(payload, think)
        case Some(end) => Continue(end, turn)
        case None => ThinkBlock(payload, think, turn)
    else ToolBlock(payload, tool, turn, maxCalls)
  }

  /** The opener that this iteration tries as an XML think block. */
  function XmlThinkStart(payload: string, cursor: nat): (r: Option<nat>)
    ensures r.Some? ==> cursor <= r.value
  {
    var next := Earlier(Find(THINK_START, payload, cursor), Find(TOOL_START, payload, cursor));
    var xmlThink := Search(ThinkOpener, payload, cursor);
    var xmlTool := Search(ToolOpener, payload, cursor);
    if xmlThink == -1 || (next != -1 && next < xmlThink) || (xmlTool != -1 && xmlTool <= xmlThink) then None
    else Some(xmlThink)
  }

  /** Where an XML think block would be skipped from in this iteration. */
  function XmlThinkRegion(payload: string, cursor: nat): (r: Option<(nat, nat)>)
    ensures r.Some? ==> cursor <= r.value.0 < r.value.1 <= |payload|
  {
    match XmlThinkStart(payload, cursor)
    case None => None
    case Some(start) =>
      match CDataThinkEnd(payload, start)
      case None => None
      case Some(end) => Some((start, end))
  }

  /** The opener that this iteration tries as a run of XML tool calls. */
  function XmlToolStart(payload: string, cursor: nat): (r: Option<nat>)
    ensures r.Some? ==> cursor <= r.value < |payload|
  {
    var next := Earlier(Find(THINK_START, payload, cursor), Find(TOOL_START, payload, cursor));
    var xmlTool := Search(ToolOpener, payload, cursor);
    if xmlTool == -1 || (next != -1 && next <= xmlTool) then None else Some(xmlTool)
  }

  function XmlToolRegion(payload: string, cursor: nat): (r: Option<(nat, nat)>)
    ensures r.Some? ==> cursor <= r.value.0 < r.value.1 <= |payload|
  {
    match XmlToolStart(payload, cursor)
    case None => None
    case Some(start) =>
      match ToolCallsEnd(payload, start)
      case None => None
      case Some(end) => Some((start, end))
  }

  /** The think opener that is tried, or the run of tool calls, is in a namespace. */
  predicate ThinkRefused(payload: string, cursor: nat) {
    XmlThinkStart(payload, cursor).Some? && ThinkRaises(payload, XmlThinkStart(payload, cursor).value)
  }

  predicate ToolsRefused(payload: string, cursor: nat) {
    XmlToolStart(payload, cursor).Some? && ToolCallsRaise(payload, XmlToolStart(payload, cursor).value)
  }

  /** One iteration of _parse_json_assistant_turn_payload_dual; every path that goes on moves the cursor. */
  function DualStep(payload: string, cursor: nat, turn: Turn, maxCalls: int): (r: Step)
    ensures r.Continue? ==> cursor < r.cursor <= |payload|
  {
    if ThinkRefused(payload, cursor) then Fail(Namespaced)
    else
      match XmlThinkRegion(payload, cursor)
      case Some((start, end)) => SkipXmlThink(payload, cursor, start, end, turn)
      case None =>
        if ToolsRefused(payload, cursor) then Fail(Namespaced)
        else
          match XmlToolRegion(payload, cursor)
          case Some((start, end)) => SkipXmlTools(payload, cursor, start, end, turn)
          case None => JsonBlockStep(payload, cursor, turn, maxCalls)
  }

  function DualFrom(payload: string, cursor: nat, turn: Turn, maxCalls: int): Parsed
    decreases |payload| - cursor
  {
    if cursor >= |payload| then Finish(turn)
    else
      match DualStep(payload, cursor, turn, maxCalls)
      case Stop => Finish(turn)
      case Fail(error) => Err(error)
      case Continue(next, newTurn) => DualFrom(payload, next, newTurn, maxCalls)
  }

  function ParseJsonDual(payload: string, maxCalls: int): Parsed {
    if maxCalls < 1 then Err(BadLimit) else DualFrom(payload, 0, START, maxCalls)
  }

  // ---------------------------------------------------------------- the XML parser

  /** int() of a decimal literal. */
  function PythonInt(text: string): Option<int> {
    var t := Strip(text);
    var signed := t != "" && (t[0] == '-' || t[0] == '+');
    var ds := if signed then t[1..] else t;
    if ds == "" || TakeDigits(ds) != ds then None
    else
      var n: int := DigitsValue(ds);
      Some(if signed && t[0] == '-' then -n else n)
  }

  function ListItems(tag: string, children: seq<Element>): Option<seq<Json>> {
    if children == [] then Some([])
    else
      var c := children[0];
      if c.name != tag || c.attributes != map[] || Children(c.content) != [] then None
      else
        match ListItems(tag, children[1..])
        case None => None
        case Some(rest) => Some([Str(DirectText(c.content))] + rest)
  }

  /** _coerce_xml_arg_value */
  function CoerceArg(tool: Tool, element: Element): Option<Json> {
    var kind := ArgKindOf(tool, element.name);
    if kind == Some(StringListArg) then
      if !AllSpace(DirectText(element.content)) then None
      else
        match ListItems(ItemTag(element.name), Children(element.content))
        case None => None
        case Some(items) => Some(Arr(items))
    else if Children(element.content) != [] then None
    else if kind == Some(IntArg) then
      match PythonInt(DirectText(element.content))
      case None => None
      case Some(n) => Some(Int(n))
    else Some(Str(DirectText(element.content)))
  }

  /** The argument elements still to read, on top of those already read. */
  function ReadArgs(tool: Tool, children: seq<Element>, args: map<string, Json>): Option<map<string, Json>>
    decreases |children|
  {
    if children == [] then Some(args)
    else
      var c := children[0];
      if InNamespace(c) || c.attributes != map[] || c.name in args then None
      else
        match CoerceArg(tool, c)
        case None => None
        case Some(value) => ReadArgs(tool, children[1..], args[c.name := value])
  }

  /** _parse_xml_tool_call */
  function XmlToolCall(element: Element): Option<ToolCall> {
    if element.attributes.Keys != {"name"} || Strip(element.attributes["name"]) == "" then None
    else
      match CanonicalTool(Strip(element.attributes["name"]))
      case None => None
      case Some(tool) =>
        if !AllSpace(DirectText(element.content)) then None
        else
          match ReadArgs(tool, Children(element.content), map[])
          case None => None
          case Some(args) => Some(ToolCall(tool, args))
  }

  /** One child of the payload. */
  function XmlChild(child: Element, turn: Turn, maxCalls: int): Option<Turn> {
    if child.name == "think" then
      if turn.thinkSeen || child.attributes != map[] || Children(child.content) != [] then None
      else Some(turn.(thinking := StrippedOrNone(DirectText(child.content)), thinkSeen := true))
    else if child.name != "tool_call" then None
    else
      match XmlToolCall(child)
      case None => None
      case Some(call) => AddCall(turn, call, maxCalls)
  }

  function XmlFold(children: seq<Element>, turn: Turn, maxCalls: int): Parsed
    decreases |children|
  {
    if children == [] then Finish(turn)
    else
      match XmlChild(children[0], turn, maxCalls)
      case None => Err(Malformed)
      case Some(next) => XmlFold(children[1..], next, maxCalls)
  }

  function ParseXml(payload: string, maxCalls: int): Parsed {
    if maxCalls < 1 then Err(BadLimit)
    else if !AllowedFrom(payload, 0) then Err(Malformed)
    else
      match FromString(Document(payload))
      case None => Err(Malformed)
      case Some(root) =>
        if !AllSpace(DirectText(root.content)) then Err(Malformed)
        else XmlFold(Children(root.content), START, maxCalls)
  }

  // ---------------------------------------------------------------- format detection

  datatype Mode = JsonOnly | Dual | XmlOnly

  datatype ParsedAction = Action(envelope: Envelope, format: Format) | Failed(error: ParseError)

  /** _detect_payload_format_hint, with "no hint" trying JSON first like a JSON hint. */
  function FormatHint(payload: string): Format {
    var firstJson := Find(TOOL_START, payload, 0);
    var firstXml := Search(ToolOpener, payload, 0);
    if firstXml != -1 && (firstJson == -1 || firstXml <= firstJson) then XmlFormat else JsonFormat
  }

  function ParseAs(payload: string, format: Format, maxCalls: int): ParsedAction {
    var parsed := if format.JsonFormat? then ParseJsonDual(payload, maxCalls) else ParseXml(payload, maxCalls);
    match parsed
    case Ok(e) => Action(e, format)
    case Err(error) => Failed(error)
  }

  /** parse_assistant_payload: in dual mode the hinted format, then the other; the first error is reported. */
  function ParsePayload(payload: string, mode: Mode, maxCalls: int): ParsedAction {
    match mode
    case JsonOnly => ParseAs(payload, JsonFormat, maxCalls)
    case XmlOnly => ParseAs(payload, XmlFormat, maxCalls)
    case Dual =>
      var hint := FormatHint(payload);
      var first := ParseAs(payload, hint, maxCalls);
      if first.Action? || first.error == BadLimit then first
      else
        var second := ParseAs(payload, if hint.JsonFormat? then XmlFormat else JsonFormat, maxCalls);
        if second.Action? then second else first
  }
}
