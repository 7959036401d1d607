/** Rendering an action envelope as JSON-in-tags or as XML (src/rollout/action_format.py). */
module ActionRender {
  import opened Text
  import opened JsonCodec
  import opened Contracts

  datatype Format = JsonFormat | XmlFormat

  const THINK_START := "<think>"
  const THINK_END := "</think>"
  const TOOL_START := "<tool_call>"
  const TOOL_END := "</tool_call>"
  const CDATA_START := "<![CDATA["
  const CDATA_END := "]]>"

  /** html.escape(text, quote=False) */
  function EscapeXml(s: string): string {
    if s == [] then ""
    else
      (if s[0] == '&' then "&amp;" else if s[0] == '<' then "&lt;" else if s[0] == '>' then "&gt;" else [s[0]])
      + EscapeXml(s[1..])
  }

  function RenderXmlString(text: string): string {
    if Find(CDATA_END, text, 0) != -1 then EscapeXml(text) else CDATA_START + text + CDATA_END
  }

  function RenderXmlItems(tag: string, items: seq<Json>): string
    requires forall i :: 0 <= i < |items| ==> items[i].Str?
  {
    if items == [] then ""
    else "<" + tag + ">" + RenderXmlString(items[0].text) + "</" + tag + ">" + RenderXmlItems(tag, items[1..])
  }

  /** _render_xml_arg; None is the ValueError for a value XML cannot carry. */
  function RenderXmlArg(tool: Tool, field: string, value: Json): Option<string> {
    var inner :=
      match value
      case Arr(items) =>
        if ArgKindOf(tool, field) == Some(StringListArg) && forall i :: 0 <= i < |items| ==> items[i].Str?
        then Some(RenderXmlItems(ItemTag(field), items))
        else None
      case Bool(flag) => Some(if flag then "true" else "false")
      case Int(n) => Some(EncodeInt(n))
      case Str(text) => Some(RenderXmlString(text))
      case _ => None;
    match inner
    case None => None
    case Some(text) => Some("<" + field + ">" + text + "</" + field + ">")
  }

  /** The declared arguments that are present and not null, in schema order. */
  function RenderXmlArgs(tool: Tool, fields: seq<string>, args: map<string, Json>): Option<string> {
    if fields == [] then Some("")
    else
      var rest := RenderXmlArgs(tool, fields[1..], args);
      if fields[0] !in args || args[fields[0]].Null? then rest
      else
        match (RenderXmlArg(tool, fields[0], args[fields[0]]), rest)
        case (Some(head), Some(tail)) => Some(head + tail)
        case _ => None
  }

  function RenderXmlCall(call: ToolCall): Option<string> {
    if exists field :: field in call.args && field !in ArgOrder(call.tool) then None
    else
      match RenderXmlArgs(call.tool, ArgOrder(call.tool), call.args)
      case None => None
      case Some(text) => Some("<tool_call name=\"" + ToolName(call.tool) + "\">" + text + TOOL_END)
  }

  function CallPayload(call: ToolCall): Json {
    Dict(map["args" := Dict(call.args), "tool" := Str(ToolName(call.tool))])
  }

  ghost function RenderJsonCall(call: ToolCall, compact: bool): string {
    TOOL_START + Encode(CallPayload(call), compact) + TOOL_END
  }

  ghost function RenderCall(call: ToolCall, format: Format, compact: bool): Option<string> {
    if format.JsonFormat? then Some(RenderJsonCall(call, compact)) else RenderXmlCall(call)
  }

  function RenderThink(thinking: string, format: Format): string {
    THINK_START + (if format.XmlFormat? then RenderXmlString(thinking) else thinking) + THINK_END
  }

  ghost function RenderCalls(calls: seq<ToolCall>, format: Format, compact: bool): Option<string> {
    if calls == [] then Some("")
    else
      match (RenderCall(calls[0], format, compact), RenderCalls(calls[1..], format, compact))
      case (Some(head), Some(tail)) => Some(head + tail)
      case _ => None
  }

  /** render_assistant_action_text; an empty thinking text is not printed. */
  ghost function Render(e: Envelope, format: Format, compact: bool): Option<string> {
    match RenderCalls(e.calls, format, compact)
    case None => None
    case Some(calls) =>
      Some((if e.thinking.Some? && e.thinking.value != "" then RenderThink(e.thinking.value, format) else "") + calls)
  }

  /** In text without a section end, the first one found is the closing one, also after a trailing `]`. */
  lemma FindCDataEnd(s: string, i: nat, t: string)
    requires Find(CDATA_END, t, 0) == -1
    requires StartsAt(s, i, t) && StartsAt(s, i + |t|, CDATA_END)
    ensures Find(CDATA_END, s, i) == i + |t|
  {
    assert s[i + |t|] == CDATA_END[0] && s[i + |t| + 1] == CDATA_END[1];
    forall k | i <= k < i + |t| ensures !StartsAt(s, k, CDATA_END) {
      if k + 3 <= i + |t| {
        StartsInside(s, i, t, k - i, CDATA_END);
      } else {
        assert s[k + 2] == ']' && CDATA_END[2] == '>';
      }
    }
  }
}
