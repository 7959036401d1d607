/** Tool names, argument schemas and the action envelope (src/schemas). */
module Contracts {
  import opened Text
  import opened JsonCodec

  datatype Tool = Bash | ReadFile | FileSearch | TextSearch | ApplyPatch | Submit

  function ToolName(t: Tool): string {
    match t
    case Bash => "bash"
    case ReadFile => "read"
    case FileSearch => "file_search"
    case TextSearch => "text_search"
    case ApplyPatch => "apply_patch"
    case Submit => "submit"
  }

  /** canonical_tool_name: legacy aliases are accepted, anything else is refused. */
  function CanonicalTool(name: string): Option<Tool> {
    var n := Lower(Strip(name));
    if n == "bash" then Some(Bash)
    else if n == "read" then Some(ReadFile)
    else if n == "file_search" then Some(FileSearch)
    else if n == "text_search" then Some(TextSearch)
    else if n == "apply_patch" || n == "edit" then Some(ApplyPatch)
    else if n == "submit" || n == "answer" then Some(Submit)
    else None
  }

  predicate PlainName(s: string) {
    s != [] && forall i :: 0 <= i < |s| ==> 'a' <= s[i] <= 'z' || s[i] == '_'
  }

  lemma PlainNameIsFixed(s: string)
    requires PlainName(s)
    ensures Lower(Strip(s)) == s
  {
    StripProperties(s);
    assert Lower(s) == s;
  }

  lemma ToolNameIsPlain(t: Tool)
    ensures PlainName(ToolName(t))
  {
    match t
    case Bash =>
    case ReadFile =>
    case FileSearch =>
    case TextSearch =>
    case ApplyPatch =>
    case Submit =>
  }

  /** A canonical name is accepted as the tool it names. */
  lemma CanonicalOfName(t: Tool)
    ensures CanonicalTool(ToolName(t)) == Some(t)
  {
    ToolNameIsPlain(t);
    PlainNameIsFixed(ToolName(t));
    match t
    case Bash =>
    case ReadFile => assert "read"[0] != "bash"[0];
    case FileSearch =>
    case TextSearch => assert "text_search"[0] != "file_search"[0];
    case ApplyPatch => assert "apply_patch"[0] != "file_search"[0] && "apply_patch"[0] != "text_search"[0];
    case Submit =>
  }

  /** A name is accepted exactly when, stripped and in lower case, it is a canonical name or one of the two aliases. */
  lemma CanonicalExact(name: string)
    ensures var n, t := Lower(Strip(name)), CanonicalTool(name);
      && (t == Some(Bash) <==> n == "bash") && (t == Some(ReadFile) <==> n == "read")
      && (t == Some(FileSearch) <==> n == "file_search") && (t == Some(TextSearch) <==> n == "text_search")
      && (t == Some(ApplyPatch) <==> n in ["apply_patch", "edit"]) && (t == Some(Submit) <==> n in ["submit", "answer"])
  {
    hide Strip, Lower;
    NamesDiffer();
  }

  lemma NamesDiffer()
    ensures var names := ["bash", "read", "file_search", "text_search", "apply_patch", "edit", "submit", "answer"];
      forall i, j :: 0 <= i < j < |names| ==> names[i] != names[j]
  {
    var names := ["bash", "read", "file_search", "text_search", "apply_patch", "edit", "submit", "answer"];
    assert "read"[0] != "edit"[0] && "bash"[0] != "read"[0] && "bash"[0] != "edit"[0];
    assert "file_search"[0] != "text_search"[0] && "file_search"[0] != "apply_patch"[0] && "text_search"[0] != "apply_patch"[0];
    assert "submit"[0] != "answer"[0];
    assert |names[0]| == 4 && |names[1]| == 4 && |names[2]| == 11 && |names[3]| == 11 && |names[4]| == 11 && |names[5]| == 4;
  }

  datatype ToolCall = ToolCall(tool: Tool, args: map<string, Json>)

  /** make_tool_call: a decoded object must name a tool and carry an object of arguments. */
  function MakeToolCall(payload: Json): Option<ToolCall> {
    if !payload.Dict? || "tool" !in payload.members || "args" !in payload.members then None
    else
      var tool, args := payload.members["tool"], payload.members["args"];
      if !args.Dict? || !tool.Str? then None
      else
        match CanonicalTool(tool.text)
        case None => None
        case Some(t) => Some(ToolCall(t, args.members))
  }

  datatype Envelope = Envelope(thinking: Option<string>, calls: seq<ToolCall>)

  predicate SubmitAlone(calls: seq<ToolCall>) {
    (exists i :: 0 <= i < |calls| && calls[i].tool == Submit) ==> |calls| == 1
  }

  /** ActionEnvelope.__post_init__ */
  function MakeEnvelope(thinking: Option<string>, calls: seq<ToolCall>): (r: Option<Envelope>)
    ensures r.Some? ==> ValidEnvelope(r.value)
  {
    if calls == [] || !SubmitAlone(calls) then None
    else Some(Envelope(if thinking.Some? && AllSpace(thinking.value) then None else thinking, calls))
  }

  /** What every envelope that exists satisfies. */
  predicate ValidEnvelope(e: Envelope) {
    e.calls != [] && SubmitAlone(e.calls) && (e.thinking.Some? ==> !AllSpace(e.thinking.value))
  }

  lemma HasCalls(e: Envelope)
    requires ValidEnvelope(e)
    ensures |e.calls| >= 1
  {
  }

  datatype ArgKind = StringArg | IntArg | StringListArg

  /** The declared arguments of a tool, in the order the XML printer uses. */
  function ArgOrder(t: Tool): seq<string> {
    match t
    case Bash => ["command", "cwd", "timeout_sec"]
    case ReadFile => ["path", "start_line", "end_line"]
    case FileSearch => ["query", "root", "top_k"]
    case TextSearch => ["query", "path_hint", "top_k"]
    case ApplyPatch => ["patch", "path", "description"]
    case Submit => ["final_response", "changed_paths"]
  }

  /** get_xml_arg_schema, reduced to the kind. */
  function ArgKindOf(t: Tool, field: string): Option<ArgKind> {
    if field !in ArgOrder(t) then None
    else if field in ["timeout_sec", "start_line", "end_line", "top_k"] then Some(IntArg)
    else if field == "changed_paths" then Some(StringListArg)
    else Some(StringArg)
  }

  function ItemTag(field: string): string {
    if field == "changed_paths" then "path" else "item"
  }

  predicate HasKind(kind: ArgKind, value: Json) {
    match kind
    case StringArg => value.Str?
    case IntArg => value.Int?
    case StringListArg => value.Arr? && forall i :: 0 <= i < |value.items| ==> value.items[i].Str?
  }

  /** Every argument is declared for the tool and has its declared type. */
  ghost predicate Typed(call: ToolCall) {
    forall field :: field in call.args ==>
      ArgKindOf(call.tool, field).Some? && HasKind(ArgKindOf(call.tool, field).value, call.args[field])
  }

  ghost predicate TypedCalls(calls: seq<ToolCall>) {
    forall i :: 0 <= i < |calls| ==> Typed(calls[i])
  }
}
