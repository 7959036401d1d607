/** The XML printer's output as pieces. */
module RenderPieces {
  import opened Text
  import opened JsonCodec
  import opened JsonRoundTrip
  import opened Contracts
  import opened ActionRender
  import opened ElementScanner
  import opened ScannerExact
  import opened RejectorAccepts

  function StringPiece(text: string): Piece {
    if Find(CDATA_END, text, 0) != -1 then Plain(EscapeXml(text)) else CData(text)
  }

  /** `<tag>body</tag>` */
  function Wrapped(open: string, tag: string, body: seq<Piece>): seq<Piece> {
    [OpenTag(open)] + body + [CloseTag(tag)]
  }

  function ItemsPieces(tag: string, items: seq<Json>): seq<Piece>
    requires forall i :: 0 <= i < |items| ==> items[i].Str?
  {
    if items == [] then [] else Wrapped(tag, tag, [StringPiece(items[0].text)]) + ItemsPieces(tag, items[1..])
  }

  function ValuePieces(kind: ArgKind, field: string, value: Json): seq<Piece>
    requires HasKind(kind, value)
  {
    match kind
    case StringArg => [StringPiece(value.text)]
    case IntArg => [Plain(EncodeInt(value.number))]
    case StringListArg => ItemsPieces(ItemTag(field), value.items)
  }

  function ArgsPieces(tool: Tool, fields: seq<string>, args: map<string, Json>): seq<Piece>
    requires forall f :: f in fields && f in args ==> ArgKindOf(tool, f).Some? && HasKind(ArgKindOf(tool, f).value, args[f])
  {
    if fields == [] then []
    else if fields[0] !in args then ArgsPieces(tool, fields[1..], args)
    else
      Wrapped(fields[0], fields[0], ValuePieces(ArgKindOf(tool, fields[0]).value, fields[0], args[fields[0]]))
      + ArgsPieces(tool, fields[1..], args)
  }

  function CallOpener(tool: Tool): string {
    "tool_call name=\"" + ToolName(tool) + "\""
  }

  ghost function CallPieces(call: ToolCall): seq<Piece>
    requires Typed(call)
  {
    Wrapped(CallOpener(call.tool), "tool_call", ArgsPieces(call.tool, ArgOrder(call.tool), call.args))
  }

  function ThinkPieces(thinking: string): seq<Piece> {
    Wrapped("think", "think", [StringPiece(thinking)])
  }

  ghost function CallsPieces(calls: seq<ToolCall>): seq<Piece>
    requires TypedCalls(calls)
  {
    if calls == [] then [] else CallPieces(calls[0]) + CallsPieces(calls[1..])
  }

  ghost function EnvelopePieces(e: Envelope): seq<Piece>
    requires TypedCalls(e.calls)
  {
    (if e.thinking.Some? && e.thinking.value != "" then ThinkPieces(e.thinking.value) else [])
    + CallsPieces(e.calls)
  }

  // ---------------------------------------------------------------- the pieces are the printed text

  lemma FlatStringPiece(text: string)
    ensures Flat([StringPiece(text)]) == RenderXmlString(text)
  {
    hide Find, EscapeXml;
    assert Flat([StringPiece(text)]) == PieceText(StringPiece(text)) + "";
  }

  lemma FlatWrapped(open: string, tag: string, body: seq<Piece>)
    ensures Flat(Wrapped(open, tag, body)) == "<" + open + ">" + Flat(body) + ("</" + tag + ">")
  {
    FlatConcat([OpenTag(open)] + body, [CloseTag(tag)]);
    FlatConcat([OpenTag(open)], body);
    assert Flat([OpenTag(open)]) == PieceText(OpenTag(open)) + "";
    assert Flat([CloseTag(tag)]) == PieceText(CloseTag(tag)) + "";
  }

  lemma {:induction false} FlatItems(tag: string, items: seq<Json>)
    requires forall i :: 0 <= i < |items| ==> items[i].Str?
    ensures Flat(ItemsPieces(tag, items)) == RenderXmlItems(tag, items)
    decreases |items|
  {
    hide Flat, RenderXmlString, Wrapped;
    if items == [] {
      FlatNothing();
    } else {
      var head := Wrapped(tag, tag, [StringPiece(items[0].text)]);
      FlatConcat(head, ItemsPieces(tag, items[1..]));
      FlatWrapped(tag, tag, [StringPiece(items[0].text)]);
      FlatStringPiece(items[0].text);
      FlatItems(tag, items[1..]);
    }
  }

  lemma FlatNothing()
    ensures Flat([]) == ""
  {
  }

  lemma FlatPlain(text: string)
    ensures Flat([Plain(text)]) == text
  {
    assert Flat([Plain(text)]) == text + "";
  }

  lemma FlatArg(tool: Tool, field: string, value: Json)
    requires ArgKindOf(tool, field).Some? && HasKind(ArgKindOf(tool, field).value, value)
    ensures RenderXmlArg(tool, field, value) ==
      Some(Flat(Wrapped(field, field, ValuePieces(ArgKindOf(tool, field).value, field, value))))
  {
    hide Flat, RenderXmlString, Wrapped, StringPiece, EncodeInt, ArgKindOf, RenderXmlItems, ItemsPieces;
    var kind := ArgKindOf(tool, field).value;
    FlatWrapped(field, field, ValuePieces(kind, field, value));
    match kind
    case StringArg =>
      FlatStringPiece(value.text);
      WrapText(field, RenderXmlString(value.text));
    case IntArg =>
      FlatPlain(EncodeInt(value.number));
      WrapText(field, EncodeInt(value.number));
    case StringListArg =>
      FlatItems(ItemTag(field), value.items);
      WrapText(field, RenderXmlItems(ItemTag(field), value.items));
  }

  lemma WrapText(field: string, text: string)
    ensures "<" + field + ">" + text + "</" + field + ">" == "<" + field + ">" + text + ("</" + field + ">")
  {
  }

  lemma {:induction false} FlatArgs(tool: Tool, fields: seq<string>, args: map<string, Json>)
    requires forall f :: f in fields && f in args ==> ArgKindOf(tool, f).Some? && HasKind(ArgKindOf(tool, f).value, args[f])
    ensures RenderXmlArgs(tool, fields, args) == Some(Flat(ArgsPieces(tool, fields, args)))
    decreases |fields|
  {
    hide Flat, Wrapped, ValuePieces, ArgKindOf, RenderXmlArg;
    if fields == [] {
      FlatNothing();
    } else {
      FlatArgs(tool, fields[1..], args);
      if fields[0] in args {
        var value := args[fields[0]];
        FlatArg(tool, fields[0], value);
        FlatConcat(Wrapped(fields[0], fields[0], ValuePieces(ArgKindOf(tool, fields[0]).value, fields[0], value)),
                   ArgsPieces(tool, fields[1..], args));
      }
    }
  }

  lemma FieldsKnown(call: ToolCall)
    requires Typed(call)
    ensures forall f :: f in call.args ==> f in ArgOrder(call.tool)
  {
  }

  lemma FlatCall(call: ToolCall)
    requires Typed(call)
    ensures RenderXmlCall(call) == Some(Flat(CallPieces(call)))
  {
    hide Flat, Wrapped, RenderXmlArgs, ArgsPieces, ArgOrder, ToolName, ArgKindOf;
    FieldsKnown(call);
    FlatArgs(call.tool, ArgOrder(call.tool), call.args);
    FlatWrapped(CallOpener(call.tool), "tool_call", ArgsPieces(call.tool, ArgOrder(call.tool), call.args));
    OpenerText(ToolName(call.tool));
  }

  lemma OpenerText(name: string)
    ensures "<" + ("tool_call name=\"" + name + "\"") + ">" == "<tool_call name=\"" + name + "\">"
    ensures "</" + "tool_call" + ">" == TOOL_END
  {
  }

  lemma {:induction false} FlatCalls(calls: seq<ToolCall>, compact: bool)
    requires TypedCalls(calls)
    ensures RenderCalls(calls, XmlFormat, compact) == Some(Flat(CallsPieces(calls)))
    decreases |calls|
  {
    hide Flat, CallPieces, RenderXmlCall, Typed;
    if calls == [] {
      FlatNothing();
    } else {
      FlatCall(calls[0]);
      FlatCalls(calls[1..], compact);
      FlatConcat(CallPieces(calls[0]), CallsPieces(calls[1..]));
    }
  }

  lemma FlatThink(thinking: string)
    ensures Flat(ThinkPieces(thinking)) == RenderThink(thinking, XmlFormat)
  {
    hide Flat, RenderXmlString, StringPiece, Wrapped;
    FlatWrapped("think", "think", [StringPiece(thinking)]);
    FlatStringPiece(thinking);
    assert "<" + "think" + ">" == THINK_START && "</" + "think" + ">" == THINK_END;
  }

  /** The XML printer prints exactly these pieces for every typed envelope. */
  lemma RenderIsPieces(e: Envelope, compact: bool)
    requires TypedCalls(e.calls)
    ensures Render(e, XmlFormat, compact) == Some(Flat(EnvelopePieces(e)))
  {
    hide Flat, ThinkPieces, CallsPieces, RenderCalls, RenderThink, TypedCalls;
    FlatCalls(e.calls, compact);
    if e.thinking.Some? && e.thinking.value != "" {
      FlatThink(e.thinking.value);
      FlatConcat(ThinkPieces(e.thinking.value), CallsPieces(e.calls));
    } else {
      assert EnvelopePieces(e) == CallsPieces(e.calls);
      assert forall t: string :: "" + t == t;
    }
  }

  // ---------------------------------------------------------------- the pieces are well-formed

  lemma {:induction false} PlainIsQuiet(s: string, rest: string)
    requires forall i :: 0 <= i < |s| ==> s[i] != '"' && s[i] != '\'' && s[i] != '>'
    ensures Quiet(s + rest, None) == Quiet(rest, None)
    decreases |s|
  {
    if s == [] {
      assert s + rest == rest;
    } else {
      assert (s + rest)[1..] == s[1..] + rest;
      PlainIsQuiet(s[1..], rest);
    }
  }

  lemma {:induction false} QuotedIsQuiet(s: string)
    requires forall i :: 0 <= i < |s| ==> s[i] != '"'
    ensures Quiet(s + "\"", Some('"'))
    decreases |s|
  {
    if s == [] {
      assert s + "\"" == "\"";
    } else {
      assert (s + "\"")[1..] == s[1..] + "\"";
      QuotedIsQuiet(s[1..]);
    }
  }

  lemma PlainNameOk(name: string)
    requires PlainName(name)
    ensures PieceOk(OpenTag(name)) && PieceOk(CloseTag(name))
  {
    PlainIsQuiet(name, "");
    assert name + "" == name;
  }

  lemma OpenerOk(tool: Tool)
    ensures PieceOk(OpenTag(CallOpener(tool)))
  {
    hide Quiet, ToolName;
    ToolNameIsPlain(tool);
    var name := ToolName(tool);
    var head := "tool_call name=";
    var t := CallOpener(tool);
    assert t == head + ("\"" + (name + "\""));
    PlainIsQuiet(head, "\"" + (name + "\""));
    QuotedIsQuiet(name);
    QuietOpens(name + "\"");
    assert t[0] == 't' && t[|t| - 1] == '"';
    forall k | 0 <= k < |t| ensures t[k] != '<' && t[k] != '&' {
      if k < 15 {
        assert t[k] == head[k];
      } else if 16 <= k < 16 + |name| {
        assert t[k] == name[k - 16];
      }
    }
  }

  lemma QuietOpens(rest: string)
    requires Quiet(rest, Some('"'))
    ensures Quiet("\"" + rest, None)
  {
    assert ("\"" + rest)[1..] == rest;
  }

  lemma {:induction false} EscapedOk(s: string)
    ensures NoOpenAngle(EscapeXml(s)) && References(EscapeXml(s))
    decreases |s|
  {
    if s != [] {
      EscapedOk(s[1..]);
      var head := if s[0] == '&' then "&amp;" else if s[0] == '<' then "&lt;" else if s[0] == '>' then "&gt;" else [s[0]];
      assert References(head);
      ReferencesConcat(head, EscapeXml(s[1..]));
    }
  }

  lemma StringPieceOk(text: string)
    ensures PieceOk(StringPiece(text))
  {
    hide EscapeXml, Find, References, NoOpenAngle;
    EscapedOk(text);
  }

  lemma IntPieceOk(n: int)
    ensures PieceOk(Plain(EncodeInt(n)))
  {
    var m: nat := if n < 0 then -n else n;
    DigitsRead(m);
  }

  /** Pieces that leave the element depth where it was, whatever it was. */
  ghost predicate Balanced(ps: seq<Piece>) {
    PiecesOk(ps) && forall d: nat :: 0 < d ==> DepthAfter(ps, d) == Some(d)
  }

  lemma {:induction false} DepthConcat(a: seq<Piece>, b: seq<Piece>, d: nat)
    requires DepthAfter(a, d).Some?
    ensures DepthAfter(a + b, d) == DepthAfter(b, DepthAfter(a, d).value)
    decreases |a|
  {
    if a == [] {
      assert a + b == b;
    } else {
      assert (a + b)[0] == a[0] && (a + b)[1..] == a[1..] + b;
      match a[0]
      case OpenTag(_) => DepthConcat(a[1..], b, d + 1);
      case CloseTag(_) => DepthConcat(a[1..], b, d - 1);
      case _ => DepthConcat(a[1..], b, d);
    }
  }

  lemma BalancedConcat(a: seq<Piece>, b: seq<Piece>)
    requires Balanced(a) && Balanced(b)
    ensures Balanced(a + b)
  {
    forall d: nat | 0 < d ensures DepthAfter(a + b, d) == Some(d) {
      DepthConcat(a, b, d);
    }
  }

  lemma BalancedText(p: Piece)
    requires PieceOk(p) && (p.Plain? || p.CData?)
    ensures Balanced([p])
  {
    forall d: nat | 0 < d ensures DepthAfter([p], d) == Some(d) {
      assert [p][1..] == [];
    }
  }

  lemma BalancedWrapped(open: string, tag: string, body: seq<Piece>)
    requires PieceOk(OpenTag(open)) && PieceOk(CloseTag(tag)) && Balanced(body)
    ensures Balanced(Wrapped(open, tag, body)) && IsElement(Wrapped(open, tag, body))
  {
    hide PieceOk;
    var ps := Wrapped(open, tag, body);
    assert ps[1..|ps| - 1] == body;
    forall d: nat | 0 < d ensures DepthAfter(ps, d) == Some(d) {
      assert ps[0] == OpenTag(open) && ps[1..] == body + [CloseTag(tag)];
      DepthConcat(body, [CloseTag(tag)], d + 1);
      assert [CloseTag(tag)][1..] == [];
    }
  }

  lemma BashFields()
    ensures PlainName("command") && PlainName("cwd") && PlainName("timeout_sec")
  {
  }

  lemma ReadFields()
    ensures PlainName("path") && PlainName("start_line") && PlainName("end_line")
  {
  }

  lemma SearchFields()
    ensures PlainName("query") && PlainName("root") && PlainName("path_hint") && PlainName("top_k")
  {
  }

  lemma PatchFields()
    ensures PlainName("patch") && PlainName("description") && PlainName("item")
  {
  }

  lemma SubmitFields()
    ensures PlainName("final_response") && PlainName("changed_paths")
  {
  }

  lemma FieldIsPlain(tool: Tool, field: string)
    requires field in ArgOrder(tool)
    ensures PlainName(field) && PlainName(ItemTag(field))
  {
    hide PlainName;
    BashFields();
    ReadFields();
    SearchFields();
    PatchFields();
    SubmitFields();
  }

  lemma {:induction false} ItemsBalanced(tag: string, items: seq<Json>)
    requires PlainName(tag) && forall i :: 0 <= i < |items| ==> items[i].Str?
    ensures Balanced(ItemsPieces(tag, items))
    decreases |items|
  {
    hide Wrapped, PieceOk, StringPiece;
    if items != [] {
      hide Balanced;
      PlainNameOk(tag);
      StringPieceOk(items[0].text);
      StringPieceKind(items[0].text);
      BalancedText(StringPiece(items[0].text));
      BalancedWrapped(tag, tag, [StringPiece(items[0].text)]);
      ItemsBalanced(tag, items[1..]);
      BalancedConcat(Wrapped(tag, tag, [StringPiece(items[0].text)]), ItemsPieces(tag, items[1..]));
    }
  }

  lemma StringPieceKind(text: string)
    ensures StringPiece(text).Plain? || StringPiece(text).CData?
  {
  }

  lemma ValueBalanced(kind: ArgKind, field: string, value: Json)
    requires HasKind(kind, value) && PlainName(ItemTag(field))
    ensures Balanced(ValuePieces(kind, field, value))
  {
    hide Balanced, PieceOk, StringPiece, EncodeInt, ItemsPieces, ItemTag, PlainName;
    match kind
    case StringArg =>
      StringPieceOk(value.text);
      StringPieceKind(value.text);
      BalancedText(StringPiece(value.text));
    case IntArg =>
      IntPieceOk(value.number);
      BalancedText(Plain(EncodeInt(value.number)));
    case StringListArg => ItemsBalanced(ItemTag(field), value.items);
  }

  lemma NothingBalanced()
    ensures Balanced([])
  {
  }

  lemma {:induction false} ArgsBalanced(tool: Tool, fields: seq<string>, args: map<string, Json>)
    requires forall f :: f in fields ==> f in ArgOrder(tool)
    requires forall f :: f in fields && f in args ==> ArgKindOf(tool, f).Some? && HasKind(ArgKindOf(tool, f).value, args[f])
    ensures Balanced(ArgsPieces(tool, fields, args))
    decreases |fields|
  {
    hide Balanced, PieceOk, ArgOrder, ArgKindOf, ValuePieces, Wrapped, PlainName, HasKind;
    if fields == [] {
      NothingBalanced();
    } else {
      ArgsBalanced(tool, fields[1..], args);
      var field := fields[0];
      if field in args {
        var kind, value := ArgKindOf(tool, field).value, args[field];
        FieldIsPlain(tool, field);
        PlainNameOk(field);
        ValueBalanced(kind, field, value);
        BalancedWrapped(field, field, ValuePieces(kind, field, value));
        BalancedConcat(Wrapped(field, field, ValuePieces(kind, field, value)), ArgsPieces(tool, fields[1..], args));
      }
    }
  }

  lemma TypedFields(call: ToolCall)
    requires Typed(call)
    ensures forall f :: f in ArgOrder(call.tool) && f in call.args ==>
      ArgKindOf(call.tool, f).Some? && HasKind(ArgKindOf(call.tool, f).value, call.args[f])
  {
  }

  lemma CallBalanced(call: ToolCall)
    requires Typed(call)
    ensures Balanced(CallPieces(call)) && IsElement(CallPieces(call))
  {
    hide Balanced, PieceOk, ArgOrder, ArgKindOf, ArgsPieces, Wrapped, PlainName, IsElement, Typed;
    TypedFields(call);
    ArgsBalanced(call.tool, ArgOrder(call.tool), call.args);
    OpenerOk(call.tool);
    PlainToolCall();
    PlainNameOk("tool_call");
    BalancedWrapped(CallOpener(call.tool), "tool_call", ArgsPieces(call.tool, ArgOrder(call.tool), call.args));
  }

  lemma PlainToolCall()
    ensures PlainName("tool_call") && PlainName("think")
  {
  }

  lemma ThinkBalanced(thinking: string)
    ensures Balanced(ThinkPieces(thinking)) && IsElement(ThinkPieces(thinking))
  {
    hide Balanced, PieceOk, Wrapped, PlainName, IsElement, StringPiece;
    PlainToolCall();
    PlainNameOk("think");
    StringPieceOk(thinking);
    StringPieceKind(thinking);
    BalancedText(StringPiece(thinking));
    BalancedWrapped("think", "think", [StringPiece(thinking)]);
  }

  lemma {:induction false} CallsBalanced(calls: seq<ToolCall>)
    requires TypedCalls(calls)
    ensures Balanced(CallsPieces(calls))
    decreases |calls|
  {
    hide Balanced, CallPieces, Typed;
    if calls == [] {
      NothingBalanced();
    } else {
      CallBalanced(calls[0]);
      CallsBalanced(calls[1..]);
      BalancedConcat(CallPieces(calls[0]), CallsPieces(calls[1..]));
    }
  }

  lemma EnvelopeBalanced(e: Envelope)
    requires TypedCalls(e.calls)
    ensures Balanced(EnvelopePieces(e))
  {
    hide Balanced, CallsPieces, ThinkPieces, TypedCalls;
    CallsBalanced(e.calls);
    NothingBalanced();
    if e.thinking.Some? && e.thinking.value != "" {
      ThinkBalanced(e.thinking.value);
      BalancedConcat(ThinkPieces(e.thinking.value), CallsPieces(e.calls));
    } else {
      BalancedConcat([], CallsPieces(e.calls));
    }
  }

  // ---------------------------------------------------------------- what the hand-written scanners do with them

  /** The rejector accepts every payload the XML printer emits. */
  lemma RejectorAcceptsRendered(e: Envelope, compact: bool)
    requires TypedCalls(e.calls)
    ensures Render(e, XmlFormat, compact).Some? && AllowedFrom(Render(e, XmlFormat, compact).value, 0)
  {
    hide Flat, EnvelopePieces, AllowedFrom, Render, TypedCalls;
    RenderIsPieces(e, compact);
    EnvelopeBalanced(e);
    RejectorAcceptsPieces(EnvelopePieces(e));
  }

  /** The element scanner ends exactly where a rendered tool-call block ends, whatever surrounds it and
      whatever its arguments contain. */
  lemma ScannerExactOnCall(before: string, call: ToolCall, after: string)
    requires Typed(call)
    ensures RenderXmlCall(call).Some?
    ensures var block := RenderXmlCall(call).value;
      ElementEnd(before + block + after, |before|) == Some(|before + block|)
  {
    hide Flat, CallPieces, ElementEnd, RenderXmlCall, StartsAt, Typed, IsElement;
    FlatCall(call);
    var block := RenderXmlCall(call).value;
    Placed(before, block, after);
    CallBalanced(call);
    ElementEndExact(before + block + after, |before|, CallPieces(call));
  }

  lemma Placed(before: string, block: string, after: string)
    ensures StartsAt(before + block + after, |before|, block)
  {
  }
}
