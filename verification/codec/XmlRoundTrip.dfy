/** What ElementTree makes of a rendered envelope. */
module XmlRoundTrip {
  import opened Text
  import opened JsonCodec
  import opened Contracts
  import opened XmlTree
  import opened ActionRender
  import opened ScannerExact
  import opened RenderPieces
  import opened ActionParse
  import opened XmlTreeRendered
  import opened XmlNamespaces

  // ---------------------------------------------------------------- the normal form

  function NormalizeItems(items: seq<Json>): seq<Json> {
    seq(|items|, i requires 0 <= i < |items| =>
      if items[i].Str? then Str(NormalizeNewlines(items[i].text)) else items[i])
  }

  function NormalizeValue(value: Json): Json {
    match value
    case Str(text) => Str(NormalizeNewlines(text))
    case Arr(items) => Arr(NormalizeItems(items))
    case _ => value
  }

  function NormalizeArgs(args: map<string, Json>): map<string, Json> {
    map f | f in args :: NormalizeValue(args[f])
  }

  function NormalizeCall(call: ToolCall): ToolCall {
    ToolCall(call.tool, NormalizeArgs(call.args))
  }

  function NormalizeCalls(calls: seq<ToolCall>): seq<ToolCall> {
    seq(|calls|, i requires 0 <= i < |calls| => NormalizeCall(calls[i]))
  }

  /** The envelope an XML round trip yields. */
  function Normalize(e: Envelope): Envelope {
    Envelope(if e.thinking.Some? then Some(Strip(NormalizeNewlines(e.thinking.value))) else None,
             NormalizeCalls(e.calls))
  }

  // ---------------------------------------------------------------- one argument

  function TextElement(tag: string, text: string): Element {
    Element(tag, map[], [Chars(text)])
  }

  function ItemElements(tag: string, items: seq<Json>): seq<Item>
    requires forall i :: 0 <= i < |items| ==> items[i].Str?
  {
    if items == [] then []
    else [Child(TextElement(tag, NormalizeNewlines(items[0].text)))] + ItemElements(tag, items[1..])
  }

  function ArgElement(kind: ArgKind, field: string, value: Json): Element
    requires HasKind(kind, value)
  {
    match kind
    case StringArg => TextElement(field, NormalizeNewlines(value.text))
    case IntArg => TextElement(field, EncodeInt(value.number))
    case StringListArg => Element(field, map[], ItemElements(ItemTag(field), value.items))
  }

  lemma {:induction false} ItemsContent(tag: string, items: seq<Json>, name: string, rest: string)
    requires XmlName(tag) && forall i :: 0 <= i < |items| ==> items[i].Str?
    ensures ParseContent(RenderXmlItems(tag, items) + ("</" + name + ">" + rest))
      == Some((ItemElements(tag, items), "</" + name + ">" + rest))
    decreases |items|
  {
    hide ParseContent, ParseItem, ParseElement, RenderXmlString, NormalizeNewlines, XmlName;
    var close := "</" + name + ">" + rest;
    if items == [] {
      EndOfContent(name, rest);
      assert "" + close == close;
    } else {
      var more := RenderXmlItems(tag, items[1..]) + close;
      var s := RenderXmlItems(tag, items) + close;
      assert s == "<" + tag + ">" + RenderXmlString(items[0].text) + ("</" + tag + ">") + more;
      StringElement(tag, items[0].text, more);
      var e := TextElement(tag, NormalizeNewlines(items[0].text));
      ElementIsItem(s, e, more);
      ItemsContent(tag, items[1..], name, rest);
      ContentCons(s, [Child(e)], more, ItemElements(tag, items[1..]), close);
    }
  }

  lemma ListElement(field: string, tag: string, items: seq<Json>, rest: string)
    requires XmlName(field) && XmlName(tag) && forall i :: 0 <= i < |items| ==> items[i].Str?
    ensures ParseElement("<" + field + ">" + RenderXmlItems(tag, items) + ("</" + field + ">") + rest)
      == Some((Element(field, map[], ItemElements(tag, items)), rest))
  {
    hide ParseElement, ParseContent, ParseAttributes, XmlName, RenderXmlItems, ItemElements;
    var body := RenderXmlItems(tag, items);
    ItemsContent(tag, items, field, rest);
    NoAttributes(body + ("</" + field + ">" + rest));
    NameIsXml();
    ParseWhole(field, ">", map[], body, ItemElements(tag, items), rest);
    assert "<" + field + ">" + body + ("</" + field + ">") + rest == "<" + field + ">" + body + ("</" + field + ">" + rest);
  }

  /** A rendered argument reads back as its element. */
  lemma ArgParses(tool: Tool, field: string, value: Json, rest: string)
    requires field in ArgOrder(tool)
    requires ArgKindOf(tool, field).Some? && HasKind(ArgKindOf(tool, field).value, value)
    ensures var kind := ArgKindOf(tool, field).value;
      ParseElement(Flat(Wrapped(field, field, ValuePieces(kind, field, value))) + rest)
      == Some((ArgElement(kind, field, value), rest))
  {
    hide ParseElement, Flat, Wrapped, StringPiece, ItemsPieces, ArgOrder, ArgKindOf, RenderXmlString,
      RenderXmlItems, ItemElements, EncodeInt, NormalizeNewlines, PlainName, XmlName, ItemTag;
    var kind := ArgKindOf(tool, field).value;
    FieldIsPlain(tool, field);
    PlainIsXmlName(field);
    PlainIsXmlName(ItemTag(field));
    FlatWrapped(field, field, ValuePieces(kind, field, value));
    match kind
    case StringArg =>
      FlatStringPiece(value.text);
      StringElement(field, value.text, rest);
    case IntArg =>
      FlatPlain(EncodeInt(value.number));
      IntElement(field, value.number, rest);
    case StringListArg =>
      FlatItems(ItemTag(field), value.items);
      ListElement(field, ItemTag(field), value.items, rest);
  }

  // ---------------------------------------------------------------- one call

  function ArgElements(tool: Tool, fields: seq<string>, args: map<string, Json>): seq<Item>
    requires forall f :: f in fields && f in args ==> ArgKindOf(tool, f).Some? && HasKind(ArgKindOf(tool, f).value, args[f])
  {
    if fields == [] then []
    else if fields[0] !in args then ArgElements(tool, fields[1..], args)
    else
      [Child(ArgElement(ArgKindOf(tool, fields[0]).value, fields[0], args[fields[0]]))]
      + ArgElements(tool, fields[1..], args)
  }

  lemma {:induction false} ArgsContent(tool: Tool, fields: seq<string>, args: map<string, Json>, rest: string)
    requires forall f :: f in fields ==> f in ArgOrder(tool)
    requires forall f :: f in fields && f in args ==> ArgKindOf(tool, f).Some? && HasKind(ArgKindOf(tool, f).value, args[f])
    ensures ParseContent(Flat(ArgsPieces(tool, fields, args)) + ("</tool_call>" + rest))
      == Some((ArgElements(tool, fields, args), "</tool_call>" + rest))
    decreases |fields|
  {
    hide ParseContent, ParseItem, ParseElement, Flat, Wrapped, ValuePieces, ArgOrder, ArgKindOf, ArgElement, HasKind;
    var close := "</tool_call>" + rest;
    if fields == [] {
      FlatNothing();
      EndOfContent("tool_call", rest);
      assert "</" + "tool_call" + ">" + rest == close;
      assert "" + close == close;
    } else {
      ArgsContent(tool, fields[1..], args, rest);
      if fields[0] in args {
        var kind, value := ArgKindOf(tool, fields[0]).value, args[fields[0]];
        var head, tail := Wrapped(fields[0], fields[0], ValuePieces(kind, fields[0], value)), ArgsPieces(tool, fields[1..], args);
        FlatConcat(head, tail);
        var more := Flat(tail) + close;
        var s := Flat(head) + more;
        assert Flat(ArgsPieces(tool, fields, args)) + close == s;
        ArgParses(tool, fields[0], value, more);
        ElementIsItem(s, ArgElement(kind, fields[0], value), more);
        ContentCons(s, [Child(ArgElement(kind, fields[0], value))], more, ArgElements(tool, fields[1..], args), close);
      }
    }
  }

  ghost function CallElement(call: ToolCall): Element
    requires Typed(call)
  {
    Element("tool_call", map["name" := ToolName(call.tool)], ArgElements(call.tool, ArgOrder(call.tool), call.args))
  }

  lemma CallParses(call: ToolCall, rest: string)
    requires Typed(call)
    ensures ParseElement(Flat(CallPieces(call)) + rest) == Some((CallElement(call), rest))
  {
    hide ParseElement, ParseContent, ParseAttributes, Flat, ArgsPieces, ArgElements, ArgOrder, ArgKindOf, ToolName,
      PlainName, XmlName, Typed, Wrapped;
    TypedFields(call);
    var pieces := ArgsPieces(call.tool, ArgOrder(call.tool), call.args);
    var body := Flat(pieces);
    FlatWrapped(CallOpener(call.tool), "tool_call", pieces);
    ArgsContent(call.tool, ArgOrder(call.tool), call.args, rest);
    var close := "</" + "tool_call" + ">" + rest;
    assert close == "</tool_call>" + rest;
    ToolNameIsPlain(call.tool);
    var tagRest := " name=\"" + ToolName(call.tool) + "\">";
    NameAttribute(ToolName(call.tool), body + close);
    PlainToolCall();
    PlainIsXmlName("tool_call");
    NameIsXml();
    ParseWhole("tool_call", tagRest, map["name" := ToolName(call.tool)], body,
               ArgElements(call.tool, ArgOrder(call.tool), call.args), rest);
    OpenTagText(ToolName(call.tool), body, rest);
  }

  lemma OpenTagText(name: string, body: string, rest: string)
    ensures "<" + ("tool_call name=\"" + name + "\"") + ">" + body + ("</" + "tool_call" + ">") + rest ==
      "<" + "tool_call" + (" name=\"" + name + "\">") + body + ("</" + "tool_call" + ">" + rest)
  {
  }

  lemma ThinkParses(thinking: string, rest: string)
    ensures ParseElement(Flat(ThinkPieces(thinking)) + rest)
      == Some((TextElement("think", NormalizeNewlines(thinking)), rest))
  {
    hide ParseElement, Flat, Wrapped, StringPiece, RenderXmlString, NormalizeNewlines, PlainName, XmlName;
    FlatWrapped("think", "think", [StringPiece(thinking)]);
    FlatStringPiece(thinking);
    PlainToolCall();
    PlainIsXmlName("think");
    StringElement("think", thinking, rest);
  }

  // ---------------------------------------------------------------- the whole payload

  ghost function CallElements(calls: seq<ToolCall>): seq<Item>
    requires TypedCalls(calls)
  {
    if calls == [] then [] else [Child(CallElement(calls[0]))] + CallElements(calls[1..])
  }

  ghost function EnvelopeElements(e: Envelope): seq<Item>
    requires TypedCalls(e.calls)
  {
    (if e.thinking.Some? && e.thinking.value != "" then [Child(TextElement("think", NormalizeNewlines(e.thinking.value)))]
     else []) + CallElements(e.calls)
  }

  const ROOT := "assistant_payload"

  lemma {:induction false} CallsContent(calls: seq<ToolCall>)
    requires TypedCalls(calls)
    ensures ParseContent(Flat(CallsPieces(calls)) + ("</" + ROOT + ">" + ""))
      == Some((CallElements(calls), "</" + ROOT + ">" + ""))
    decreases |calls|
  {
    hide ParseContent, ParseItem, ParseElement, Flat, CallPieces, CallElement, Typed;
    var close := "</" + ROOT + ">" + "";
    if calls == [] {
      FlatNothing();
      EndOfContent(ROOT, "");
      assert "" + close == close;
    } else {
      CallsContent(calls[1..]);
      var more := Flat(CallsPieces(calls[1..])) + close;
      FlatConcat(CallPieces(calls[0]), CallsPieces(calls[1..]));
      var s := Flat(CallPieces(calls[0])) + more;
      assert Flat(CallsPieces(calls)) + close == s;
      CallParses(calls[0], more);
      ElementIsItem(s, CallElement(calls[0]), more);
      ContentCons(s, [Child(CallElement(calls[0]))], more, CallElements(calls[1..]), close);
    }
  }

  lemma EnvelopeContent(e: Envelope)
    requires TypedCalls(e.calls)
    ensures ParseContent(Flat(EnvelopePieces(e)) + ("</" + ROOT + ">" + ""))
      == Some((EnvelopeElements(e), "</" + ROOT + ">" + ""))
  {
    hide ParseContent, ParseItem, ParseElement, Flat, CallsPieces, CallElements, TypedCalls, ThinkPieces, NormalizeNewlines;
    var close := "</" + ROOT + ">" + "";
    CallsContent(e.calls);
    if e.thinking.Some? && e.thinking.value != "" {
      var think := TextElement("think", NormalizeNewlines(e.thinking.value));
      var more := Flat(CallsPieces(e.calls)) + close;
      FlatConcat(ThinkPieces(e.thinking.value), CallsPieces(e.calls));
      var s := Flat(ThinkPieces(e.thinking.value)) + more;
      assert Flat(EnvelopePieces(e)) + close == s;
      ThinkParses(e.thinking.value, more);
      ElementIsItem(s, think, more);
      ContentCons(s, [Child(think)], more, CallElements(e.calls), close);
    } else {
      assert EnvelopePieces(e) == CallsPieces(e.calls) && EnvelopeElements(e) == CallElements(e.calls);
    }
  }

  // ---------------------------------------------------------------- no namespaces

  lemma PlainText(tag: string, text: string)
    requires ':' !in tag
    ensures PlainTree(TextElement(tag, text))
  {
  }

  lemma PlainChild(e: Element)
    requires PlainTree(e)
    ensures PlainItem(Child(e))
  {
  }

  lemma {:induction false} PlainListItems(tag: string, items: seq<Json>)
    requires ':' !in tag && forall i :: 0 <= i < |items| ==> items[i].Str?
    ensures PlainItems(ItemElements(tag, items))
    decreases |items|
  {
    hide PlainTree, NormalizeNewlines;
    if items != [] {
      PlainText(tag, NormalizeNewlines(items[0].text));
      PlainListItems(tag, items[1..]);
    }
  }

  lemma PlainArg(tool: Tool, field: string, value: Json)
    requires field in ArgOrder(tool)
    requires ArgKindOf(tool, field).Some? && HasKind(ArgKindOf(tool, field).value, value)
    ensures PlainTree(ArgElement(ArgKindOf(tool, field).value, field, value))
  {
    hide ArgOrder, ArgKindOf, ItemTag, ItemElements, EncodeInt, NormalizeNewlines, PlainItems;
    FieldIsPlain(tool, field);
    match ArgKindOf(tool, field).value
    case StringArg => PlainText(field, NormalizeNewlines(value.text));
    case IntArg => PlainText(field, EncodeInt(value.number));
    case StringListArg => PlainListItems(ItemTag(field), value.items);
  }

  lemma {:induction false} PlainArgs(tool: Tool, fields: seq<string>, args: map<string, Json>)
    requires forall f :: f in fields ==> f in ArgOrder(tool)
    requires forall f :: f in fields && f in args ==> ArgKindOf(tool, f).Some? && HasKind(ArgKindOf(tool, f).value, args[f])
    ensures PlainItems(ArgElements(tool, fields, args))
    decreases |fields|
  {
    hide ArgOrder, ArgKindOf, ArgElement, HasKind, PlainTree;
    if fields != [] {
      PlainArgs(tool, fields[1..], args);
      if fields[0] in args {
        PlainArg(tool, fields[0], args[fields[0]]);
      }
    }
  }

  lemma PlainCall(call: ToolCall)
    requires Typed(call)
    ensures PlainTree(CallElement(call))
  {
    hide ArgOrder, ArgKindOf, ArgElements, Typed, HasKind, PlainItems, ToolName;
    TypedFields(call);
    PlainArgs(call.tool, ArgOrder(call.tool), call.args);
    assert "name" != "xmlns" by { assert |"name"| != |"xmlns"|; }
  }

  lemma {:induction false} PlainCalls(calls: seq<ToolCall>)
    requires TypedCalls(calls)
    ensures PlainItems(CallElements(calls))
    decreases |calls|
  {
    hide CallElement, Typed, PlainTree;
    if calls != [] {
      PlainCall(calls[0]);
      PlainCalls(calls[1..]);
    }
  }

  lemma PlainDocument(e: Envelope)
    requires TypedCalls(e.calls)
    ensures PlainTree(Element(ROOT, map[], EnvelopeElements(e)))
  {
    hide CallElements, TypedCalls, NormalizeNewlines, PlainItem;
    PlainCalls(e.calls);
    if e.thinking.Some? {
      PlainText("think", NormalizeNewlines(e.thinking.value));
      PlainChild(TextElement("think", NormalizeNewlines(e.thinking.value)));
    }
  }

  lemma RootName()
    ensures XmlName(ROOT)
  {
  }

  lemma DocumentText(body: string)
    ensures Document(body) == "<" + ROOT + ">" + body + ("</" + ROOT + ">" + "")
  {
    assert "<" + ROOT + ">" == "<assistant_payload>";
    assert "</" + ROOT + ">" + "" == "</assistant_payload>";
    var opener, closer := "<assistant_payload>", "</assistant_payload>";
    assert (opener + body) + closer == opener + body + closer;
  }

  lemma WholeDocument(s: string, element: Element)
    requires LegalText(s) && ParseElement(s) == Some((element, "")) && PlainTree(element)
    ensures FromString(s) == Some(element)
  {
    hide LegalText, ParseElement, Resolve, PlainTree;
    ResolvePlain(element, []);
  }

  /** ElementTree reads the wrapped payload as the printed structure, when its characters are legal. */
  lemma DocumentParses(e: Envelope)
    requires TypedCalls(e.calls) && LegalText(Flat(EnvelopePieces(e)))
    ensures FromString(Document(Flat(EnvelopePieces(e)))) == Some(Element(ROOT, map[], EnvelopeElements(e)))
  {
    hide *;
    var body := Flat(EnvelopePieces(e));
    EnvelopeContent(e);
    RootName();
    NameIsXml();
    NoAttributes(body + ("</" + ROOT + ">" + ""));
    ParseWhole(ROOT, ">", map[], body, EnvelopeElements(e), "");
    DocumentText(body);
    LegalDocument(body);
    PlainDocument(e);
    WholeDocument(Document(body), Element(ROOT, map[], EnvelopeElements(e)));
  }

  lemma LegalDocument(body: string)
    ensures LegalText(Document(body)) <==> LegalText(body)
  {
    hide LegalChar;
    assert forall c: char :: ' ' <= c <= '~' ==> LegalChar(c) by { AsciiLegal(); }
    var open, close := "<assistant_payload>", "</assistant_payload>";
    var document := open + body + close;
    if LegalText(document) {
      forall i | 0 <= i < |body| ensures LegalChar(body[i]) {
        assert document[|open| + i] == body[i];
      }
    }
    if LegalText(body) {
      forall i | 0 <= i < |document| ensures LegalChar(document[i]) {
        if i < |open| {
          assert document[i] == open[i];
        } else if i < |open| + |body| {
          assert document[i] == body[i - |open|];
        } else {
          assert document[i] == close[i - |open| - |body|];
        }
      }
    }
  }

  lemma AsciiLegal()
    ensures forall c: char :: ' ' <= c <= '~' ==> LegalChar(c)
  {
  }
}
