/** The XML parser on rendered payloads, errors included. */
module XmlExact {
  import opened Text
  import opened JsonCodec
  import opened JsonRoundTrip
  import opened Contracts
  import opened XmlTree
  import opened ElementScanner
  import opened ScannerExact
  import opened RejectorAccepts
  import opened RenderPieces
  import opened ActionParse
  import opened XmlRoundTrip

  // ---------------------------------------------------------------- content made of elements only

  lemma ChildFirst(element: Element, rest: seq<Item>)
    ensures Children([Child(element)] + rest) == [element] + Children(rest)
    ensures DirectText([Child(element)] + rest) == DirectText(rest)
  {
    assert ([Child(element)] + rest)[1..] == rest;
  }

  lemma OneText(text: string)
    ensures Children([Chars(text)]) == [] && DirectText([Chars(text)]) == text
  {
    assert [Chars(text)][1..] == [];
  }

  // ---------------------------------------------------------------- one argument

  lemma {:induction false} ListRead(tag: string, items: seq<Json>)
    requires forall i :: 0 <= i < |items| ==> items[i].Str?
    ensures DirectText(ItemElements(tag, items)) == ""
    ensures ListItems(tag, Children(ItemElements(tag, items))) == Some(NormalizeItems(items))
    decreases |items|
  {
    hide NormalizeNewlines, Children, DirectText;
    if items == [] {
      NoContent();
    } else {
      var text := NormalizeNewlines(items[0].text);
      ListRead(tag, items[1..]);
      ChildFirst(TextElement(tag, text), ItemElements(tag, items[1..]));
      OneText(text);
      assert NormalizeItems(items) == [Str(text)] + NormalizeItems(items[1..]);
    }
  }

  lemma NoContent()
    ensures Children([]) == [] && DirectText([]) == ""
  {
  }

  lemma IntRead(n: int)
    ensures PythonInt(EncodeInt(n)) == Some(n)
  {
    hide Digits, DigitsValue, TakeDigits, Strip;
    var s := EncodeInt(n);
    var m: nat := if n < 0 then -n else n;
    DigitsRead(m);
    StripProperties(s);
    assert !IsSpace('-') && forall c: char :: IsDigit(c) ==> !IsSpace(c) && c != '-' && c != '+';
    TakeDigitsExact(Digits(m), "");
    assert Digits(m) + "" == Digits(m);
    assert n < 0 ==> s[1..] == Digits(m);
  }

  lemma ArgRead(tool: Tool, field: string, value: Json)
    requires ArgKindOf(tool, field).Some? && HasKind(ArgKindOf(tool, field).value, value)
    ensures CoerceArg(tool, ArgElement(ArgKindOf(tool, field).value, field, value)) == Some(NormalizeValue(value))
  {
    hide ArgKindOf, NormalizeNewlines, Children, DirectText, ListItems, ItemElements, PythonInt, EncodeInt, ItemTag;
    match ArgKindOf(tool, field).value
    case StringArg => OneText(NormalizeNewlines(value.text));
    case IntArg =>
      OneText(EncodeInt(value.number));
      IntRead(value.number);
    case StringListArg => ListRead(ItemTag(field), value.items);
  }

  // ---------------------------------------------------------------- one call

  ghost function NormalizeFields(fields: seq<string>, args: map<string, Json>): map<string, Json> {
    map f | f in fields && f in args :: NormalizeValue(args[f])
  }

  predicate Distinct(fields: seq<string>) {
    forall i, j :: 0 <= i < j < |fields| ==> fields[i] != fields[j]
  }

  lemma FieldsStep(fields: seq<string>, args: map<string, Json>, got: map<string, Json>)
    requires Distinct(fields) && fields != []
    ensures fields[0] in args ==>
      got[fields[0] := NormalizeValue(args[fields[0]])] + NormalizeFields(fields[1..], args) == got + NormalizeFields(fields, args)
    ensures fields[0] !in args ==> NormalizeFields(fields, args) == NormalizeFields(fields[1..], args)
  {
    hide NormalizeValue;
    assert fields[0] !in fields[1..];
    assert forall f :: f in fields <==> f == fields[0] || f in fields[1..];
  }

  /** One argument element is read on top of what was read before. */
  lemma ReadOne(tool: Tool, element: Element, rest: seq<Element>, got: map<string, Json>, value: Json)
    requires element.attributes == map[] && element.name !in got && !InNamespace(element)
    requires CoerceArg(tool, element) == Some(value)
    ensures ReadArgs(tool, [element] + rest, got) == ReadArgs(tool, rest, got[element.name := value])
  {
    hide CoerceArg, InNamespace;
    assert ([element] + rest)[1..] == rest;
  }

  lemma {:induction false} ArgsRead(tool: Tool, fields: seq<string>, args: map<string, Json>, got: map<string, Json>)
    requires Distinct(fields) && forall f :: f in fields ==> f !in got && f in ArgOrder(tool)
    requires forall f :: f in fields && f in args ==> ArgKindOf(tool, f).Some? && HasKind(ArgKindOf(tool, f).value, args[f])
    ensures DirectText(ArgElements(tool, fields, args)) == ""
    ensures ReadArgs(tool, Children(ArgElements(tool, fields, args)), got) == Some(got + NormalizeFields(fields, args))
    decreases |fields|
  {
    hide ArgKindOf, ArgOrder, Children, DirectText, NormalizeValue, CoerceArg, HasKind, NormalizeFields, ArgElement, InNamespace;
    if fields == [] {
      NoContent();
      NoFields(args, got);
    } else {
      hide ReadArgs;
      FieldsStep(fields, args, got);
      var field := fields[0];
      if field in args {
        var value := args[field];
        var element := ArgElement(ArgKindOf(tool, field).value, field, value);
        ArgElementName(tool, field, value);
        ChildFirst(element, ArgElements(tool, fields[1..], args));
        ArgRead(tool, field, value);
        ReadOne(tool, element, Children(ArgElements(tool, fields[1..], args)), got, NormalizeValue(value));
        ArgsRead(tool, fields[1..], args, got[field := NormalizeValue(value)]);
      } else {
        ArgsRead(tool, fields[1..], args, got);
      }
    }
  }

  lemma NoFields(args: map<string, Json>, got: map<string, Json>)
    ensures got + NormalizeFields([], args) == got
  {
  }

  lemma ArgElementName(tool: Tool, field: string, value: Json)
    requires field in ArgOrder(tool)
    requires ArgKindOf(tool, field).Some? && HasKind(ArgKindOf(tool, field).value, value)
    ensures var e := ArgElement(ArgKindOf(tool, field).value, field, value);
      e.name == field && e.attributes == map[] && !InNamespace(e)
  {
    hide ArgOrder, ArgKindOf, ItemTag;
    FieldIsPlain(tool, field);
  }

  lemma OrderIsDistinct(tool: Tool)
    ensures Distinct(ArgOrder(tool))
  {
    FirstLetters();
  }

  lemma FirstLetters()
    ensures "command" != "cwd" && "start_line" != "end_line" && "path" != "patch"
  {
    assert "command"[1] != "cwd"[1] && "start_line"[0] != "end_line"[0];
  }

  lemma CallRead(call: ToolCall)
    requires Typed(call)
    ensures XmlToolCall(CallElement(call)) == Some(NormalizeCall(call))
  {
    hide ArgOrder, ArgKindOf, ArgElements, ReadArgs, Children, DirectText, NormalizeValue, CanonicalTool, ToolName, Strip, Typed, HasKind;
    TypedFields(call);
    FieldsKnown(call);
    OrderIsDistinct(call.tool);
    ArgsRead(call.tool, ArgOrder(call.tool), call.args, map[]);
    assert map[] + NormalizeFields(ArgOrder(call.tool), call.args) == NormalizeArgs(call.args);
    CanonicalOfName(call.tool);
    NameIsStripped(call.tool);
  }

  lemma NameIsStripped(tool: Tool)
    ensures Strip(ToolName(tool)) == ToolName(tool) && ToolName(tool) != ""
  {
    hide ToolName, Strip;
    ToolNameIsPlain(tool);
    StripProperties(ToolName(tool));
  }

  // ---------------------------------------------------------------- all calls

  lemma CallsHead(calls: seq<ToolCall>)
    requires calls != []
    ensures NormalizeCalls(calls) == [NormalizeCall(calls[0])] + NormalizeCalls(calls[1..])
  {
    hide NormalizeCall;
  }

  /** One more call: accepted while the limit allows it. */
  lemma AddOne(turn: Turn, calls: seq<ToolCall>, maxCalls: int)
    requires calls != [] && SubmitAlone(turn.calls + calls)
    ensures AddCall(turn, calls[0], maxCalls) ==
      if |turn.calls| + 1 > maxCalls then None else Some(turn.(calls := turn.calls + [calls[0]]))
    ensures turn.calls + [calls[0]] + calls[1..] == turn.calls + calls
  {
    var now, all := turn.calls + [calls[0]], turn.calls + calls;
    assert forall i :: 0 <= i < |now| ==> now[i] == all[i];
  }

  lemma {:induction false} CallsDirect(calls: seq<ToolCall>)
    requires TypedCalls(calls)
    ensures DirectText(CallElements(calls)) == ""
    decreases |calls|
  {
    hide DirectText, CallElement, Typed;
    if calls == [] {
      NoContent();
    } else {
      ChildFirst(CallElement(calls[0]), CallElements(calls[1..]));
      CallsDirect(calls[1..]);
    }
  }

  lemma FoldCall(element: Element, rest: seq<Element>, call: ToolCall, turn: Turn, maxCalls: int)
    requires element.name == "tool_call" && XmlToolCall(element) == Some(call)
    ensures XmlFold([element] + rest, turn, maxCalls) ==
      match AddCall(turn, call, maxCalls)
      case None => Err(Malformed)
      case Some(next) => XmlFold(rest, next, maxCalls)
  {
    hide AddCall, XmlToolCall;
    assert ([element] + rest)[1..] == rest;
    assert "tool_call" != "think" by { assert "tool_call"[1] != "think"[1]; }
  }

  lemma {:induction false} CallsFold(calls: seq<ToolCall>, turn: Turn, maxCalls: int)
    requires TypedCalls(calls) && SubmitAlone(turn.calls + NormalizeCalls(calls)) && |turn.calls| <= maxCalls
    ensures XmlFold(Children(CallElements(calls)), turn, maxCalls) ==
      if |turn.calls| + |calls| > maxCalls then Err(Malformed)
      else Finish(turn.(calls := turn.calls + NormalizeCalls(calls)))
    decreases |calls|
  {
    hide Children, DirectText, NormalizeCall, Typed, SubmitAlone, AddCall, Finish, XmlToolCall, ArgElements;
    if calls == [] {
      NoContent();
      assert turn.calls + NormalizeCalls(calls) == turn.calls;
    } else {
      hide XmlFold, NormalizeCalls;
      CallsHead(calls);
      CallRead(calls[0]);
      ChildFirst(CallElement(calls[0]), CallElements(calls[1..]));
      FoldCall(CallElement(calls[0]), Children(CallElements(calls[1..])), NormalizeCall(calls[0]), turn, maxCalls);
      AddOne(turn, NormalizeCalls(calls), maxCalls);
      assert NormalizeCalls(calls)[1..] == NormalizeCalls(calls[1..]);
      if |turn.calls| < maxCalls {
        CallsFold(calls[1..], turn.(calls := turn.calls + [NormalizeCall(calls[0])]), maxCalls);
      }
    }
  }

  // ---------------------------------------------------------------- the whole payload

  lemma ThinkChild(text: string)
    ensures XmlChild(TextElement("think", text), START, 0) == Some(Turn(StrippedOrNone(text), true, []))
    ensures forall maxCalls :: XmlChild(TextElement("think", text), START, maxCalls) == Some(Turn(StrippedOrNone(text), true, []))
  {
    hide Children, DirectText, StrippedOrNone;
    OneText(text);
  }

  lemma {:induction false} BlankNormalized(s: string)
    ensures AllSpace(NormalizeNewlines(s)) <==> AllSpace(s)
    decreases |s|
  {
    if s == [] {
    } else {
      var skip := if s[0] == '\r' && |s| > 1 && s[1] == '\n' then 2 else 1;
      BlankNormalized(s[skip..]);
      var first := if s[0] == '\r' then '\n' else s[0];
      assert NormalizeNewlines(s) == [first] + NormalizeNewlines(s[skip..]);
      BlankCons([first], NormalizeNewlines(s[skip..]));
      assert s == s[..skip] + s[skip..];
      BlankCons(s[..skip], s[skip..]);
      BlankHead(s[..skip], first);
    }
  }

  lemma BlankHead(head: string, first: char)
    requires head == [first] || (head == "\r" && first == '\n') || (head == "\r\n" && first == '\n')
    ensures AllSpace(head) <==> AllSpace([first])
  {
    assert AllSpace([first]) <==> IsSpace([first][0]);
    assert head == [first] || forall i :: 0 <= i < |head| ==> IsSpace(head[i]);
  }

  lemma BlankCons(a: string, b: string)
    ensures AllSpace(a + b) <==> AllSpace(a) && AllSpace(b)
  {
    hide IsSpace;
    var ab := a + b;
    assert forall i :: 0 <= i < |a| ==> ab[i] == a[i];
    assert forall i :: 0 <= i < |b| ==> ab[|a| + i] == b[i];
  }

  lemma NormalizedSubmit(calls: seq<ToolCall>)
    ensures SubmitAlone(NormalizeCalls(calls)) == SubmitAlone(calls)
  {
    assert forall i :: 0 <= i < |calls| ==> NormalizeCalls(calls)[i].tool == calls[i].tool;
  }

  lemma FinishNormalized(e: Envelope)
    requires ValidEnvelope(e)
    ensures Finish(Turn(if e.thinking.Some? then StrippedOrNone(NormalizeNewlines(e.thinking.value)) else None,
                        e.thinking.Some?, NormalizeCalls(e.calls))) == Ok(Normalize(e))
  {
    hide NormalizeNewlines, Strip, SubmitAlone, NormalizeCall;
    NormalizedSubmit(e.calls);
    if e.thinking.Some? {
      var text := NormalizeNewlines(e.thinking.value);
      BlankNormalized(e.thinking.value);
      StripProperties(text);
      StripProperties(Strip(text));
    }
  }

  /** The XML parser on a rendered envelope whose characters XML allows: the limit, or the normalized envelope. */
  lemma FoldEnvelope(e: Envelope, maxCalls: int)
    requires ValidEnvelope(e) && TypedCalls(e.calls) && maxCalls >= 1
    ensures DirectText(EnvelopeElements(e)) == ""
    ensures XmlFold(Children(EnvelopeElements(e)), START, maxCalls) ==
      if |e.calls| > maxCalls then Err(Malformed) else Ok(Normalize(e))
  {
    hide Children, DirectText, CallElements, Typed, Finish, NormalizeCalls, StrippedOrNone, Normalize, XmlFold, XmlChild, NormalizeNewlines;
    CallsDirect(e.calls);
    NormalizedSubmit(e.calls);
    FinishNormalized(e);
    assert [] + NormalizeCalls(e.calls) == NormalizeCalls(e.calls);
    if e.thinking.Some? {
      var text := NormalizeNewlines(e.thinking.value);
      var think := TextElement("think", text);
      ThinkChild(text);
      ChildFirst(think, CallElements(e.calls));
      FoldOne(think, Children(CallElements(e.calls)), Turn(StrippedOrNone(text), true, []), maxCalls);
      CallsFold(e.calls, Turn(StrippedOrNone(text), true, []), maxCalls);
    } else {
      assert EnvelopeElements(e) == CallElements(e.calls);
      CallsFold(e.calls, START, maxCalls);
    }
  }

  lemma FoldOne(element: Element, rest: seq<Element>, next: Turn, maxCalls: int)
    requires XmlChild(element, START, maxCalls) == Some(next)
    ensures XmlFold([element] + rest, START, maxCalls) == XmlFold(rest, next, maxCalls)
  {
    hide XmlChild;
    assert ([element] + rest)[1..] == rest;
  }

  lemma IllegalDocument(s: string)
    requires !LegalText(s)
    ensures FromString(s) == None
  {
    hide LegalText;
  }

  lemma ParseXmlUnfold(body: string, maxCalls: int)
    requires AllowedFrom(body, 0)
    ensures maxCalls < 1 ==> ParseXml(body, maxCalls) == Err(BadLimit)
    ensures maxCalls >= 1 && FromString(Document(body)).None? ==> ParseXml(body, maxCalls) == Err(Malformed)
    ensures maxCalls >= 1 && FromString(Document(body)).Some? && DirectText(FromString(Document(body)).value.content) == "" ==>
      ParseXml(body, maxCalls) == XmlFold(Children(FromString(Document(body)).value.content), START, maxCalls)
  {
    hide AllowedFrom, FromString, Document, DirectText, Children, XmlFold;
    assert AllSpace("");
  }

  /** parse_xml_assistant_turn_payload on everything the XML printer prints. */
  lemma ParseXmlExact(e: Envelope, maxCalls: int)
    requires ValidEnvelope(e) && TypedCalls(e.calls)
    ensures ParseXml(Flat(EnvelopePieces(e)), maxCalls) ==
      if maxCalls < 1 then Err(BadLimit)
      else if !LegalText(Flat(EnvelopePieces(e))) || |e.calls| > maxCalls then Err(Malformed)
      else Ok(Normalize(e))
  {
    hide *;
    var body := Flat(EnvelopePieces(e));
    EnvelopeBalanced(e);
    BalancedOk(EnvelopePieces(e));
    RejectorAcceptsPieces(EnvelopePieces(e));
    ParseXmlUnfold(body, maxCalls);
    LegalDocument(body);
    if maxCalls >= 1 {
      FoldEnvelope(e, maxCalls);
      if LegalText(body) {
        DocumentParses(e);
      } else {
        IllegalDocument(Document(body));
      }
    }
  }

  lemma BalancedOk(ps: seq<Piece>)
    requires Balanced(ps)
    ensures PiecesOk(ps)
  {
  }
}
