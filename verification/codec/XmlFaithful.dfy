/** Exactly when an XML round trip gives the envelope back unchanged. */
module XmlFaithful {
  import opened Text
  import opened JsonCodec
  import opened Contracts
  import opened XmlTree
  import opened ActionRender
  import opened ScannerExact
  import opened RenderPieces
  import opened ActionParse
  import opened XmlTreeRendered
  import opened XmlRoundTrip
  import opened XmlExact

  /** The text `s` is one of the strings a value carries. */
  ghost predicate InValue(value: Json, s: string) {
    value == Str(s) || (value.Arr? && Str(s) in value.items)
  }

  ghost predicate InCall(call: ToolCall, s: string) {
    exists f :: f in call.args && InValue(call.args[f], s)
  }

  /** The text `s` is one of the strings an envelope carries. */
  ghost predicate Carries(e: Envelope, s: string) {
    e.thinking == Some(s) || exists i :: 0 <= i < |e.calls| && InCall(e.calls[i], s)
  }

  ghost predicate LegalStrings(e: Envelope) {
    forall s :: Carries(e, s) ==> LegalText(s)
  }

  /** No carriage returns, and thinking that strip() leaves alone. */
  ghost predicate Faithful(e: Envelope) {
    (forall s :: Carries(e, s) ==> '\r' !in s) && (e.thinking.Some? ==> Stripped(e.thinking.value))
  }

  // ---------------------------------------------------------------- legal characters

  lemma LegalConcat(a: string, b: string)
    ensures LegalText(a + b) <==> LegalText(a) && LegalText(b)
  {
    hide LegalChar;
    var ab := a + b;
    assert forall i :: 0 <= i < |a| ==> ab[i] == a[i];
    assert forall i :: 0 <= i < |b| ==> ab[|a| + i] == b[i];
  }

  lemma {:induction false} LegalEscaped(s: string)
    ensures LegalText(EscapeXml(s)) <==> LegalText(s)
    decreases |s|
  {
    hide LegalChar, LegalText;
    if s == [] {
    } else {
      hide EscapeXml;
      EscapedHead(s);
      LegalEscaped(s[1..]);
      LegalConcat(EscapedForm(s[0]), EscapeXml(s[1..]));
      assert s == [s[0]] + s[1..];
      LegalConcat([s[0]], s[1..]);
      LegalEscapedForm(s[0]);
    }
  }

  lemma LegalEscapedForm(c: char)
    ensures LegalText(EscapedForm(c)) <==> LegalText([c])
  {
    assert LegalText([c]) <==> LegalChar([c][0]);
  }

  lemma LegalCData(s: string)
    ensures LegalText(CDATA_START + s + CDATA_END) <==> LegalText(s)
  {
    assert LegalText(CDATA_START) && LegalText(CDATA_END);
    LegalConcat(CDATA_START + s, CDATA_END);
    LegalConcat(CDATA_START, s);
  }

  lemma LegalString(s: string)
    ensures LegalText(Flat([StringPiece(s)])) <==> LegalText(s)
  {
    hide LegalText, EscapeXml, Find;
    FlatStringPiece(s);
    LegalEscaped(s);
    LegalCData(s);
  }

  lemma LegalWrapped(open: string, tag: string, body: seq<Piece>)
    requires LegalText(open) && LegalText(tag)
    ensures LegalText(Flat(Wrapped(open, tag, body))) <==> LegalText(Flat(body))
  {
    hide Flat, LegalText, Wrapped;
    FlatWrapped(open, tag, body);
    assert LegalText("<") && LegalText(">") && LegalText("</") by { Angles(); }
    LegalConcat("<" + open + ">" + Flat(body), "</" + tag + ">");
    LegalConcat("<" + open + ">", Flat(body));
    LegalConcat("<" + open, ">");
    LegalConcat("<", open);
    LegalConcat("</" + tag, ">");
    LegalConcat("</", tag);
  }

  lemma Angles()
    ensures LegalText("<") && LegalText(">") && LegalText("</")
  {
  }

  lemma LegalName(name: string)
    requires PlainName(name)
    ensures LegalText(name)
  {
  }

  lemma LegalOpener(tool: Tool)
    ensures LegalText(CallOpener(tool))
  {
    hide ToolName;
    ToolNameIsPlain(tool);
    LegalName(ToolName(tool));
    LegalConcat("tool_call name=\"" + ToolName(tool), "\"");
    LegalConcat("tool_call name=\"", ToolName(tool));
  }

  lemma LegalPieces(a: seq<Piece>, b: seq<Piece>)
    ensures LegalText(Flat(a + b)) <==> LegalText(Flat(a)) && LegalText(Flat(b))
  {
    hide Flat, LegalText;
    FlatConcat(a, b);
    LegalConcat(Flat(a), Flat(b));
  }

  lemma {:induction false} LegalItems(tag: string, items: seq<Json>)
    requires PlainName(tag) && forall i :: 0 <= i < |items| ==> items[i].Str?
    ensures LegalText(Flat(ItemsPieces(tag, items))) <==> forall s :: Str(s) in items ==> LegalText(s)
    decreases |items|
  {
    hide Flat, LegalText, Wrapped, StringPiece, PlainName;
    if items == [] {
      LegalNothing();
    } else {
      var text := items[0].text;
      LegalName(tag);
      LegalWrapped(tag, tag, [StringPiece(text)]);
      LegalString(text);
      LegalItems(tag, items[1..]);
      LegalPieces(Wrapped(tag, tag, [StringPiece(text)]), ItemsPieces(tag, items[1..]));
      assert forall s :: Str(s) in items <==> s == text || Str(s) in items[1..];
    }
  }

  lemma LegalNothing()
    ensures LegalText(Flat([]))
  {
  }

  lemma LegalInt(n: int)
    ensures LegalText(Flat([Plain(EncodeInt(n))]))
  {
    hide EncodeInt, Flat;
    FlatPlain(EncodeInt(n));
    IntChars(n);
    assert forall c: char :: IsDigit(c) || c == '-' ==> LegalChar(c);
  }

  lemma LegalValue(kind: ArgKind, field: string, value: Json)
    requires HasKind(kind, value) && PlainName(ItemTag(field))
    ensures LegalText(Flat(ValuePieces(kind, field, value))) <==> forall s :: InValue(value, s) ==> LegalText(s)
  {
    hide Flat, LegalText, StringPiece, EncodeInt, ItemTag, PlainName, ItemsPieces;
    match kind
    case StringArg =>
      LegalString(value.text);
      assert forall s :: InValue(value, s) <==> s == value.text;
    case IntArg => LegalInt(value.number);
    case StringListArg => LegalItems(ItemTag(field), value.items);
  }

  lemma {:induction false} LegalArgs(tool: Tool, fields: seq<string>, args: map<string, Json>)
    requires forall f :: f in fields ==> f in ArgOrder(tool)
    requires forall f :: f in fields && f in args ==> ArgKindOf(tool, f).Some? && HasKind(ArgKindOf(tool, f).value, args[f])
    ensures LegalText(Flat(ArgsPieces(tool, fields, args))) <==>
      forall f, s :: f in fields && f in args && InValue(args[f], s) ==> LegalText(s)
    decreases |fields|
  {
    hide Flat, LegalText, Wrapped, ValuePieces, ArgOrder, ArgKindOf, HasKind, InValue, ItemTag;
    if fields == [] {
      LegalNothing();
    } else {
      var field := fields[0];
      LegalArgs(tool, fields[1..], args);
      assert forall f :: f in fields <==> f == field || f in fields[1..];
      if field in args {
        var kind, value := ArgKindOf(tool, field).value, args[field];
        FieldIsPlain(tool, field);
        LegalName(field);
        LegalValue(kind, field, value);
        LegalWrapped(field, field, ValuePieces(kind, field, value));
        LegalPieces(Wrapped(field, field, ValuePieces(kind, field, value)), ArgsPieces(tool, fields[1..], args));
      }
    }
  }

  lemma LegalCall(call: ToolCall)
    requires Typed(call)
    ensures LegalText(Flat(CallPieces(call))) <==> forall s :: InCall(call, s) ==> LegalText(s)
  {
    hide Flat, LegalText, Wrapped, ArgsPieces, ArgOrder, ArgKindOf, HasKind, InValue, Typed, CallOpener;
    TypedFields(call);
    FieldsKnown(call);
    LegalArgs(call.tool, ArgOrder(call.tool), call.args);
    LegalOpener(call.tool);
    PlainToolCall();
    LegalName("tool_call");
    LegalWrapped(CallOpener(call.tool), "tool_call", ArgsPieces(call.tool, ArgOrder(call.tool), call.args));
  }

  lemma {:induction false} LegalCalls(calls: seq<ToolCall>)
    requires TypedCalls(calls)
    ensures LegalText(Flat(CallsPieces(calls))) <==>
      forall i, s :: 0 <= i < |calls| && InCall(calls[i], s) ==> LegalText(s)
    decreases |calls|
  {
    hide Flat, LegalText, CallPieces, InCall, Typed;
    if calls == [] {
      LegalNothing();
    } else {
      LegalCall(calls[0]);
      LegalCalls(calls[1..]);
      LegalPieces(CallPieces(calls[0]), CallsPieces(calls[1..]));
      assert forall i :: 0 < i < |calls| ==> calls[i] == calls[1..][i - 1];
    }
  }

  /** The printed payload is legal XML text exactly when every string the envelope carries is. */
  lemma LegalEnvelope(e: Envelope)
    requires ValidEnvelope(e) && TypedCalls(e.calls)
    ensures LegalText(Flat(EnvelopePieces(e))) <==> LegalStrings(e)
  {
    hide Flat, LegalText, CallsPieces, InCall, TypedCalls, StringPiece, Wrapped;
    LegalCalls(e.calls);
    if e.thinking.Some? {
      PlainToolCall();
      LegalName("think");
      LegalString(e.thinking.value);
      LegalWrapped("think", "think", [StringPiece(e.thinking.value)]);
      LegalPieces(ThinkPieces(e.thinking.value), CallsPieces(e.calls));
    } else {
      assert EnvelopePieces(e) == CallsPieces(e.calls);
    }
  }

  // ---------------------------------------------------------------- unchanged strings

  lemma {:induction false} NoReturnLeft(s: string)
    ensures '\r' !in NormalizeNewlines(s)
    decreases |s|
  {
    if s == [] {
    } else {
      var skip := if s[0] == '\r' && |s| > 1 && s[1] == '\n' then 2 else 1;
      NoReturnLeft(s[skip..]);
    }
  }

  lemma NormalizedSame(s: string)
    ensures NormalizeNewlines(s) == s <==> '\r' !in s
  {
    NoReturnLeft(s);
    if '\r' !in s {
      NormalizePlain(s);
    }
  }

  lemma ValueSame(value: Json)
    requires value.Str? || value.Int? || (value.Arr? && forall i :: 0 <= i < |value.items| ==> value.items[i].Str?)
    ensures NormalizeValue(value) == value <==> forall s :: InValue(value, s) ==> '\r' !in s
  {
    hide NormalizeNewlines;
    match value
    case Str(text) =>
      NormalizedSame(text);
      assert InValue(value, text);
    case Int(_) =>
    case Arr(items) =>
      var normal := NormalizeValue(value);
      forall i | 0 <= i < |items| ensures InValue(value, items[i].text) && (normal.items[i] == items[i] <==> '\r' !in items[i].text) {
        NormalizedSame(items[i].text);
        assert items[i] == Str(items[i].text);
      }
      if normal == value {
        assert forall i :: 0 <= i < |items| ==> normal.items[i] == items[i];
      }
  }

  lemma KindOfValue(call: ToolCall, f: string)
    requires Typed(call) && f in call.args
    ensures var v := call.args[f]; v.Str? || v.Int? || (v.Arr? && forall i :: 0 <= i < |v.items| ==> v.items[i].Str?)
  {
    hide ArgKindOf;
  }

  lemma CallSame(call: ToolCall)
    requires Typed(call)
    ensures NormalizeCall(call) == call <==> forall s :: InCall(call, s) ==> '\r' !in s
  {
    hide NormalizeValue, InValue, Typed;
    forall f | f in call.args
      ensures NormalizeValue(call.args[f]) == call.args[f] <==> forall s :: InValue(call.args[f], s) ==> '\r' !in s
    {
      KindOfValue(call, f);
      ValueSame(call.args[f]);
    }
    var normal := NormalizeArgs(call.args);
    if forall s :: InCall(call, s) ==> '\r' !in s {
      assert forall f :: f in call.args ==> normal[f] == call.args[f];
      assert normal == call.args;
    }
  }

  lemma CallsSame(calls: seq<ToolCall>)
    requires TypedCalls(calls)
    ensures NormalizeCalls(calls) == calls <==> forall i, s :: 0 <= i < |calls| && InCall(calls[i], s) ==> '\r' !in s
  {
    hide NormalizeCall, InCall, Typed;
    var normal := NormalizeCalls(calls);
    forall i | 0 <= i < |calls| ensures normal[i] == calls[i] <==> forall s :: InCall(calls[i], s) ==> '\r' !in s {
      CallSame(calls[i]);
    }
    if normal == calls {
      assert forall i :: 0 <= i < |calls| ==> normal[i] == calls[i];
    }
  }

  lemma {:induction false} NormalizeShrinks(s: string)
    ensures |NormalizeNewlines(s)| <= |s|
    ensures |NormalizeNewlines(s)| == |s| ==> forall i :: 0 <= i < |s| ==>
      NormalizeNewlines(s)[i] == if s[i] == '\r' then '\n' else s[i]
    decreases |s|
  {
    if s == [] {
    } else {
      var skip := if s[0] == '\r' && |s| > 1 && s[1] == '\n' then 2 else 1;
      NormalizeShrinks(s[skip..]);
    }
  }

  lemma ThinkingSame(s: string)
    ensures Strip(NormalizeNewlines(s)) == s <==> '\r' !in s && Stripped(s)
  {
    hide NormalizeNewlines, Strip;
    var n := NormalizeNewlines(s);
    StripProperties(n);
    NormalizedSame(s);
    NormalizeShrinks(s);
    if Strip(n) == s {
      WholeStrip(n);
    }
  }

  lemma WholeStrip(s: string)
    ensures |Strip(s)| == |s| ==> Strip(s) == s
  {
    LStripCuts(s);
    RStripCuts(LStrip(s));
  }

  /** The round trip gives the envelope back exactly when it is faithful. */
  lemma NormalizeSame(e: Envelope)
    requires ValidEnvelope(e) && TypedCalls(e.calls)
    ensures Normalize(e) == e <==> Faithful(e)
  {
    hide NormalizeNewlines, NormalizeCalls, Strip, InCall, TypedCalls;
    CallsSame(e.calls);
    if e.thinking.Some? {
      ThinkingSame(e.thinking.value);
    }
    assert forall i, s :: 0 <= i < |e.calls| && InCall(e.calls[i], s) ==> Carries(e, s);
    assert e.thinking.Some? ==> Carries(e, e.thinking.value);
  }

  /** parse_xml_assistant_turn_payload(render(e)) is e exactly when XML can carry e unchanged and the limit
      allows it. */
  lemma XmlRoundTripExact(e: Envelope, compact: bool, maxCalls: int)
    requires ValidEnvelope(e) && TypedCalls(e.calls)
    ensures Render(e, XmlFormat, compact).Some?
    ensures ParseXml(Render(e, XmlFormat, compact).value, maxCalls) == Ok(e) <==>
      LegalStrings(e) && Faithful(e) && |e.calls| <= maxCalls
  {
    hide *;
    RenderIsPieces(e, compact);
    ParseXmlExact(e, maxCalls);
    LegalEnvelope(e);
    NormalizeSame(e);
    HasCalls(e);
  }
}
