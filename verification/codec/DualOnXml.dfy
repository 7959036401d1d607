/** The XML-aware JSON parser on rendered XML payloads: always refused as a mixed payload. */
module DualOnXml {
  import opened Text
  import opened Contracts
  import opened XmlTree
  import opened ActionRender
  import opened ElementScanner
  import opened ScannerExact
  import opened RejectorAccepts
  import opened RenderPieces
  import opened ActionParse
  import opened XmlTreeRendered
  import opened XmlNamespaces
  import opened XmlRoundTrip
  import opened XmlExact
  import opened XmlFaithful

  // ---------------------------------------------------------------- where a rendered call starts

  const CALL_HEAD := "<tool_call name=\""

  lemma CallHead(call: ToolCall)
    requires Typed(call)
    ensures StartsAt(Flat(CallPieces(call)), 0, CALL_HEAD)
    ensures |Flat(CallPieces(call))| > |CALL_HEAD|
    ensures Flat(CallPieces(call))[|Flat(CallPieces(call))| - 1] == '>'
  {
    hide Flat, ArgsPieces, ArgOrder, ToolName, Wrapped, Typed;
    TypedFields(call);
    var args := ArgsPieces(call.tool, ArgOrder(call.tool), call.args);
    FlatWrapped(CallOpener(call.tool), "tool_call", args);
    OpenTagText(ToolName(call.tool), Flat(args), "");
    var rest := ToolName(call.tool) + "\">" + Flat(args) + "</tool_call>";
    CallText(ToolName(call.tool), Flat(args));
    assert Flat(CallPieces(call)) == CALL_HEAD + rest;
  }

  lemma CallText(name: string, args: string)
    ensures "<" + ("tool_call name=\"" + name + "\"") + ">" + args + ("</" + "tool_call" + ">")
      == CALL_HEAD + (name + "\">" + args + "</tool_call>")
  {
  }

  lemma CharAt(s: string, i: nat, lit: string, k: nat)
    requires StartsAt(s, i, lit) && k < |lit|
    ensures i + k < |s| && s[i + k] == lit[k]
  {
  }

  lemma OpenerHere(s: string, i: nat)
    requires StartsAt(s, i, CALL_HEAD)
    ensures OpensAt(ToolOpener, s, i)
    ensures !StartsAt(s, i, TOOL_START) && !StartsAt(s, i, THINK_START) && !OpensAt(ThinkOpener, s, i)
    ensures i < |s| && s[i] == '<'
  {
    hide SkipSpaces, NameAttributeFrom, StartsAt;
    CharAt(s, i, CALL_HEAD, 0);
    CharAt(s, i, CALL_HEAD, 2);
    CharAt(s, i, CALL_HEAD, 10);
    assert CALL_HEAD[2] == 'o' && CALL_HEAD[10] == ' ';
    DiffersAt(s, i, TOOL_START, 10);
    DiffersAt(s, i, THINK_START, 2);
    DiffersAt(s, i, "<think", 2);
    SplitAt(s, i, "<tool_call", " name=\"");
    assert "<tool_call" + " name=\"" == CALL_HEAD;
    SplitAt(s, i + 10, " ", "name=\"");
    assert " " + "name=\"" == " name=\"";
    NameHere(s, i + 11);
    BlankThenName(s, i + 10);
  }

  lemma DiffersAt(s: string, i: nat, lit: string, k: nat)
    requires k < |lit| && i + k < |s| && s[i + k] != lit[k]
    ensures !StartsAt(s, i, lit)
  {
  }

  lemma BlankThenName(s: string, k: nat)
    requires k < |s| && s[k] == ' ' && NameAttributeFrom(s, k + 1)
    ensures NameAttributeFrom(s, k)
  {
  }

  lemma NameHere(s: string, k: nat)
    requires 0 < k <= |s| && s[k - 1] == ' ' && StartsAt(s, k, "name=\"")
    ensures NameAttributeFrom(s, k)
  {
    hide StartsAt;
    SplitAt(s, k, "name", "=\"");
    assert "name" + "=\"" == "name=\"";
    CharAt(s, k, "name=\"", 4);
    assert "name=\""[4] == '=';
    assert SkipSpaces(s, k + 4) == k + 4;
  }

  // ---------------------------------------------------------------- a run of rendered calls

  lemma CallsStart(calls: seq<ToolCall>)
    requires TypedCalls(calls) && calls != []
    ensures var text := Flat(CallsPieces(calls));
      StartsAt(text, 0, CALL_HEAD) && text[|text| - 1] == '>'
    decreases |calls|
  {
    hide Flat, CallPieces, Typed, StartsAt;
    FlatConcat(CallPieces(calls[0]), CallsPieces(calls[1..]));
    CallHead(calls[0]);
    var head, rest := Flat(CallPieces(calls[0])), Flat(CallsPieces(calls[1..]));
    if |calls| == 1 {
      FlatNothing();
      assert head + rest == head;
    } else {
      CallsStart(calls[1..]);
      WithinLength(rest, 0, CALL_HEAD);
      StartsHead(head, rest);
      assert (head + rest)[|head + rest| - 1] == rest[|rest| - 1];
    }
  }

  lemma StartsHead(a: string, b: string)
    requires StartsAt(a, 0, CALL_HEAD)
    ensures StartsAt(a + b, 0, CALL_HEAD)
  {
  }

  lemma NoSkip(s: string, i: nat)
    requires i < |s| && s[i] == '<'
    ensures SkipSpaces(s, i) == i
  {
  }

  lemma SequenceOne(s: string, i: nat, end: nat, count: nat)
    requires OpensAt(ToolOpener, s, i) && i < |s| && ElementEnd(s, i) == Some(end)
    ensures SequenceFrom(s, i, count) == SequenceFrom(s, SkipSpaces(s, end), count + 1)
  {
    hide OpensAt, ElementEnd, SkipSpaces;
  }

  lemma SequenceStop(s: string, i: nat, count: nat)
    requires count > 0 && !OpensAt(ToolOpener, s, i)
    ensures SequenceFrom(s, i, count) == Some((i, count))
  {
    hide OpensAt, ElementEnd, SkipSpaces;
  }

  /** The sequence scanner counts exactly the rendered blocks, whatever stands before them, whatever their
      arguments contain, and whatever follows that is not one more opener. */
  lemma {:induction false} SequenceExact(s: string, i: nat, calls: seq<ToolCall>, count: nat)
    requires TypedCalls(calls) && calls != [] && StartsAt(s, i, Flat(CallsPieces(calls)))
    requires !OpensAt(ToolOpener, s, SkipSpaces(s, i + |Flat(CallsPieces(calls))|))
    ensures SequenceFrom(s, i, count) == Some((SkipSpaces(s, i + |Flat(CallsPieces(calls))|), count + |calls|))
    decreases |calls|
  {
    hide Flat, CallPieces, Typed, StartsAt, OpensAt, ElementEnd, SkipSpaces, SequenceFrom, IsElement, Balanced;
    var head, rest := Flat(CallPieces(calls[0])), Flat(CallsPieces(calls[1..]));
    FlatConcat(CallPieces(calls[0]), CallsPieces(calls[1..]));
    SplitAt(s, i, head, rest);
    CallHead(calls[0]);
    CallBalanced(calls[0]);
    ElementEndExact(s, i, CallPieces(calls[0]));
    HeadInside(s, i, head);
    OpenerHere(s, i);
    SequenceOne(s, i, i + |head|, count);
    if |calls| == 1 {
      FlatNothing();
      SequenceStop(s, SkipSpaces(s, i + |head|), count + 1);
    } else {
      CallsStart(calls[1..]);
      HeadInside(s, i + |head|, rest);
      OpenerHere(s, i + |head|);
      NoSkip(s, i + |head|);
      SequenceExact(s, i + |head|, calls[1..], count + 1);
    }
  }

  lemma HeadInside(s: string, i: nat, text: string)
    requires StartsAt(s, i, text) && StartsAt(text, 0, CALL_HEAD)
    ensures StartsAt(s, i, CALL_HEAD)
  {
  }

  // ---------------------------------------------------------------- the run looks like XML tool calls

  lemma NamedElement(call: ToolCall)
    requires Typed(call)
    ensures NamedToolCall(CallElement(call)) && !InNamespace(CallElement(call))
  {
    hide ToolName, Strip, ArgElements, ArgOrder, Typed;
    NameIsStripped(call.tool);
  }

  lemma {:induction false} CallsLook(calls: seq<ToolCall>)
    requires TypedCalls(calls)
    ensures ItemsLook(CallElements(calls)) == Yes
    decreases |calls|
  {
    hide CallElement, Typed, NamedToolCall, InNamespace;
    if calls != [] {
      NamedElement(calls[0]);
      CallsLook(calls[1..]);
      assert CallElements(calls)[1..] == CallElements(calls[1..]);
    }
  }

  lemma LooksLikeUnfold(text: string, root: Element)
    requires Strip(text) == text && text != "" && FromString(Document(text)) == Some(root)
    ensures LooksLikeToolCalls(text) == ItemsLook(root.content)
  {
    hide FromString, Document, Strip, ItemsLook;
  }

  lemma CallsLookLike(calls: seq<ToolCall>)
    requires TypedCalls(calls) && calls != [] && LegalText(Flat(CallsPieces(calls)))
    ensures LooksLikeToolCalls(Flat(CallsPieces(calls))) == Yes
  {
    hide *;
    var text := Flat(CallsPieces(calls));
    CallsStart(calls);
    WithinLength(text, 0, CALL_HEAD);
    CallHeadText();
    CharAt(text, 0, CALL_HEAD, 0);
    AnglesStripped(text);
    OnlyCalls(calls);
    DocumentParses(Envelope(None, calls));
    CallsLook(calls);
    LooksLikeUnfold(text, Element(ROOT, map[], CallElements(calls)));
  }

  lemma CallHeadText()
    ensures |CALL_HEAD| == 17 && CALL_HEAD[0] == '<'
  {
  }

  lemma AnglesStripped(text: string)
    requires text != "" && text[0] == '<' && text[|text| - 1] == '>'
    ensures Strip(text) == text
  {
    hide Strip;
    StripProperties(text);
  }

  lemma OnlyCalls(calls: seq<ToolCall>)
    requires TypedCalls(calls)
    ensures EnvelopePieces(Envelope(None, calls)) == CallsPieces(calls)
    ensures EnvelopeElements(Envelope(None, calls)) == CallElements(calls)
  {
    hide CallsPieces, CallElements, TypedCalls;
  }

  // ---------------------------------------------------------------- the parser meets the run

  lemma NothingAtEnd(s: string)
    ensures Search(ThinkOpener, s, |s|) == -1 && Find(TOOL_START, s, |s|) == -1
  {
  }

  lemma CallsEnd(s: string, cursor: nat, calls: seq<ToolCall>)
    requires TypedCalls(calls) && calls != [] && StartsAt(s, cursor, Flat(CallsPieces(calls)))
    requires cursor + |Flat(CallsPieces(calls))| == |s| && LegalText(Flat(CallsPieces(calls)))
    ensures cursor < |s| && ToolCallsEnd(s, cursor) == Some(|s|) && !ToolCallsRaise(s, cursor)
  {
    hide *;
    var text := Flat(CallsPieces(calls));
    EndOfInput(s);
    SequenceExact(s, cursor, calls, 0);
    CallsStart(calls);
    WithinLength(text, 0, CALL_HEAD);
    CallHeadText();
    CallsLookLike(calls);
    TextToEnd(s, cursor, text);
    ToolCallsEndIs(s, cursor, |calls|);
  }

  lemma EndOfInput(s: string)
    ensures SkipSpaces(s, |s|) == |s| && !OpensAt(ToolOpener, s, |s|)
  {
  }

  lemma TextToEnd(s: string, cursor: nat, text: string)
    requires StartsAt(s, cursor, text) && cursor + |text| == |s|
    ensures s[cursor..|s|] == text
  {
  }

  lemma ToolCallsEndIs(s: string, cursor: nat, count: nat)
    requires cursor < |s| && SequenceFrom(s, cursor, 0) == Some((|s|, count)) && LooksLikeToolCalls(s[cursor..|s|]) == Yes
    ensures ToolCallsEnd(s, cursor) == Some(|s|) && !ToolCallsRaise(s, cursor)
  {
    hide SequenceFrom, LooksLikeToolCalls;
  }

  lemma CallsRegion(s: string, cursor: nat)
    requires StartsAt(s, cursor, CALL_HEAD) && cursor < |s|
    requires ToolCallsEnd(s, cursor) == Some(|s|) && !ToolCallsRaise(s, cursor)
    ensures XmlThinkRegion(s, cursor) == None && XmlToolRegion(s, cursor) == Some((cursor, |s|))
    ensures !ThinkRefused(s, cursor) && !ToolsRefused(s, cursor)
  {
    hide OpensAt, StartsAt, ToolCallsEnd, ToolCallsRaise, CDataThinkEnd;
    OpenerHere(s, cursor);
    assert Search(ToolOpener, s, cursor) == cursor;
    assert Find(THINK_START, s, cursor) != cursor && Find(TOOL_START, s, cursor) != cursor;
  }

  lemma SkipRun(s: string, cursor: nat, turn: Turn)
    requires cursor < |s| && s[cursor] == '<'
    ensures SkipXmlTools(s, cursor, cursor, |s|, turn) == Fail(MixedPayload)
  {
    hide XmlThinkEnd, ThinkRaises, Search, Find;
    NothingAtEnd(s);
    NoSkip(s, cursor);
  }

  /** Where the rendered calls start, the XML-aware JSON parser gives up on the payload. */
  lemma CallsStepFails(s: string, cursor: nat, calls: seq<ToolCall>, turn: Turn, maxCalls: int)
    requires TypedCalls(calls) && calls != [] && StartsAt(s, cursor, Flat(CallsPieces(calls)))
    requires cursor + |Flat(CallsPieces(calls))| == |s| && LegalText(Flat(CallsPieces(calls)))
    ensures cursor < |s| && DualStep(s, cursor, turn, maxCalls) == Fail(MixedPayload)
  {
    hide *;
    CallsEnd(s, cursor, calls);
    CallsStart(calls);
    HeadInside(s, cursor, Flat(CallsPieces(calls)));
    CallsRegion(s, cursor);
    OpenerHere(s, cursor);
    SkipRun(s, cursor, turn);
    StepOnTools(s, cursor, cursor, |s|, turn, maxCalls);
  }

  lemma StepOnTools(s: string, cursor: nat, start: nat, end: nat, turn: Turn, maxCalls: int)
    requires XmlThinkRegion(s, cursor) == None && XmlToolRegion(s, cursor) == Some((start, end))
    requires !ThinkRefused(s, cursor) && !ToolsRefused(s, cursor)
    ensures DualStep(s, cursor, turn, maxCalls) == SkipXmlTools(s, cursor, start, end, turn)
  {
    hide XmlThinkRegion, XmlToolRegion, SkipXmlTools, ThinkRefused, ToolsRefused;
  }

  // ---------------------------------------------------------------- an element that opens with the bare think tag

  /** Its name is think, it has no attributes, and its content is what follows the tag. */
  lemma ThinkDocument(c: string)
    requires StartsAt(c, 0, THINK_START) && FromString(c).Some?
    ensures |c| >= 7 && ParseContent(c[7..]).Some? && ParseEndTag("think", ParseContent(c[7..]).value.1) == Some("")
    ensures var e := FromString(c).value;
      && e.name == "think" && e.attributes == map[]
      && (Children(e.content) == [] <==> Children(ParseContent(c[7..]).value.0) == [])
  {
    hide *;
    ThinkRaw(c);
    BareTag();
    var raw := ParseElement(c).value.0;
    FromStringParts(c);
    BareRoot(raw);
    ElementKept(raw, []);
  }

  lemma FromStringParts(d: string)
    requires FromString(d).Some?
    ensures ParseElement(d).Some? && ParseElement(d).value.1 == ""
    ensures Resolve(ParseElement(d).value.0, []) == FromString(d)
  {
    hide ParseElement, LegalText, Resolve;
  }

  lemma ElementUnfold(s: string)
    requires ParseElement(s).Some?
    ensures |s| >= 2 && NameStart(s[1]) && 1 + |TakeQName(s[1..])| <= |s|
    ensures var name := TakeQName(s[1..]);
      var tag := s[1 + |name|..];
      && ParseAttributes(tag).Some?
      && var (attributes, closed, rest) := ParseAttributes(tag).value;
      var (element, after) := ParseElement(s).value;
      element.name == name && element.attributes == attributes &&
      if closed then after == rest
      else
        && ParseContent(rest).Some? && element.content == ParseContent(rest).value.0
        && ParseEndTag(name, ParseContent(rest).value.1) == Some(after)
  {
    hide TakeQName, ParseAttributes, ParseContent, ParseEndTag, NameStart;
  }

  lemma ThinkRaw(c: string)
    requires StartsAt(c, 0, THINK_START) && FromString(c).Some?
    ensures |c| >= 7 && ParseContent(c[7..]).Some? && ParseElement(c).Some?
    ensures ParseElement(c).value.0 == Element("think", map[], ParseContent(c[7..]).value.0)
    ensures ParseEndTag("think", ParseContent(c[7..]).value.1) == Some("")
  {
    hide *;
    FromStringParts(c);
    ThinkTail(c);
    ElementUnfold(c);
    ThinkName(c[7..]);
    NoAttributes(c[7..]);
    assert |"think"| == 5;
  }

  lemma ThinkTail(c: string)
    requires StartsAt(c, 0, THINK_START)
    ensures |c| >= 7 && c[1..] == "think" + (">" + c[7..]) && c[6..] == ">" + c[7..]
  {
    StartsIsSlice(c, 0, THINK_START);
    CharAt(c, 0, THINK_START, 6);
  }

  lemma ThinkName(rest: string)
    ensures TakeQName("think" + (">" + rest)) == "think" && NameStart('t')
  {
    PlainIsXmlName("think");
    TakeNameExact("think", ">" + rest);
  }

  lemma ThinkElementUnfold(s: string, start: nat)
    requires ThinkElementAt(s, start).Some?
    ensures var (end, element) := ThinkElementAt(s, start).value;
      && ElementEnd(s, start) == Some(end) && AllowedFrom(s[start..end], 0) && FromString(s[start..end]) == Some(element)
  {
    hide ElementEnd, AllowedFrom, FromString, StartsAt;
  }

  lemma BareTag()
    ensures THINK_START == "<" + "think" + ">" && TagTextOk("think")
    ensures ':' !in "think" && '}' !in "think"
  {
    hide TagTextOk;
    PlainToolCall();
    PlainNameOk("think");
    assert PieceOk(OpenTag("think"));
  }

  lemma PastThinkTag(s: string, start: nat, end: nat)
    requires StartsAt(s, start, THINK_START) && ElementEnd(s, start) == Some(end)
    ensures start + 7 < end && StartsAt(s[start..end], 0, THINK_START)
  {
    hide StartsAt, ElementEndFrom, TagTextOk;
    BareTag();
    EnterElement(s, start, "think");
    ThinkStartLength();
    SliceStarts(s, start, end, THINK_START);
  }

  lemma SliceStarts(s: string, start: nat, end: nat, lit: string)
    requires start + |lit| <= end <= |s| && StartsAt(s, start, lit)
    ensures StartsAt(s[start..end], 0, lit)
  {
    assert forall k :: 0 <= k < |lit| ==> s[start..end][k] == s[start + k];
  }

  lemma PrefixStarts(s: string, end: nat, i: nat, lit: string)
    requires end <= |s| && i + |lit| <= end
    ensures StartsAt(s[0..end], i, lit) <==> StartsAt(s, i, lit)
  {
    assert forall k :: i <= k < i + |lit| ==> s[0..end][k] == s[k];
  }

  /** Looking at such an element as an XML think block never raises. */
  lemma NoRaise(s: string, start: nat)
    requires StartsAt(s, start, THINK_START)
    ensures !ThinkRaises(s, start)
  {
    hide FromString, StartsAt, ThinkElementAt, Children, ParseContent, ParseEndTag;
    if ThinkElementAt(s, start).Some? {
      var (end, element) := ThinkElementAt(s, start).value;
      ThinkElementUnfold(s, start);
      PastThinkTag(s, start, end);
      ThinkDocument(s[start..end]);
      BareTag();
    }
  }

  // ---------------------------------------------------------------- a rendered think block in front

  lemma ThinkText(thinking: string)
    ensures Flat(ThinkPieces(thinking)) == THINK_START + RenderXmlString(thinking) + THINK_END
  {
    FlatThink(thinking);
  }

  lemma ThinkHere(s: string, think: string)
    requires StartsAt(s, 0, think) && StartsAt(think, 0, THINK_START)
    ensures StartsAt(s, 0, THINK_START) && StartsAt(s, 0, "<think") && OpensAt(ThinkOpener, s, 0)
    ensures !OpensAt(ToolOpener, s, 0) && !StartsAt(s, 0, TOOL_START)
    ensures |s| >= 7
  {
    hide NameAttributeFrom, StartsAt;
    Prefix(s, think, THINK_START);
    assert THINK_START == "<think" + ">";
    SplitAt(s, 0, "<think", ">");
    CharAt(s, 0, THINK_START, 6);
    CharAt(s, 0, THINK_START, 2);
    assert THINK_START[6] == '>' && THINK_START[2] == 'h';
    DiffersAt(s, 0, "<tool_call", 2);
    DiffersAt(s, 0, TOOL_START, 2);
  }

  lemma Prefix(s: string, t: string, lit: string)
    requires StartsAt(s, 0, t) && StartsAt(t, 0, lit)
    ensures StartsAt(s, 0, lit)
  {
  }

  lemma ThinkStarts(thinking: string)
    ensures StartsAt(Flat(ThinkPieces(thinking)), 0, THINK_START)
  {
    hide RenderXmlString, Flat, ThinkPieces;
    ThinkText(thinking);
    assert THINK_START + RenderXmlString(thinking) + THINK_END == THINK_START + (RenderXmlString(thinking) + THINK_END);
  }

  lemma ThinkElement(thinking: string)
    requires LegalText(Flat(ThinkPieces(thinking)))
    ensures FromString(Flat(ThinkPieces(thinking))) == Some(TextElement("think", NormalizeNewlines(thinking)))
  {
    hide *;
    var text := Flat(ThinkPieces(thinking));
    ThinkParses(thinking, "");
    assert text + "" == text;
    PlainText("think", NormalizeNewlines(thinking));
    WholeDocument(text, TextElement("think", NormalizeNewlines(thinking)));
  }

  lemma ThinkEndUnfold(s: string, end: nat, candidate: string, text: string)
    requires StartsAt(s, 0, "<think") && ElementEnd(s, 0) == Some(end) && end <= |s| && s[0..end] == candidate
    requires AllowedFrom(candidate, 0) && FromString(candidate) == Some(TextElement("think", text))
    ensures XmlThinkEnd(s, 0) == Some(end)
  {
    hide ElementEnd, AllowedFrom, FromString, Children, StartsAt;
    OneText(text);
  }

  /** The think finder accepts every rendered think block and ends where it ends. */
  lemma ThinkEndExact(s: string, thinking: string)
    requires StartsAt(s, 0, Flat(ThinkPieces(thinking))) && LegalText(Flat(ThinkPieces(thinking)))
    ensures |Flat(ThinkPieces(thinking))| <= |s| && s[0..|Flat(ThinkPieces(thinking))|] == Flat(ThinkPieces(thinking))
    ensures XmlThinkEnd(s, 0) == Some(|Flat(ThinkPieces(thinking))|)
  {
    hide *;
    var text := Flat(ThinkPieces(thinking));
    ThinkStarts(thinking);
    ThinkHere(s, text);
    ThinkBalanced(thinking);
    ElementEndExact(s, 0, ThinkPieces(thinking));
    BalancedOk(ThinkPieces(thinking));
    RejectorAcceptsPieces(ThinkPieces(thinking));
    ThinkElement(thinking);
    StartsIsSlice(s, 0, text);
    ThinkEndUnfold(s, |text|, text, NormalizeNewlines(thinking));
  }

  /** Only thinking printed as CDATA counts as an XML think block in a JSON payload. */
  lemma CDataThinkExact(s: string, thinking: string)
    requires StartsAt(s, 0, Flat(ThinkPieces(thinking))) && LegalText(Flat(ThinkPieces(thinking)))
    ensures CDataThinkEnd(s, 0) ==
      if Find(CDATA_END, thinking, 0) == -1 then Some(|Flat(ThinkPieces(thinking))|) else None
  {
    hide XmlThinkEnd, Flat, ThinkPieces, Find, EscapeXml, StartsAt;
    var text := Flat(ThinkPieces(thinking));
    ThinkEndExact(s, thinking);
    ThinkText(thinking);
    if Find(CDATA_END, thinking, 0) == -1 {
      SectionInside(thinking);
    } else {
      DecodeEscaped(thinking);
      NoSectionInside(EscapeXml(thinking));
    }
  }

  lemma SectionInside(t: string)
    ensures Find(CDATA_START, THINK_START + (CDATA_START + t + CDATA_END) + THINK_END, 0) != -1
  {
    hide Find;
    var s := THINK_START + (CDATA_START + t + CDATA_END) + THINK_END;
    assert StartsAt(s, 7, CDATA_START);
    NotFound(s, 7);
  }

  lemma NotFound(s: string, k: nat)
    requires StartsAt(s, k, CDATA_START)
    ensures Find(CDATA_START, s, 0) != -1
  {
    hide StartsAt;
  }

  lemma NoSectionInside(t: string)
    requires forall i :: 0 <= i < |t| ==> t[i] != '<'
    ensures Find(CDATA_START, THINK_START + t + THINK_END, 0) == -1
  {
    hide Find;
    var s := THINK_START + t + THINK_END;
    forall k: nat ensures !StartsAt(s, k, CDATA_START) {
      FirstTwo(s, k, CDATA_START);
      if k + 1 < |s| && s[k] == '<' {
        assert k == 0 || k == 7 + |t|;
        assert s[1] == THINK_START[1] && s[8 + |t|] == THINK_END[1];
      }
    }
    NeverFound(s);
  }

  lemma NeverFound(s: string)
    requires forall k: nat :: !StartsAt(s, k, CDATA_START)
    ensures Find(CDATA_START, s, 0) == -1
  {
    hide StartsAt;
  }

  lemma ThinkRegion(s: string, end: nat)
    requires StartsAt(s, 0, THINK_START) && OpensAt(ThinkOpener, s, 0) && !OpensAt(ToolOpener, s, 0) && |s| > 0
    ensures CDataThinkEnd(s, 0) == Some(end) ==> XmlThinkRegion(s, 0) == Some((0, end))
    ensures CDataThinkEnd(s, 0) == None ==> XmlThinkRegion(s, 0) == None && XmlToolRegion(s, 0) == None
    ensures !ThinkRefused(s, 0) && !ToolsRefused(s, 0)
  {
    hide OpensAt, StartsAt, CDataThinkEnd, ToolCallsEnd, ToolCallsRaise, ThinkRaises;
    NoRaise(s, 0);
    assert Search(ThinkOpener, s, 0) == 0 && Find(THINK_START, s, 0) == 0;
    assert Search(ToolOpener, s, 0) != 0;
  }

  lemma SkipThinkFails(s: string, end: nat, turn: Turn)
    requires 0 < end < |s| && StartsAt(s, end, CALL_HEAD)
    ensures SkipXmlThink(s, 0, 0, end, turn) == Fail(MixedPayload)
  {
    hide OpensAt, StartsAt, IsSpace;
    OpenerHere(s, end);
    assert Search(ToolOpener, s, end) == end;
    assert Find(THINK_START, s, end) != end && Find(TOOL_START, s, end) != end;
    assert s[0..0] == "" && s[end..end] == "";
  }

  lemma StepOnThink(s: string, end: nat, turn: Turn, maxCalls: int)
    requires 0 < end <= |s| && XmlThinkRegion(s, 0) == Some((0, end)) && !ThinkRefused(s, 0)
    ensures DualStep(s, 0, turn, maxCalls) == SkipXmlThink(s, 0, 0, end, turn)
  {
    hide XmlThinkRegion, SkipXmlThink, ThinkRefused;
  }

  lemma StepOnBlock(s: string, cursor: nat, turn: Turn, maxCalls: int)
    requires XmlThinkRegion(s, cursor) == None && XmlToolRegion(s, cursor) == None
    requires !ThinkRefused(s, cursor) && !ToolsRefused(s, cursor)
    ensures DualStep(s, cursor, turn, maxCalls) == JsonBlockStep(s, cursor, turn, maxCalls)
  {
    hide XmlThinkRegion, XmlToolRegion, JsonBlockStep, ThinkRefused, ToolsRefused;
  }

  lemma BlockIsThink(s: string, turn: Turn, maxCalls: int)
    requires StartsAt(s, 0, THINK_START) && CDataThinkEnd(s, 0) == None && !StartsAt(s, 0, TOOL_START)
    ensures JsonBlockStep(s, 0, turn, maxCalls) == ThinkBlock(s, 0, turn)
  {
    hide StartsAt, CDataThinkEnd, ThinkBlock, ToolBlock, ThinkRaises;
    NoRaise(s, 0);
    assert Find(THINK_START, s, 0) == 0 && Find(TOOL_START, s, 0) != 0;
  }

  /** A think block that is not an XML one is read as JSON thinking, whatever it contains. */
  lemma ThinkStep(s: string, maxCalls: int)
    requires StartsAt(s, 0, THINK_START) && CDataThinkEnd(s, 0) == None
    ensures DualStep(s, 0, START, maxCalls) == ThinkBlock(s, 0, START)
  {
    hide *;
    ThinkOpens(s);
    ThinkRegion(s, 0);
    StepOnBlock(s, 0, START, maxCalls);
    BlockIsThink(s, START, maxCalls);
  }

  lemma ThinkOpens(s: string)
    requires StartsAt(s, 0, THINK_START)
    ensures OpensAt(ThinkOpener, s, 0) && !OpensAt(ToolOpener, s, 0) && !StartsAt(s, 0, TOOL_START) && |s| > 0
  {
    hide StartsAt, NameAttributeFrom;
    SelfStart(THINK_START);
    ThinkHere(s, THINK_START);
  }

  lemma SelfStart(t: string)
    ensures StartsAt(t, 0, t)
  {
  }

  /** Text without `<` between the think tags ends where the first end tag stands. */
  lemma ThinkBlockExact(s: string, inner: string)
    requires StartsAt(s, 0, THINK_START + inner + THINK_END)
    requires Find(THINK_END, inner, 0) == -1
    ensures StartsAt(s, 0, THINK_START)
    ensures ThinkBlock(s, 0, START) ==
      Continue(|THINK_START + inner + THINK_END|, Turn(StrippedOrNone(inner), true, []))
  {
    hide StrippedOrNone, StartsAt, Find;
    SplitAt(s, 0, THINK_START + inner, THINK_END);
    SplitAt(s, 0, THINK_START, inner);
    EndTagFound(s, inner);
    StartsIsSlice(s, 7, inner);
  }

  lemma EndTagFound(s: string, inner: string)
    requires StartsAt(s, 7, inner) && StartsAt(s, 7 + |inner|, THINK_END) && Find(THINK_END, inner, 0) == -1
    ensures Find(THINK_END, s, 7) == 7 + |inner|
  {
    forall k | 7 <= k < 7 + |inner| ensures !StartsAt(s, k, THINK_END) {
      if k + 8 <= 7 + |inner| {
        StartsInside(s, 7, inner, k - 7, THINK_END);
      } else {
        var j := 7 + |inner| - k;
        assert s[k + j] == THINK_END[0] && 0 < j < 8;
        OneAngle(j);
        DiffersAt(s, k, THINK_END, j);
      }
    }
  }

  lemma OneAngle(j: nat)
    requires 0 < j < 8
    ensures THINK_END[j] != '<'
  {
  }

  lemma NoEndTag(t: string)
    requires forall i :: 0 <= i < |t| ==> t[i] != '<'
    ensures Find(THINK_END, t, 0) == -1
  {
    forall k: nat | k < |t| ensures !StartsAt(t, k, THINK_END) {
      NotStarting(t, k, THINK_END);
    }
  }

  // ---------------------------------------------------------------- the whole payload

  lemma DualUnfold(s: string, cursor: nat, turn: Turn, maxCalls: int)
    requires cursor < |s|
    ensures DualFrom(s, cursor, turn, maxCalls) ==
      match DualStep(s, cursor, turn, maxCalls)
      case Stop => Finish(turn)
      case Fail(error) => Err(error)
      case Continue(next, newTurn) => DualFrom(s, next, newTurn, maxCalls)
  {
    hide DualStep, Finish;
  }

  /** The XML-aware JSON parser refuses every rendered XML payload as mixed, whatever its strings contain. */
  lemma DualRefusesXml(e: Envelope, maxCalls: int)
    requires ValidEnvelope(e) && TypedCalls(e.calls) && LegalText(Flat(EnvelopePieces(e))) && maxCalls >= 1
    ensures ParseJsonDual(Flat(EnvelopePieces(e)), maxCalls) == Err(MixedPayload)
  {
    hide *;
    var s, tail := Flat(EnvelopePieces(e)), Flat(CallsPieces(e.calls));
    ParseDualUnfold(s, maxCalls);
    HasCalls(e);
    EnvelopeText(e);
    if e.thinking.Some? {
      var think := Flat(ThinkPieces(e.thinking.value));
      LegalConcat(think, tail);
      Placed("", think, tail);
      Placed(think, tail, "");
      assert "" + think == think && think + tail + "" == think + tail;
      ThinkThenCalls(s, e.thinking.value, e.calls, maxCalls);
    } else {
      Placed("", tail, "");
      assert "" + tail == tail && tail + "" == tail;
      CallsStepFails(s, 0, e.calls, START, maxCalls);
      DualUnfold(s, 0, START, maxCalls);
    }
  }

  lemma ParseDualUnfold(s: string, maxCalls: int)
    ensures ParseJsonDual(s, maxCalls) == if maxCalls < 1 then Err(BadLimit) else DualFrom(s, 0, START, maxCalls)
  {
    hide DualFrom;
  }

  lemma EnvelopeText(e: Envelope)
    requires ValidEnvelope(e) && TypedCalls(e.calls)
    ensures Flat(EnvelopePieces(e)) ==
      (if e.thinking.Some? then Flat(ThinkPieces(e.thinking.value)) else "") + Flat(CallsPieces(e.calls))
  {
    hide Flat, ThinkPieces, CallsPieces, TypedCalls;
    if e.thinking.Some? {
      FlatConcat(ThinkPieces(e.thinking.value), CallsPieces(e.calls));
    } else {
      assert EnvelopePieces(e) == CallsPieces(e.calls);
      assert forall t: string :: "" + t == t;
    }
  }

  lemma ThinkThenCalls(s: string, thinking: string, calls: seq<ToolCall>, maxCalls: int)
    requires TypedCalls(calls) && calls != []
    requires StartsAt(s, 0, Flat(ThinkPieces(thinking))) && LegalText(Flat(ThinkPieces(thinking)))
    requires StartsAt(s, |Flat(ThinkPieces(thinking))|, Flat(CallsPieces(calls))) && LegalText(Flat(CallsPieces(calls)))
    requires |Flat(ThinkPieces(thinking))| + |Flat(CallsPieces(calls))| == |s|
    ensures DualFrom(s, 0, START, maxCalls) == Err(MixedPayload)
  {
    hide *;
    var think, tail := Flat(ThinkPieces(thinking)), Flat(CallsPieces(calls));
    ThinkStarts(thinking);
    ThinkHere(s, think);
    WithinLength(think, 0, THINK_START);
    CallsStart(calls);
    HeadInside(s, |think|, tail);
    OpenerHere(s, |think|);
    CDataThinkExact(s, thinking);
    DualUnfold(s, 0, START, maxCalls);
    ThinkStartLength();
    if Find(CDATA_END, thinking, 0) == -1 {
      ThinkRegion(s, |think|);
      StepOnThink(s, |think|, START, maxCalls);
      SkipThinkFails(s, |think|, START);
    } else {
      DecodeEscaped(thinking);
      NoEndTag(EscapeXml(thinking));
      ThinkStep(s, maxCalls);
      EscapedThink(thinking);
      ThinkBlockExact(s, EscapeXml(thinking));
      var next := Turn(StrippedOrNone(EscapeXml(thinking)), true, []);
      DualUnfold(s, |think|, next, maxCalls);
      CallsStepFails(s, |think|, calls, next, maxCalls);
    }
  }

  lemma ThinkStartLength()
    ensures |THINK_START| == 7
  {
  }

  lemma EscapedThink(thinking: string)
    requires Find(CDATA_END, thinking, 0) != -1
    ensures Flat(ThinkPieces(thinking)) == THINK_START + EscapeXml(thinking) + THINK_END
  {
    hide Flat, ThinkPieces, Find, EscapeXml;
    ThinkText(thinking);
  }
}
