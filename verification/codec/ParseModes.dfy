/** What each parse mode returns, in terms of the two parsers it may call. */
module ParseModes {
  import opened Text
  import opened JsonCodec
  import opened Contracts
  import opened XmlTree
  import opened ActionRender
  import opened ElementScanner
  import opened ScannerExact
  import opened RenderPieces
  import opened ActionParse
  import opened XmlFaithful
  import opened DualOnXml
  import opened DualOnJson
  import opened XmlOnJson
  import opened DualRoundTrip

  // ---------------------------------------------------------------- every payload

  /** An XML tool-call opener stands before every JSON one. */
  ghost predicate XmlAhead(s: string) {
    exists i: nat :: OpensAt(ToolOpener, s, i) && forall k: nat :: k < i ==> !StartsAt(s, k, TOOL_START)
  }

  /** _detect_payload_format_hint */
  lemma HintExact(s: string)
    ensures FormatHint(s) == XmlFormat <==> XmlAhead(s)
  {
    hide OpensAt, StartsAt;
    var json, xml := Find(TOOL_START, s, 0), Search(ToolOpener, s, 0);
    if XmlAhead(s) {
      var i: nat :| OpensAt(ToolOpener, s, i) && forall k: nat :: k < i ==> !StartsAt(s, k, TOOL_START);
      assert xml != -1 && xml <= i;
    }
    if FormatHint(s) == XmlFormat {
      assert OpensAt(ToolOpener, s, xml) && forall k: nat :: k < xml ==> !StartsAt(s, k, TOOL_START);
    }
  }

  /** json_only gives what the JSON parser gives, and xml_only what the XML parser gives, with that format. */
  lemma OneFormat(s: string, maxCalls: int, e: Envelope, format: Format)
    ensures ParsePayload(s, JsonOnly, maxCalls) == Action(e, format) <==>
      format == JsonFormat && ParseJsonDual(s, maxCalls) == Ok(e)
    ensures ParsePayload(s, XmlOnly, maxCalls) == Action(e, format) <==> format == XmlFormat && ParseXml(s, maxCalls) == Ok(e)
  {
    hide ParseJsonDual, ParseXml;
  }

  lemma OneFormatError(s: string, maxCalls: int, error: ParseError)
    ensures ParsePayload(s, JsonOnly, maxCalls) == Failed(error) <==> ParseJsonDual(s, maxCalls) == Err(error)
    ensures ParsePayload(s, XmlOnly, maxCalls) == Failed(error) <==> ParseXml(s, maxCalls) == Err(error)
  {
    hide ParseJsonDual, ParseXml;
  }

  /** The dual mode returns the envelope of a parser that accepts, and of the hinted one when both do. */
  lemma DualFormat(s: string, maxCalls: int, e: Envelope, format: Format)
    ensures ParsePayload(s, Dual, maxCalls) == Action(e, format) <==>
      if format == JsonFormat then ParseJsonDual(s, maxCalls) == Ok(e) && (ParseXml(s, maxCalls).Err? || !XmlAhead(s))
      else ParseXml(s, maxCalls) == Ok(e) && (ParseJsonDual(s, maxCalls).Err? || XmlAhead(s))
  {
    hide *;
    HintExact(s);
    ParserLimits(s, maxCalls);
    DualCases(s, maxCalls);
  }

  /** It fails exactly when both parsers do, with the hinted one's error. */
  lemma DualError(s: string, maxCalls: int, error: ParseError)
    ensures ParsePayload(s, Dual, maxCalls) == Failed(error) <==>
      && ParseJsonDual(s, maxCalls).Err? && ParseXml(s, maxCalls).Err?
      && error == (if XmlAhead(s) then ParseXml(s, maxCalls).error else ParseJsonDual(s, maxCalls).error)
  {
    hide *;
    HintExact(s);
    ParserLimits(s, maxCalls);
    DualCases(s, maxCalls);
  }

  /** A limit below one is refused by both parsers, and by nothing else. */
  lemma ParserLimits(s: string, maxCalls: int)
    ensures ParseJsonDual(s, maxCalls) == Err(BadLimit) <==> maxCalls < 1
    ensures ParseXml(s, maxCalls) == Err(BadLimit) <==> maxCalls < 1
  {
    hide DualFrom, AllowedFrom, FromString, XmlFold, DirectText, Children;
    if maxCalls >= 1 {
      NoLimitError(s, maxCalls);
    }
  }

  lemma DualCases(s: string, maxCalls: int)
    ensures var json, xml := ParseJsonDual(s, maxCalls), ParseXml(s, maxCalls);
      var (first, second) := if FormatHint(s) == XmlFormat then (xml, json) else (json, xml);
      var (hinted, other) := if FormatHint(s) == XmlFormat then (XmlFormat, JsonFormat) else (JsonFormat, XmlFormat);
      ParsePayload(s, Dual, maxCalls) ==
        if first.Ok? then Action(first.envelope, hinted)
        else if first.error != BadLimit && second.Ok? then Action(second.envelope, other)
        else Failed(first.error)
  {
    hide ParseJsonDual, ParseXml, FormatHint;
  }

  // ---------------------------------------------------------------- every envelope that is accepted

  lemma ToolWithin(s: string, start: nat, turn: Turn, maxCalls: int)
    requires StartsAt(s, start, TOOL_START) && ToolBlock(s, start, turn, maxCalls).Continue?
    ensures |ToolBlock(s, start, turn, maxCalls).turn.calls| <= maxCalls
  {
    hide StartsAt, ReadValue, SkipSpaces, MakeToolCall, SubmitAlone;
  }

  lemma BlockWithin(s: string, cursor: nat, turn: Turn, maxCalls: int)
    requires |turn.calls| <= maxCalls && JsonBlockStep(s, cursor, turn, maxCalls).Continue?
    ensures |JsonBlockStep(s, cursor, turn, maxCalls).turn.calls| <= maxCalls
  {
    hide StartsAt, ToolBlock, CDataThinkEnd, ThinkRaises;
    var think, tool := Find(THINK_START, s, cursor), Find(TOOL_START, s, cursor);
    if !(think != -1 && (tool == -1 || think < tool)) {
      ToolWithin(s, tool, turn, maxCalls);
    }
  }

  lemma StepWithin(s: string, cursor: nat, turn: Turn, maxCalls: int)
    requires |turn.calls| <= maxCalls && DualStep(s, cursor, turn, maxCalls).Continue?
    ensures |DualStep(s, cursor, turn, maxCalls).turn.calls| <= maxCalls
  {
    hide JsonBlockStep, XmlThinkRegion, XmlToolRegion, ThinkRefused, ToolsRefused, BlankRaises, BlankOrXmlThink, Find, Search;
    if XmlThinkRegion(s, cursor).None? && XmlToolRegion(s, cursor).None? {
      BlockWithin(s, cursor, turn, maxCalls);
    }
  }

  lemma {:induction false} DualWithin(s: string, cursor: nat, turn: Turn, maxCalls: int)
    requires |turn.calls| <= maxCalls
    ensures var r := DualFrom(s, cursor, turn, maxCalls); r.Ok? ==> ValidEnvelope(r.envelope) && |r.envelope.calls| <= maxCalls
    decreases |s| - cursor
  {
    hide DualStep, ValidEnvelope;
    if cursor < |s| {
      match DualStep(s, cursor, turn, maxCalls)
      case Stop =>
      case Fail(_) =>
      case Continue(next, newTurn) =>
        StepWithin(s, cursor, turn, maxCalls);
        DualWithin(s, next, newTurn, maxCalls);
    }
  }

  lemma {:induction false} FoldWithin(children: seq<Element>, turn: Turn, maxCalls: int)
    requires |turn.calls| <= maxCalls
    ensures var r := XmlFold(children, turn, maxCalls); r.Ok? ==> ValidEnvelope(r.envelope) && |r.envelope.calls| <= maxCalls
    decreases |children|
  {
    hide ValidEnvelope, XmlToolCall, SubmitAlone, Children, DirectText;
    if children != [] && XmlChild(children[0], turn, maxCalls).Some? {
      FoldWithin(children[1..], XmlChild(children[0], turn, maxCalls).value, maxCalls);
    }
  }

  /** Whatever the payload and the mode: an envelope that is returned has calls, has a submit only alone, has no blank
      thinking, and keeps the limit. */
  lemma AcceptedIsValid(s: string, mode: Mode, maxCalls: int)
    ensures var r := ParsePayload(s, mode, maxCalls);
      r.Action? ==> ValidEnvelope(r.envelope) && 1 <= |r.envelope.calls| <= maxCalls
  {
    hide DualFrom, XmlFold, ValidEnvelope, AllowedFrom, FromString, DirectText, Children, FormatHint;
    if maxCalls >= 1 {
      DualWithin(s, 0, START, maxCalls);
      forall children ensures var r := XmlFold(children, START, maxCalls);
        r.Ok? ==> ValidEnvelope(r.envelope) && |r.envelope.calls| <= maxCalls
      {
        FoldWithin(children, START, maxCalls);
      }
    }
    var r := ParsePayload(s, mode, maxCalls);
    if r.Action? {
      HasCalls(r.envelope);
    }
  }

  // ---------------------------------------------------------------- printed payloads

  /** Rendered as JSON, json_only returns the envelope under the exact condition of the JSON parser, and xml_only
      fails. */
  lemma JsonModesExact(e: Envelope, compact: bool, maxCalls: int)
    requires ValidEnvelope(e)
    ensures Render(e, JsonFormat, compact).Some?
    ensures var s := Render(e, JsonFormat, compact).value;
      && (ParsePayload(s, JsonOnly, maxCalls) == Action(e, JsonFormat) <==>
            CDataThinkEnd(s, 0) == None && Readable(e.thinking) && |e.calls| <= maxCalls)
      && ParsePayload(s, XmlOnly, maxCalls).Failed?
  {
    hide *;
    RenderIsText(e, compact);
    var s := JsonText(e, compact);
    OneFormat(s, maxCalls, e, JsonFormat);
    DualJsonExact(e, compact, maxCalls);
    XmlRefusesJson(e, compact, maxCalls);
    OneFormatError(s, maxCalls, ParseXml(s, maxCalls).error);
  }

  /** Rendered as XML, xml_only returns the envelope exactly when XML can carry it unchanged and the limit allows its
      calls, and json_only fails on legal characters. */
  lemma XmlModesExact(e: Envelope, compact: bool, maxCalls: int)
    requires ValidEnvelope(e) && TypedCalls(e.calls)
    ensures Render(e, XmlFormat, compact).Some?
    ensures var s := Render(e, XmlFormat, compact).value;
      && (ParsePayload(s, XmlOnly, maxCalls) == Action(e, XmlFormat) <==>
            LegalStrings(e) && Faithful(e) && |e.calls| <= maxCalls)
      && (LegalStrings(e) && maxCalls >= 1 ==> ParsePayload(s, JsonOnly, maxCalls) == Failed(MixedPayload))
  {
    hide *;
    RenderIsPieces(e, compact);
    var s := Flat(EnvelopePieces(e));
    OneFormat(s, maxCalls, e, XmlFormat);
    XmlRoundTripExact(e, compact, maxCalls);
    LegalEnvelope(e);
    if LegalStrings(e) && maxCalls >= 1 {
      DualRefusesXml(e, maxCalls);
      OneFormatError(s, maxCalls, MixedPayload);
    }
  }
}
