/** The dual mode reads back exactly what was rendered. */
module DualRoundTrip {
  import opened Text
  import opened JsonCodec
  import opened Contracts
  import opened XmlTree
  import opened ActionRender
  import opened ElementScanner
  import opened ScannerExact
  import opened RejectorAccepts
  import opened RenderPieces
  import opened ActionParse
  import opened XmlFaithful
  import opened DualOnXml
  import opened DualOnJson
  import opened CDataGuard
  import opened XmlOnJson

  /** The format that is tried second. */
  function Other(format: Format): Format {
    if format.JsonFormat? then XmlFormat else JsonFormat
  }

  lemma DualUnfolds(s: string, maxCalls: int)
    ensures ParsePayload(s, Dual, maxCalls) ==
      var first := ParseAs(s, FormatHint(s), maxCalls);
      if first.Action? || first.error == BadLimit then first
      else
        var second := ParseAs(s, Other(FormatHint(s)), maxCalls);
        if second.Action? then second else first
  {
    hide ParseAs, FormatHint;
  }

  lemma OnlyOneFormat(s: string, format: Format, maxCalls: int, e: Envelope)
    requires maxCalls >= 1
    requires ParseAs(s, Other(format), maxCalls).Failed? || ParseAs(s, format, maxCalls) != Action(e, format)
    ensures ParsePayload(s, Dual, maxCalls) == Action(e, format) <==> ParseAs(s, format, maxCalls) == Action(e, format)
  {
    hide ParseJsonDual, ParseXml, FormatHint;
    NoLimitError(s, maxCalls);
    DualUnfolds(s, maxCalls);
  }

  lemma NoLimitError(s: string, maxCalls: int)
    requires maxCalls >= 1
    ensures ParseJsonDual(s, maxCalls) != Err(BadLimit) && ParseXml(s, maxCalls) != Err(BadLimit)
  {
    hide AllowedFrom, FromString, DirectText, Children;
    DualNoLimit(s, 0, START, maxCalls);
    forall children ensures XmlFold(children, START, maxCalls) != Err(BadLimit) {
      FoldNoLimit(children, START, maxCalls);
    }
  }

  lemma {:induction false} DualNoLimit(s: string, cursor: nat, turn: Turn, maxCalls: int)
    ensures DualFrom(s, cursor, turn, maxCalls) != Err(BadLimit)
    decreases |s| - cursor
  {
    hide DualStep, MakeEnvelope;
    if cursor < |s| {
      StepNoLimit(s, cursor, turn, maxCalls);
      match DualStep(s, cursor, turn, maxCalls)
      case Stop =>
      case Fail(_) =>
      case Continue(next, newTurn) => DualNoLimit(s, next, newTurn, maxCalls);
    }
  }

  lemma StepNoLimit(s: string, cursor: nat, turn: Turn, maxCalls: int)
    ensures DualStep(s, cursor, turn, maxCalls) != Fail(BadLimit)
  {
    hide Find, Search, StartsAt, ReadValue, SkipSpaces, MakeToolCall, AddCall, XmlThinkRegion, XmlToolRegion,
      CDataThinkEnd, BlankOrXmlThink;
  }

  lemma {:induction false} FoldNoLimit(children: seq<Element>, turn: Turn, maxCalls: int)
    ensures XmlFold(children, turn, maxCalls) != Err(BadLimit)
    decreases |children|
  {
    hide XmlChild, MakeEnvelope;
    if children != [] && XmlChild(children[0], turn, maxCalls).Some? {
      FoldNoLimit(children[1..], XmlChild(children[0], turn, maxCalls).value, maxCalls);
    }
  }

  lemma BadLimitFirst(s: string, maxCalls: int)
    requires maxCalls < 1
    ensures ParsePayload(s, Dual, maxCalls) == Failed(BadLimit)
  {
    hide FormatHint, DualFrom;
    DualUnfolds(s, maxCalls);
  }

  /** Rendered as XML, a typed envelope comes back from the dual mode as itself and as XML exactly when XML can
      carry it unchanged and the limit allows its calls, whatever delimiters its strings contain and whichever
      format they make the hint point to. */
  lemma XmlDualExact(e: Envelope, compact: bool, maxCalls: int)
    requires ValidEnvelope(e) && TypedCalls(e.calls)
    ensures Render(e, XmlFormat, compact).Some?
    ensures ParsePayload(Render(e, XmlFormat, compact).value, Dual, maxCalls) == Action(e, XmlFormat) <==>
      LegalStrings(e) && Faithful(e) && |e.calls| <= maxCalls
  {
    hide *;
    RenderIsPieces(e, compact);
    XmlRoundTripExact(e, compact, maxCalls);
    HasCalls(e);
    var s := Flat(EnvelopePieces(e));
    AsXml(s, maxCalls, e);
    if maxCalls < 1 {
      BadLimitFirst(s, maxCalls);
    } else {
      LegalEnvelope(e);
      if LegalStrings(e) {
        DualRefusesXml(e, maxCalls);
        AsJson(s, maxCalls, e);
      }
      OnlyOneFormat(s, XmlFormat, maxCalls, e);
    }
  }

  lemma AsXml(s: string, maxCalls: int, e: Envelope)
    ensures ParseAs(s, XmlFormat, maxCalls) == Action(e, XmlFormat) <==> ParseXml(s, maxCalls) == Ok(e)
    ensures ParseXml(s, maxCalls).Err? ==> ParseAs(s, Other(JsonFormat), maxCalls).Failed?
  {
    hide ParseXml;
  }

  lemma AsJson(s: string, maxCalls: int, e: Envelope)
    ensures ParseAs(s, JsonFormat, maxCalls) == Action(e, JsonFormat) <==> ParseJsonDual(s, maxCalls) == Ok(e)
    ensures ParseJsonDual(s, maxCalls).Err? ==> ParseAs(s, Other(XmlFormat), maxCalls).Failed?
  {
    hide ParseJsonDual;
  }

  /** Rendered as JSON, an envelope comes back from the dual mode as itself and as JSON exactly when the payload does
      not begin with an XML think block that has a CDATA section, its thinking is stripped and free of the end tag,
      and the limit allows its calls. Arguments may be of any JSON type and contain anything. */
  lemma JsonDualExact(e: Envelope, compact: bool, maxCalls: int)
    requires ValidEnvelope(e)
    ensures Render(e, JsonFormat, compact).Some?
    ensures ParsePayload(Render(e, JsonFormat, compact).value, Dual, maxCalls) == Action(e, JsonFormat) <==>
      CDataThinkEnd(Render(e, JsonFormat, compact).value, 0) == None && Readable(e.thinking) && |e.calls| <= maxCalls
  {
    hide *;
    RenderIsText(e, compact);
    HasCalls(e);
    var s := JsonText(e, compact);
    AsJson(s, maxCalls, e);
    AsXml(s, maxCalls, e);
    DualJsonExact(e, compact, maxCalls);
    if maxCalls < 1 {
      BadLimitFirst(s, maxCalls);
    } else {
      XmlRefusesJson(e, compact, maxCalls);
      OnlyOneFormat(s, JsonFormat, maxCalls, e);
    }
  }

  /** In particular, thinking without a CDATA opener needs no look at the payload. */
  lemma JsonDualWithoutCData(e: Envelope, compact: bool, maxCalls: int)
    requires ValidEnvelope(e) && (e.thinking.Some? ==> Find(CDATA_START, e.thinking.value, 0) == -1)
    ensures Render(e, JsonFormat, compact).Some?
    ensures ParsePayload(Render(e, JsonFormat, compact).value, Dual, maxCalls) == Action(e, JsonFormat) <==>
      Readable(e.thinking) && |e.calls| <= maxCalls
  {
    hide *;
    RenderIsText(e, compact);
    GuardHolds(e, compact);
    JsonDualExact(e, compact, maxCalls);
  }

  // ---------------------------------------------------------------- thinking that reads as an XML think block

  lemma SkipThinkBeforeBlock(s: string, end: nat, turn: Turn)
    requires 0 < end < |s| && StartsAt(s, end, TOOL_START)
    ensures SkipXmlThink(s, 0, 0, end, turn) == Fail(MixedPayload)
  {
    hide OpensAt, StartsAt, IsSpace;
    BlockOpens(s, end);
    assert Find(TOOL_START, s, end) == end;
    assert Find(THINK_START, s, end) != end && Search(ToolOpener, s, end) != end;
    assert s[0..0] == "" && s[end..end] == "";
  }

  lemma FirstBlockStands(e: Envelope, compact: bool)
    requires ValidEnvelope(e) && e.thinking.Some?
    ensures var end := |THINK_START + e.thinking.value + THINK_END|;
      0 < end < |JsonText(e, compact)| && StartsAt(JsonText(e, compact), end, TOOL_START)
    ensures StartsAt(JsonText(e, compact), 0, THINK_START + e.thinking.value + THINK_END)
    ensures StartsAt(JsonText(e, compact), 0, THINK_START)
  {
    hide JsonBlocks, StartsAt, SubmitAlone;
    var think, blocks := THINK_START + e.thinking.value + THINK_END, JsonBlocks(e.calls, compact);
    BlocksStart(e.calls, compact);
    WithinLength(blocks, 0, TOOL_START);
    StandsAfter(think, blocks, TOOL_START);
    StandsFirst(think, blocks);
    ThinkParts(e.thinking.value, blocks);
  }

  /** When ElementTree reads the printed JSON think block as an XML one with CDATA in it, the dual mode refuses
      the payload. */
  lemma ThinkTakenForXml(e: Envelope, compact: bool, maxCalls: int)
    requires ValidEnvelope(e) && e.thinking.Some?
    requires CDataThinkEnd(JsonText(e, compact), 0) == Some(|THINK_START + e.thinking.value + THINK_END|)
    ensures ParsePayload(JsonText(e, compact), Dual, maxCalls).Failed?
  {
    hide *;
    var s := JsonText(e, compact);
    var end := |THINK_START + e.thinking.value + THINK_END|;
    FirstBlockStands(e, compact);
    ThinkOpens(s);
    ThinkRegion(s, end);
    StepOnThink(s, end, START, maxCalls);
    SkipThinkBeforeBlock(s, end, START);
    DualUnfold(s, 0, START, maxCalls);
    ParseDualUnfold(s, maxCalls);
    XmlRefusesJson(e, compact, maxCalls);
    BothFail(s, maxCalls);
  }

  lemma BothFail(s: string, maxCalls: int)
    requires ParseJsonDual(s, maxCalls).Err? && ParseXml(s, maxCalls).Err?
    ensures ParsePayload(s, Dual, maxCalls).Failed?
  {
    hide ParseJsonDual, ParseXml, FormatHint;
  }
}
