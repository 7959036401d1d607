/** Assistant text as a ChatML turn or a bare payload. */
module ChatTurn {
  import opened Text
  import opened Contracts
  import opened ActionRender
  import opened ScannerExact
  import opened RejectorAccepts
  import opened RenderPieces
  import opened ActionParse
  import opened XmlFaithful
  import opened DualOnXml
  import opened DualOnJson
  import opened XmlOnJson
  import opened DualRoundTrip
  import opened ParseModes

  const ASSISTANT := "<|im_start|>assistant"
  const TURN_END := "<|im_end|>"

  /** extract_chatml_assistant_payload; None is its error. */
  function ExtractPayload(text: string): Option<string> {
    var t := Strip(text);
    if !StartsAt(t, 0, ASSISTANT) || |t| < |TURN_END| || t[|t| - |TURN_END|..] != TURN_END then None
    else if |t| - |TURN_END| < |ASSISTANT| then None
    else Some(Strip(DropNewlines(t[|ASSISTANT|..|t| - |TURN_END|])))
  }

  /** parse_assistant_text_result */
  function ParseText(text: string, mode: Mode, maxCalls: int): ParsedAction {
    var t := Strip(text);
    if StartsAt(t, 0, ASSISTANT) then
      match ExtractPayload(t)
      case None => Failed(Malformed)
      case Some(payload) => ParsePayload(payload, mode, maxCalls)
    else ParsePayload(t, mode, maxCalls)
  }

  /** The turn a chat template renders around a payload. */
  function Wrap(payload: string): string {
    ASSISTANT + ("\n" + payload) + TURN_END
  }

  /** A payload in angle brackets, as both formats print it. */
  predicate Bracketed(payload: string) {
    payload != "" && payload[0] == '<' && payload[|payload| - 1] == '>' && !StartsAt(payload, 0, ASSISTANT)
  }

  lemma WrapParts(payload: string)
    ensures var t := Wrap(payload);
      && t[0] == '<' && t[|t| - 1] == '>' && |t| >= |ASSISTANT| + |TURN_END| && StartsAt(t, 0, ASSISTANT)
      && t[|t| - |TURN_END|..] == TURN_END && t[|ASSISTANT|..|t| - |TURN_END|] == "\n" + payload
  {
    var a, b := ASSISTANT, TURN_END;
    assert |a| == 21 && a[0] == '<' && |b| == 10 && b[9] == '>';
  }

  /** The payload comes back out of the turn. */
  lemma Extracted(payload: string)
    requires Bracketed(payload)
    ensures Strip(Wrap(payload)) == Wrap(payload) && ExtractPayload(Wrap(payload)) == Some(payload)
  {
    hide Strip, StartsAt, Wrap;
    WrapParts(payload);
    AnglesStripped(Wrap(payload));
    AnglesStripped(payload);
    assert ("\n" + payload)[1..] == payload;
    assert DropNewlines("\n" + payload) == DropNewlines(payload) == payload;
  }

  /** A bracketed payload is parsed alike bare and inside a ChatML turn. */
  lemma WrappedIsBare(payload: string, mode: Mode, maxCalls: int)
    requires Bracketed(payload)
    ensures ParseText(payload, mode, maxCalls) == ParsePayload(payload, mode, maxCalls)
    ensures ParseText(Wrap(payload), mode, maxCalls) == ParsePayload(payload, mode, maxCalls)
  {
    hide Strip, StartsAt, Wrap, ExtractPayload, ParsePayload;
    WrapParts(payload);
    Extracted(payload);
    AnglesStripped(payload);
  }

  /** Text around a body, from the assistant's opener to the end marker. */
  predicate IsTurn(t: string, body: string) {
    t == ASSISTANT + body + TURN_END
  }

  lemma TurnBody(t: string, body: string)
    requires IsTurn(t, body)
    ensures StartsAt(t, 0, ASSISTANT) && |t| >= |ASSISTANT| + |TURN_END|
    ensures t[|t| - |TURN_END|..] == TURN_END && t[|ASSISTANT|..|t| - |TURN_END|] == body
  {
    var a, b := ASSISTANT, TURN_END;
    assert t == a + (body + b);
  }

  lemma BodyOfTurn(t: string)
    requires StartsAt(t, 0, ASSISTANT) && |t| >= |ASSISTANT| + |TURN_END| && t[|t| - |TURN_END|..] == TURN_END
    ensures IsTurn(t, t[|ASSISTANT|..|t| - |TURN_END|])
  {
    var a, b := ASSISTANT, TURN_END;
    StartsIsSlice(t, 0, a);
    var cut := |t| - |b|;
    assert t == t[..|a|] + t[|a|..cut] + t[cut..];
  }

  /** What is parsed of any text, in every mode: a turn's body, or a text that is not a turn as it is; a turn without
      its end marker is refused. */
  lemma TextExact(text: string, body: string, mode: Mode, maxCalls: int)
    ensures var t := Strip(text);
      && (IsTurn(t, body) ==> ParseText(text, mode, maxCalls) == ParsePayload(Strip(DropNewlines(body)), mode, maxCalls))
      && (!StartsAt(t, 0, ASSISTANT) ==> ParseText(text, mode, maxCalls) == ParsePayload(t, mode, maxCalls))
      && (StartsAt(t, 0, ASSISTANT) && !(exists b :: IsTurn(t, b)) ==> ParseText(text, mode, maxCalls) == Failed(Malformed))
  {
    hide Strip, StartsAt, IsTurn, ParsePayload, DropNewlines;
    var t := Strip(text);
    StripProperties(text);
    StripProperties(t);
    if IsTurn(t, body) {
      TurnBody(t, body);
    }
    if StartsAt(t, 0, ASSISTANT) && |t| >= |ASSISTANT| + |TURN_END| && t[|t| - |TURN_END|..] == TURN_END {
      BodyOfTurn(t);
    }
  }

  // ---------------------------------------------------------------- rendered payloads are bracketed

  lemma XmlBracketed(e: Envelope)
    requires ValidEnvelope(e) && TypedCalls(e.calls)
    ensures Bracketed(Flat(EnvelopePieces(e)))
  {
    hide Flat, ThinkPieces, CallsPieces, EnvelopePieces, StartsAt, TypedCalls;
    var tail := Flat(CallsPieces(e.calls));
    EnvelopeText(e);
    CallsStart(e.calls);
    WithinLength(tail, 0, CALL_HEAD);
    CallHeadText();
    if e.thinking.Some? {
      var think := Flat(ThinkPieces(e.thinking.value));
      ThinkStarts(e.thinking.value);
      Joined(think, tail, THINK_START);
    } else {
      assert "" + tail == tail;
      Joined(tail, "", CALL_HEAD);
      assert tail + "" == tail;
    }
  }

  /** Text that starts like a think block or a call, and ends in an angle. */
  lemma Joined(head: string, tail: string, start: string)
    requires StartsAt(head, 0, start) && (start == THINK_START || start == CALL_HEAD || start == TOOL_START)
    requires head + tail != "" && (head + tail)[|head + tail| - 1] == '>'
    ensures Bracketed(head + tail)
  {
    var s := head + tail;
    assert |start| >= 2 && start[0] == '<' && start[1] == 't' && ASSISTANT[1] == '|';
    assert s[0] == head[0] == start[0] && s[1] == head[1] == start[1];
    NotStarting(s, 0, ASSISTANT);
  }

  lemma JsonBracketed(e: Envelope, compact: bool)
    requires ValidEnvelope(e)
    ensures Bracketed(JsonText(e, compact))
  {
    hide JsonBlocks, StartsAt, SubmitAlone, Ends;
    var blocks := JsonBlocks(e.calls, compact);
    BlocksStart(e.calls, compact);
    WithinLength(blocks, 0, TOOL_START);
    EndTagText();
    BlocksClose(e.calls, compact);
    ClosesInAngle(blocks);
    if e.thinking.Some? {
      var think := THINK_START + e.thinking.value + THINK_END;
      ThinkParts(e.thinking.value, "");
      assert think + "" == think;
      Joined(think, blocks, THINK_START);
    } else {
      assert "" + blocks == blocks && blocks + "" == blocks;
      Joined(blocks, "", TOOL_START);
    }
  }

  lemma ClosesInAngle(s: string)
    requires Ends(s, "}" + TOOL_END)
    ensures s != "" && s[|s| - 1] == '>'
  {
    var t := "}" + TOOL_END;
    var b := TOOL_END;
    assert |b| == 12 && b[11] == '>' && t[12] == b[11];
    assert s[|s| - |t|..][12] == t[12];
  }

  /** The codec's law on whole turns: a typed envelope rendered as XML, bare or in a ChatML turn, comes back as itself
      and as XML exactly when XML can carry it unchanged and the limit allows its calls. */
  lemma XmlTurnExact(e: Envelope, compact: bool, maxCalls: int)
    requires ValidEnvelope(e) && TypedCalls(e.calls)
    ensures Render(e, XmlFormat, compact).Some?
    ensures var text := Render(e, XmlFormat, compact).value;
      && (ParseText(text, Dual, maxCalls) == Action(e, XmlFormat) <==> LegalStrings(e) && Faithful(e) && |e.calls| <= maxCalls)
      && ParseText(Wrap(text), Dual, maxCalls) == ParseText(text, Dual, maxCalls)
  {
    hide *;
    RenderIsPieces(e, compact);
    XmlDualExact(e, compact, maxCalls);
    XmlBracketed(e);
    WrappedIsBare(Flat(EnvelopePieces(e)), Dual, maxCalls);
  }

  /** The same for JSON, with arguments of any JSON type: exactly when the payload does not begin with an XML think
      block that has a CDATA section, the thinking can be carried and the limit allows the calls. */
  lemma JsonTurnExact(e: Envelope, compact: bool, maxCalls: int)
    requires ValidEnvelope(e)
    ensures Render(e, JsonFormat, compact).Some?
    ensures var text := Render(e, JsonFormat, compact).value;
      && (ParseText(text, Dual, maxCalls) == Action(e, JsonFormat) <==>
            CDataThinkEnd(text, 0) == None && Readable(e.thinking) && |e.calls| <= maxCalls)
      && ParseText(Wrap(text), Dual, maxCalls) == ParseText(text, Dual, maxCalls)
  {
    hide *;
    RenderIsText(e, compact);
    JsonDualExact(e, compact, maxCalls);
    JsonBracketed(e, compact);
    WrappedIsBare(JsonText(e, compact), Dual, maxCalls);
  }

  /** The single-format modes on whole turns: each returns what was printed in its format under that parser's exact
      condition, bare or in a ChatML turn, and fails on what was printed in the other. */
  lemma JsonModesTurnExact(e: Envelope, compact: bool, maxCalls: int)
    requires ValidEnvelope(e)
    ensures Render(e, JsonFormat, compact).Some?
    ensures var text := Render(e, JsonFormat, compact).value;
      && (ParseText(text, JsonOnly, maxCalls) == Action(e, JsonFormat) <==>
            CDataThinkEnd(text, 0) == None && Readable(e.thinking) && |e.calls| <= maxCalls)
      && ParseText(Wrap(text), JsonOnly, maxCalls) == ParseText(text, JsonOnly, maxCalls)
      && ParseText(text, XmlOnly, maxCalls).Failed? && ParseText(Wrap(text), XmlOnly, maxCalls).Failed?
  {
    hide *;
    RenderIsText(e, compact);
    JsonModesExact(e, compact, maxCalls);
    JsonBracketed(e, compact);
    WrappedIsBare(JsonText(e, compact), JsonOnly, maxCalls);
    WrappedIsBare(JsonText(e, compact), XmlOnly, maxCalls);
  }

  lemma XmlModesTurnExact(e: Envelope, compact: bool, maxCalls: int)
    requires ValidEnvelope(e) && TypedCalls(e.calls)
    ensures Render(e, XmlFormat, compact).Some?
    ensures var text := Render(e, XmlFormat, compact).value;
      && (ParseText(text, XmlOnly, maxCalls) == Action(e, XmlFormat) <==>
            LegalStrings(e) && Faithful(e) && |e.calls| <= maxCalls)
      && ParseText(Wrap(text), XmlOnly, maxCalls) == ParseText(text, XmlOnly, maxCalls)
      && (LegalStrings(e) && maxCalls >= 1 ==>
            ParseText(text, JsonOnly, maxCalls) == ParseText(Wrap(text), JsonOnly, maxCalls) == Failed(MixedPayload))
  {
    hide *;
    RenderIsPieces(e, compact);
    XmlModesExact(e, compact, maxCalls);
    XmlBracketed(e);
    WrappedIsBare(Flat(EnvelopePieces(e)), XmlOnly, maxCalls);
    WrappedIsBare(Flat(EnvelopePieces(e)), JsonOnly, maxCalls);
  }
}
