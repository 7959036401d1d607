/** The dual mode's format hint on rendered payloads. */
module FormatHints {
  import opened Text
  import opened Contracts
  import opened ActionRender
  import opened ScannerExact
  import opened RenderPieces
  import opened ActionParse
  import opened XmlTreeRendered
  import opened XmlFaithful
  import opened DualOnXml
  import opened DualOnJson
  import opened DualRoundTrip

  /** What both kinds of tool-call tag begin with. */
  const TAG_HEAD := "<tool_call"

  ghost predicate NoTagBefore(s: string, n: nat) {
    forall k :: 0 <= k < n ==> !StartsAt(s, k, TAG_HEAD)
  }

  /** The first tool-call tag decides the hint. */
  lemma HintAtFirstTag(s: string, n: nat)
    requires NoTagBefore(s, n)
    ensures StartsAt(s, n, TOOL_START) ==> FormatHint(s) == JsonFormat
    ensures StartsAt(s, n, CALL_HEAD) ==> FormatHint(s) == XmlFormat
  {
    hide StartsAt, NameAttributeFrom, WordEnds;
    assert TOOL_START == TAG_HEAD + ">";
    forall k | 0 <= k < n ensures !StartsAt(s, k, TOOL_START) && !OpensAt(ToolOpener, s, k) {
      SplitAt(s, k, TAG_HEAD, ">");
    }
    if StartsAt(s, n, TOOL_START) {
      BlockOpens(s, n);
    }
    if StartsAt(s, n, CALL_HEAD) {
      OpenerHere(s, n);
    }
  }

  lemma TagHeadChars(j: nat)
    requires 0 < j < 10
    ensures TAG_HEAD[j] != '<' && TAG_HEAD[j] != ']' && TAG_HEAD[0] == '<' && TAG_HEAD[1] == 't' && TAG_HEAD[2] == 'o'
  {
  }

  /** No tag begins inside a text without one, nor across its end into an end tag or a section end. */
  lemma NoTagIn(s: string, i: nat, t: string, k: nat)
    requires StartsAt(s, i, t) && Find(TAG_HEAD, t, 0) == -1 && i <= k < i + |t|
    requires i + |t| < |s| && (s[i + |t|] == '<' || s[i + |t|] == ']')
    ensures !StartsAt(s, k, TAG_HEAD)
  {
    hide StartsAt;
    if k + 10 <= i + |t| {
      StartsInside(s, i, t, k - i, TAG_HEAD);
    } else {
      TagHeadChars(i + |t| - k);
      DiffersAt(s, k, TAG_HEAD, i + |t| - k);
    }
  }

  /** No tag begins inside a think block whose text has none. */
  lemma NoTagInThink(s: string, body: string)
    requires StartsAt(s, 0, THINK_START + body + THINK_END) && Find(TAG_HEAD, body, 0) == -1
    ensures NoTagBefore(s, |THINK_START + body + THINK_END|)
  {
    hide StartsAt, Find;
    SplitAt(s, 0, THINK_START + body, THINK_END);
    SplitAt(s, 0, THINK_START, body);
    TagHeadChars(1);
    CharAt(s, 7 + |body|, THINK_END, 0);
    CharAt(s, 7 + |body|, THINK_END, 1);
    forall k | 0 <= k < 15 + |body| ensures !StartsAt(s, k, TAG_HEAD) {
      if k < 7 {
        CharAt(s, 0, THINK_START, k);
        CharAt(s, 0, THINK_START, 2);
        if k == 0 {
          DiffersAt(s, 0, TAG_HEAD, 2);
        } else {
          NotStarting(s, k, TAG_HEAD);
        }
      } else if k < 7 + |body| {
        NoTagIn(s, 7, body, k);
      } else {
        CharAt(s, 7 + |body|, THINK_END, k - 7 - |body|);
        NotStarting(s, k, TAG_HEAD);
      }
    }
  }

  /** Printing a string puts no tag into it. */
  lemma NoTagPrinted(t: string)
    requires Find(TAG_HEAD, t, 0) == -1
    ensures Find(TAG_HEAD, RenderXmlString(t), 0) == -1
  {
    hide StartsAt;
    TagHeadChars(1);
    var w := RenderXmlString(t);
    forall k | 0 <= k < |w| ensures !StartsAt(w, k, TAG_HEAD) {
      if Find(CDATA_END, t, 0) != -1 {
        DecodeEscaped(t);
        NotStarting(w, k, TAG_HEAD);
      } else {
        SectionParts(t);
        if k < 9 {
          CharAt(w, 0, CDATA_START, k);
          CharAt(w, 0, CDATA_START, 1);
          NotStarting(w, k, TAG_HEAD);
        } else if k < 9 + |t| {
          CharAt(w, 9 + |t|, CDATA_END, 0);
          NoTagIn(w, 9, t, k);
        } else {
          CharAt(w, 9 + |t|, CDATA_END, k - 9 - |t|);
          NotStarting(w, k, TAG_HEAD);
        }
      }
    }
  }

  lemma SectionParts(t: string)
    ensures var w := CDATA_START + t + CDATA_END;
      StartsAt(w, 0, CDATA_START) && StartsAt(w, 9, t) && StartsAt(w, 9 + |t|, CDATA_END) && |w| == 12 + |t|
  {
  }

  lemma Joined(a: string, b: string)
    ensures StartsAt(a + b, 0, a) && StartsAt(a + b, |a|, b)
  {
  }

  /** With no tool-call tag in the thinking, or no thinking at all, the hint names the format that was rendered,
      whatever the arguments contain. */
  lemma HintRight(e: Envelope, compact: bool)
    requires ValidEnvelope(e) && TypedCalls(e.calls)
    requires e.thinking.Some? ==> Find(TAG_HEAD, e.thinking.value, 0) == -1
    ensures Render(e, XmlFormat, compact).Some? && FormatHint(Render(e, XmlFormat, compact).value) == XmlFormat
    ensures Render(e, JsonFormat, compact).Some? && FormatHint(Render(e, JsonFormat, compact).value) == JsonFormat
  {
    hide *;
    RenderIsPieces(e, compact);
    RenderIsText(e, compact);
    XmlHint(e);
    JsonHint(e, compact);
  }

  lemma XmlHint(e: Envelope)
    requires ValidEnvelope(e) && TypedCalls(e.calls)
    requires e.thinking.Some? ==> Find(TAG_HEAD, e.thinking.value, 0) == -1
    ensures FormatHint(Flat(EnvelopePieces(e))) == XmlFormat
  {
    hide *;
    HasCalls(e);
    var calls := Flat(CallsPieces(e.calls));
    EnvelopeText(e);
    CallsStart(e.calls);
    if e.thinking.Some? {
      var think := Flat(ThinkPieces(e.thinking.value));
      ThinkText(e.thinking.value);
      NoTagPrinted(e.thinking.value);
      Joined(think, calls);
      NoTagInThink(think + calls, RenderXmlString(e.thinking.value));
      HeadInside(think + calls, |think|, calls);
      HintAtFirstTag(think + calls, |think|);
    } else {
      assert "" + calls == calls;
      NothingBefore(calls);
      HintAtFirstTag(calls, 0);
    }
  }

  lemma JsonHint(e: Envelope, compact: bool)
    requires ValidEnvelope(e) && (e.thinking.Some? ==> Find(TAG_HEAD, e.thinking.value, 0) == -1)
    ensures FormatHint(JsonText(e, compact)) == JsonFormat
  {
    hide *;
    HasCalls(e);
    var blocks := JsonBlocks(e.calls, compact);
    BlocksStart(e.calls, compact);
    TextIs(e, compact);
    if e.thinking.Some? {
      var think := THINK_START + e.thinking.value + THINK_END;
      Joined(think, blocks);
      NoTagInThink(think + blocks, e.thinking.value);
      ToolInside(think + blocks, |think|, blocks);
      HintAtFirstTag(think + blocks, |think|);
    } else {
      NothingBefore(blocks);
      HintAtFirstTag(blocks, 0);
    }
  }

  lemma TextIs(e: Envelope, compact: bool)
    ensures JsonText(e, compact) ==
      if e.thinking.Some? then THINK_START + e.thinking.value + THINK_END + JsonBlocks(e.calls, compact)
      else JsonBlocks(e.calls, compact)
  {
    hide JsonBlocks;
    assert forall t: string :: "" + t == t;
  }

  lemma NothingBefore(s: string)
    ensures NoTagBefore(s, 0)
  {
  }

  lemma ToolInside(s: string, i: nat, t: string)
    requires StartsAt(s, i, t) && StartsAt(t, 0, TOOL_START)
    ensures StartsAt(s, i, TOOL_START)
  {
  }

  /** Thinking that quotes the JSON tag turns the hint of an XML payload to JSON; it comes back all the same. */
  lemma HintMisled(calls: seq<ToolCall>, compact: bool, maxCalls: int)
    requires calls != [] && SubmitAlone(calls) && TypedCalls(calls)
    ensures var e := Envelope(Some(TOOL_START), calls);
      && ValidEnvelope(e) && Render(e, XmlFormat, compact).Some?
      && var text := Render(e, XmlFormat, compact).value;
      && FormatHint(text) == JsonFormat
      && (ParsePayload(text, Dual, maxCalls) == Action(e, XmlFormat) <==>
            LegalStrings(e) && Faithful(e) && |calls| <= maxCalls)
  {
    hide *;
    var e := Envelope(Some(TOOL_START), calls);
    QuotedIsValid(calls);
    XmlDualExact(e, compact, maxCalls);
    RenderIsPieces(e, compact);
    EnvelopeText(e);
    ThinkText(TOOL_START);
    QuotedTag(Flat(CallsPieces(calls)));
    HintAtFirstTag(Flat(EnvelopePieces(e)), 16);
  }

  lemma QuotedIsValid(calls: seq<ToolCall>)
    requires calls != [] && SubmitAlone(calls)
    ensures ValidEnvelope(Envelope(Some(TOOL_START), calls))
  {
    hide SubmitAlone;
    assert !IsSpace(TOOL_START[0]);
  }

  lemma QuotedTag(rest: string)
    ensures var s := THINK_START + RenderXmlString(TOOL_START) + THINK_END + rest; NoTagBefore(s, 16) && StartsAt(s, 16, TOOL_START)
  {
    hide *;
    QuotedSection();
    SectionParts(TOOL_START);
    var section := RenderXmlString(TOOL_START);
    QuotedParts(THINK_START + section + THINK_END + rest, section, rest);
    QuotedBefore(THINK_START + section + THINK_END + rest, section);
  }

  lemma QuotedSection()
    ensures RenderXmlString(TOOL_START) == CDATA_START + TOOL_START + CDATA_END && |RenderXmlString(TOOL_START)| == 23
  {
    hide Find;
    NoSectionEnd();
  }

  lemma QuotedBefore(s: string, section: string)
    requires StartsAt(s, 0, THINK_START) && StartsAt(s, 7, section) && |section| == 23
    requires StartsAt(section, 0, CDATA_START) && StartsAt(section, 9, TOOL_START)
    ensures NoTagBefore(s, 16) && StartsAt(s, 16, TOOL_START)
  {
    hide StartsAt;
    StartsInside(s, 7, section, 0, CDATA_START);
    StartsInside(s, 7, section, 9, TOOL_START);
    TagHeadChars(1);
    CharAt(s, 0, THINK_START, 2);
    CharAt(s, 7, CDATA_START, 1);
    forall k | 0 <= k < 16 ensures !StartsAt(s, k, TAG_HEAD) {
      if k == 0 {
        DiffersAt(s, 0, TAG_HEAD, 2);
      } else if k < 7 {
        CharAt(s, 0, THINK_START, k);
        NotStarting(s, k, TAG_HEAD);
      } else {
        CharAt(s, 7, CDATA_START, k - 7);
        NotStarting(s, k, TAG_HEAD);
      }
    }
  }

  lemma QuotedParts(s: string, section: string, rest: string)
    requires s == THINK_START + section + THINK_END + rest
    ensures StartsAt(s, 0, THINK_START) && StartsAt(s, 7, section)
  {
  }

  lemma NoSectionEnd()
    ensures Find(CDATA_END, TOOL_START, 0) == -1
  {
    forall k: nat ensures !StartsAt(TOOL_START, k, CDATA_END) {
      FirstTwo(TOOL_START, k, CDATA_END);
    }
  }
}
