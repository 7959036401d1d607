/** Thinking on which the JSON round trip of the dual mode fails: a CDATA section, with decodable text behind it. */
module CDataThinking {
  import opened Text
  import opened Contracts
  import opened XmlTree
  import opened ActionRender
  import opened ElementScanner
  import opened RejectorAccepts
  import opened ScannerExact
  import opened RenderPieces
  import opened ActionParse
  import opened XmlTreeRendered
  import opened XmlNamespaces
  import opened XmlRoundTrip
  import opened XmlExact
  import opened XmlFaithful
  import opened DualOnXml
  import opened DualOnJson
  import opened DualRoundTrip

  // ---------------------------------------------------------------- text that decodes

  lemma {:induction false} DecodedReferences(s: string)
    requires DecodeText(s).Some?
    ensures References(s)
    decreases |s|
  {
    hide StartsAt, CharRef, ReferenceAt;
    if s != "" {
      var used := Unit(s).value.1;
      DecodedReferences(s[used..]);
      UnitReference(s);
      ReferencesConcat(s[..used], s[used..]);
      assert s[..used] + s[used..] == s;
    }
  }

  lemma UnitReference(s: string)
    requires s != "" && Unit(s).Some?
    ensures References(s[..Unit(s).value.1])
  {
    hide CharRef, References;
    BuiltInReferences();
    if s[0] != '&' {
      assert s[..1] == [s[0]];
    } else if StartsAt(s, 0, "&lt;") {
      StartsIsSlice(s, 0, "&lt;");
    } else if StartsAt(s, 0, "&gt;") {
      StartsIsSlice(s, 0, "&gt;");
    } else if StartsAt(s, 0, "&amp;") {
      StartsIsSlice(s, 0, "&amp;");
    } else if StartsAt(s, 0, "&quot;") {
      StartsIsSlice(s, 0, "&quot;");
    } else if StartsAt(s, 0, "&apos;") {
      StartsIsSlice(s, 0, "&apos;");
    } else {
      CharRefUnit(s);
    }
  }

  lemma BuiltInReferences()
    ensures References("&lt;") && References("&gt;") && References("&amp;") && References("&quot;") && References("&apos;")
    ensures forall c :: c != '&' ==> References([c])
  {
    OneAmpersand();
  }

  lemma OneAmpersand()
    ensures forall i :: 0 < i < 4 ==> "&lt;"[i] != '&' && "&gt;"[i] != '&'
    ensures forall i :: 0 < i < 5 ==> "&amp;"[i] != '&'
    ensures forall i :: 0 < i < 6 ==> "&quot;"[i] != '&' && "&apos;"[i] != '&'
  {
  }

  lemma CharRefUnit(s: string)
    requires CharRef(s).Some?
    ensures References(s[..CharRef(s).value.1])
  {
    hide LegalCode;
    var used := CharRef(s).value.1;
    var u := s[..used];
    assert "&#"[1] == '#';
    var from := if StartsAt(s, 2, "x") then 3 else 2;
    assert from == 3 ==> s[2] == "x"[0];
    assert ReferenceAt(u, 0);
    forall i | 0 < i < used ensures u[i] != '&' {
      if from <= i < used - 1 {
        assert s[from..][i - from] == s[i];
      }
    }
  }

  lemma {:induction false} NormalizedStart(s: string, lit: string)
    requires StartsAt(NormalizeNewlines(s), 0, lit) && '\n' !in lit
    ensures StartsAt(s, 0, lit)
    decreases |lit|
  {
    if lit != "" {
      assert NormalizeNewlines(s)[0] == lit[0] && lit[0] in lit;
      assert s[0] == lit[0];
      assert forall c :: c in lit[1..] ==> c in lit;
      forall k | 0 <= k < |lit| - 1 ensures NormalizeNewlines(s[1..])[k] == lit[1..][k] {
        assert NormalizeNewlines(s)[k + 1] == lit[k + 1];
      }
      NormalizedStart(s[1..], lit[1..]);
    }
  }

  lemma {:induction false} NormalizedReferences(s: string)
    requires References(NormalizeNewlines(s))
    ensures References(s)
    decreases |s|
  {
    hide StartsAt, ReferenceAt;
    if s != "" {
      var skip := if s[0] == '\r' && |s| > 1 && s[1] == '\n' then 2 else 1;
      var n := NormalizeNewlines(s);
      assert n[1..] == NormalizeNewlines(s[skip..]);
      ReferencesLater(n);
      NormalizedReferences(s[skip..]);
      if s[0] == '&' {
        NormalizedReference(s);
      }
      ReferencesEarlier(s, skip);
    }
  }

  lemma NormalizedReference(s: string)
    requires ReferenceAt(NormalizeNewlines(s), 0)
    ensures ReferenceAt(s, 0)
  {
    hide NormalizeNewlines, StartsAt;
    var n := NormalizeNewlines(s);
    if StartsAt(n, 0, "&lt;") {
      NormalizedStart(s, "&lt;");
    } else if StartsAt(n, 0, "&gt;") {
      NormalizedStart(s, "&gt;");
    } else if StartsAt(n, 0, "&amp;") {
      NormalizedStart(s, "&amp;");
    } else if StartsAt(n, 0, "&quot;") {
      NormalizedStart(s, "&quot;");
    } else if StartsAt(n, 0, "&apos;") {
      NormalizedStart(s, "&apos;");
    } else {
      NormalizedStart(s, "&#");
    }
  }

  lemma SuffixReference(s: string, from: nat, i: nat)
    requires from <= |s|
    ensures ReferenceAt(s[from..], i) <==> ReferenceAt(s, from + i)
  {
    hide StartsAt;
    SuffixStands(s, from, i, "&lt;");
    SuffixStands(s, from, i, "&gt;");
    SuffixStands(s, from, i, "&amp;");
    SuffixStands(s, from, i, "&quot;");
    SuffixStands(s, from, i, "&apos;");
    SuffixStands(s, from, i, "&#");
  }

  lemma SuffixStands(s: string, from: nat, i: nat, lit: string)
    requires from <= |s|
    ensures StartsAt(s[from..], i, lit) <==> StartsAt(s, from + i, lit)
  {
    assert forall n :: 0 <= n < |s| - from ==> s[from..][n] == s[from + n];
  }

  lemma ReferencesLater(s: string)
    requires s != "" && References(s)
    ensures References(s[1..])
  {
    hide ReferenceAt;
    forall i | 0 <= i < |s| - 1 && s[1..][i] == '&' ensures ReferenceAt(s[1..], i) {
      assert s[1 + i] == '&';
      SuffixReference(s, 1, i);
    }
  }

  lemma ReferencesEarlier(s: string, skip: nat)
    requires 0 < skip <= |s| && References(s[skip..]) && (s[0] == '&' ==> ReferenceAt(s, 0))
    requires forall i :: 0 < i < skip ==> s[i] != '&'
    ensures References(s)
  {
    hide ReferenceAt;
    forall i | 0 <= i < |s| && s[i] == '&' ensures ReferenceAt(s, i) {
      if i >= skip {
        assert s[skip..][i - skip] == '&';
        SuffixReference(s, skip, i - skip);
      }
    }
  }

  // ---------------------------------------------------------------- the think element around it

  function SectionPieces(text: string, tail: string): seq<Piece> {
    [CData(text), Plain(tail)]
  }

  /** Text that may stand behind the section: no markup, and ElementTree decodes it. */
  predicate Decodable(tail: string) {
    NoOpenAngle(tail) && LegalText(tail) && DecodeText(NormalizeNewlines(tail)).Some?
  }

  lemma SectionText(text: string, tail: string)
    ensures Flat(SectionPieces(text, tail)) == CDATA_START + text + CDATA_END + tail
    ensures Flat(Wrapped("think", "think", SectionPieces(text, tail))) ==
      THINK_START + (CDATA_START + text + CDATA_END + tail) + THINK_END
  {
    FlatWrapped("think", "think", SectionPieces(text, tail));
    var rest := [Plain(tail)];
    FlatPlain(tail);
    assert SectionPieces(text, tail)[1..] == rest;
    assert "<" + "think" + ">" == THINK_START && "</" + "think" + ">" == THINK_END;
  }

  lemma SectionElement(text: string, tail: string)
    requires Find(CDATA_END, text, 0) == -1 && Decodable(tail)
    ensures IsElement(Wrapped("think", "think", SectionPieces(text, tail)))
  {
    hide Quiet, Stripped, TagTextOk, NoOpenAngle, References, Find, LegalText;
    DecodedReferences(NormalizeNewlines(tail));
    NormalizedReferences(tail);
    PlainToolCall();
    PlainNameOk("think");
    var ps := Wrapped("think", "think", SectionPieces(text, tail));
    var body := SectionPieces(text, tail);
    assert ps[1..|ps| - 1] == body;
    assert body[1..] == [Plain(tail)] && body[1..][1..] == [];
    assert ps[0] == OpenTag("think") && ps[1] == CData(text) && ps[2] == Plain(tail) && ps[3] == CloseTag("think");
    assert DepthAfter([Plain(tail)], 1) == DepthAfter([], 1) == Some(1);
  }

  /** What ElementTree finds in the element. */
  function SectionItems(text: string, tail: string): seq<Item>
    requires Decodable(tail)
  {
    [Chars(NormalizeNewlines(text))] +
    if tail == "" then [] else [Chars(DecodeText(NormalizeNewlines(tail)).value)]
  }

  lemma TailContent(tail: string, name: string)
    requires Decodable(tail)
    ensures ParseContent(tail + ("</" + name + ">" + "")) ==
      Some((if tail == "" then [] else [Chars(DecodeText(NormalizeNewlines(tail)).value)], "</" + name + ">" + ""))
  {
    hide ParseItem, ParseContent, DecodeText, NormalizeNewlines, LegalText;
    var close := "</" + name + ">" + "";
    EndOfContent(name, "");
    if tail == "" {
      assert "" + close == close;
    } else {
      var items := [Chars(DecodeText(NormalizeNewlines(tail)).value)];
      ParseText(tail, close, DecodeText(NormalizeNewlines(tail)).value);
      assert (tail + close)[0] == tail[0];
      NotStarting(tail + close, 0, "</");
      ContentCons(tail + close, items, close, [], close);
      assert items + [] == items;
    }
  }

  lemma SectionContent(text: string, tail: string, name: string)
    requires Find(CDATA_END, text, 0) == -1 && Decodable(tail)
    ensures ParseContent(CDATA_START + text + CDATA_END + tail + ("</" + name + ">" + ""))
      == Some((SectionItems(text, tail), "</" + name + ">" + ""))
  {
    hide ParseItem, ParseContent, DecodeText, NormalizeNewlines, Decodable, Find;
    var rest := tail + ("</" + name + ">" + "");
    var s := CDATA_START + text + CDATA_END + rest;
    assert s == CDATA_START + text + CDATA_END + tail + ("</" + name + ">" + "");
    TailContent(tail, name);
    ParseCData(text, rest);
    assert s[0] == '<' && s[1] == '!';
    NotStarting(s, 0, "</");
    ContentCons(s, [Chars(NormalizeNewlines(text))], rest, ParseContent(rest).value.0, "</" + name + ">" + "");
  }

  lemma SectionRead(text: string, tail: string)
    requires Find(CDATA_END, text, 0) == -1 && Decodable(tail) && LegalText(text)
    ensures FromString(THINK_START + (CDATA_START + text + CDATA_END + tail) + THINK_END) ==
      Some(Element("think", map[], SectionItems(text, tail)))
  {
    hide *;
    var body := CDATA_START + text + CDATA_END + tail;
    var close := "</" + "think" + ">" + "";
    PlainToolCall();
    PlainIsXmlName("think");
    NameIsXml();
    NoAttributes(body + close);
    SectionContent(text, tail, "think");
    ParseWhole("think", ">", map[], body, SectionItems(text, tail), "");
    ThinkTags(body);
    LegalSection(text, tail);
    PlainSection(text, tail);
    WholeDocument(THINK_START + body + THINK_END, Element("think", map[], SectionItems(text, tail)));
  }

  lemma ThinkTags(body: string)
    ensures "<" + "think" + ">" + body + ("</" + "think" + ">" + "") == THINK_START + body + THINK_END
    ensures ">"[0] == '>'
  {
  }

  lemma TextIsPlain(items: seq<Item>)
    requires forall i :: 0 <= i < |items| ==> items[i].Chars?
    ensures PlainItems(items)
  {
  }

  lemma PlainSection(text: string, tail: string)
    requires Decodable(tail)
    ensures PlainTree(Element("think", map[], SectionItems(text, tail))) && Children(SectionItems(text, tail)) == []
  {
    hide DecodeText, NormalizeNewlines, LegalText, NoOpenAngle, PlainItems;
    BareTag();
    TextIsPlain(SectionItems(text, tail));
    OneText(NormalizeNewlines(text));
    if tail != "" {
      OneText(DecodeText(NormalizeNewlines(tail)).value);
      assert SectionItems(text, tail)[1..] == [Chars(DecodeText(NormalizeNewlines(tail)).value)];
    } else {
      assert SectionItems(text, tail) == [Chars(NormalizeNewlines(text))];
    }
  }

  lemma LegalSection(text: string, tail: string)
    requires LegalText(text) && Decodable(tail)
    ensures LegalText(THINK_START + (CDATA_START + text + CDATA_END + tail) + THINK_END)
  {
    hide LegalText, DecodeText, NormalizeNewlines;
    assert LegalText(THINK_START) && LegalText(THINK_END) by { LegalTags(); }
    LegalCData(text);
    LegalConcat(CDATA_START + text + CDATA_END, tail);
    LegalConcat(THINK_START, CDATA_START + text + CDATA_END + tail);
    LegalConcat(THINK_START + (CDATA_START + text + CDATA_END + tail), THINK_END);
  }

  lemma LegalTags()
    ensures LegalText(THINK_START) && LegalText(THINK_END)
  {
  }

  // ---------------------------------------------------------------- the payload

  lemma SectionTaken(s: string, text: string, tail: string)
    requires Find(CDATA_END, text, 0) == -1 && Decodable(tail) && LegalText(text)
    requires StartsAt(s, 0, THINK_START + (CDATA_START + text + CDATA_END + tail) + THINK_END)
    ensures CDataThinkEnd(s, 0) == Some(|THINK_START + (CDATA_START + text + CDATA_END + tail) + THINK_END|)
  {
    hide *;
    var ps := Wrapped("think", "think", SectionPieces(text, tail));
    var think := THINK_START + (CDATA_START + text + CDATA_END + tail) + THINK_END;
    SectionText(text, tail);
    SectionElement(text, tail);
    ElementEndExact(s, 0, ps);
    ElementIsOk(ps);
    RejectorAcceptsPieces(ps);
    SectionRead(text, tail);
    PlainSection(text, tail);
    StartsIsSlice(s, 0, think);
    SectionOpens(text, tail);
    Prefix(s, think, THINK_START);
    ThinkHere(s, think);
    SectionEnd(s, |think|, think, SectionItems(text, tail));
  }

  lemma SectionOpens(text: string, tail: string)
    ensures var think := THINK_START + (CDATA_START + text + CDATA_END + tail) + THINK_END;
      StartsAt(think, 0, THINK_START) && Find(CDATA_START, think, 0) != -1
  {
    hide Find;
    var think := THINK_START + (CDATA_START + text + CDATA_END + tail) + THINK_END;
    assert StartsAt(think, 7, CDATA_START);
    NotFound(think, 7);
  }

  lemma SectionEnd(s: string, end: nat, think: string, items: seq<Item>)
    requires StartsAt(s, 0, "<think") && ElementEnd(s, 0) == Some(end) && end <= |s| && s[0..end] == think
    requires AllowedFrom(think, 0) && FromString(think) == Some(Element("think", map[], items)) && Children(items) == []
    requires Find(CDATA_START, think, 0) != -1
    ensures CDataThinkEnd(s, 0) == Some(end)
  {
    hide ElementEnd, AllowedFrom, FromString, Children, StartsAt, Find;
  }

  /** Thinking that is a CDATA section with any decodable text behind it, references included, makes the dual mode
      refuse the JSON payload, whatever the calls and the limit. */
  lemma CDataThinkingRefused(text: string, tail: string, calls: seq<ToolCall>, compact: bool, maxCalls: int)
    requires calls != [] && SubmitAlone(calls)
    requires Find(CDATA_END, text, 0) == -1 && LegalText(text) && Decodable(tail)
    ensures var e := Envelope(Some(CDATA_START + text + CDATA_END + tail), calls);
      ValidEnvelope(e) && ParsePayload(JsonText(e, compact), Dual, maxCalls).Failed?
  {
    hide *;
    var thinking := CDATA_START + text + CDATA_END + tail;
    var e := Envelope(Some(thinking), calls);
    SectionHead(text, tail);
    SectionIsValid(e);
    FirstBlockStands(e, compact);
    SectionTaken(JsonText(e, compact), text, tail);
    ThinkTakenForXml(e, compact, maxCalls);
  }

  lemma SectionHead(text: string, tail: string)
    ensures var thinking := CDATA_START + text + CDATA_END + tail; thinking != "" && thinking[0] == '<'
  {
  }

  lemma SectionIsValid(e: Envelope)
    requires e.thinking.Some? && e.thinking.value != "" && e.thinking.value[0] == '<'
    requires e.calls != [] && SubmitAlone(e.calls)
    ensures ValidEnvelope(e)
  {
    hide SubmitAlone;
    assert !IsSpace('<');
  }

  lemma LetterReference()
    ensures Unit("&#65;") == Some(('A', 5))
  {
    var s := "&#65;";
    assert StartsAt(s, 0, "&#");
    NotStarting(s, 2, "x");
    DiffersAt(s, 0, "&lt;", 1);
    DiffersAt(s, 0, "&gt;", 1);
    DiffersAt(s, 0, "&amp;", 1);
    DiffersAt(s, 0, "&quot;", 1);
    DiffersAt(s, 0, "&apos;", 1);
    assert s[2..] == "65;" && "65;"[1..] == "5;" && "5;"[1..] == ";";
    assert TakeNumber(";", 10, 65) == (65, 0) && TakeNumber("5;", 10, 6) == (65, 1) && TakeNumber("65;", 10, 0) == (65, 2);
  }

  lemma ReferenceDecodes()
    ensures Decodable("&#65;")
  {
    hide Unit;
    var s := "&#65;";
    LetterReference();
    NotStarting(s, 0, "]]>");
    NormalizePlain(s);
    DecodeNothing();
    assert s[5..] == "";
  }

  /** For instance `<![CDATA[a]]>&#65;`. */
  lemma ReferenceThinkingRefused(calls: seq<ToolCall>, compact: bool, maxCalls: int)
    requires calls != [] && SubmitAlone(calls)
    ensures var e := Envelope(Some("<![CDATA[a]]>&#65;"), calls);
      ValidEnvelope(e) && ParsePayload(JsonText(e, compact), Dual, maxCalls).Failed?
  {
    hide *;
    ReferenceDecodes();
    LetterIsSection();
    CDataThinkingRefused("a", "&#65;", calls, compact, maxCalls);
  }

  lemma LetterIsSection()
    ensures Find(CDATA_END, "a", 0) == -1 && LegalText("a")
    ensures CDATA_START + "a" + CDATA_END + "&#65;" == "<![CDATA[a]]>&#65;"
  {
  }
}
