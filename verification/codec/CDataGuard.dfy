/** JSON thinking without a CDATA opener is never taken for an XML think block: what ElementTree would have to read
    for that cannot end where it must. */
module CDataGuard {
  import opened Text
  import opened Contracts
  import opened XmlTree
  import opened ActionRender
  import opened ElementScanner
  import opened RejectorAccepts
  import opened ActionParse
  import opened XmlExact
  import opened DualOnXml
  import opened DualOnJson

  // ---------------------------------------------------------------- ElementTree's content, read forwards

  lemma {:induction false} SkipCuts(s: string)
    ensures forall i :: 0 <= i < |s| - |SkipXmlSpace(s)| ==> XmlSpace(s[i])
    decreases |s|
  {
    if s != [] && XmlSpace(s[0]) {
      SkipCuts(s[1..]);
      assert forall i :: 0 < i < |s| ==> s[i] == s[1..][i - 1];
    }
  }

  /** An end tag that ends the text holds no second `<`. */
  lemma EndTagShape(name: string, s: string)
    requires ParseEndTag(name, s) == Some("")
    ensures forall i :: 1 <= i < |s| ==> s[i] != '<'
  {
    hide TakeQName, SkipXmlSpace, NameChar;
    assert s[1] == "</"[1];
    var afterName := s[2 + |name|..];
    var t := SkipXmlSpace(afterName);
    SkipCuts(afterName);
    NoAngleInNames();
    assert TakeQName(s[2..]) == name;
    forall i | 1 <= i < |s| ensures s[i] != '<' {
      if 2 <= i < 2 + |name| {
        assert s[i] == name[i - 2];
      } else if i >= 2 + |name| {
        assert s[i] == afterName[i - 2 - |name|];
      }
    }
  }

  lemma NoAngleInNames()
    ensures !NameChar('<') && !XmlSpace('<')
  {
  }

  lemma ContentOfText(s: string, q: nat)
    requires ParseContent(s).Some? && s != "" && s[0] != '<' && Find("<", s, 0) == q
    ensures q <= |s| && ParseContent(s[q..]).Some?
    ensures Children(ParseContent(s).value.0) == Children(ParseContent(s[q..]).value.0)
    ensures ParseContent(s).value.1 == ParseContent(s[q..]).value.1
  {
    hide DecodeText, NormalizeNewlines, ParseElement, Children;
    NotStarting(s, 0, "</");
    NotStarting(s, 0, "<![CDATA[");
    NotStarting(s, 0, "<!--");
    var text := DecodeText(NormalizeNewlines(s[..q]));
    CharsFirst(text.value, ParseContent(s[q..]).value.0);
  }

  lemma CharsFirst(text: string, rest: seq<Item>)
    ensures Children([Chars(text)] + rest) == Children(rest)
  {
    assert ([Chars(text)] + rest)[1..] == rest;
  }

  lemma ContentOfElement(s: string)
    requires ParseContent(s).Some? && s != "" && s[0] == '<' && !StartsAt(s, 0, "</")
    requires !StartsAt(s, 0, "<![CDATA[") && !StartsAt(s, 0, "<!--")
    ensures Children(ParseContent(s).value.0) != []
  {
    hide DecodeText, NormalizeNewlines, ParseElement, Children, Find, StartsAt;
    var (element, rest) := ParseElement(s).value;
    ChildFirst(element, ParseContent(rest).value.0);
  }

  // ---------------------------------------------------------------- where the think element could end

  /** Before the text that follows the printed think block, no CDATA section opens. */
  lemma NoSectionBefore(s: string, thinking: string, k: nat)
    requires StartsAt(s, 0, THINK_START) && StartsAt(s, 7, thinking) && StartsAt(s, 7 + |thinking|, THINK_END)
    requires Find(CDATA_START, thinking, 0) == -1 && k < 15 + |thinking|
    ensures !StartsAt(s, k, CDATA_START)
  {
    hide StartsAt;
    if k < 7 {
      CharAt(s, 0, THINK_START, k);
      CharAt(s, 0, THINK_START, 1);
      NotStarting(s, k, CDATA_START);
    } else if k + 9 <= 7 + |thinking| {
      WithinLength(s, 7, thinking);
      StartsInside(s, 7, thinking, k - 7, CDATA_START);
    } else if k < 7 + |thinking| {
      var j := 7 + |thinking| - k;
      CharAt(s, 7 + |thinking|, THINK_END, 0);
      OneSectionAngle(j);
      DiffersAt(s, k, CDATA_START, j);
    } else {
      CharAt(s, 7 + |thinking|, THINK_END, k - 7 - |thinking|);
      CharAt(s, 7 + |thinking|, THINK_END, 1);
      NotStarting(s, k, CDATA_START);
    }
  }

  lemma OneSectionAngle(j: nat)
    requires 0 < j < 9
    ensures CDATA_START[j] != '<'
  {
  }

  /** A comment outside CDATA sections makes the rejector refuse. */
  lemma CommentRefused(c: string, i: nat, k: nat)
    requires Find(CDATA_START, c, 0) == k && i + 4 <= k && StartsAt(c, i, "<!--")
    ensures !AllowedFrom(c, 0)
  {
    var low := Lower(c[0..k]);
    assert forall j :: i <= j < i + 4 ==> low[j] == LowerChar(c[j]);
    assert StartsAt(low, i, "<!--");
    assert Find("<!--", low, 0) != -1;
    assert !SegmentAllowed(c[0..k]);
  }

  // ---------------------------------------------------------------- no such element

  lemma AngleAhead(c: string, thinking: string)
    requires StartsAt(c, 7, thinking) && StartsAt(c, 7 + |thinking|, THINK_END)
    ensures |c| >= 15 + |thinking|
    ensures 0 <= Find("<", c[7..], 0) <= |thinking| && c[7 + Find("<", c[7..], 0)] == '<'
    ensures Find("<", c[7..], 0) > 0 ==> c[7] != '<'
  {
    var t := c[7..];
    assert t[|thinking|] == c[7 + |thinking| + 0] == THINK_END[0];
    assert StartsAt(t, |thinking|, "<");
    var q := Find("<", t, 0);
    assert t[q] == "<"[0];
    assert t[0] == '<' ==> StartsAt(t, 0, "<");
  }

  lemma ContentFrom(t: string, q: nat)
    requires ParseContent(t).Some? && t != "" && Find("<", t, 0) == q && (q > 0 ==> t[0] != '<')
    ensures q <= |t| && ParseContent(t[q..]).Some?
    ensures Children(ParseContent(t).value.0) == Children(ParseContent(t[q..]).value.0)
    ensures ParseContent(t).value.1 == ParseContent(t[q..]).value.1
  {
    hide Find, ParseContent, Children;
    if q == 0 {
      assert t[0..] == t;
    } else {
      ContentOfText(t, q);
    }
  }

  lemma SuffixStarts(c: string, i: nat, lit: string)
    requires i <= |c|
    ensures StartsAt(c[i..], 0, lit) <==> StartsAt(c, i, lit)
  {
    assert i + |lit| <= |c| ==> forall k :: 0 <= k < |lit| ==> c[i..][k] == c[i + k];
  }

  /** At the first `<` after the think tag, content ends there or has a child. */
  lemma ContentAtAngle(c: string, thinking: string, k: nat, q: nat)
    requires StartsAt(c, 0, THINK_START) && StartsAt(c, 7, thinking) && StartsAt(c, 7 + |thinking|, THINK_END)
    requires Find(CDATA_START, thinking, 0) == -1 && Find(CDATA_START, c, 0) == k && AllowedFrom(c, 0)
    requires q <= |thinking| && 7 + q < |c| && c[7 + q] == '<' && ParseContent(c[7 + q..]).Some?
    requires Children(ParseContent(c[7 + q..]).value.0) == []
    ensures ParseEndTag("think", ParseContent(c[7 + q..]).value.1) != Some("")
  {
    hide Find, ParseContent, Children, AllowedFrom, ParseEndTag, StartsAt, Lower, LowerChar;
    var u := c[7 + q..];
    assert k >= 15 + |thinking| by {
      if k < 15 + |thinking| {
        NoSectionBefore(c, thinking, k);
        assert false;
      }
    }
    CharAt(c, k, CDATA_START, 0);
    assert u[k - 7 - q] == '<';
    SuffixStarts(c, 7 + q, "</");
    SuffixStarts(c, 7 + q, "<![CDATA[");
    SuffixStarts(c, 7 + q, "<!--");
    NoSectionBefore(c, thinking, 7 + q);
    if StartsAt(u, 0, "</") {
      EndsHere(u);
      if ParseEndTag("think", u) == Some("") {
        EndTagShape("think", u);
      }
    } else if StartsAt(u, 0, "<!--") {
      CommentRefused(c, 7 + q, k);
    } else {
      ContentOfElement(u);
    }
  }

  lemma EndsHere(u: string)
    requires StartsAt(u, 0, "</")
    ensures ParseContent(u) == Some(([], u))
  {
    hide ParseItem;
  }

  /** As the content of one childless element, the text after the think tag stops before a CDATA section that
      follows the printed end tag. */
  lemma ContentStops(c: string, thinking: string, k: nat)
    requires StartsAt(c, 0, THINK_START) && StartsAt(c, 7, thinking) && StartsAt(c, 7 + |thinking|, THINK_END)
    requires Find(CDATA_START, thinking, 0) == -1 && Find(CDATA_START, c, 0) == k && AllowedFrom(c, 0)
    requires ParseContent(c[7..]).Some? && Children(ParseContent(c[7..]).value.0) == []
    ensures ParseEndTag("think", ParseContent(c[7..]).value.1) != Some("")
  {
    hide Find, ParseContent, Children, AllowedFrom, ParseEndTag, StartsAt;
    var t := c[7..];
    AngleAhead(c, thinking);
    var q := Find("<", t, 0);
    ContentFrom(t, q);
    assert t[q..] == c[7 + q..];
    ContentAtAngle(c, thinking, k, q);
  }

  lemma CDataThinkUnfold(s: string, end: nat)
    requires CDataThinkEnd(s, 0) == Some(end)
    ensures end <= |s| && AllowedFrom(s[0..end], 0) && Find(CDATA_START, s[0..end], 0) != -1
    ensures FromString(s[0..end]).Some?
    ensures FromString(s[0..end]).value.attributes == map[] && Children(FromString(s[0..end]).value.content) == []
  {
    hide ElementEnd, AllowedFrom, FromString, Children, Find, StartsAt;
  }

  /** Thinking without a CDATA opener is never skipped as an XML think block, whatever else it and the calls
      contain. */
  lemma NoSkippedThink(s: string, thinking: string)
    requires StartsAt(s, 0, THINK_START) && StartsAt(s, 7, thinking) && StartsAt(s, 7 + |thinking|, THINK_END)
    requires Find(CDATA_START, thinking, 0) == -1
    ensures CDataThinkEnd(s, 0) == None
  {
    hide CDataThinkEnd, AllowedFrom, FromString, Children, Find, StartsAt, ParseContent, ParseEndTag;
    if CDataThinkEnd(s, 0).Some? {
      var end := CDataThinkEnd(s, 0).value;
      CDataThinkUnfold(s, end);
      var c := s[0..end];
      var k: nat := Find(CDATA_START, c, 0);
      WithinLength(c, k, CDATA_START);
      PrefixStarts(s, end, k, CDATA_START);
      SectionLength();
      if k < 15 + |thinking| {
        NoSectionBefore(s, thinking, k);
      } else {
        PrefixStarts(s, end, 0, THINK_START);
        PrefixStarts(s, end, 7, thinking);
        PrefixStarts(s, end, 7 + |thinking|, THINK_END);
        ThinkDocument(c);
        ContentStops(c, thinking, k);
      }
    }
  }

  lemma SectionLength()
    ensures |CDATA_START| == 9 && |THINK_START| == 7 && |THINK_END| == 8
  {
  }

  lemma GuardHolds(e: Envelope, compact: bool)
    requires ValidEnvelope(e) && (e.thinking.Some? ==> Find(CDATA_START, e.thinking.value, 0) == -1)
    ensures CDataThinkEnd(JsonText(e, compact), 0) == None
  {
    hide CDataThinkEnd, Find, JsonBlocks, RenderJsonCall, StartsAt;
    if e.thinking.Some? {
      ThinkParts(e.thinking.value, JsonBlocks(e.calls, compact));
      NoSkippedThink(JsonText(e, compact), e.thinking.value);
    } else {
      BlockFirst(e, compact);
    }
  }
}
