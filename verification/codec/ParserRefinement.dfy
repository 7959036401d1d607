/** The XML-aware JSON parser refines the simple one, up to the exception it raises for namespaces. */
module ParserRefinement {
  import opened Text
  import opened JsonCodec
  import opened Contracts
  import opened XmlTree
  import opened ActionRender
  import opened ElementScanner
  import opened RejectorAccepts
  import opened ScannerExact
  import opened RenderPieces
  import opened ActionParse
  import opened XmlTreeRendered
  import opened XmlNamespaces
  import opened XmlRoundTrip
  import opened DualOnXml
  import opened DualOnJson
  import opened XmlOnJson

  lemma NotInSlice(lit: string, s: string, i: nat, j: nat)
    requires i <= j <= |s| && Find(lit, s, 0) == -1
    ensures Find(lit, s[i..j], 0) == -1
  {
    var slice := s[i..j];
    var k := Find(lit, slice, 0);
    if k != -1 {
      assert forall n :: 0 <= n < |slice| ==> slice[n] == s[i + n];
      assert StartsAt(s, i, slice);
      StartsInside(s, i, slice, k, lit);
    }
  }

  lemma NoCDataThink(s: string, start: nat)
    requires Find(CDATA_START, s, 0) == -1
    ensures CDataThinkEnd(s, start) == None
  {
    hide XmlThinkEnd, Find;
    if XmlThinkEnd(s, start).Some? {
      NotInSlice(CDATA_START, s, start, XmlThinkEnd(s, start).value);
    }
  }

  lemma NoXmlRegions(s: string, cursor: nat)
    requires Find(CDATA_START, s, 0) == -1 && Search(ToolOpener, s, 0) == -1
    ensures XmlThinkRegion(s, cursor) == None && XmlToolRegion(s, cursor) == None && !ToolsRefused(s, cursor)
  {
    hide CDataThinkEnd, StartsAt, OpensAt, ToolCallsEnd, ToolCallsRaise, Find;
    forall start: nat ensures CDataThinkEnd(s, start) == None {
      NoCDataThink(s, start);
    }
    assert Search(ToolOpener, s, cursor) == -1;
  }

  lemma SameBlockStep(s: string, cursor: nat, turn: Turn, maxCalls: int)
    requires Find(CDATA_START, s, 0) == -1
    ensures JsonBlockStep(s, cursor, turn, maxCalls) == SimpleStep(s, cursor, turn, maxCalls)
  {
    hide CDataThinkEnd, StartsAt, ThinkBlock, ToolBlock, ThinkRaises;
    var think := Find(THINK_START, s, cursor);
    if think != -1 {
      NoCDataThink(s, think);
      NoRaise(s, think);
    }
  }

  lemma SameStep(s: string, cursor: nat, turn: Turn, maxCalls: int)
    requires Find(CDATA_START, s, 0) == -1 && Search(ToolOpener, s, 0) == -1
    ensures DualStep(s, cursor, turn, maxCalls) ==
      if ThinkRefused(s, cursor) then Fail(Namespaced) else SimpleStep(s, cursor, turn, maxCalls)
  {
    hide *;
    NoXmlRegions(s, cursor);
    SameBlockStep(s, cursor, turn, maxCalls);
    if ThinkRefused(s, cursor) {
      RefusedStep(s, cursor, turn, maxCalls);
    } else {
      StepOnBlock(s, cursor, turn, maxCalls);
    }
  }

  lemma RefusedStep(s: string, cursor: nat, turn: Turn, maxCalls: int)
    requires ThinkRefused(s, cursor)
    ensures DualStep(s, cursor, turn, maxCalls) == Fail(Namespaced)
  {
    hide ThinkRefused;
  }

  /** The delimiter parser's loop comes to a point from where the next opener is a think element in a namespace. */
  predicate MeetsNamespace(s: string, cursor: nat, turn: Turn, maxCalls: int)
    decreases |s| - cursor
  {
    cursor < |s| &&
    (ThinkRefused(s, cursor) ||
     var step := SimpleStep(s, cursor, turn, maxCalls);
     step.Continue? && MeetsNamespace(s, step.cursor, step.turn, maxCalls))
  }

  lemma SimpleHasNone(s: string, cursor: nat, turn: Turn, maxCalls: int)
    ensures SimpleStep(s, cursor, turn, maxCalls) != Fail(Namespaced)
  {
    hide Find, StartsAt, ReadValue, SkipSpaces, MakeToolCall, SubmitAlone;
  }

  lemma {:induction false} SimpleNeverNamespaced(s: string, cursor: nat, turn: Turn, maxCalls: int)
    ensures SimpleFrom(s, cursor, turn, maxCalls) != Err(Namespaced)
    decreases |s| - cursor
  {
    hide SimpleStep, MakeEnvelope;
    if cursor < |s| {
      SimpleHasNone(s, cursor, turn, maxCalls);
      match SimpleStep(s, cursor, turn, maxCalls)
      case Stop =>
      case Fail(_) =>
      case Continue(next, newTurn) => SimpleNeverNamespaced(s, next, newTurn, maxCalls);
    }
  }

  lemma {:induction false} SameFrom(s: string, cursor: nat, turn: Turn, maxCalls: int)
    requires Find(CDATA_START, s, 0) == -1 && Search(ToolOpener, s, 0) == -1
    ensures DualFrom(s, cursor, turn, maxCalls) ==
      if MeetsNamespace(s, cursor, turn, maxCalls) then Err(Namespaced) else SimpleFrom(s, cursor, turn, maxCalls)
    decreases |s| - cursor
  {
    hide DualStep, SimpleStep, Finish, Find, Search, ThinkRefused;
    if cursor < |s| {
      SameStep(s, cursor, turn, maxCalls);
      match DualStep(s, cursor, turn, maxCalls)
      case Stop =>
      case Fail(_) =>
      case Continue(next, newTurn) => SameFrom(s, next, newTurn, maxCalls);
    }
  }

  /** On a payload without a CDATA opener and without an XML tool-call opener the two parsers agree, the same
      envelope or the same error, exactly when the delimiter parser meets no think element in a namespace. */
  lemma DualRefinesSimple(s: string, maxCalls: int)
    requires Find(CDATA_START, s, 0) == -1 && Search(ToolOpener, s, 0) == -1
    ensures ParseJsonDual(s, maxCalls) == ParseSimple(s, maxCalls) <==> maxCalls < 1 || !MeetsNamespace(s, 0, START, maxCalls)
    ensures ParseJsonDual(s, maxCalls) != ParseSimple(s, maxCalls) ==> ParseJsonDual(s, maxCalls) == Err(Namespaced)
  {
    hide DualFrom, SimpleFrom, Find, Search, MeetsNamespace;
    SameFrom(s, 0, START, maxCalls);
    SimpleNeverNamespaced(s, 0, START, maxCalls);
  }

  // ---------------------------------------------------------------- payloads that declare no namespace

  lemma NotAtStart(lit: string, s: string, r: string)
    requires |r| <= |s| && r == s[..|r|] && Find(lit, s, 0) == -1
    ensures !StartsAt(r, 0, lit)
  {
    NotInSlice(lit, s, 0, |r|);
    assert s[0..|r|] == r;
  }

  lemma {:induction false} NoDeclaration(s: string)
    requires ParseAttributes(s).Some? && Find("xmlns", s, 0) == -1
    ensures forall key :: key in ParseAttributes(s).value.0 ==> !StartsAt(key, 0, "xmlns")
    decreases |s|
  {
    hide SkipXmlSpace, ParseAttribute, Find, StartsAt, Ends;
    var t := SkipXmlSpace(s);
    NotInSlice("xmlns", s, |s| - |t|, |s|);
    assert s[|s| - |t|..|s|] == t;
    if !StartsAt(t, 0, ">") && !StartsAt(t, 0, "/>") {
      var (name, _, next) := ParseAttribute(t).value;
      NameOfAttribute(t);
      NotAtStart("xmlns", t, name);
      AttributeSuffix(t);
      AtTheEnd("xmlns", t, next);
      NoDeclaration(next);
    }
  }

  lemma AtTheEnd(lit: string, s: string, r: string)
    requires Ends(s, r) && Find(lit, s, 0) == -1
    ensures Find(lit, r, 0) == -1
  {
    hide Find;
    NotInSlice(lit, s, |s| - |r|, |s|);
    assert s[|s| - |r|..|s|] == r;
  }

  lemma NameOfAttribute(s: string)
    requires ParseAttribute(s).Some?
    ensures ParseAttribute(s).value.0 == TakeQName(s)
  {
    hide TakeQName, ParseQuoted, SkipXmlSpace, NameStart;
  }

  lemma FirstOfName(s: string)
    requires s != "" && NameStart(s[0])
    ensures TakeQName(s) != "" && TakeQName(s)[0] == s[0]
  {
  }

  /** Nothing is bound by attributes that do not declare, but the prefix xml. */
  lemma Unbound(prefix: string, attributes: map<string, string>)
    requires forall key :: key in attributes ==> !StartsAt(key, 0, "xmlns")
    requires prefix != "xml"
    ensures Namespace(prefix, [attributes]) == ""
  {
    var key := if prefix == "" then "xmlns" else "xmlns:" + prefix;
    assert StartsAt(key, 0, "xmlns");
    assert [attributes][..0] == [];
  }

  lemma StaysUnprefixed(e: Element)
    requires forall key :: key in e.attributes ==> !StartsAt(key, 0, "xmlns")
    requires forall i :: 0 <= i < |e.name| ==> NameChar(e.name[i]) || e.name[i] == ':'
    requires e.name != "" && e.name[0] == 't' && Resolve(e, []).Some?
    ensures !InNamespace(Resolve(e, []).value)
  {
    hide Namespace, ResolveItems, ResolveAttributes, Bindable;
    assert [] + [e.attributes] == [e.attributes];
    var colon := Find(":", e.name, 0);
    assert ":"[0] == ':' && !NameChar('}');
    if colon == -1 {
      Unbound("", e.attributes);
      assert forall i :: 0 <= i < |e.name| && e.name[i] == ':' ==> StartsAt(e.name, i, ":");
    } else {
      assert e.name[colon] == ':';
      assert "xml"[0] != 't' && colon > 0;
      Unbound(e.name[..colon], e.attributes);
    }
  }

  lemma NothingRaises(s: string, start: nat)
    requires Find("xmlns", s, 0) == -1
    ensures !ThinkRaises(s, start)
  {
    hide *;
    if ThinkElementAt(s, start).Some? {
      var (end, element) := ThinkElementAt(s, start).value;
      ThinkElementUnfold(s, start);
      OpensLikeThink(s, start);
      var c := s[start..end];
      FromStringParts(c);
      ElementUnfold(c);
      var raw := ParseElement(c).value.0;
      FirstOfName(c[1..]);
      NotInSlice("xmlns", s, start + 1 + |raw.name|, end);
      assert c[1 + |raw.name|..] == s[start + 1 + |raw.name|..end];
      NoDeclaration(c[1 + |raw.name|..]);
      StaysUnprefixed(raw);
    }
    RaiseIs(s, start);
  }

  lemma RaiseIs(s: string, start: nat)
    ensures ThinkRaises(s, start) <==> ThinkElementAt(s, start).Some? && InNamespace(ThinkElementAt(s, start).value.1)
  {
    hide ThinkElementAt, InNamespace;
  }

  lemma OpensLikeThink(s: string, start: nat)
    requires ThinkElementAt(s, start).Some?
    ensures start + 1 < |s| && s[start + 1] == 't'
  {
    hide ElementEnd, AllowedFrom, FromString;
    assert "<think"[1] == 't';
  }

  lemma {:induction false} NeverMeets(s: string, cursor: nat, turn: Turn, maxCalls: int)
    requires Find("xmlns", s, 0) == -1
    ensures !MeetsNamespace(s, cursor, turn, maxCalls)
    decreases |s| - cursor
  {
    hide Find, SimpleStep, ThinkRaises, XmlThinkStart;
    if cursor < |s| {
      if XmlThinkStart(s, cursor).Some? {
        NothingRaises(s, XmlThinkStart(s, cursor).value);
      }
      var step := SimpleStep(s, cursor, turn, maxCalls);
      if step.Continue? {
        NeverMeets(s, step.cursor, step.turn, maxCalls);
      }
    }
  }

  /** In particular, the parsers agree on payloads in which no namespace can be declared. */
  lemma DualRefinesWithoutXmlns(s: string, maxCalls: int)
    requires Find(CDATA_START, s, 0) == -1 && Search(ToolOpener, s, 0) == -1 && Find("xmlns", s, 0) == -1
    ensures ParseJsonDual(s, maxCalls) == ParseSimple(s, maxCalls)
  {
    hide *;
    NeverMeets(s, 0, START, maxCalls);
    DualRefinesSimple(s, maxCalls);
  }

  // ---------------------------------------------------------------- a payload on which they differ

  const NAMESPACED := "<think xmlns=\"u\"></think>"

  const NAMESPACED_TAG := "think xmlns=\"u\""

  lemma NamespacedPieces()
    ensures Flat(Wrapped(NAMESPACED_TAG, "think", [])) == NAMESPACED && IsElement(Wrapped(NAMESPACED_TAG, "think", []))
  {
    hide *;
    FlatNothing();
    FlatWrapped(NAMESPACED_TAG, "think", []);
    NamespacedParts();
    PlainToolCall();
    PlainNameOk("think");
    NamespacedTag();
    EmptyElement(NAMESPACED_TAG, "think");
  }

  lemma NamespacedParts()
    ensures "<" + NAMESPACED_TAG + ">" + "" + ("</" + "think" + ">") == NAMESPACED
  {
  }

  lemma EmptyElement(open: string, tag: string)
    requires PieceOk(OpenTag(open)) && PieceOk(CloseTag(tag))
    ensures IsElement(Wrapped(open, tag, []))
  {
    hide PieceOk;
    var ps := Wrapped(open, tag, []);
    assert ps == [OpenTag(open), CloseTag(tag)] && ps[1..1] == [];
  }

  lemma NamespacedTag()
    ensures PieceOk(OpenTag(NAMESPACED_TAG))
  {
    hide Quiet;
    PlainIsQuiet("think xmlns=", "\"u\"");
    assert "think xmlns=" + "\"u\"" == NAMESPACED_TAG;
    QuietValue();
  }

  lemma QuietValue()
    ensures Quiet("\"u\"", None)
  {
    assert "\"u\""[1..] == "u\"" && "u\""[1..] == "\"" && "\""[1..] == "";
    assert Quiet("", None);
    assert Quiet("\"", Some('"'));
    assert Quiet("u\"", Some('"'));
  }

  /** ElementTree puts the element into the namespace its tag declares. */
  lemma NamespacedElement()
    ensures FromString(NAMESPACED) == Some(Element("{u}think", map[], []))
  {
    hide *;
    var raw := Element("think", map["xmlns" := "u"], []);
    NamespacedRaw();
    NamespacedLegal();
    NamespacedResolved();
    FromResolved(NAMESPACED, raw);
  }

  const NAMESPACED_REST := " xmlns=\"u\">"

  lemma NamespacedRaw()
    ensures ParseElement(NAMESPACED) == Some((Element("think", map["xmlns" := "u"], []), ""))
  {
    hide *;
    var close := "</" + "think" + ">" + "";
    PlainToolCall();
    PlainIsXmlName("think");
    DeclarationName();
    OneAttribute("xmlns", "u", "" + close);
    NamespacedRest(close);
    EndOfContent("think", "");
    NothingThen(close);
    ParseWhole("think", NAMESPACED_REST, map["xmlns" := "u"], "", [], "");
    NamespacedWhole();
  }

  lemma NamespacedRest(close: string)
    ensures " " + ("xmlns" + ("=\"" + "u" + "\"" + (">" + ("" + close)))) == NAMESPACED_REST + ("" + close)
    ensures NAMESPACED_REST != [] && !NameChar(NAMESPACED_REST[0]) && NAMESPACED_REST[0] != ':'
  {
  }

  lemma NothingThen(close: string)
    ensures "" + close == close
  {
  }

  lemma NamespacedWhole()
    ensures "<" + "think" + NAMESPACED_REST + "" + ("</" + "think" + ">" + "") == NAMESPACED
  {
  }

  lemma DeclarationName()
    ensures XmlName("xmlns") && PlainName("u")
  {
  }

  lemma NamespacedLegal()
    ensures LegalText(NAMESPACED)
  {
    hide LegalChar;
    AsciiLegal();
  }

  lemma NamespacedResolved()
    ensures Resolve(Element("think", map["xmlns" := "u"], []), []) == Some(Element("{u}think", map[], []))
  {
    var attributes := map["xmlns" := "u"];
    assert [] + [attributes] == [attributes];
    assert 'u' != '}' && |"u"| == 1;
    NotReserved();
    NoColon("think");
    assert Namespace("", [attributes]) == "u";
    assert "{" + "u" + "}" + "think" == "{u}think";
    hide Namespace, ResolveName;
    assert ResolveAttributes(attributes, [attributes]) == Some(map[]) by {
      var kept := set a | a in attributes && !Declares(a);
      assert kept == {};
      assert Renamed(attributes, kept, [attributes]) == map[];
    }
  }

  lemma NotReserved()
    ensures Bindable("", "u")
  {
    assert |XML_NAMESPACE| != 1 && |XMLNS_NAMESPACE| != 1 && |"xml"| == 3 && |"xmlns"| == 5;
  }

  lemma FromResolved(d: string, raw: Element)
    requires LegalText(d) && ParseElement(d) == Some((raw, ""))
    ensures FromString(d) == Resolve(raw, [])
  {
    hide LegalText, ParseElement, Resolve;
  }

  lemma NamespacedRefused(s: string)
    requires StartsAt(s, 0, NAMESPACED)
    ensures ThinkRefused(s, 0)
  {
    hide *;
    var ps := Wrapped(NAMESPACED_TAG, "think", []);
    NamespacedPieces();
    ElementEndExact(s, 0, ps);
    ElementIsOk(ps);
    RejectorAcceptsPieces(ps);
    NamespacedElement();
    StartsIsSlice(s, 0, NAMESPACED);
    NamespacedOpens(s);
    NamespacedAt(s);
    NamespacedIsTried(s);
    RefusedIs(s);
  }

  lemma NamespacedOpens(s: string)
    requires StartsAt(s, 0, NAMESPACED)
    ensures StartsAt(s, 0, "<think") && OpensAt(ThinkOpener, s, 0) && !OpensAt(ToolOpener, s, 0) && |s| > 0
    ensures NAMESPACED[2] == 'h'
  {
    hide StartsAt, NameAttributeFrom;
    assert NAMESPACED == "<think" + " xmlns=\"u\"></think>";
    SplitAt(s, 0, "<think", " xmlns=\"u\"></think>");
    CharAt(s, 0, NAMESPACED, 6);
    CharAt(s, 0, NAMESPACED, 2);
    DiffersAt(s, 0, "<tool_call", 2);
  }

  lemma NamespacedAt(s: string)
    requires StartsAt(s, 0, "<think") && ElementEnd(s, 0) == Some(|NAMESPACED|) && |NAMESPACED| <= |s|
    requires s[0..|NAMESPACED|] == NAMESPACED && AllowedFrom(NAMESPACED, 0)
    requires FromString(NAMESPACED) == Some(Element("{u}think", map[], []))
    ensures ThinkRaises(s, 0)
  {
    hide StartsAt, ElementEnd, AllowedFrom, FromString;
    assert "{u}think"[2] == '}';
  }

  lemma NamespacedIsTried(s: string)
    requires OpensAt(ThinkOpener, s, 0) && !OpensAt(ToolOpener, s, 0) && |s| > 0
    ensures XmlThinkStart(s, 0) == Some(0)
  {
    hide OpensAt, StartsAt;
    assert Search(ThinkOpener, s, 0) == 0 && Search(ToolOpener, s, 0) != 0;
  }

  lemma RefusedIs(s: string)
    requires XmlThinkStart(s, 0) == Some(0) && ThinkRaises(s, 0)
    ensures ThinkRefused(s, 0)
  {
    hide XmlThinkStart, ThinkRaises;
  }

  lemma FirstBlockAhead(s: string)
    requires StartsAt(s, 0, NAMESPACED) && StartsAt(s, |NAMESPACED|, TOOL_START)
    ensures Find(TOOL_START, s, 0) == |NAMESPACED|
    ensures Find(THINK_START, s, 0) == -1 || Find(THINK_START, s, 0) > |NAMESPACED|
  {
    assert |NAMESPACED| == 25;
    assert TOOL_START[0] == '<' && TOOL_START[1] == 't' && TOOL_START[2] == 'o';
    assert THINK_START[0] == '<' && THINK_START[1] == 't' && THINK_START[6] == '>' && THINK_START[2] == 'h';
    forall k | 0 <= k < 25 ensures !StartsAt(s, k, TOOL_START) && !StartsAt(s, k, THINK_START) {
      assert s[k] == NAMESPACED[k] && s[6] == NAMESPACED[6] && s[2] == NAMESPACED[2] && s[18] == NAMESPACED[18];
      if k == 0 {
        DiffersAt(s, 0, TOOL_START, 2);
        DiffersAt(s, 0, THINK_START, 6);
      } else if k == 17 {
        DiffersAt(s, 17, TOOL_START, 1);
        DiffersAt(s, 17, THINK_START, 1);
      } else {
        DiffersAt(s, k, TOOL_START, 0);
        DiffersAt(s, k, THINK_START, 0);
      }
    }
    CharAt(s, 25, TOOL_START, 2);
    DiffersAt(s, 25, THINK_START, 2);
  }

  /** Before any tool calls, such an element makes the XML-aware parser raise where the delimiter parser reads the
      calls. */
  lemma NamespaceSeparates(calls: seq<ToolCall>, compact: bool, maxCalls: int)
    requires calls != [] && SubmitAlone(calls) && |calls| <= maxCalls
    ensures ParseSimple(NAMESPACED + JsonBlocks(calls, compact), maxCalls) == Ok(Envelope(None, calls))
    ensures ParseJsonDual(NAMESPACED + JsonBlocks(calls, compact), maxCalls) == Err(Namespaced)
  {
    hide *;
    var blocks := JsonBlocks(calls, compact);
    var s := NAMESPACED + blocks;
    NothingBefore(calls);
    NoTurnYet();
    StandsFirst(NAMESPACED, blocks);
    BlocksStart(calls, compact);
    Placed(NAMESPACED, blocks, "");
    assert NAMESPACED + blocks + "" == s;
    StandsAfter(NAMESPACED, blocks, TOOL_START);
    WithinLength(s, |NAMESPACED|, TOOL_START);
    Lengths();
    NamespacedRefused(s);
    RefusedStep(s, 0, START, maxCalls);
    DualUnfold(s, 0, START, maxCalls);
    ParseDualUnfold(s, maxCalls);
    FirstBlockAhead(s);
    SameFirstStep(s, maxCalls);
    SimpleUnfold(s, 0, START, maxCalls);
    SimpleUnfold(s, |NAMESPACED|, START, maxCalls);
    BlocksRead(s, |NAMESPACED|, calls, compact, START, maxCalls);
    EnvelopeOfCalls(calls);
    ParseSimpleUnfold(s, maxCalls);
  }

  lemma Lengths()
    ensures |NAMESPACED| == 25 && |TOOL_START| == 11
  {
  }

  lemma NoTurnYet()
    ensures START == Turn(None, false, [])
  {
  }

  lemma SameFirstStep(s: string, maxCalls: int)
    requires Find(TOOL_START, s, 0) == |NAMESPACED| && (Find(THINK_START, s, 0) == -1 || Find(THINK_START, s, 0) > |NAMESPACED|)
    ensures SimpleStep(s, 0, START, maxCalls) == SimpleStep(s, |NAMESPACED|, START, maxCalls)
  {
    hide StartsAt, ThinkBlock, ToolBlock;
    StepOnToolBlock(s, |NAMESPACED|, START, maxCalls);
  }

  lemma EnvelopeOfCalls(calls: seq<ToolCall>)
    requires calls != [] && SubmitAlone(calls)
    ensures Finish(Turn(None, false, calls)) == Ok(Envelope(None, calls))
  {
    hide SubmitAlone;
  }
}
