/** The XML parser on rendered JSON payloads: always an error, because the text of the last tool block would have to
    be blank. */
module XmlOnJson {
  import opened Text
  import opened JsonCodec
  import opened Contracts
  import opened XmlTree
  import opened ActionRender
  import opened ElementScanner
  import opened RenderPieces
  import opened ActionParse
  import opened XmlTreeRendered
  import opened XmlNamespaces
  import opened XmlRoundTrip
  import opened XmlExact
  import opened DualOnXml
  import opened DualOnJson
  import opened CDataGuard

  // ---------------------------------------------------------------- what each reader leaves is the end of the text

  lemma SpaceSuffix(s: string)
    ensures Ends(s, SkipXmlSpace(s))
  {
    hide SkipXmlSpace;
  }

  lemma QuotedSuffix(s: string)
    requires ParseQuoted(s).Some?
    ensures Ends(s, ParseQuoted(s).value.1)
  {
    hide Find, DecodeValue, Ends;
    Drop(s, Find([s[0]], s, 1) + 1);
  }

  lemma AttributeSuffix(s: string)
    requires ParseAttribute(s).Some?
    ensures Ends(s, ParseAttribute(s).value.2)
  {
    hide TakeQName, SkipXmlSpace, ParseQuoted, NameStart, Ends, NameChar;
    var name := TakeQName(s);
    var after := s[|name|..];
    var eq := SkipXmlSpace(after);
    var value := eq[1..];
    var quoted := SkipXmlSpace(value);
    var r := ParseQuoted(quoted).value.1;
    Drop(s, |name|);
    SpaceSuffix(after);
    Drop(eq, 1);
    SpaceSuffix(value);
    QuotedSuffix(quoted);
    EndsThrough(value, quoted, r);
    EndsThrough(eq, value, r);
    EndsThrough(after, eq, r);
    EndsThrough(s, after, r);
  }

  lemma {:induction false} AttributesSuffix(s: string)
    requires ParseAttributes(s).Some?
    ensures var (_, closed, r) := ParseAttributes(s).value;
      Ends(s, r) && s[|s| - |r| - 1] == '>' && (closed ==> |r| + 2 <= |s| && s[|s| - |r| - 2] == '/')
    decreases |s|
  {
    hide SkipXmlSpace, ParseAttribute, StartsAt, Ends;
    var t := SkipXmlSpace(s);
    SpaceSuffix(s);
    var (_, closed, r) := ParseAttributes(s).value;
    if StartsAt(t, 0, ">") {
      CharAt(t, 0, ">", 0);
      Drop(t, 1);
      EndsThrough(s, t, t[1..]);
    } else if StartsAt(t, 0, "/>") {
      CharAt(t, 0, "/>", 0);
      CharAt(t, 0, "/>", 1);
      Drop(t, 2);
      EndsThrough(s, t, t[2..]);
    } else {
      AttributeSuffix(t);
      var next := ParseAttribute(t).value.2;
      AttributesSuffix(next);
      EndsThrough(t, next, r);
      EndsThrough(s, t, r);
    }
  }

  lemma EndTagSuffix(name: string, s: string)
    requires ParseEndTag(name, s).Some?
    ensures var r := ParseEndTag(name, s).value;
      && Ends(s, r) && |s| - |r| >= 3 && s[|s| - |r| - 1] == '>'
      && s[0] == '<' && TakeQName(s[2..]) == name && forall i :: 1 <= i < |s| - |r| ==> s[i] != '<'
  {
    hide TakeQName, SkipXmlSpace, NameChar, Ends, StartsAt;
    CharAt(s, 0, "</", 0);
    CharAt(s, 0, "</", 1);
    var afterName := s[2 + |name|..];
    var t := SkipXmlSpace(afterName);
    var r := t[1..];
    Drop(s, 2 + |name|);
    SpaceSuffix(afterName);
    Drop(t, 1);
    EndsThrough(s, afterName, t);
    EndsThrough(s, t, r);
    NoAngleInTag(s, name, |t|);
  }

  lemma NoAngleInTag(s: string, name: string, left: nat)
    requires StartsAt(s, 0, "</") && TakeQName(s[2..]) == name && 0 < left
    requires var afterName := s[2 + |name|..]; left == |SkipXmlSpace(afterName)| && SkipXmlSpace(afterName)[0] == '>'
    ensures forall i :: 1 <= i < |s| - left + 1 ==> s[i] != '<'
  {
    hide TakeQName, SkipXmlSpace, NameChar;
    assert s[1] == "</"[1];
    var afterName := s[2 + |name|..];
    SkipCuts(afterName);
    NoAngleInNames();
    forall i | 1 <= i < |s| - left + 1 ensures s[i] != '<' {
      if 2 <= i < 2 + |name| {
        assert s[i] == name[i - 2];
      } else if 2 + |name| <= i {
        assert s[i] == afterName[i - 2 - |name|];
      }
    }
  }

  /** What one content item was. */
  ghost predicate ElementItem(s: string, items: seq<Item>, r: string) {
    ParseElement(s).Some? && items == [Child(ParseElement(s).value.0)] && r == ParseElement(s).value.1
  }

  ghost predicate ClosedItem(s: string, r: string) {
    |s| - |r| >= 2 && s[|s| - |r| - 1] == '>' && (s[|s| - |r| - 2] == ']' || s[|s| - |r| - 2] == '-')
  }

  ghost predicate TextItem(s: string, items: seq<Item>, r: string) {
    && r != "" && r[0] == '<' && |r| < |s| && (forall i :: 0 <= i < |s| - |r| ==> s[i] != '<')
    && var text := DecodeText(NormalizeNewlines(s[..|s| - |r|]));
    text.Some? && items == [Chars(text.value)]
  }

  lemma ItemKinds(s: string)
    requires s != "" && ParseItem(s).Some?
    ensures var (items, r) := ParseItem(s).value;
      ElementItem(s, items, r) || (Ends(s, r) && (ClosedItem(s, r) || TextItem(s, items, r)))
  {
    hide NormalizeNewlines, DecodeText, ParseElement;
    if StartsAt(s, 0, "<![CDATA[") {
      var end := Find("]]>", s, 9);
      assert s[end + 1] == "]]>"[1] && s[end + 2] == "]]>"[2];
    } else if StartsAt(s, 0, "<!--") {
      var end := Find("--", s, 4);
      assert s[end + 1] == "-->"[1] && s[end + 2] == "-->"[2];
    } else if s[0] != '<' {
      var end := Find("<", s, 0);
      assert s[end] == "<"[0];
      forall i | 0 <= i < end ensures s[i] != '<' {
        assert !StartsAt(s, i, "<");
        assert s[i] == '<' ==> StartsAt(s, i, "<");
      }
    }
  }

  lemma {:induction false} ElementSuffix(s: string)
    requires ParseElement(s).Some?
    ensures var r := ParseElement(s).value.1; Ends(s, r) && s[|s| - |r| - 1] == '>'
    decreases |s|, 0
  {
    hide TakeQName, ParseElement, ParseAttributes, ParseContent, ParseEndTag, Ends;
    ElementUnfold(s);
    var name := TakeQName(s[1..]);
    var tag := s[1 + |name|..];
    Drop(s, 1 + |name|);
    AttributesSuffix(tag);
    var (_, closed, rest) := ParseAttributes(tag).value;
    EndsThrough(s, tag, rest);
    if !closed {
      ContentSuffix(rest);
      var tail := ParseContent(rest).value.1;
      EndsThrough(s, rest, tail);
      EndTagSuffix(name, tail);
      EndsThrough(s, tail, ParseEndTag(name, tail).value);
    }
  }

  lemma {:induction false} ContentSuffix(s: string)
    requires ParseContent(s).Some?
    ensures Ends(s, ParseContent(s).value.1)
    decreases |s|, 2
  {
    hide ParseItem, StartsAt;
    if !StartsAt(s, 0, "</") {
      ItemSuffix(s);
      var rest := ParseItem(s).value.1;
      ContentSuffix(rest);
      EndsThrough(s, rest, ParseContent(rest).value.1);
    }
  }

  lemma {:induction false} ItemSuffix(s: string)
    requires s != "" && ParseItem(s).Some?
    ensures Ends(s, ParseItem(s).value.1)
    decreases |s|, 1
  {
    hide ParseItem, ParseElement, ClosedItem, TextItem;
    ItemKinds(s);
    var (items, r) := ParseItem(s).value;
    if ElementItem(s, items, r) {
      ElementSuffix(s);
    }
  }

  // ---------------------------------------------------------------- content whose text ends in a brace

  predicate EndsInBrace(s: string) {
    s != "" && s[|s| - 1] == '}'
  }

  lemma {:induction false} NormalizedBrace(s: string)
    requires EndsInBrace(s)
    ensures EndsInBrace(NormalizeNewlines(s))
    decreases |s|
  {
    if |s| > 1 {
      var skip := if s[0] == '\r' && s[1] == '\n' then 2 else 1;
      if skip < |s| {
        NormalizedBrace(s[skip..]);
      }
    }
  }

  lemma {:induction false} DecodedBrace(s: string)
    requires EndsInBrace(s) && DecodeText(s).Some?
    ensures EndsInBrace(DecodeText(s).value)
    decreases |s|
  {
    hide CharRef;
    var used := Unit(s).value.1;
    assert s[0] == '&' ==> s[used - 1] == ';';
    if used < |s| {
      DecodedBrace(s[used..]);
    }
  }

  lemma TextBrace(s: string, items: seq<Item>, r: string)
    requires TextItem(s, items, r) && s[|s| - |r| - 1] == '}'
    ensures !AllSpace(DirectText(items)) && Children(items) == []
  {
    hide NormalizeNewlines, DecodeText, DirectText, Children;
    var raw := s[..|s| - |r|];
    NormalizedBrace(raw);
    DecodedBrace(NormalizeNewlines(raw));
    var text := DecodeText(NormalizeNewlines(raw)).value;
    OneText(text);
    assert !IsSpace('}');
  }

  lemma Regrouped<T>(a: seq<T>, b: seq<T>, c: seq<T>)
    ensures (a + b) + c == a + (b + c)
  {
  }

  lemma {:induction false} DirectConcat(a: seq<Item>, b: seq<Item>)
    ensures DirectText(a + b) == DirectText(a) + DirectText(b)
    decreases |a|
  {
    if a == [] {
      assert a + b == b;
    } else {
      assert (a + b)[0] == a[0] && (a + b)[1..] == a[1..] + b;
      DirectConcat(a[1..], b);
      Regrouped(if a[0].Chars? then a[0].text else "", DirectText(a[1..]), DirectText(b));
    }
  }

  lemma BlankPart(a: seq<Item>, b: seq<Item>)
    requires !AllSpace(DirectText(a)) || !AllSpace(DirectText(b))
    ensures !AllSpace(DirectText(a + b))
  {
    hide DirectText, AllSpace;
    DirectConcat(a, b);
    BlankCons(DirectText(a), DirectText(b));
  }

  lemma ItemBrace(s: string)
    requires s != "" && ParseItem(s).Some?
    requires var r := ParseItem(s).value.1; Ends(s, r) && |r| < |s| && s[|s| - |r| - 1] == '}'
    ensures !AllSpace(DirectText(ParseItem(s).value.0))
  {
    hide ParseItem, ParseElement, TextItem, DirectText, AllSpace;
    ItemKinds(s);
    var (items, r) := ParseItem(s).value;
    if ElementItem(s, items, r) {
      ElementSuffix(s);
    } else {
      TextBrace(s, items, r);
    }
  }

  /** Content whose last character is a brace holds text that is not blank. */
  lemma {:induction false} ContentBrace(s: string)
    requires ParseContent(s).Some?
    requires var tail := ParseContent(s).value.1; |tail| < |s| && s[|s| - |tail| - 1] == '}'
    ensures !AllSpace(DirectText(ParseContent(s).value.0))
    decreases |s|
  {
    hide ParseItem, StartsAt, DirectText, AllSpace, Ends;
    ItemSuffix(s);
    var (items, rest) := ParseItem(s).value;
    var (more, tail) := ParseContent(rest).value;
    ContentSuffix(rest);
    EndsThrough(s, rest, tail);
    if |tail| < |rest| {
      ContentBrace(rest);
    } else {
      EndsAll(rest, tail);
      ItemBrace(s);
    }
    BlankPart(items, more);
  }

  lemma EndsAll(s: string, r: string)
    requires Ends(s, r) && |r| == |s|
    ensures r == s
  {
  }

  // ---------------------------------------------------------------- the last block is an element with text in it

  const ROOT_END := "</assistant_payload>"
  const CLOSING := TOOL_END + ROOT_END
  const JSON_TAIL := "}" + CLOSING

  lemma EndLengths()
    ensures |TOOL_END| == 12 && |ROOT_END| == 20 && |CLOSING| == 32 && |JSON_TAIL| == 33
    ensures TOOL_END[0] == '<' && TOOL_END[10] == 'l' && ROOT_END[0] == '<' && ROOT_END[18] == 'd'
  {
  }

  lemma TailChars()
    ensures |JSON_TAIL| == 33 && |ROOT_END| == 20 && |CLOSING| == 32 && JSON_TAIL[1..] == CLOSING && JSON_TAIL[13..] == ROOT_END
    ensures JSON_TAIL[0] == '}' && JSON_TAIL[1] == '<' && JSON_TAIL[13] == '<'
    ensures JSON_TAIL[11] == 'l' && JSON_TAIL[31] == 'd'
  {
    EndLengths();
    var b, c := TOOL_END, ROOT_END;
    TailParts(b, c);
  }

  lemma TailParts(b: string, c: string)
    requires |b| == 12 && |c| == 20
    ensures var t := "}" + (b + c);
      && t[0] == '}' && t[1..] == b + c && t[13..] == c
      && t[1] == b[0] && t[13] == c[0] && t[11] == b[10] && t[31] == c[18]
  {
  }

  lemma ClosingText()
    ensures CLOSING[2..] == "tool_call" + (">" + ROOT_END)
  {
    assert TOOL_END == "</" + ("tool_call" + ">");
    var c := ROOT_END;
    ClosingParts("</", "tool_call", ">", c);
  }

  lemma ClosingParts(a: string, b: string, c: string, d: string)
    requires |a| == 2
    ensures (a + (b + c) + d)[2..] == b + (c + d)
  {
  }

  lemma EndAngles(j: nat)
    ensures j < 12 && TOOL_END[j] == '<' ==> j == 0
    ensures j < 12 && TOOL_END[j] == '>' ==> j == 11
    ensures j < 20 && ROOT_END[j] == '<' ==> j == 0
    ensures j < 20 && ROOT_END[j] == '>' ==> j == 19
  {
  }

  lemma TailAngles(j: nat)
    requires j < 33
    ensures |JSON_TAIL| == 33
    ensures JSON_TAIL[j] == '<' ==> j == 1 || j == 13
    ensures JSON_TAIL[j] == '>' ==> j == 12 || j == 32
  {
    EndLengths();
    var b, c := TOOL_END, ROOT_END;
    if 0 < j {
      EndAngles(j - 1);
      if j >= 13 {
        EndAngles(j - 13);
      }
    }
  }

  lemma TailAt(s: string, j: nat)
    requires Ends(s, JSON_TAIL) && j < 33
    ensures |JSON_TAIL| == 33 && |s| >= 33 && s[|s| - 33 + j] == JSON_TAIL[j]
  {
    EndLengths();
  }

  /** The end of a text that ends in the tail. */
  lemma TailPart(s: string, r: string)
    requires Ends(s, JSON_TAIL) && Ends(s, r)
    ensures |JSON_TAIL| == 33
    ensures |r| >= 33 ==> Ends(r, JSON_TAIL)
    ensures |r| <= 33 ==> r == JSON_TAIL[33 - |r|..]
  {
    EndLengths();
    var t := JSON_TAIL;
    BothEnd(s, r, t);
  }

  lemma BothEnd(s: string, r: string, t: string)
    requires Ends(s, r) && Ends(s, t)
    ensures |r| >= |t| ==> Ends(r, t)
    ensures |r| <= |t| ==> Ends(t, r)
  {
    assert |r| >= |t| ==> forall i :: 0 <= i < |t| ==> r[|r| - |t| + i] == s[|s| - |t| + i] == t[i];
    assert |r| <= |t| ==> forall i :: 0 <= i < |r| ==> t[|t| - |r| + i] == s[|s| - |r| + i] == r[i];
  }

  /** An element that calls for attention: a tool call with text of its own. */
  predicate TextCall(e: Element) {
    e.name == "tool_call" && !AllSpace(DirectText(e.content))
  }

  lemma LastAngle(s: string)
    ensures Ends(s, JSON_TAIL) ==> |s| >= 33 && s[|s| - 32] == '<'
  {
    if Ends(s, JSON_TAIL) {
      TailChars();
      TailAt(s, 1);
    }
  }

  /** In a text that ends in the tail, the end tag just before the root's is the last block's. */
  lemma TailTag(s: string, tail: string, name: string)
    requires Ends(s, JSON_TAIL) && Ends(s, tail)
    requires ParseEndTag(name, tail) == Some(ROOT_END)
    ensures |tail| == 32 && name == "tool_call"
  {
    hide *;
    TailChars();
    EndTagSuffix(name, tail);
    TailPart(s, tail);
    LastAngle(tail);
    if |tail| < 33 {
      TailAngles(33 - |tail|);
    }
    assert tail == CLOSING;
    ClosingText();
    PlainToolCall();
    PlainIsXmlName("tool_call");
    NameChars("tool_call");
    NameIsXml();
    TakeNameExact("tool_call", ">" + ROOT_END);
  }

  /** The element that ends just before the closing root tag. */
  lemma LastElement(s: string)
    requires Ends(s, JSON_TAIL) && ParseElement(s).Some? && ParseElement(s).value.1 == ROOT_END
    ensures TextCall(ParseElement(s).value.0)
  {
    hide *;
    TailChars();
    ElementUnfold(s);
    var name := TakeQName(s[1..]);
    var tag := s[1 + |name|..];
    Drop(s, 1 + |name|);
    AttributesSuffix(tag);
    var (_, closed, rest) := ParseAttributes(tag).value;
    EndsThrough(s, tag, rest);
    TailAt(s, 11);
    TailAt(s, 0);
    if !closed {
      LastContent(s, rest, name);
      IsTextCall(ParseElement(s).value.0);
    }
  }

  lemma IsTextCall(e: Element)
    requires e.name == "tool_call" && !AllSpace(DirectText(e.content))
    ensures TextCall(e)
  {
  }

  lemma LastContent(s: string, rest: string, name: string)
    requires Ends(s, JSON_TAIL) && Ends(s, rest) && |rest| < |s| && s[|s| - |rest| - 1] == '>'
    requires ParseContent(rest).Some? && ParseEndTag(name, ParseContent(rest).value.1) == Some(ROOT_END)
    ensures name == "tool_call" && !AllSpace(DirectText(ParseContent(rest).value.0))
  {
    hide *;
    TailChars();
    ContentSuffix(rest);
    var tail := ParseContent(rest).value.1;
    EndsThrough(s, rest, tail);
    TailTag(s, tail, name);
    TailAt(s, 0);
    TailPart(s, rest);
    if |rest| >= 33 {
      TailAt(rest, 0);
      ContentBrace(rest);
    }
  }

  // ---------------------------------------------------------------- the whole payload

  ghost predicate HasTextCall(items: seq<Item>) {
    exists i :: 0 <= i < |items| && items[i].Child? && TextCall(items[i].element)
  }

  lemma TextCallLater(a: seq<Item>, b: seq<Item>)
    requires HasTextCall(a) || HasTextCall(b)
    ensures HasTextCall(a + b)
  {
    hide TextCall;
    if HasTextCall(a) {
      var i :| 0 <= i < |a| && a[i].Child? && TextCall(a[i].element);
      assert (a + b)[i] == a[i];
    } else {
      var i :| 0 <= i < |b| && b[i].Child? && TextCall(b[i].element);
      assert (a + b)[|a| + i] == b[i];
    }
  }

  lemma OneTextCall(e: Element)
    requires TextCall(e)
    ensures HasTextCall([Child(e)])
  {
    assert [Child(e)][0] == Child(e);
  }

  /** Short rests of a text that ends in the tail. */
  lemma ShortRest(s: string, r: string)
    requires Ends(s, JSON_TAIL) && Ends(s, r) && |r| < 33
    ensures |s| >= 33
    ensures s[|s| - |r| - 1] == '>' ==> (r == "" || r == ROOT_END) && (s[|s| - |r| - 2] == 'l' || s[|s| - |r| - 2] == 'd')
    ensures r != "" && r[0] == '<' ==> r == CLOSING || r == ROOT_END
  {
    hide *;
    TailChars();
    TailPart(s, r);
    var at := 32 - |r|;
    TailAt(s, at);
    TailAngles(at);
    TailAt(s, 11);
    TailAt(s, 31);
    if r != "" {
      TailAngles(at + 1);
      assert r[0] == JSON_TAIL[at + 1];
    }
  }

  lemma NoAngleBeforeRoot(s: string)
    requires Ends(s, JSON_TAIL) && Ends(s, ROOT_END)
    ensures |s| >= 33 && s[|s| - 32] == '<' && |ROOT_END| == 20
  {
    hide Ends;
    TailChars();
    LastAngle(s);
  }

  lemma ClosingIsNotRoot()
    ensures StartsAt(CLOSING, 0, "</") && ParseEndTag(ROOT, CLOSING) != Some("")
    ensures ParseContent("") == None
  {
    EndLengths();
    var b, c := TOOL_END, ROOT_END;
    var s := CLOSING;
    assert s == b + c && s[12] == c[0] && s[0] == b[0] && s[1] == b[1];
    assert b[1] == '/';
    hide ParseEndTag;
    if ParseEndTag(ROOT, s) == Some("") {
      EndTagShape(ROOT, s);
    }
  }

  /** The item that reaches into the tail is the last tool call. */
  lemma LastItem(s: string)
    requires Ends(s, JSON_TAIL) && s != "" && ParseItem(s).Some?
    requires var r := ParseItem(s).value.1; |r| < 33 && r != "" && r != CLOSING
    ensures HasTextCall(ParseItem(s).value.0)
  {
    hide *;
    ItemSuffix(s);
    ItemKinds(s);
    var (items, r) := ParseItem(s).value;
    ShortRest(s, r);
    LastKinds(s, items, r);
    if r == ROOT_END {
      NoAngleBeforeRoot(s);
    }
    if ElementItem(s, items, r) {
      LastElement(s);
      OneTextCall(ParseElement(s).value.0);
    }
  }

  lemma LastKinds(s: string, items: seq<Item>, r: string)
    ensures ElementItem(s, items, r) ==> ParseElement(s).Some? && items == [Child(ParseElement(s).value.0)] && r == ParseElement(s).value.1
    ensures ElementItem(s, items, r) ==> s[|s| - |r| - 1] == '>'
    ensures ClosedItem(s, r) ==> s[|s| - |r| - 1] == '>' && s[|s| - |r| - 2] in {']', '-'} && |r| + 1 < |s|
    ensures TextItem(s, items, r) ==> r != "" && r[0] == '<' && |r| < |s| && forall i :: 0 <= i < |s| - |r| ==> s[i] != '<'
  {
    hide ParseElement, DecodeText, NormalizeNewlines;
    if ElementItem(s, items, r) {
      ElementSuffix(s);
    }
  }

  /** Content of the root that ends in the tail has a tool call with text in it. */
  lemma {:induction false} RootContent(s: string)
    requires Ends(s, JSON_TAIL) && ParseContent(s).Some?
    requires ParseEndTag(ROOT, ParseContent(s).value.1) == Some("")
    ensures HasTextCall(ParseContent(s).value.0)
    decreases |s|
  {
    hide *;
    LastAngle(s);
    ContentUnfold(s);
    ClosingIsNotRoot();
    if StartsAt(s, 0, "</") {
      EndTagShape(ROOT, s);
    } else {
      ItemSuffix(s);
      var (items, rest) := ParseItem(s).value;
      var more := ParseContent(rest).value.0;
      ContentUnfold(rest);
      TailPart(s, rest);
      if |rest| >= 33 {
        RootContent(rest);
      } else {
        LastItem(s);
      }
      TextCallLater(items, more);
    }
  }

  lemma ContentUnfold(s: string)
    requires ParseContent(s).Some?
    ensures s != ""
    ensures StartsAt(s, 0, "</") ==> ParseContent(s).value == ([], s)
    ensures !StartsAt(s, 0, "</") ==>
      && ParseItem(s).Some? && |ParseItem(s).value.1| < |s|
      && ParseContent(ParseItem(s).value.1).Some?
      && ParseContent(s).value ==
        (ParseItem(s).value.0 + ParseContent(ParseItem(s).value.1).value.0, ParseContent(ParseItem(s).value.1).value.1)
  {
    hide ParseItem, StartsAt;
  }

  lemma RootDocument(body: string)
    requires FromString(Document(body)).Some?
    ensures ParseContent(body + ROOT_END).Some? && ParseElement(Document(body)).Some?
    ensures ParseEndTag(ROOT, ParseContent(body + ROOT_END).value.1) == Some("")
    ensures ResolveItems(ParseContent(body + ROOT_END).value.0, [ParseElement(Document(body)).value.0.attributes])
      == Some(FromString(Document(body)).value.content)
  {
    hide *;
    var rest := body + ROOT_END;
    var d := Document(body);
    FromStringParts(d);
    RootText(body);
    ElementUnfold(d);
    RootName();
    NameChars(ROOT);
    NameIsXml();
    TakeNameExact(ROOT, ">" + rest);
    NoAttributes(rest);
    var root := ParseElement(d).value.0;
    ElementKept(root, []);
    assert [] + [root.attributes] == [root.attributes];
  }

  lemma RootText(body: string)
    ensures |ROOT| == 17 && Document(body)[1..] == ROOT + (">" + (body + ROOT_END))
    ensures |Document(body)| >= 18 && Document(body)[18..] == ">" + (body + ROOT_END)
  {
    assert Document(body) == "<" + (ROOT + (">" + (body + ROOT_END)));
  }

  lemma {:induction false} ChildHasTextCall(items: seq<Item>)
    requires HasTextCall(items)
    ensures exists i :: 0 <= i < |Children(items)| && TextCall(Children(items)[i])
    decreases |items|
  {
    hide TextCall;
    var i :| 0 <= i < |items| && items[i].Child? && TextCall(items[i].element);
    if i == 0 {
      assert Children(items)[0] == items[0].element;
    } else {
      assert items[1..][i - 1] == items[i];
      ChildHasTextCall(items[1..]);
      var j :| 0 <= j < |Children(items[1..])| && TextCall(Children(items[1..])[j]);
      var head := if items[0].Child? then [items[0].element] else [];
      assert Children(items) == head + Children(items[1..]);
      assert Children(items)[|head| + j] == Children(items[1..])[j];
    }
  }

  /** Resolving the names cannot make it readable. */
  predicate Unreadable(e: Element) {
    e.name != "think" && !AllSpace(DirectText(e.content))
  }

  lemma StaysUnreadable(e: Element, scopes: seq<map<string, string>>)
    requires TextCall(e) && Resolve(e, scopes).Some?
    ensures Unreadable(Resolve(e, scopes).value)
  {
    hide Resolve, ResolveItems, DirectText, AllSpace, Children;
    ElementKept(e, scopes);
    assert "tool_call"[1] != "think"[1] && "think"[0] != '{';
  }

  lemma ResolvedHasTextCall(items: seq<Item>, scopes: seq<map<string, string>>)
    requires HasTextCall(items) && ResolveItems(items, scopes).Some?
    ensures var resolved := Children(ResolveItems(items, scopes).value);
      exists i :: 0 <= i < |resolved| && Unreadable(resolved[i])
  {
    hide *;
    ChildHasTextCall(items);
    ContentKept(items, scopes);
    var i :| 0 <= i < |Children(items)| && TextCall(Children(items)[i]);
    StaysUnreadable(Children(items)[i], scopes);
  }

  lemma UnreadableRefused(e: Element, turn: Turn, maxCalls: int)
    requires Unreadable(e)
    ensures XmlChild(e, turn, maxCalls) == None
  {
    hide AddCall, ReadArgs, CanonicalTool, Strip, DirectText, AllSpace, Children;
  }

  lemma {:induction false} FoldRefuses(children: seq<Element>, i: nat, turn: Turn, maxCalls: int)
    requires i < |children| && Unreadable(children[i])
    ensures XmlFold(children, turn, maxCalls).Err?
    decreases |children|
  {
    hide XmlChild, Unreadable;
    if i == 0 {
      UnreadableRefused(children[0], turn, maxCalls);
    } else if XmlChild(children[0], turn, maxCalls).Some? {
      FoldRefuses(children[1..], i - 1, XmlChild(children[0], turn, maxCalls).value, maxCalls);
    }
  }

  lemma EndsWithRoot(body: string)
    requires Ends(body, "}" + TOOL_END)
    ensures Ends(body + ROOT_END, JSON_TAIL)
  {
    var b, c := "}" + TOOL_END, ROOT_END;
    assert JSON_TAIL == b + c;
    JoinedEnd(body, b, c);
  }

  lemma JoinedEnd(s: string, b: string, c: string)
    requires Ends(s, b)
    ensures Ends(s + c, b + c)
  {
    var n := |s| - |b|;
    assert s == s[..n] + b;
    assert (s + c)[n..] == b + c;
  }

  lemma ParseXmlNeeds(body: string, maxCalls: int)
    requires ParseXml(body, maxCalls).Ok?
    ensures FromString(Document(body)).Some?
    ensures XmlFold(Children(FromString(Document(body)).value.content), START, maxCalls).Ok?
  {
    hide AllowedFrom, FromString, Document, Children, DirectText, XmlFold;
  }

  /** A payload whose last block closes right after a brace is never an XML payload. */
  lemma XmlRefuses(body: string, maxCalls: int)
    requires Ends(body, "}" + TOOL_END)
    ensures ParseXml(body, maxCalls).Err?
  {
    hide *;
    if ParseXml(body, maxCalls).Ok? {
      ParseXmlNeeds(body, maxCalls);
      RootDocument(body);
      EndsWithRoot(body);
      RootContent(body + ROOT_END);
      var scopes := [ParseElement(Document(body)).value.0.attributes];
      ResolvedHasTextCall(ParseContent(body + ROOT_END).value.0, scopes);
      var children := Children(FromString(Document(body)).value.content);
      var i :| 0 <= i < |children| && Unreadable(children[i]);
      FoldRefuses(children, i, START, maxCalls);
    }
  }

  // ---------------------------------------------------------------- rendered JSON payloads close after a brace

  lemma {:induction false} MembersLast(whole: Json, keys: seq<string>, compact: bool)
    requires whole.Dict? && forall k :: k in keys ==> k in whole.members
    ensures Ends(EncodeMembers(whole, keys, compact), "}")
    decreases |keys|
  {
    hide Encode, EncodeString, SortedKeys;
    if |keys| > 1 {
      hide Ends;
      MembersLast(whole, keys[1..], compact);
      LongerEnd(EncodeString(keys[0]) + Colon(compact) + Encode(whole.members[keys[0]], compact) + Comma(compact),
                EncodeMembers(whole, keys[1..], compact), "}");
    }
  }

  lemma LongerEnd(a: string, s: string, r: string)
    requires Ends(s, r)
    ensures Ends(a + s, r)
  {
  }

  lemma BlockCloses(call: ToolCall, compact: bool)
    ensures Ends(RenderJsonCall(call, compact), "}" + TOOL_END)
  {
    hide EncodeMembers, SortedKeys, Ends;
    var members := CallPayload(call).members;
    var inner := EncodeMembers(CallPayload(call), SortedKeys(members.Keys), compact);
    MembersLast(CallPayload(call), SortedKeys(members.Keys), compact);
    JoinedEnd(inner, "}", TOOL_END);
    assert RenderJsonCall(call, compact) == (TOOL_START + "{") + (inner + TOOL_END);
    LongerEnd(TOOL_START + "{", inner + TOOL_END, "}" + TOOL_END);
  }

  lemma {:induction false} BlocksClose(calls: seq<ToolCall>, compact: bool)
    requires calls != []
    ensures Ends(JsonBlocks(calls, compact), "}" + TOOL_END)
    decreases |calls|
  {
    hide RenderJsonCall, Ends;
    if |calls| == 1 {
      BlockCloses(calls[0], compact);
      var block := RenderJsonCall(calls[0], compact);
      assert JsonBlocks(calls, compact) == block + JsonBlocks(calls[1..], compact) == block + "" == block;
    } else {
      BlocksClose(calls[1..], compact);
      LongerEnd(RenderJsonCall(calls[0], compact), JsonBlocks(calls[1..], compact), "}" + TOOL_END);
    }
  }

  /** The XML parser refuses every rendered JSON payload, whatever its strings contain. */
  lemma XmlRefusesJson(e: Envelope, compact: bool, maxCalls: int)
    requires ValidEnvelope(e)
    ensures ParseXml(JsonText(e, compact), maxCalls).Err?
  {
    hide JsonBlocks, Ends, ParseXml, SubmitAlone;
    BlocksClose(e.calls, compact);
    LongerEnd(if e.thinking.Some? then THINK_START + e.thinking.value + THINK_END else "",
              JsonBlocks(e.calls, compact), "}" + TOOL_END);
    XmlRefuses(JsonText(e, compact), maxCalls);
  }
}
