/** ElementTree's reading of the text the XML printer prints: names, the one attribute, escaped text and CDATA
    sections, each followed by anything. */
module XmlTreeRendered {
  import opened Text
  import opened JsonCodec
  import opened JsonRoundTrip
  import opened Contracts
  import opened XmlTree
  import opened ActionRender

  // ---------------------------------------------------------------- character data

  lemma NormalizeCases(x: string)
    ensures NormalizeNewlines("\r\n" + x) == "\n" + NormalizeNewlines(x)
    ensures (x == [] || x[0] != '\n') ==> NormalizeNewlines("\r" + x) == "\n" + NormalizeNewlines(x)
  {
    assert ("\r\n" + x)[2..] == x;
    assert ("\r" + x)[1..] == x;
  }

  lemma EscapeNewline(x: string)
    ensures EscapeXml("\n" + x) == "\n" + EscapeXml(x)
    ensures EscapeXml("\r" + x) == "\r" + EscapeXml(x)
  {
    EscapedHead("\n" + x);
    EscapedHead("\r" + x);
    assert ("\n" + x)[1..] == x && ("\r" + x)[1..] == x;
  }

  lemma EscapedStart(s: string)
    ensures (s == [] || s[0] != '\n') ==> (EscapeXml(s) == [] || EscapeXml(s)[0] != '\n')
  {
    if s != [] {
      EscapedHead(s);
    }
  }

  lemma NoReturn(c: char)
    requires c != '\r'
    ensures forall i :: 0 <= i < |EscapedForm(c)| ==> EscapedForm(c)[i] != '\r'
  {
  }

  lemma {:induction false} NormalizeEscaped(s: string)
    ensures NormalizeNewlines(EscapeXml(s)) == EscapeXml(NormalizeNewlines(s))
    decreases |s|
  {
    if s == [] {
    } else if s[0] == '\r' && |s| > 1 && s[1] == '\n' {
      hide NormalizeNewlines, EscapeXml;
      var x := s[2..];
      assert s == "\r\n" + x && "\r\n" + x == "\r" + ("\n" + x);
      EscapeNewline("\n" + x);
      EscapeNewline(x);
      NormalizeCases(EscapeXml(x));
      assert "\r" + ("\n" + EscapeXml(x)) == "\r\n" + EscapeXml(x);
      NormalizeCases(x);
      NormalizeEscaped(x);
      EscapeNewline(NormalizeNewlines(x));
    } else if s[0] == '\r' {
      hide NormalizeNewlines, EscapeXml;
      var x := s[1..];
      assert s == "\r" + x;
      EscapeNewline(x);
      EscapedStart(x);
      NormalizeCases(EscapeXml(x));
      NormalizeCases(x);
      NormalizeEscaped(x);
      EscapeNewline(NormalizeNewlines(x));
    } else {
      hide EscapeXml, NormalizeNewlines;
      NormalizeEscaped(s[1..]);
      EscapedHead(s);
      NoReturn(s[0]);
      PlainPrefix(EscapedForm(s[0]), EscapeXml(s[1..]));
      PlainPrefix([s[0]], s[1..]);
      assert s == [s[0]] + s[1..];
      var n := [s[0]] + NormalizeNewlines(s[1..]);
      EscapedHead(n);
      assert n[1..] == NormalizeNewlines(s[1..]);
    }
  }

  function EscapedForm(c: char): string {
    if c == '&' then "&amp;" else if c == '<' then "&lt;" else if c == '>' then "&gt;" else [c]
  }

  lemma EscapedHead(s: string)
    requires s != []
    ensures EscapeXml(s) == EscapedForm(s[0]) + EscapeXml(s[1..])
    ensures EscapeXml(s)[0] == '\n' <==> s[0] == '\n'
  {
  }

  lemma {:induction false} PlainPrefix(a: string, b: string)
    requires forall i :: 0 <= i < |a| ==> a[i] != '\r'
    ensures NormalizeNewlines(a + b) == a + NormalizeNewlines(b)
    decreases |a|
  {
    if a == [] {
      assert a + b == b;
    } else {
      assert (a + b)[1..] == a[1..] + b;
      PlainPrefix(a[1..], b);
      assert a == [a[0]] + a[1..];
    }
  }

  lemma {:induction false} DecodeEscaped(s: string)
    ensures DecodeText(EscapeXml(s)) == Some(s)
    ensures forall i :: 0 <= i < |EscapeXml(s)| ==> EscapeXml(s)[i] != '>' && EscapeXml(s)[i] != '<'
    decreases |s|
  {
    hide DecodeText;
    if s == [] {
      DecodeNothing();
    } else {
      hide EscapeXml;
      DecodeEscaped(s[1..]);
      var head, tail := EscapedForm(s[0]), EscapeXml(s[1..]);
      EscapedHead(s);
      var e := EscapeXml(s);
      NoCData(e);
      DecodeHead(s[0], tail);
      assert s == [s[0]] + s[1..];
    }
  }

  lemma DecodeNothing()
    ensures DecodeText("") == Some("")
  {
  }

  lemma NoCData(e: string)
    requires forall i :: 0 <= i < |e| ==> e[i] != '>'
    ensures !StartsAt(e, 0, "]]>")
  {
    assert "]]>"[2] == '>';
    if |e| >= 3 {
      assert e[0 + 2] != '>';
    }
  }

  lemma DecodeHead(c: char, tail: string)
    requires !StartsAt(EscapedForm(c) + tail, 0, "]]>")
    ensures DecodeText(EscapedForm(c) + tail) ==
      match DecodeText(tail)
      case None => None
      case Some(rest) => Some([c] + rest)
  {
    var e := EscapedForm(c) + tail;
    assert e[|EscapedForm(c)|..] == tail;
    SplitAt(e, 0, EscapedForm(c), tail);
    if c == '&' {
      assert StartsAt(e, 0, "&amp;");
      NotStarting(e, 0, "&lt;");
      NotStarting(e, 0, "&gt;");
    } else if c == '<' {
      assert StartsAt(e, 0, "&lt;");
    } else if c == '>' {
      assert StartsAt(e, 0, "&gt;");
      NotStarting(e, 0, "&lt;");
    }
  }

  // ---------------------------------------------------------------- one piece of content

  lemma ParseCData(t: string, rest: string)
    requires Find(CDATA_END, t, 0) == -1
    ensures ParseItem(CDATA_START + t + CDATA_END + rest) == Some(([Chars(NormalizeNewlines(t))], rest))
  {
    hide NormalizeNewlines, DecodeText, ParseElement;
    var s := CDATA_START + t + CDATA_END + rest;
    CDataEnd(t, rest);
    StartsIsSlice(s, 9, t);
    assert s[9..9 + |t|] == t;
    assert s[9 + |t| + 3..] == rest;
  }

  lemma CDataEnd(t: string, rest: string)
    requires Find(CDATA_END, t, 0) == -1
    ensures StartsAt(CDATA_START + t + CDATA_END + rest, 0, CDATA_START)
    ensures StartsAt(CDATA_START + t + CDATA_END + rest, 9, t)
    ensures Find(CDATA_END, CDATA_START + t + CDATA_END + rest, 9) == 9 + |t|
  {
    var s := CDATA_START + t + CDATA_END + rest;
    hide Find;
    assert StartsAt(s, 0, CDATA_START + t + CDATA_END);
    SplitAt(s, 0, CDATA_START + t, CDATA_END);
    SplitAt(s, 0, CDATA_START, t);
    FindCDataEnd(s, 9, t);
  }

  lemma ParseText(t: string, rest: string, text: string)
    requires t != [] && forall i :: 0 <= i < |t| ==> t[i] != '<'
    requires rest != [] && rest[0] == '<'
    requires DecodeText(NormalizeNewlines(t)) == Some(text)
    ensures ParseItem(t + rest) == Some(([Chars(text)], rest))
  {
    hide NormalizeNewlines, DecodeText, ParseElement;
    var s := t + rest;
    FirstAngle(t, rest);
    assert s[0] == t[0];
    NotStarting(s, 0, "<![CDATA[");
    NotStarting(s, 0, "<!--");
    assert s[..|t|] == t && s[|t|..] == rest;
  }

  lemma FirstAngle(t: string, rest: string)
    requires forall i :: 0 <= i < |t| ==> t[i] != '<'
    requires rest != [] && rest[0] == '<'
    ensures Find("<", t + rest, 0) == |t|
  {
    var s := t + rest;
    assert StartsAt(s, |t|, "<");
    forall k | 0 <= k < |t| ensures !StartsAt(s, k, "<") {
      NotStarting(s, k, "<");
    }
  }

  // ---------------------------------------------------------------- tags

  predicate XmlName(name: string) {
    name != [] && NameStart(name[0]) && forall i :: 0 <= i < |name| ==> NameChar(name[i])
  }

  lemma PlainIsXmlName(name: string)
    requires PlainName(name)
    ensures XmlName(name)
  {
  }

  lemma {:induction false} TakeNameExact(name: string, rest: string)
    requires forall i :: 0 <= i < |name| ==> NameChar(name[i])
    requires rest != [] && !NameChar(rest[0])
    ensures TakeName(name + rest) == name
    ensures rest[0] != ':' ==> TakeQName(name + rest) == name
    decreases |name|
  {
    if name == [] {
      assert name + rest == rest;
    } else {
      assert (name + rest)[1..] == name[1..] + rest;
      TakeNameExact(name[1..], rest);
    }
    assert (name + rest)[|name|..] == rest;
  }

  lemma EndTagExact(name: string, rest: string)
    requires XmlName(name)
    ensures ParseEndTag(name, "</" + name + ">" + rest) == Some(rest)
  {
    hide TakeQName, XmlName, SkipXmlSpace, NameChar;
    var s := "</" + name + ">" + rest;
    assert StartsAt(s, 0, "</");
    assert s[2..] == name + (">" + rest);
    NameChars(name);
    NameIsXml();
    TakeNameExact(name, ">" + rest);
    assert s[2 + |name|..] == ">" + rest;
    NoSpaceAhead(">" + rest);
    assert (">" + rest)[1..] == rest;
  }

  lemma NameChars(name: string)
    requires XmlName(name)
    ensures name != [] && NameStart(name[0]) && forall i :: 0 <= i < |name| ==> NameChar(name[i])
  {
  }

  lemma NoAttributes(rest: string)
    ensures ParseAttributes(">" + rest) == Some((map[], false, rest))
  {
    hide ParseAttribute;
    var s := ">" + rest;
    assert StartsAt(s, 0, ">") && s[1..] == rest;
  }

  /** A start tag's only attribute. */
  lemma OneAttribute(key: string, value: string, rest: string)
    requires XmlName(key) && PlainName(value)
    ensures ParseAttributes(" " + (key + ("=\"" + value + "\"" + (">" + rest)))) == Some((map[key := value], false, rest))
  {
    hide ParseAttribute, PlainName, SkipXmlSpace, XmlName;
    var t := key + ("=\"" + value + "\"" + (">" + rest));
    var s := " " + t;
    NameChars(key);
    NameIsXml();
    assert s[0] == ' ' && s[1..] == t && t[0] == key[0];
    SpaceAhead(s);
    NotSpaceStart(t[0]);
    NoSpaceAhead(t);
    NotStarting(t, 0, ">");
    NotStarting(t, 0, "/>");
    ParseOneAttribute(key, value, ">" + rest);
    NoAttributes(rest);
  }

  lemma NotSpaceStart(c: char)
    requires NameStart(c)
    ensures !XmlSpace(c) && c != '>' && c != '/'
  {
  }

  /** The attribute of a rendered tool call. */
  lemma NameAttribute(value: string, rest: string)
    requires PlainName(value)
    ensures ParseAttributes(" name=\"" + value + "\">" + rest) == Some((map["name" := value], false, rest))
  {
    hide PlainName, ParseAttributes;
    assert XmlName("name") by { NameIsXml(); }
    OneAttribute("name", value, rest);
    AttributeText("name", value, rest);
    assert " " + ("name" + "=\"") == " name=\"";
  }

  lemma AttributeText(key: string, value: string, rest: string)
    ensures " " + (key + ("=\"" + value + "\"" + (">" + rest))) == " " + (key + "=\"") + value + "\">" + rest
  {
  }

  lemma AttributeIs(name: string, eq: string, quoted: string, value: string, rest: string)
    requires name != "" && NameStart(name[0]) && TakeQName(name + eq) == name
    requires eq != "" && eq[0] == '=' && eq[1..] == quoted && SkipXmlSpace(eq) == eq && SkipXmlSpace(quoted) == quoted
    requires ParseQuoted(quoted) == Some((value, rest))
    ensures ParseAttribute(name + eq) == Some((name, value, rest))
  {
    hide TakeQName, ParseQuoted, SkipXmlSpace, NameStart, NameChar;
    assert (name + eq)[|name|..] == eq && (name + eq)[0] == name[0];
  }

  lemma ParseOneAttribute(key: string, value: string, rest: string)
    requires XmlName(key) && PlainName(value)
    ensures ParseAttribute(key + ("=\"" + value + "\"" + rest)) == Some((key, value, rest))
  {
    hide TakeQName, ParseQuoted, PlainName, SkipXmlSpace, ParseAttribute, NameChar, NameStart, XmlName;
    var quoted := "\"" + value + "\"" + rest;
    var eq := "=\"" + value + "\"" + rest;
    assert eq == "=" + quoted;
    NameChars(key);
    NameIsXml();
    TakeNameExact(key, eq);
    NoSpaceAhead(eq);
    NoSpaceAhead(quoted);
    ParseNameValue(value, rest);
    AttributeIs(key, eq, quoted, value, rest);
  }

  lemma ParseNameValue(value: string, rest: string)
    requires PlainName(value)
    ensures ParseQuoted("\"" + value + "\"" + rest) == Some((value, rest))
  {
    hide DecodeValue, NormalizeNewlines, Find, PlainName;
    FindQuote(value, rest);
    QuotedParts(value, rest);
    DecodeName(value);
  }

  lemma SpaceAhead(s: string)
    requires s != [] && s[0] == ' '
    ensures SkipXmlSpace(s) == SkipXmlSpace(s[1..])
  {
  }

  lemma NoSpaceAhead(s: string)
    requires s != [] && !XmlSpace(s[0])
    ensures SkipXmlSpace(s) == s
  {
  }

  lemma NameIsXml()
    ensures forall i :: 0 <= i < |"name"| ==> NameChar("name"[i])
    ensures NameStart('n') && !NameChar('=') && !NameChar('>')
  {
  }

  lemma QuotedParts(value: string, rest: string)
    requires PlainName(value)
    ensures ("\"" + value + "\"" + rest)[1..1 + |value|] == value
    ensures ("\"" + value + "\"" + rest)[|value| + 2..] == rest
    ensures '<' !in value
  {
  }

  lemma DecodeName(value: string)
    requires PlainName(value)
    ensures DecodeValue(NormalizeNewlines(value)) == Some(value)
  {
    NormalizePlain(value);
    ValuePlain(value);
  }

  lemma {:induction false} ValuePlain(s: string)
    requires forall i :: 0 <= i < |s| ==> s[i] != '&' && !XmlSpace(s[i])
    ensures DecodeValue(s) == Some(s)
    decreases |s|
  {
    if s != [] {
      ValuePlain(s[1..]);
      assert s == [s[0]] + s[1..];
    }
  }

  lemma FindQuote(value: string, rest: string)
    requires PlainName(value)
    ensures Find(['"'], "\"" + value + "\"" + rest, 1) == 1 + |value|
  {
    var s := "\"" + value + "\"" + rest;
    assert StartsAt(s, 1 + |value|, ['"']);
    forall k | 1 <= k < 1 + |value| ensures !StartsAt(s, k, ['"']) {
      assert s[k] == value[k - 1];
      NotStarting(s, k, ['"']);
    }
  }

  /** Text without `&`, `]` or line ends stands for itself. */
  lemma {:induction false} DecodePlain(s: string)
    requires forall i :: 0 <= i < |s| ==> s[i] != '&' && s[i] != ']'
    ensures DecodeText(s) == Some(s)
    decreases |s|
  {
    if s != [] {
      NotStarting(s, 0, "]]>");
      DecodePlain(s[1..]);
      assert s == [s[0]] + s[1..];
    }
  }

  // ---------------------------------------------------------------- elements

  /** A start tag, content that ends at the end tag, and the end tag are one element. */
  lemma ParseWhole(name: string, tagRest: string, attributes: map<string, string>, body: string, items: seq<Item>, rest: string)
    requires XmlName(name)
    requires tagRest != [] && !NameChar(tagRest[0]) && tagRest[0] != ':'
    requires ParseAttributes(tagRest + (body + ("</" + name + ">" + rest)))
      == Some((attributes, false, body + ("</" + name + ">" + rest)))
    requires ParseContent(body + ("</" + name + ">" + rest)) == Some((items, "</" + name + ">" + rest))
    ensures ParseElement("<" + name + tagRest + body + ("</" + name + ">" + rest)) == Some((Element(name, attributes, items), rest))
  {
    hide TakeQName, ParseAttributes, ParseContent, ParseEndTag, XmlName;
    var after := tagRest + (body + ("</" + name + ">" + rest));
    var s := "<" + name + tagRest + body + ("</" + name + ">" + rest);
    NameChars(name);
    assert s[1..] == name + after;
    TakeNameExact(name, after);
    assert s[1 + |name|..] == after;
    EndTagExact(name, rest);
  }

  lemma EndOfContent(name: string, rest: string)
    ensures ParseContent("</" + name + ">" + rest) == Some(([], "</" + name + ">" + rest))
  {
    hide ParseItem;
    assert StartsAt("</" + name + ">" + rest, 0, "</");
  }

  /** One item, then the rest of the content. */
  lemma ContentCons(s: string, items: seq<Item>, rest: string, more: seq<Item>, tail: string)
    requires s != [] && !StartsAt(s, 0, "</")
    requires ParseItem(s) == Some((items, rest))
    requires ParseContent(rest) == Some((more, tail))
    ensures ParseContent(s) == Some((items + more, tail))
  {
    hide ParseItem;
  }

  lemma ElementIsItem(s: string, element: Element, rest: string)
    requires ParseElement(s) == Some((element, rest))
    ensures s != [] && !StartsAt(s, 0, "</") && ParseItem(s) == Some(([Child(element)], rest))
  {
    hide ParseAttributes, ParseContent, ParseEndTag;
    assert s[0] == '<' && NameStart(s[1]);
    NotStarting(s, 0, "</");
    NotStarting(s, 0, "<![CDATA[");
    NotStarting(s, 0, "<!--");
  }

  /** The content of an element that holds one rendered string. */
  lemma StringContent(text: string, name: string, rest: string)
    ensures ParseContent(RenderXmlString(text) + ("</" + name + ">" + rest))
      == Some(([Chars(NormalizeNewlines(text))], "</" + name + ">" + rest))
  {
    hide ParseItem, ParseContent, NormalizeNewlines, Find;
    var close := "</" + name + ">" + rest;
    var s := RenderXmlString(text) + close;
    EndOfContent(name, rest);
    if Find(CDATA_END, text, 0) == -1 {
      ParseCData(text, close);
      assert s == CDATA_START + text + CDATA_END + close;
      assert s[0] == '<' && s[1] == '!';
      NotStarting(s, 0, "</");
    } else {
      DecodeEscaped(text);
      DecodeEscaped(NormalizeNewlines(text));
      NormalizeEscaped(text);
      EscapedNonEmpty(text);
      assert close[0] == '<';
      ParseText(EscapeXml(text), close, NormalizeNewlines(text));
      assert s[0] == EscapeXml(text)[0] != '<';
      NotStarting(s, 0, "</");
    }
    ContentCons(s, [Chars(NormalizeNewlines(text))], close, [], close);
    assert [Chars(NormalizeNewlines(text))] + [] == [Chars(NormalizeNewlines(text))];
  }

  lemma EscapedNonEmpty(text: string)
    requires Find(CDATA_END, text, 0) != -1
    ensures EscapeXml(text) != []
  {
    assert text != [];
    EscapedHead(text);
  }

  /** `<name>string</name>` */
  lemma StringElement(name: string, text: string, rest: string)
    requires XmlName(name)
    ensures ParseElement("<" + name + ">" + RenderXmlString(text) + ("</" + name + ">") + rest)
      == Some((Element(name, map[], [Chars(NormalizeNewlines(text))]), rest))
  {
    hide ParseElement, ParseContent, ParseAttributes, XmlName, RenderXmlString, NormalizeNewlines;
    var body := RenderXmlString(text);
    StringContent(text, name, rest);
    NoAttributes(body + ("</" + name + ">" + rest));
    ParseWhole(name, ">", map[], body, [Chars(NormalizeNewlines(text))], rest);
    assert "<" + name + ">" + body + ("</" + name + ">") + rest == "<" + name + ">" + body + ("</" + name + ">" + rest);
  }

  lemma {:induction false} NormalizePlain(s: string)
    requires forall i :: 0 <= i < |s| ==> s[i] != '\r'
    ensures NormalizeNewlines(s) == s
    decreases |s|
  {
    PlainPrefix(s, "");
    assert s + "" == s;
  }

  /** `<name>123</name>` */
  lemma IntElement(name: string, n: int, rest: string)
    requires XmlName(name)
    ensures ParseElement("<" + name + ">" + EncodeInt(n) + ("</" + name + ">") + rest)
      == Some((Element(name, map[], [Chars(EncodeInt(n))]), rest))
  {
    hide ParseElement, ParseContent, ParseAttributes, XmlName, EncodeInt, NormalizeNewlines;
    var body := EncodeInt(n);
    var close := "</" + name + ">" + rest;
    IntChars(n);
    NormalizePlain(body);
    DecodePlain(body);
    assert close[0] == '<';
    ParseText(body, close, body);
    EndOfContent(name, rest);
    assert (body + close)[0] == body[0];
    NotStarting(body + close, 0, "</");
    ContentCons(body + close, [Chars(body)], close, [], close);
    assert [Chars(body)] + [] == [Chars(body)];
    NoAttributes(body + close);
    ParseWhole(name, ">", map[], body, [Chars(body)], rest);
    assert "<" + name + ">" + body + ("</" + name + ">") + rest == "<" + name + ">" + body + ("</" + name + ">" + rest);
  }

  lemma IntChars(n: int)
    ensures EncodeInt(n) != []
    ensures forall i :: 0 <= i < |EncodeInt(n)| ==> EncodeInt(n)[i] == '-' || IsDigit(EncodeInt(n)[i])
    ensures PythonDigits(EncodeInt(n), n)
  {
    var m: nat := if n < 0 then -n else n;
    DigitsRead(m);
  }

  /** `s` is an optional minus sign and the decimal digits of |n|. */
  predicate PythonDigits(s: string, n: int) {
    && s != []
    && (n < 0 ==> s[0] == '-' && s[1..] == Digits(-n))
    && (n >= 0 ==> s == Digits(n))
  }
}
