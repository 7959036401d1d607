/** ElementTree's view of the XML 1.0 documents the codec hands it: elements, attributes, character data, CDATA
    sections, comments, references and namespaces. Processing instructions and document types, which no caller lets
    through, are refused. */
module XmlTree {
  import opened Text

  datatype Element = Element(name: string, attributes: map<string, string>, content: seq<Item>)
  datatype Item = Chars(text: string) | Child(element: Element)

  /** Section 2.2: the characters an XML document may contain. */
  predicate LegalChar(c: char) {
    var n := c as int;
    n == 9 || n == 10 || n == 13 || 32 <= n < 0xFFFE || n >= 0x10000
  }

  predicate LegalText(s: string) {
    forall i :: 0 <= i < |s| ==> LegalChar(s[i])
  }

  /** Section 2.11: CR LF and lone CR become LF. */
  function NormalizeNewlines(s: string): string {
    if s == [] then ""
    else if s[0] != '\r' then [s[0]] + NormalizeNewlines(s[1..])
    else if |s| > 1 && s[1] == '\n' then "\n" + NormalizeNewlines(s[2..])
    else "\n" + NormalizeNewlines(s[1..])
  }

  // ---------------------------------------------------------------- references

  function DigitIn(c: char, base: nat): Option<nat> {
    if '0' <= c <= '9' then Some(c as int - '0' as int)
    else if base == 16 && 'a' <= c <= 'f' then Some(c as int - 'a' as int + 10)
    else if base == 16 && 'A' <= c <= 'F' then Some(c as int - 'A' as int + 10)
    else None
  }

  /** The digits at the start of `s`: the number they make on top of `value`, and how many there are. */
  function TakeNumber(s: string, base: nat, value: nat): (r: (nat, nat))
    ensures r.1 <= |s| && forall i :: 0 <= i < r.1 ==> DigitIn(s[i], base).Some?
  {
    if s == [] || DigitIn(s[0], base).None? then (value, 0)
    else
      var (n, count) := TakeNumber(s[1..], base, value * base + DigitIn(s[0], base).value);
      (n, count + 1)
  }

  predicate LegalCode(n: nat) {
    n < 0x110000 && !(0xD800 <= n <= 0xDFFF) && LegalChar(n as char)
  }

  /** Section 4.1: a character reference at the start of `s`, `&#65;` or `&#x41;`, and its length. */
  function CharRef(s: string): (r: Option<(char, nat)>)
    ensures r.Some? ==> 3 < r.value.1 <= |s| && s[r.value.1 - 1] == ';'
  {
    if !StartsAt(s, 0, "&#") then None
    else
      var hex := StartsAt(s, 2, "x");
      var from := if hex then 3 else 2;
      var (n, count) := TakeNumber(s[from..], if hex then 16 else 10, 0);
      var end := from + count;
      if count == 0 || end >= |s| || s[end] != ';' || !LegalCode(n) then None else Some((n as char, end + 1))
  }

  function BuiltIn(s: string, reference: string, c: char): (r: Option<(char, nat)>)
    requires StartsAt(s, 0, reference) && |reference| > 1 && reference[|reference| - 1] == ';'
    ensures r == Some((c, |reference|)) && s[|reference| - 1] == ';'
  {
    Some((c, |reference|))
  }

  /** One character of a text, or the reference that stands for it, and its length. */
  function Unit(s: string): (r: Option<(char, nat)>)
    requires s != []
    ensures r.Some? ==> 0 < r.value.1 <= |s| && (s[0] == '&' ==> s[r.value.1 - 1] == ';' && r.value.1 > 1)
  {
    if s[0] != '&' then Some((s[0], 1))
    else if StartsAt(s, 0, "&lt;") then BuiltIn(s, "&lt;", '<')
    else if StartsAt(s, 0, "&gt;") then BuiltIn(s, "&gt;", '>')
    else if StartsAt(s, 0, "&amp;") then BuiltIn(s, "&amp;", '&')
    else if StartsAt(s, 0, "&quot;") then BuiltIn(s, "&quot;", '"')
    else if StartsAt(s, 0, "&apos;") then BuiltIn(s, "&apos;", '\'')
    else CharRef(s)
  }

  /** Character data with its references replaced; a stray `&` or `]]>` is an error. */
  function DecodeText(s: string): Option<string>
    decreases |s|
  {
    if s == [] then Some("")
    else if StartsAt(s, 0, "]]>") then None
    else
      match Unit(s)
      case None => None
      case Some((c, used)) =>
        match DecodeText(s[used..])
        case None => None
        case Some(rest) => Some([c] + rest)
  }

  /** Section 3.3.3: an attribute value; white space that is not written as a reference becomes a space. */
  function DecodeValue(s: string): Option<string>
    decreases |s|
  {
    if s == [] then Some("")
    else
      match Unit(s)
      case None => None
      case Some((c, used)) =>
        match DecodeValue(s[used..])
        case None => None
        case Some(rest) => Some([if XmlSpace(s[0]) then ' ' else c] + rest)
  }

  // ---------------------------------------------------------------- tags

  predicate NameStart(c: char) {
    'a' <= c <= 'z' || 'A' <= c <= 'Z' || c == '_' || c as int >= 0xC0
  }

  predicate NameChar(c: char) {
    NameStart(c) || '0' <= c <= '9' || c == '-' || c == '.' || c as int == 0xB7
  }

  predicate XmlSpace(c: char) {
    c == ' ' || c == '\t' || c == '\n' || c == '\r'
  }

  function TakeName(s: string): (r: string)
    ensures |r| <= |s| && r == s[..|r|]
    ensures forall i :: 0 <= i < |r| ==> NameChar(r[i])
    ensures |r| < |s| ==> !NameChar(s[|r|])
  {
    if s != [] && NameChar(s[0]) then [s[0]] + TakeName(s[1..]) else ""
  }

  /** Namespaces in XML 1.0, section 4: a name, or two names with a colon between them. */
  function TakeQName(s: string): (r: string)
    ensures |r| <= |s| && r == s[..|r|]
    ensures forall i :: 0 <= i < |r| ==> NameChar(r[i]) || r[i] == ':'
  {
    var prefix := TakeName(s);
    var rest := s[|prefix|..];
    if |rest| > 1 && rest[0] == ':' && NameStart(rest[1]) then prefix + ":" + TakeName(rest[1..]) else prefix
  }

  function SkipXmlSpace(s: string): (r: string)
    ensures |r| <= |s| && r == s[|s| - |r|..]
  {
    if s != [] && XmlSpace(s[0]) then SkipXmlSpace(s[1..]) else s
  }

  /** A quoted attribute value at the start of `s` and what follows it. */
  function ParseQuoted(s: string): (r: Option<(string, string)>)
    ensures r.Some? ==> |r.value.1| < |s|
  {
    if s == [] || (s[0] != '"' && s[0] != '\'') then None
    else
      var end := Find([s[0]], s, 1);
      if end == -1 || '<' in s[1..end] then None
      else
        match DecodeValue(NormalizeNewlines(s[1..end]))
        case None => None
        case Some(value) => Some((value, s[end + 1..]))
  }

  /** `name = "value"` at the start of `s`: name, value and what follows. */
  function ParseAttribute(s: string): (r: Option<(string, string, string)>)
    ensures r.Some? ==> |r.value.2| < |s|
  {
    if s == [] || !NameStart(s[0]) then None
    else
      var name := TakeQName(s);
      var eq := SkipXmlSpace(s[|name|..]);
      if eq == [] || eq[0] != '=' then None
      else
        match ParseQuoted(SkipXmlSpace(eq[1..]))
        case None => None
        case Some((value, rest)) => Some((name, value, rest))
  }

  /** A start tag from just after its name: its attributes, whether it is self-closing, and what follows. */
  function ParseAttributes(s: string): (r: Option<(map<string, string>, bool, string)>)
    ensures r.Some? ==> |r.value.2| < |s|
    decreases |s|
  {
    var t := SkipXmlSpace(s);
    if StartsAt(t, 0, ">") then Some((map[], false, t[1..]))
    else if StartsAt(t, 0, "/>") then Some((map[], true, t[2..]))
    else if |t| == |s| then None
    else
      match ParseAttribute(t)
      case None => None
      case Some((name, value, next)) =>
        match ParseAttributes(next)
        case None => None
        case Some((others, closed, rest)) =>
          if name in others then None else Some((others[name := value], closed, rest))
  }

  /** `</name>` at the start of `s`: what follows it. */
  function ParseEndTag(name: string, s: string): (r: Option<string>)
    ensures r.Some? ==> |r.value| < |s|
  {
    if !StartsAt(s, 0, "</") || TakeQName(s[2..]) != name then None
    else
      var t := SkipXmlSpace(s[2 + |name|..]);
      if t != [] && t[0] == '>' then Some(t[1..]) else None
  }

  /** An element at the start of `s` and what follows it. */
  function ParseElement(s: string): (r: Option<(Element, string)>)
    ensures r.Some? ==> |r.value.1| < |s|
    decreases |s|, 0
  {
    if |s| < 2 || s[0] != '<' || !NameStart(s[1]) then None
    else
      var name := TakeQName(s[1..]);
      match ParseAttributes(s[1 + |name|..])
      case None => None
      case Some((attributes, closed, rest)) =>
        if closed then Some((Element(name, attributes, []), rest))
        else
          match ParseContent(rest)
          case None => None
          case Some((content, tail)) =>
            match ParseEndTag(name, tail)
            case None => None
            case Some(after) => Some((Element(name, attributes, content), after))
  }

  /** Content up to the next end tag, which is left in place. */
  function ParseContent(s: string): (r: Option<(seq<Item>, string)>)
    ensures r.Some? ==> |r.value.1| <= |s|
    decreases |s|, 2
  {
    if s == [] then None
    else if StartsAt(s, 0, "</") then Some(([], s))
    else
      match ParseItem(s)
      case None => None
      case Some((items, rest)) =>
        match ParseContent(rest)
        case None => None
        case Some((more, tail)) => Some((items + more, tail))
  }

  /** One piece of content; a comment contributes nothing. */
  function ParseItem(s: string): (r: Option<(seq<Item>, string)>)
    requires s != []
    ensures r.Some? ==> |r.value.1| < |s|
    decreases |s|, 1
  {
    if StartsAt(s, 0, "<![CDATA[") then
      var end := Find("]]>", s, 9);
      if end == -1 then None else Some(([Chars(NormalizeNewlines(s[9..end]))], s[end + 3..]))
    else if StartsAt(s, 0, "<!--") then
      var end := Find("--", s, 4);
      if end == -1 || !StartsAt(s, end, "-->") then None else Some(([], s[end + 3..]))
    else if s[0] == '<' then
      match ParseElement(s)
      case None => None
      case Some((element, rest)) => Some(([Child(element)], rest))
    else
      var end := Find("<", s, 0);
      if end == -1 then None
      else
        assert s[end] == "<"[0];
        match DecodeText(NormalizeNewlines(s[..end]))
        case None => None
        case Some(text) => Some(([Chars(text)], s[end..]))
  }

  // ---------------------------------------------------------------- namespaces

  const XML_NAMESPACE := "http://www.w3.org/XML/1998/namespace"
  const XMLNS_NAMESPACE := "http://www.w3.org/2000/xmlns/"

  predicate Declares(attribute: string) {
    attribute == "xmlns" || StartsAt(attribute, 0, "xmlns:")
  }

  /** Namespaces in XML 1.0, sections 2.2 and 3: whether a prefix, or "" for the default, may be bound to a name; the
      parser also keeps `}` for itself. */
  predicate Bindable(prefix: string, uri: string) {
    && prefix != "xmlns" && (uri == "" ==> prefix == "")
    && (prefix == "xml" <==> uri == XML_NAMESPACE) && uri != XMLNS_NAMESPACE && '}' !in uri
  }

  /** What a prefix is bound to, given the attributes of the elements around, outermost first; "" for nothing. */
  function Namespace(prefix: string, scopes: seq<map<string, string>>): string {
    if scopes == [] then (if prefix == "xml" then XML_NAMESPACE else "")
    else
      var key := if prefix == "" then "xmlns" else "xmlns:" + prefix;
      var inner := scopes[|scopes| - 1];
      if key in inner then inner[key] else Namespace(prefix, scopes[..|scopes| - 1])
  }

  function Universal(uri: string, local: string): string {
    if uri == "" then local else "{" + uri + "}" + local
  }

  /** A name as ElementTree reports it; only element names take the default namespace. */
  function ResolveName(name: string, scopes: seq<map<string, string>>, isElement: bool): Option<string> {
    var colon := Find(":", name, 0);
    if colon == -1 then Some(Universal(if isElement then Namespace("", scopes) else "", name))
    else
      var uri := Namespace(name[..colon], scopes);
      if uri == "" then None else Some(Universal(uri, name[colon + 1..]))
  }

  /** The attributes that are not declarations, under their own names. */
  function ResolveAttributes(attributes: map<string, string>, scopes: seq<map<string, string>>): Option<map<string, string>> {
    var kept := set a | a in attributes && !Declares(a);
    if Nameable(kept, scopes) then Some(Renamed(attributes, kept, scopes)) else None
  }

  /** Attributes with names, and no two with the same. */
  predicate Nameable(kept: set<string>, scopes: seq<map<string, string>>) {
    && (forall a :: a in kept ==> ResolveName(a, scopes, false).Some?)
    && (forall a, b :: a in kept && b in kept && a != b ==> ResolveName(a, scopes, false) != ResolveName(b, scopes, false))
  }

  function Renamed(attributes: map<string, string>, kept: set<string>, scopes: seq<map<string, string>>): map<string, string>
    requires Nameable(kept, scopes) && kept <= attributes.Keys
  {
    map a | a in kept :: ResolveName(a, scopes, false).value := attributes[a]
  }

  /** An element with its names resolved; an unbound prefix or a bad declaration is an error. */
  function Resolve(e: Element, scopes: seq<map<string, string>>): Option<Element>
    decreases e
  {
    var inner := scopes + [e.attributes];
    if exists a :: a in e.attributes && Declares(a) && !Bindable(if a == "xmlns" then "" else a[6..], e.attributes[a]) then None
    else
      match (ResolveName(e.name, inner, true), ResolveAttributes(e.attributes, inner), ResolveItems(e.content, inner))
      case (Some(name), Some(attributes), Some(content)) => Some(Element(name, attributes, content))
      case _ => None
  }

  function ResolveItem(item: Item, scopes: seq<map<string, string>>): Option<Item>
    decreases item
  {
    match item
    case Chars(_) => Some(item)
    case Child(e) =>
      match Resolve(e, scopes)
      case None => None
      case Some(resolved) => Some(Child(resolved))
  }

  function ResolveItems(items: seq<Item>, scopes: seq<map<string, string>>): Option<seq<Item>>
    decreases items
  {
    if items == [] then Some([])
    else
      match (ResolveItem(items[0], scopes), ResolveItems(items[1..], scopes))
      case (Some(item), Some(rest)) => Some([item] + rest)
      case _ => None
  }

  /** ET.fromstring: one legal document, or a ParseError. */
  function FromString(document: string): Option<Element> {
    if !LegalText(document) then None
    else
      match ParseElement(document)
      case Some((element, rest)) => if rest == [] then Resolve(element, []) else None
      case None => None
  }

  /** The character data directly inside an element, with the markup left out. */
  function DirectText(content: seq<Item>): string {
    if content == [] then ""
    else (if content[0].Chars? then content[0].text else "") + DirectText(content[1..])
  }

  function Children(content: seq<Item>): (r: seq<Element>)
    ensures forall i :: 0 <= i < |r| ==> Child(r[i]) in content
  {
    if content == [] then []
    else (if content[0].Child? then [content[0].element] else []) + Children(content[1..])
  }
}
