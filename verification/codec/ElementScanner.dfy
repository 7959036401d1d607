/** The XML element scanner and the construct rejector, loops beside functions. */
module ElementScanner {
  import opened Text
  import opened ActionRender

  // ---------------------------------------------------------------- one tag

  /** The position after the first `>` outside quotes, scanning from `cursor` inside `quote`. */
  function TagEndFrom(s: string, cursor: nat, quote: Option<char>): (r: Option<nat>)
    ensures r.Some? ==> cursor < r.value <= |s|
    decreases |s| - cursor
  {
    if cursor >= |s| then None
    else
      var c := s[cursor];
      if quote.None? && c == '>' then Some(cursor + 1)
      else
        TagEndFrom(s, cursor + 1,
          if quote.None? then (if c == '"' || c == '\'' then Some(c) else None)
          else if c == quote.value then None else quote)
  }

  /** _find_xml_tag_end */
  method FindXmlTagEnd(payload: string, start: nat) returns (end: Option<nat>)
    ensures end == TagEndFrom(payload, start + 1, None)
  {
    var quoteChar: Option<char> := None;
    var cursor := start + 1;
    while cursor < |payload|
      invariant TagEndFrom(payload, start + 1, None) == TagEndFrom(payload, cursor, quoteChar)
    {
      var c := payload[cursor];
      if quoteChar.None? {
        if c == '"' || c == '\'' {
          quoteChar := Some(c);
        } else if c == '>' {
          return Some(cursor + 1);
        }
      } else if c == quoteChar.value {
        quoteChar := None;
      }
      cursor := cursor + 1;
    }
    return None;
  }

  // ---------------------------------------------------------------- one element

  datatype Scan = Found(end: Option<nat>) | Move(cursor: nat, depth: nat)

  /** What a tag whose text is `body` does to the scan. */
  function AfterTag(body: string, tagEnd: nat, depth: nat): Scan {
    if body == [] || body[0] == '?' || body[0] == '!' then Found(None)
    else if body[0] == '/' then
      if depth == 0 then Found(None) else if depth == 1 then Found(Some(tagEnd)) else Move(tagEnd, depth - 1)
    else if body[|body| - 1] == '/' then
      if depth == 0 then Found(Some(tagEnd)) else Move(tagEnd, depth)
    else Move(tagEnd, depth + 1)
  }

  function ScanStep(s: string, cursor: nat, depth: nat): (r: Scan)
    requires cursor < |s|
    ensures r.Move? ==> cursor < r.cursor <= |s|
    ensures r.Found? && r.end.Some? ==> cursor < r.end.value <= |s|
  {
    if StartsAt(s, cursor, CDATA_START) then
      var end := Find(CDATA_END, s, cursor + 9);
      if end == -1 then Found(None) else Move(end + 3, depth)
    else if StartsAt(s, cursor, "<!--") then
      var end := Find("-->", s, cursor + 4);
      if end == -1 then Found(None) else Move(end + 3, depth)
    else if s[cursor] != '<' then Move(cursor + 1, depth)
    else TagStep(s, cursor, depth)
  }

  function TagStep(s: string, cursor: nat, depth: nat): (r: Scan)
    requires cursor < |s|
    ensures r.Move? ==> cursor < r.cursor <= |s|
    ensures r.Found? && r.end.Some? ==> cursor < r.end.value <= |s|
  {
    match TagEndFrom(s, cursor + 1, None)
    case None => Found(None)
    case Some(tagEnd) => AfterTag(Strip(s[cursor + 1..tagEnd - 1]), tagEnd, depth)
  }

  /** Where the element entered at depth 0 ends, scanning from `cursor` at `depth`. */
  function ElementEndFrom(s: string, cursor: nat, depth: nat): (r: Option<nat>)
    ensures r.Some? ==> cursor < r.value <= |s|
    decreases |s| - cursor
  {
    if cursor >= |s| then None
    else
      match ScanStep(s, cursor, depth)
      case Found(end) => end
      case Move(next, newDepth) => ElementEndFrom(s, next, newDepth)
  }

  function ElementEnd(s: string, start: nat): (r: Option<nat>)
    ensures r.Some? ==> start < r.value <= |s|
  {
    if start >= |s| || s[start] != '<' then None else ElementEndFrom(s, start, 0)
  }

  /** The body of the scanner's loop. */
  method ScanOnce(payload: string, cursor: nat, depth: nat) returns (r: Scan)
    requires cursor < |payload|
    ensures r == ScanStep(payload, cursor, depth)
  {
    if StartsAt(payload, cursor, CDATA_START) {
      var cdataEnd := Find(CDATA_END, payload, cursor + 9);
      return if cdataEnd == -1 then Found(None) else Move(cdataEnd + 3, depth);
    }
    if StartsAt(payload, cursor, "<!--") {
      var commentEnd := Find("-->", payload, cursor + 4);
      return if commentEnd == -1 then Found(None) else Move(commentEnd + 3, depth);
    }
    if payload[cursor] != '<' {
      return Move(cursor + 1, depth);
    }
    var tagEnd := FindXmlTagEnd(payload, cursor);
    if tagEnd.None? {
      return Found(None);
    }
    r := AfterTag(Strip(payload[cursor + 1..tagEnd.value - 1]), tagEnd.value, depth);
  }

  /** _find_xml_element_end */
  method FindXmlElementEnd(payload: string, start: nat) returns (end: Option<nat>)
    ensures end == ElementEnd(payload, start)
  {
    if start >= |payload| || payload[start] != '<' {
      return None;
    }
    var cursor: nat := start;
    var depth: nat := 0;
    while cursor < |payload|
      invariant ElementEnd(payload, start) == ElementEndFrom(payload, cursor, depth)
      decreases |payload| - cursor
    {
      var step := ScanOnce(payload, cursor, depth);
      match step {
        case Found(r) => return r;
        case Move(next, newDepth) => cursor, depth := next, newDepth;
      }
    }
    return None;
  }

  // ---------------------------------------------------------------- consecutive tool calls

  /** Where a run of XML tool-call blocks ends and how many blocks it has, `count` of them already behind. */
  function SequenceFrom(s: string, cursor: nat, count: nat): (r: Option<(nat, nat)>)
    ensures r.Some? ==> cursor <= r.value.0
    ensures r.Some? && cursor < |s| ==> r.value.0 <= |s| && (count == 0 ==> cursor < r.value.0)
    decreases |s| - cursor
  {
    if cursor >= |s| then Some((cursor, count))
    else if !OpensAt(ToolOpener, s, cursor) then (if count == 0 then None else Some((cursor, count)))
    else
      match ElementEnd(s, cursor)
      case None => None
      case Some(end) => SequenceFrom(s, SkipSpaces(s, end), count + 1)
  }

  method SkipWhitespace(payload: string, start: nat) returns (cursor: nat)
    requires start <= |payload|
    ensures cursor == SkipSpaces(payload, start)
  {
    cursor := start;
    while cursor < |payload| && IsSpace(payload[cursor])
      invariant start <= cursor <= |payload|
      invariant SkipSpaces(payload, start) == SkipSpaces(payload, cursor)
    {
      cursor := cursor + 1;
    }
  }

  /** _find_xml_tool_call_sequence */
  method FindXmlToolCallSequence(payload: string, start: nat) returns (r: Option<(nat, nat)>)
    ensures r == SequenceFrom(payload, start, 0)
  {
    hide ElementEnd, SkipSpaces, OpensAt;
    var cursor: nat := start;
    var blockCount: nat := 0;
    while cursor < |payload|
      invariant start <= cursor && (cursor == start <==> blockCount == 0)
      invariant SequenceFrom(payload, start, 0) == SequenceFrom(payload, cursor, blockCount)
      decreases |payload| - cursor
    {
      if !OpensAt(ToolOpener, payload, cursor) {
        return if cursor == start then None else Some((cursor, blockCount));
      }
      var elementEnd := FindXmlElementEnd(payload, cursor);
      if elementEnd.None? {
        return None;
      }
      blockCount := blockCount + 1;
      cursor := SkipWhitespace(payload, elementEnd.value);
      if !OpensAt(ToolOpener, payload, cursor) {
        return Some((cursor, blockCount));
      }
    }
    return Some((cursor, blockCount));
  }

  // ---------------------------------------------------------------- the construct rejector

  predicate EntityStart(c: char) {
    'a' <= c <= 'z' || 'A' <= c <= 'Z' || c == '_'
  }

  predicate EntityChar(c: char) {
    EntityStart(c) || '0' <= c <= '9' || c == '.' || c == ':' || c == '-'
  }

  function TakeEntity(s: string): (r: string)
    ensures r <= s
    ensures forall i :: 0 <= i < |r| ==> EntityChar(r[i])
    ensures |r| < |s| ==> !EntityChar(s[|r|])
  {
    if s != [] && EntityChar(s[0]) then [s[0]] + TakeEntity(s[1..]) else ""
  }

  /** A named reference at `i`, if there is one, is a built-in one. */
  predicate ReferenceAllowed(s: string, i: nat)
    requires i < |s| && s[i] == '&'
  {
    var name := TakeEntity(s[i + 1..]);
    var end := i + 1 + |name|;
    name != [] && EntityStart(name[0]) && end < |s| && s[end] == ';' ==>
      name in ["lt", "gt", "amp", "quot", "apos"]
  }

  predicate SegmentAllowed(s: string) {
    && Find("<!doctype", Lower(s), 0) == -1
    && Find("<!entity", Lower(s), 0) == -1
    && Find("<?", Lower(s), 0) == -1
    && Find("<!--", Lower(s), 0) == -1
    && forall i :: 0 <= i < |s| && s[i] == '&' ==> ReferenceAllowed(s, i)
  }

  /** Every segment outside CDATA sections is allowed and every section is closed. */
  predicate AllowedFrom(s: string, cursor: nat)
    decreases |s| - cursor
  {
    cursor >= |s|
    || var start := Find(CDATA_START, s, cursor);
       if start == -1 then SegmentAllowed(s[cursor..])
       else
         var end := Find(CDATA_END, s, start + 9);
         end != -1 && SegmentAllowed(s[cursor..start]) && AllowedFrom(s, end + 3)
  }

  /** _reject_disallowed_xml_constructs; `false` is its exception. */
  method RejectDisallowedXmlConstructs(payload: string) returns (ok: bool)
    ensures ok == AllowedFrom(payload, 0)
  {
    hide SegmentAllowed, Find, StartsAt;
    var cursor: nat := 0;
    while cursor < |payload|
      invariant AllowedFrom(payload, 0) == AllowedFrom(payload, cursor)
      decreases |payload| - cursor
    {
      var segment: string;
      var cdataStart := Find(CDATA_START, payload, cursor);
      var next: nat;
      if cdataStart == -1 {
        segment := payload[cursor..];
        next := |payload|;
      } else {
        segment := payload[cursor..cdataStart];
        var cdataEnd := Find(CDATA_END, payload, cdataStart + 9);
        if cdataEnd == -1 {
          return false;
        }
        next := cdataEnd + 3;
      }
      if !SegmentAllowed(segment) {
        return false;
      }
      cursor := next;
    }
    return true;
  }
}
