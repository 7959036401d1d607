/** The XML-aware JSON parser, the parser of json_only, against a grammar: which payloads it accepts, with the XML regions
    it skips or refuses, and what each of them means. */
module DualGrammar {
  import opened Text
  import opened Contracts
  import opened XmlTree
  import opened ActionRender
  import opened ElementScanner
  import opened ActionParse
  import opened DualOnXml
  import opened DelimiterGrammar

  // ---------------------------------------------------------------- XML regions

  /** An element that opens like a think block, from `start` to `end`. */
  ghost predicate ThinkElement(s: string, start: nat, end: nat, element: Element) {
    && StartsAt(s, start, "<think") && ElementEnd(s, start) == Some(end) && AllowedFrom(s[start..end], 0)
    && FromString(s[start..end]) == Some(element)
  }

  /** It is a plain think block. */
  ghost predicate XmlThink(s: string, start: nat, end: nat) {
    exists element :: ThinkElement(s, start, end, element) &&
      element.name == "think" && element.attributes == map[] && Children(element.content) == []
  }

  /** It is one that has a CDATA section. */
  ghost predicate CDataThink(s: string, start: nat, end: nat) {
    XmlThink(s, start, end) && exists k: nat :: StartsAt(s[start..end], k, "<![CDATA[")
  }

  ghost predicate NamespacedThink(s: string, start: nat) {
    exists end: nat, element :: ThinkElement(s, start, end, element) && ('}' in element.name || ':' in element.name)
  }

  /** Blanks, and elements that satisfy nothing but being a named tool call. */
  ghost predicate ToolItem(item: Item) {
    match item
    case Chars(text) => AllSpace(text)
    case Child(c) => c.name == "tool_call" && "name" in c.attributes && !AllSpace(c.attributes["name"])
  }

  ghost predicate NamespacedItem(item: Item) {
    item.Child? && ('}' in item.element.name || ':' in item.element.name)
  }

  /** A run of tool-call elements from `start` to `end`, read as a document. */
  ghost predicate RunAt(s: string, start: nat, end: nat, content: seq<Item>) {
    && (exists count: nat :: SequenceFrom(s, start, 0) == Some((end, count))) && start <= end <= |s|
    && Strip(s[start..end]) != ""
    && var document := FromString("<assistant_payload>" + Strip(s[start..end]) + "</assistant_payload>");
    document.Some? && document.value.content == content
  }

  ghost predicate ToolRun(s: string, start: nat, end: nat) {
    exists content :: RunAt(s, start, end, content) && forall i :: 0 <= i < |content| ==> ToolItem(content[i])
  }

  /** An element in a namespace comes before anything else that is out of place. */
  ghost predicate NamespacedRun(s: string, start: nat) {
    exists end: nat, content, i: nat ::
      RunAt(s, start, end, content) && i < |content| && NamespacedItem(content[i]) && forall k :: 0 <= k < i ==> ToolItem(content[k])
  }

  // ---------------------------------------------------------------- what is tried, what is skipped

  ghost predicate NoneOf(p: Opener, s: string, from: nat, to: nat) {
    forall k :: from <= k < to ==> !OpensAt(p, s, k)
  }

  /** From `cursor` on, the next opener of any kind is an XML think opener. */
  ghost predicate ThinkNext(s: string, cursor: nat, start: nat) {
    && cursor <= start && OpensAt(ThinkOpener, s, start) && NoneOf(ThinkOpener, s, cursor, start)
    && NoneOf(ToolOpener, s, cursor, start + 1) && NoOpener(s, cursor, start)
  }

  /** The next one but for XML think openers is an XML tool-call opener. */
  ghost predicate ToolsNext(s: string, cursor: nat, start: nat) {
    && cursor <= start && OpensAt(ToolOpener, s, start) && NoneOf(ToolOpener, s, cursor, start)
    && NoOpener(s, cursor, start + 1)
  }

  ghost predicate ThinkPassed(s: string, cursor: nat) {
    forall start: nat :: ThinkNext(s, cursor, start) ==>
      !NamespacedThink(s, start) && forall end: nat :: !CDataThink(s, start, end)
  }

  ghost predicate ToolsPassed(s: string, cursor: nat) {
    forall start: nat :: ToolsNext(s, cursor, start) ==> !NamespacedRun(s, start) && forall end: nat :: !ToolRun(s, start, end)
  }

  /** Only blanks stand between `end` and an opener. */
  ghost predicate MeetsOpener(s: string, end: nat, xml: Opener) {
    exists k: nat :: end <= k <= |s| && AllSpace(s[end..k]) &&
      (StartsAt(s, k, "<tool_call>") || OpensAt(xml, s, k) || (xml == ToolOpener && StartsAt(s, k, "<think>")))
  }

  /** Blanks, or a think element between blanks. */
  ghost predicate Prelude(s: string, cursor: nat, start: nat)
    requires cursor <= start <= |s|
  {
    AllSpace(s[cursor..start]) ||
    exists from: nat, to: nat ::
      cursor <= from <= to <= start && AllSpace(s[cursor..from]) && XmlThink(s, from, to) && AllSpace(s[to..start])
  }

  ghost predicate NamespacedPrelude(s: string, cursor: nat, start: nat)
    requires start <= |s|
  {
    exists from: nat :: cursor <= from < start && AllSpace(s[cursor..from]) && NamespacedThink(s, from)
  }

  /** A part of a payload: a JSON block, or an XML region that is skipped. */
  datatype Part = Block(block: Block) | Skip(start: nat, end: nat, tools: bool)

  function PartEnd(p: Part): nat {
    if p.Block? then EndOf(p.block) else p.end
  }

  /** The part that comes next from `cursor` on. A region that only blanks separate from JSON is not skipped: the payload
      is mixed. */
  ghost predicate ComesNext(s: string, cursor: nat, p: Part) {
    match p
    case Skip(start, end, false) =>
      if ThinkNext(s, cursor, start) then
        CDataThink(s, start, end) && !(AllSpace(s[cursor..start]) && MeetsOpener(s, end, ToolOpener))
      else
        && ThinkPassed(s, cursor) && ToolsPassed(s, cursor)
        && cursor <= start && NoOpener(s, cursor, start) && StartsAt(s, start, "<think>") && CDataThink(s, start, end)
    case Skip(start, end, true) =>
      && ThinkPassed(s, cursor) && ToolsNext(s, cursor, start) && ToolRun(s, start, end)
      && !NamespacedPrelude(s, cursor, start)
      && !(Prelude(s, cursor, start) && (AllSpace(s[end..]) || MeetsOpener(s, end, ThinkOpener)))
    case Block(b) =>
      && ThinkPassed(s, cursor) && ToolsPassed(s, cursor) && Leads(s, cursor, b)
      && (b.ThinkOf? ==> !NamespacedThink(s, b.start) && forall end: nat :: !CDataThink(s, b.start, end))
  }

  /** The parts from `cursor` on, to the end. */
  ghost predicate Parts(s: string, cursor: nat, parts: seq<Part>)
    decreases |parts|
  {
    if parts == [] then cursor >= |s| || (ThinkPassed(s, cursor) && ToolsPassed(s, cursor) && NoOpener(s, cursor, |s|))
    else cursor < |s| && ComesNext(s, cursor, parts[0]) && Parts(s, PartEnd(parts[0]), parts[1..])
  }

  function BlocksOf(parts: seq<Part>): seq<Block> {
    if parts == [] then [] else (if parts[0].Block? then [parts[0].block] else []) + BlocksOf(parts[1..])
  }

  // ---------------------------------------------------------------- the regions are found exactly

  lemma ElementExact(s: string, start: nat, end: nat, element: Element)
    ensures ThinkElementAt(s, start) == Some((end, element)) <==> ThinkElement(s, start, end, element)
  {
    hide StartsAt, FromString, AllowedFrom, ElementEndFrom;
  }

  lemma ThinkExact(s: string, start: nat, end: nat)
    ensures XmlThinkEnd(s, start) == Some(end) <==> XmlThink(s, start, end)
  {
    hide ThinkElementAt, ThinkElement, Children;
    if XmlThink(s, start, end) {
      var element :| ThinkElement(s, start, end, element) &&
        element.name == "think" && element.attributes == map[] && Children(element.content) == [];
      ElementExact(s, start, end, element);
    }
    if XmlThinkEnd(s, start) == Some(end) {
      ElementExact(s, start, end, ThinkElementAt(s, start).value.1);
    }
  }

  lemma CDataExact(s: string, start: nat, end: nat)
    ensures CDataThinkEnd(s, start) == Some(end) <==> CDataThink(s, start, end)
  {
    hide XmlThinkEnd, StartsAt;
    ThinkExact(s, start, end);
    if XmlThink(s, start, end) {
      var k := Find(CDATA_START, s[start..end], 0);
    }
  }

  lemma NoCData(s: string, start: nat)
    ensures CDataThinkEnd(s, start) == None <==> forall end: nat :: !CDataThink(s, start, end)
  {
    hide CDataThinkEnd, CDataThink;
    forall end: nat ensures CDataThinkEnd(s, start) == Some(end) <==> CDataThink(s, start, end) {
      CDataExact(s, start, end);
    }
    if CDataThinkEnd(s, start).Some? {
      assert CDataThink(s, start, CDataThinkEnd(s, start).value);
    }
  }

  lemma NamespaceExact(s: string, start: nat)
    ensures ThinkRaises(s, start) <==> NamespacedThink(s, start)
  {
    hide ThinkElementAt, ThinkElement;
    forall end: nat, element
      ensures ThinkElementAt(s, start) == Some((end, element)) <==> ThinkElement(s, start, end, element)
    {
      ElementExact(s, start, end, element);
    }
    if ThinkRaises(s, start) {
      var (end, element) := ThinkElementAt(s, start).value;
      assert ThinkElement(s, start, end, element);
    }
  }

  lemma ItemExact(item: Item)
    ensures ToolItem(item) ==> !NamespacedItem(item)
    ensures item.Child? && NamedToolCall(item.element) && !InNamespace(item.element) <==> item.Child? && ToolItem(item)
  {
    hide Strip, AllSpace;
    assert ':' !in "tool_call" && '}' !in "tool_call";
    if item.Child? && "name" in item.element.attributes {
      StripProperties(item.element.attributes["name"]);
    }
  }

  lemma {:induction false} ItemsExact(content: seq<Item>)
    ensures ItemsLook(content) == Yes <==> forall i :: 0 <= i < |content| ==> ToolItem(content[i])
    ensures ItemsLook(content) == Raised <==>
      exists i: nat :: i < |content| && NamespacedItem(content[i]) && forall k :: 0 <= k < i ==> ToolItem(content[k])
    decreases |content|
  {
    if content != [] {
      var rest := content[1..];
      assert forall i :: 0 <= i < |rest| ==> rest[i] == content[i + 1];
      ItemExact(content[0]);
      hide ToolItem, NamespacedItem;
      LookUnfold(content);
      if ToolItem(content[0]) {
        ItemsExact(rest);
        if ItemsLook(rest) == Raised {
          var i: nat :| i < |rest| && NamespacedItem(rest[i]) && forall k :: 0 <= k < i ==> ToolItem(rest[k]);
          assert NamespacedItem(content[i + 1]) && forall k :: 0 <= k < i + 1 ==> ToolItem(content[k]) by {
            assert forall k :: 0 < k < i + 1 ==> content[k] == rest[k - 1];
          }
        }
        if i: nat :| i < |content| && NamespacedItem(content[i]) && forall k :: 0 <= k < i ==> ToolItem(content[k]) {
          assert NamespacedItem(rest[i - 1]) && forall k :: 0 <= k < i - 1 ==> ToolItem(rest[k]);
        }
        assert forall i :: 0 < i < |content| ==> content[i] == rest[i - 1];
      }
    }
  }

  lemma LookUnfold(content: seq<Item>)
    requires content != []
    ensures ItemsLook(content) ==
      if ToolItem(content[0]) then ItemsLook(content[1..]) else if NamespacedItem(content[0]) then Raised else No
  {
    ItemExact(content[0]);
    hide AllSpace, Strip;
  }

  lemma RunLooks(s: string, start: nat, end: nat, content: seq<Item>, count: nat)
    requires start < |s| && SequenceFrom(s, start, 0) == Some((end, count))
    requires start <= end <= |s| && RunAt(s, start, end, content)
    ensures LooksLikeToolCalls(s[start..end]) == ItemsLook(content)
  {
    hide SequenceFrom, Strip, FromString, ItemsLook;
  }

  lemma NoRunLooks(s: string, start: nat, end: nat, count: nat)
    requires start < |s| && SequenceFrom(s, start, 0) == Some((end, count))
    requires start <= end <= |s| && forall content :: !RunAt(s, start, end, content)
    ensures LooksLikeToolCalls(s[start..end]) == No
  {
    hide SequenceFrom, Strip, FromString, ItemsLook;
    var document := FromString("<assistant_payload>" + Strip(s[start..end]) + "</assistant_payload>");
    if document.Some? {
      assert !RunAt(s, start, end, document.value.content);
    }
  }

  /** A run that is tried is skipped, refused or passed over exactly as its elements say. */
  lemma RunExact(s: string, start: nat, end: nat)
    requires start < |s|
    ensures ToolCallsEnd(s, start) == Some(end) <==> ToolRun(s, start, end)
    ensures ToolCallsRaise(s, start) <==> NamespacedRun(s, start)
  {
    hide SequenceFrom, Strip, FromString, ItemsLook, RunAt, LooksLikeToolCalls, ToolItem, NamespacedItem;
    match SequenceFrom(s, start, 0)
    case None =>
      forall e: nat, content ensures !RunAt(s, start, e, content) {
        RunIsSequence(s, start, e, content);
      }
    case Some((e, count)) =>
      forall other: nat, content | RunAt(s, start, other, content)
        ensures other == e && LooksLikeToolCalls(s[start..e]) == ItemsLook(content)
      {
        RunIsSequence(s, start, other, content);
        RunLooks(s, start, e, content, count);
      }
      forall content {
        ItemsExact(content);
      }
      if forall content :: !RunAt(s, start, e, content) {
        NoRunLooks(s, start, e, count);
      }
  }

  lemma RunIsSequence(s: string, start: nat, end: nat, content: seq<Item>)
    ensures RunAt(s, start, end, content) ==> SequenceFrom(s, start, 0).Some? && SequenceFrom(s, start, 0).value.0 == end
  {
    hide SequenceFrom, Strip, FromString;
  }

  // ---------------------------------------------------------------- what is tried

  lemma ThinkTried(s: string, cursor: nat, start: nat)
    ensures XmlThinkStart(s, cursor) == Some(start) <==> ThinkNext(s, cursor, start)
  {
    hide StartsAt, OpensAt;
  }

  lemma ToolsTried(s: string, cursor: nat, start: nat)
    ensures XmlToolStart(s, cursor) == Some(start) <==> ToolsNext(s, cursor, start)
  {
    hide StartsAt, OpensAt;
  }

  lemma ThinkPassedExact(s: string, cursor: nat)
    ensures ThinkPassed(s, cursor) <==> !ThinkRefused(s, cursor) && XmlThinkRegion(s, cursor) == None
    ensures forall start: nat, end: nat ::
      XmlThinkRegion(s, cursor) == Some((start, end)) <==> ThinkNext(s, cursor, start) && CDataThink(s, start, end)
  {
    hide XmlThinkStart, ThinkNext, ThinkRaises, NamespacedThink, CDataThinkEnd, CDataThink;
    forall start: nat ensures XmlThinkStart(s, cursor) == Some(start) <==> ThinkNext(s, cursor, start) {
      ThinkTried(s, cursor, start);
    }
    if XmlThinkStart(s, cursor).Some? {
      var start := XmlThinkStart(s, cursor).value;
      NamespaceExact(s, start);
      NoCData(s, start);
      forall end: nat ensures CDataThinkEnd(s, start) == Some(end) <==> CDataThink(s, start, end) {
        CDataExact(s, start, end);
      }
    }
  }

  lemma ToolsPassedExact(s: string, cursor: nat)
    ensures ToolsPassed(s, cursor) <==> !ToolsRefused(s, cursor) && XmlToolRegion(s, cursor) == None
    ensures forall start: nat, end: nat ::
      XmlToolRegion(s, cursor) == Some((start, end)) <==> ToolsNext(s, cursor, start) && ToolRun(s, start, end)
  {
    hide XmlToolStart, ToolsNext, ToolCallsRaise, NamespacedRun, ToolCallsEnd, ToolRun;
    forall start: nat ensures XmlToolStart(s, cursor) == Some(start) <==> ToolsNext(s, cursor, start) {
      ToolsTried(s, cursor, start);
    }
    if XmlToolStart(s, cursor).Some? {
      var start := XmlToolStart(s, cursor).value;
      forall end: nat ensures ToolCallsEnd(s, start) == Some(end) <==> ToolRun(s, start, end) {
        RunExact(s, start, end);
      }
      RunExact(s, start, 0);
      if ToolCallsEnd(s, start).Some? {
        assert ToolRun(s, start, ToolCallsEnd(s, start).value);
      }
    }
  }

  /** A run that is skipped is not refused. */
  lemma RegionNotRefused(s: string, cursor: nat)
    ensures XmlThinkRegion(s, cursor).Some? ==> !ThinkRefused(s, cursor)
    ensures XmlToolRegion(s, cursor).Some? ==> !ToolsRefused(s, cursor)
  {
    hide XmlThinkStart, XmlToolStart, ThinkElementAt, SequenceFrom, LooksLikeToolCalls, Children;
    assert ':' !in "think" && '}' !in "think";
  }

  // ---------------------------------------------------------------- what surrounds a region

  /** The first opener is the one that only blanks can separate. */
  lemma AngleOpens(s: string, k: nat)
    ensures StartsAt(s, k, "<tool_call>") || StartsAt(s, k, "<think>") || OpensAt(ToolOpener, s, k) || OpensAt(ThinkOpener, s, k)
      ==> k < |s| && s[k] == '<'
  {
    FirstTwo(s, k, "<tool_call>");
    FirstTwo(s, k, "<think>");
    FirstTwo(s, k, "<tool_call");
    FirstTwo(s, k, "<think");
  }

  lemma OnlyBlanks(s: string, end: nat, k: nat, m: nat)
    requires end <= m < k <= |s| && AllSpace(s[end..k])
    ensures s[m] != '<'
  {
    assert s[end..k][m - end] == s[m];
  }

  lemma MeetsExact(s: string, end: nat, xml: Opener, boundary: int)
    requires end <= |s|
    requires boundary == -1 || end <= boundary < |s|
    requires forall k: nat :: end <= k && (boundary == -1 || k < boundary) ==>
      !StartsAt(s, k, TOOL_START) && !OpensAt(xml, s, k) && (xml == ToolOpener ==> !StartsAt(s, k, THINK_START))
    requires boundary != -1 ==>
      StartsAt(s, boundary, TOOL_START) || OpensAt(xml, s, boundary) || (xml == ToolOpener && StartsAt(s, boundary, THINK_START))
    ensures MeetsOpener(s, end, xml) <==> boundary != -1 && AllSpace(s[end..boundary])
  {
    hide StartsAt, OpensAt, AllSpace;
    if MeetsOpener(s, end, xml) {
      var k: nat :| end <= k <= |s| && AllSpace(s[end..k]) &&
        (StartsAt(s, k, "<tool_call>") || OpensAt(xml, s, k) || (xml == ToolOpener && StartsAt(s, k, "<think>")));
      if boundary < k {
        AngleOpens(s, boundary);
        OnlyBlanks(s, end, k, boundary);
      }
    }
  }

  lemma SkipThinkExact(s: string, cursor: nat, start: nat, end: nat, turn: Turn)
    requires cursor <= start < end <= |s|
    ensures SkipXmlThink(s, cursor, start, end, turn) ==
      if AllSpace(s[cursor..start]) && MeetsOpener(s, end, ToolOpener) then Fail(MixedPayload) else Continue(end, turn)
  {
    hide StartsAt, OpensAt, AllSpace, MeetsOpener;
    var think, tool, xml := Find(THINK_START, s, end), Find(TOOL_START, s, end), Search(ToolOpener, s, end);
    MeetsExact(s, end, ToolOpener, Earlier(think, Earlier(tool, xml)));
  }

  lemma PreludeExact(s: string, cursor: nat, start: nat)
    requires cursor <= start <= |s|
    ensures BlankOrXmlThink(s, cursor, start) <==> Prelude(s, cursor, start)
    ensures BlankRaises(s, cursor, start) <==> NamespacedPrelude(s, cursor, start)
  {
    hide XmlThinkEnd, XmlThink, ThinkRaises, NamespacedThink, IsSpace;
    var k := SkipSpaces(s, cursor);
    SkippedBlank(s, cursor);
    forall to: nat ensures XmlThinkEnd(s, k) == Some(to) <==> XmlThink(s, k, to) {
      ThinkExact(s, k, to);
    }
    NamespaceExact(s, k);
    BlankUpTo(s, cursor, start);
    forall from: nat | cursor <= from <= |s| && AllSpace(s[cursor..from]) && StartsAt(s, from, "<think") ensures from == k {
      SkipIsThink(s, cursor, from);
    }
    forall from: nat, to: nat | XmlThink(s, from, to) ensures StartsAt(s, from, "<think") {
      ThinkOpensAt(s, from, to);
    }
    forall from: nat | NamespacedThink(s, from) ensures StartsAt(s, from, "<think") {
      NamespacedOpensAt(s, from);
    }
    hide StartsAt;
  }

  lemma BlankUpTo(s: string, from: nat, to: nat)
    requires from <= to <= |s|
    ensures AllSpace(s[from..to]) <==> SkipSpaces(s, from) >= to
  {
    hide IsSpace;
    assert forall k :: from <= k < to ==> s[k] == s[from..to][k - from];
    assert AllSpace(s[from..to]) ==> forall k :: from <= k < to ==> IsSpace(s[k]);
  }

  lemma SkipIsThink(s: string, cursor: nat, from: nat)
    requires cursor <= from <= |s| && AllSpace(s[cursor..from]) && StartsAt(s, from, "<think")
    ensures SkipSpaces(s, cursor) == from
  {
    assert s[from] == "<think"[0];
    SkipIs(s, cursor, from);
  }

  lemma ThinkOpensAt(s: string, from: nat, to: nat)
    requires XmlThink(s, from, to)
    ensures StartsAt(s, from, "<think")
  {
    hide StartsAt, FromString, AllowedFrom, Children;
  }

  lemma NamespacedOpensAt(s: string, from: nat)
    requires NamespacedThink(s, from)
    ensures StartsAt(s, from, "<think")
  {
    hide StartsAt, FromString, AllowedFrom;
  }

  lemma SkipToolsExact(s: string, cursor: nat, start: nat, end: nat, turn: Turn)
    requires cursor <= start < end <= |s|
    ensures SkipXmlTools(s, cursor, start, end, turn) ==
      if NamespacedPrelude(s, cursor, start) then Fail(Namespaced)
      else if Prelude(s, cursor, start) && (AllSpace(s[end..]) || MeetsOpener(s, end, ThinkOpener)) then Fail(MixedPayload)
      else Continue(end, turn)
  {
    hide StartsAt, OpensAt, AllSpace, MeetsOpener, BlankRaises, BlankOrXmlThink, Prelude, NamespacedPrelude;
    PreludeExact(s, cursor, start);
    var think, tool := Search(ThinkOpener, s, end), Find(TOOL_START, s, end);
    MeetsExact(s, end, ThinkOpener, Earlier(think, tool));
    assert s[end..|s|] == s[end..];
    MetIsBlank(s, end, Earlier(think, tool));
  }

  /** Text with an opener in it is not blank. */
  lemma MetIsBlank(s: string, end: nat, k: int)
    requires end <= |s| && (k == -1 || (end <= k && (OpensAt(ThinkOpener, s, k) || StartsAt(s, k, TOOL_START))))
    ensures k != -1 ==> !AllSpace(s[end..])
  {
    hide StartsAt, OpensAt, AllSpace;
    if k != -1 {
      AngleOpens(s, k);
      AngleNotBlank(s, end, k);
    }
  }

  lemma AngleNotBlank(s: string, end: nat, k: nat)
    requires end <= k < |s| && s[k] == '<'
    ensures !AllSpace(s[end..])
  {
    assert s[end..][k - end] == '<';
  }

  // ---------------------------------------------------------------- one step

  /** The turn after a part. */
  function AfterPart(s: string, p: Part, turn: Turn): Turn
    requires p.Block? && p.block.ThinkOf? ==> p.block.start + 7 <= p.block.textEnd <= |s|
  {
    if p.Block? then After(s, p.block, turn) else turn
  }

  lemma PartInside(s: string, cursor: nat, p: Part)
    requires ComesNext(s, cursor, p) && p.Block?
    ensures p.block.ThinkOf? ==> p.block.start + 7 <= p.block.textEnd <= |s|
  {
    if p.block.ThinkOf? {
      TextInside(s, p.block);
    }
  }

  lemma ThinkSkipped(s: string, cursor: nat, start: nat, end: nat, turn: Turn, maxCalls: int)
    requires ComesNext(s, cursor, Skip(start, end, false))
    ensures DualStep(s, cursor, turn, maxCalls) == Continue(end, turn)
  {
    hide *;
    RegionNotRefused(s, cursor);
    ThinkPassedExact(s, cursor);
    ToolsPassedExact(s, cursor);
    ThinkSkipIs(s, cursor, start, end);
    if ThinkNext(s, cursor, start) {
      SkipThinkExact(s, cursor, start, end, turn);
      StepOnThink(s, cursor, turn, maxCalls);
    } else {
      StepOnBlock(s, cursor, turn, maxCalls);
      BlockSkipped(s, cursor, start, end, turn, maxCalls);
    }
  }

  lemma ThinkSkipIs(s: string, cursor: nat, start: nat, end: nat)
    requires ComesNext(s, cursor, Skip(start, end, false))
    ensures CDataThink(s, start, end) && cursor <= start < end <= |s|
    ensures if ThinkNext(s, cursor, start) then !(AllSpace(s[cursor..start]) && MeetsOpener(s, end, ToolOpener))
      else ThinkPassed(s, cursor) && ToolsPassed(s, cursor) && NoOpener(s, cursor, start) && StartsAt(s, start, "<think>")
  {
    hide StartsAt, AllSpace, MeetsOpener, ToolsPassed, ThinkPassed, NoneOf, OpensAt, NoOpener, CDataThink;
    CDataInside(s, start, end);
  }

  lemma CDataInside(s: string, start: nat, end: nat)
    requires CDataThink(s, start, end)
    ensures start < end <= |s|
  {
    hide CDataThinkEnd, CDataThink;
    CDataExact(s, start, end);
  }

  lemma StepOnThink(s: string, cursor: nat, turn: Turn, maxCalls: int)
    requires XmlThinkRegion(s, cursor).Some? && !ThinkRefused(s, cursor)
    ensures var (start, end) := XmlThinkRegion(s, cursor).value;
      DualStep(s, cursor, turn, maxCalls) == SkipXmlThink(s, cursor, start, end, turn)
  {
    hide XmlThinkRegion, ThinkRefused, SkipXmlThink;
  }

  lemma StepOnTools(s: string, cursor: nat, turn: Turn, maxCalls: int)
    requires XmlThinkRegion(s, cursor).None? && !ThinkRefused(s, cursor)
    requires XmlToolRegion(s, cursor).Some? && !ToolsRefused(s, cursor)
    ensures var (start, end) := XmlToolRegion(s, cursor).value;
      DualStep(s, cursor, turn, maxCalls) == SkipXmlTools(s, cursor, start, end, turn)
  {
    hide XmlThinkRegion, ThinkRefused, XmlToolRegion, ToolsRefused, SkipXmlTools;
  }

  lemma BlockSkipped(s: string, cursor: nat, start: nat, end: nat, turn: Turn, maxCalls: int)
    requires cursor <= start && NoOpener(s, cursor, start) && StartsAt(s, start, "<think>") && CDataThink(s, start, end)
    ensures JsonBlockStep(s, cursor, turn, maxCalls) == Continue(end, turn)
  {
    hide CDataThink, CDataThinkEnd, ThinkRaises;
    CDataExact(s, start, end);
    CDataNotRaised(s, start);
    ThinkFound(s, cursor, start);
    hide StartsAt;
  }

  lemma CDataNotRaised(s: string, start: nat)
    requires CDataThinkEnd(s, start).Some?
    ensures !ThinkRaises(s, start)
  {
    hide ThinkElementAt, Children;
    assert ':' !in "think" && '}' !in "think";
  }

  lemma ThinkFound(s: string, cursor: nat, start: nat)
    requires cursor <= start && NoOpener(s, cursor, start) && StartsAt(s, start, "<think>")
    ensures Find(THINK_START, s, cursor) == start
    ensures Find(TOOL_START, s, cursor) == -1 || start < Find(TOOL_START, s, cursor)
  {
    assert s[start + 2] == THINK_START[2] && THINK_START[2] != TOOL_START[2];
    assert !StartsAt(s, start, TOOL_START);
    hide StartsAt;
  }

  lemma ToolsSkipped(s: string, cursor: nat, start: nat, end: nat, turn: Turn, maxCalls: int)
    requires ComesNext(s, cursor, Skip(start, end, true))
    ensures DualStep(s, cursor, turn, maxCalls) == Continue(end, turn)
  {
    hide *;
    RegionNotRefused(s, cursor);
    ThinkPassedExact(s, cursor);
    ToolsPassedExact(s, cursor);
    ToolSkipIs(s, cursor, start, end);
    StepOnTools(s, cursor, turn, maxCalls);
    SkipToolsExact(s, cursor, start, end, turn);
  }

  lemma ToolSkipIs(s: string, cursor: nat, start: nat, end: nat)
    requires ComesNext(s, cursor, Skip(start, end, true))
    ensures ThinkPassed(s, cursor) && ToolsNext(s, cursor, start) && ToolRun(s, start, end) && cursor <= start < end <= |s|
    ensures !NamespacedPrelude(s, cursor, start)
    ensures !(Prelude(s, cursor, start) && (AllSpace(s[end..]) || MeetsOpener(s, end, ThinkOpener)))
  {
    hide StartsAt, AllSpace, MeetsOpener, ThinkPassed, NoneOf, NoOpener, ToolRun, NamespacedPrelude, Prelude, ToolCallsEnd,
      OpensAt;
    AngleOpens(s, start);
    RunExact(s, start, end);
  }

  lemma BlockTaken(s: string, cursor: nat, b: Block, turn: Turn, maxCalls: int)
    requires Sound(turn) && ComesNext(s, cursor, Block(b))
    requires b.ThinkOf? ==> b.start + 7 <= b.textEnd <= |s|
    ensures DualStep(s, cursor, turn, maxCalls) ==
      if (if b.ThinkOf? then turn.thinkSeen else !Sound(After(s, b, turn)) || |turn.calls| >= maxCalls)
      then Fail(Malformed) else Continue(EndOf(b), After(s, b, turn))
  {
    hide *;
    ThinkPassedExact(s, cursor);
    ToolsPassedExact(s, cursor);
    BlockNextIs(s, cursor, b);
    StepOnBlock(s, cursor, turn, maxCalls);
    BlockIsSimple(s, cursor, b, turn, maxCalls);
    StepRead(s, cursor, b, turn, maxCalls);
  }

  lemma BlockNextIs(s: string, cursor: nat, b: Block)
    requires ComesNext(s, cursor, Block(b))
    ensures ThinkPassed(s, cursor) && ToolsPassed(s, cursor) && Leads(s, cursor, b)
    ensures b.ThinkOf? ==> !ThinkRaises(s, b.start) && CDataThinkEnd(s, b.start) == None
  {
    hide ToolsPassed, ThinkPassed, Leads, NamespacedThink, CDataThink, ThinkRaises, CDataThinkEnd;
    if b.ThinkOf? {
      NamespaceExact(s, b.start);
      NoCData(s, b.start);
    }
  }

  lemma BlockIsSimple(s: string, cursor: nat, b: Block, turn: Turn, maxCalls: int)
    requires Leads(s, cursor, b) && (b.ThinkOf? ==> !ThinkRaises(s, b.start) && CDataThinkEnd(s, b.start) == None)
    ensures JsonBlockStep(s, cursor, turn, maxCalls) == SimpleStep(s, cursor, turn, maxCalls)
  {
    FirstOpener(s, cursor, b);
    hide StartsAt, ThinkBlock, ToolBlock, NoOpener, ThinkRaises, CDataThinkEnd, Stands;
  }

  /** A part that comes next is what the step takes, unless the turn has no room for its block. */
  lemma PartTaken(s: string, cursor: nat, p: Part, turn: Turn, maxCalls: int)
    requires Sound(turn) && ComesNext(s, cursor, p)
    requires p.Block? && p.block.ThinkOf? ==> p.block.start + 7 <= p.block.textEnd <= |s|
    ensures DualStep(s, cursor, turn, maxCalls) ==
      if p.Block? && (if p.block.ThinkOf? then turn.thinkSeen else !Sound(After(s, p.block, turn)) || |turn.calls| >= maxCalls)
      then Fail(Malformed) else Continue(PartEnd(p), AfterPart(s, p, turn))
  {
    hide DualStep, ComesNext, Sound, After;
    match p
    case Skip(start, end, false) => ThinkSkipped(s, cursor, start, end, turn, maxCalls);
    case Skip(start, end, true) => ToolsSkipped(s, cursor, start, end, turn, maxCalls);
    case Block(b) => BlockTaken(s, cursor, b, turn, maxCalls);
  }

  /** Whatever the step takes is a part that comes next. */
  lemma StepTakes(s: string, cursor: nat, turn: Turn, maxCalls: int) returns (p: Part)
    requires Sound(turn) && DualStep(s, cursor, turn, maxCalls).Continue?
    ensures ComesNext(s, cursor, p)
    ensures p.Block? && p.block.ThinkOf? ==> p.block.start + 7 <= p.block.textEnd <= |s| && !turn.thinkSeen
    ensures DualStep(s, cursor, turn, maxCalls) == Continue(PartEnd(p), AfterPart(s, p, turn))
    ensures Sound(AfterPart(s, p, turn)) && (p.Block? && p.block.ToolOf? ==> |turn.calls| < maxCalls)
  {
    hide DualStep, XmlThinkRegion, XmlToolRegion, ThinkRefused, ToolsRefused, ThinkPassed, ToolsPassed, ThinkNext, ToolsNext,
      CDataThink, ToolRun, SkipXmlThink, SkipXmlTools, MeetsOpener, Prelude, NamespacedPrelude, AllSpace, Sound, Leads,
      JsonBlockStep, NoOpener, StartsAt, NamespacedThink, After, NamespacedRun;
    StepGoesOn(s, cursor, turn, maxCalls);
    RegionNotRefused(s, cursor);
    ThinkPassedExact(s, cursor);
    ToolsPassedExact(s, cursor);
    if XmlThinkRegion(s, cursor).Some? {
      var (start, end) := XmlThinkRegion(s, cursor).value;
      StepOnThink(s, cursor, turn, maxCalls);
      SkipThinkExact(s, cursor, start, end, turn);
      p := Skip(start, end, false);
    } else if XmlToolRegion(s, cursor).Some? {
      var (start, end) := XmlToolRegion(s, cursor).value;
      StepOnTools(s, cursor, turn, maxCalls);
      SkipToolsExact(s, cursor, start, end, turn);
      p := Skip(start, end, true);
    } else {
      StepOnBlock(s, cursor, turn, maxCalls);
      p := BlockTakes(s, cursor, turn, maxCalls);
    }
  }

  lemma StepGoesOn(s: string, cursor: nat, turn: Turn, maxCalls: int)
    requires !DualStep(s, cursor, turn, maxCalls).Fail?
    ensures !ThinkRefused(s, cursor) && (XmlThinkRegion(s, cursor).None? ==> !ToolsRefused(s, cursor))
  {
    hide XmlThinkRegion, XmlToolRegion, ThinkRefused, ToolsRefused, SkipXmlThink, SkipXmlTools, JsonBlockStep;
  }

  lemma BlockTakes(s: string, cursor: nat, turn: Turn, maxCalls: int) returns (p: Part)
    requires Sound(turn) && ThinkPassed(s, cursor) && ToolsPassed(s, cursor)
    requires JsonBlockStep(s, cursor, turn, maxCalls).Continue?
    ensures ComesNext(s, cursor, p)
    ensures p.Block? && p.block.ThinkOf? ==> p.block.start + 7 <= p.block.textEnd <= |s| && !turn.thinkSeen
    ensures JsonBlockStep(s, cursor, turn, maxCalls) == Continue(PartEnd(p), AfterPart(s, p, turn))
    ensures Sound(AfterPart(s, p, turn)) && (p.Block? && p.block.ToolOf? ==> |turn.calls| < maxCalls)
  {
    hide ThinkPassed, ToolsPassed, StartsAt, ThinkBlock, ToolBlock, CDataThink, Sound, NamespacedThink, ThinkRaises,
      CDataThinkEnd, Stands, Strip;
    var think, tool := Find(THINK_START, s, cursor), Find(TOOL_START, s, cursor);
    if think != -1 && (tool == -1 || think < tool) && CDataThinkEnd(s, think).Some? {
      var end := CDataThinkEnd(s, think).value;
      CDataExact(s, think, end);
      NotTried(s, cursor, think, end);
      p := Skip(think, end, false);
    } else {
      if think != -1 {
        NamespaceExact(s, think);
        NoCData(s, think);
      }
      SimpleIsBlock(s, cursor, turn, maxCalls);
      var b := StepExactly(s, cursor, turn, maxCalls);
      if b.ThinkOf? {
        TextInside(s, b);
      }
      FirstOpener(s, cursor, b);
      p := Block(b);
    }
  }

  lemma SimpleIsBlock(s: string, cursor: nat, turn: Turn, maxCalls: int)
    requires JsonBlockStep(s, cursor, turn, maxCalls).Continue?
    requires var think, tool := Find(THINK_START, s, cursor), Find(TOOL_START, s, cursor);
      think != -1 && (tool == -1 || think < tool) ==> CDataThinkEnd(s, think).None?
    ensures JsonBlockStep(s, cursor, turn, maxCalls) == SimpleStep(s, cursor, turn, maxCalls)
  {
    hide StartsAt, ThinkBlock, ToolBlock, CDataThinkEnd, ThinkRaises;
  }

  lemma NotTried(s: string, cursor: nat, start: nat, end: nat)
    requires ThinkPassed(s, cursor) && CDataThink(s, start, end)
    ensures !ThinkNext(s, cursor, start)
  {
    hide CDataThink, ThinkNext, NamespacedThink;
  }

  lemma StopExact(s: string, cursor: nat, turn: Turn, maxCalls: int)
    ensures DualStep(s, cursor, turn, maxCalls).Stop? <==>
      ThinkPassed(s, cursor) && ToolsPassed(s, cursor) && NoOpener(s, cursor, |s|)
  {
    hide *;
    ThinkPassedExact(s, cursor);
    ToolsPassedExact(s, cursor);
    RegionNotRefused(s, cursor);
    BlockStop(s, cursor, turn, maxCalls);
    if ThinkRefused(s, cursor) || ToolsRefused(s, cursor) || XmlThinkRegion(s, cursor).Some? || XmlToolRegion(s, cursor).Some? {
      NoStop(s, cursor, turn, maxCalls);
    } else {
      StepOnBlock(s, cursor, turn, maxCalls);
    }
  }

  lemma NoStop(s: string, cursor: nat, turn: Turn, maxCalls: int)
    requires ThinkRefused(s, cursor) || ToolsRefused(s, cursor) || XmlThinkRegion(s, cursor).Some? || XmlToolRegion(s, cursor).Some?
    ensures !DualStep(s, cursor, turn, maxCalls).Stop?
  {
    hide XmlThinkRegion, XmlToolRegion, ThinkRefused, ToolsRefused, JsonBlockStep, Find, Search, StartsAt, OpensAt, BlankRaises,
      BlankOrXmlThink;
  }

  lemma BlockStop(s: string, cursor: nat, turn: Turn, maxCalls: int)
    ensures JsonBlockStep(s, cursor, turn, maxCalls).Stop? <==> NoOpener(s, cursor, |s|)
  {
    hide StartsAt, ThinkBlock, ToolBlock, ThinkRaises, CDataThinkEnd;
    forall start: nat
      ensures StartsAt(s, start, THINK_START) ==> !ThinkBlock(s, start, turn).Stop?
      ensures StartsAt(s, start, TOOL_START) ==> !ToolBlock(s, start, turn, maxCalls).Stop?
    {
      BlocksNeverStop(s, start, turn, maxCalls);
    }
  }

  // ---------------------------------------------------------------- all steps

  lemma PartMeans(s: string, cursor: nat, turn: Turn, p: Part, rest: seq<Part>, e: Envelope, maxCalls: int)
    requires ComesNext(s, cursor, p)
    requires p.Block? && p.block.ThinkOf? ==> p.block.start + 7 <= p.block.textEnd <= |s|
    ensures Means(s, turn, BlocksOf([p] + rest), e, maxCalls) <==>
      (p.Block? && p.block.ThinkOf? ==> !turn.thinkSeen) && Means(s, AfterPart(s, p, turn), BlocksOf(rest), e, maxCalls)
  {
    hide ComesNext, Means, After, Stands;
    var all := [p] + rest;
    assert all[0] == p && all[1..] == rest;
    if p.Block? {
      PartStands(s, cursor, p.block);
      MeansCons(s, turn, p.block, BlocksOf(rest), e, maxCalls);
    } else {
      assert [] + BlocksOf(rest) == BlocksOf(rest);
    }
  }

  lemma PartStands(s: string, cursor: nat, b: Block)
    requires ComesNext(s, cursor, Block(b))
    ensures Stands(s, b)
  {
    hide ToolsPassed, ThinkPassed, Stands, NoOpener, NamespacedThink, CDataThink;
  }

  lemma {:induction false} DualAccepted(s: string, cursor: nat, turn: Turn, maxCalls: int, e: Envelope) returns (parts: seq<Part>)
    requires Sound(turn) && |turn.calls| <= maxCalls && DualFrom(s, cursor, turn, maxCalls) == Ok(e)
    ensures Parts(s, cursor, parts) && Means(s, turn, BlocksOf(parts), e, maxCalls)
    decreases |s| - cursor
  {
    hide DualStep, Finish, Means, Sound, ComesNext, NoOpener, ThinkPassed, ToolsPassed, After;
    NoMoreBlocks(s, turn, e, maxCalls);
    StopExact(s, cursor, turn, maxCalls);
    if cursor >= |s| || DualStep(s, cursor, turn, maxCalls).Stop? {
      parts := [];
    } else {
      var p := StepTakes(s, cursor, turn, maxCalls);
      RoomKept(s, p, turn, maxCalls);
      var rest := DualAccepted(s, PartEnd(p), AfterPart(s, p, turn), maxCalls, e);
      PartMeans(s, cursor, turn, p, rest, e, maxCalls);
      parts := [p] + rest;
    }
  }

  lemma RoomKept(s: string, p: Part, turn: Turn, maxCalls: int)
    requires p.Block? && p.block.ThinkOf? ==> p.block.start + 7 <= p.block.textEnd <= |s|
    requires |turn.calls| <= maxCalls && (p.Block? && p.block.ToolOf? ==> |turn.calls| < maxCalls)
    ensures |AfterPart(s, p, turn).calls| <= maxCalls
  {
    hide Strip;
  }

  lemma {:induction false} DualUnderstood(s: string, cursor: nat, turn: Turn, maxCalls: int, parts: seq<Part>, e: Envelope)
    requires Sound(turn) && Parts(s, cursor, parts) && Means(s, turn, BlocksOf(parts), e, maxCalls)
    ensures DualFrom(s, cursor, turn, maxCalls) == Ok(e)
    decreases |parts|
  {
    hide DualStep, Finish, Means, Sound, ComesNext, NoOpener, ThinkPassed, ToolsPassed, After, Stands;
    if parts == [] {
      NoMoreBlocks(s, turn, e, maxCalls);
      StopExact(s, cursor, turn, maxCalls);
    } else {
      var p, rest := parts[0], parts[1..];
      assert parts == [p] + rest;
      if p.Block? {
        PartInside(s, cursor, p);
        PartStands(s, cursor, p.block);
      }
      PartMeans(s, cursor, turn, p, rest, e, maxCalls);
      if p.Block? {
        BlockFits(s, turn, p.block, BlocksOf(rest), e, maxCalls);
      }
      PartTaken(s, cursor, p, turn, maxCalls);
      DualUnderstood(s, PartEnd(p), AfterPart(s, p, turn), maxCalls, rest, e);
    }
  }

  // ---------------------------------------------------------------- the parser

  /** The envelope that a payload means to the parser that looks out for XML. */
  ghost predicate JsonGrammatical(s: string, e: Envelope, maxCalls: int) {
    exists parts :: Parts(s, 0, parts) && Means(s, START, BlocksOf(parts), e, maxCalls)
  }

  /** Over every payload: the XML-aware JSON parser returns an envelope exactly when the payload consists of JSON blocks
      that mean it, of XML regions that are skipped, and of text that opens nothing. */
  lemma JsonExactly(s: string, maxCalls: int, e: Envelope)
    ensures ParseJsonDual(s, maxCalls) == Ok(e) <==> JsonGrammatical(s, e, maxCalls)
  {
    hide DualFrom, Means, Parts;
    StartSound();
    if ParseJsonDual(s, maxCalls) == Ok(e) {
      var parts := DualAccepted(s, 0, START, maxCalls, e);
    }
    if JsonGrammatical(s, e, maxCalls) {
      var parts :| Parts(s, 0, parts) && Means(s, START, BlocksOf(parts), e, maxCalls);
      DualUnderstood(s, 0, START, maxCalls, parts, e);
      LimitIsPositive(s, BlocksOf(parts), e, maxCalls);
    }
  }
}
