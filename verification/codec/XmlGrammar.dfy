/** The XML parser against a grammar of element trees: which documents it accepts, and what each of them means. */
module XmlGrammar {
  import opened Text
  import opened JsonCodec
  import opened Contracts
  import opened XmlTree
  import opened ElementScanner
  import opened ActionParse
  import opened DelimiterGrammar

  // ---------------------------------------------------------------- values

  /** A decimal numeral with an optional sign and blanks around it. */
  ghost predicate Numeral(text: string, n: int) {
    exists ds: string :: IsNumber(ds) &&
      ((Strip(text) in [ds, "+" + ds] && n == DigitsValue(ds)) || (Strip(text) == "-" + ds && n + DigitsValue(ds) == 0))
  }

  predicate IsNumber(ds: string) {
    ds != "" && forall i :: 0 <= i < |ds| ==> IsDigit(ds[i])
  }

  /** The children of a list argument, one string each. */
  ghost predicate Strings(tag: string, children: seq<Element>, items: seq<Json>) {
    && |items| == |children|
    && forall i :: 0 <= i < |children| ==>
         var c := children[i];
         c.name == tag && c.attributes == map[] && Children(c.content) == [] && items[i] == Str(DirectText(c.content))
  }

  /** An argument element holds a value of the kind declared for it; an argument that is not declared is a string. */
  ghost predicate Holds(tool: Tool, c: Element, value: Json) {
    match ArgKindOf(tool, c.name)
    case Some(StringListArg) =>
      AllSpace(DirectText(c.content)) && value.Arr? && Strings(ItemTag(c.name), Children(c.content), value.items)
    case Some(IntArg) => Children(c.content) == [] && value.Int? && Numeral(DirectText(c.content), value.number)
    case _ => Children(c.content) == [] && value == Str(DirectText(c.content))
  }

  /** One element per argument, each with its own plain name and no attributes. */
  ghost predicate Arguments(tool: Tool, children: seq<Element>, args: map<string, Json>) {
    && (forall i, j :: 0 <= i < j < |children| ==> children[i].name != children[j].name)
    && (forall name :: name in args <==> exists i :: 0 <= i < |children| && children[i].name == name)
    && forall i :: 0 <= i < |children| ==>
         var c := children[i];
         && ':' !in c.name && '}' !in c.name && c.attributes == map[] && c.name in args && Holds(tool, c, args[c.name])
  }

  /** A tool-call element: a name attribute alone, nothing but blanks between the arguments. */
  ghost predicate Calls(c: Element, call: ToolCall) {
    && c.name == "tool_call" && c.attributes.Keys == {"name"}
    && CanonicalTool(Strip(c.attributes["name"])) == Some(call.tool)
    && AllSpace(DirectText(c.content)) && Arguments(call.tool, Children(c.content), call.args)
  }

  // ---------------------------------------------------------------- values are read exactly

  lemma NumberTaken(ds: string)
    ensures TakeDigits(ds) == ds <==> forall i :: 0 <= i < |ds| ==> IsDigit(ds[i])
  {
    var r := TakeDigits(ds);
    if |r| == |ds| {
      assert r == ds;
    }
  }

  lemma NumeralExact(text: string, n: int)
    ensures PythonInt(text) == Some(n) <==> Numeral(text, n)
  {
    hide Strip, DigitsValue, TakeDigits;
    var t := Strip(text);
    var signed := t != "" && (t[0] == '-' || t[0] == '+');
    var ds := if signed then t[1..] else t;
    NumberTaken(ds);
    if PythonInt(text) == Some(n) {
      assert IsNumber(ds);
      assert signed ==> t == [t[0]] + ds;
    }
    if Numeral(text, n) {
      var d: string :| IsNumber(d) &&
        ((t in [d, "+" + d] && n == DigitsValue(d)) || (t == "-" + d && n + DigitsValue(d) == 0));
      assert IsDigit(d[0]);
      assert t == d || (t[1..] == d && t[0] == (if t == "-" + d then '-' else '+'));
    }
  }

  lemma {:induction false} StringsExact(tag: string, children: seq<Element>, items: seq<Json>)
    ensures ListItems(tag, children) == Some(items) <==> Strings(tag, children, items)
    decreases |children|
  {
    hide DirectText, Children;
    if children != [] {
      var rest := if items == [] then [] else items[1..];
      StringsExact(tag, children[1..], rest);
      if ListItems(tag, children[1..]).Some? {
        StringsExact(tag, children[1..], ListItems(tag, children[1..]).value);
      }
      if items != [] {
        assert items == [items[0]] + rest;
      }
    }
  }

  lemma HoldsExact(tool: Tool, c: Element, value: Json)
    ensures CoerceArg(tool, c) == Some(value) <==> Holds(tool, c, value)
  {
    hide DirectText, Children, ArgKindOf, ItemTag, PythonInt, ListItems, Strings, Numeral;
    if value.Int? {
      NumeralExact(DirectText(c.content), value.number);
    }
    if value.Arr? {
      StringsExact(ItemTag(c.name), Children(c.content), value.items);
    }
  }

  // ---------------------------------------------------------------- arguments

  /** The argument elements from the first on, with the arguments read before them. */
  ghost predicate Extends(tool: Tool, children: seq<Element>, before: map<string, Json>, args: map<string, Json>) {
    && (forall i, j :: 0 <= i < j < |children| ==> children[i].name != children[j].name)
    && (forall name :: name in args <==> name in before || exists i :: 0 <= i < |children| && children[i].name == name)
    && (forall name :: name in before ==> name in args && args[name] == before[name])
    && forall i :: 0 <= i < |children| ==> Argument(tool, children[i], before, args)
  }

  ghost predicate Argument(tool: Tool, c: Element, before: map<string, Json>, args: map<string, Json>) {
    && ':' !in c.name && '}' !in c.name && c.attributes == map[] && c.name !in before && c.name in args
    && Holds(tool, c, args[c.name])
  }

  lemma {:induction false} ArgumentsExact(tool: Tool, children: seq<Element>, before: map<string, Json>, args: map<string, Json>)
    ensures ReadArgs(tool, children, before) == Some(args) <==> Extends(tool, children, before, args)
    decreases |children|
  {
    hide Holds, CoerceArg;
    if children == [] {
      if Extends(tool, children, before, args) {
        assert args == before;
      }
    } else {
      var c, rest := children[0], children[1..];
      if c.name in args {
        var value := args[c.name];
        HoldsExact(tool, c, value);
        ArgumentsExact(tool, rest, before[c.name := value], args);
        if Argument(tool, c, before, args) && Extends(tool, rest, before[c.name := value], args) {
          ExtendsCons(tool, children, before, args);
        }
      }
      if Extends(tool, children, before, args) {
        ExtendsTail(tool, children, before, args);
      }
      if CoerceArg(tool, c).Some? {
        var value := CoerceArg(tool, c).value;
        HoldsExact(tool, c, value);
        ArgumentsExact(tool, rest, before[c.name := value], args);
      }
    }
  }

  lemma ExtendsTail(tool: Tool, children: seq<Element>, before: map<string, Json>, args: map<string, Json>)
    requires children != [] && Extends(tool, children, before, args)
    ensures var c := children[0];
      Argument(tool, c, before, args) && Extends(tool, children[1..], before[c.name := args[c.name]], args)
  {
    hide Holds;
    var c, rest := children[0], children[1..];
    assert Argument(tool, children[0], before, args);
    var after := before[c.name := args[c.name]];
    assert forall i :: 0 <= i < |rest| ==> rest[i] == children[i + 1];
    forall i | 0 <= i < |rest| ensures Argument(tool, rest[i], after, args) {
      assert Argument(tool, children[i + 1], before, args) && children[0].name != children[i + 1].name;
    }
    hide Argument;
  }

  lemma ExtendsCons(tool: Tool, children: seq<Element>, before: map<string, Json>, args: map<string, Json>)
    requires children != [] && Argument(tool, children[0], before, args)
    requires Extends(tool, children[1..], before[children[0].name := args[children[0].name]], args)
    ensures Extends(tool, children, before, args)
  {
    hide Holds;
    var c, rest := children[0], children[1..];
    var after := before[c.name := args[c.name]];
    assert forall i :: 0 < i < |children| ==> children[i] == rest[i - 1];
    forall i | 0 <= i < |children| ensures Argument(tool, children[i], before, args) {
      if i > 0 {
        assert Argument(tool, rest[i - 1], after, args);
      }
    }
    forall j | 0 < j < |children| ensures c.name != children[j].name {
      assert Argument(tool, rest[j - 1], after, args);
    }
    hide Argument;
  }

  lemma CallExact(c: Element, call: ToolCall)
    requires c.name == "tool_call"
    ensures XmlToolCall(c) == Some(call) <==> Calls(c, call)
  {
    hide Strip, DirectText, Children, CanonicalTool, Holds, ReadArgs;
    ArgumentsExact(call.tool, Children(c.content), map[], call.args);
    NoNameNoTool();
  }

  lemma NoNameNoTool()
    ensures forall name :: name == "" ==> CanonicalTool(name) == None
  {
  }

  // ---------------------------------------------------------------- children

  function ToolsOf(children: seq<Element>): seq<Element> {
    if children == [] then []
    else (if children[0].name == "think" then [] else [children[0]]) + ToolsOf(children[1..])
  }

  function ThinksAmong(children: seq<Element>): seq<Element> {
    if children == [] then []
    else (if children[0].name == "think" then [children[0]] else []) + ThinksAmong(children[1..])
  }

  /** At most one think element, plain and without children, and its text. */
  ghost predicate ThoughtOf(thinks: seq<Element>, thinking: Option<string>) {
    && |thinks| <= 1 && (forall c :: c in thinks ==> c.attributes == map[] && Children(c.content) == [])
    && thinking == (if thinks == [] || AllSpace(DirectText(thinks[0].content)) then None
                    else Some(Strip(DirectText(thinks[0].content))))
  }

  /** What the children mean after a turn so far: every child but a think element is the next call. */
  ghost predicate MeansAfter(turn: Turn, children: seq<Element>, e: Envelope, maxCalls: int) {
    && var tools, thinks, before := ToolsOf(children), ThinksAmong(children), |turn.calls|;
    && turn.calls <= e.calls && |e.calls| == before + |tools| && 1 <= |e.calls| <= maxCalls
    && (forall i :: 0 <= i < |tools| ==> Calls(tools[i], e.calls[before + i]))
    && (|e.calls| == 1 || forall i :: 0 <= i < |e.calls| ==> e.calls[i].tool != Submit)
    && if turn.thinkSeen then thinks == [] && e.thinking == turn.thinking else ThoughtOf(thinks, e.thinking)
  }

  lemma NoMoreChildren(turn: Turn, e: Envelope, maxCalls: int)
    requires Sound(turn)
    ensures MeansAfter(turn, [], e, maxCalls) <==> Finish(turn) == Ok(e) && |turn.calls| <= maxCalls
  {
    SubmitAgain(turn.calls);
  }

  lemma ThinkUnfold(c: Element, turn: Turn, maxCalls: int)
    requires Sound(turn) && c.name == "think"
    ensures var text, next := DirectText(c.content), XmlChild(c, turn, maxCalls);
      && (next.Some? <==> !turn.thinkSeen && c.attributes == map[] && Children(c.content) == [])
      && (next.Some? ==>
            && Sound(next.value) && next.value.thinkSeen && next.value.calls == turn.calls
            && next.value.thinking == if AllSpace(text) then None else Some(Strip(text)))
  {
    hide Strip, AllSpace, DirectText, Children, XmlToolCall;
    StripProperties(DirectText(c.content));
    StripProperties(Strip(DirectText(c.content)));
  }

  lemma ThinkFirst(c: Element, rest: seq<Element>)
    requires c.name == "think"
    ensures ThinksAmong([c] + rest) == [c] + ThinksAmong(rest) && ToolsOf([c] + rest) == ToolsOf(rest)
  {
    var all := [c] + rest;
    assert all[0] == c && all[1..] == rest;
  }

  /** Text that comes first is the only one. */
  lemma OneThought(c: Element, thinks: seq<Element>, thinking: Option<string>)
    ensures ThoughtOf([c] + thinks, thinking) <==>
      && thinks == [] && c.attributes == map[] && Children(c.content) == []
      && thinking == if AllSpace(DirectText(c.content)) then None else Some(Strip(DirectText(c.content)))
  {
    hide Strip, AllSpace, DirectText, Children;
    assert c in [c] + thinks && ([c] + thinks)[0] == c;
  }

  lemma ThinkChild(c: Element, rest: seq<Element>, turn: Turn, e: Envelope, maxCalls: int)
    requires Sound(turn) && c.name == "think"
    ensures MeansAfter(turn, [c] + rest, e, maxCalls) <==>
      XmlChild(c, turn, maxCalls).Some? && MeansAfter(XmlChild(c, turn, maxCalls).value, rest, e, maxCalls)
    ensures XmlChild(c, turn, maxCalls).Some? ==>
      Sound(XmlChild(c, turn, maxCalls).value) && XmlChild(c, turn, maxCalls).value.calls == turn.calls
  {
    hide Strip, AllSpace, DirectText, Children, Calls, XmlChild, Sound, ThoughtOf, ToolsOf, ThinksAmong;
    ThinkUnfold(c, turn, maxCalls);
    ThinkFirst(c, rest);
    OneThought(c, ThinksAmong(rest), e.thinking);
  }

  lemma ToolFirst(c: Element, rest: seq<Element>)
    requires c.name != "think"
    ensures ToolsOf([c] + rest) == [c] + ToolsOf(rest) && ThinksAmong([c] + rest) == ThinksAmong(rest)
  {
    var all := [c] + rest;
    assert all[0] == c && all[1..] == rest;
  }

  lemma ToolChild(c: Element, rest: seq<Element>, turn: Turn, e: Envelope, maxCalls: int)
    requires Sound(turn) && c.name != "think"
    ensures MeansAfter(turn, [c] + rest, e, maxCalls) <==>
      XmlChild(c, turn, maxCalls).Some? && MeansAfter(XmlChild(c, turn, maxCalls).value, rest, e, maxCalls)
    ensures XmlChild(c, turn, maxCalls).Some? ==>
      Sound(XmlChild(c, turn, maxCalls).value) && |XmlChild(c, turn, maxCalls).value.calls| <= maxCalls
  {
    hide Strip, AllSpace, DirectText, Children, Calls, XmlToolCall, AddCall, ThoughtOf, Sound, ToolsOf, ThinksAmong;
    ToolFirst(c, rest);
    var tools := [c] + ToolsOf(rest);
    if XmlChild(c, turn, maxCalls).Some? {
      var call, next := XmlToolCall(c).value, XmlChild(c, turn, maxCalls).value;
      CallExact(c, call);
      AddExactly(turn, call, maxCalls, next);
      if MeansAfter(next, rest, e, maxCalls) {
        CallsGrow(turn.calls, call, e.calls);
        forall i | 0 <= i < |tools| ensures Calls(tools[i], e.calls[|turn.calls| + i]) {
          if i > 0 {
            assert Calls(ToolsOf(rest)[i - 1], e.calls[|next.calls| + (i - 1)]);
          }
        }
      }
    }
    if MeansAfter(turn, [c] + rest, e, maxCalls) {
      var call := e.calls[|turn.calls|];
      assert Calls(tools[0], e.calls[|turn.calls| + 0]);
      NamedCall(c, call);
      CallExact(c, call);
      var next := turn.(calls := turn.calls + [call]);
      CallsSplit(turn, call, e.calls);
      AddExactly(turn, call, maxCalls, next);
      forall i | 0 <= i < |ToolsOf(rest)| ensures Calls(ToolsOf(rest)[i], e.calls[|next.calls| + i]) {
        assert Calls(tools[i + 1], e.calls[|turn.calls| + (i + 1)]);
      }
    }
  }

  lemma NamedCall(c: Element, call: ToolCall)
    requires Calls(c, call)
    ensures c.name == "tool_call"
  {
  }

  lemma CallsGrow(calls: seq<ToolCall>, call: ToolCall, all: seq<ToolCall>)
    requires calls + [call] <= all
    ensures calls <= all && all[|calls|] == call
  {
    assert (calls + [call])[|calls|] == call;
  }

  lemma CallsSplit(turn: Turn, call: ToolCall, all: seq<ToolCall>)
    requires turn.calls <= all && |turn.calls| < |all| && all[|turn.calls|] == call && Sound(turn)
    requires |all| == 1 || forall i :: 0 <= i < |all| ==> all[i].tool != Submit
    ensures turn.calls + [call] <= all && Sound(turn.(calls := turn.calls + [call]))
  {
  }

  lemma {:induction false} ChildrenExact(children: seq<Element>, turn: Turn, e: Envelope, maxCalls: int)
    requires Sound(turn) && |turn.calls| <= maxCalls
    ensures XmlFold(children, turn, maxCalls) == Ok(e) <==> MeansAfter(turn, children, e, maxCalls)
    decreases |children|
  {
    hide XmlChild, MeansAfter, Sound, Finish;
    if children == [] {
      NoMoreChildren(turn, e, maxCalls);
    } else {
      var c, rest := children[0], children[1..];
      assert children == [c] + rest;
      if c.name == "think" {
        ThinkChild(c, rest, turn, e, maxCalls);
      } else {
        ToolChild(c, rest, turn, e, maxCalls);
      }
      if XmlChild(c, turn, maxCalls).Some? {
        ChildrenExact(rest, XmlChild(c, turn, maxCalls).value, e, maxCalls);
      }
    }
  }

  // ---------------------------------------------------------------- the parser

  /** The envelope that a payload means: the rejector accepts it, it is the inside of a document, and nothing but blanks
      stands around its elements. */
  ghost predicate Describes(s: string, e: Envelope, maxCalls: int) {
    && AllowedFrom(s, 0) && FromString("<assistant_payload>" + s + "</assistant_payload>").Some?
    && var content := FromString("<assistant_payload>" + s + "</assistant_payload>").value.content;
    AllSpace(DirectText(content)) && MeansAfter(START, Children(content), e, maxCalls)
  }

  /** Over every payload: the XML parser returns an envelope exactly when the payload describes it. */
  lemma XmlExactly(s: string, maxCalls: int, e: Envelope)
    ensures ParseXml(s, maxCalls) == Ok(e) <==> Describes(s, e, maxCalls)
  {
    hide XmlFold, MeansAfter, DirectText, Children, FromString, AllowedFrom, AllSpace;
    StartSound();
    if maxCalls >= 1 && FromString(Document(s)).Some? {
      ChildrenExact(Children(FromString(Document(s)).value.content), START, e, maxCalls);
    }
    if Describes(s, e, maxCalls) {
      LimitPositive(Children(FromString(Document(s)).value.content), e, maxCalls);
    }
  }

  /** A payload that describes nothing is malformed; a limit below one is the other error. */
  lemma XmlFails(s: string, maxCalls: int)
    ensures var r := ParseXml(s, maxCalls); r.Err? ==> r.error == (if maxCalls < 1 then BadLimit else Malformed)
  {
    hide DirectText, Children, FromString, AllowedFrom, AllSpace;
    if maxCalls >= 1 && FromString(Document(s)).Some? {
      FoldFails(Children(FromString(Document(s)).value.content), START, maxCalls);
    }
  }

  lemma {:induction false} FoldFails(children: seq<Element>, turn: Turn, maxCalls: int)
    ensures var r := XmlFold(children, turn, maxCalls); r.Err? ==> r.error == Malformed
    decreases |children|
  {
    hide XmlChild;
    if children != [] && XmlChild(children[0], turn, maxCalls).Some? {
      FoldFails(children[1..], XmlChild(children[0], turn, maxCalls).value, maxCalls);
    }
  }

  lemma LimitPositive(children: seq<Element>, e: Envelope, maxCalls: int)
    requires MeansAfter(START, children, e, maxCalls)
    ensures maxCalls >= 1
  {
  }
}
