/** What the printed text looks like: the order of keys, the characters, the separators, and which calls XML can
    print. */
module PrintedForms {
  import opened Text
  import opened JsonCodec
  import opened Contracts
  import opened ActionRender

  // ---------------------------------------------------------------- key order

  lemma {:induction false} LexAntisymmetric(a: string, b: string)
    requires LexLe(a, b) && LexLe(b, a)
    ensures a == b
    decreases |a|
  {
    if a != [] {
      LexAntisymmetric(a[1..], b[1..]);
      assert a == [a[0]] + a[1..] && b == [b[0]] + b[1..];
    }
  }

  function KeySet(keys: seq<string>): set<string> {
    set i | 0 <= i < |keys| :: keys[i]
  }

  /** Keys in strictly ascending order. */
  predicate Ascending(keys: seq<string>) {
    forall i, j :: 0 <= i < j < |keys| ==> keys[i] != keys[j] && LexLe(keys[i], keys[j])
  }

  lemma LeastIs(keys: set<string>, a: string, b: string)
    requires IsLeast(a, keys) && IsLeast(b, keys)
    ensures a == b
  {
    LexAntisymmetric(a, b);
  }

  lemma KeyCons(keys: seq<string>)
    requires Ascending(keys) && keys != []
    ensures KeySet(keys) - {keys[0]} == KeySet(keys[1..]) && IsLeast(keys[0], KeySet(keys))
  {
    hide LexLe;
    var all, rest := KeySet(keys), keys[1..];
    LexTotal(keys[0], keys[0]);
    forall x | x in all && x != keys[0] ensures x in KeySet(rest) {
      var i :| 0 <= i < |keys| && keys[i] == x;
      assert rest[i - 1] == x;
    }
    forall x | x in KeySet(rest) ensures x in all && x != keys[0] {
      var i :| 0 <= i < |rest| && rest[i] == x;
      assert keys[i + 1] == x;
    }
  }

  /** The members of an object are printed in ascending order of their keys. */
  lemma {:induction false} KeysInOrder(keys: seq<string>)
    requires Ascending(keys)
    ensures SortedKeys(KeySet(keys)) == keys
    decreases |keys|
  {
    hide LexLe, SortedKeys, KeySet, IsLeast;
    if keys == [] {
      NoKeys();
    } else {
      KeyCons(keys);
      KeysInOrder(keys[1..]);
      FirstIsLeast(KeySet(keys), keys[0]);
      assert keys == [keys[0]] + keys[1..];
    }
  }

  lemma NoKeys()
    ensures KeySet([]) == {} && SortedKeys({}) == []
  {
  }

  lemma FirstIsLeast(keys: set<string>, least: string)
    requires IsLeast(least, keys)
    ensures SortedKeys(keys) == [least] + SortedKeys(keys - {least})
  {
    hide IsLeast;
    forall k | IsLeast(k, keys) ensures k == least {
      LeastIs(keys, k, least);
    }
    NotEmpty(keys, least);
  }

  lemma NotEmpty(keys: set<string>, k: string)
    requires IsLeast(k, keys)
    ensures keys != {}
  {
  }

  // ---------------------------------------------------------------- characters

  predicate Printable(s: string) {
    forall i :: 0 <= i < |s| ==> ' ' <= s[i] <= '~'
  }

  /** Printable characters other than the quote and the backslash are printed as they are; five control characters have
      short escapes; everything printed is printable. */
  lemma CharForms(c: char)
    ensures Printable(EscapeChar(c))
    ensures EscapeChar(c) == [c] <==> ' ' <= c <= '~' && c != '"' && c != '\\'
    ensures EscapeChar('"') == "\\\"" && EscapeChar('\\') == "\\\\"
    ensures EscapeChar('\n') == "\\n" && EscapeChar('\r') == "\\r" && EscapeChar('\t') == "\\t"
    ensures EscapeChar(12 as char) == "\\f" && EscapeChar(8 as char) == "\\b"
  {
  }

  lemma JoinPrintable(a: string, b: string)
    requires Printable(a) && Printable(b)
    ensures Printable(a + b)
  {
  }

  lemma {:induction false} TextPrintable(s: string)
    ensures Printable(EscapeText(s)) && Printable(EncodeString(s))
    decreases |s|
  {
    hide EscapeChar;
    if s != "" {
      CharForms(s[0]);
      TextPrintable(s[1..]);
      JoinPrintable(EscapeChar(s[0]), EscapeText(s[1..]));
    }
  }

  lemma {:induction false} DigitsPrintable(n: nat)
    ensures Printable(Digits(n))
    decreases n
  {
    if n >= 10 {
      DigitsPrintable(n / 10);
    }
  }

  /** JSON is printed in printable ASCII, whatever the strings contain. */
  lemma {:induction false} JsonPrintable(j: Json, compact: bool)
    ensures Printable(Encode(j, compact))
    decreases j, 1, 0
  {
    hide Digits, EncodeString, SortedKeys, EncodeItems, EncodeMembers;
    match j
    case Int(n) => DigitsPrintable(if n < 0 then -n else n);
    case Str(text) => TextPrintable(text);
    case Arr(items) => ItemsPrintable(j, items, compact);
    case Dict(members) => MembersPrintable(j, SortedKeys(members.Keys), compact);
    case _ =>
  }

  lemma {:induction false} ItemsPrintable(whole: Json, items: seq<Json>, compact: bool)
    requires forall i :: 0 <= i < |items| ==> items[i] < whole
    ensures Printable(EncodeItems(whole, items, compact))
    decreases whole, 0, |items|
  {
    hide Encode;
    if items != [] {
      JsonPrintable(items[0], compact);
      ItemsPrintable(whole, items[1..], compact);
    }
  }

  lemma {:induction false} MembersPrintable(whole: Json, keys: seq<string>, compact: bool)
    requires whole.Dict? && forall k :: k in keys ==> k in whole.members
    ensures Printable(EncodeMembers(whole, keys, compact))
    decreases whole, 0, |keys|
  {
    hide Encode, EncodeString;
    if keys != [] {
      TextPrintable(keys[0]);
      JsonPrintable(whole.members[keys[0]], compact);
      MembersPrintable(whole, keys[1..], compact);
    }
  }

  // ---------------------------------------------------------------- which calls XML can print

  /** A value an XML argument can hold: text, a number or a truth value, or a list of strings where one is declared. */
  ghost predicate XmlValue(tool: Tool, field: string, value: Json) {
    value.Str? || value.Int? || value.Bool? ||
    (value.Arr? && ArgKindOf(tool, field) == Some(StringListArg) && forall i :: 0 <= i < |value.items| ==> value.items[i].Str?)
  }

  lemma {:induction false} ArgsPrintable(tool: Tool, fields: seq<string>, args: map<string, Json>)
    ensures RenderXmlArgs(tool, fields, args).Some? <==>
      forall f :: f in fields && f in args ==> args[f].Null? || XmlValue(tool, f, args[f])
    decreases |fields|
  {
    hide ArgKindOf, ItemTag, RenderXmlItems, RenderXmlString, EncodeInt;
    if fields != [] {
      ArgsPrintable(tool, fields[1..], args);
      assert forall f :: f in fields <==> f == fields[0] || f in fields[1..];
    }
  }

  /** XML prints a call exactly when all its arguments are declared for the tool and each is null, which is left out, or a
      value XML can hold. */
  lemma XmlCallPrintable(call: ToolCall)
    ensures RenderXmlCall(call).Some? <==>
      forall f :: f in call.args ==> f in ArgOrder(call.tool) && (call.args[f].Null? || XmlValue(call.tool, f, call.args[f]))
  {
    hide ArgOrder, ArgKindOf, RenderXmlArgs, XmlValue;
    ArgsPrintable(call.tool, ArgOrder(call.tool), call.args);
  }

  /** The element of an argument with the text inside it. */
  function InElement(field: string, inner: string): string {
    "<" + field + ">" + inner + "</" + field + ">"
  }

  /** A truth value is printed in lower case, a number in decimal, text in a CDATA section unless it holds a section end. */
  lemma ScalarForms(tool: Tool, field: string, text: string, n: int, flag: bool)
    ensures RenderXmlArg(tool, field, Bool(flag)) == Some(InElement(field, if flag then "true" else "false"))
    ensures RenderXmlArg(tool, field, Int(n)) == Some(InElement(field, if n < 0 then "-" + Digits(-n) else Digits(n)))
    ensures (forall k :: !StartsAt(text, k, "]]>")) ==>
      RenderXmlArg(tool, field, Str(text)) == Some(InElement(field, "<![CDATA[" + text + "]]>"))
    ensures (exists k: nat :: StartsAt(text, k, "]]>")) ==>
      RenderXmlArg(tool, field, Str(text)) == Some(InElement(field, EscapeXml(text)))
  {
    hide StartsAt, Digits, EscapeXml, ArgKindOf;
  }

  /** A list is printed as one element for each string, in order. */
  lemma {:induction false} ItemForms(tag: string, items: seq<Json>, last: string)
    requires forall i :: 0 <= i < |items| ==> items[i].Str?
    ensures RenderXmlItems(tag, items + [Str(last)]) == RenderXmlItems(tag, items) + InElement(tag, RenderXmlString(last))
    decreases |items|
  {
    hide RenderXmlString;
    var all := items + [Str(last)];
    if items == [] {
      assert all == [Str(last)] && all[1..] == [];
    } else {
      assert all[0] == items[0] && all[1..] == items[1..] + [Str(last)];
      ItemForms(tag, items[1..], last);
    }
  }

  /** The arguments of a call are printed one after the other in the declared order; null ones, and those not given, are
      left out. */
  lemma {:induction false} ArgForms(tool: Tool, fields: seq<string>, last: string, args: map<string, Json>)
    requires RenderXmlArgs(tool, fields + [last], args).Some?
    ensures RenderXmlArgs(tool, fields, args).Some?
    ensures var all, front := RenderXmlArgs(tool, fields + [last], args).value, RenderXmlArgs(tool, fields, args).value;
      && (last !in args || args[last].Null? ==> all == front)
      && (last in args && !args[last].Null? ==>
            RenderXmlArg(tool, last, args[last]).Some? && all == front + RenderXmlArg(tool, last, args[last]).value)
    decreases |fields|
  {
    hide RenderXmlArg;
    var all := fields + [last];
    if fields == [] {
      assert all == [last] && all[1..] == [];
    } else {
      assert all[0] == fields[0] && all[1..] == fields[1..] + [last];
      ArgForms(tool, fields[1..], last, args);
    }
  }

  /** The arguments each tool declares, in print order, with their kinds. */
  lemma Schema()
    ensures Declares(Bash, [("command", StringArg), ("cwd", StringArg), ("timeout_sec", IntArg)])
    ensures Declares(ReadFile, [("path", StringArg), ("start_line", IntArg), ("end_line", IntArg)])
    ensures Declares(FileSearch, [("query", StringArg), ("root", StringArg), ("top_k", IntArg)])
    ensures Declares(TextSearch, [("query", StringArg), ("path_hint", StringArg), ("top_k", IntArg)])
    ensures Declares(ApplyPatch, [("patch", StringArg), ("path", StringArg), ("description", StringArg)])
    ensures Declares(Submit, [("final_response", StringArg), ("changed_paths", StringListArg)])
    ensures ItemTag("changed_paths") == "path"
  {
  }

  ghost predicate Declares(tool: Tool, fields: seq<(string, ArgKind)>) {
    && |ArgOrder(tool)| == |fields|
    && forall i :: 0 <= i < |fields| ==>
         ArgOrder(tool)[i] == fields[i].0 && ArgKindOf(tool, fields[i].0) == Some(fields[i].1)
  }

  // ---------------------------------------------------------------- separators

  lemma TwoKeys(a: string, b: string)
    requires a != b && LexLe(a, b)
    ensures SortedKeys({a, b}) == [a, b]
  {
    assert KeySet([a, b]) == {a, b} by {
      assert [a, b][0] == a && [a, b][1] == b;
    }
    KeysInOrder([a, b]);
  }

  lemma {:induction false} NameText(s: string)
    requires forall i :: 0 <= i < |s| ==> 'a' <= s[i] <= 'z' || s[i] == '_'
    ensures EscapeText(s) == s
    decreases |s|
  {
    if s != "" {
      NameText(s[1..]);
      assert s == [s[0]] + s[1..];
    }
  }

  function ItemSeparator(compact: bool): string {
    if compact then "," else ", "
  }

  function KeySeparator(compact: bool): string {
    if compact then ":" else ": "
  }

  lemma ItemsOfTwo(whole: Json, a: Json, b: Json, compact: bool)
    requires a < whole && b < whole
    ensures EncodeItems(whole, [a, b], compact) == Encode(a, compact) + ItemSeparator(compact) + (Encode(b, compact) + "]")
  {
    hide Encode;
    assert [a, b][1..] == [b];
    assert EncodeItems(whole, [b], compact) == Encode([b][0], compact) + "]";
  }

  lemma MembersOfTwo(whole: Json, a: string, b: string, compact: bool)
    requires whole.Dict? && a in whole.members && b in whole.members
    ensures EncodeMembers(whole, [a, b], compact) ==
      (EncodeString(a) + KeySeparator(compact) + Encode(whole.members[a], compact)) + ItemSeparator(compact)
      + ((EncodeString(b) + KeySeparator(compact) + Encode(whole.members[b], compact)) + "}")
  {
    hide Encode, EncodeString;
    assert [a, b][1..] == [b];
    assert EncodeMembers(whole, [b], compact)
      == (EncodeString([b][0]) + Colon(compact) + Encode(whole.members[[b][0]], compact)) + "}";
  }

  /** json.dumps separates items and members by a comma and a space, and keys from values by a colon and a space; compact
      text has no spaces. Keys stand in ascending order. */
  lemma TwoItems(a: Json, b: Json, compact: bool)
    ensures Encode(Arr([a, b]), compact) ==
      "[" + (Encode(a, compact) + ItemSeparator(compact) + (Encode(b, compact) + "]"))
  {
    hide EncodeItems;
    var whole := Arr([a, b]);
    assert a == whole.items[0] && b == whole.items[1];
    ItemsOfTwo(whole, a, b, compact);
  }

  lemma TwoMembers(members: map<string, Json>, a: string, b: string, compact: bool)
    requires members.Keys == {a, b} && a != b && LexLe(a, b)
    ensures Encode(Dict(members), compact) == "{"
      + ((EncodeString(a) + KeySeparator(compact) + Encode(members[a], compact)) + ItemSeparator(compact)
         + ((EncodeString(b) + KeySeparator(compact) + Encode(members[b], compact)) + "}"))
  {
    hide EncodeString, SortedKeys, LexLe, EncodeMembers, ItemSeparator, KeySeparator;
    TwoKeys(a, b);
    MembersOfTwo(Dict(members), a, b, compact);
  }

  /** A JSON block holds the arguments and then the tool's name. */
  lemma CallForm(call: ToolCall, compact: bool)
    ensures RenderJsonCall(call, compact) == "<tool_call>" + ("{"
      + (("\"args\"" + KeySeparator(compact) + Encode(Dict(call.args), compact)) + ItemSeparator(compact)
         + (("\"tool\"" + KeySeparator(compact) + ("\"" + ToolName(call.tool) + "\"")) + "}"))) + "</tool_call>"
  {
    hide Encode, ToolName, LexLe, EncodeString, ItemSeparator, KeySeparator;
    var members := CallPayload(call).members;
    assert members.Keys == {"args", "tool"};
    ArgsFirst();
    TwoMembers(members, "args", "tool", compact);
    ToolNameIsPlain(call.tool);
    NameString(ToolName(call.tool));
    NameString("args");
    NameString("tool");
    QuotedKeys();
    EncodeIs(Str(ToolName(call.tool)), compact);
  }

  lemma NameString(s: string)
    requires forall i :: 0 <= i < |s| ==> 'a' <= s[i] <= 'z' || s[i] == '_'
    ensures EncodeString(s) == "\"" + s + "\""
  {
    NameText(s);
  }

  lemma QuotedKeys()
    ensures "\"" + "args" + "\"" == "\"args\"" && "\"" + "tool" + "\"" == "\"tool\""
  {
  }

  lemma EncodeIs(j: Json, compact: bool)
    requires j.Str?
    ensures Encode(j, compact) == EncodeString(j.text)
  {
    hide EncodeString;
  }

  lemma ArgsFirst()
    ensures "args" != "tool" && LexLe("args", "tool")
  {
    assert "args"[0] < "tool"[0];
  }
}
