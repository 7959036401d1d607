/** What the XML-aware JSON parser returns weighs no more than the text it has read. */
module ParsedWeight {
  import opened Text
  import opened JsonCodec
  import opened JsonWeight
  import opened Contracts
  import opened ActionRender
  import opened ActionParse

  // ---------------------------------------------------------------- envelopes

  /** A printed block: its call and the angles of its two tags. */
  ghost function CallWeight(call: ToolCall): nat {
    2 + ValueWeight(CallPayload(call))
  }

  ghost function CallsWeight(calls: seq<ToolCall>): nat {
    if calls == [] then 0 else CallWeight(calls[0]) + CallsWeight(calls[1..])
  }

  ghost function ThinkingWeight(thinking: Option<string>): nat {
    if thinking.Some? then 2 + Weight(thinking.value) else 0
  }

  ghost function EnvelopeWeight(e: Envelope): nat {
    ThinkingWeight(e.thinking) + CallsWeight(e.calls)
  }

  ghost function TurnWeight(turn: Turn): nat {
    ThinkingWeight(turn.thinking) + CallsWeight(turn.calls)
  }

  lemma {:induction false} CallsAppend(calls: seq<ToolCall>, call: ToolCall)
    ensures CallsWeight(calls + [call]) == CallsWeight(calls) + CallWeight(call)
    decreases |calls|
  {
    hide CallWeight;
    var all := calls + [call];
    if calls == [] {
      assert all == [call] && [call][1..] == [];
    } else {
      assert all[0] == calls[0] && all[1..] == calls[1..] + [call];
      CallsAppend(calls[1..], call);
    }
  }

  lemma TagWeights()
    ensures Weight(THINK_START) == 1 && Weight(THINK_END) == 1 && Weight(TOOL_START) == 1 && Weight(TOOL_END) == 1
  {
    hide Weight;
    OneChar('<');
    Weightless("think>");
    WeightConcat("<", "think>");
    assert "<" + "think>" == THINK_START;
    Weightless("/think>");
    WeightConcat("<", "/think>");
    assert "<" + "/think>" == THINK_END;
    Weightless("tool_call>");
    WeightConcat("<", "tool_call>");
    assert "<" + "tool_call>" == TOOL_START;
    Weightless("/tool_call>");
    WeightConcat("<", "/tool_call>");
    assert "<" + "/tool_call>" == TOOL_END;
  }

  // ---------------------------------------------------------------- a decoded object and its call

  /** An accepted tool name weighs at least as much as the canonical one it stands for. */
  lemma NameWeight(name: string)
    requires CanonicalTool(name).Some?
    ensures StringWeight(ToolName(CanonicalTool(name).value)) <= StringWeight(name)
  {
    hide StringWeight;
    var n := Lower(Strip(name));
    NamesWeigh();
    if n == "submit" {
      assert n[1] == "submit"[1] == 'u';
      LoweredWeight(name, 1);
    } else if n == "answer" {
      assert n[3] == "answer"[3] == 'w';
      LoweredWeight(name, 3);
    }
  }

  lemma NamesWeigh()
    ensures forall t: Tool :: StringWeight(ToolName(t)) == if t == Submit then 1 else 0
  {
    forall t: Tool ensures StringWeight(ToolName(t)) == if t == Submit then 1 else 0 {
      if t == Submit {
        UnmarkedName("bmit");
        StringCons('u', "bmit");
        StringCons('s', "ubmit");
        assert "submit" == ['s'] + "ubmit" && "ubmit" == ['u'] + "bmit";
      } else {
        UnmarkedTool(t);
        UnmarkedName(ToolName(t));
      }
    }
  }

  lemma UnmarkedTool(t: Tool)
    requires t != Submit
    ensures forall i :: 0 <= i < |ToolName(t)| ==> EscapeWeight(ToolName(t)[i]) == 0
  {
    match t
    case Bash =>
    case ReadFile =>
    case FileSearch =>
    case TextSearch =>
    case ApplyPatch =>
  }

  lemma {:induction false} UnmarkedName(s: string)
    requires forall i :: 0 <= i < |s| ==> EscapeWeight(s[i]) == 0
    ensures StringWeight(s) == 0
    decreases |s|
  {
    hide EscapeWeight;
    if s != "" {
      assert forall i :: 0 <= i < |s| - 1 ==> s[1..][i] == s[i + 1];
      UnmarkedName(s[1..]);
    }
  }

  /** A `u` or `w` in the lowered and stripped name comes from a character of the name that weighs something. */
  lemma LoweredWeight(name: string, i: nat)
    requires i < |Strip(name)| && Lower(Strip(name))[i] in {'u', 'w'}
    ensures StringWeight(name) >= 1
  {
    hide StringWeight, Strip;
    var j := StripInside(name);
    assert Strip(name)[i] == name[j + i];
    StringWeightAt(name, j + i);
  }

  lemma StripInside(s: string) returns (j: nat)
    ensures j + |Strip(s)| <= |s| && Strip(s) == s[j..j + |Strip(s)|]
  {
    LStripCuts(s);
    RStripCuts(LStrip(s));
    j := |s| - |LStrip(s)|;
    assert Strip(s) == s[j..j + |Strip(s)|];
  }

  lemma StripWeight(s: string)
    ensures Weight(Strip(s)) <= Weight(s)
  {
    hide Strip, Weight;
    var j := StripInside(s);
    WeightSplit(s, j);
    WeightSplit(s[j..], |Strip(s)|);
    assert s[j..][..|Strip(s)|] == Strip(s);
  }

  lemma EntryWeight(j: Json, k: string)
    requires j.Dict? && k in j.members
    ensures Entries(j)[k] == StringWeight(k) + ValueWeight(j.members[k]) && ValueWeight(j) == Total(Entries(j))
  {
    hide StringWeight, Total;
  }

  /** Two members weigh no more than the object. */
  lemma TwoMembers(j: Json, a: string, b: string)
    requires j.Dict? && a in j.members && b in j.members && a != b
    ensures Entries(j)[a] + Entries(j)[b] <= ValueWeight(j)
    ensures j.members.Keys == {a, b} ==> Entries(j)[a] + Entries(j)[b] == ValueWeight(j)
  {
    hide Total, Entries;
    EntryWeight(j, a);
    TotalPick(Entries(j), a);
    TotalPick(Entries(j) - {a}, b);
    NothingTotal(Entries(j) - {a} - {b});
    assert j.members.Keys == {a, b} ==> (Entries(j) - {a} - {b}).Keys == {};
  }

  /** A decoded object weighs at least as much as the call made of it. */
  lemma CallMade(decoded: Json)
    requires MakeToolCall(decoded).Some?
    ensures ValueWeight(CallPayload(MakeToolCall(decoded).value)) <= ValueWeight(decoded)
  {
    hide StringWeight, Entries, ValueWeight, CanonicalTool, ToolName;
    var made := CallPayload(MakeToolCall(decoded).value);
    var name := decoded.members["tool"].text;
    NameWeight(name);
    TextValue(name);
    TextValue(made.members["tool"].text);
    assert made.members["args"] == decoded.members["args"];
    assert "tool"[0] != "args"[0];
    TwoMembers(decoded, "tool", "args");
    TwoMembers(made, "tool", "args");
    EntryWeight(decoded, "tool");
    EntryWeight(decoded, "args");
    EntryWeight(made, "tool");
    EntryWeight(made, "args");
  }

  lemma TextValue(text: string)
    ensures ValueWeight(Str(text)) == StringWeight(text)
  {
  }

  // ---------------------------------------------------------------- one step

  lemma LaterWeight(s: string, i: nat, j: nat)
    requires i <= j <= |s|
    ensures Weight(s[j..]) <= Weight(s[i..])
  {
    WeightSplit(s[i..], j - i);
    assert s[i..][j - i..] == s[j..];
  }

  lemma LiteralWeight(s: string, i: nat, lit: string)
    requires StartsAt(s, i, lit)
    ensures i + |lit| <= |s| && Weight(s[i..]) == Weight(lit) + Weight(s[i + |lit|..])
  {
    hide Weight;
    WeightSplit(s[i..], |lit|);
    assert s[i..][..|lit|] == lit;
    assert s[i..][|lit|..] == s[i + |lit|..];
  }

  /** What a step has added to the turn, it has taken from the text. */
  ghost predicate Paid(s: string, cursor: nat, turn: Turn, r: Step)
    requires cursor <= |s|
  {
    r.Continue? ==> cursor < r.cursor <= |s| && TurnWeight(r.turn) + Weight(s[r.cursor..]) <= TurnWeight(turn) + Weight(s[cursor..])
  }

  predicate Sound(turn: Turn) {
    turn.thinkSeen || turn.thinking.None?
  }

  lemma ThinkBlockPaid(s: string, start: nat, turn: Turn)
    requires StartsAt(s, start, THINK_START) && Sound(turn) && start <= |s|
    ensures Paid(s, start, turn, ThinkBlock(s, start, turn))
  {
    hide StartsAt, Find, CallsWeight, Weight, Strip;
    TagWeights();
    LiteralWeight(s, start, THINK_START);
    var end := Find(THINK_END, s, start + 7);
    if end != -1 {
      LiteralWeight(s, end, THINK_END);
      WeightSplit(s[start + 7..], end - (start + 7));
      assert s[start + 7..][..end - (start + 7)] == s[start + 7..end];
      assert s[start + 7..][end - (start + 7)..] == s[end..];
      StripWeight(s[start + 7..end]);
    }
  }

  lemma ToolBlockPaid(s: string, start: nat, turn: Turn, maxCalls: int)
    requires StartsAt(s, start, TOOL_START) && start <= |s|
    ensures Paid(s, start, turn, ToolBlock(s, start, turn, maxCalls))
  {
    hide StartsAt, SkipSpaces, ReadValue, Weight, MakeToolCall, SubmitAlone, CallsWeight, ValueWeight, ThinkingWeight, CallPayload;
    TagWeights();
    LiteralWeight(s, start, TOOL_START);
    var jsonStart := SkipSpaces(s, start + 11);
    LaterWeight(s, start + 11, jsonStart);
    if ToolBlock(s, start, turn, maxCalls).Continue? {
      ValueRead(s[jsonStart..]);
      var (decoded, rest) := ReadValue(s[jsonStart..]).value;
      var jsonEnd := |s| - |rest|;
      assert rest == s[jsonEnd..];
      var endTag := SkipSpaces(s, jsonEnd);
      LaterWeight(s, jsonEnd, endTag);
      LiteralWeight(s, endTag, TOOL_END);
      CallMade(decoded);
      CallsAppend(turn.calls, MakeToolCall(decoded).value);
    }
  }

  lemma BlockPaid(s: string, cursor: nat, turn: Turn, maxCalls: int)
    requires Sound(turn) && cursor <= |s|
    ensures Paid(s, cursor, turn, JsonBlockStep(s, cursor, turn, maxCalls))
  {
    hide StartsAt, ThinkBlock, ToolBlock, CDataThinkEnd, TurnWeight, Weight;
    var think, tool := Find(THINK_START, s, cursor), Find(TOOL_START, s, cursor);
    if think != -1 && (tool == -1 || think < tool) {
      LaterWeight(s, cursor, think);
      match CDataThinkEnd(s, think)
      case Some(end) => LaterWeight(s, think, end);
      case None => ThinkBlockPaid(s, think, turn);
    } else if tool != -1 {
      LaterWeight(s, cursor, tool);
      ToolBlockPaid(s, tool, turn, maxCalls);
    }
  }

  lemma StepPaid(s: string, cursor: nat, turn: Turn, maxCalls: int)
    requires Sound(turn) && cursor <= |s|
    ensures Paid(s, cursor, turn, DualStep(s, cursor, turn, maxCalls))
  {
    hide JsonBlockStep, XmlThinkRegion, XmlToolRegion, Find, Search, BlankOrXmlThink, TurnWeight, Weight;
    match XmlThinkRegion(s, cursor)
    case Some((_, end)) => LaterWeight(s, cursor, end);
    case None =>
      match XmlToolRegion(s, cursor)
      case Some((_, end)) => LaterWeight(s, cursor, end);
      case None => BlockPaid(s, cursor, turn, maxCalls);
  }

  lemma ToolSound(s: string, start: nat, turn: Turn, maxCalls: int)
    requires StartsAt(s, start, TOOL_START) && Sound(turn) && ToolBlock(s, start, turn, maxCalls).Continue?
    ensures Sound(ToolBlock(s, start, turn, maxCalls).turn)
  {
    hide StartsAt, ReadValue, SkipSpaces, MakeToolCall, SubmitAlone;
  }

  lemma StepSound(s: string, cursor: nat, turn: Turn, maxCalls: int)
    requires Sound(turn) && DualStep(s, cursor, turn, maxCalls).Continue?
    ensures Sound(DualStep(s, cursor, turn, maxCalls).turn)
  {
    hide XmlThinkRegion, XmlToolRegion, Search, BlankOrXmlThink, StartsAt, ToolBlock, CDataThinkEnd;
    var think, tool := Find(THINK_START, s, cursor), Find(TOOL_START, s, cursor);
    if XmlThinkRegion(s, cursor).None? && XmlToolRegion(s, cursor).None? {
      if tool != -1 && !(think != -1 && think < tool) {
        ToolSound(s, tool, turn, maxCalls);
      }
    }
  }

  // ---------------------------------------------------------------- the whole loop

  lemma FinishWeight(turn: Turn)
    ensures Finish(turn).Ok? ==> EnvelopeWeight(Finish(turn).envelope) <= TurnWeight(turn)
  {
    hide CallsWeight, Weight, SubmitAlone;
  }

  /** The parser's result weighs no more than the turn it started with and the text it has read. */
  lemma {:induction false} ParsedIsPaid(s: string, cursor: nat, turn: Turn, maxCalls: int)
    requires Sound(turn) && cursor <= |s|
    ensures var r := DualFrom(s, cursor, turn, maxCalls);
      r.Ok? ==> EnvelopeWeight(r.envelope) <= TurnWeight(turn) + Weight(s[cursor..])
    decreases |s| - cursor
  {
    hide DualStep, Finish, EnvelopeWeight, TurnWeight, Weight, Sound;
    FinishWeight(turn);
    if cursor < |s| {
      match DualStep(s, cursor, turn, maxCalls)
      case Stop =>
      case Fail(_) =>
      case Continue(next, newTurn) =>
        StepPaid(s, cursor, turn, maxCalls);
        StepSound(s, cursor, turn, maxCalls);
        ParsedIsPaid(s, next, newTurn, maxCalls);
    }
  }
}
