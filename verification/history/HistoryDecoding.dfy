/** Taking the flat history apart gives the turns and their responses back. */
module HistoryDecoding {
  import opened Text
  import opened Arithmetic
  import opened TurnHistory

  // ---------------------------------------------------------------- telling responses from turns

  /** _is_tool_response_block */
  predicate IsToolResponse(value: string) {
    var text := Strip(value);
    StartsAt(text, 0, RESPONSE_START) && |text| >= |RESPONSE_END| && text[|text| - |RESPONSE_END|..] == RESPONSE_END
  }

  lemma BlockIsResponse(response: string)
    ensures IsToolResponse(ResponseBlock(response))
  {
    hide Strip;
    var b := ResponseBlock(response);
    assert b[0] == RESPONSE_START[0] && b[|b| - 1] == RESPONSE_END[15];
    StripProperties(b);
  }

  /** derive_assistant_turns_from_history */
  function DecodeTurns(history: seq<string>): seq<string> {
    if history == [] then []
    else (if IsToolResponse(history[0]) || AllSpace(history[0]) then [] else [history[0]]) + DecodeTurns(history[1..])
  }

  method DeriveAssistantTurns(history: seq<string>) returns (turns: seq<string>)
    ensures turns == DecodeTurns(history)
  {
    hide IsToolResponse, AllSpace;
    turns := [];
    assert history[0..] == history;
    for i := 0 to |history|
      invariant turns + DecodeTurns(history[i..]) == DecodeTurns(history)
    {
      assert history[i..][1..] == history[i + 1..];
      ghost var rest := DecodeTurns(history[i + 1..]);
      if !IsToolResponse(history[i]) && !AllSpace(history[i]) {
        assert turns + ([history[i]] + rest) == (turns + [history[i]]) + rest;
        turns := turns + [history[i]];
      } else {
        assert [] + rest == rest;
      }
    }
    assert turns + [] == turns;
  }

  /** The loop of derive_turn_tool_response_blocks, from turn `turnIndex` with the blocks so far. */
  function BlocksFrom(history: seq<string>, turnIndex: int, blocks: seq<seq<string>>): seq<seq<string>>
    requires turnIndex >= -1
  {
    if history == [] then blocks
    else if IsToolResponse(history[0]) then
      BlocksFrom(history[1..], turnIndex,
        if 0 <= turnIndex < |blocks| then blocks[turnIndex := blocks[turnIndex] + [history[0]]] else blocks)
    else if turnIndex + 1 >= |blocks| then blocks
    else BlocksFrom(history[1..], turnIndex + 1, blocks)
  }

  function NoBlocks(n: nat): (r: seq<seq<string>>)
    ensures |r| == n && forall i :: 0 <= i < n ==> r[i] == []
  {
    seq(n, i requires 0 <= i < n => [])
  }

  function DecodeBlocks(history: seq<string>, assistantTurns: seq<string>): seq<seq<string>> {
    if history == [] || assistantTurns == [] then NoBlocks(|assistantTurns|)
    else BlocksFrom(history, -1, NoBlocks(|assistantTurns|))
  }

  /** derive_turn_tool_response_blocks */
  method DeriveTurnToolResponseBlocks(history: seq<string>, assistantTurns: seq<string>) returns (blocks: seq<seq<string>>)
    ensures blocks == DecodeBlocks(history, assistantTurns)
  {
    hide IsToolResponse;
    blocks := NoBlocks(|assistantTurns|);
    if history == [] || assistantTurns == [] {
      return;
    }
    var turnIndex := -1;
    assert history[0..] == history;
    for i := 0 to |history|
      invariant turnIndex >= -1
      invariant BlocksFrom(history[i..], turnIndex, blocks) == BlocksFrom(history, -1, NoBlocks(|assistantTurns|))
    {
      assert history[i..][1..] == history[i + 1..];
      if IsToolResponse(history[i]) {
        if 0 <= turnIndex < |blocks| {
          blocks := blocks[turnIndex := blocks[turnIndex] + [history[i]]];
        }
      } else {
        if turnIndex + 1 >= |blocks| {
          return;
        }
        turnIndex := turnIndex + 1;
      }
    }
  }

  // ---------------------------------------------------------------- turns come back

  /** Every response of the turns is one. */
  ghost predicate Responses(turns: seq<Turn>) {
    forall i, j :: 0 <= i < |turns| && 0 <= j < |turns[i].blocks| ==> IsToolResponse(turns[i].blocks[j])
  }

  predicate Recoverable(text: string) {
    !IsToolResponse(text) && !AllSpace(text)
  }

  function Kept(texts: seq<string>): seq<string> {
    if texts == [] then [] else (if Recoverable(texts[0]) then [texts[0]] else []) + Kept(texts[1..])
  }

  lemma {:induction false} ResponsesDrop(blocks: seq<string>, rest: seq<string>)
    requires forall j :: 0 <= j < |blocks| ==> IsToolResponse(blocks[j])
    ensures DecodeTurns(blocks + rest) == DecodeTurns(rest)
    decreases |blocks|
  {
    hide IsToolResponse, AllSpace;
    if blocks == [] {
      assert blocks + rest == rest;
    } else {
      assert (blocks + rest)[1..] == blocks[1..] + rest;
      ResponsesDrop(blocks[1..], rest);
      assert [] + DecodeTurns(blocks[1..] + rest) == DecodeTurns(blocks[1..] + rest);
    }
  }

  lemma FlatCons(turns: seq<Turn>)
    requires turns != []
    ensures Flat(turns) == [turns[0].text] + (turns[0].blocks + Flat(turns[1..]))
  {
  }

  lemma DecodeHead(text: string, rest: seq<string>)
    ensures DecodeTurns([text] + rest) == (if Recoverable(text) then [text] else []) + DecodeTurns(rest)
  {
    hide IsToolResponse, AllSpace;
    assert ([text] + rest)[1..] == rest;
  }

  lemma TextsCons(turns: seq<Turn>)
    requires turns != []
    ensures Kept(Texts(turns)) == (if Recoverable(turns[0].text) then [turns[0].text] else []) + Kept(Texts(turns[1..]))
  {
    hide Recoverable;
    assert Texts(turns)[1..] == Texts(turns[1..]);
  }

  lemma RestResponds(turns: seq<Turn>)
    requires Responses(turns) && turns != []
    ensures Responses(turns[1..]) && forall j :: 0 <= j < |turns[0].blocks| ==> IsToolResponse(turns[0].blocks[j])
  {
    hide IsToolResponse;
    assert forall i :: 0 <= i < |turns| - 1 ==> turns[1..][i] == turns[i + 1];
  }

  lemma {:induction false} TurnsFiltered(turns: seq<Turn>)
    requires Responses(turns)
    ensures DecodeTurns(Flat(turns)) == Kept(Texts(turns))
    decreases |turns|
  {
    hide Recoverable, IsToolResponse, AllSpace;
    if turns != [] {
      hide Flat, DecodeTurns, Kept, Texts, Responses;
      FlatCons(turns);
      DecodeHead(turns[0].text, turns[0].blocks + Flat(turns[1..]));
      RestResponds(turns);
      ResponsesDrop(turns[0].blocks, Flat(turns[1..]));
      TurnsFiltered(turns[1..]);
      TextsCons(turns);
    }
  }

  lemma {:induction false} KeptIsAll(texts: seq<string>)
    ensures |Kept(texts)| <= |texts|
    ensures Kept(texts) == texts <==> forall i :: 0 <= i < |texts| ==> Recoverable(texts[i])
    decreases |texts|
  {
    hide Recoverable;
    if texts != [] {
      KeptIsAll(texts[1..]);
      assert texts == [texts[0]] + texts[1..];
      if Kept(texts) == texts {
        assert |Kept(texts)| == |texts|;
        assert Kept(texts)[1..] == texts[1..];
      }
      assert forall i :: 1 <= i < |texts| ==> texts[i] == texts[1..][i - 1];
    }
  }

  /** The assistant turns are recovered from the flat history exactly when none is blank or shaped like a tool
      response. */
  lemma TurnsRecovered(turns: seq<Turn>)
    requires Responses(turns)
    ensures DecodeTurns(Flat(turns)) == Texts(turns) <==> forall i :: 0 <= i < |turns| ==> Recoverable(turns[i].text)
  {
    hide Recoverable, Responses;
    TurnsFiltered(turns);
    KeptIsAll(Texts(turns));
    assert forall i :: 0 <= i < |turns| ==> Texts(turns)[i] == turns[i].text;
  }

  // ---------------------------------------------------------------- responses come back

  lemma {:induction false} ResponsesAppend(blocks: seq<string>, rest: seq<string>, turnIndex: nat, acc: seq<seq<string>>)
    requires forall j :: 0 <= j < |blocks| ==> IsToolResponse(blocks[j])
    requires turnIndex < |acc|
    ensures BlocksFrom(blocks + rest, turnIndex, acc) == BlocksFrom(rest, turnIndex, acc[turnIndex := acc[turnIndex] + blocks])
    decreases |blocks|
  {
    hide IsToolResponse;
    if blocks == [] {
      assert blocks + rest == rest && acc[turnIndex] + blocks == acc[turnIndex];
      assert acc[turnIndex := acc[turnIndex]] == acc;
    } else {
      assert (blocks + rest)[1..] == blocks[1..] + rest;
      var next := acc[turnIndex := acc[turnIndex] + [blocks[0]]];
      ResponsesAppend(blocks[1..], rest, turnIndex, next);
      assert acc[turnIndex] + [blocks[0]] + blocks[1..] == acc[turnIndex] + blocks;
      assert next[turnIndex := acc[turnIndex] + blocks] == acc[turnIndex := acc[turnIndex] + blocks];
    }
  }

  lemma BlocksHead(text: string, rest: seq<string>, turnIndex: nat, acc: seq<seq<string>>)
    requires !IsToolResponse(text) && turnIndex < |acc|
    ensures BlocksFrom([text] + rest, turnIndex - 1, acc) == BlocksFrom(rest, turnIndex, acc)
  {
    hide IsToolResponse;
    assert ([text] + rest)[1..] == rest;
  }

  lemma OneMoreBuilt(done: seq<Turn>, t: Turn, left: nat)
    ensures var acc := BlocksOf(done) + NoBlocks(left + 1);
      acc[|done| := acc[|done|] + t.blocks] == BlocksOf(done + [t]) + NoBlocks(left)
  {
    var acc := BlocksOf(done) + NoBlocks(left + 1);
    assert acc[|done|] == [] && [] + t.blocks == t.blocks;
    assert acc[|done| := t.blocks] == BlocksOf(done + [t]) + NoBlocks(left);
  }

  /** Turns that are not shaped like responses fill their own slots, whatever the history goes on with. */
  lemma {:induction false} BlocksReached(done: seq<Turn>, more: seq<Turn>, tail: seq<string>, left: nat)
    requires Responses(more) && forall i :: 0 <= i < |more| ==> !IsToolResponse(more[i].text)
    ensures BlocksFrom(Flat(more) + tail, |done| - 1, BlocksOf(done) + NoBlocks(|more| + left))
      == BlocksFrom(tail, |done| + |more| - 1, BlocksOf(done + more) + NoBlocks(left))
    decreases |more|
  {
    hide IsToolResponse;
    if more == [] {
      assert done + more == done && Flat(more) + tail == tail;
    } else {
      hide Flat, BlocksFrom, Responses, BlocksOf, NoBlocks;
      var t, rest, k := more[0], more[1..], |done|;
      var acc := BlocksOf(done) + NoBlocks(|more| + left);
      FlatCons(more);
      assert Flat(more) + tail == [t.text] + (t.blocks + (Flat(rest) + tail));
      BlocksHead(t.text, t.blocks + (Flat(rest) + tail), k, acc);
      RestResponds(more);
      ResponsesAppend(t.blocks, Flat(rest) + tail, k, acc);
      OneMoreBuilt(done, t, |rest| + left);
      assert forall i :: 0 <= i < |rest| ==> rest[i] == more[i + 1];
      BlocksReached(done + [t], rest, tail, left);
      assert (done + [t]) + rest == done + more;
    }
  }

  lemma NoneLeft(turnIndex: int, acc: seq<seq<string>>)
    requires turnIndex >= -1
    ensures BlocksFrom(Flat([]), turnIndex, acc) == acc && BlocksFrom([], turnIndex, acc) == acc
  {
  }

  lemma FromStart(more: seq<Turn>, tail: seq<string>, left: nat)
    requires Responses(more) && forall i :: 0 <= i < |more| ==> !IsToolResponse(more[i].text)
    ensures BlocksFrom(Flat(more) + tail, -1, NoBlocks(|more| + left))
      == BlocksFrom(tail, |more| - 1, BlocksOf(more) + NoBlocks(left))
  {
    hide *;
    var none: seq<Turn> := [];
    BlocksReached(none, more, tail, left);
    SlotsAtFirst(|more| + left);
    assert none + more == more;
  }

  /** Each turn's response blocks are recovered from the flat history, in order, when no turn is shaped like a tool
      response. */
  lemma BlocksKept(turns: seq<Turn>)
    requires Responses(turns) && forall i :: 0 <= i < |turns| ==> !IsToolResponse(turns[i].text)
    ensures DecodeBlocks(Flat(turns), Texts(turns)) == BlocksOf(turns)
  {
    hide *;
    if |turns| == 0 {
      NoTurnsDecode(turns);
    } else {
      HistoryNotEmpty(turns);
      AllSlots(turns);
    }
  }

  lemma AllSlots(turns: seq<Turn>)
    requires Responses(turns) && forall i :: 0 <= i < |turns| ==> !IsToolResponse(turns[i].text)
    ensures BlocksFrom(Flat(turns), -1, NoBlocks(|turns|)) == BlocksOf(turns)
  {
    hide *;
    var nothing: seq<string> := [];
    FromStart(turns, nothing, 0);
    NothingAfter(Flat(turns), nothing, |turns| - 1, BlocksOf(turns), NoBlocks(0));
  }

  lemma NothingAfter(history: seq<string>, nothing: seq<string>, k: int, slots: seq<seq<string>>, none: seq<seq<string>>)
    requires |nothing| == 0 && |none| == 0 && k >= -1
    ensures history + nothing == history && BlocksFrom(nothing, k, slots + none) == slots
  {
    assert slots + none == slots;
  }

  lemma NoTurnsDecode(turns: seq<Turn>)
    requires |turns| == 0
    ensures DecodeBlocks(Flat(turns), Texts(turns)) == BlocksOf(turns)
  {
  }

  lemma HistoryNotEmpty(turns: seq<Turn>)
    requires turns != []
    ensures DecodeBlocks(Flat(turns), Texts(turns)) == BlocksFrom(Flat(turns), -1, NoBlocks(|turns|))
  {
    hide BlocksFrom, NoBlocks;
    FlatCons(turns);
  }

  lemma SlotsAtFirst(n: nat)
    ensures BlocksOf([]) + NoBlocks(n) == NoBlocks(n)
  {
  }

  // ---------------------------------------------------------------- a turn taken for a response

  /** Only the last turn of an attempt may be without responses. */
  ghost predicate Answering(turns: seq<Turn>) {
    forall i :: 0 <= i < |turns| - 1 ==> turns[i].blocks != []
  }

  /** Slots only grow. */
  lemma {:induction false} SlotsGrow(history: seq<string>, turnIndex: int, acc: seq<seq<string>>, j: nat)
    requires turnIndex >= -1 && j < |acc|
    ensures |BlocksFrom(history, turnIndex, acc)| == |acc| && acc[j] <= BlocksFrom(history, turnIndex, acc)[j]
    decreases |history|
  {
    hide IsToolResponse;
    if history != [] {
      if IsToolResponse(history[0]) {
        var next := if 0 <= turnIndex < |acc| then acc[turnIndex := acc[turnIndex] + [history[0]]] else acc;
        SlotsGrow(history[1..], turnIndex, next, j);
      } else if turnIndex + 1 < |acc| {
        SlotsGrow(history[1..], turnIndex + 1, acc, j);
      }
    }
  }

  /** Responses before the first turn belong to no turn. */
  lemma {:induction false} EarlyDropped(blocks: seq<string>, rest: seq<string>, acc: seq<seq<string>>)
    requires forall j :: 0 <= j < |blocks| ==> IsToolResponse(blocks[j])
    ensures BlocksFrom(blocks + rest, -1, acc) == BlocksFrom(rest, -1, acc)
    decreases |blocks|
  {
    hide IsToolResponse;
    if blocks == [] {
      assert blocks + rest == rest;
    } else {
      assert (blocks + rest)[1..] == blocks[1..] + rest;
      EarlyDropped(blocks[1..], rest, acc);
    }
  }

  /** Responses go to the current turn's slot and to no other. */
  lemma ResponsesStay(blocks: seq<string>, rest: seq<string>, turnIndex: int, acc: seq<seq<string>>)
      returns (next: seq<seq<string>>)
    requires (forall j :: 0 <= j < |blocks| ==> IsToolResponse(blocks[j])) && -1 <= turnIndex < |acc|
    ensures BlocksFrom(blocks + rest, turnIndex, acc) == BlocksFrom(rest, turnIndex, next)
    ensures |next| == |acc| && forall j :: 0 <= j < |acc| && (j != turnIndex || blocks == []) ==> next[j] == acc[j]
  {
    hide IsToolResponse, BlocksFrom;
    if turnIndex == -1 {
      EarlyDropped(blocks, rest, acc);
      next := acc;
    } else {
      ResponsesAppend(blocks, rest, turnIndex, acc);
      next := acc[turnIndex := acc[turnIndex] + blocks];
      assert acc[turnIndex] + [] == acc[turnIndex];
    }
  }

  lemma TurnStep(text: string, rest: seq<string>, turnIndex: int, acc: seq<seq<string>>)
    requires turnIndex >= -1
    ensures !IsToolResponse(text) ==>
      BlocksFrom([text] + rest, turnIndex, acc) == if turnIndex + 1 >= |acc| then acc else BlocksFrom(rest, turnIndex + 1, acc)
  {
    hide IsToolResponse;
    assert ([text] + rest)[1..] == rest;
  }

  /** The last turns reach no slot beyond their number, and without responses of the last one not even that. */
  lemma {:induction false} Unreached(more: seq<Turn>, turnIndex: int, acc: seq<seq<string>>, j: nat)
    requires Responses(more) && -1 <= turnIndex < |acc| && j < |acc|
    requires j > turnIndex + |more| || (more != [] && more[|more| - 1].blocks == [] && j == turnIndex + |more|)
    ensures |BlocksFrom(Flat(more), turnIndex, acc)| == |acc| && BlocksFrom(Flat(more), turnIndex, acc)[j] == acc[j]
    decreases |more|
  {
    hide IsToolResponse, BlocksFrom, Flat, Responses;
    if more == [] {
      NoneLeft(turnIndex, acc);
    } else {
      var t, rest := more[0], more[1..];
      FlatCons(more);
      RestResponds(more);
      assert rest != [] ==> rest[|rest| - 1] == more[|more| - 1];
      if IsToolResponse(t.text) {
        assert [t.text] + (t.blocks + Flat(rest)) == ([t.text] + t.blocks) + Flat(rest);
        var next := ResponsesStay([t.text] + t.blocks, Flat(rest), turnIndex, acc);
        Unreached(rest, turnIndex, next, j);
      } else {
        TurnStep(t.text, t.blocks + Flat(rest), turnIndex, acc);
        if turnIndex + 1 < |acc| {
          var next := ResponsesStay(t.blocks, Flat(rest), turnIndex + 1, acc);
          if rest == [] {
            NoneLeft(turnIndex + 1, next);
          } else {
            Unreached(rest, turnIndex + 1, next, j);
          }
        }
      }
    }
  }

  /** A response-shaped turn after another turn is taken for one more of that turn's responses. */
  lemma ShapedLater(turns: seq<Turn>, i: nat)
    requires Responses(turns) && 0 < i < |turns| && IsToolResponse(turns[i].text)
    requires forall k :: 0 <= k < i ==> !IsToolResponse(turns[k].text)
    ensures DecodeBlocks(Flat(turns), Texts(turns)) != BlocksOf(turns)
  {
    hide *;
    var before, after, left := turns[..i], turns[i..], |turns| - i;
    var text := turns[i].text;
    assert turns == before + after;
    FlatTwo(before, after);
    FlatCons(after);
    RespondsTwo(turns, i);
    var tail, acc := after[0].blocks + Flat(after[1..]), BlocksOf(before) + NoBlocks(left);
    FromStart(before, [text] + tail, left);
    ResponsesAppend([text], tail, i - 1, acc);
    var next := acc[i - 1 := acc[i - 1] + [text]];
    SlotsGrow(tail, i - 1, next, i - 1);
    BlocksAre(turns, before, i - 1, left);
    NextSlot(acc, i - 1, text);
    OneResponse(text, tail);
    HistoryNotEmpty(turns);
  }

  lemma NextSlot(acc: seq<seq<string>>, k: nat, text: string)
    requires k < |acc|
    ensures |acc[k := acc[k] + [text]][k]| == |acc[k]| + 1
  {
  }

  lemma OneResponse(text: string, tail: seq<string>)
    ensures [text] + tail != [] && [text][0] == text
  {
  }

  lemma BlocksAre(turns: seq<Turn>, before: seq<Turn>, k: nat, left: nat)
    requires k < |before| <= |turns| && before == turns[..|before|]
    ensures (BlocksOf(before) + NoBlocks(left))[k] == turns[k].blocks == BlocksOf(turns)[k]
  {
  }

  lemma {:induction false} FlatTwo(a: seq<Turn>, b: seq<Turn>)
    ensures Flat(a + b) == Flat(a) + Flat(b)
    decreases |a|
  {
    if a == [] {
      assert a + b == b;
    } else {
      assert (a + b)[0] == a[0] && (a + b)[1..] == a[1..] + b;
      FlatTwo(a[1..], b);
    }
  }

  lemma RespondsTwo(turns: seq<Turn>, i: nat)
    requires Responses(turns) && i <= |turns|
    ensures Responses(turns[..i]) && Responses(turns[i..])
  {
    hide IsToolResponse;
  }

  /** A response-shaped first turn belongs to no turn, so every later turn's responses come too early. */
  lemma ShapedFirst(turns: seq<Turn>)
    requires Responses(turns) && Answering(turns) && turns != [] && IsToolResponse(turns[0].text)
    ensures DecodeBlocks(Flat(turns), Texts(turns)) == BlocksOf(turns) <==> |turns| == 1 && turns[0].blocks == []
  {
    hide IsToolResponse, BlocksFrom, Responses;
    var t, rest, n := turns[0], turns[1..], |turns|;
    FlatCons(turns);
    RestResponds(turns);
    assert [t.text] + (t.blocks + Flat(rest)) == ([t.text] + t.blocks) + Flat(rest);
    EarlyDropped([t.text] + t.blocks, Flat(rest), NoBlocks(n));
    var r := BlocksFrom(Flat(rest), -1, NoBlocks(n));
    Unreached(rest, -1, NoBlocks(n), n - 1);
    assert BlocksOf(turns)[n - 1] == turns[n - 1].blocks && r[n - 1] == [];
    if n > 1 && turns[n - 1].blocks == [] {
      assert rest[|rest| - 1] == turns[n - 1];
      Unreached(rest, -1, NoBlocks(n), n - 2);
      assert BlocksOf(turns)[n - 2] == turns[n - 2].blocks != r[n - 2];
    }
  }

  /** Each turn's response blocks are recovered exactly when no turn is shaped like a tool response, or there is one
      turn only and it has no responses. */
  lemma BlocksRecovered(turns: seq<Turn>)
    requires Responses(turns) && Answering(turns)
    ensures DecodeBlocks(Flat(turns), Texts(turns)) == BlocksOf(turns) <==>
      (forall i :: 0 <= i < |turns| ==> !IsToolResponse(turns[i].text)) || (|turns| == 1 && turns[0].blocks == [])
  {
    hide IsToolResponse, DecodeBlocks, Responses, Answering;
    if forall i :: 0 <= i < |turns| ==> !IsToolResponse(turns[i].text) {
      BlocksKept(turns);
    } else {
      var i := FirstShaped(turns, 0);
      if i == 0 {
        ShapedFirst(turns);
      } else {
        ShapedLater(turns, i);
      }
    }
  }

  lemma FirstShaped(turns: seq<Turn>, from: nat) returns (i: nat)
    requires exists k :: from <= k < |turns| && IsToolResponse(turns[k].text)
    requires forall k :: 0 <= k < from ==> !IsToolResponse(turns[k].text)
    ensures i < |turns| && IsToolResponse(turns[i].text) && forall k :: 0 <= k < i ==> !IsToolResponse(turns[k].text)
    decreases |turns| - from
  {
    hide IsToolResponse;
    if IsToolResponse(turns[from].text) {
      i := from;
    } else {
      i := FirstShaped(turns, from + 1);
    }
  }

  // ---------------------------------------------------------------- what the collector builds

  /** Every turn of an attempt has one response block per step, each a tool response. */
  lemma {:induction false} AttemptTurns(outcome: nat -> Outcome, k: nat, maxTurns: nat, maxCalls: nat)
    requires Sound(outcome, maxCalls)
    ensures var turns := Turns(outcome, k, maxTurns, maxCalls);
      Responses(turns) && Answering(turns) && forall i :: 0 <= i < |turns| ==> |turns[i].blocks| == |turns[i].steps|
    decreases maxTurns - k
  {
    hide IsToolResponse, Bridge;
    if k < maxTurns && outcome(k).Answered? {
      var r := Bridge(outcome(k).parsed, k * maxCalls);
      BridgeExact(outcome(k).parsed, k * maxCalls, maxCalls);
      forall i | 0 <= i < |r.blocks| ensures IsToolResponse(r.blocks[i]) {
        BlockIsResponse(r.steps[i].response);
      }
      AttemptTurns(outcome, k + 1, maxTurns, maxCalls);
    }
  }

  /** What the collector writes decodes to what it did exactly when no turn is blank or shaped like a tool response;
      the blocks alone, for turns that are known otherwise, exactly when BlocksRecovered says. */
  lemma AttemptDecodes(outcome: nat -> Outcome, maxTurns: nat, maxCalls: nat)
    requires Sound(outcome, maxCalls)
    ensures var turns := Turns(outcome, 0, maxTurns, maxCalls);
      && (DecodeTurns(Flat(turns)) == Texts(turns) && DecodeBlocks(Flat(turns), DecodeTurns(Flat(turns))) == BlocksOf(turns) <==>
            forall i :: 0 <= i < |turns| ==> Recoverable(turns[i].text))
      && (DecodeBlocks(Flat(turns), Texts(turns)) == BlocksOf(turns) <==>
            (forall i :: 0 <= i < |turns| ==> !IsToolResponse(turns[i].text)) || (|turns| == 1 && turns[0].blocks == []))
  {
    hide IsToolResponse, AllSpace, Turns, DecodeTurns, DecodeBlocks;
    var turns := Turns(outcome, 0, maxTurns, maxCalls);
    AttemptTurns(outcome, 0, maxTurns, maxCalls);
    TurnsRecovered(turns);
    BlocksRecovered(turns);
  }

  predicate StrictlyIncreasing(steps: seq<Step>) {
    forall i, j :: 0 <= i < j < |steps| ==> steps[i].index < steps[j].index
  }

  /** Step indices strictly increase over a whole trajectory: turn k numbers its steps below turn k + 1's. */
  lemma {:induction false} IndicesIncrease(outcome: nat -> Outcome, k: nat, maxTurns: nat, maxCalls: nat)
    requires Sound(outcome, maxCalls)
    ensures var steps := AllSteps(Turns(outcome, k, maxTurns, maxCalls));
      StrictlyIncreasing(steps) && forall i :: 0 <= i < |steps| ==> steps[i].index >= k * maxCalls
    decreases maxTurns - k
  {
    hide Bridge;
    if k < maxTurns && outcome(k).Answered? {
      var r := Bridge(outcome(k).parsed, k * maxCalls);
      BridgeExact(outcome(k).parsed, k * maxCalls, maxCalls);
      IndicesIncrease(outcome, k + 1, maxTurns, maxCalls);
      Distribute(k, 1, maxCalls);
      var rest := AllSteps(if r.terminal then [] else Turns(outcome, k + 1, maxTurns, maxCalls));
      var turns := Turns(outcome, k, maxTurns, maxCalls);
      assert turns[1..] == if r.terminal then [] else Turns(outcome, k + 1, maxTurns, maxCalls);
      JoinIncreasing(r.steps, rest, k * maxCalls, (k + 1) * maxCalls);
    }
  }

  lemma JoinIncreasing(a: seq<Step>, b: seq<Step>, low: int, high: int)
    requires (forall i :: 0 <= i < |a| ==> a[i].index == low + i) && low + |a| <= high
    requires StrictlyIncreasing(b) && forall i :: 0 <= i < |b| ==> b[i].index >= high
    ensures StrictlyIncreasing(a + b) && forall i :: 0 <= i < |a + b| ==> (a + b)[i].index >= low
  {
  }

  // ---------------------------------------------------------------- cutting the trajectory at a turn

  /** The number of blocks before turn `end`. */
  function PrefixCount(blocks: seq<seq<string>>, end: nat): nat
    requires end <= |blocks|
  {
    if end == 0 then 0 else PrefixCount(blocks, end - 1) + |blocks[end - 1]|
  }

  /** _resolve_patch_prefix_step_count */
  function PrefixSteps(blocks: seq<seq<string>>, current: int, included: bool): Option<nat> {
    if current < 0 || current >= |blocks| then None
    else Some(PrefixCount(blocks, if included then current + 1 else current))
  }

  lemma {:induction false} StepsSplit(turns: seq<Turn>, end: nat)
    requires end <= |turns|
    ensures AllSteps(turns) == AllSteps(turns[..end]) + AllSteps(turns[end..])
    decreases end
  {
    if end == 0 {
      assert turns[..0] == [] && turns[0..] == turns;
    } else {
      StepsSplit(turns[1..], end - 1);
      assert turns[..end][1..] == turns[1..][..end - 1] && turns[1..][end - 1..] == turns[end..];
    }
  }

  lemma {:induction false} CountIsLength(turns: seq<Turn>, end: nat)
    requires end <= |turns| && forall i :: 0 <= i < |turns| ==> |turns[i].blocks| == |turns[i].steps|
    ensures PrefixCount(BlocksOf(turns), end) == |AllSteps(turns[..end])|
    decreases end
  {
    if end == 0 {
      assert turns[..0] == [];
    } else {
      CountIsLength(turns, end - 1);
      FlatMore(turns[..end - 1], turns[end - 1]);
      assert turns[..end] == turns[..end - 1] + [turns[end - 1]];
    }
  }

  /** The prefix count cuts the trajectory's steps exactly at the requested turn. */
  lemma PrefixCutsAtTurn(outcome: nat -> Outcome, maxTurns: nat, maxCalls: nat, current: int, included: bool)
    requires Sound(outcome, maxCalls)
    ensures var turns := Turns(outcome, 0, maxTurns, maxCalls);
      var count := PrefixSteps(BlocksOf(turns), current, included);
      && (count.Some? <==> 0 <= current < |turns|)
      && (count.Some? ==>
            var end := if included then current + 1 else current;
            count.value <= |AllSteps(turns)| && AllSteps(turns)[..count.value] == AllSteps(turns[..end]))
  {
    hide Turns, Responses;
    var turns := Turns(outcome, 0, maxTurns, maxCalls);
    AttemptTurns(outcome, 0, maxTurns, maxCalls);
    if 0 <= current < |turns| {
      var end := if included then current + 1 else current;
      StepsSplit(turns, end);
      CountIsLength(turns, end);
    }
  }

  // ---------------------------------------------------------------- row numbers

  /** A row's step index: step, then task, then attempt. */
  function RowIndex(step: nat, position: nat, attempt: nat, batch: nat, attempts: nat): nat {
    step * batch * attempts + position * attempts + attempt
  }

  /** No two rows of any steps share an index. */
  lemma RowIndexUnique(step: nat, position: nat, attempt: nat, step2: nat, position2: nat, attempt2: nat, batch: nat, attempts: nat)
    requires position < batch && position2 < batch && attempt < attempts && attempt2 < attempts
    requires RowIndex(step, position, attempt, batch, attempts) == RowIndex(step2, position2, attempt2, batch, attempts)
    ensures step == step2 && position == position2 && attempt == attempt2
  {
    var n := RowIndex(step, position, attempt, batch, attempts);
    var task, task2 := step * batch + position, step2 * batch + position2;
    Distribute(step * batch, position, attempts);
    Distribute(step2 * batch, position2, attempts);
    DivModUnique(n, attempts, task, attempt);
    DivModUnique(n, attempts, task2, attempt2);
    DivModUnique(task, batch, step, position);
    DivModUnique(task2, batch, step2, position2);
  }
}
