/** One rollout attempt: its turns, their tool responses and the flat history. */
module TurnHistory {
  import opened Text

  const RESPONSE_START := "<tool_response>"
  const RESPONSE_END := "</tool_response>"

  // ---------------------------------------------------------------- one turn

  /** A parsed call: whether it submits, the validation error it would get, and what executing it answers. Responses
      are their serialized payloads. */
  datatype Call = Call(submit: bool, invalid: Option<string>, response: string)

  /** The parsed assistant turn; an envelope has at least one call and submits alone. */
  datatype Parsed = ParseError(response: string) | Calls(calls: seq<Call>)

  datatype Step = Step(index: int, response: string)

  datatype BridgeResult = BridgeResult(steps: seq<Step>, blocks: seq<string>, terminal: bool)

  function ResponseBlock(response: string): string {
    RESPONSE_START + response + RESPONSE_END
  }

  function Answer(call: Call): string {
    if call.invalid.Some? then call.invalid.value else call.response
  }

  /** The envelope invariants, and the call limit the parser enforces. */
  predicate WellParsed(p: Parsed, maxCalls: nat) {
    p.Calls? ==> 1 <= |p.calls| <= maxCalls && (p.calls[0].submit ==> |p.calls| == 1)
  }

  /** run_env_bridge_step */
  function Bridge(p: Parsed, start: int): BridgeResult
    requires p.Calls? ==> p.calls != []
  {
    match p
    case ParseError(response) => BridgeResult([Step(start, response)], [ResponseBlock(response)], false)
    case Calls(calls) =>
      if calls[0].submit then
        if calls[0].invalid.Some? then
          BridgeResult([Step(start, calls[0].invalid.value)], [ResponseBlock(calls[0].invalid.value)], false)
        else BridgeResult([], [], true)
      else
        BridgeResult(seq(|calls|, i requires 0 <= i < |calls| => Step(start + i, Answer(calls[i]))),
                     seq(|calls|, i requires 0 <= i < |calls| => ResponseBlock(Answer(calls[i]))), false)
  }

  /** run_env_bridge_step: the loop over the calls. */
  method RunEnvBridgeStep(p: Parsed, start: int) returns (r: BridgeResult)
    requires p.Calls? ==> p.calls != []
    ensures r == Bridge(p, start)
  {
    if p.ParseError? {
      return BridgeResult([Step(start, p.response)], [ResponseBlock(p.response)], false);
    }
    if p.calls[0].submit {
      if p.calls[0].invalid.Some? {
        return BridgeResult([Step(start, p.calls[0].invalid.value)], [ResponseBlock(p.calls[0].invalid.value)], false);
      }
      return BridgeResult([], [], true);
    }
    var steps: seq<Step> := [];
    var blocks: seq<string> := [];
    ghost var whole := Bridge(p, start);
    for offset := 0 to |p.calls|
      invariant steps == whole.steps[..offset] && blocks == whole.blocks[..offset]
    {
      var response := Answer(p.calls[offset]);
      steps := steps + [Step(start + offset, response)];
      blocks := blocks + [ResponseBlock(response)];
    }
    return BridgeResult(steps, blocks, false);
  }

  /** One block per step, numbered from the start without gaps; at most the call limit; terminal exactly for an
      accepted submit, which leaves neither steps nor blocks. */
  lemma BridgeExact(p: Parsed, start: int, maxCalls: nat)
    requires WellParsed(p, maxCalls) && maxCalls >= 1
    ensures var r := Bridge(p, start);
      && |r.blocks| == |r.steps| <= maxCalls
      && (forall i :: 0 <= i < |r.steps| ==> r.steps[i].index == start + i && r.blocks[i] == ResponseBlock(r.steps[i].response))
      && (r.terminal <==> p.Calls? && p.calls[0].submit && p.calls[0].invalid.None?)
      && (r.terminal <==> r.steps == [])
  {
  }

  /** What the steps answer: the parse error; for a submit the validation error it got; otherwise one answer per call, in
      their order, its validation error where it has one and else what executing it gave. */
  lemma AnswersExact(p: Parsed, start: int, maxCalls: nat)
    requires WellParsed(p, maxCalls) && maxCalls >= 1
    ensures var steps := Bridge(p, start).steps;
      && (p.ParseError? ==> steps == [Step(start, p.response)])
      && (p.Calls? && p.calls[0].submit && p.calls[0].invalid.Some? ==> steps == [Step(start, p.calls[0].invalid.value)])
      && (p.Calls? && !p.calls[0].submit ==>
            && |steps| == |p.calls|
            && forall i :: 0 <= i < |steps| ==>
                 && (p.calls[i].invalid.Some? ==> steps[i].response == p.calls[i].invalid.value)
                 && (p.calls[i].invalid.None? ==> steps[i].response == p.calls[i].response))
  {
  }

  // ---------------------------------------------------------------- the attempt

  /** What turn k meets: the attempt timeout, a failing generator, a failing bridge, or an answer. */
  datatype Outcome = Timeout | GeneratorFails | BridgeFails(text: string) | Answered(text: string, parsed: Parsed)

  datatype Turn = Turn(text: string, steps: seq<Step>, blocks: seq<string>)

  ghost predicate Sound(outcome: nat -> Outcome, maxCalls: nat) {
    maxCalls >= 1 && forall k :: outcome(k).Answered? ==> WellParsed(outcome(k).parsed, maxCalls)
  }

  /** The turns of an attempt, from turn k on. */
  ghost function Turns(outcome: nat -> Outcome, k: nat, maxTurns: nat, maxCalls: nat): seq<Turn>
    requires Sound(outcome, maxCalls)
    decreases maxTurns - k
  {
    if k >= maxTurns then []
    else
      match outcome(k)
      case Timeout => []
      case GeneratorFails => []
      case BridgeFails(text) => [Turn(text, [], [])]
      case Answered(text, parsed) =>
        var r := Bridge(parsed, k * maxCalls);
        [Turn(text, r.steps, r.blocks)] + (if r.terminal then [] else Turns(outcome, k + 1, maxTurns, maxCalls))
  }

  /** The flat history: each turn followed by its response blocks. */
  function Flat(turns: seq<Turn>): seq<string> {
    if turns == [] then [] else [turns[0].text] + turns[0].blocks + Flat(turns[1..])
  }

  function Texts(turns: seq<Turn>): (r: seq<string>)
    ensures |r| == |turns|
  {
    seq(|turns|, i requires 0 <= i < |turns| => turns[i].text)
  }

  function BlocksOf(turns: seq<Turn>): (r: seq<seq<string>>)
    ensures |r| == |turns|
  {
    seq(|turns|, i requires 0 <= i < |turns| => turns[i].blocks)
  }

  function AllSteps(turns: seq<Turn>): seq<Step> {
    if turns == [] then [] else turns[0].steps + AllSteps(turns[1..])
  }

  lemma {:induction false} FlatMore(turns: seq<Turn>, t: Turn)
    ensures Flat(turns + [t]) == Flat(turns) + ([t.text] + t.blocks)
    ensures AllSteps(turns + [t]) == AllSteps(turns) + t.steps
    decreases |turns|
  {
    if turns == [] {
      assert [t][1..] == [];
      assert turns + [t] == [t];
    } else {
      assert (turns + [t])[1..] == turns[1..] + [t];
      FlatMore(turns[1..], t);
    }
  }

  /** Turn `t` is what the answer at place `k` makes of it, with step numbers from k times the call limit on; a failing
      bridge leaves the bare text. */
  ghost predicate TurnIs(t: Turn, o: Outcome, k: nat, maxCalls: nat)
    requires o.Answered? && o.parsed.Calls? ==> o.parsed.calls != []
  {
    match o
    case Answered(text, parsed) =>
      t.text == text && t.steps == Bridge(parsed, k * maxCalls).steps && t.blocks == Bridge(parsed, k * maxCalls).blocks
    case BridgeFails(text) => t == Turn(text, [], [])
    case _ => false
  }

  /** The answer lets the attempt go on: it is bridged and is not an accepted submit. */
  ghost predicate GoesOn(o: Outcome) {
    o.Answered? && !(o.parsed.Calls? && o.parsed.calls != [] && o.parsed.calls[0].submit && o.parsed.calls[0].invalid.None?)
  }

  lemma OnlySubmitEnds(p: Parsed, start: int, maxCalls: nat)
    requires WellParsed(p, maxCalls) && maxCalls >= 1
    ensures Bridge(p, start).terminal <==> p.Calls? && p.calls[0].submit && p.calls[0].invalid.None?
  {
    BridgeExact(p, start, maxCalls);
  }

  lemma FirstTurn(outcome: nat -> Outcome, k: nat, maxTurns: nat, maxCalls: nat)
    requires Sound(outcome, maxCalls)
    ensures var turns := Turns(outcome, k, maxTurns, maxCalls);
      if k >= maxTurns || outcome(k).Timeout? || outcome(k).GeneratorFails? then turns == []
      else
        && turns != [] && TurnIs(turns[0], outcome(k), k, maxCalls)
        && (GoesOn(outcome(k)) <==> outcome(k).Answered? && !Bridge(outcome(k).parsed, k * maxCalls).terminal)
        && turns[1..] == if GoesOn(outcome(k)) then Turns(outcome, k + 1, maxTurns, maxCalls) else []
  {
    hide Bridge;
    if k < maxTurns && outcome(k).Answered? {
      OnlySubmitEnds(outcome(k).parsed, k * maxCalls, maxCalls);
    }
  }

  /** The turns of an attempt: one per answer in order; every turn but the last lets it go on, and it ends at the turn
      limit, before a timeout or a failing generator, or after a turn that does not let it go on. */
  lemma {:induction false} TurnsExact(outcome: nat -> Outcome, k: nat, maxTurns: nat, maxCalls: nat)
    requires Sound(outcome, maxCalls) && k <= maxTurns
    ensures var turns := Turns(outcome, k, maxTurns, maxCalls);
      && k + |turns| <= maxTurns
      && (forall j :: k <= j < k + |turns| ==> TurnIs(turns[j - k], outcome(j), j, maxCalls))
      && (forall j :: k <= j < k + |turns| - 1 ==> GoesOn(outcome(j)))
      && (k + |turns| == maxTurns || outcome(k + |turns|).Timeout? || outcome(k + |turns|).GeneratorFails?
          || (turns != [] && !GoesOn(outcome(k + |turns| - 1))))
    decreases maxTurns - k
  {
    hide Turns, TurnIs, GoesOn;
    FirstTurn(outcome, k, maxTurns, maxCalls);
    if k < maxTurns && outcome(k).Answered? && GoesOn(outcome(k)) {
      TurnsExact(outcome, k + 1, maxTurns, maxCalls);
      var turns, rest := Turns(outcome, k, maxTurns, maxCalls), Turns(outcome, k + 1, maxTurns, maxCalls);
      assert forall i :: 0 < i < |turns| ==> turns[i] == rest[i - 1];
    }
  }

  /** What turn k adds, and whether the attempt goes on. */
  function TurnOf(o: Outcome, k: nat, maxCalls: nat): (seq<Turn>, bool)
    requires o.Answered? && o.parsed.Calls? ==> o.parsed.calls != []
  {
    match o
    case Timeout => ([], false)
    case GeneratorFails => ([], false)
    case BridgeFails(text) => ([Turn(text, [], [])], false)
    case Answered(text, parsed) =>
      var r := Bridge(parsed, k * maxCalls);
      ([Turn(text, r.steps, r.blocks)], !r.terminal)
  }

  lemma TurnsGoOn(done: seq<Turn>, outcome: nat -> Outcome, k: nat, maxTurns: nat, maxCalls: nat)
    requires Sound(outcome, maxCalls) && k < maxTurns
    ensures var (t, more) := TurnOf(outcome(k), k, maxCalls);
      done + Turns(outcome, k, maxTurns, maxCalls) ==
        if more then (done + t) + Turns(outcome, k + 1, maxTurns, maxCalls) else done + t
  {
    hide Bridge;
    var (t, more) := TurnOf(outcome(k), k, maxCalls);
    var rest := Turns(outcome, k + 1, maxTurns, maxCalls);
    assert done + (t + rest) == (done + t) + rest;
    assert t + [] == t;
  }

  /** _collect_attempt: the history, the assistant turns and the trajectory steps the loop builds. */
  method CollectAttempt(outcome: nat -> Outcome, maxTurns: nat, maxCalls: nat)
    returns (history: seq<string>, assistantTurns: seq<string>, steps: seq<Step>)
    requires Sound(outcome, maxCalls)
    ensures history == Flat(Turns(outcome, 0, maxTurns, maxCalls))
    ensures assistantTurns == Texts(Turns(outcome, 0, maxTurns, maxCalls))
    ensures steps == AllSteps(Turns(outcome, 0, maxTurns, maxCalls))
  {
    hide Turns, Bridge, Flat, AllSteps;
    history, assistantTurns, steps := [], [], [];
    ghost var done: seq<Turn> := [];
    ghost var all := Turns(outcome, 0, maxTurns, maxCalls);
    NoTurns(outcome, maxTurns, maxCalls);
    var turnIndex := 0;
    while turnIndex < maxTurns
      invariant 0 <= turnIndex <= maxTurns
      invariant history == Flat(done) && assistantTurns == Texts(done) && steps == AllSteps(done)
      invariant all == done + Turns(outcome, turnIndex, maxTurns, maxCalls)
    {
      var o := outcome(turnIndex);
      TurnsGoOn(done, outcome, turnIndex, maxTurns, maxCalls);
      if o.Timeout? || o.GeneratorFails? {
        assert done + [] == done;
        return;
      }
      if o.BridgeFails? {
        FlatMore(done, Turn(o.text, [], []));
        assert [o.text] + [] == [o.text] && AllSteps(done) + [] == AllSteps(done);
        assistantTurns := assistantTurns + [o.text];
        history := history + [o.text];
        return;
      }
      var r := RunEnvBridgeStep(o.parsed, turnIndex * maxCalls);
      FlatMore(done, Turn(o.text, r.steps, r.blocks));
      assistantTurns := assistantTurns + [o.text];
      assert history + ([o.text] + r.blocks) == (history + [o.text]) + r.blocks;
      history := history + [o.text];
      history := history + r.blocks;
      steps := steps + r.steps;
      done := done + [Turn(o.text, r.steps, r.blocks)];
      if r.terminal {
        return;
      }
      turnIndex := turnIndex + 1;
    }
    assert done + [] == done;
  }

  lemma NoTurns(outcome: nat -> Outcome, maxTurns: nat, maxCalls: nat)
    requires Sound(outcome, maxCalls)
    ensures Turns(outcome, maxTurns, maxTurns, maxCalls) == [] && Flat([]) == [] && AllSteps([]) == []
    ensures [] + Turns(outcome, 0, maxTurns, maxCalls) == Turns(outcome, 0, maxTurns, maxCalls)
  {
  }
}
