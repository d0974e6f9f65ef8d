/** The bounded tool-call broker: what each section under the lock does to the shared counters and the log
    (internal/agentloop/loop.go, loop_call.go, loop_run.go, budget.go). */
module Broker {
  import opened Options

  datatype Budget = Budget(maxToolCalls: int, maxModelCalls: int, maxWallTime: int)

  const DEFAULT_WALL := 300_000_000_000

  const DEFAULTS := Budget(50, 20, DEFAULT_WALL)

  function Limit(given: int, default: int): int {
    if given <= 0 then default else given
  }

  /** Zero and negative limits take the defaults; wall time in nanoseconds. */
  function ApplyDefaults(b: Budget): (r: Budget)
    ensures Positive(r) && (Positive(b) ==> r == b)
    ensures b.maxToolCalls <= 0 ==> r.maxToolCalls == 50
    ensures b.maxModelCalls <= 0 ==> r.maxModelCalls == 20
    ensures b.maxWallTime <= 0 ==> r.maxWallTime == 5 * 60 * 1_000_000_000
    ensures r.maxToolCalls >= b.maxToolCalls && r.maxModelCalls >= b.maxModelCalls && r.maxWallTime >= b.maxWallTime
  {
    Budget(Limit(b.maxToolCalls, DEFAULTS.maxToolCalls), Limit(b.maxModelCalls, DEFAULTS.maxModelCalls),
           Limit(b.maxWallTime, DEFAULTS.maxWallTime))
  }

  predicate Positive(b: Budget) {
    b.maxToolCalls > 0 && b.maxModelCalls > 0 && b.maxWallTime > 0
  }

  datatype Source = Handler | Model

  datatype Failure = BudgetExceeded | UnknownTool | InvalidArgs | Cancelled | Failed(message: string)

  datatype ToolCall = ToolCall(source: Source, name: string, args: string)

  /** One registry invocation: the result is absent unless a handler gave one. */
  datatype Recorded = Recorded(call: ToolCall, result: Option<string>, err: Option<Failure>)

  /** The fields the lock protects. */
  datatype Shared = Shared(tools: set<string>, toolCalls: int, modelCalls: int, calls: seq<Recorded>)

  datatype Begun = Refused(err: Failure) | Reserved

  predicate WallSpent(b: Budget, elapsed: int) {
    elapsed >= b.maxWallTime
  }

  /** The first section of Call: wall time, then the ceiling, then the lookup; an unknown tool is logged but
      takes no slot. */
  function BeginOutcome(b: Budget, s: Shared, elapsed: int, call: ToolCall): Begun {
    if WallSpent(b, elapsed) then Refused(BudgetExceeded)
    else if s.toolCalls >= b.maxToolCalls then Refused(BudgetExceeded)
    else if call.name !in s.tools then Refused(UnknownTool)
    else Reserved
  }

  function BeginState(b: Budget, s: Shared, elapsed: int, call: ToolCall): Shared {
    match BeginOutcome(b, s, elapsed, call)
    case Reserved => s.(toolCalls := s.toolCalls + 1)
    case Refused(UnknownTool) => s.(calls := s.calls + [Recorded(call, None, Some(UnknownTool))])
    case Refused(_) => s
  }

  function RecordState(s: Shared, rec: Recorded): Shared {
    s.(calls := s.calls + [rec])
  }

  function ReserveOutcome(b: Budget, s: Shared, elapsed: int): bool {
    !WallSpent(b, elapsed) && s.modelCalls < b.maxModelCalls
  }

  function ReserveState(b: Budget, s: Shared, elapsed: int): Shared {
    if ReserveOutcome(b, s, elapsed) then s.(modelCalls := s.modelCalls + 1) else s
  }

  /** What a handler gives back for a call. */
  datatype Reply = Reply(result: Option<string>, err: Option<Failure>)

  /** What the model gives back for a prompt: tool calls to make, or final text when there are none. */
  datatype Turn = Answer(text: string, toolCalls: seq<ToolCall>) | TurnFailed(err: Failure)

  /** An error that comes back after the operation's own context is over is put down to the wall time, unless the
      caller's context is over too. */
  function MapWallError(callerDone: bool, operationDone: bool, err: Option<Failure>): Option<Failure> {
    if err.None? || callerDone || !operationDone then err else Some(BudgetExceeded)
  }

  /** A prompt and the turn the model gave for it. */
  datatype Exchange = Exchange(prompt: seq<Option<string>>, turn: Turn)

  /** Everything a goroutine learns from outside: the clock, its context, the schema check, handlers and
      the model. Any answer is possible at any time; the ghost fields keep what was asked and answered. */
  class World {
    ghost var callerOver: bool
    ghost var operationOver: bool
    ghost var handled: seq<(ToolCall, Reply)>
    ghost var exchanges: seq<Exchange>

    constructor ()
      ensures handled == [] && exchanges == []
    {
      handled, exchanges := [], [];
    }

    method Elapsed() returns (nanoseconds: int) { nanoseconds := *; }

    /** Whether the caller's context is over. */
    method ContextDone() returns (done: bool)
      modifies this`callerOver
      ensures done == callerOver
    {
      done := *;
      callerOver := done;
    }

    /** Whether the context of the operation at hand is over. */
    method OperationDone() returns (done: bool)
      modifies this`operationOver
      ensures done == operationOver
    {
      done := *;
      operationOver := done;
    }

    method ArgsValid(call: ToolCall) returns (valid: bool) { valid := *; }

    method Handle(call: ToolCall) returns (reply: Reply)
      modifies this`handled
      ensures handled == old(handled) + [(call, reply)]
    {
      reply := *;
      handled := handled + [(call, reply)];
    }

    method Generate(prompt: seq<Option<string>>) returns (turn: Turn)
      modifies this`exchanges
      ensures exchanges == old(exchanges) + [Exchange(prompt, turn)]
    {
      turn := *;
      exchanges := exchanges + [Exchange(prompt, turn)];
    }
  }

  /** What a model's calls look like to the handlers when all of them succeed with the given results. */
  function Pairs(pending: seq<ToolCall>, results: seq<Option<string>>): (pairs: seq<(ToolCall, Reply)>)
    requires |results| == |pending|
    ensures |pairs| == |pending|
    ensures forall i | 0 <= i < |pairs| :: pairs[i] == (pending[i].(source := Model), Reply(results[i], None))
  {
    seq(|pending|, i requires 0 <= i < |pending| => (pending[i].(source := Model), Reply(results[i], None)))
  }

  /** Every exchange but the last asked for tool calls, and its calls' results are the next prompt; `next` is the prompt
      after the last. */
  ghost predicate Chained(prompt: seq<Option<string>>, exchanges: seq<Exchange>, next: seq<Option<string>>) {
    if exchanges == [] then next == prompt
    else
      var n := |exchanges| - 1;
      var turn := exchanges[n].turn;
      && Chained(prompt, exchanges[..n], exchanges[n].prompt)
      && turn.Answer? && turn.toolCalls != [] && |next| == |turn.toolCalls|
  }

  /** What the handlers were asked and answered over a chain. */
  ghost function HandledOver(prompt: seq<Option<string>>, exchanges: seq<Exchange>, next: seq<Option<string>>): seq<(ToolCall, Reply)>
    requires Chained(prompt, exchanges, next)
  {
    if exchanges == [] then []
    else
      var n := |exchanges| - 1;
      HandledOver(prompt, exchanges[..n], exchanges[n].prompt) + Pairs(exchanges[n].turn.toolCalls, next)
  }

  class Loop {
    const budget: Budget
    var tools: set<string>
    var toolCalls: int
    var modelCalls: int
    var calls: seq<Recorded>

    ghost function View(): Shared
      reads this
    {
      Shared(tools, toolCalls, modelCalls, calls)
    }

    constructor (budget: Budget, coreTools: set<string>)
      ensures this.budget == ApplyDefaults(budget) && View() == Shared(coreTools, 0, 0, [])
    {
      this.budget := ApplyDefaults(budget);
      tools, toolCalls, modelCalls, calls := coreTools, 0, 0, [];
    }

    method Begin(elapsed: int, call: ToolCall) returns (r: Begun)
      modifies this
      ensures r == Reserved <==> elapsed < budget.maxWallTime && old(toolCalls) < budget.maxToolCalls && call.name in old(tools)
      ensures r == Refused(UnknownTool) <==>
                elapsed < budget.maxWallTime && old(toolCalls) < budget.maxToolCalls && call.name !in old(tools)
      ensures r == Refused(BudgetExceeded) <==> elapsed >= budget.maxWallTime || old(toolCalls) >= budget.maxToolCalls
      ensures r == BeginOutcome(budget, old(View()), elapsed, call)
      ensures View() == BeginState(budget, old(View()), elapsed, call)
    {
      if elapsed >= budget.maxWallTime { return Refused(BudgetExceeded); }
      if toolCalls >= budget.maxToolCalls { return Refused(BudgetExceeded); }
      if call.name !in tools {
        calls := calls + [Recorded(call, None, Some(UnknownTool))];
        return Refused(UnknownTool);
      }
      toolCalls := toolCalls + 1;
      return Reserved;
    }

    method Record(call: ToolCall, result: Option<string>, err: Option<Failure>)
      modifies this
      ensures View() == RecordState(old(View()), Recorded(call, result, err))
    {
      calls := calls + [Recorded(call, result, err)];
    }

    method ReserveModelCall(elapsed: int) returns (ok: bool)
      modifies this
      ensures ok <==> elapsed < budget.maxWallTime && old(modelCalls) < budget.maxModelCalls
      ensures ok == ReserveOutcome(budget, old(View()), elapsed)
      ensures View() == ReserveState(budget, old(View()), elapsed)
    {
      if elapsed >= budget.maxWallTime { return false; }
      if modelCalls >= budget.maxModelCalls { return false; }
      modelCalls := modelCalls + 1;
      return true;
    }

    ghost predicate WithinBudget()
      reads this
    {
      0 <= toolCalls <= budget.maxToolCalls && 0 <= modelCalls <= budget.maxModelCalls
    }

    /** Between `s` and now every reserved call was logged, and nothing logged before was touched. */
    ghost predicate LoggedSince(s: Shared)
      reads this
    {
      && s.toolCalls <= toolCalls && s.modelCalls <= modelCalls
      && toolCalls - s.toolCalls <= |calls| - |s.calls| && s.calls <= calls
    }

    /** The reply as the caller sees it: a failure counts as a spent budget when the operation's context is over and the
        caller's is not. */
    ghost predicate Passed(world: World, reply: Reply, result: Option<string>, err: Option<Failure>)
      reads world
    {
      && result == reply.result
      && err == if reply.err.Some? && world.operationOver && !world.callerOver then Some(BudgetExceeded) else reply.err
    }

    /** One call with nobody else at the broker. */
    method Call(world: World, call: ToolCall) returns (result: Option<string>, err: Option<Failure>)
      requires WithinBudget()
      modifies this, world
      ensures WithinBudget() && LoggedSince(old(View())) && modelCalls == old(modelCalls) && world.exchanges == old(world.exchanges)
      ensures old(toolCalls) <= toolCalls <= old(toolCalls) + 1
      ensures toolCalls == old(toolCalls) + 1 ==> calls == old(calls) + [Recorded(call, result, err)]
      ensures toolCalls == old(toolCalls) ==> result == None && err.Some?
      ensures toolCalls == old(toolCalls) ==>
                calls == old(calls) + if err == Some(UnknownTool) then [Recorded(call, None, err)] else []
      ensures toolCalls == old(toolCalls) ==> if err == Some(UnknownTool) then call.name !in tools
                                              else err in {Some(Cancelled), Some(BudgetExceeded)}
      ensures world.handled == old(world.handled) ==>
                result == None && (toolCalls > old(toolCalls) ==> err in {Some(InvalidArgs), Some(Cancelled), Some(BudgetExceeded)})
      ensures world.handled != old(world.handled) ==>
                && toolCalls == old(toolCalls) + 1 && |world.handled| == |old(world.handled)| + 1
                && var reply := world.handled[|old(world.handled)|].1;
                   world.handled == old(world.handled) + [(call, reply)] && Passed(world, reply, result, err)
    {
      var done := world.ContextDone();
      if done { return None, Some(Cancelled); }
      var elapsed := world.Elapsed();
      var begun := Begin(elapsed, call);
      if begun.Refused? { return None, Some(begun.err); }
      var valid := world.ArgsValid(call);
      if !valid {
        Record(call, None, Some(InvalidArgs));
        return None, Some(InvalidArgs);
      }
      done := world.ContextDone();
      elapsed := world.Elapsed();
      if done || elapsed >= budget.maxWallTime {
        err := Some(if done then Cancelled else BudgetExceeded);
        Record(call, None, err);
        return None, err;
      }
      var reply := world.Handle(call);
      result, err := reply.result, reply.err;
      if err.Some? {
        done := world.ContextDone();
        var operationDone := world.OperationDone();
        err := MapWallError(done, operationDone, err);
      }
      Record(call, result, err);
    }

    /** Reserves a model call, generates one turn and checks the wall time again. */
    method NextTurn(world: World, prompt: seq<Option<string>>) returns (turn: Turn, generated: nat)
      requires WithinBudget()
      modifies this, world
      ensures WithinBudget() && toolCalls == old(toolCalls) && calls == old(calls) && world.handled == old(world.handled)
      ensures generated <= modelCalls - old(modelCalls) <= 1
      ensures turn.Answer? ==> modelCalls == old(modelCalls) + 1 && generated == 1
      ensures turn.Answer? ==> world.exchanges == old(world.exchanges) + [Exchange(prompt, turn)]
      ensures generated == 0 ==> world.exchanges == old(world.exchanges) && turn in {TurnFailed(Cancelled), TurnFailed(BudgetExceeded)}
      ensures generated == 1 ==>
                && |world.exchanges| == |old(world.exchanges)| + 1
                && var given := world.exchanges[|old(world.exchanges)|].turn;
                   && world.exchanges == old(world.exchanges) + [Exchange(prompt, given)]
                   && (given.Answer? ==> turn in {given, TurnFailed(BudgetExceeded)})
                   && (given.TurnFailed? ==>
                         turn == if world.operationOver && !world.callerOver then TurnFailed(BudgetExceeded) else given)
    {
      generated := 0;
      var done := world.ContextDone();
      if done { return TurnFailed(Cancelled), 0; }
      var elapsed := world.Elapsed();
      var ok := ReserveModelCall(elapsed);
      if !ok { return TurnFailed(BudgetExceeded), 0; }
      done := world.ContextDone();
      elapsed := world.Elapsed();
      if done || elapsed >= budget.maxWallTime { return TurnFailed(if done then Cancelled else BudgetExceeded), 0; }
      turn := world.Generate(prompt);
      generated := 1;
      if turn.TurnFailed? {
        done := world.ContextDone();
        var operationDone := world.OperationDone();
        turn := TurnFailed(MapWallError(done, operationDone, Some(turn.err)).value);
      }
      elapsed := world.Elapsed();
      if turn.Answer? && elapsed >= budget.maxWallTime { turn := TurnFailed(BudgetExceeded); }
    }

    /** The log entries of a model's calls that all succeeded. */
    static ghost function Succeeded(pending: seq<ToolCall>, results: seq<Option<string>>): (log: seq<Recorded>)
      requires |results| == |pending|
      ensures |log| == |pending|
      ensures forall i | 0 <= i < |log| :: log[i] == Recorded(pending[i].(source := Model), results[i], None)
    {
      seq(|pending|, i requires 0 <= i < |pending| => Recorded(pending[i].(source := Model), results[i], None))
    }

    method RunModelToolCalls(world: World, pending: seq<ToolCall>) returns (prompt: seq<Option<string>>, err: Option<Failure>)
      requires WithinBudget()
      modifies this, world
      ensures WithinBudget() && LoggedSince(old(View())) && modelCalls == old(modelCalls) && world.exchanges == old(world.exchanges)
      ensures old(world.handled) <= world.handled
      ensures err.None? ==> |prompt| == |pending| && world.handled == old(world.handled) + Pairs(pending, prompt)
      ensures err.None? ==> |prompt| == |pending| && toolCalls == old(toolCalls) + |pending|
      ensures err.None? ==> calls == old(calls) + Succeeded(pending, prompt)
      ensures err.Some? ==> prompt == []
    {
      prompt := [];
      for i := 0 to |pending|
        invariant WithinBudget() && LoggedSince(old(View())) && modelCalls == old(modelCalls)
        invariant world.exchanges == old(world.exchanges)
        invariant |prompt| == i && world.handled == old(world.handled) + Pairs(pending[..i], prompt)
        invariant |prompt| == i && toolCalls == old(toolCalls) + i
        invariant calls == old(calls) + Succeeded(pending[..i], prompt)
      {
        var result, failed := Call(world, pending[i].(source := Model));
        if failed.Some? { return [], failed; }
        prompt := prompt + [result];
      }
      assert pending[..|pending|] == pending;
      return prompt, None;
    }

    /** Turns until one has no tool calls; `last` is the last turn and `asked` are the exchanges before it. The model-call
        budget is what makes the loop end; Generate is called at most once per model call reserved. Each prompt after the
        first holds the results of the calls the turn before asked for, as the handlers gave them. */
    method Run(world: World, prompt: seq<Option<string>>)
      returns (text: Option<string>, err: Option<Failure>, generates: nat, ghost last: Turn, ghost asked: seq<Exchange>,
               ghost lastPrompt: seq<Option<string>>)
      requires WithinBudget()
      modifies this, world
      ensures WithinBudget() && LoggedSince(old(View()))
      ensures generates <= modelCalls - old(modelCalls) <= budget.maxModelCalls - old(modelCalls)
      ensures text.Some? <==> err.None?
      ensures err.None? ==> last == Answer(text.value, [])
      ensures last.TurnFailed? ==> err == Some(last.err)
      ensures err.Some? && last.Answer? ==> last.toolCalls != []
      ensures Chained(prompt, asked, lastPrompt)
      ensures old(world.handled) + HandledOver(prompt, asked, lastPrompt) <= world.handled
      ensures last.Answer? ==> world.exchanges == old(world.exchanges) + asked + [Exchange(lastPrompt, last)]
      ensures text.Some? ==> world.handled == old(world.handled) + HandledOver(prompt, asked, lastPrompt)
    {
      var nextPrompt := prompt;
      generates, asked, lastPrompt := 0, [], prompt;
      while true
        invariant WithinBudget() && LoggedSince(old(View())) && generates <= modelCalls - old(modelCalls)
        invariant lastPrompt == nextPrompt
        invariant Conversed(prompt, asked, nextPrompt, old(world.exchanges), world.exchanges, old(world.handled), world.handled)
        decreases budget.maxModelCalls - modelCalls
      {
        ghost var exchanges, handled := world.exchanges, world.handled;
        var turn, generated := NextTurn(world, nextPrompt);
        generates, last := generates + generated, turn;
        if turn.TurnFailed? { return None, Some(turn.err), generates, last, asked, lastPrompt; }
        if |turn.toolCalls| == 0 { return Some(turn.text), None, generates, last, asked, lastPrompt; }
        var results, failed := RunModelToolCalls(world, turn.toolCalls);
        if failed.Some? { return None, failed, generates, last, asked, lastPrompt; }
        ConversationGrows(prompt, asked, nextPrompt, turn, results, old(world.exchanges), exchanges, old(world.handled), handled);
        asked, nextPrompt, lastPrompt := asked + [Exchange(nextPrompt, turn)], results, results;
      }
    }
  }

  /** The prompts and turns since `exchanges` are a chain, and the handlers were asked and answered as it says. */
  ghost predicate Conversed(prompt: seq<Option<string>>, asked: seq<Exchange>, next: seq<Option<string>>,
                            exchanges: seq<Exchange>, exchanges': seq<Exchange>,
                            handled: seq<(ToolCall, Reply)>, handled': seq<(ToolCall, Reply)>) {
    Chained(prompt, asked, next) && exchanges' == exchanges + asked && handled' == handled + HandledOver(prompt, asked, next)
  }

  lemma ConversationGrows(prompt: seq<Option<string>>, asked: seq<Exchange>, next: seq<Option<string>>, turn: Turn,
                          results: seq<Option<string>>, exchanges: seq<Exchange>, exchanges': seq<Exchange>,
                          handled: seq<(ToolCall, Reply)>, handled': seq<(ToolCall, Reply)>)
    requires Conversed(prompt, asked, next, exchanges, exchanges', handled, handled')
    requires turn.Answer? && turn.toolCalls != [] && |results| == |turn.toolCalls|
    ensures Conversed(prompt, asked + [Exchange(next, turn)], results, exchanges, exchanges' + [Exchange(next, turn)],
                      handled, handled' + Pairs(turn.toolCalls, results))
  {
    assert (asked + [Exchange(next, turn)])[..|asked|] == asked;
  }
}
