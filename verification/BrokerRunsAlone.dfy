/** What one goroutine does when no other moves in between: the moves of the interleaving model, put together
    (internal/agentloop/loop_call.go, loop_run.go). */
module BrokerRunsAlone {
  import opened Broker
  import opened BrokerRuns
  import opened Options

  /** Goroutine `i` makes one move for each choice. */
  function Alone(b: Budget, sys: System, i: nat, choices: seq<Choice>): System
    requires i < |sys.threads|
    ensures |Alone(b, sys, i, choices).threads| == |sys.threads|
    decreases |choices|
  {
    if choices == [] then sys else Alone(b, MoveThread(b, sys, i, choices[0]), i, choices[1..])
  }

  lemma OneByOne(b: Budget, sys: System, i: nat, c: Choice, rest: seq<Choice>)
    requires i < |sys.threads|
    ensures Alone(b, sys, i, [c] + rest) == Alone(b, MoveThread(b, sys, i, c), i, rest)
  {
    assert ([c] + rest)[1..] == rest;
  }

  lemma FinishedStays(b: Budget, sys: System, i: nat, choices: seq<Choice>)
    requires i < |sys.threads| && sys.threads[i] == Finished
    ensures Alone(b, sys, i, choices) == sys
    decreases |choices|
  {
    if choices != [] { FinishedStays(b, sys, i, choices[1..]); }
  }

  /** What a reserved call is logged with: its arguments, its context, the clock and its handler, in that order. */
  function Logged(b: Budget, elapsed: int, call: ToolCall, args: Choice, context: Choice, handler: Choice): Recorded {
    if !args.valid then Recorded(call, None, Some(InvalidArgs))
    else if context.cancelled then Recorded(call, None, Some(Cancelled))
    else if elapsed >= b.maxWallTime then Recorded(call, None, Some(BudgetExceeded))
    else if handler.reply.err.Some? && handler.expired && !handler.cancelled
      then Recorded(call, handler.reply.result, Some(BudgetExceeded))
    else Recorded(call, handler.reply.result, handler.reply.err)
  }

  /** The moves that a reserved call still makes until it is logged. */
  lemma BusyCall(b: Budget, sys: System, i: nat, call: ToolCall, n: nat, args: Choice, context: Choice, handler: Choice, last: Choice)
    requires i < |sys.threads| && sys.threads[i] == CallBusy(Validating(call, n))
    ensures var end := Alone(b, sys, i, [args, context, handler, last]);
      && end.shared == sys.shared.(calls := sys.shared.calls + [Logged(b, sys.elapsed, call, args, context, handler)])
      && end.threads[i] == Finished && end.tickets == sys.tickets + [Some(n)]
  {
    OneByOne(b, sys, i, args, [context, handler, last]);
    assert [args] + [context, handler, last] == [args, context, handler, last];
    var s1 := MoveThread(b, sys, i, args);
    OneByOne(b, s1, i, context, [handler, last]);
    assert [context] + [handler, last] == [context, handler, last];
    var s2 := MoveThread(b, s1, i, context);
    OneByOne(b, s2, i, handler, [last]);
    assert [handler] + [last] == [handler, last];
    var s3 := MoveThread(b, s2, i, handler);
    OneByOne(b, s3, i, last, []);
    assert [last] + [] == [last];
    if s3.threads[i] == Finished { FinishedStays(b, s3, i, [last]); }
    if s2.threads[i] == Finished { FinishedStays(b, s2, i, [handler, last]); }
  }

  /** A whole call: refused by its context, the clock, the ceiling or for an unknown tool, of which only the last leaves an
      entry; else reserved and logged once. */
  lemma LoneCall(b: Budget, sys: System, i: nat, call: ToolCall, first: Choice, args: Choice, context: Choice, handler: Choice,
                 last: Choice)
    requires i < |sys.threads| && sys.threads[i] == CallStart(call)
    ensures var s, end := sys.shared, Alone(b, sys, i, [first] + [args, context, handler, last]);
      && end.threads[i] == Finished
      && end.shared ==
           if first.cancelled || sys.elapsed >= b.maxWallTime || s.toolCalls >= b.maxToolCalls then s
           else if call.name !in s.tools then s.(calls := s.calls + [Recorded(call, None, Some(UnknownTool))])
           else s.(toolCalls := s.toolCalls + 1,
                   calls := s.calls + [Logged(b, sys.elapsed, call, args, context, handler)])
  {
    OneByOne(b, sys, i, first, [args, context, handler, last]);
    var begun := MoveThread(b, sys, i, first);
    if begun.threads[i] == Finished {
      FinishedStays(b, begun, i, [args, context, handler, last]);
    } else {
      BusyCall(b, begun, i, call, |sys.reserved|, args, context, handler, last);
    }
  }

  /** A turn of a run: one reservation if the context, the clock and the ceiling allow it, then one generation if context and
      clock still do; the run goes on exactly with the tool calls of a turn that has any. */
  lemma LoneTurn(b: Budget, sys: System, i: nat, first: Choice, context: Choice, model: Choice, last: Choice)
    requires i < |sys.threads| && sys.threads[i] == RunTurn
    ensures var s, end := sys.shared, Alone(b, sys, i, [first, context, model, last]);
      var open := !first.cancelled && sys.elapsed < b.maxWallTime && s.modelCalls < b.maxModelCalls;
      var asks := open && !context.cancelled;
      && end.shared == s.(modelCalls := s.modelCalls + if open then 1 else 0)
      && end.generates == sys.generates + (if asks then 1 else 0)
      && end.threads[i] == if asks && model.turn.Answer? && model.turn.toolCalls != [] then RunTools(model.turn.toolCalls) else Finished
  {
    OneByOne(b, sys, i, first, [context, model, last]);
    assert [first] + [context, model, last] == [first, context, model, last];
    var s1 := MoveThread(b, sys, i, first);
    OneByOne(b, s1, i, context, [model, last]);
    assert [context] + [model, last] == [context, model, last];
    var s2 := MoveThread(b, s1, i, context);
    OneByOne(b, s2, i, model, [last]);
    assert [model] + [last] == [model, last];
    var s3 := MoveThread(b, s2, i, model);
    OneByOne(b, s3, i, last, []);
    assert [last] + [] == [last];
    if s1.threads[i] == Finished { FinishedStays(b, s1, i, [context, model, last]); }
    if s2.threads[i] == Finished { FinishedStays(b, s2, i, [model, last]); }
    if s3.threads[i] == Finished { FinishedStays(b, s3, i, [last]); }
  }

  predicate Open(b: Budget, sys: System, call: ToolCall, c: Choice) {
    && !c.cancelled && sys.elapsed < b.maxWallTime && sys.shared.toolCalls < b.maxToolCalls && call.name in sys.shared.tools
  }

  /** The tool calls of a turn are made one after the other, as the model's; after the last the next turn comes. */
  lemma LoneTools(b: Budget, sys: System, i: nat, pending: seq<ToolCall>, c: Choice)
    requires i < |sys.threads| && sys.threads[i] == RunTools(pending)
    ensures var s, next := sys.shared, MoveThread(b, sys, i, c);
      if pending == [] then next.threads[i] == RunTurn && next.shared == s
      else if Open(b, sys, pending[0], c) then
        && next.shared == s.(toolCalls := s.toolCalls + 1)
        && next.threads[i] == RunBusy(Validating(pending[0].(source := Model), |sys.reserved|), pending[1..])
      else next.threads[i] == Finished
  {
  }

  /** A run goes on after a call that was logged without an error, and stops at the first one with an error. */
  lemma LoneLogging(b: Budget, sys: System, i: nat, rec: Recorded, n: nat, rest: seq<ToolCall>, c: Choice)
    requires i < |sys.threads| && sys.threads[i] == RunBusy(Recording(rec, n), rest)
    ensures var next := MoveThread(b, sys, i, c);
      && next.shared == sys.shared.(calls := sys.shared.calls + [rec]) && next.tickets == sys.tickets + [Some(n)]
      && next.threads[i] == if rec.err == None then RunTools(rest) else Finished
  {
  }
}
