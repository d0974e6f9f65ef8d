/** Every interleaving of concurrent Call and Run goroutines over one broker. A goroutine moves from one
    release of the lock to the next; between its moves any other may move, tools may be registered and time
    may pass. */
module BrokerRuns {
  import opened Options
  import opened Broker

  /** Where one Call stands. `ticket` numbers its reservation. */
  datatype CallPc =
    | Validating(call: ToolCall, ticket: nat)
    | Admitting(call: ToolCall, ticket: nat)
    | Handling(call: ToolCall, ticket: nat)
    | Recording(rec: Recorded, ticket: nat)

  /** Where one goroutine stands: a handler-driven Call, or a Run at one of its steps. */
  datatype Thread =
    | CallStart(call: ToolCall)
    | CallBusy(pc: CallPc)
    | RunTurn
    | RunContext
    | RunGenerate
    | RunCheck(toolCalls: seq<ToolCall>)
    | RunTools(pending: seq<ToolCall>)
    | RunBusy(pc: CallPc, rest: seq<ToolCall>)
    | Finished

  /** The broker, its goroutines and the history: which call each reservation was for, which log entries
      answer which reservation (none for an unknown tool), and how often Generate was called. */
  datatype System = System(shared: Shared, elapsed: int, threads: seq<Thread>, reserved: seq<ToolCall>,
                           tickets: seq<Option<nat>>, generates: nat)

  /** What the environment decides for one move: whether the context and the operation's own context are done, whether
      the arguments match the schema, what the handler and the model return. */
  datatype Choice = Choice(cancelled: bool, expired: bool, valid: bool, reply: Reply, turn: Turn)

  datatype Event = Tick(nanoseconds: nat) | Register(name: string) | Move(thread: nat, choice: Choice)

  // ----- moves -----

  function InCall(t: Thread): Option<CallPc> {
    match t
    case CallBusy(pc) => Some(pc)
    case RunBusy(pc, _) => Some(pc)
    case _ => None
  }

  /** Starts `call` for a goroutine: on success it continues as `busy`, else it is finished. */
  function Begin(b: Budget, sys: System, i: nat, call: ToolCall, busy: CallPc -> Thread): System
    requires i < |sys.threads|
  {
    var s' := BeginState(b, sys.shared, sys.elapsed, call);
    match BeginOutcome(b, sys.shared, sys.elapsed, call)
    case Reserved =>
      sys.(shared := s', reserved := sys.reserved + [call],
           threads := sys.threads[i := busy(Validating(call, |sys.reserved|))])
    case Refused(err) =>
      sys.(shared := s', threads := sys.threads[i := Finished],
           tickets := sys.tickets + if err == UnknownTool then [None] else [])
  }

  /** One local step of a call that holds a reservation; only `Recording` touches the shared state. */
  function Advance(b: Budget, elapsed: int, pc: CallPc, c: Choice): CallPc
    requires !pc.Recording?
  {
    match pc
    case Validating(call, n) =>
      if c.valid then Admitting(call, n) else Recording(Recorded(call, None, Some(InvalidArgs)), n)
    case Admitting(call, n) =>
      if c.cancelled then Recording(Recorded(call, None, Some(Cancelled)), n)
      else if WallSpent(b, elapsed) then Recording(Recorded(call, None, Some(BudgetExceeded)), n)
      else Handling(call, n)
    case Handling(call, n) =>
      Recording(Recorded(call, c.reply.result, MapWallError(c.cancelled, c.expired, c.reply.err)), n)
  }

  function Log(sys: System, rec: Recorded, ticket: nat): System {
    sys.(shared := RecordState(sys.shared, rec), tickets := sys.tickets + [Some(ticket)])
  }

  /** Where a goroutine goes when its call has been logged. A Run stops at the first failed call. */
  function AfterCall(t: Thread, rec: Recorded): Thread {
    if t.RunBusy? && rec.err.None? then RunTools(t.rest) else Finished
  }

  function MoveThread(b: Budget, sys: System, i: nat, c: Choice): System
    requires i < |sys.threads|
  {
    var t := sys.threads[i];
    match t
    case CallStart(call) =>
      if c.cancelled then sys.(threads := sys.threads[i := Finished])
      else Begin(b, sys, i, call, pc => CallBusy(pc))
    case CallBusy(pc) =>
      if pc.Recording? then Log(sys, pc.rec, pc.ticket).(threads := sys.threads[i := AfterCall(t, pc.rec)])
      else sys.(threads := sys.threads[i := CallBusy(Advance(b, sys.elapsed, pc, c))])
    case RunTurn =>
      if c.cancelled || !ReserveOutcome(b, sys.shared, sys.elapsed) then sys.(threads := sys.threads[i := Finished])
      else sys.(shared := ReserveState(b, sys.shared, sys.elapsed), threads := sys.threads[i := RunContext])
    case RunContext =>
      sys.(threads := sys.threads[i := if c.cancelled || WallSpent(b, sys.elapsed) then Finished else RunGenerate])
    case RunGenerate =>
      sys.(generates := sys.generates + 1,
           threads := sys.threads[i := match c.turn case Answer(_, calls) => RunCheck(calls) case TurnFailed(_) => Finished])
    case RunCheck(calls) =>
      sys.(threads := sys.threads[i := if WallSpent(b, sys.elapsed) || calls == [] then Finished else RunTools(calls)])
    case RunTools(pending) =>
      if pending == [] then sys.(threads := sys.threads[i := RunTurn])
      else if c.cancelled then sys.(threads := sys.threads[i := Finished])
      else Begin(b, sys, i, pending[0].(source := Model), pc => RunBusy(pc, pending[1..]))
    case RunBusy(pc, rest) =>
      if pc.Recording? then Log(sys, pc.rec, pc.ticket).(threads := sys.threads[i := AfterCall(t, pc.rec)])
      else sys.(threads := sys.threads[i := RunBusy(Advance(b, sys.elapsed, pc, c), rest)])
    case Finished => sys
  }

  function Step(b: Budget, sys: System, e: Event): System {
    match e
    case Tick(d) => sys.(elapsed := sys.elapsed + d)
    case Register(name) => sys.(shared := sys.shared.(tools := sys.shared.tools + {name}))
    case Move(i, c) => if i < |sys.threads| then MoveThread(b, sys, i, c) else sys
  }

  /** A whole run: any goroutines, any schedule, any environment. */
  function Exec(b: Budget, sys: System, events: seq<Event>): System
    decreases |events|
  {
    if events == [] then sys else Exec(b, Step(b, sys, events[0]), events[1..])
  }

  predicate Fresh(t: Thread) {
    t.CallStart? || t.RunTurn?
  }

  ghost predicate Initial(sys: System) {
    && sys.shared.toolCalls == 0 && sys.shared.modelCalls == 0 && sys.shared.calls == []
    && sys.reserved == [] && sys.tickets == [] && sys.generates == 0
    && forall i | 0 <= i < |sys.threads| :: Fresh(sys.threads[i])
  }

  // ----- the invariant -----

  /** Goroutine `i` holds reservation `n`. */
  predicate Holds(threads: seq<Thread>, i: nat, n: nat) {
    i < |threads| && InCall(threads[i]).Some? && InCall(threads[i]).value.ticket == n
  }

  function CallOf(pc: CallPc): ToolCall {
    if pc.Recording? then pc.rec.call else pc.call
  }

  /** Log entry `k` answers reservation `n`. */
  predicate Answers(tickets: seq<Option<nat>>, k: nat, n: nat) {
    k < |tickets| && tickets[k] == Some(n)
  }

  ghost predicate IsHeld(threads: seq<Thread>, n: nat) {
    exists i: nat :: Holds(threads, i, n)
  }

  ghost predicate IsAnswered(tickets: seq<Option<nat>>, n: nat) {
    exists k: nat :: Answers(tickets, k, n)
  }

  /** A held reservation is for the call it was made for, and no two goroutines hold the same one. */
  ghost predicate HeldRight(threads: seq<Thread>, reserved: seq<ToolCall>) {
    && (forall i: nat, n: nat | Holds(threads, i, n) :: n < |reserved| && CallOf(InCall(threads[i]).value) == reserved[n])
    && (forall i: nat, j: nat, n: nat | Holds(threads, i, n) && Holds(threads, j, n) :: i == j)
  }

  /** The entry a call of an unknown tool leaves. */
  predicate IsUnknown(rec: Recorded) {
    rec.result == None && rec.err == Some(UnknownTool)
  }

  /** So is an answered one, no two log entries answer the same one, and an entry that answers none is the refusal of
      an unknown tool. */
  ghost predicate LoggedRight(tickets: seq<Option<nat>>, calls: seq<Recorded>, reserved: seq<ToolCall>) {
    && |tickets| == |calls|
    && (forall k | 0 <= k < |tickets| && tickets[k].None? :: IsUnknown(calls[k]))
    && (forall k: nat, n: nat | Answers(tickets, k, n) :: n < |reserved| && calls[k].call == reserved[n])
    && (forall k: nat, l: nat, n: nat | Answers(tickets, k, n) && Answers(tickets, l, n) :: k == l)
  }

  /** Every reservation is held or answered, never both. */
  ghost predicate Settled(threads: seq<Thread>, tickets: seq<Option<nat>>, count: nat) {
    && (forall n: nat | n < count :: IsHeld(threads, n) || IsAnswered(tickets, n))
    && (forall i: nat, k: nat, n: nat :: !(Holds(threads, i, n) && Answers(tickets, k, n)))
  }

  ghost predicate Accounted(threads: seq<Thread>, tickets: seq<Option<nat>>, calls: seq<Recorded>, reserved: seq<ToolCall>) {
    HeldRight(threads, reserved) && LoggedRight(tickets, calls, reserved) && Settled(threads, tickets, |reserved|)
  }

  // ----- sums over the goroutines -----

  function Sum(threads: seq<Thread>, weight: Thread -> nat): nat {
    if threads == [] then 0 else Sum(threads[..|threads| - 1], weight) + weight(threads[|threads| - 1])
  }

  lemma {:induction false} SumUpdate(threads: seq<Thread>, weight: Thread -> nat, i: nat, t: Thread)
    requires i < |threads|
    ensures Sum(threads[i := t], weight) == Sum(threads, weight) - weight(threads[i]) + weight(t)
  {
    var n := |threads| - 1;
    if i == n {
      assert threads[i := t][..n] == threads[..n];
    } else {
      assert threads[i := t][..n] == threads[..n][i := t];
      SumUpdate(threads[..n], weight, i, t);
    }
  }

  lemma {:induction false} SumUniform(threads: seq<Thread>, weight: Thread -> nat, w: nat)
    requires forall i | 0 <= i < |threads| :: weight(threads[i]) == w
    ensures Sum(threads, weight) == w * |threads|
  {
    if threads != [] { SumUniform(threads[..|threads| - 1], weight, w); }
  }

  /** A goroutine between its reservation of a model call and the Generate call it pays for. */
  function PaidBy(t: Thread): nat {
    if t.RunContext? || t.RunGenerate? then 1 else 0
  }

  /** A goroutine holding a tool-call reservation. */
  function InFlight(t: Thread): nat {
    if InCall(t).Some? then 1 else 0
  }

  /** The log entries that answer a reservation. */
  function Answered(tickets: seq<Option<nat>>): nat {
    if tickets == [] then 0
    else Answered(tickets[..|tickets| - 1]) + if tickets[|tickets| - 1].Some? then 1 else 0
  }

  ghost predicate Invariant(b: Budget, sys: System) {
    && Accounted(sys.threads, sys.tickets, sys.shared.calls, sys.reserved)
    && sys.shared.toolCalls == |sys.reserved| == Sum(sys.threads, InFlight) + Answered(sys.tickets) <= b.maxToolCalls
    && sys.generates + Sum(sys.threads, PaidBy) <= sys.shared.modelCalls <= b.maxModelCalls
  }

  // ----- the four kinds of move -----

  /** The goroutine keeps whatever reservation it has. */
  lemma Keeps(threads: seq<Thread>, i: nat, t: Thread, tickets: seq<Option<nat>>, calls: seq<Recorded>, reserved: seq<ToolCall>)
    requires i < |threads| && Accounted(threads, tickets, calls, reserved)
    requires InCall(t).Some? <==> InCall(threads[i]).Some?
    requires InCall(t).Some? ==> InCall(t).value.ticket == InCall(threads[i]).value.ticket
                                 && CallOf(InCall(t).value) == CallOf(InCall(threads[i]).value)
    ensures Accounted(threads[i := t], tickets, calls, reserved)
  {
    var threads' := threads[i := t];
    forall j: nat, n: nat ensures Holds(threads', j, n) <==> Holds(threads, j, n) {}
    forall n: nat | IsHeld(threads, n) ensures IsHeld(threads', n) {
      var j: nat :| Holds(threads, j, n);
      assert Holds(threads', j, n);
    }
  }

  /** The goroutine takes a new reservation. */
  lemma Reserves(threads: seq<Thread>, i: nat, t: Thread, tickets: seq<Option<nat>>, calls: seq<Recorded>,
                 reserved: seq<ToolCall>, call: ToolCall)
    requires i < |threads| && Accounted(threads, tickets, calls, reserved)
    requires InCall(threads[i]).None? && InCall(t) == Some(Validating(call, |reserved|))
    ensures Accounted(threads[i := t], tickets, calls, reserved + [call])
  {
    var threads' := threads[i := t];
    forall j: nat, n: nat ensures Holds(threads', j, n) <==> if j == i then n == |reserved| else Holds(threads, j, n) {}
    forall n: nat | n < |reserved| + 1 ensures IsHeld(threads', n) || IsAnswered(tickets, n) {
      if n == |reserved| {
        assert Holds(threads', i, n);
      } else if IsHeld(threads, n) {
        var j: nat :| Holds(threads, j, n);
        assert Holds(threads', j, n);
      }
    }
  }

  /** A refused call of an unknown tool is logged without a reservation. */
  lemma LogsUnknown(threads: seq<Thread>, tickets: seq<Option<nat>>, calls: seq<Recorded>, reserved: seq<ToolCall>, rec: Recorded)
    requires Accounted(threads, tickets, calls, reserved) && IsUnknown(rec)
    ensures Accounted(threads, tickets + [None], calls + [rec], reserved)
  {
    var tickets' := tickets + [None];
    forall k: nat, n: nat ensures Answers(tickets', k, n) <==> Answers(tickets, k, n) {}
    forall n: nat | IsAnswered(tickets, n) ensures IsAnswered(tickets', n) {
      var k: nat :| Answers(tickets, k, n);
      assert Answers(tickets', k, n);
    }
  }

  /** The goroutine trades its reservation for a log entry. */
  lemma Settles(threads: seq<Thread>, i: nat, t: Thread, tickets: seq<Option<nat>>, calls: seq<Recorded>,
                reserved: seq<ToolCall>, rec: Recorded, n: nat)
    requires i < |threads| && Accounted(threads, tickets, calls, reserved)
    requires InCall(threads[i]) == Some(Recording(rec, n)) && InCall(t).None?
    ensures Accounted(threads[i := t], tickets + [Some(n)], calls + [rec], reserved)
  {
    var threads', tickets' := threads[i := t], tickets + [Some(n)];
    assert Holds(threads, i, n);
    forall j: nat, m: nat ensures Holds(threads', j, m) <==> j != i && Holds(threads, j, m) {}
    forall k: nat, m: nat ensures Answers(tickets', k, m) <==> if k == |tickets| then m == n else Answers(tickets, k, m) {}
    forall m: nat | m < |reserved| ensures IsHeld(threads', m) || IsAnswered(tickets', m) {
      if m == n {
        assert Answers(tickets', |tickets|, m);
      } else if IsHeld(threads, m) {
        var j: nat :| Holds(threads, j, m);
        assert Holds(threads', j, m);
      } else {
        var k: nat :| Answers(tickets, k, m);
        assert Answers(tickets', k, m);
      }
    }
  }

  /** Both sums after one goroutine moved. */
  lemma SumsMove(threads: seq<Thread>, i: nat, t: Thread)
    requires i < |threads|
    ensures Sum(threads[i := t], PaidBy) == Sum(threads, PaidBy) - PaidBy(threads[i]) + PaidBy(t)
    ensures Sum(threads[i := t], InFlight) == Sum(threads, InFlight) - InFlight(threads[i]) + InFlight(t)
  {
    SumUpdate(threads, PaidBy, i, t);
    SumUpdate(threads, InFlight, i, t);
  }

  // ----- every move keeps the invariant -----

  lemma ReservedKeeps(b: Budget, sys: System, i: nat, call: ToolCall, busy: CallPc -> Thread)
    requires Invariant(b, sys) && i < |sys.threads| && InCall(sys.threads[i]).None? && PaidBy(sys.threads[i]) == 0
    requires forall pc :: InCall(busy(pc)) == Some(pc) && PaidBy(busy(pc)) == 0
    requires BeginOutcome(b, sys.shared, sys.elapsed, call).Reserved?
    ensures Invariant(b, Begin(b, sys, i, call, busy))
  {
    var t := busy(Validating(call, |sys.reserved|));
    SumsMove(sys.threads, i, t);
    Reserves(sys.threads, i, t, sys.tickets, sys.shared.calls, sys.reserved, call);
  }

  lemma RefusedKeeps(b: Budget, sys: System, i: nat, call: ToolCall, busy: CallPc -> Thread)
    requires Invariant(b, sys) && i < |sys.threads| && InCall(sys.threads[i]).None? && PaidBy(sys.threads[i]) == 0
    requires BeginOutcome(b, sys.shared, sys.elapsed, call).Refused?
    ensures Invariant(b, Begin(b, sys, i, call, busy))
  {
    SumsMove(sys.threads, i, Finished);
    Keeps(sys.threads, i, Finished, sys.tickets, sys.shared.calls, sys.reserved);
    if BeginOutcome(b, sys.shared, sys.elapsed, call).err == UnknownTool {
      LogsUnknown(sys.threads[i := Finished], sys.tickets, sys.shared.calls, sys.reserved, Recorded(call, None, Some(UnknownTool)));
    } else {
      assert sys.tickets + [] == sys.tickets;
    }
  }

  lemma BeginKeeps(b: Budget, sys: System, i: nat, call: ToolCall, busy: CallPc -> Thread)
    requires Invariant(b, sys) && i < |sys.threads| && InCall(sys.threads[i]).None? && PaidBy(sys.threads[i]) == 0
    requires forall pc :: InCall(busy(pc)) == Some(pc) && PaidBy(busy(pc)) == 0
    ensures Invariant(b, Begin(b, sys, i, call, busy))
  {
    if BeginOutcome(b, sys.shared, sys.elapsed, call).Reserved? {
      ReservedKeeps(b, sys, i, call, busy);
    } else {
      RefusedKeeps(b, sys, i, call, busy);
    }
  }

  lemma LogKeeps(b: Budget, sys: System, i: nat, rec: Recorded, n: nat, t: Thread)
    requires Invariant(b, sys) && i < |sys.threads| && InCall(sys.threads[i]) == Some(Recording(rec, n))
    requires InCall(t).None? && PaidBy(t) == 0
    ensures Invariant(b, Log(sys, rec, n).(threads := sys.threads[i := t]))
  {
    SumsMove(sys.threads, i, t);
    Settles(sys.threads, i, t, sys.tickets, sys.shared.calls, sys.reserved, rec, n);
  }

  /** A move that touches neither the log nor the tool-call counter. */
  lemma LocalKeeps(b: Budget, sys: System, i: nat, t: Thread, modelCalls: int, generates: nat)
    requires Invariant(b, sys) && i < |sys.threads|
    requires InCall(t).Some? <==> InCall(sys.threads[i]).Some?
    requires InCall(t).Some? ==> InCall(t).value.ticket == InCall(sys.threads[i]).value.ticket
                                 && CallOf(InCall(t).value) == CallOf(InCall(sys.threads[i]).value)
    requires generates + PaidBy(t) - modelCalls <= sys.generates + PaidBy(sys.threads[i]) - sys.shared.modelCalls
    requires modelCalls <= b.maxModelCalls
    ensures Invariant(b, sys.(shared := sys.shared.(modelCalls := modelCalls), generates := generates,
                              threads := sys.threads[i := t]))
  {
    SumsMove(sys.threads, i, t);
    Keeps(sys.threads, i, t, sys.tickets, sys.shared.calls, sys.reserved);
  }

  lemma CallMoveKeeps(b: Budget, sys: System, i: nat, c: Choice)
    requires Invariant(b, sys) && i < |sys.threads| && (sys.threads[i].CallStart? || sys.threads[i].CallBusy?)
    ensures Invariant(b, MoveThread(b, sys, i, c))
  {
    var t, callsMade, generates := sys.threads[i], sys.shared.modelCalls, sys.generates;
    if t.CallStart? {
      if c.cancelled { LocalKeeps(b, sys, i, Finished, callsMade, generates); }
      else { BeginKeeps(b, sys, i, t.call, pc => CallBusy(pc)); }
    } else {
      if t.pc.Recording? { LogKeeps(b, sys, i, t.pc.rec, t.pc.ticket, AfterCall(t, t.pc.rec)); }
      else { LocalKeeps(b, sys, i, CallBusy(Advance(b, sys.elapsed, t.pc, c)), callsMade, generates); }
    }
  }

  /** The moves of a Run around a model call. */
  lemma TurnMoveKeeps(b: Budget, sys: System, i: nat, c: Choice)
    requires Invariant(b, sys) && i < |sys.threads|
    requires sys.threads[i].RunTurn? || sys.threads[i].RunContext? || sys.threads[i].RunGenerate? || sys.threads[i].RunCheck?
    ensures Invariant(b, MoveThread(b, sys, i, c))
  {
    var sys' := MoveThread(b, sys, i, c);
    LocalKeeps(b, sys, i, sys'.threads[i], sys'.shared.modelCalls, sys'.generates);
  }

  /** The moves of a Run around its tool calls. */
  lemma ToolMoveKeeps(b: Budget, sys: System, i: nat, c: Choice)
    requires Invariant(b, sys) && i < |sys.threads| && (sys.threads[i].RunTools? || sys.threads[i].RunBusy?)
    ensures Invariant(b, MoveThread(b, sys, i, c))
  {
    var t, callsMade, generates := sys.threads[i], sys.shared.modelCalls, sys.generates;
    if t.RunTools? {
      if t.pending == [] { LocalKeeps(b, sys, i, RunTurn, callsMade, generates); }
      else if c.cancelled { LocalKeeps(b, sys, i, Finished, callsMade, generates); }
      else { BeginKeeps(b, sys, i, t.pending[0].(source := Model), pc => RunBusy(pc, t.pending[1..])); }
    } else {
      if t.pc.Recording? { LogKeeps(b, sys, i, t.pc.rec, t.pc.ticket, AfterCall(t, t.pc.rec)); }
      else { LocalKeeps(b, sys, i, RunBusy(Advance(b, sys.elapsed, t.pc, c), t.rest), callsMade, generates); }
    }
  }

  lemma MoveKeeps(b: Budget, sys: System, i: nat, c: Choice)
    requires Invariant(b, sys) && i < |sys.threads|
    ensures Invariant(b, MoveThread(b, sys, i, c))
  {
    var t := sys.threads[i];
    if t.CallStart? || t.CallBusy? { CallMoveKeeps(b, sys, i, c); }
    else if t.RunTools? || t.RunBusy? { ToolMoveKeeps(b, sys, i, c); }
    else if !t.Finished? { TurnMoveKeeps(b, sys, i, c); }
  }

  lemma {:induction false} ExecKeeps(b: Budget, sys: System, events: seq<Event>)
    requires Invariant(b, sys)
    ensures Invariant(b, Exec(b, sys, events))
    decreases |events|
  {
    if events != [] {
      match events[0] {
        case Move(i, c) => if i < |sys.threads| { MoveKeeps(b, sys, i, c); }
        case _ =>
      }
      ExecKeeps(b, Step(b, sys, events[0]), events[1..]);
    }
  }

  lemma InitialHolds(b: Budget, sys: System)
    requires Initial(sys) && b.maxToolCalls >= 0 && b.maxModelCalls >= 0
    ensures Invariant(b, sys)
  {
    SumUniform(sys.threads, PaidBy, 0);
    SumUniform(sys.threads, InFlight, 0);
  }

  // ----- the main results -----

  /** Conservation under every interleaving: the tool-call counter is the logged reservations plus those in
      flight and never passes its limit; every reservation is in exactly one of the two places and is
      logged at most once, under its own call; Generate is called at most as often as the limit allows. */
  lemma Conservation(b: Budget, start: System, events: seq<Event>)
    requires Initial(start) && b == ApplyDefaults(b)
    ensures var sys := Exec(b, start, events);
            && sys.shared.toolCalls == Answered(sys.tickets) + Sum(sys.threads, InFlight) <= b.maxToolCalls
            && sys.generates <= sys.shared.modelCalls <= b.maxModelCalls
            && |sys.tickets| == |sys.shared.calls|
            && (forall n: nat | n < sys.shared.toolCalls :: IsHeld(sys.threads, n) != IsAnswered(sys.tickets, n))
            && LoggedRight(sys.tickets, sys.shared.calls, sys.reserved)
  {
    InitialHolds(b, start);
    ExecKeeps(b, start, events);
  }

  ghost predicate AnsweredOnce(tickets: seq<Option<nat>>, n: nat) {
    exists k: nat :: Answers(tickets, k, n) && forall l: nat | Answers(tickets, l, n) :: l == k
  }

  /** Once every goroutine is finished, each reserved call has been logged, exactly once. */
  lemma QuietMeansLogged(b: Budget, start: System, events: seq<Event>)
    requires Initial(start) && b == ApplyDefaults(b)
    requires forall i | 0 <= i < |Exec(b, start, events).threads| :: Exec(b, start, events).threads[i].Finished?
    ensures var sys := Exec(b, start, events);
            && sys.shared.toolCalls == Answered(sys.tickets)
            && forall n: nat | n < sys.shared.toolCalls :: AnsweredOnce(sys.tickets, n)
  {
    Conservation(b, start, events);
    var sys := Exec(b, start, events);
    SumUniform(sys.threads, InFlight, 0);
    forall n: nat | n < sys.shared.toolCalls ensures AnsweredOnce(sys.tickets, n) {
      assert !IsHeld(sys.threads, n);
      assert IsAnswered(sys.tickets, n);
    }
  }

  /** Once the wall time is spent nothing can be reserved any more, whatever is still in flight. */
  lemma {:induction false} SpentWallReservesNothing(b: Budget, sys: System, events: seq<Event>)
    requires WallSpent(b, sys.elapsed)
    ensures Exec(b, sys, events).shared.toolCalls == sys.shared.toolCalls
    ensures Exec(b, sys, events).shared.modelCalls == sys.shared.modelCalls
    decreases |events|
  {
    if events != [] { SpentWallReservesNothing(b, Step(b, sys, events[0]), events[1..]); }
  }

  // ----- termination -----

  /** How many moves a goroutine can still make without a further reservation. */
  function Potential(t: Thread): nat {
    match t
    case Finished => 0
    case CallStart(_) => 1
    case RunTurn => 1
    case RunTools(_) => 2
    case RunCheck(_) => 3
    case RunGenerate => 4
    case RunContext => 5
    case CallBusy(pc) => CallPotential(pc)
    case RunBusy(pc, _) => CallPotential(pc) + 2
  }

  function CallPotential(pc: CallPc): nat {
    match pc
    case Validating(_, _) => 4
    case Admitting(_, _) => 3
    case Handling(_, _) => 2
    case Recording(_, _) => 1
  }

  function Measure(b: Budget, sys: System): int {
    5 * (b.maxModelCalls - sys.shared.modelCalls) + 5 * (b.maxToolCalls - sys.shared.toolCalls) + Sum(sys.threads, Potential)
  }

  /** Every move of an unfinished goroutine uses up the measure: the budgets are what makes Run end. */
  lemma MoveDecreases(b: Budget, sys: System, i: nat, c: Choice)
    requires i < |sys.threads| && !sys.threads[i].Finished?
    ensures Measure(b, MoveThread(b, sys, i, c)) < Measure(b, sys)
  {
    var sys' := MoveThread(b, sys, i, c);
    SumUpdate(sys.threads, Potential, i, sys'.threads[i]);
    assert sys'.threads == sys.threads[i := sys'.threads[i]];
  }

  /** The moves of `events` that are made by unfinished goroutines. */
  function Moves(b: Budget, sys: System, events: seq<Event>): nat
    decreases |events|
  {
    if events == [] then 0
    else
      (match events[0]
       case Move(i, _) => if i < |sys.threads| && !sys.threads[i].Finished? then 1 else 0
       case _ => 0)
      + Moves(b, Step(b, sys, events[0]), events[1..])
  }

  lemma {:induction false} MovesBounded(b: Budget, sys: System, events: seq<Event>)
    requires Invariant(b, sys)
    ensures Moves(b, sys, events) <= Measure(b, sys)
    decreases |events|
  {
    if events != [] {
      match events[0] {
        case Move(i, c) =>
          if i < |sys.threads| {
            MoveKeeps(b, sys, i, c);
            if !sys.threads[i].Finished? { MoveDecreases(b, sys, i, c); }
          }
        case _ =>
      }
      MovesBounded(b, Step(b, sys, events[0]), events[1..]);
    }
  }

  /** Every Call and every Run comes to an end: whatever the handlers, the model and the schedule do, the
      goroutines make at most five moves per budgeted call and one more each. */
  lemma EveryRunEnds(b: Budget, start: System, events: seq<Event>)
    requires Initial(start) && b == ApplyDefaults(b)
    ensures Moves(b, start, events) <= 5 * b.maxModelCalls + 5 * b.maxToolCalls + |start.threads|
  {
    InitialHolds(b, start);
    MovesBounded(b, start, events);
    SumUniform(start.threads, Potential, 1);
  }
}
