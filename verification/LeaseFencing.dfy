/** What the claim protocol guarantees over whole runs of any workers, reconcilers and unfenced writers. */
module LeaseFencing {
  import opened Options
  import opened JobStore

  ghost function Exec(jobs: Jobs, ops: seq<Op>): Jobs
    decreases |ops|
  {
    if ops == [] then jobs else Exec(After(jobs, ops[0]), ops[1..])
  }

  /** The lease is the one the store would honour. */
  predicate Live(jobs: Jobs, l: Lease) {
    l.jobID in jobs && FenceMatches(jobs[l.jobID], l.workerID, l.attempt)
  }

  predicate Finished(j: Job) {
    j.status == Completed || j.status == Failed
  }

  /** The operation is one of the two unfenced writes to the job. */
  predicate Records(op: Op, id: string) {
    (op.RecordCompletion? || op.RecordFailure?) && op.jobID == id
  }

  // ----- rows -----

  predicate Carry(rows: seq<Row>, id: string, attempt: int) {
    forall r | r in rows :: r.jobID == id && r.attempt == attempt
  }

  predicate RowsCarry(id: string, j: Job) {
    Carry(j.findings, id, j.attempt) && Carry(j.diagnostics, id, j.attempt)
  }

  ghost predicate AllCarry(jobs: Jobs) {
    forall id | id in jobs :: RowsCarry(id, jobs[id])
  }

  /** Only the unfenced completion takes rows as they come; these name its own job and attempt. */
  predicate Stamped(op: Op) {
    op.RecordCompletion? ==> Carry(op.findings, op.jobID, op.attempt) && Carry(op.diagnostics, op.jobID, op.attempt)
  }

  /** Every stored row carries its job and the job's current attempt, over every run whose unfenced completions bring
      rows of their own attempt. */
  lemma {:induction false} RowsCarryAttempt(jobs: Jobs, ops: seq<Op>)
    requires AllCarry(jobs) && forall op | op in ops :: Stamped(op)
    ensures AllCarry(Exec(jobs, ops))
    decreases |ops|
  {
    if ops != [] {
      assert ops[0] in ops;
      forall id | id in After(jobs, ops[0]) ensures RowsCarry(id, After(jobs, ops[0])[id]) {
        if id in jobs { assert RowsCarry(id, jobs[id]); }
      }
      RowsCarryAttempt(After(jobs, ops[0]), ops[1..]);
    }
  }

  /** ... and exactly then: an unfenced completion with any other row breaks it. */
  lemma CompletionCarriesExactlyWhen(jobs: Jobs, op: Op)
    requires AllCarry(jobs) && op.RecordCompletion? && op.jobID in jobs
    ensures AllCarry(After(jobs, op)) <==> Stamped(op)
  {
    if Stamped(op) {
      assert [op][1..] == [];
      RowsCarryAttempt(jobs, [op]);
    } else {
      assert !RowsCarry(op.jobID, After(jobs, op)[op.jobID]);
    }
  }

  /** A running job has an owner and a heartbeat, a queued one has neither. */
  predicate Owned(j: Job) {
    && (j.status == Running ==> j.claimedBy.Some? && j.heartbeatAt.Some?)
    && (j.status == Queued ==> j.claimedBy.None? && j.heartbeatAt.None?)
  }

  ghost predicate AllOwned(jobs: Jobs) {
    forall id | id in jobs :: Owned(jobs[id])
  }

  lemma {:induction false} RunningIsOwned(jobs: Jobs, ops: seq<Op>)
    requires AllOwned(jobs) && forall op | op in ops && op.Create? :: Owned(op.job)
    ensures AllOwned(Exec(jobs, ops))
    decreases |ops|
  {
    if ops != [] {
      assert ops[0] in ops;
      forall id | id in After(jobs, ops[0]) ensures Owned(After(jobs, ops[0])[id]) {
        if id in jobs { assert Owned(jobs[id]); }
      }
      RunningIsOwned(After(jobs, ops[0]), ops[1..]);
    }
  }

  // ----- attempts and finished jobs -----

  /** No step of the run lowers the attempt of the job. */
  ghost predicate NeverFalls(jobs: Jobs, ops: seq<Op>, id: string)
    requires id in jobs
    decreases |ops|
  {
    ops == [] || (After(jobs, ops[0])[id].attempt >= jobs[id].attempt && NeverFalls(After(jobs, ops[0]), ops[1..], id))
  }

  /** Every unfenced completion of the job brings an attempt that is not below the one the job then has. */
  ghost predicate NoRollback(jobs: Jobs, ops: seq<Op>, id: string)
    requires id in jobs
    decreases |ops|
  {
    ops == []
    || ((ops[0].RecordCompletion? && ops[0].jobID == id ==> ops[0].attempt >= jobs[id].attempt)
        && NoRollback(After(jobs, ops[0]), ops[1..], id))
  }

  /** The attempt never decreases exactly when no unfenced completion rolls it back. */
  lemma {:induction false} AttemptsNeverDecreaseExactlyWhen(jobs: Jobs, ops: seq<Op>, id: string)
    requires id in jobs
    ensures NeverFalls(jobs, ops, id) <==> NoRollback(jobs, ops, id)
    ensures id in Exec(jobs, ops) && (NeverFalls(jobs, ops, id) ==> Exec(jobs, ops)[id].attempt >= jobs[id].attempt)
    decreases |ops|
  {
    if ops != [] { AttemptsNeverDecreaseExactlyWhen(After(jobs, ops[0]), ops[1..], id); }
  }

  /** A finished job stays finished, and changes only by an unfenced write to it. */
  lemma {:induction false} FinishedIsFinal(jobs: Jobs, ops: seq<Op>, id: string)
    requires id in jobs && Finished(jobs[id])
    ensures id in Exec(jobs, ops) && Finished(Exec(jobs, ops)[id])
    ensures (forall op | op in ops :: !Records(op, id)) ==> Exec(jobs, ops)[id] == jobs[id]
    decreases |ops|
  {
    if ops != [] {
      assert ops[0] in ops;
      FinishedIsFinal(After(jobs, ops[0]), ops[1..], id);
    }
  }

  /** An unfenced completion of a finished job overwrites it and can lower its attempt. */
  lemma CompletionOverwritesFinished(jobs: Jobs, id: string, report: string, error: string, finishedAt: int)
    requires id in jobs && Finished(jobs[id])
    ensures var op := RecordCompletion(id, jobs[id].attempt - 1, finishedAt, report, [], []);
            var later := After(jobs, op)[id];
            && later.status == Completed && later.attempt < jobs[id].attempt && later.report == Some(report)
            && later.error == None && later.finishedAt == Some(finishedAt) && later.findings == [] && later.diagnostics == []
    ensures var failed := After(jobs, RecordFailure(id, error, finishedAt))[id];
            && failed.status == Failed && failed.error == Some(error) && failed.finishedAt == Some(finishedAt)
            && failed.attempt == jobs[id].attempt && failed.findings == jobs[id].findings
  {
  }

  /** While a job is not finished its attempt has never been rolled back. */
  lemma {:induction false} UnfinishedNeverFell(jobs: Jobs, ops: seq<Op>, id: string)
    requires id in jobs
    ensures id in Exec(jobs, ops) && (!Finished(Exec(jobs, ops)[id]) ==> Exec(jobs, ops)[id].attempt >= jobs[id].attempt)
    decreases |ops|
  {
    if ops != [] {
      if Finished(After(jobs, ops[0])[id]) { FinishedIsFinal(After(jobs, ops[0]), ops[1..], id); }
      UnfinishedNeverFell(After(jobs, ops[0]), ops[1..], id);
    }
  }

  // ----- fencing -----

  /** A lease that was issued and is no longer live. */
  predicate Lost(jobs: Jobs, l: Lease) {
    l.jobID in jobs && (l.attempt <= jobs[l.jobID].attempt || Finished(jobs[l.jobID])) && !Live(jobs, l)
  }

  lemma LostStaysLostStep(jobs: Jobs, l: Lease, op: Op)
    requires Lost(jobs, l)
    ensures Lost(After(jobs, op), l)
  {
  }

  /** Fencing: once a lease is lost, it is lost for good, and every write under it is refused with
      ClaimLost and changes nothing, at any later point of any run. */
  lemma {:induction false} LostForGood(jobs: Jobs, l: Lease, ops: seq<Op>, write: Op)
    requires Lost(jobs, l) && Fenced(write) && write.lease == l
    ensures var later := Exec(jobs, ops);
            Lost(later, l) && OutcomeOf(later, write) == ClaimLost && After(later, write) == later
    decreases |ops|
  {
    if ops != [] {
      LostStaysLostStep(jobs, l, ops[0]);
      LostForGood(After(jobs, ops[0]), l, ops[1..], write);
    }
  }

  /** What ends a live lease: its own release, completion or failure, a claim that was granted (even to the same
      worker), a sweep that found it stale, and an unfenced write to its job. Nothing else does. */
  predicate Ends(jobs: Jobs, l: Lease, op: Op)
    requires l.jobID in jobs
  {
    match op
    case Claim(id, _, now, staleAfter) => id == l.jobID && Claimable(jobs[id], now, staleAfter)
    case Sweep(now, staleAfter) => Sweepable(jobs[l.jobID], now, staleAfter)
    case Complete(m, _, _, _, _) => m == l
    case Fail(m, _, _) => m == l
    case Release(m) => m == l
    case _ => Records(op, l.jobID)
  }

  lemma LeaseEndsExactlyWhen(jobs: Jobs, l: Lease, op: Op)
    requires Live(jobs, l)
    ensures Lost(After(jobs, op), l) <==> Ends(jobs, l, op)
    ensures Live(After(jobs, op), l) <==> !Ends(jobs, l, op)
  {
  }

  /** Two claims granted in one run never give the same attempt: a lease is never issued twice, so at any
      moment at most one lease on a job is honoured. */
  lemma LeasesAreUnique(jobs: Jobs, ops: seq<Op>, claim: Op, again: Op)
    requires claim.Claim? && again.Claim? && claim.jobID == again.jobID
    requires OutcomeOf(jobs, claim).Claimed?
    requires OutcomeOf(Exec(After(jobs, claim), ops), again).Claimed?
    ensures Live(After(jobs, claim), OutcomeOf(jobs, claim).lease)
    ensures OutcomeOf(Exec(After(jobs, claim), ops), again).lease.attempt > OutcomeOf(jobs, claim).lease.attempt
    ensures Lost(After(Exec(After(jobs, claim), ops), again), OutcomeOf(jobs, claim).lease)
  {
    UnfinishedNeverFell(After(jobs, claim), ops, claim.jobID);
  }

  // ----- what a lease leaves behind -----

  function Payloads(rows: seq<Row>): (ps: seq<string>)
    ensures |ps| == |rows| && forall i | 0 <= i < |rows| :: ps[i] == rows[i].payload
  {
    seq(|rows|, i requires 0 <= i < |rows| => rows[i].payload)
  }

  /** The payloads as rows of the lease's job and attempt. */
  function RowsOf(l: Lease, payloads: seq<string>): (rows: seq<Row>)
    ensures |rows| == |payloads| && forall i | 0 <= i < |payloads| :: rows[i] == Row(l.jobID, l.attempt, payloads[i])
  {
    seq(|payloads|, i requires 0 <= i < |payloads| => Row(l.jobID, l.attempt, payloads[i]))
  }

  /** The finding payloads that the lease's inserts bring, in order. */
  function FindingsBrought(l: Lease, ops: seq<Op>): seq<string>
    decreases |ops|
  {
    if ops == [] then []
    else (if ops[0].InsertFindings? && ops[0].lease == l then Payloads(ops[0].rows) else []) + FindingsBrought(l, ops[1..])
  }

  function DiagnosticsBrought(l: Lease, ops: seq<Op>): seq<string>
    decreases |ops|
  {
    if ops == [] then []
    else (if ops[0].InsertDiagnostics? && ops[0].lease == l then Payloads(ops[0].rows) else []) + DiagnosticsBrought(l, ops[1..])
  }

  lemma RowsJoin(l: Lease, before: seq<Row>, a: seq<string>, b: seq<string>)
    ensures (before + RowsOf(l, a)) + RowsOf(l, b) == before + RowsOf(l, a + b)
  {
  }

  lemma StampedRows(l: Lease, rows: seq<Row>)
    ensures Stamp(rows, l.jobID, l.attempt) == RowsOf(l, Payloads(rows))
  {
  }

  /** One step that does not end a live lease adds the rows of the lease's own insert, and no others. */
  lemma StepAddsRows(jobs: Jobs, l: Lease, op: Op)
    requires Live(jobs, l) && Live(After(jobs, op), l)
    ensures After(jobs, op)[l.jobID].findings == jobs[l.jobID].findings
              + RowsOf(l, if op.InsertFindings? && op.lease == l then Payloads(op.rows) else [])
    ensures After(jobs, op)[l.jobID].diagnostics == jobs[l.jobID].diagnostics
              + RowsOf(l, if op.InsertDiagnostics? && op.lease == l then Payloads(op.rows) else [])
  {
    LeaseEndsExactlyWhen(jobs, l, op);
    var j := jobs[l.jobID];
    assert j.findings + [] == j.findings && j.diagnostics + [] == j.diagnostics;
    if op.InsertFindings? || op.InsertDiagnostics? { StampedRows(l, op.rows); }
  }

  /** While a lease is live the stored rows are those from before and then exactly what its inserts brought, in order. */
  lemma {:induction false} RowsAreThePayloads(jobs: Jobs, l: Lease, ops: seq<Op>)
    requires Live(jobs, l) && Live(Exec(jobs, ops), l)
    ensures Exec(jobs, ops)[l.jobID].findings == jobs[l.jobID].findings + RowsOf(l, FindingsBrought(l, ops))
    ensures Exec(jobs, ops)[l.jobID].diagnostics == jobs[l.jobID].diagnostics + RowsOf(l, DiagnosticsBrought(l, ops))
    decreases |ops|
  {
    var j := jobs[l.jobID];
    if ops == [] {
      assert j.findings + RowsOf(l, []) == j.findings && j.diagnostics + RowsOf(l, []) == j.diagnostics;
    } else {
      var op := ops[0];
      StaysLive(jobs, l, ops);
      StepAddsRows(jobs, l, op);
      RowsAreThePayloads(After(jobs, op), l, ops[1..]);
      RowsJoin(l, j.findings, if op.InsertFindings? && op.lease == l then Payloads(op.rows) else [], FindingsBrought(l, ops[1..]));
      RowsJoin(l, j.diagnostics, if op.InsertDiagnostics? && op.lease == l then Payloads(op.rows) else [],
               DiagnosticsBrought(l, ops[1..]));
    }
  }

  lemma StaysLive(jobs: Jobs, l: Lease, ops: seq<Op>)
    requires Live(jobs, l) && ops != [] && Live(Exec(jobs, ops), l)
    ensures Live(After(jobs, ops[0]), l)
  {
    LeaseEndsExactlyWhen(jobs, l, ops[0]);
    if !Live(After(jobs, ops[0]), l) { LostForGood(After(jobs, ops[0]), l, ops[1..], Heartbeat(l, 0)); }
  }

  /** A granted claim leaves a running job of the claimer under the next attempt, beating and started now, with nothing on
      record. */
  lemma ClaimStartsClean(jobs: Jobs, id: string, workerID: string, now: int, staleAfter: int)
    requires id in jobs && OutcomeOf(jobs, Claim(id, workerID, now, staleAfter)).Claimed?
    ensures var j, l := After(jobs, Claim(id, workerID, now, staleAfter))[id], OutcomeOf(jobs, Claim(id, workerID, now, staleAfter)).lease;
      && j.status == Running && j.claimedBy == Some(workerID) && j.heartbeatAt == Some(now) && j.startedAt == Some(now)
      && j.attempt == jobs[id].attempt + 1 && j.createdAt == jobs[id].createdAt
      && j.findings == [] && j.diagnostics == [] && j.report == None && j.error == None && j.finishedAt == None
      && l.jobID == id && l.workerID == workerID && l.attempt == j.attempt
  {
  }

  /** From a granted claim to its completion: the completed job holds exactly what the lease inserted, then what came with
      the completion, and the completion's report. */
  lemma CompletedJobHoldsItsRows(jobs: Jobs, claim: Op, ops: seq<Op>, done: Op)
    requires claim.Claim? && OutcomeOf(jobs, claim).Claimed?
    requires done.Complete? && done.lease == OutcomeOf(jobs, claim).lease
    requires Live(Exec(After(jobs, claim), ops), done.lease)
    ensures var l, j := done.lease, After(Exec(After(jobs, claim), ops), done)[done.lease.jobID];
      && j.status == Completed && j.error == None && j.report == Some(done.report) && j.finishedAt == Some(done.finishedAt)
      && j.attempt == l.attempt
      && j.findings == RowsOf(l, FindingsBrought(l, ops) + Payloads(done.findings))
      && j.diagnostics == RowsOf(l, DiagnosticsBrought(l, ops) + Payloads(done.diagnostics))
  {
    var l, later := done.lease, Exec(After(jobs, claim), ops);
    ClaimStartsClean(jobs, claim.jobID, claim.workerID, claim.now, claim.staleAfter);
    RowsAreThePayloads(After(jobs, claim), l, ops);
    assert later[l.jobID].findings == RowsOf(l, FindingsBrought(l, ops));
    assert later[l.jobID].diagnostics == RowsOf(l, DiagnosticsBrought(l, ops));
    StampedRows(l, done.findings);
    StampedRows(l, done.diagnostics);
    RowsJoin(l, [], FindingsBrought(l, ops), Payloads(done.findings));
    RowsJoin(l, [], DiagnosticsBrought(l, ops), Payloads(done.diagnostics));
  }

  /** A failure ends the job with its error and keeps the rows; a release puts it back in the queue without an owner;
      a heartbeat moves the clock. Nothing else changes. */
  lemma FailureAndReleaseKeepRows(jobs: Jobs, l: Lease, error: string, now: int)
    requires Live(jobs, l)
    ensures var j, failed := jobs[l.jobID], After(jobs, Fail(l, error, now))[l.jobID];
      && failed.status == Failed && failed.error == Some(error) && failed.finishedAt == Some(now)
      && failed == j.(status := failed.status, error := failed.error, finishedAt := failed.finishedAt)
    ensures var j, released := jobs[l.jobID], After(jobs, Release(l))[l.jobID];
      && released.status == Queued && released.claimedBy == None && released.heartbeatAt == None
      && released == j.(status := released.status, claimedBy := None, heartbeatAt := None)
    ensures var j, beating := jobs[l.jobID], After(jobs, Heartbeat(l, now))[l.jobID];
      beating.heartbeatAt == Some(now) && beating == j.(heartbeatAt := beating.heartbeatAt)
  {
  }

  /** The job an operation other than a sweep is about. */
  function About(op: Op): string
    requires !op.Sweep?
  {
    if op.Create? || op.Claim? || op.RecordCompletion? || op.RecordFailure? then op.jobID else op.lease.jobID
  }

  /** No operation touches a job it is not about, and a sweep queues exactly the running jobs without a fresh heartbeat. */
  lemma OtherJobsStay(jobs: Jobs, op: Op, id: string)
    requires id in jobs
    ensures id in After(jobs, op) && (!op.Sweep? && About(op) != id ==> After(jobs, op)[id] == jobs[id])
    ensures op.Sweep? ==>
      var j, swept := jobs[id], After(jobs, op)[id];
      if j.status == Running && (j.heartbeatAt.None? || op.now - j.heartbeatAt.value >= op.staleAfter)
      then swept.status == Queued && swept == j.(status := Queued, claimedBy := None, heartbeatAt := None)
      else swept == j
  {
  }

  /** What each operation answers, in terms of the stored job. */
  lemma AnswersMean(jobs: Jobs, op: Op)
    requires !op.Sweep?
    ensures op.Create? ==>
      && (OutcomeOf(jobs, op) == AlreadyExists <==> op.jobID in jobs) && (OutcomeOf(jobs, op) == Done <==> op.jobID !in jobs)
      && (op.jobID !in jobs ==> After(jobs, op)[op.jobID] == op.job.(findings := [], diagnostics := [], report := None))
    ensures !op.Create? ==> (OutcomeOf(jobs, op) == NotFound <==> About(op) !in jobs)
    ensures op.Claim? && op.jobID in jobs ==>
      var j := jobs[op.jobID];
      var open := j.status == Queued
                  || (j.status == Running && (j.heartbeatAt.None? || op.now - j.heartbeatAt.value >= op.staleAfter));
      OutcomeOf(jobs, op) == if open then Claimed(Lease(op.jobID, op.workerID, j.attempt + 1)) else NotClaimable
    ensures Fenced(op) && op.lease.jobID in jobs ==>
      var j := jobs[op.lease.jobID];
      var held := j.status == Running && j.claimedBy == Some(op.lease.workerID) && j.attempt == op.lease.attempt;
      OutcomeOf(jobs, op) == (if held then Done else ClaimLost) && (!held ==> After(jobs, op) == jobs)
    ensures (op.RecordCompletion? || op.RecordFailure?) && op.jobID in jobs ==> OutcomeOf(jobs, op) == Done
  {
  }

  // ----- heartbeats -----

  /** No operation of the run ends the lease, given its last heartbeat: each claim of the job and each sweep
      comes less than its own `staleAfter` after the then latest heartbeat. */
  predicate Undisturbed(l: Lease, last: int, ops: seq<Op>)
    decreases |ops|
  {
    if ops == [] then true
    else match ops[0]
      case Claim(id, _, now, staleAfter) => (id == l.jobID ==> now - last < staleAfter) && Undisturbed(l, last, ops[1..])
      case Sweep(now, staleAfter) => now - last < staleAfter && Undisturbed(l, last, ops[1..])
      case Heartbeat(m, now) => Undisturbed(l, if m == l then now else last, ops[1..])
      case _ => !GivesUp(ops[0], l) && Undisturbed(l, last, ops[1..])
  }

  /** The worker ends the lease itself, or an unfenced write does. */
  predicate GivesUp(op: Op, l: Lease) {
    ((op.Complete? || op.Fail? || op.Release?) && op.lease == l) || Records(op, l.jobID)
  }

  /** A lease survives a run exactly when the run does not end it. */
  lemma {:induction false} SurvivesExactlyWhen(jobs: Jobs, l: Lease, last: int, ops: seq<Op>)
    requires Live(jobs, l) && jobs[l.jobID].heartbeatAt == Some(last)
    ensures Live(Exec(jobs, ops), l) <==> Undisturbed(l, last, ops)
    decreases |ops|
  {
    if ops != [] {
      var jobs' := After(jobs, ops[0]);
      if Live(jobs', l) {
        SurvivesExactlyWhen(jobs', l, jobs'[l.jobID].heartbeatAt.value, ops[1..]);
      } else {
        LostForGood(jobs', l, ops[1..], Heartbeat(l, 0));
      }
    }
  }

  // ----- attended leases -----

  /** The worker configuration that is accepted. */
  predicate AcceptedTimings(staleAfter: int, heartbeatInterval: int) {
    !(staleAfter < 3 * heartbeatInterval)
  }

  /** When the operation looks at the clock. */
  function TimeOf(op: Op): Option<int> {
    match op
    case Claim(_, _, now, _) => Some(now)
    case Sweep(now, _) => Some(now)
    case Heartbeat(_, now) => Some(now)
    case _ => None
  }

  /** The operations come in the order of their times, none before `from` and none after `end`. */
  predicate Clocked(from: int, ops: seq<Op>, end: int)
    decreases |ops|
  {
    if ops == [] then from <= end
    else match TimeOf(ops[0])
      case Some(t) => from <= t && Clocked(t, ops[1..], end)
      case None => Clocked(from, ops[1..], end)
  }

  /** Consecutive heartbeats of the lease are less than `gap` apart, and so is the last one from the end. */
  predicate Beats(l: Lease, last: int, gap: int, ops: seq<Op>, end: int)
    decreases |ops|
  {
    if ops == [] then end - last < gap
    else match ops[0]
      case Heartbeat(m, now) =>
        if m == l then now - last < gap && Beats(l, now, gap, ops[1..], end) else Beats(l, last, gap, ops[1..], end)
      case _ => Beats(l, last, gap, ops[1..], end)
  }

  /** Whoever may take the job away is configured with accepted timings. */
  predicate Accepts(op: Op, l: Lease, interval: int) {
    (op.Claim? && op.jobID == l.jobID) || op.Sweep? ==> AcceptedTimings(op.staleAfter, interval)
  }

  /** At any time between two operations of a clocked run the latest heartbeat is younger than the gap. */
  lemma {:induction false} YoungAtAnyTime(l: Lease, last: int, gap: int, t: int, ops: seq<Op>, end: int)
    requires Clocked(t, ops, end) && Beats(l, last, gap, ops, end)
    ensures t - last < gap
    decreases |ops|
  {
    if ops != [] && !(ops[0].Heartbeat? && ops[0].lease == l) {
      YoungAtAnyTime(l, last, gap, if TimeOf(ops[0]).Some? then TimeOf(ops[0]).value else t, ops[1..], end);
    }
  }

  lemma {:induction false} BeatsLeaveUndisturbed(l: Lease, last: int, interval: int, from: int, ops: seq<Op>, end: int)
    requires Clocked(from, ops, end) && Beats(l, last, 3 * interval, ops, end)
    requires forall op | op in ops :: Accepts(op, l, interval) && !GivesUp(op, l)
    ensures Undisturbed(l, last, ops)
    decreases |ops|
  {
    if ops != [] {
      var op := ops[0];
      assert op in ops && forall o | o in ops[1..] :: o in ops;
      var next := if TimeOf(op).Some? then TimeOf(op).value else from;
      if op.Heartbeat? && op.lease == l {
        BeatsLeaveUndisturbed(l, op.now, interval, next, ops[1..], end);
      } else {
        YoungAtAnyTime(l, last, 3 * interval, next, ops[1..], end);
        BeatsLeaveUndisturbed(l, last, interval, next, ops[1..], end);
      }
    }
  }

  /** A worker that keeps its heartbeats less than three intervals apart, up to the end of the run, is never reclaimed
      or swept, as long as accepted timings are used and the lease is not given up. */
  lemma AttendedLeaseIsKept(jobs: Jobs, l: Lease, last: int, interval: int, ops: seq<Op>, end: int)
    requires Live(jobs, l) && jobs[l.jobID].heartbeatAt == Some(last)
    requires Clocked(last, ops, end) && Beats(l, last, 3 * interval, ops, end)
    requires forall op | op in ops :: Accepts(op, l, interval) && !GivesUp(op, l)
    ensures Live(Exec(jobs, ops), l)
  {
    BeatsLeaveUndisturbed(l, last, interval, last, ops, end);
    SurvivesExactlyWhen(jobs, l, last, ops);
  }

  /** The bound is strict: with the smallest accepted `staleAfter`, a heartbeat exactly three intervals old
      already counts as stale, and another worker is granted the job. */
  lemma ThreeIntervalsIsTooLate(jobs: Jobs, l: Lease, last: int, interval: int, other: string)
    requires Live(jobs, l) && jobs[l.jobID].heartbeatAt == Some(last)
    ensures AcceptedTimings(3 * interval, interval)
    ensures OutcomeOf(jobs, Claim(l.jobID, other, last + 3 * interval, 3 * interval)) ==
            Claimed(Lease(l.jobID, other, l.attempt + 1))
    ensures Lost(After(jobs, Claim(l.jobID, other, last + 3 * interval, 3 * interval)), l)
  {
    LeaseEndsExactlyWhen(jobs, l, Claim(l.jobID, other, last + 3 * interval, 3 * interval));
  }
}
