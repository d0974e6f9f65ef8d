/** The job store behind the claim protocol: claim, heartbeat, fenced writes, release and the stale sweep
    (internal/coachapi/claim.go, internal/coachapi/store/memory). */
module JobStore {
  import opened Options

  datatype Status = Queued | Running | Completed | Failed

  /** A finding or diagnostic row, stamped with the lease that wrote it. */
  datatype Row = Row(jobID: string, attempt: int, payload: string)

  /** `report` stands for the assembly fields a completion records. */
  datatype Job = Job(status: Status, claimedBy: Option<string>, heartbeatAt: Option<int>, attempt: int, startedAt: Option<int>,
                     finishedAt: Option<int>, error: Option<string>, createdAt: int, findings: seq<Row>, diagnostics: seq<Row>,
                     report: Option<string>)

  datatype Lease = Lease(jobID: string, workerID: string, attempt: int)

  /** The operations of the store; times in nanoseconds. The last two are its unfenced writes. */
  datatype Op =
    | Create(jobID: string, job: Job)
    | Claim(jobID: string, workerID: string, now: int, staleAfter: int)
    | Heartbeat(lease: Lease, now: int)
    | InsertFindings(lease: Lease, rows: seq<Row>)
    | InsertDiagnostics(lease: Lease, rows: seq<Row>)
    | Complete(lease: Lease, finishedAt: int, report: string, findings: seq<Row>, diagnostics: seq<Row>)
    | Fail(lease: Lease, error: string, finishedAt: int)
    | Release(lease: Lease)
    | Sweep(now: int, staleAfter: int)
    | RecordCompletion(jobID: string, attempt: int, finishedAt: int, report: string, findings: seq<Row>, diagnostics: seq<Row>)
    | RecordFailure(jobID: string, error: string, finishedAt: int)

  datatype Outcome = Done | Claimed(lease: Lease) | Swept(released: nat) | AlreadyExists | NotFound | NotClaimable | ClaimLost

  type Jobs = map<string, Job>

  predicate Fenced(op: Op) {
    op.Heartbeat? || op.InsertFindings? || op.InsertDiagnostics? || op.Complete? || op.Fail? || op.Release?
  }

  predicate FenceMatches(j: Job, workerID: string, attempt: int) {
    j.status == Running && j.claimedBy == Some(workerID) && j.attempt == attempt
  }

  /** No heartbeat, or one at least `staleAfter` old. */
  predicate Stale(j: Job, now: int, staleAfter: int) {
    j.heartbeatAt.None? || now - j.heartbeatAt.value >= staleAfter
  }

  predicate Claimable(j: Job, now: int, staleAfter: int) {
    j.status == Queued || (j.status == Running && Stale(j, now, staleAfter))
  }

  /** The rows as written under a lease: whatever job and attempt they named before. */
  function Stamp(rows: seq<Row>, jobID: string, attempt: int): (stamped: seq<Row>)
    ensures |stamped| == |rows|
    ensures forall i | 0 <= i < |rows| :: stamped[i] == Row(jobID, attempt, rows[i].payload)
  {
    seq(|rows|, i requires 0 <= i < |rows| => Row(jobID, attempt, rows[i].payload))
  }

  // ----- one job -----

  /** The job as its creator supplied it, with nothing recorded yet. */
  function NewJob(j: Job): Job {
    j.(findings := [], diagnostics := [], report := None)
  }

  function ClaimedJob(j: Job, workerID: string, now: int): Job {
    Job(Running, Some(workerID), Some(now), j.attempt + 1, Some(now), None, None, j.createdAt, [], [], None)
  }

  function ReleasedJob(j: Job): Job {
    j.(status := Queued, claimedBy := None, heartbeatAt := None)
  }

  /** A fenced write whose fence matches. */
  function Written(j: Job, op: Op): Job
    requires Fenced(op)
  {
    var id, attempt := op.lease.jobID, op.lease.attempt;
    match op
    case Heartbeat(_, now) => j.(heartbeatAt := Some(now))
    case InsertFindings(_, rows) => j.(findings := j.findings + Stamp(rows, id, attempt))
    case InsertDiagnostics(_, rows) => j.(diagnostics := j.diagnostics + Stamp(rows, id, attempt))
    case Complete(_, finishedAt, report, findings, diagnostics) =>
      j.(status := Completed, attempt := attempt, finishedAt := Some(finishedAt), error := None, report := Some(report),
         findings := j.findings + Stamp(findings, id, attempt), diagnostics := j.diagnostics + Stamp(diagnostics, id, attempt))
    case Fail(_, error, finishedAt) => j.(status := Failed, error := Some(error), finishedAt := Some(finishedAt))
    case Release(_) => ReleasedJob(j)
  }

  /** Unfenced: the caller's attempt and rows replace whatever was there. */
  function RecordedCompletion(j: Job, op: Op): Job
    requires op.RecordCompletion?
  {
    j.(status := Completed, attempt := op.attempt, finishedAt := Some(op.finishedAt), error := None, report := Some(op.report),
       findings := op.findings, diagnostics := op.diagnostics)
  }

  function RecordedFailure(j: Job, error: string, finishedAt: int): Job {
    j.(status := Failed, error := Some(error), finishedAt := Some(finishedAt))
  }

  // ----- the store as a value -----

  predicate Sweepable(j: Job, now: int, staleAfter: int) {
    j.status == Running && Stale(j, now, staleAfter)
  }

  ghost function SweptIDs(jobs: Jobs, now: int, staleAfter: int): set<string> {
    set id | id in jobs && Sweepable(jobs[id], now, staleAfter)
  }

  ghost function SweptJobs(jobs: Jobs, now: int, staleAfter: int): Jobs {
    map id | id in jobs :: if Sweepable(jobs[id], now, staleAfter) then ReleasedJob(jobs[id]) else jobs[id]
  }

  ghost function After(jobs: Jobs, op: Op): Jobs {
    match op
    case Create(id, job) => if id in jobs then jobs else jobs[id := NewJob(job)]
    case Claim(id, workerID, now, staleAfter) =>
      if id in jobs && Claimable(jobs[id], now, staleAfter) then jobs[id := ClaimedJob(jobs[id], workerID, now)] else jobs
    case Sweep(now, staleAfter) => SweptJobs(jobs, now, staleAfter)
    case RecordCompletion(id, _, _, _, _, _) => if id in jobs then jobs[id := RecordedCompletion(jobs[id], op)] else jobs
    case RecordFailure(id, error, finishedAt) =>
      if id in jobs then jobs[id := RecordedFailure(jobs[id], error, finishedAt)] else jobs
    case _ =>
      var l := op.lease;
      if l.jobID in jobs && FenceMatches(jobs[l.jobID], l.workerID, l.attempt)
      then jobs[l.jobID := Written(jobs[l.jobID], op)] else jobs
  }

  ghost function OutcomeOf(jobs: Jobs, op: Op): Outcome {
    match op
    case Create(id, _) => if id in jobs then AlreadyExists else Done
    case Claim(id, workerID, now, staleAfter) =>
      if id !in jobs then NotFound
      else if !Claimable(jobs[id], now, staleAfter) then NotClaimable
      else Claimed(Lease(id, workerID, jobs[id].attempt + 1))
    case Sweep(now, staleAfter) => Swept(|SweptIDs(jobs, now, staleAfter)|)
    case RecordCompletion(id, _, _, _, _, _) => if id in jobs then Done else NotFound
    case RecordFailure(id, _, _) => if id in jobs then Done else NotFound
    case _ =>
      var l := op.lease;
      if l.jobID !in jobs then NotFound
      else if !FenceMatches(jobs[l.jobID], l.workerID, l.attempt) then ClaimLost
      else Done
  }

  // ----- the store -----

  class Store {
    var jobs: Jobs

    constructor ()
      ensures jobs == map[]
    {
      jobs := map[];
    }

    method CreateJob(jobID: string, job: Job) returns (r: Outcome)
      modifies this
      ensures jobs == After(old(jobs), Create(jobID, job)) && r == OutcomeOf(old(jobs), Create(jobID, job))
    {
      if jobID in jobs { return AlreadyExists; }
      jobs := jobs[jobID := NewJob(job)];
      return Done;
    }

    method RecordCompletion(jobID: string, attempt: int, finishedAt: int, report: string, findings: seq<Row>,
                            diagnostics: seq<Row>)
      returns (r: Outcome)
      modifies this
      ensures var op := Op.RecordCompletion(jobID, attempt, finishedAt, report, findings, diagnostics);
              jobs == After(old(jobs), op) && r == OutcomeOf(old(jobs), op)
    {
      if jobID !in jobs { return NotFound; }
      var j := jobs[jobID].(status := Completed, attempt := attempt, finishedAt := Some(finishedAt), error := None);
      jobs := jobs[jobID := j.(report := Some(report), findings := findings, diagnostics := diagnostics)];
      return Done;
    }

    method RecordFailure(jobID: string, error: string, finishedAt: int) returns (r: Outcome)
      modifies this
      ensures jobs == After(old(jobs), Op.RecordFailure(jobID, error, finishedAt))
      ensures r == OutcomeOf(old(jobs), Op.RecordFailure(jobID, error, finishedAt))
    {
      if jobID !in jobs { return NotFound; }
      jobs := jobs[jobID := jobs[jobID].(status := Failed, error := Some(error), finishedAt := Some(finishedAt))];
      return Done;
    }

    method ClaimJob(jobID: string, workerID: string, now: int, staleAfter: int) returns (r: Outcome)
      modifies this
      ensures jobs == After(old(jobs), Claim(jobID, workerID, now, staleAfter))
      ensures r == OutcomeOf(old(jobs), Claim(jobID, workerID, now, staleAfter))
    {
      if jobID !in jobs { return NotFound; }
      var j := jobs[jobID];
      match j.status {
        case Queued =>
        case Running =>
          if j.heartbeatAt.Some? && now - j.heartbeatAt.value < staleAfter { return NotClaimable; }
        case _ => return NotClaimable;
      }
      var attempt := j.attempt + 1;
      jobs := jobs[jobID := Job(Running, Some(workerID), Some(now), attempt, Some(now), None, None, j.createdAt, [], [], None)];
      return Claimed(Lease(jobID, workerID, attempt));
    }

    /** Heartbeat, InsertFindings, InsertDiagnostics, CompleteJob, FailJob and ReleaseClaim: the same check of
        the fence, then the write. */
    method Write(op: Op) returns (r: Outcome)
      requires Fenced(op)
      modifies this
      ensures jobs == After(old(jobs), op) && r == OutcomeOf(old(jobs), op)
    {
      var l := op.lease;
      if l.jobID !in jobs { return NotFound; }
      var j := jobs[l.jobID];
      if !FenceMatches(j, l.workerID, l.attempt) { return ClaimLost; }
      match op {
        case Heartbeat(_, now) => j := j.(heartbeatAt := Some(now));
        case InsertFindings(_, rows) => j := j.(findings := j.findings + Stamp(rows, l.jobID, l.attempt));
        case InsertDiagnostics(_, rows) => j := j.(diagnostics := j.diagnostics + Stamp(rows, l.jobID, l.attempt));
        case Complete(_, finishedAt, report, findings, diagnostics) =>
          j := j.(status := Completed, attempt := l.attempt, finishedAt := Some(finishedAt), error := None);
          j := j.(report := Some(report));
          assert j.findings + [] == j.findings && j.diagnostics + [] == j.diagnostics;
          if |findings| > 0 { j := j.(findings := j.findings + Stamp(findings, l.jobID, l.attempt)); }
          if |diagnostics| > 0 { j := j.(diagnostics := j.diagnostics + Stamp(diagnostics, l.jobID, l.attempt)); }
        case Fail(_, error, finishedAt) => j := j.(status := Failed, error := Some(error), finishedAt := Some(finishedAt));
        case Release(_) => j := j.(status := Queued, claimedBy := None, heartbeatAt := None);
      }
      jobs := jobs[l.jobID := j];
      return Done;
    }

    method ReleaseStaleRunning(now: int, staleAfter: int) returns (released: nat)
      modifies this
      ensures jobs == After(old(jobs), Sweep(now, staleAfter)) && Swept(released) == OutcomeOf(old(jobs), Sweep(now, staleAfter))
    {
      jobs, released := ReleaseEach(jobs, now, staleAfter);
    }
  }

  /** The loop over the jobs, in whatever order the map yields them. */
  method ReleaseEach(was: Jobs, now: int, staleAfter: int) returns (jobs: Jobs, released: nat)
    ensures jobs == SweptJobs(was, now, staleAfter) && released == |SweptIDs(was, now, staleAfter)|
  {
    jobs, released := was, 0;
    var rest := was.Keys;
    SweepEnds(was, now, staleAfter);
    while rest != {}
      invariant rest <= was.Keys && jobs == SweptExcept(was, rest, now, staleAfter)
      invariant released == |SweptIDs(was, now, staleAfter) - rest|
    {
      var id :| id in rest;
      var j := jobs[id];
      OneMoreSwept(was, rest, id, now, staleAfter);
      rest := rest - {id};
      if j.status != Running || (j.heartbeatAt.Some? && now - j.heartbeatAt.value < staleAfter) { continue; }
      jobs := jobs[id := ReleasedJob(j)];
      released := released + 1;
    }
  }

  /** The sweep so far, with the jobs in `rest` still to come. */
  ghost function SweptExcept(jobs: Jobs, rest: set<string>, now: int, staleAfter: int): Jobs {
    map id | id in jobs :: if id !in rest && Sweepable(jobs[id], now, staleAfter) then ReleasedJob(jobs[id]) else jobs[id]
  }

  lemma SweepEnds(jobs: Jobs, now: int, staleAfter: int)
    ensures SweptExcept(jobs, jobs.Keys, now, staleAfter) == jobs
    ensures |SweptIDs(jobs, now, staleAfter) - jobs.Keys| == 0
    ensures SweptExcept(jobs, {}, now, staleAfter) == SweptJobs(jobs, now, staleAfter)
    ensures SweptIDs(jobs, now, staleAfter) - {} == SweptIDs(jobs, now, staleAfter)
  {
    assert SweptIDs(jobs, now, staleAfter) - jobs.Keys == {};
  }

  lemma OneMoreSwept(jobs: Jobs, rest: set<string>, id: string, now: int, staleAfter: int)
    requires rest <= jobs.Keys && id in rest
    ensures SweptExcept(jobs, rest, now, staleAfter)[id] == jobs[id]
    ensures SweptExcept(jobs, rest - {id}, now, staleAfter) ==
            if Sweepable(jobs[id], now, staleAfter) then SweptExcept(jobs, rest, now, staleAfter)[id := ReleasedJob(jobs[id])]
            else SweptExcept(jobs, rest, now, staleAfter)
    ensures |SweptIDs(jobs, now, staleAfter) - (rest - {id})| ==
            |SweptIDs(jobs, now, staleAfter) - rest| + if Sweepable(jobs[id], now, staleAfter) then 1 else 0
  {
    var swept := SweptIDs(jobs, now, staleAfter);
    if id in swept {
      assert swept - (rest - {id}) == (swept - rest) + {id};
    } else {
      assert swept - (rest - {id}) == swept - rest;
    }
  }
}
