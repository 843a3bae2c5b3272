/** Any number of workers, the reconciler and the service interleave on the offer tables; workers may
    stall, crash or come back late. */
module OfferRuns {
  import opened Basics
  import opened OfferPipeline

  datatype Phase = Claimed | Budgeted | Calling | Answered

  datatype Worker = Worker(ticket: Ticket, phase: Phase)

  /** `done` only records the past: each persisted result with the lease version that wrote it. */
  datatype Pipeline = Pipeline(db: OfferDb, workers: map<nat, Worker>, done: seq<(string, nat)>)

  datatype Step =
    | NewJob(job: string, request: string, maxRetries: int)
    | Claim(id: nat, job: string, request: string, until: int)
    | Grant(id: nat)
    | InsertRun(id: nat)
    | Answer(id: nat)
    | Fail(id: nat, code: ErrorCode)
    | RejectOutput(id: nat)
    | Persist(id: nat, outcome: RunOutcome)
    | Crash(id: nat)
    | Reconcile(job: string)
    | Service(request: string, status: RequestStatus)

  /** The failures a worker can meet in each phase, and whether it calls them retryable. */
  predicate CanMeet(phase: Phase, code: ErrorCode) {
    match phase
    case Claimed => code == BudgetExhausted
    case Budgeted => code == SnapshotBuildFailed
    case Calling => code in {RateLimited, Unavailable, UnknownError}
    case Answered => false
  }

  predicate Retryable(code: ErrorCode) {
    code in {RateLimited, Unavailable, SnapshotBuildFailed}
  }

  predicate At(p: Pipeline, id: nat, phase: Phase) {
    id in p.workers && p.workers[id].phase == phase
  }

  function Gone(p: Pipeline, id: nat): Pipeline { p.(workers := p.workers - {id}) }

  function Moving(p: Pipeline, id: nat, phase: Phase): Pipeline
    requires id in p.workers
  {
    p.(workers := p.workers[id := p.workers[id].(phase := phase)])
  }

  function Next(p: Pipeline, s: Step): Pipeline {
    match s
    case NewJob(job, request, maxRetries) =>
      if job in p.db.jobs || job in p.db.runs then p
      else p.(db := p.db.(jobs := p.db.jobs[job := JobRow(request, Queued, 0, maxRetries, 0, None, 0, None)],
                          requests := p.db.requests[request := RequestQueued]))
    case Claim(id, job, request, until) =>
      if id in p.workers || job !in p.db.jobs then p
      else p.(db := AfterClaim(p.db, job, request, until),
              workers := p.workers[id := Worker(ClaimTicket(p.db, job, request), Claimed)])
    case Grant(id) => if At(p, id, Claimed) then Moving(p, id, Budgeted) else p
    case InsertRun(id) =>
      if !At(p, id, Budgeted) then p
      else
        var t := p.workers[id].ticket;
        // The UNIQUE violation is not among the exceptions run() handles: the worker gives up on the spot.
        if t.job in p.db.runs then Gone(p, id)
        else Moving(p.(db := p.db.(runs := p.db.runs[t.job := AgentRun(None, t.lease)])), id, Calling)
    case Answer(id) => if At(p, id, Calling) then Moving(p, id, Answered) else p
    case Fail(id, code) =>
      if id in p.workers && CanMeet(p.workers[id].phase, code)
      then Gone(p.(db := AfterFail(p.db, p.workers[id].ticket, code, Retryable(code))), id) else p
    case RejectOutput(id) =>
      // The run row is set to an outcome the CHECK on agent_runs refuses, so nothing after it runs.
      if At(p, id, Answered) then Gone(p, id) else p
    case Persist(id, outcome) =>
      if !At(p, id, Answered) then p
      else
        var t := p.workers[id].ticket;
        Gone(Pipeline(AfterPersist(p.db, t, outcome), p.workers,
                      if Owns(p.db, t) then p.done + [(t.job, t.lease)] else p.done), id)
    case Crash(id) => Gone(p, id)
    case Reconcile(job) => p.(db := AfterReconcile(p.db, job))
    case Service(request, status) => p.(db := p.db.(requests := Moved(p.db.requests, request, status)))
  }

  function Run(p: Pipeline, steps: seq<Step>): Pipeline {
    if steps == [] then p else Next(Run(p, steps[..|steps| - 1]), steps[|steps| - 1])
  }

  const START: Pipeline := Pipeline(OfferDb(map[], map[], map[], []), map[], [])

  // ---------------------------------------------------------------------------
  // Invariant
  // ---------------------------------------------------------------------------

  /** The run of the job is the worker's own exactly once it has inserted it. */
  ghost predicate RunFits(p: Pipeline, w: Worker) {
    var t := w.ticket;
    && (w.phase == Claimed || w.phase == Budgeted ==> t.job in p.db.runs ==> p.db.runs[t.job].creator != t.lease)
    && (w.phase == Calling || w.phase == Answered ==> t.job in p.db.runs && p.db.runs[t.job].creator == t.lease)
  }

  /** While the lease is current the remembered error fields are the row's. */
  ghost predicate LeaseFits(p: Pipeline, w: Worker) {
    var t := w.ticket;
    && t.job in p.db.jobs && 1 <= t.lease <= p.db.jobs[t.job].leaseVersion
    && (Owns(p.db, t) ==> t.priorError == p.db.jobs[t.job].lastError && t.priorRepeat == p.db.jobs[t.job].errorRepeat)
  }

  ghost predicate WorkerOk(p: Pipeline, w: Worker) { RunFits(p, w) && LeaseFits(p, w) }

  ghost predicate DoneOk(p: Pipeline, d: (string, nat)) {
    && d.0 in p.db.runs && p.db.runs[d.0].creator == d.1
    && (forall id :: id in p.workers ==> p.workers[id].ticket.job != d.0 || p.workers[id].ticket.lease != d.1)
  }

  ghost predicate WorkersOk(p: Pipeline) {
    forall id :: id in p.workers ==> WorkerOk(p, p.workers[id])
  }

  ghost predicate LeasesDistinct(p: Pipeline) {
    forall a, b :: a in p.workers && b in p.workers && a != b ==>
      p.workers[a].ticket.job != p.workers[b].ticket.job || p.workers[a].ticket.lease != p.workers[b].ticket.lease
  }

  ghost predicate RunsOk(p: Pipeline) {
    forall j :: j in p.db.runs ==> j in p.db.jobs && 1 <= p.db.runs[j].creator <= p.db.jobs[j].leaseVersion
  }

  ghost predicate AllDoneOk(p: Pipeline) {
    forall d :: d in p.done ==> DoneOk(p, d)
  }

  ghost predicate DoneOnce(p: Pipeline) {
    forall i, k :: 0 <= i < k < |p.done| ==> p.done[i].0 != p.done[k].0
  }

  ghost predicate IsDone(p: Pipeline, job: string) {
    exists d :: d in p.done && d.0 == job
  }

  ghost predicate ResultsOk(p: Pipeline) {
    forall j :: j in p.db.runs ==> (p.db.runs[j].outcome.Some? <==> IsDone(p, j))
  }

  ghost predicate RepeatsOk(p: Pipeline) {
    forall j :: j in p.db.jobs ==> p.db.jobs[j].errorRepeat <= p.db.jobs[j].retryCount
  }

  ghost predicate Inv(p: Pipeline) {
    && WorkersOk(p) && LeasesDistinct(p) && RunsOk(p) && AllDoneOk(p)
    && DoneOnce(p) && ResultsOk(p) && RepeatsOk(p)
  }

  predicate OwnerFails(p: Pipeline, s: Step, j: string) {
    s.Fail? && s.id in p.workers && p.workers[s.id].ticket.job == j && Owns(p.db, p.workers[s.id].ticket)
  }

  /** A step never lowers a lease version, and changes the error fields of a job only as its owner
      or together with the version. */
  lemma JobsStep(p: Pipeline, s: Step)
    requires WorkersOk(p)
    ensures var jobs, jobs' := p.db.jobs, Next(p, s).db.jobs;
      forall j :: j in jobs ==>
        && j in jobs' && jobs[j].leaseVersion <= jobs'[j].leaseVersion
        && (jobs'[j].leaseVersion == jobs[j].leaseVersion && !OwnerFails(p, s, j) ==>
              jobs'[j].lastError == jobs[j].lastError && jobs'[j].errorRepeat == jobs[j].errorRepeat)
  {
    forall j | j in p.db.jobs
      ensures j in Next(p, s).db.jobs && RowStepOk(p.db.jobs[j], Next(p, s).db.jobs[j], OwnerFails(p, s, j))
    {
      JobStep(p, s, j);
    }
  }

  predicate RowStepOk(row: JobRow, row': JobRow, failed: bool) {
    && row.leaseVersion <= row'.leaseVersion
    && (row'.leaseVersion == row.leaseVersion && !failed ==>
          row'.lastError == row.lastError && row'.errorRepeat == row.errorRepeat)
  }

  lemma JobStep(p: Pipeline, s: Step, j: string)
    requires WorkersOk(p) && j in p.db.jobs
    ensures j in Next(p, s).db.jobs && RowStepOk(p.db.jobs[j], Next(p, s).db.jobs[j], OwnerFails(p, s, j))
  {
  }

  lemma RunsStep(p: Pipeline, s: Step)
    requires WorkersOk(p)
    ensures forall j :: j in p.db.runs ==>
      j in Next(p, s).db.runs && Next(p, s).db.runs[j].creator == p.db.runs[j].creator
    ensures forall j :: j in Next(p, s).db.runs && j !in p.db.runs ==>
      s.InsertRun? && At(p, s.id, Budgeted) && p.workers[s.id].ticket.job == j
      && Next(p, s).db.runs[j].creator == p.workers[s.id].ticket.lease
  {
  }

  lemma WorkersStep(p: Pipeline, s: Step)
    requires WorkersOk(p) && LeasesDistinct(p) && RunsOk(p)
    ensures WorkersOk(Next(p, s))
  {
    var p' := Next(p, s);
    JobsStep(p, s);
    RunsStep(p, s);
    forall o | o in p'.workers ensures WorkerOk(p', p'.workers[o]) {
      if o in p.workers {
        OldWorkerRun(p, s, o);
        OldWorkerLease(p, s, o);
      }
    }
  }

  lemma OldWorkerRun(p: Pipeline, s: Step, o: nat)
    requires WorkersOk(p) && LeasesDistinct(p) && o in p.workers && o in Next(p, s).workers
    ensures Next(p, s).workers[o].ticket == p.workers[o].ticket && RunFits(Next(p, s), Next(p, s).workers[o])
  {
    RunsStep(p, s);
    var w, w' := p.workers[o], Next(p, s).workers[o];
    assert WorkerOk(p, w) && w'.ticket == w.ticket;
    assert w'.phase != w.phase ==> (s.Grant? || s.InsertRun? || s.Answer?) && s.id == o;
  }

  lemma OldWorkerLease(p: Pipeline, s: Step, o: nat)
    requires WorkersOk(p) && LeasesDistinct(p) && o in p.workers && o in Next(p, s).workers
    requires Next(p, s).workers[o].ticket == p.workers[o].ticket
    ensures LeaseFits(Next(p, s), Next(p, s).workers[o])
  {
    JobsStep(p, s);
    assert WorkerOk(p, p.workers[o]);
    assert s.Fail? && s.id in p.workers ==> WorkerOk(p, p.workers[s.id]);
  }

  lemma LeasesStep(p: Pipeline, s: Step)
    requires WorkersOk(p) && LeasesDistinct(p)
    ensures LeasesDistinct(Next(p, s))
  {
    var p' := Next(p, s);
    forall a, b | a in p'.workers && b in p'.workers && a != b
      ensures
        || p'.workers[a].ticket.job != p'.workers[b].ticket.job
        || p'.workers[a].ticket.lease != p'.workers[b].ticket.lease
    {
      if a in p.workers { assert WorkerOk(p, p.workers[a]); }
      if b in p.workers { assert WorkerOk(p, p.workers[b]); }
    }
  }

  lemma RunsOkStep(p: Pipeline, s: Step)
    requires WorkersOk(p) && RunsOk(p)
    ensures RunsOk(Next(p, s))
  {
    JobsStep(p, s);
    RunsStep(p, s);
    if s.InsertRun? && s.id in p.workers { assert WorkerOk(p, p.workers[s.id]); }
  }

  /** The worker that persists is the creator of the run, and had not persisted before. */
  lemma PersistIsFirst(p: Pipeline, id: nat)
    requires WorkersOk(p) && AllDoneOk(p) && At(p, id, Answered)
    ensures !IsDone(p, p.workers[id].ticket.job)
  {
    var t := p.workers[id].ticket;
    assert WorkerOk(p, p.workers[id]);
    forall d | d in p.done ensures d.0 != t.job {
      assert DoneOk(p, d);
    }
  }

  lemma DoneStep(p: Pipeline, s: Step)
    requires WorkersOk(p) && LeasesDistinct(p) && RunsOk(p) && AllDoneOk(p) && DoneOnce(p)
    ensures AllDoneOk(Next(p, s)) && DoneOnce(Next(p, s))
  {
    var p' := Next(p, s);
    RunsStep(p, s);
    if s.Persist? && At(p, s.id, Answered) {
      PersistIsFirst(p, s.id);
      assert WorkerOk(p, p.workers[s.id]);
      var t := p.workers[s.id].ticket;
      forall i | 0 <= i < |p.done| ensures p.done[i].0 != t.job { assert p.done[i] in p.done; }
    }
    forall d | d in p'.done ensures DoneOk(p', d) {
      if d in p.done { assert DoneOk(p, d); OldDoneOk(p, s, d); }
    }
  }

  lemma OldDoneOk(p: Pipeline, s: Step, d: (string, nat))
    requires WorkersOk(p) && RunsOk(p) && DoneOk(p, d)
    ensures DoneOk(Next(p, s), d)
  {
    RunsStep(p, s);
    assert p.db.runs[d.0].creator <= p.db.jobs[d.0].leaseVersion;
  }

  lemma ResultsStep(p: Pipeline, s: Step)
    requires WorkersOk(p) && AllDoneOk(p) && ResultsOk(p)
    ensures ResultsOk(Next(p, s))
  {
    var p' := Next(p, s);
    RunsStep(p, s);
    forall d | d in p.done ensures d.0 in p.db.runs { assert DoneOk(p, d); }
    forall j | j in p'.db.runs ensures p'.db.runs[j].outcome.Some? <==> IsDone(p', j) {
      if s.Persist? && At(p, s.id, Answered) && Owns(p.db, p.workers[s.id].ticket) {
        assert WorkerOk(p, p.workers[s.id]);
        var d := (p.workers[s.id].ticket.job, p.workers[s.id].ticket.lease);
        assert p'.done == p.done + [d] && d in p'.done;
        assert IsDone(p', j) <==> IsDone(p, j) || d.0 == j;
      } else {
        assert p'.done == p.done;
        assert IsDone(p', j) <==> IsDone(p, j);
      }
    }
  }

  lemma RepeatsStep(p: Pipeline, s: Step)
    requires WorkersOk(p) && RepeatsOk(p)
    ensures RepeatsOk(Next(p, s))
  {
    if s.Fail? && s.id in p.workers { assert WorkerOk(p, p.workers[s.id]); }
  }

  lemma InvStep(p: Pipeline, s: Step)
    requires Inv(p)
    ensures Inv(Next(p, s))
  {
    WorkersStep(p, s);
    LeasesStep(p, s);
    RunsOkStep(p, s);
    DoneStep(p, s);
    ResultsStep(p, s);
    RepeatsStep(p, s);
  }

  lemma {:induction false} InvKept(p: Pipeline, steps: seq<Step>)
    requires Inv(p)
    ensures Inv(Run(p, steps))
  {
    if steps != [] {
      InvKept(p, steps[..|steps| - 1]);
      InvStep(Run(p, steps[..|steps| - 1]), steps[|steps| - 1]);
    }
  }

  // ---------------------------------------------------------------------------
  // Fencing
  // ---------------------------------------------------------------------------

  /** A worker whose lease is no longer current changes nothing by persisting or failing; one whose lease
      is current always does. */
  lemma FenceIff(db: OfferDb, t: Ticket, outcome: RunOutcome, code: ErrorCode)
    requires t.job in db.jobs
    ensures AfterPersist(db, t, outcome) == db <==> !Owns(db, t)
    ensures !Owns(db, t) ==> AfterFail(db, t, code, Retryable(code)) == db
    ensures Owns(db, t) ==>
      var row := AfterFail(db, t, code, Retryable(code)).jobs[t.job];
      row.status != Running && row.retryCount == db.jobs[t.job].retryCount + 1 && row.lastError == Some(code)
  {
    if Owns(db, t) {
      assert |AfterPersist(db, t, outcome).outbox| == |db.outbox| + 1;
    }
  }

  /** Lease versions only grow along a run, so every claim is handed a version none before it had. */
  lemma {:induction false} LeasesGrow(p: Pipeline, steps: seq<Step>, job: string)
    requires Inv(p) && job in p.db.jobs
    ensures job in Run(p, steps).db.jobs
    ensures p.db.jobs[job].leaseVersion <= Run(p, steps).db.jobs[job].leaseVersion
    ensures forall request :: ClaimTicket(Run(p, steps).db, job, request).lease > p.db.jobs[job].leaseVersion
  {
    if steps != [] {
      var n := |steps| - 1;
      LeasesGrow(p, steps[..n], job);
      InvKept(p, steps[..n]);
      JobsStep(Run(p, steps[..n]), steps[n]);
    }
  }

  function Results(done: seq<(string, nat)>, job: string): nat {
    if done == [] then 0
    else Results(done[..|done| - 1], job) + (if done[|done| - 1].0 == job then 1 else 0)
  }

  lemma {:induction false} ResultsOnce(done: seq<(string, nat)>, job: string)
    requires forall i, k :: 0 <= i < k < |done| ==> done[i].0 != done[k].0
    ensures Results(done, job) <= 1
    ensures Results(done, job) == 0 <==> forall d :: d in done ==> d.0 != job
  {
    if done != [] {
      var n := |done| - 1;
      ResultsOnce(done[..n], job);
      assert forall d :: d in done <==> d in done[..n] || d == done[n];
      if done[n].0 == job {
        forall d | d in done[..n] ensures d.0 != job {
          var i :| 0 <= i < n && done[i] == d;
        }
      }
    }
  }

  /** In every run each job gets at most one result, and it was written by the worker that created the
      job's only agent run. */
  lemma AtMostOneResult(steps: seq<Step>, job: string)
    ensures var p := Run(START, steps);
      && Results(p.done, job) <= 1
      && (forall d :: d in p.done && d.0 == job ==> job in p.db.runs && p.db.runs[job].creator == d.1)
      && (job in p.db.runs ==> (p.db.runs[job].outcome.Some? <==> Results(p.done, job) == 1))
  {
    InvKept(START, steps);
    var p := Run(START, steps);
    ResultsOnce(p.done, job);
    forall d | d in p.done && d.0 == job ensures job in p.db.runs && p.db.runs[job].creator == d.1 {
      assert DoneOk(p, d);
    }
  }

  // ---------------------------------------------------------------------------
  // What a retry can still achieve
  // ---------------------------------------------------------------------------

  ghost predicate Overtaken(p: Pipeline, job: string) {
    job in p.db.runs && job in p.db.jobs && p.db.runs[job].creator < p.db.jobs[job].leaseVersion
  }

  lemma OvertakenStep(m: Pipeline, s: Step, job: string)
    requires WorkersOk(m) && Overtaken(m, job)
    ensures Results(Next(m, s).done, job) == Results(m.done, job) && Overtaken(Next(m, s), job)
  {
    JobsStep(m, s);
    RunsStep(m, s);
    if s.Persist? && At(m, s.id, Answered) {
      assert WorkerOk(m, m.workers[s.id]);
      var t := m.workers[s.id].ticket;
      if Owns(m.db, t) {
        assert Next(m, s).done == m.done + [(t.job, t.lease)];
        assert Next(m, s).done[..|m.done|] == m.done;
      }
    }
  }

  /** Once the lease has moved past the creator of the agent run, no later step gives the job a result. */
  lemma {:induction false} RetryIsDeadEnd(p: Pipeline, steps: seq<Step>, job: string)
    requires Inv(p) && Overtaken(p, job)
    ensures Results(Run(p, steps).done, job) == Results(p.done, job) && Overtaken(Run(p, steps), job)
  {
    if steps != [] {
      var n := |steps| - 1;
      RetryIsDeadEnd(p, steps[..n], job);
      InvKept(p, steps[..n]);
      OvertakenStep(Run(p, steps[..n]), steps[n], job);
    }
  }

  // ---------------------------------------------------------------------------
  // A worker that gives up after inserting its run
  // ---------------------------------------------------------------------------

  /** The job has an agent run, and the worker that inserted it is no more. */
  ghost predicate Orphaned(p: Pipeline, job: string) {
    && job in p.db.runs
    && forall id :: id in p.workers && p.workers[id].ticket.job == job ==>
         p.workers[id].ticket.lease != p.db.runs[job].creator
  }

  /** Only the creator of the run can give the job a result. */
  lemma ResultNeedsCreator(m: Pipeline, s: Step, job: string)
    requires WorkersOk(m) && job in m.db.runs
    requires !(s.Persist? && At(m, s.id, Answered) && m.workers[s.id].ticket.job == job)
    ensures Results(Next(m, s).done, job) == Results(m.done, job)
  {
    if s.Persist? && At(m, s.id, Answered) {
      var t := m.workers[s.id].ticket;
      if Owns(m.db, t) {
        assert Next(m, s).done == m.done + [(t.job, t.lease)];
        assert Next(m, s).done[..|m.done|] == m.done;
      }
    }
  }

  lemma OrphanedStep(m: Pipeline, s: Step, job: string)
    requires WorkersOk(m) && RunsOk(m) && Orphaned(m, job)
    ensures Results(Next(m, s).done, job) == Results(m.done, job) && Orphaned(Next(m, s), job)
    ensures Next(m, s).db.runs[job] == m.db.runs[job]
  {
    RunsStep(m, s);
    assert s.Persist? && At(m, s.id, Answered) ==> WorkerOk(m, m.workers[s.id]);
    ResultNeedsCreator(m, s, job);
  }

  /** Once the creator of a job's agent run is gone, nothing that happens later gives the job a result. */
  lemma {:induction false} OrphanIsDeadEnd(p: Pipeline, steps: seq<Step>, job: string)
    requires Inv(p) && Orphaned(p, job)
    ensures Results(Run(p, steps).done, job) == Results(p.done, job) && Orphaned(Run(p, steps), job)
    ensures Run(p, steps).db.runs[job] == p.db.runs[job]
  {
    if steps != [] {
      var n := |steps| - 1;
      OrphanIsDeadEnd(p, steps[..n], job);
      InvKept(p, steps[..n]);
      OrphanedStep(Run(p, steps[..n]), steps[n], job);
    }
  }

  /** No worker holds the current lease of the job. */
  ghost predicate Unattended(p: Pipeline, job: string) {
    && job in p.db.jobs
    && forall id :: id in p.workers && p.workers[id].ticket.job == job ==> !Owns(p.db, p.workers[id].ticket)
  }

  predicate Revives(s: Step, job: string) {
    (s.Claim? || s.Reconcile?) && s.job == job
  }

  ghost predicate NoneRevives(steps: seq<Step>, job: string) {
    forall k :: 0 <= k < |steps| ==> !Revives(steps[k], job)
  }

  lemma UnattendedStep(m: Pipeline, s: Step, job: string)
    requires WorkersOk(m) && Unattended(m, job) && !Revives(s, job)
    ensures Unattended(Next(m, s), job) && Next(m, s).db.jobs[job] == m.db.jobs[job]
  {
  }

  lemma {:induction false} UnattendedWaits(p: Pipeline, steps: seq<Step>, job: string)
    requires Inv(p) && Unattended(p, job) && NoneRevives(steps, job)
    ensures Unattended(Run(p, steps), job) && Run(p, steps).db.jobs[job] == p.db.jobs[job]
  {
    if steps != [] {
      var n := |steps| - 1;
      UnattendedWaits(p, steps[..n], job);
      InvKept(p, steps[..n]);
      UnattendedStep(Run(p, steps[..n]), steps[n], job);
    }
  }

  /** The rejecting worker was the creator of the run and the holder of the lease, and there is no other. */
  lemma RejectAbandons(p: Pipeline, id: nat)
    requires Inv(p) && At(p, id, Answered) && Owns(p.db, p.workers[id].ticket)
    ensures var p', job := Next(p, RejectOutput(id)), p.workers[id].ticket.job;
      p'.db == p.db && p'.done == p.done && Orphaned(p', job) && Unattended(p', job)
  {
    var t := p.workers[id].ticket;
    assert WorkerOk(p, p.workers[id]);
    var p' := Next(p, RejectOutput(id));
    forall o | o in p'.workers && p'.workers[o].ticket.job == t.job ensures p'.workers[o].ticket.lease != t.lease {
      assert o in p.workers && o != id;
    }
  }

  /** A worker whose output is rejected gives up before it has failed the job. In every continuation the job never
      gets a result; and until someone claims it again or the reconciler takes it, its row stays exactly as it is,
      still running. */
  lemma RejectedJob(p: Pipeline, id: nat, steps: seq<Step>)
    requires Inv(p) && At(p, id, Answered) && Owns(p.db, p.workers[id].ticket)
    ensures Next(p, RejectOutput(id)).db == p.db
    ensures var job := p.workers[id].ticket.job;
      var p' := Run(Next(p, RejectOutput(id)), steps);
      && Results(p'.done, job) == Results(p.done, job)
      && (NoneRevives(steps, job) ==> job in p.db.jobs && job in p'.db.jobs && p'.db.jobs[job] == p.db.jobs[job])
  {
    var job, p1 := p.workers[id].ticket.job, Next(p, RejectOutput(id));
    RejectAbandons(p, id);
    InvStep(p, RejectOutput(id));
    OrphanIsDeadEnd(p1, steps, job);
    if NoneRevives(steps, job) { UnattendedWaits(p1, steps, job); }
  }

  /** A worker that has just claimed a job with the current lease can still bring it a result. */
  ghost predicate CanFinish(p: Pipeline, id: nat)
    requires id in p.workers
  {
    exists steps :: Results(Run(p, steps).done, p.workers[id].ticket.job) > Results(p.done, p.workers[id].ticket.job)
  }

  /** The documented retry: the same job claimed again completes if and only if no earlier attempt got as
      far as inserting its agent run. */
  lemma ClaimCanFinishIff(p: Pipeline, id: nat)
    requires Inv(p) && At(p, id, Claimed) && Owns(p.db, p.workers[id].ticket)
    ensures CanFinish(p, id) <==> p.workers[id].ticket.job !in p.db.runs
  {
    var t := p.workers[id].ticket;
    assert WorkerOk(p, p.workers[id]);
    if t.job in p.db.runs {
      forall steps ensures Results(Run(p, steps).done, t.job) == Results(p.done, t.job) {
        RetryIsDeadEnd(p, steps, t.job);
      }
    } else {
      var steps := [Grant(id), InsertRun(id), Answer(id), Persist(id, OfferGenerated)];
      HappyPath(p, id);
      assert Results(Run(p, steps).done, t.job) > Results(p.done, t.job);
    }
  }

  lemma HappyPath(p: Pipeline, id: nat)
    requires At(p, id, Claimed) && Owns(p.db, p.workers[id].ticket) && p.workers[id].ticket.job !in p.db.runs
    ensures var steps := [Grant(id), InsertRun(id), Answer(id), Persist(id, OfferGenerated)];
      Results(Run(p, steps).done, p.workers[id].ticket.job) == Results(p.done, p.workers[id].ticket.job) + 1
  {
    var steps := [Grant(id), InsertRun(id), Answer(id), Persist(id, OfferGenerated)];
    var t := p.workers[id].ticket;
    assert steps[..3][..2] == steps[..2] && steps[..2][..1] == steps[..1] && steps[..1][..0] == [];
    var p1 := Run(p, steps[..1]);
    assert p1 == Next(Run(p, steps[..1][..0]), Grant(id)) && Run(p, []) == p;
    assert At(p1, id, Budgeted) && p1.db == p.db && p1.done == p.done && p1.workers[id].ticket == t;
    var p2 := Run(p, steps[..2]);
    assert At(p2, id, Calling) && p2.db.jobs == p.db.jobs && p2.done == p.done && p2.workers[id].ticket == t;
    var p3 := Run(p, steps[..3]);
    assert At(p3, id, Answered) && p3.db.jobs == p.db.jobs && p3.done == p.done && p3.workers[id].ticket == t;
    assert steps[..|steps| - 1] == steps[..3];
    assert Run(p, steps).done == p.done + [(t.job, t.lease)];
    assert (p.done + [(t.job, t.lease)])[..|p.done|] == p.done;
  }

  // ---------------------------------------------------------------------------
  // Retries and poison detection
  // ---------------------------------------------------------------------------

  /** The step puts the job back in the queue. */
  predicate Requeues(p: Pipeline, s: Step, job: string) {
    && job in p.db.jobs && Next(p, s).db.jobs[job].status == Queued
    && (s.Fail? || s.Reconcile?) && Next(p, s).db != p.db && Next(p, s).db.jobs[job] != p.db.jobs[job]
  }

  function RequeueCount(p: Pipeline, steps: seq<Step>, job: string): nat {
    if steps == [] then 0
    else
      var n := |steps| - 1;
      RequeueCount(p, steps[..n], job) + (if Requeues(Run(p, steps[..n]), steps[n], job) then 1 else 0)
  }

  /** A job is put back in the queue at most max_retries times, by workers and reconciler together. */
  lemma {:induction false} RequeuesBounded(p: Pipeline, steps: seq<Step>, job: string)
    requires Inv(p) && job in p.db.jobs
    ensures var p' := Run(p, steps);
      && job in p'.db.jobs && p'.db.jobs[job].maxRetries == p.db.jobs[job].maxRetries
      && RequeueCount(p, steps, job) <= p'.db.jobs[job].retryCount - p.db.jobs[job].retryCount
      && (RequeueCount(p, steps, job) > 0 ==>
            p.db.jobs[job].retryCount + RequeueCount(p, steps, job) <= p.db.jobs[job].maxRetries)
  {
    if steps != [] {
      var n := |steps| - 1;
      var m := Run(p, steps[..n]);
      RequeuesBounded(p, steps[..n], job);
      InvKept(p, steps[..n]);
      RequeueStep(m, steps[n], job);
      assert Run(p, steps) == Next(m, steps[n]);
    }
  }

  lemma RequeueStep(p: Pipeline, s: Step, job: string)
    requires Inv(p) && job in p.db.jobs
    ensures job in Next(p, s).db.jobs
    ensures var row, row' := p.db.jobs[job], Next(p, s).db.jobs[job];
      && row'.maxRetries == row.maxRetries && row.retryCount <= row'.retryCount
      && (Requeues(p, s, job) ==> row'.retryCount == row.retryCount + 1 && row'.retryCount <= row.maxRetries)
  {
    if s.Fail? && s.id in p.workers { assert WorkerOk(p, p.workers[s.id]); }
  }

  /** Poison detection overrules a retry exactly when the same retryable error has now come three times in
      a row and retries remain; a job of at most three retries never gets there. */
  lemma PoisonDecidesIff(p: Pipeline, id: nat, code: ErrorCode)
    requires Inv(p) && id in p.workers && Owns(p.db, p.workers[id].ticket)
    ensures var t := p.workers[id].ticket;
      var row := p.db.jobs[t.job];
      var judged := Judge(row, t, code, Retryable(code), POISON_THRESHOLD);
      var unguarded := Judge(row, t, code, Retryable(code), row.retryCount + 2);
      && (judged.retry != unguarded.retry <==>
            Retryable(code) && row.lastError == Some(code) && row.errorRepeat + 1 >= POISON_THRESHOLD
            && row.retryCount + 1 < row.maxRetries)
      && (unguarded.retry <==> Retryable(code) && row.retryCount + 1 < row.maxRetries)
      && (row.maxRetries <= POISON_THRESHOLD ==> judged == unguarded)
  {
    assert WorkerOk(p, p.workers[id]);
  }

  // ---------------------------------------------------------------------------
  // Requests: the writes that ignore the transition table
  // ---------------------------------------------------------------------------

  /** The allowed moves of an offer request. */
  function OfferTargets(s: RequestStatus): set<RequestStatus> {
    match s
    case Submitted => {RequestQueued, RequestCancelled}
    case RequestQueued => {Processing, RequestCancelled}
    case Processing => {NeedsMoreInfo, NeedsReview, RequestFailed, RequestCancelled}
    case NeedsMoreInfo => {RequestQueued, RequestCancelled}
    case NeedsReview => {RequestCompleted, RequestCancelled}
    case RequestCompleted => {}
    case RequestFailed => {}
    case RequestCancelled => {}
  }

  ghost predicate Conforms(before: OfferDb, after: OfferDb, request: string)
    requires request in before.requests && request in after.requests
  {
    after.requests[request] in OfferTargets(before.requests[request])
  }

  /** Worker writes do not read the request's status. A claim follows the table only from `queued`, a result and a
      final failure only from `processing`. A retry follows it only from `submitted` or `needs_more_info`, so a retry
      from `processing`, where every claim leaves the request, always breaks the table. A cancelled or completed
      request is reopened by a claim and overwritten by a result. */
  lemma RequestWritesConformIff(db: OfferDb, t: Ticket, outcome: RunOutcome, code: ErrorCode, until: int)
    requires Owns(db, t) && t.request in db.requests
    ensures var r, current := t.request, db.requests[t.request];
      && (Conforms(db, AfterClaim(db, t.job, r, until), r) <==> current == RequestQueued)
      && (Conforms(db, AfterPersist(db, t, outcome), r) <==> current == Processing)
    ensures var r, current := t.request, db.requests[t.request];
      var retry := Judge(db.jobs[t.job], t, code, Retryable(code), POISON_THRESHOLD).retry;
      && (Conforms(db, AfterFail(db, t, code, Retryable(code)), r)
          <==> if retry then current in {Submitted, NeedsMoreInfo} else current == Processing)
      && (retry && current == Processing ==> !Conforms(db, AfterFail(db, t, code, Retryable(code)), r))
  {
  }

  /** The reconciler, by contrast, leaves terminal requests alone. */
  lemma ReconcilerSparesTerminal(db: OfferDb, job: string, request: string)
    requires request in db.requests && db.requests[request] in TERMINAL_REQUESTS
    ensures request in AfterReconcile(db, job).requests
    ensures AfterReconcile(db, job).requests[request] == db.requests[request]
  {
  }
}
