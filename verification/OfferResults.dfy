/** What each transaction of the offer pipeline says: which status it writes where, and what it announces. */
module OfferResults {
  import opened Basics
  import opened OfferPipeline
  import opened OfferRuns

  // ---------------------------------------------------------------------------
  // One transaction at a time
  // ---------------------------------------------------------------------------

  /** Every row but those named is as it was; no row is added or lost. */
  ghost predicate OnlyThese(before: OfferDb, after: OfferDb, job: string, request: string) {
    && before.jobs.Keys == after.jobs.Keys && before.requests.Keys == after.requests.Keys
    && before.runs.Keys == after.runs.Keys
    && (forall j :: j in before.jobs && j != job ==> after.jobs[j] == before.jobs[j])
    && (forall r :: r in before.requests && r != request ==> after.requests[r] == before.requests[r])
    && (forall j :: j in before.runs && j != job ==> after.runs[j] == before.runs[j])
  }

  ghost predicate Announces(before: OfferDb, after: OfferDb, request: string, job: string) {
    && |after.outbox| == |before.outbox| + 1 && before.outbox <= after.outbox
    && after.outbox[|before.outbox|].requestId == request && after.outbox[|before.outbox|].jobId == job
  }

  /** An owned result: a generated offer goes to review and says so, insufficient data asks for more and says so. */
  lemma PersistSays(db: OfferDb, t: Ticket, outcome: RunOutcome)
    requires Owns(db, t) && t.request in db.requests && t.job in db.runs
    ensures var after := AfterPersist(db, t, outcome);
      && OnlyThese(db, after, t.job, t.request)
      && after.jobs[t.job] == db.jobs[t.job].(status := Completed)
      && after.runs[t.job] == db.runs[t.job].(outcome := Some(outcome))
      && (after.requests[t.request] == NeedsReview <==> outcome == OfferGenerated)
      && (after.requests[t.request] == NeedsMoreInfo <==> outcome == InsufficientData)
    ensures var after := AfterPersist(db, t, outcome);
      && Announces(db, after, t.request, t.job)
      && (after.outbox[|db.outbox|].status == NeedsReview <==> outcome == OfferGenerated)
      && (after.outbox[|db.outbox|].status == NeedsMoreInfo <==> outcome == InsufficientData)
  {
  }

  /** The length the streak of one error has reached with this one. */
  function Streak(row: JobRow, code: ErrorCode): nat {
    if row.lastError == Some(code) then row.errorRepeat + 1 else 1
  }

  /** The error is retryable, retries remain, and it has not come three times in a row. */
  predicate TriedAgain(row: JobRow, code: ErrorCode) {
    && code in {RateLimited, Unavailable, SnapshotBuildFailed}
    && row.retryCount + 1 < row.maxRetries && Streak(row, code) < 3
  }

  lemma VerdictIs(p: Pipeline, id: nat, code: ErrorCode)
    requires Inv(p) && id in p.workers && Owns(p.db, p.workers[id].ticket)
    ensures var t := p.workers[id].ticket;
      var row := p.db.jobs[t.job];
      Judge(row, t, code, Retryable(code), POISON_THRESHOLD) ==
        Verdict(TriedAgain(row, code), row.retryCount + 1, Streak(row, code))
  {
    assert WorkerOk(p, p.workers[id]);
  }

  lemma RequeuedSays(db: OfferDb, t: Ticket, code: ErrorCode, retryCount: nat, repeated: nat)
    requires Owns(db, t) && t.request in db.requests
    ensures var row, after := db.jobs[t.job], Requeued(db, t, code, retryCount, repeated);
      && OnlyThese(db, after, t.job, t.request) && after.runs == db.runs && after.outbox == db.outbox
      && after.jobs[t.job] == row.(status := Queued, lastError := Some(code), retryCount := retryCount,
                                   errorRepeat := repeated)
      && after.requests[t.request] == RequestQueued
  {
  }

  lemma GivenUpSays(db: OfferDb, t: Ticket, code: ErrorCode, retryCount: nat, repeated: nat)
    requires Owns(db, t) && t.request in db.requests
    ensures var row, after := db.jobs[t.job], GivenUp(db, t, code, retryCount, repeated);
      && OnlyThese(db, after, t.job, t.request) && after.runs == db.runs
      && after.jobs[t.job] == row.(status := JobStatus.Failed, lastError := Some(code), retryCount := retryCount,
                                   errorRepeat := repeated)
      && after.requests[t.request] == RequestFailed
      && Announces(db, after, t.request, t.job) && after.outbox[|db.outbox|].status == RequestFailed
  {
  }

  /** An owned failure is one retry more and remembers its error with the length of its streak. The job is queued
      again, silently, if it is to be tried again; otherwise it has failed, and the failure is announced. */
  lemma FailSays(p: Pipeline, id: nat, code: ErrorCode)
    requires Inv(p) && id in p.workers && Owns(p.db, p.workers[id].ticket)
    requires p.workers[id].ticket.request in p.db.requests
    ensures var t, db := p.workers[id].ticket, p.db;
      var row, after := db.jobs[t.job], AfterFail(db, t, code, Retryable(code));
      var again := TriedAgain(row, code);
      && OnlyThese(db, after, t.job, t.request) && after.runs == db.runs
      && after.jobs[t.job] == row.(status := if again then Queued else JobStatus.Failed, lastError := Some(code),
                                   retryCount := row.retryCount + 1, errorRepeat := Streak(row, code))
      && after.requests[t.request] == (if again then RequestQueued else RequestFailed)
      && (again ==> after.outbox == db.outbox)
      && (!again ==> Announces(db, after, t.request, t.job) && after.outbox[|db.outbox|].status == RequestFailed)
  {
    var t, db := p.workers[id].ticket, p.db;
    var row := db.jobs[t.job];
    VerdictIs(p, id, code);
    if TriedAgain(row, code) {
      RequeuedSays(db, t, code, row.retryCount + 1, Streak(row, code));
      assert AfterFail(db, t, code, Retryable(code)) == Requeued(db, t, code, row.retryCount + 1, Streak(row, code));
    } else {
      GivenUpSays(db, t, code, row.retryCount + 1, Streak(row, code));
      assert AfterFail(db, t, code, Retryable(code)) == GivenUp(db, t, code, row.retryCount + 1, Streak(row, code));
    }
  }

  /** A claim puts the job to work under the next lease, which its ticket owns, and announces the processing. */
  lemma ClaimSays(db: OfferDb, job: string, request: string, until: int)
    requires job in db.jobs && request in db.requests
    ensures var after, t := AfterClaim(db, job, request, until), ClaimTicket(db, job, request);
      && OnlyThese(db, after, job, request) && after.runs == db.runs
      && after.jobs[job] == db.jobs[job].(status := Running, leasedUntil := Some(until),
                                          leaseVersion := db.jobs[job].leaseVersion + 1)
      && after.requests[request] == Processing
      && Announces(db, after, request, job) && after.outbox[|db.outbox|].status == Processing
      && t.job == job && t.request == request && Owns(after, t) && !Owns(db, t)
      && t.priorError == db.jobs[job].lastError && t.priorRepeat == db.jobs[job].errorRepeat
  {
  }

  /** The reconciler queues a running job again, silently, if retries remain, and otherwise fails it and announces
      that; both under the next lease. The request follows unless it is completed, failed or cancelled. */
  lemma ReconcileSays(db: OfferDb, job: string)
    requires job in db.jobs && db.jobs[job].status == Running && db.jobs[job].requestId in db.requests
    ensures var row, after := db.jobs[job], AfterReconcile(db, job);
      var request, again := row.requestId, row.retryCount < row.maxRetries;
      var ended := db.requests[request] in {RequestCompleted, RequestFailed, RequestCancelled};
      && OnlyThese(db, after, job, request) && after.runs == db.runs
      && after.jobs[job].leaseVersion == row.leaseVersion + 1
      && after.jobs[job].status == (if again then Queued else JobStatus.Failed)
      && after.jobs[job].retryCount == row.retryCount + (if again then 1 else 0)
      && after.jobs[job].lastError == (if again then row.lastError else Some(LeaseExpiredRetriesExhausted))
      && after.jobs[job].leasedUntil == (if again then None else row.leasedUntil)
      && after.requests[request] ==
           (if ended then db.requests[request] else if again then RequestQueued else RequestFailed)
      && (again ==> after.outbox == db.outbox)
      && (!again ==> Announces(db, after, request, job) && after.outbox[|db.outbox|].status == RequestFailed)
  {
  }

  /** The statuses the reconciler spares are those the transition table leaves no way out of. */
  lemma TerminalIff(s: RequestStatus)
    ensures s in TERMINAL_REQUESTS <==> OfferTargets(s) == {}
  {
    match s
    case Submitted => assert RequestQueued in OfferTargets(s);
    case RequestQueued => assert Processing in OfferTargets(s);
    case Processing => assert NeedsReview in OfferTargets(s);
    case NeedsMoreInfo => assert RequestQueued in OfferTargets(s);
    case NeedsReview => assert RequestCompleted in OfferTargets(s);
    case RequestCompleted =>
    case RequestFailed =>
    case RequestCancelled =>
  }

  /** A lease claimed until some moment is expired, for a pass at `now`, once two minutes have gone by since. */
  lemma LeaseExpiresIff(db: OfferDb, job: string, request: string, until: int, now: int)
    requires job in db.jobs && db.jobs[job].requestId in db.requests
    ensures var after := AfterClaim(db, job, request, until);
      Expired(after.jobs, after.requests, job, now - LEASE_GRACE_SECONDS, {}) <==> now > until + 120
  {
  }

  // ---------------------------------------------------------------------------
  // Announcements over runs
  // ---------------------------------------------------------------------------

  /** The reconciler gives up a job whose request was completed or cancelled meanwhile. */
  predicate GivesUpEndedRequest(p: Pipeline, s: Step) {
    && s.Reconcile? && s.job in p.db.jobs && p.db.jobs[s.job].requestId in p.db.requests
    && p.db.requests[p.db.jobs[s.job].requestId] in {RequestCompleted, RequestCancelled}
  }

  /** A step announces at most one thing; and what it announces of a request is the status the request has from then on,
      except exactly when the reconciler gives up a job whose request is completed or cancelled: then it announces a
      failure of a request that keeps its status. */
  lemma AnnouncedIsTrueIff(p: Pipeline, s: Step)
    ensures var before, after := p.db.outbox, Next(p, s).db.outbox;
      && before <= after && |after| <= |before| + 1
      && (|after| > |before| && after[|before|].requestId in p.db.requests ==>
            && after[|before|].requestId in Next(p, s).db.requests
            && (Next(p, s).db.requests[after[|before|].requestId] == after[|before|].status
                <==> !GivesUpEndedRequest(p, s)))
  {
  }

  lemma ClaimedAlone()
    ensures var p := Next(Next(START, NewJob("j", "r", 0)), Claim(0, "j", "r", 60));
      && p.db.jobs == map["j" := JobRow("r", Running, 0, 0, 1, None, 0, Some(60))]
      && p.db.requests == map["r" := Processing] && p.db.outbox == [StatusEvent("r", "j", Processing)]
  {
  }

  lemma CancelledThenReconciled(p: Pipeline)
    requires p.db.jobs == map["j" := JobRow("r", Running, 0, 0, 1, None, 0, Some(60))]
    requires p.db.requests == map["r" := Processing] && p.db.outbox == [StatusEvent("r", "j", Processing)]
    ensures var p' := Next(Next(p, Service("r", RequestCancelled)), Reconcile("j"));
      && p'.db.requests == map["r" := RequestCancelled]
      && p'.db.outbox == [StatusEvent("r", "j", Processing), StatusEvent("r", "j", RequestFailed)]
  {
  }

  lemma RunOfFour(p: Pipeline, a: Step, b: Step, c: Step, d: Step)
    ensures Run(p, [a, b, c, d]) == Next(Next(Next(Next(p, a), b), c), d)
  {
    assert [a, b, c, d][..3] == [a, b, c] && [a, b, c][..2] == [a, b] && [a, b][..1] == [a] && [a][..0] == [];
    assert Run(p, [a]) == Next(Run(p, []), a);
    assert Run(p, [a, b, c]) == Next(Run(p, [a, b]), c);
  }

  /** Such a run: a job without retries is claimed, its request is cancelled, and the lease runs out. */
  lemma FalseFailureAnnounced()
    ensures var p := Run(START, [NewJob("j", "r", 0), Claim(0, "j", "r", 60), Service("r", RequestCancelled),
                                 Reconcile("j")]);
      && p.db.requests == map["r" := RequestCancelled]
      && p.db.outbox == [StatusEvent("r", "j", Processing), StatusEvent("r", "j", RequestFailed)]
  {
    RunOfFour(START, NewJob("j", "r", 0), Claim(0, "j", "r", 60), Service("r", RequestCancelled), Reconcile("j"));
    ClaimedAlone();
    CancelledThenReconciled(Next(Next(START, NewJob("j", "r", 0)), Claim(0, "j", "r", 60)));
  }

  // ---------------------------------------------------------------------------
  // Results over runs
  // ---------------------------------------------------------------------------

  predicate IsResultEvent(e: StatusEvent, job: string) {
    e.jobId == job && (e.status == NeedsReview || e.status == NeedsMoreInfo)
  }

  function ResultEvents(outbox: seq<StatusEvent>, job: string): seq<StatusEvent> {
    if outbox == [] then []
    else
      var e := outbox[|outbox| - 1];
      ResultEvents(outbox[..|outbox| - 1], job) + (if IsResultEvent(e, job) then [e] else [])
  }

  /** The event and the run of its job tell the same outcome. */
  predicate Agree(e: StatusEvent, outcome: Option<RunOutcome>) {
    && (e.status == NeedsReview <==> outcome == Some(OfferGenerated))
    && (e.status == NeedsMoreInfo <==> outcome == Some(InsufficientData))
  }

  /** One result event that agrees with the run, exactly when the run has an outcome. */
  ghost predicate Told(p: Pipeline, job: string) {
    var told := ResultEvents(p.db.outbox, job);
    if job in p.db.runs && p.db.runs[job].outcome.Some?
    then |told| == 1 && Agree(told[0], p.db.runs[job].outcome)
    else told == []
  }

  lemma ResultEventsSnoc(outbox: seq<StatusEvent>, e: StatusEvent, job: string)
    ensures ResultEvents(outbox + [e], job) ==
      ResultEvents(outbox, job) + (if IsResultEvent(e, job) then [e] else [])
  {
    assert (outbox + [e])[..|outbox|] == outbox;
  }

  /** The owner persists for the job. */
  predicate Delivers(p: Pipeline, s: Step, job: string) {
    s.Persist? && At(p, s.id, Answered) && p.workers[s.id].ticket.job == job && Owns(p.db, p.workers[s.id].ticket)
  }

  /** Any other step leaves the outcome of the job and its result events alone. */
  lemma OtherStepsTellNothing(p: Pipeline, s: Step, job: string)
    requires WorkersOk(p) && !Delivers(p, s, job)
    ensures ResultEvents(Next(p, s).db.outbox, job) == ResultEvents(p.db.outbox, job)
  {
    var before, after := p.db.outbox, Next(p, s).db.outbox;
    if after != before {
      assert after == before + [after[|before|]];
      ResultEventsSnoc(before, after[|before|], job);
    }
  }

  lemma OtherStepsDecideNothing(p: Pipeline, s: Step, job: string)
    requires WorkersOk(p) && !Delivers(p, s, job)
    ensures job in Next(p, s).db.runs && Next(p, s).db.runs[job].outcome.Some?
            <==> job in p.db.runs && p.db.runs[job].outcome.Some?
    ensures job in p.db.runs ==> job in Next(p, s).db.runs && Next(p, s).db.runs[job].outcome == p.db.runs[job].outcome
  {
  }

  /** The job had no result before its owner delivers one. */
  lemma DeliveryIsFirst(p: Pipeline, s: Step, job: string)
    requires Inv(p) && Delivers(p, s, job)
    ensures job in p.db.runs && p.db.runs[job].outcome.None?
  {
    assert WorkerOk(p, p.workers[s.id]);
    PersistIsFirst(p, s.id);
    assert !IsDone(p, job);
  }

  /** The event of a delivery agrees with the outcome it leaves in the run. */
  lemma DeliveryAgrees(db: OfferDb, t: Ticket, outcome: RunOutcome)
    requires Owns(db, t) && t.job in db.runs
    ensures var after := AfterPersist(db, t, outcome);
      && t.job in after.runs && after.runs[t.job].outcome == Some(outcome)
      && exists e :: after.outbox == db.outbox + [e] && IsResultEvent(e, t.job) && Agree(e, Some(outcome))
  {
    var status := if outcome == InsufficientData then NeedsMoreInfo else NeedsReview;
    var e := StatusEvent(t.request, t.job, status);
    assert AfterPersist(db, t, outcome).outbox == db.outbox + [e] && IsResultEvent(e, t.job) && Agree(e, Some(outcome));
  }

  lemma DeliveryTells(p: Pipeline, s: Step, job: string)
    requires Inv(p) && Told(p, job) && Delivers(p, s, job)
    ensures Told(Next(p, s), job)
  {
    DeliveryIsFirst(p, s, job);
    DeliveryAgrees(p.db, p.workers[s.id].ticket, s.outcome);
    var after := AfterPersist(p.db, p.workers[s.id].ticket, s.outcome);
    var e :| after.outbox == p.db.outbox + [e] && IsResultEvent(e, job) && Agree(e, Some(s.outcome));
    ResultEventsSnoc(p.db.outbox, e, job);
    assert Next(p, s).db == after;
  }

  /** In every run: a job has a result if and only if exactly one result was announced for it, and the announcement
      agrees with the outcome of its agent run: needs_review for a generated offer, needs_more_info for insufficient
      data. A job without a result has none announced. */
  lemma {:induction false} ResultsAreTold(steps: seq<Step>, job: string)
    ensures Told(Run(START, steps), job)
    ensures Results(Run(START, steps).done, job) == |ResultEvents(Run(START, steps).db.outbox, job)|
  {
    if steps != [] {
      var n := |steps| - 1;
      var p := Run(START, steps[..n]);
      ResultsAreTold(steps[..n], job);
      InvKept(START, steps[..n]);
      if Delivers(p, steps[n], job) { DeliveryTells(p, steps[n], job); } else {
        OtherStepsTellNothing(p, steps[n], job);
        OtherStepsDecideNothing(p, steps[n], job);
      }
    }
    ResultCounted(steps, job);
  }

  lemma ResultCounted(steps: seq<Step>, job: string)
    requires Told(Run(START, steps), job)
    ensures Results(Run(START, steps).done, job) == |ResultEvents(Run(START, steps).db.outbox, job)|
  {
    var p := Run(START, steps);
    AtMostOneResult(steps, job);
    InvKept(START, steps);
    ResultsOnce(p.done, job);
    if job !in p.db.runs {
      forall d | d in p.done ensures d.0 != job { assert DoneOk(p, d); }
    }
  }
}
