/** The offer tables and the transactions that workers and the reconciler run against them. */
module OfferPipeline {
  import opened Basics

  const POISON_THRESHOLD: nat := 3
  const LEASE_GRACE_SECONDS: int := 2 * 60
  const RECONCILE_LIMIT: nat := 50

  datatype JobStatus = Queued | Running | Completed | Failed | JobCancelled

  datatype RequestStatus =
    | Submitted | RequestQueued | Processing | NeedsMoreInfo | NeedsReview
    | RequestCompleted | RequestFailed | RequestCancelled

  datatype ErrorCode =
    | RateLimited | Unavailable | SnapshotBuildFailed | ValidationFailed | BudgetExhausted | UnknownError
    | LeaseExpiredRetriesExhausted

  datatype JobRow = JobRow(
    requestId: string, status: JobStatus, retryCount: nat, maxRetries: int, leaseVersion: nat,
    lastError: Option<ErrorCode>, errorRepeat: nat, leasedUntil: Option<int>)

  datatype RunOutcome = OfferGenerated | InsufficientData

  /** A row of agent_runs; `creator` only records the lease version of the worker that inserted it. */
  datatype AgentRun = AgentRun(outcome: Option<RunOutcome>, creator: nat)

  datatype StatusEvent = StatusEvent(requestId: string, jobId: string, status: RequestStatus)

  /** `runs` is keyed by offer_job_id: the UNIQUE constraint of migration 0053. */
  datatype OfferDb = OfferDb(
    jobs: map<string, JobRow>, requests: map<string, RequestStatus>, runs: map<string, AgentRun>,
    outbox: seq<StatusEvent>)

  /** What a worker keeps between its transactions; job and request come with the queue message. */
  datatype Ticket = Ticket(job: string, request: string, lease: nat, priorError: Option<ErrorCode>, priorRepeat: nat)

  // ---------------------------------------------------------------------------
  // The transactions
  // ---------------------------------------------------------------------------

  /** UPDATE offer_requests SET status WHERE id = request: no condition on the current status. */
  function Moved(requests: map<string, RequestStatus>, request: string,
                 status: RequestStatus): map<string, RequestStatus>
  {
    if request in requests then requests[request := status] else requests
  }

  function Written(db: OfferDb, job: string, row: JobRow, request: string, status: RequestStatus): OfferDb {
    db.(jobs := db.jobs[job := row], requests := Moved(db.requests, request, status))
  }

  function Started(row: JobRow, until: int): JobRow {
    row.(status := Running, leaseVersion := row.leaseVersion + 1, leasedUntil := Some(until))
  }

  /** Phase 1: mark running, increment the fencing token, request to processing, event; a missing job row changes
      nothing of that but itself. */
  function AfterClaim(db: OfferDb, job: string, request: string, until: int): OfferDb {
    db.(jobs := if job in db.jobs then db.jobs[job := Started(db.jobs[job], until)] else db.jobs,
        requests := Moved(db.requests, request, Processing),
        outbox := db.outbox + [StatusEvent(request, job, Processing)])
  }

  function ClaimTicket(db: OfferDb, job: string, request: string): Ticket {
    if job !in db.jobs then Ticket(job, request, 1, None, 0)
    else
      var row := db.jobs[job];
      Ticket(job, request, row.leaseVersion + 1, row.lastError, row.errorRepeat)
  }

  /** The guard of every fenced write. */
  predicate Owns(db: OfferDb, t: Ticket) {
    t.job in db.jobs && db.jobs[t.job].leaseVersion == t.lease
  }

  datatype Verdict = Verdict(retry: bool, retryCount: nat, errorRepeat: nat)

  /** The decision of _fail_job; `poisonAt` is the threshold. */
  function Judge(row: JobRow, t: Ticket, code: ErrorCode, retryable: bool, poisonAt: nat): Verdict {
    var prior := if t.priorError.None? then row.lastError else t.priorError;
    var priorRepeat := if t.priorError.None? then row.errorRepeat else t.priorRepeat;
    var repeated := if prior == Some(code) then priorRepeat + 1 else 1;
    var poison := retryable && repeated >= poisonAt;
    Verdict(retryable && !poison && row.retryCount + 1 < row.maxRetries, row.retryCount + 1, repeated)
  }

  /** The job back in the queue, the request with it. */
  function Requeued(db: OfferDb, t: Ticket, code: ErrorCode, retryCount: nat, repeated: nat): OfferDb
    requires Owns(db, t)
  {
    Written(db, t.job, Updated(db.jobs[t.job], Queued, Some(code), Some(retryCount), Some(repeated)),
            t.request, RequestQueued)
  }

  /** The job failed for good, the request with it, and an event. */
  function GivenUp(db: OfferDb, t: Ticket, code: ErrorCode, retryCount: nat, repeated: nat): OfferDb
    requires Owns(db, t)
  {
    var d := Written(db, t.job, Updated(db.jobs[t.job], Failed, Some(code), Some(retryCount), Some(repeated)),
                     t.request, RequestFailed);
    d.(outbox := d.outbox + [StatusEvent(t.request, t.job, RequestFailed)])
  }

  /** _fail_job: back to the queue or failed for good, and nothing at all without the lease. */
  function AfterFail(db: OfferDb, t: Ticket, code: ErrorCode, retryable: bool): OfferDb {
    if !Owns(db, t) then db
    else
      var v := Judge(db.jobs[t.job], t, code, retryable, POISON_THRESHOLD);
      if v.retry then Requeued(db, t, code, v.retryCount, v.errorRepeat)
      else GivenUp(db, t, code, v.retryCount, v.errorRepeat)
  }

  /** Phase 3: run row, fenced job row, request and event in one transaction; without the lease the
      transaction is abandoned. */
  function AfterPersist(db: OfferDb, t: Ticket, outcome: RunOutcome): OfferDb {
    if !Owns(db, t) then db
    else
      var row := db.jobs[t.job];
      var status := if outcome == InsufficientData then NeedsMoreInfo else NeedsReview;
      var d := Written(db, t.job, row.(status := Completed), t.request, status);
      d.(runs := if t.job in d.runs then d.runs[t.job := d.runs[t.job].(outcome := Some(outcome))] else d.runs,
         outbox := d.outbox + [StatusEvent(t.request, t.job, status)])
  }

  function Updated(row: JobRow, status: JobStatus, error: Option<ErrorCode>, retryCount: Option<nat>,
                   errorRepeat: Option<nat>): JobRow
  {
    row.(status := status,
         lastError := if error.Some? then error else row.lastError,
         retryCount := if retryCount.Some? then retryCount.value else row.retryCount,
         errorRepeat := if errorRepeat.Some? then errorRepeat.value else row.errorRepeat)
  }

  const TERMINAL_REQUESTS: set<RequestStatus> := {RequestCompleted, RequestFailed, RequestCancelled}

  /** What the reconciler makes of one expired row. */
  function Reconciled(row: JobRow): JobRow {
    if row.retryCount < row.maxRetries then
      row.(status := Queued, leaseVersion := row.leaseVersion + 1,
           retryCount := row.retryCount + 1, leasedUntil := None)
    else
      row.(status := Failed, leaseVersion := row.leaseVersion + 1, lastError := Some(LeaseExpiredRetriesExhausted))
  }

  /** UPDATE offer_requests … WHERE status NOT IN the terminal ones. */
  function MovedIfOpen(requests: map<string, RequestStatus>, request: string, status: RequestStatus)
    : map<string, RequestStatus>
  {
    if request in requests && requests[request] !in TERMINAL_REQUESTS then requests[request := status] else requests
  }

  /** The reconciler on one running job whose lease has expired. */
  function AfterReconcile(db: OfferDb, job: string): OfferDb {
    if job !in db.jobs || db.jobs[job].status != Running then db
    else
      var row := db.jobs[job];
      var d := db.(jobs := db.jobs[job := Reconciled(row)]);
      if row.retryCount < row.maxRetries then d.(requests := MovedIfOpen(db.requests, row.requestId, RequestQueued))
      else
        d.(requests := MovedIfOpen(db.requests, row.requestId, RequestFailed),
           outbox := db.outbox + [StatusEvent(row.requestId, job, RequestFailed)])
  }

  function AfterReconcileAll(db: OfferDb, picked: seq<string>): OfferDb {
    if picked == [] then db
    else AfterReconcile(AfterReconcileAll(db, picked[..|picked| - 1]), picked[|picked| - 1])
  }

  // ---------------------------------------------------------------------------
  // Which jobs the reconciler takes: expired ones with a request, oldest lease first, at most fifty, no locked ones
  // ---------------------------------------------------------------------------

  predicate Expired(jobs: map<string, JobRow>, requests: map<string, RequestStatus>, job: string, cutoff: int,
                    locked: set<string>)
  {
    && job in jobs && jobs[job].status == Running && jobs[job].leasedUntil.Some?
    && jobs[job].leasedUntil.value < cutoff && jobs[job].requestId in requests && job !in locked
  }

  /** The moment a lease ended. */
  function EndOf(jobs: map<string, JobRow>, job: string): int {
    if job in jobs && jobs[job].leasedUntil.Some? then jobs[job].leasedUntil.value else 0
  }

  ghost predicate IsSelection(db: OfferDb, picked: seq<string>, cutoff: int, locked: set<string>) {
    && (forall j :: j in picked ==> Expired(db.jobs, db.requests, j, cutoff, locked))
    && (forall i, k :: 0 <= i < k < |picked| ==> picked[i] != picked[k])
    && |picked| <= 50
    && (forall i, k :: 0 <= i < k < |picked| ==> EndOf(db.jobs, picked[i]) <= EndOf(db.jobs, picked[k]))
    && (forall j :: Expired(db.jobs, db.requests, j, cutoff, locked) && j !in picked ==>
          && |picked| == 50
          && forall i :: 0 <= i < |picked| ==> EndOf(db.jobs, picked[i]) <= EndOf(db.jobs, j))
  }

  lemma Oldest(jobs: map<string, JobRow>, rest: set<string>) returns (best: string)
    requires rest != {}
    ensures best in rest && forall k :: k in rest ==> EndOf(jobs, best) <= EndOf(jobs, k)
  {
    best :| best in rest;
    var others := rest - {best};
    if others != {} {
      var other := Oldest(jobs, others);
      assert forall k :: k in rest ==> k == best || k in others;
      if EndOf(jobs, other) < EndOf(jobs, best) { best := other; }
    } else {
      assert rest == {best};
    }
  }

  // ---------------------------------------------------------------------------
  // The repository
  // ---------------------------------------------------------------------------

  class OfferRepository {
    var jobs: map<string, JobRow>
    var requests: map<string, RequestStatus>
    var runs: map<string, AgentRun>
    var outbox: seq<StatusEvent>

    constructor ()
      ensures Contents() == OfferDb(map[], map[], map[], [])
    {
      jobs, requests, runs, outbox := map[], map[], map[], [];
    }

    function Contents(): OfferDb
      reads this
    {
      OfferDb(jobs, requests, runs, outbox)
    }

    /** Marks the job running whatever its status was; a missing job reports version 1. */
    method MarkJobRunning(job: string, until: int) returns (version: nat)
      modifies this`jobs
      ensures job in old(jobs) ==>
        && version == old(jobs)[job].leaseVersion + 1
        && jobs == old(jobs)[job := Started(old(jobs)[job], until)]
      ensures job !in old(jobs) ==> version == 1 && jobs == old(jobs)
    {
      if job !in jobs {
        return 1;
      }
      var row := jobs[job];
      version := row.leaseVersion + 1;
      jobs := jobs[job := row.(status := Running, leaseVersion := version, leasedUntil := Some(until))];
    }

    /** UPDATE … WHERE id = job AND lease_version = expected; what is not given stays. */
    method UpdateJobFenced(job: string, expected: nat, status: JobStatus, error: Option<ErrorCode>,
                           retryCount: Option<nat>, errorRepeat: Option<nat>) returns (owned: bool)
      modifies this`jobs
      ensures owned <==> job in old(jobs) && old(jobs)[job].leaseVersion == expected
      ensures jobs ==
        if owned then old(jobs)[job := Updated(old(jobs)[job], status, error, retryCount, errorRepeat)] else old(jobs)
    {
      owned := job in jobs && jobs[job].leaseVersion == expected;
      if owned {
        jobs := jobs[job := Updated(jobs[job], status, error, retryCount, errorRepeat)];
      }
    }

    method UpdateOfferStatus(request: string, status: RequestStatus)
      modifies this`requests
      ensures requests == Moved(old(requests), request, status)
    {
      if request in requests {
        requests := requests[request := status];
      }
    }

    method AddEvent(event: StatusEvent)
      modifies this`outbox
      ensures outbox == old(outbox) + [event]
    {
      outbox := outbox + [event];
    }

    /** INSERT INTO agent_runs: the UNIQUE constraint raises for a job that already has a run. */
    method CreateAgentRun(t: Ticket) returns (raised: bool)
      modifies this`runs
      ensures raised <==> t.job in old(runs)
      ensures runs == if raised then old(runs) else old(runs)[t.job := AgentRun(None, t.lease)]
    {
      raised := t.job in runs;
      if !raised {
        runs := runs[t.job := AgentRun(None, t.lease)];
      }
    }

    method UpdateAgentRun(job: string, outcome: RunOutcome)
      modifies this`runs
      ensures runs ==
        if job in old(runs) then old(runs)[job := old(runs)[job].(outcome := Some(outcome))] else old(runs)
    {
      if job in runs {
        runs := runs[job := runs[job].(outcome := Some(outcome))];
      }
    }

    // -------------------------------------------------------------------------
    // Worker transactions
    // -------------------------------------------------------------------------

    method Claim(job: string, request: string, until: int) returns (t: Ticket)
      modifies this
      ensures t == ClaimTicket(old(Contents()), job, request)
      ensures Contents() == AfterClaim(old(Contents()), job, request, until)
    {
      var priorError, priorRepeat := None, 0;
      if job in jobs { priorError, priorRepeat := jobs[job].lastError, jobs[job].errorRepeat; }
      var version := MarkJobRunning(job, until);
      UpdateOfferStatus(request, Processing);
      AddEvent(StatusEvent(request, job, Processing));
      t := Ticket(job, request, version, priorError, priorRepeat);
    }

    method FailJob(t: Ticket, code: ErrorCode, retryable: bool) returns (owned: bool)
      modifies this
      ensures owned == Owns(old(Contents()), t) && Contents() == AfterFail(old(Contents()), t, code, retryable)
    {
      var v := DecideRetry(t, code, retryable);
      if v.retry {
        owned := RequeueJob(t, code, v.retryCount, v.errorRepeat);
      } else {
        owned := GiveUpJob(t, code, v.retryCount, v.errorRepeat);
      }
    }

    /** Whether the job is tried again, and its new counters; a missing row has the defaults. */
    method DecideRetry(t: Ticket, code: ErrorCode, retryable: bool) returns (v: Verdict)
      ensures t.job in jobs ==> v == Judge(jobs[t.job], t, code, retryable, POISON_THRESHOLD)
      ensures t.job !in jobs ==> v.retryCount == 1
    {
      var priorError, priorRepeat := t.priorError, t.priorRepeat;
      if priorError.None? && t.job in jobs {
        priorError, priorRepeat := jobs[t.job].lastError, jobs[t.job].errorRepeat;
      }
      var maxRetries := if t.job in jobs then jobs[t.job].maxRetries else 3;
      var retryCount := if t.job in jobs then jobs[t.job].retryCount + 1 else 1;
      var repeated := if priorError == Some(code) then priorRepeat + 1 else 1;
      var stillRetryable := retryable;
      if retryable && repeated >= POISON_THRESHOLD {
        stillRetryable := false;
      }
      v := Verdict(stillRetryable && retryCount < maxRetries, retryCount, repeated);
    }

    method RequeueJob(t: Ticket, code: ErrorCode, retryCount: nat, repeated: nat) returns (owned: bool)
      modifies this
      ensures owned == Owns(old(Contents()), t)
      ensures Contents() ==
        if !owned then old(Contents()) else Requeued(old(Contents()), t, code, retryCount, repeated)
    {
      owned := UpdateJobFenced(t.job, t.lease, Queued, Some(code), Some(retryCount), Some(repeated));
      if owned {
        UpdateOfferStatus(t.request, RequestQueued);
      }
    }

    method GiveUpJob(t: Ticket, code: ErrorCode, retryCount: nat, repeated: nat) returns (owned: bool)
      modifies this
      ensures owned == Owns(old(Contents()), t)
      ensures Contents() ==
        if !owned then old(Contents()) else GivenUp(old(Contents()), t, code, retryCount, repeated)
    {
      owned := UpdateJobFenced(t.job, t.lease, Failed, Some(code), Some(retryCount), Some(repeated));
      if owned {
        UpdateOfferStatus(t.request, RequestFailed);
        AddEvent(StatusEvent(t.request, t.job, RequestFailed));
      }
    }

    /** The run row is written before the fence is checked; a lost fence returns without committing. */
    method PersistResult(t: Ticket, outcome: RunOutcome) returns (owned: bool)
      modifies this
      ensures owned == Owns(old(Contents()), t) && Contents() == AfterPersist(old(Contents()), t, outcome)
    {
      var before := runs;
      UpdateAgentRun(t.job, outcome);
      owned := UpdateJobFenced(t.job, t.lease, Completed, None, None, None);
      if !owned {
        runs := before;
        return;
      }
      var status := if outcome == InsufficientData then NeedsMoreInfo else NeedsReview;
      UpdateOfferStatus(t.request, status);
      AddEvent(StatusEvent(t.request, t.job, status));
    }

    // -------------------------------------------------------------------------
    // Reconciler
    // -------------------------------------------------------------------------

    /** SELECT … ORDER BY leased_until LIMIT 50 FOR UPDATE SKIP LOCKED. */
    method SelectExpired(cutoff: int, locked: set<string>) returns (picked: seq<string>)
      ensures IsSelection(Contents(), picked, cutoff, locked)
    {
      var rest := set j | j in jobs && Expired(jobs, requests, j, cutoff, locked);
      picked := [];
      while rest != {} && |picked| < RECONCILE_LIMIT
        invariant forall j :: Expired(jobs, requests, j, cutoff, locked) <==> j in rest || j in picked
        invariant forall j :: j in picked ==> j !in rest
        invariant forall i, k :: 0 <= i < k < |picked| ==> picked[i] != picked[k]
        invariant |picked| <= RECONCILE_LIMIT
        invariant forall i, k :: 0 <= i < k < |picked| ==> EndOf(jobs, picked[i]) <= EndOf(jobs, picked[k])
        invariant forall i, j :: 0 <= i < |picked| && j in rest ==> EndOf(jobs, picked[i]) <= EndOf(jobs, j)
        decreases |rest|
      {
        ghost var oldest := Oldest(jobs, rest);
        var next :| next in rest && forall k :: k in rest ==> EndOf(jobs, next) <= EndOf(jobs, k);
        picked := picked + [next];
        rest := rest - {next};
      }
    }

    method ReconcileOne(job: string)
      modifies this
      ensures Contents() == AfterReconcile(old(Contents()), job)
    {
      if job !in jobs || jobs[job].status != Running {
        return;
      }
      var row := jobs[job];
      var open := row.requestId in requests && requests[row.requestId] !in TERMINAL_REQUESTS;
      if row.retryCount < row.maxRetries {
        jobs := jobs[job := row.(status := Queued, leaseVersion := row.leaseVersion + 1,
                                 retryCount := row.retryCount + 1, leasedUntil := None)];
        if open {
          UpdateOfferStatus(row.requestId, RequestQueued);
        }
      } else {
        jobs := jobs[job := row.(status := Failed, leaseVersion := row.leaseVersion + 1,
                                 lastError := Some(LeaseExpiredRetriesExhausted))];
        if open {
          UpdateOfferStatus(row.requestId, RequestFailed);
        }
        AddEvent(StatusEvent(row.requestId, job, RequestFailed));
      }
    }

    method ReconcileRows(picked: seq<string>, n: nat)
      requires n <= |picked|
      modifies this
      ensures Contents() == AfterReconcileAll(old(Contents()), picked[..n])
    {
      var i := 0;
      while i < n
        invariant 0 <= i <= n
        invariant Contents() == AfterReconcileAll(old(Contents()), picked[..i])
      {
        assert picked[..i + 1][..i] == picked[..i];
        ReconcileOne(picked[i]);
        i := i + 1;
      }
    }

    /** One pass over the expired leases. A statement that raises, at row `failing`, is caught row by row, but it has
        aborted the transaction: nothing of the pass is kept, although the rows before it are counted. */
    method ReconcileExpiredLeases(now: int, locked: set<string>, failing: Option<nat>)
      returns (count: nat, picked: seq<string>)
      modifies this
      ensures IsSelection(old(Contents()), picked, now - LEASE_GRACE_SECONDS, locked)
      ensures if failing.Some? && failing.value < |picked|
              then count == failing.value && Contents() == old(Contents())
              else count == |picked| && Contents() == AfterReconcileAll(old(Contents()), picked)
    {
      picked := SelectExpired(now - LEASE_GRACE_SECONDS, locked);
      var j, q, r, o := jobs, requests, runs, outbox;
      count := if failing.Some? && failing.value < |picked| then failing.value else |picked|;
      ReconcileRows(picked, count);
      if count < |picked| {
        jobs, requests, runs, outbox := j, q, r, o;
      } else {
        assert picked[..count] == picked;
      }
    }
  }

  // ---------------------------------------------------------------------------
  // What a pass settles
  // ---------------------------------------------------------------------------

  ghost predicate NoneTwice(picked: seq<string>) {
    forall i, k :: 0 <= i < k < |picked| ==> picked[i] != picked[k]
  }

  ghost predicate AllRunning(db: OfferDb, picked: seq<string>) {
    forall j :: j in picked ==> j in db.jobs && db.jobs[j].status == Running
  }

  lemma {:induction false} PassKeys(db: OfferDb, picked: seq<string>)
    ensures AfterReconcileAll(db, picked).jobs.Keys == db.jobs.Keys
  {
    if picked != [] { PassKeys(db, picked[..|picked| - 1]); }
  }

  /** Rows that are not picked stay as they are. */
  lemma {:induction false} PassSpares(db: OfferDb, picked: seq<string>, job: string)
    requires job in db.jobs && job !in picked
    ensures job in AfterReconcileAll(db, picked).jobs && AfterReconcileAll(db, picked).jobs[job] == db.jobs[job]
  {
    if picked != [] { PassSpares(db, picked[..|picked| - 1], job); }
  }

  /** Picked rows are reconciled once. */
  lemma {:induction false} PassHandles(db: OfferDb, picked: seq<string>, i: nat)
    requires NoneTwice(picked) && AllRunning(db, picked) && i < |picked|
    ensures var after := AfterReconcileAll(db, picked);
      picked[i] in after.jobs && picked[i] in db.jobs && after.jobs[picked[i]] == Reconciled(db.jobs[picked[i]])
  {
    var n, job := |picked| - 1, picked[i];
    assert job in picked;
    if i < n {
      PassHandles(db, picked[..n], i);
      assert picked[n] != job;
    } else {
      PassSpares(db, picked[..n], job);
    }
  }

  /** A pass that selects fewer than fifty rows, with none locked, leaves no expired lease behind: each such job is
      queued again with one retry more, or failed, and fenced off from its old worker either way. */
  lemma PassSettlesExpired(db: OfferDb, picked: seq<string>, cutoff: int)
    requires IsSelection(db, picked, cutoff, {}) && |picked| < 50
    ensures var after := AfterReconcileAll(db, picked);
      && after.jobs.Keys == db.jobs.Keys
      && (forall j :: j in db.jobs && j !in picked ==> after.jobs[j] == db.jobs[j])
      && (forall j :: j in picked ==> after.jobs[j] == Reconciled(db.jobs[j]))
      && (forall j :: j in db.jobs && Expired(db.jobs, db.requests, j, cutoff, {}) ==>
            && j in picked && after.jobs[j].leaseVersion == db.jobs[j].leaseVersion + 1
            && after.jobs[j].status == if db.jobs[j].retryCount < db.jobs[j].maxRetries then Queued else Failed)
  {
    PassKeys(db, picked);
    forall j | j in picked ensures AfterReconcileAll(db, picked).jobs[j] == Reconciled(db.jobs[j]) {
      var i :| 0 <= i < |picked| && picked[i] == j;
      PassHandles(db, picked, i);
    }
    forall j | j in db.jobs && j !in picked ensures AfterReconcileAll(db, picked).jobs[j] == db.jobs[j] {
      PassSpares(db, picked, j);
    }
  }
}
