/** The offer workers and the token budget together: which runs of workers, reconciler and sweeper keep the books. */
module OfferBooks {
  import opened Basics
  import opened OfferBudget
  import opened OfferLedger
  import P = OfferPipeline
  import W = OfferRuns

  datatype Joint = Joint(p: W.Pipeline, s: Ledger)

  /** A worker or service step with the moment, the tokens and the cost it would book; `booked` is false where the
      budget transaction of its own fails, which the worker only logs. Or the sweep of one row. */
  datatype JointStep =
    | Work(step: W.Step, now: int, actual: nat, cost: real, booked: bool)
    | SweepRow(job: string)

  /** The budget transaction that goes with a step: reserve before the AI call; release on a controlled failure after
      it, even if the worker crashes before it fails the job; record with the result or after a lost fence. */
  function BudgetOp(j: Joint, step: JointStep): Option<Op> {
    match step
    case SweepRow(job) => Some(Sweep(job))
    case Work(w, now, actual, cost, booked) =>
      match w
      case Grant(id) =>
        if W.At(j.p, id, W.Claimed) then Some(Reserve(j.p.workers[id].ticket.job, TOKEN_ESTIMATE, now)) else None
      case Fail(id, code) =>
        if id in j.p.workers && W.CanMeet(j.p.workers[id].phase, code) && j.p.workers[id].phase != W.Claimed && booked
        then Some(Release(j.p.workers[id].ticket.job)) else None
      case Crash(id) =>
        if (W.At(j.p, id, W.Budgeted) || W.At(j.p, id, W.Calling)) && booked
        then Some(Release(j.p.workers[id].ticket.job)) else None
      case Persist(id, _) =>
        if W.At(j.p, id, W.Answered) && (booked || P.Owns(j.p.db, j.p.workers[id].ticket))
        then Some(Record(j.p.workers[id].ticket.job, TOKEN_ESTIMATE, actual, cost)) else None
      case _ => None
  }

  /** The budget admits the worker's job. */
  predicate GrantAdmitted(j: Joint, id: nat, owner: string -> string) {
    id in j.p.workers && Admits(j.s.budgets, owner(j.p.workers[id].ticket.job), TOKEN_ESTIMATE)
  }

  /** A worker goes on to the AI call only if the budget admits it, and gives up for the budget only if not. */
  function Stage(j: Joint, step: JointStep, owner: string -> string): W.Pipeline {
    match step
    case SweepRow(_) => j.p
    case Work(w, _, _, _, _) =>
      if w.Grant? && !GrantAdmitted(j, w.id, owner) then j.p
      else if w.Fail? && w.code == P.BudgetExhausted && GrantAdmitted(j, w.id, owner) then j.p
      else W.Next(j.p, w)
  }

  function Next(j: Joint, step: JointStep, owner: string -> string): Joint {
    Joint(Stage(j, step, owner), match BudgetOp(j, step) case None => j.s case Some(op) => Apply(j.s, op, owner))
  }

  function RunAll(j: Joint, steps: seq<JointStep>, owner: string -> string): Joint {
    if steps == [] then j else Next(RunAll(j, steps[..|steps| - 1], owner), steps[|steps| - 1], owner)
  }

  // ---------------------------------------------------------------------------
  // Which step breaks the books
  // ---------------------------------------------------------------------------

  /** All reservations are made with the default estimate. */
  ghost predicate Default(s: Ledger) { forall r :: r in s.rows ==> r.estimate == TOKEN_ESTIMATE }

  /** The worker would be granted a job that already has a reservation row. */
  predicate SecondGrant(j: Joint, step: JointStep, owner: string -> string) {
    && step.Work? && step.step.Grant? && W.At(j.p, step.step.id, W.Claimed) && GrantAdmitted(j, step.step.id, owner)
    && HasRow(j.s.rows, j.p.workers[step.step.id].ticket.job)
  }

  /** The worker would record for a row that has been settled without it, and the counter would show it. */
  predicate LateRecord(j: Joint, step: JointStep, owner: string -> string) {
    && step.Work? && step.step.Persist? && BudgetOp(j, step).Some?
    && var job := j.p.workers[step.step.id].ticket.job;
       !IsReserved(j.s.rows, job) && owner(job) in j.s.budgets && step.actual != TOKEN_ESTIMATE
       && (j.s.budgets[owner(job)].used > 0 || step.actual > TOKEN_ESTIMATE)
  }

  /** The exact law of the two systems together: from balanced books a step leaves balanced books if and only if it is
      neither a second grant of a job nor a late recording. */
  lemma BooksBrokenIff(j: Joint, step: JointStep, owner: string -> string)
    requires Good(j.s, owner) && Conserved(j.s) && Default(j.s)
    ensures Conserved(Next(j, step, owner).s) <==> !SecondGrant(j, step, owner) && !LateRecord(j, step, owner)
  {
    var op := BudgetOp(j, step);
    if op.Some? {
      ConservedIffSound(j.s, op.value, owner);
      if op.value.Record? { RecordSound(j, op.value, owner); }
    }
  }

  lemma RecordSound(j: Joint, op: Op, owner: string -> string)
    requires Good(j.s, owner) && Conserved(j.s) && Default(j.s) && op.Record? && op.estimate == TOKEN_ESTIMATE
    ensures Sound(j.s, op, owner) <==>
      || IsReserved(j.s.rows, op.job) || owner(op.job) !in j.s.budgets || op.actual == TOKEN_ESTIMATE
      || (j.s.budgets[owner(op.job)].used <= 0 && op.actual <= TOKEN_ESTIMATE)
  {
    if IsReserved(j.s.rows, op.job) { assert j.s.rows[RowOf(j.s.rows, op.job)] in j.s.rows; }
    if owner(op.job) in j.s.budgets { HeldAtLeast(j.s, owner, j.s.rows, owner(op.job)); }
  }

  // ---------------------------------------------------------------------------
  // Which runs keep them
  // ---------------------------------------------------------------------------

  /** Two rules a caller can follow: a job is claimed once, before any lease on it; and the sweeper takes a row only
      when no worker is still on its job. */
  predicate Polite(j: Joint, step: JointStep) {
    match step
    case SweepRow(job) => forall id | id in j.p.workers :: j.p.workers[id].ticket.job != job
    case Work(w, _, _, _, _) => w.Claim? && w.job in j.p.db.jobs ==> j.p.db.jobs[w.job].leaseVersion == 0
  }

  ghost predicate AllPolite(j: Joint, steps: seq<JointStep>, owner: string -> string) {
    steps == [] ||
    (AllPolite(j, steps[..|steps| - 1], owner) && Polite(RunAll(j, steps[..|steps| - 1], owner), steps[|steps| - 1]))
  }

  /** Each worker has its job to itself, with a reserved row from its grant on and none before. */
  ghost predicate Matched(j: Joint) {
    && (forall a, b :: a in j.p.workers && b in j.p.workers && a != b ==>
          j.p.workers[a].ticket.job != j.p.workers[b].ticket.job)
    && (forall id :: id in j.p.workers ==> RowFits(j.s, j.p.workers[id]))
    && (forall k :: 0 <= k < |j.s.rows| ==>
          j.s.rows[k].jobId in j.p.db.jobs && j.p.db.jobs[j.s.rows[k].jobId].leaseVersion >= 1)
  }

  ghost predicate InOrder(j: Joint, owner: string -> string) {
    W.Inv(j.p) && Good(j.s, owner) && Conserved(j.s) && Default(j.s) && Matched(j)
  }

  lemma FreshJobHasNoRow(j: Joint, job: string)
    requires Matched(j) && job in j.p.db.jobs && j.p.db.jobs[job].leaseVersion == 0
    ensures !HasRow(j.s.rows, job)
  {
  }

  lemma NeverBroken(j: Joint, step: JointStep, owner: string -> string)
    requires Matched(j)
    ensures !SecondGrant(j, step, owner) && !LateRecord(j, step, owner)
  {
  }

  lemma DefaultStep(j: Joint, step: JointStep, owner: string -> string)
    requires Default(j.s)
    ensures Default(Next(j, step, owner).s)
  {
    var s' := Next(j, step, owner).s;
    forall r | r in s'.rows ensures r.estimate == TOKEN_ESTIMATE {
      var k :| 0 <= k < |s'.rows| && s'.rows[k] == r;
      if k < |j.s.rows| { assert j.s.rows[k] in j.s.rows; }
    }
  }

  /** The rows of the other jobs, one by one, are as before. */
  lemma OtherRowsStay(s: Ledger, op: Op, owner: string -> string, job: string)
    requires UniqueJobs(s.rows) && !op.Reset? && op.job != job
    ensures var rows, rows' := s.rows, Apply(s, op, owner).rows;
      && |rows| <= |rows'|
      && (forall k :: 0 <= k < |rows| ==>
            rows'[k].jobId == rows[k].jobId && (rows[k].jobId == job ==> rows'[k] == rows[k]))
      && (forall k :: |rows| <= k < |rows'| ==> rows'[k].jobId != job)
  {
  }

  /** A budget operation on one job does nothing to the row of another. */
  lemma OtherJobsRows(s: Ledger, op: Op, owner: string -> string, job: string)
    requires UniqueJobs(s.rows) && !op.Reset? && op.job != job
    ensures HasRow(Apply(s, op, owner).rows, job) <==> HasRow(s.rows, job)
    ensures IsReserved(Apply(s, op, owner).rows, job) <==> IsReserved(s.rows, job)
  {
    OtherRowsStay(s, op, owner, job);
    if HasRow(s.rows, job) { SameRow(s.rows, Apply(s, op, owner).rows, job); }
  }

  lemma SameRow(rows: seq<Reservation>, rows': seq<Reservation>, job: string)
    requires HasRow(rows, job) && |rows| <= |rows'|
    requires forall k :: 0 <= k < |rows| ==> rows'[k].jobId == rows[k].jobId
    ensures RowOf(rows', job) == RowOf(rows, job)
  {
    var k := RowOf(rows, job);
    assert rows'[k].jobId == job;
  }

  lemma GrantedRow(s: Ledger, job: string, now: int, owner: string -> string)
    requires !HasRow(s.rows, job) && Admits(s.budgets, owner(job), TOKEN_ESTIMATE)
    ensures IsReserved(AfterReserve(s, owner(job), job, TOKEN_ESTIMATE, now).rows, job)
  {
    var rows' := AfterReserve(s, owner(job), job, TOKEN_ESTIMATE, now).rows;
    assert rows'[|s.rows|].jobId == job;
    assert forall k :: 0 <= k < |s.rows| ==> rows'[k].jobId != job;
  }

  lemma NewWorkerAlone(j: Joint, step: JointStep, owner: string -> string, a: nat, b: nat)
    requires W.WorkersOk(j.p) && Polite(j, step) && a in j.p.workers
    requires b !in j.p.workers && b in Next(j, step, owner).p.workers
    ensures Next(j, step, owner).p.workers[b].ticket.job != j.p.workers[a].ticket.job
  {
    assert W.WorkerOk(j.p, j.p.workers[a]);
  }

  lemma WorkersApart(j: Joint, step: JointStep, owner: string -> string)
    requires W.WorkersOk(j.p) && Matched(j) && Polite(j, step)
    ensures var p' := Next(j, step, owner).p;
      forall a, b :: a in p'.workers && b in p'.workers && a != b ==>
        p'.workers[a].ticket.job != p'.workers[b].ticket.job
  {
    var p' := Next(j, step, owner).p;
    forall a, b | a in p'.workers && b in p'.workers && a != b
      ensures p'.workers[a].ticket.job != p'.workers[b].ticket.job
    {
      if a in j.p.workers { PhaseOnlyByOwnStep(j, step, owner, a); }
      if b in j.p.workers { PhaseOnlyByOwnStep(j, step, owner, b); }
      if a in j.p.workers && b !in j.p.workers { NewWorkerAlone(j, step, owner, a, b); }
      if b in j.p.workers && a !in j.p.workers { NewWorkerAlone(j, step, owner, b, a); }
    }
  }

  /** The row of a worker's job is as its phase says. */
  ghost predicate RowFits(s: Ledger, w: W.Worker) {
    if w.phase == W.Claimed then !HasRow(s.rows, w.ticket.job) else IsReserved(s.rows, w.ticket.job)
  }

  lemma NewWorkerFits(j: Joint, step: JointStep, owner: string -> string, id: nat)
    requires Matched(j) && Polite(j, step) && id !in j.p.workers && id in Next(j, step, owner).p.workers
    ensures RowFits(Next(j, step, owner).s, Next(j, step, owner).p.workers[id])
  {
    var w := Next(j, step, owner).p.workers[id];
    assert step.Work? && step.step.Claim? && j.p.db.jobs[w.ticket.job].leaseVersion == 0;
    FreshJobHasNoRow(j, w.ticket.job);
  }

  lemma PhaseOnlyByOwnStep(j: Joint, step: JointStep, owner: string -> string, id: nat)
    requires id in j.p.workers && id in Next(j, step, owner).p.workers
    ensures var w, w' := j.p.workers[id], Next(j, step, owner).p.workers[id];
      && w'.ticket == w.ticket
      && (w.phase != W.Claimed ==> w'.phase != W.Claimed)
      && (w'.phase != w.phase && w.phase == W.Claimed ==> step.Work? && step.step.Grant? && step.step.id == id)
  {
  }

  /** The rows match the workers after a step. */
  lemma WorkerMatched(j: Joint, step: JointStep, owner: string -> string, id: nat)
    requires Good(j.s, owner) && Matched(j) && Polite(j, step) && id in Next(j, step, owner).p.workers
    ensures RowFits(Next(j, step, owner).s, Next(j, step, owner).p.workers[id])
  {
    if id !in j.p.workers {
      NewWorkerFits(j, step, owner, id);
    } else {
      var w, op := j.p.workers[id], BudgetOp(j, step);
      assert RowFits(j.s, w);
      PhaseOnlyByOwnStep(j, step, owner, id);
      if op.Some? && op.value.job == w.ticket.job {
        GrantsItself(j, step, owner, id);
      } else if op.Some? {
        OtherJobsRows(j.s, op.value, owner, w.ticket.job);
        if w.phase == W.Claimed { NotItsGrant(j, step, id); }
      } else {
        if w.phase == W.Claimed { NotItsGrant(j, step, id); }
      }
    }
  }

  lemma NotItsGrant(j: Joint, step: JointStep, id: nat)
    requires id in j.p.workers && j.p.workers[id].phase == W.Claimed
    requires BudgetOp(j, step).Some? ==> BudgetOp(j, step).value.job != j.p.workers[id].ticket.job
    ensures !(step.Work? && step.step.Grant? && step.step.id == id)
  {
  }

  /** The only budget operation on the job of a worker that stays is its own grant. */
  lemma GrantsItself(j: Joint, step: JointStep, owner: string -> string, id: nat)
    requires Matched(j) && Polite(j, step)
    requires id in j.p.workers && id in Next(j, step, owner).p.workers
    requires BudgetOp(j, step).Some? && BudgetOp(j, step).value.job == j.p.workers[id].ticket.job
    ensures RowFits(Next(j, step, owner).s, Next(j, step, owner).p.workers[id])
  {
    assert step.Work? && step.step.Grant? && step.step.id == id;
    if GrantAdmitted(j, id, owner) { GrantedRow(j.s, j.p.workers[id].ticket.job, step.now, owner); }
  }

  /** A budget operation keeps the job of every row, and a new row is for the worker's own job. */
  lemma RowJobs(j: Joint, step: JointStep, owner: string -> string)
    ensures var rows, rows' := j.s.rows, Next(j, step, owner).s.rows;
      && |rows| <= |rows'| && (forall k :: 0 <= k < |rows| ==> rows'[k].jobId == rows[k].jobId)
      && (forall k :: |rows| <= k < |rows'| ==>
            exists id :: id in j.p.workers && rows'[k].jobId == j.p.workers[id].ticket.job)
  {
    if step.Work? && step.step.Grant? && W.At(j.p, step.step.id, W.Claimed) {
      assert step.step.id in j.p.workers;
    }
  }

  lemma RowsMatched(j: Joint, step: JointStep, owner: string -> string)
    requires W.WorkersOk(j.p) && Matched(j)
    ensures var j' := Next(j, step, owner);
      forall k :: 0 <= k < |j'.s.rows| ==>
        j'.s.rows[k].jobId in j'.p.db.jobs && j'.p.db.jobs[j'.s.rows[k].jobId].leaseVersion >= 1
  {
    var rows, j' := j.s.rows, Next(j, step, owner);
    RowJobs(j, step, owner);
    if step.Work? { W.JobsStep(j.p, step.step); }
    forall k | 0 <= k < |j'.s.rows|
      ensures j'.s.rows[k].jobId in j'.p.db.jobs && j'.p.db.jobs[j'.s.rows[k].jobId].leaseVersion >= 1
    {
      if k >= |rows| {
        var id :| id in j.p.workers && j'.s.rows[k].jobId == j.p.workers[id].ticket.job;
        assert W.WorkerOk(j.p, j.p.workers[id]);
      }
    }
  }

  lemma StepInOrder(j: Joint, step: JointStep, owner: string -> string)
    requires InOrder(j, owner) && Polite(j, step)
    ensures InOrder(Next(j, step, owner), owner)
  {
    NeverBroken(j, step, owner);
    BooksBrokenIff(j, step, owner);
    DefaultStep(j, step, owner);
    if BudgetOp(j, step).Some? { GoodStep(j.s, BudgetOp(j, step).value, owner); }
    if step.Work? { W.InvStep(j.p, step.step); }
    WorkersApart(j, step, owner);
    forall id | id in Next(j, step, owner).p.workers
      ensures RowFits(Next(j, step, owner).s, Next(j, step, owner).p.workers[id])
    {
      WorkerMatched(j, step, owner, id);
    }
    RowsMatched(j, step, owner);
  }

  /** Every run of workers, crashes, lost fences, failures, reconciler, service and sweeper in which no job is claimed
      twice and no row is swept under a living worker keeps each counter equal to the reserved estimates plus the
      recorded tokens. */
  lemma {:induction false} WorkersKeepTheBooks(j: Joint, steps: seq<JointStep>, owner: string -> string)
    requires InOrder(j, owner) && AllPolite(j, steps, owner)
    ensures InOrder(RunAll(j, steps, owner), owner)
  {
    if steps != [] {
      var n := |steps| - 1;
      WorkersKeepTheBooks(j, steps[..n], owner);
      StepInOrder(RunAll(j, steps[..n], owner), steps[n], owner);
    }
  }

  /** The start: no workers, no rows, unused budgets. */
  lemma StartInOrder(budgets: map<string, Budget>, owner: string -> string)
    requires forall org :: org in budgets ==> budgets[org].used == 0 && budgets[org].limit > 0
    ensures InOrder(Joint(W.START, Ledger(budgets, [], map[])), owner)
  {
  }

  lemma SettleMarks(rows: seq<Reservation>, job: string, to: ReservationStatus)
    requires HasRow(rows, job)
    ensures StatusIn(Settle(rows, job, to), job) == Some(to)
  {
    SameRow(rows, Settle(rows, job, to), job);
  }

  /** The status of a job's reservation. */
  function StatusIn(rows: seq<Reservation>, job: string): Option<ReservationStatus> {
    if HasRow(rows, job) then Some(rows[RowOf(rows, job)].status) else None
  }

  /** A worker, past its reservation, reports a failure it can meet, crashes, or comes with an answer, rejected or
      not. */
  predicate Ends(j: Joint, step: JointStep) {
    && step.Work? && step.booked
    && match step.step
       case Fail(id, code) =>
         id in j.p.workers && j.p.workers[id].phase != W.Claimed && W.CanMeet(j.p.workers[id].phase, code)
       case Crash(id) => id in j.p.workers && j.p.workers[id].phase != W.Claimed
       case RejectOutput(id) => W.At(j.p, id, W.Answered)
       case Persist(id, _) => W.At(j.p, id, W.Answered)
       case _ => false
  }

  lemma EndingOp(j: Joint, step: JointStep)
    requires Ends(j, step)
    ensures var w := j.p.workers[step.step.id];
      var job := w.ticket.job;
      BudgetOp(j, step) ==
        if step.step.Persist? then Some(Record(job, TOKEN_ESTIMATE, step.actual, step.cost))
        else if step.step.Fail? || (step.step.Crash? && w.phase != W.Answered) then Some(Release(job))
        else None
  {
  }

  lemma RowOfWorker(j: Joint, id: nat, owner: string -> string)
    requires InOrder(j, owner) && id in j.p.workers && j.p.workers[id].phase != W.Claimed
    ensures IsReserved(j.s.rows, j.p.workers[id].ticket.job)
  {
    assert RowFits(j.s, j.p.workers[id]);
  }

  /** How a worker leaves the row of its reservation: a failure it reports releases it, and so does a crash before the
      answer, if the release works; a result consumes it with the tokens recorded; a rejected output leaves it for the
      sweeper. */
  lemma EndOfWorker(j: Joint, step: JointStep, owner: string -> string)
    requires InOrder(j, owner) && Ends(j, step)
    ensures var w, s' := j.p.workers[step.step.id], Next(j, step, owner).s;
      var job := w.ticket.job;
      && (step.step.Fail? ==> StatusIn(s'.rows, job) == Some(Released))
      && (step.step.Crash? ==> StatusIn(s'.rows, job) == Some(if w.phase == W.Answered then Reserved else Released))
      && (step.step.RejectOutput? ==> StatusIn(s'.rows, job) == Some(Reserved))
      && (step.step.Persist? ==> StatusIn(s'.rows, job) == Some(Consumed) && job in s'.spent
                                 && s'.spent[job] == step.actual)
  {
    var job := j.p.workers[step.step.id].ticket.job;
    EndingOp(j, step);
    RowOfWorker(j, step.step.id, owner);
    SettleMarks(j.s.rows, job, if step.step.Persist? then Consumed else Released);
  }

  // ---------------------------------------------------------------------------
  // The retry of a job is not among them
  // ---------------------------------------------------------------------------

  function Retry(job: string, request: string, id: nat): seq<JointStep> {
    [Work(W.Reconcile(job), 0, 0, 0.0, true), Work(W.Claim(id, job, request, 0), 0, 0, 0.0, true),
     Work(W.Grant(id), 0, 0, 0.0, true)]
  }

  lemma RunOfThree(j: Joint, a: JointStep, b: JointStep, c: JointStep, owner: string -> string)
    ensures RunAll(j, [a, b, c], owner) == Next(Next(Next(j, a, owner), b, owner), c, owner)
  {
    assert [a, b, c][..2] == [a, b] && [a, b][..1] == [a] && [a][..0] == [];
    assert RunAll(j, [a], owner) == Next(RunAll(j, [], owner), a, owner);
    assert RunAll(j, [a, b], owner) == Next(RunAll(j, [a], owner), b, owner);
  }

  lemma RequeuedAndClaimed(j: Joint, job: string, request: string, id: nat, owner: string -> string)
    requires job in j.p.db.jobs && j.p.db.jobs[job].status == P.Running && id !in j.p.workers
    ensures var j2 := Next(Next(j, Retry(job, request, id)[0], owner), Retry(job, request, id)[1], owner);
      j2.s == j.s && W.At(j2.p, id, W.Claimed) && j2.p.workers[id].ticket.job == job
  {
  }

  /** The reconciler's own path breaks the books every time: a running job that had reached its reservation, is put
      back in the queue, claimed and granted again, leaves the counter one estimate above what its rows stand for. */
  lemma RequeuedJobOvercharges(j: Joint, job: string, request: string, id: nat, owner: string -> string)
    requires InOrder(j, owner) && HasRow(j.s.rows, job) && id !in j.p.workers
    requires job in j.p.db.jobs && j.p.db.jobs[job].status == P.Running
    requires Admits(j.s.budgets, owner(job), TOKEN_ESTIMATE)
    ensures var s' := RunAll(j, Retry(job, request, id), owner).s;
      owner(job) in s'.budgets && Excess(s', owner(job)) == TOKEN_ESTIMATE
  {
    var steps := Retry(job, request, id);
    var j1 := Next(j, steps[0], owner);
    var j2 := Next(j1, steps[1], owner);
    RunOfThree(j, steps[0], steps[1], steps[2], owner);
    RequeuedAndClaimed(j, job, request, id, owner);
    assert RunAll(j, steps, owner).s == AfterReserve(j.s, owner(job), job, TOKEN_ESTIMATE, 0);
    RetryLeaks(j.s, owner, job, TOKEN_ESTIMATE, 0, []);
  }
}
