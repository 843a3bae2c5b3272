/** Conservation of the token budget over whole runs, exactly where it holds and where it breaks. */
module OfferLedger {
  import opened OfferBudget

  /** One committed budget transaction of some worker, sweeper or scheduled task, in any order. */
  datatype Op =
    | Reserve(job: string, estimate: nat, now: int)
    | Record(job: string, estimate: nat, actual: nat, cost: real)
    | Release(job: string)
    | Sweep(job: string)
    | Reset(org: string)

  /** `owner` gives the organisation of each job. */
  function Apply(s: Ledger, op: Op, owner: string -> string): Ledger {
    match op
    case Reserve(job, estimate, now) => AfterReserve(s, owner(job), job, estimate, now)
    case Record(job, estimate, actual, cost) => AfterRecord(s, owner(job), job, estimate, actual, cost)
    case Release(job) => AfterRelease(s, owner(job), job)
    case Sweep(job) => AfterSweepRow(s, job)
    case Reset(org) => AfterReset(s, org)
  }

  function Run(s: Ledger, ops: seq<Op>, owner: string -> string): Ledger {
    if ops == [] then s else Apply(Run(s, ops[..|ops| - 1], owner), ops[|ops| - 1], owner)
  }

  // ---------------------------------------------------------------------------
  // What the counter should hold
  // ---------------------------------------------------------------------------

  /** The tokens a row still stands for: its estimate while reserved, the recorded tokens once consumed. */
  function Share(row: Reservation, spent: map<string, int>, org: string): int {
    if row.organizationId != org then 0
    else match row.status
      case Reserved => row.estimate
      case Consumed => if row.jobId in spent then spent[row.jobId] else 0
      case Released => 0
      case Expired => 0
  }

  function Held(rows: seq<Reservation>, spent: map<string, int>, org: string): int {
    if rows == [] then 0
    else Held(rows[..|rows| - 1], spent, org) + Share(rows[|rows| - 1], spent, org)
  }

  ghost predicate GoodRow(r: Reservation, s: Ledger, owner: string -> string) {
    && r.organizationId == owner(r.jobId) && r.organizationId in s.budgets && r.estimate >= 0
    && (r.status == Consumed ==> r.jobId in s.spent && s.spent[r.jobId] >= 0)
  }

  /** Rows are unique per job, belong to the job's organisation, and every such organisation has a budget. */
  ghost predicate Good(s: Ledger, owner: string -> string) {
    && UniqueJobs(s.rows)
    && (forall r :: r in s.rows ==> GoodRow(r, s, owner))
    && (forall org :: org in s.budgets ==> s.budgets[org].limit > 0)
  }

  ghost predicate Conserved(s: Ledger) {
    forall org :: org in s.budgets ==> s.budgets[org].used == Held(s.rows, s.spent, org)
  }

  /** The guards under which one operation keeps the books, all checkable before the call. A recording must find its
      row still reserved and bring the row's own estimate along; otherwise it keeps the books only where it changes
      nothing or the clamp at zero happens to swallow the difference. */
  predicate Sound(s: Ledger, op: Op, owner: string -> string) {
    match op
    case Reserve(job, estimate, _) => !Admits(s.budgets, owner(job), estimate) || !HasRow(s.rows, job) || estimate == 0
    case Record(job, estimate, actual, _) =>
      owner(job) in s.budgets ==>
        var used := s.budgets[owner(job)].used;
        if IsReserved(s.rows, job) then
          var reserved := s.rows[RowOf(s.rows, job)].estimate;
          estimate == reserved || (used + actual == reserved && reserved <= estimate)
        else actual == estimate || (used == 0 && actual < estimate)
    case Release(_) => true
    case Sweep(_) => true
    case Reset(org) => org in s.budgets ==> s.budgets[org].used == 0
  }

  lemma GoodRowStep(s: Ledger, op: Op, owner: string -> string, k: nat)
    requires Good(s, owner) && k < |Apply(s, op, owner).rows|
    ensures GoodRow(Apply(s, op, owner).rows[k], Apply(s, op, owner), owner)
  {
    if k < |s.rows| {
      assert s.rows[k] in s.rows && GoodRow(s.rows[k], s, owner);
    }
  }

  lemma GoodStep(s: Ledger, op: Op, owner: string -> string)
    requires Good(s, owner)
    ensures Good(Apply(s, op, owner), owner)
  {
    var s' := Apply(s, op, owner);
    forall r | r in s'.rows ensures GoodRow(r, s', owner) {
      var k :| 0 <= k < |s'.rows| && s'.rows[k] == r;
      GoodRowStep(s, op, owner, k);
    }
    assert UniqueJobs(s'.rows);
  }

  /** Two tables that agree on every share but one differ by that share. */
  lemma {:induction false} HeldChange(a: seq<Reservation>, sa: map<string, int>, b: seq<Reservation>, sb: map<string,
                                      int>,
                                      k: nat, org: string)
    requires |a| == |b| && k < |a|
    requires forall i :: 0 <= i < |a| && i != k ==> Share(a[i], sa, org) == Share(b[i], sb, org)
    ensures Held(b, sb, org) - Held(a, sa, org) == Share(b[k], sb, org) - Share(a[k], sa, org)
  {
    var n := |a| - 1;
    if k < n {
      HeldChange(a[..n], sa, b[..n], sb, k, org);
    } else {
      HeldSame(a[..n], sa, b[..n], sb, org);
    }
  }

  lemma {:induction false} HeldSame(a: seq<Reservation>, sa: map<string, int>, b: seq<Reservation>, sb: map<string,
                                    int>, org: string)
    requires |a| == |b|
    requires forall i :: 0 <= i < |a| ==> Share(a[i], sa, org) == Share(b[i], sb, org)
    ensures Held(a, sa, org) == Held(b, sb, org)
  {
    if a != [] {
      HeldSame(a[..|a| - 1], sa, b[..|b| - 1], sb, org);
    }
  }

  lemma {:induction false} HeldAtLeast(s: Ledger, owner: string -> string, rows: seq<Reservation>, org: string)
    requires Good(s, owner) && forall r :: r in rows ==> r in s.rows
    ensures Held(rows, s.spent, org) >= 0
    ensures forall r :: r in rows ==> Share(r, s.spent, org) <= Held(rows, s.spent, org)
  {
    if rows != [] {
      var init := rows[..|rows| - 1];
      HeldAtLeast(s, owner, init, org);
      assert rows[|rows| - 1] in s.rows;
      forall r | r in rows ensures Share(r, s.spent, org) <= Held(rows, s.spent, org) {
        assert r in init || r == rows[|rows| - 1];
        assert r in s.rows;
      }
    }
  }

  /** Settling the reserved row of a job moves its organisation's holdings by the change of that one share. */
  lemma HeldSettled(s: Ledger, owner: string -> string, job: string, to: ReservationStatus, spent: map<string, int>,
                    org: string)
    requires Good(s, owner) && IsReserved(s.rows, job)
    requires spent == s.spent || (job in spent && spent == s.spent[job := spent[job]])
    ensures var settled := Settle(s.rows, job, to);
      Held(settled, spent, org) - Held(s.rows, s.spent, org)
        == (if owner(job) == org
            then Share(settled[RowOf(s.rows, job)], spent, org) - s.rows[RowOf(s.rows, job)].estimate else 0)
  {
    var k := RowOf(s.rows, job);
    assert s.rows[k] in s.rows;
    HeldChange(s.rows, s.spent, Settle(s.rows, job, to), spent, k, org);
  }

  /** The exact step law: from balanced books an operation leaves balanced books if and only if it is sound. */
  lemma ConservedIffSound(s: Ledger, op: Op, owner: string -> string)
    requires Good(s, owner) && Conserved(s)
    ensures Conserved(Apply(s, op, owner)) <==> Sound(s, op, owner)
  {
    match op
    case Reserve(job, estimate, now) => ReserveLaw(s, job, estimate, now, owner);
    case Record(job, estimate, actual, cost) => RecordLaw(s, job, estimate, actual, cost, owner);
    case Release(job) => CreditLaw(s, job, Released, owner);
    case Sweep(job) => CreditLaw(s, job, Expired, owner);
    case Reset(org) =>
      var s' := AfterReset(s, org);
      if org in s.budgets {
        assert s'.budgets[org].used == 0;
        assert forall o :: o in s'.budgets && o != org ==> s'.budgets[o] == s.budgets[o];
      }
  }

  lemma ReserveLaw(s: Ledger, job: string, estimate: nat, now: int, owner: string -> string)
    requires Good(s, owner) && Conserved(s)
    ensures Conserved(AfterReserve(s, owner(job), job, estimate, now)) <==> Sound(s, Reserve(job, estimate, now), owner)
  {
    if Admits(s.budgets, owner(job), estimate) {
      if HasRow(s.rows, job) {
        ReserveAgain(s, job, estimate, now, owner);
      } else {
        ReserveFirst(s, job, estimate, now, owner);
      }
    }
  }

  /** Without a row yet, the counter and the new row move together. */
  lemma ReserveFirst(s: Ledger, job: string, estimate: nat, now: int, owner: string -> string)
    requires Good(s, owner) && Conserved(s) && Admits(s.budgets, owner(job), estimate) && !HasRow(s.rows, job)
    ensures Conserved(AfterReserve(s, owner(job), job, estimate, now))
  {
    var org, s' := owner(job), AfterReserve(s, owner(job), job, estimate, now);
    if org !in s.budgets { NoRowsNoHoldings(s, owner, s.rows, org); }
    assert s'.rows[..|s'.rows| - 1] == s.rows;
    forall o | o in s'.budgets ensures s'.budgets[o].used == Held(s'.rows, s'.spent, o) {
      assert o != org ==> o in s.budgets;
    }
  }

  /** With a row already, only the counter moves. */
  lemma ReserveAgain(s: Ledger, job: string, estimate: nat, now: int, owner: string -> string)
    requires Good(s, owner) && Conserved(s) && Admits(s.budgets, owner(job), estimate) && HasRow(s.rows, job)
    ensures Conserved(AfterReserve(s, owner(job), job, estimate, now)) <==> estimate == 0
  {
    var org, s' := owner(job), AfterReserve(s, owner(job), job, estimate, now);
    assert s.rows[RowOf(s.rows, job)] in s.rows;
    assert s'.rows == s.rows && s'.spent == s.spent && s'.budgets.Keys == s.budgets.Keys;
    assert s'.budgets[org].used == Held(s.rows, s.spent, org) + estimate;
    assert forall o :: o in s'.budgets && o != org ==> s'.budgets[o] == s.budgets[o];
  }

  lemma {:induction false} NoRowsNoHoldings(s: Ledger, owner: string -> string, rows: seq<Reservation>, org: string)
    requires Good(s, owner) && org !in s.budgets && forall r :: r in rows ==> r in s.rows
    ensures Held(rows, s.spent, org) == 0
  {
    if rows != [] {
      assert rows[|rows| - 1] in s.rows;
      NoRowsNoHoldings(s, owner, rows[..|rows| - 1], org);
    }
  }

  lemma RecordLaw(s: Ledger, job: string, estimate: nat, actual: nat, cost: real, owner: string -> string)
    requires Good(s, owner) && Conserved(s)
    ensures Conserved(AfterRecord(s, owner(job), job, estimate, actual, cost))
            <==> Sound(s, Record(job, estimate, actual, cost), owner)
  {
    var org := owner(job);
    var s' := AfterRecord(s, org, job, estimate, actual, cost);
    HeldAtLeast(s, owner, s.rows, org);
    if IsReserved(s.rows, job) {
      var k := RowOf(s.rows, job);
      assert s.rows[k] in s.rows;
      assert Share(s'.rows[k], s'.spent, org) == actual;
      forall o | o in s'.budgets
        ensures Held(s'.rows, s'.spent, o) == s.budgets[o].used + (if o == org then actual - s.rows[k].estimate else 0)
      {
        HeldSettled(s, owner, job, Consumed, s'.spent, o);
      }
      RecordedUsed(s, org, job, estimate, actual, cost);
      assert Conserved(s') <==> s'.budgets[org].used == s.budgets[org].used + actual - s.rows[k].estimate;
    } else if org in s.budgets {
      RecordedUsed(s, org, job, estimate, actual, cost);
      assert Conserved(s') <==> s'.budgets[org].used == s.budgets[org].used;
    }
  }

  lemma RecordedUsed(s: Ledger, org: string, job: string, estimate: nat, actual: nat, cost: real)
    requires org in s.budgets
    ensures var s' := AfterRecord(s, org, job, estimate, actual, cost);
      && s'.budgets.Keys == s.budgets.Keys
      && s'.budgets[org].used == Max(0, s.budgets[org].used + actual - estimate)
      && (forall o :: o in s.budgets && o != org ==> s'.budgets[o] == s.budgets[o])
  {
  }

  /** release() and the sweeper credit exactly the estimate they remove, and the clamp at zero never bites. */
  lemma CreditLaw(s: Ledger, job: string, to: ReservationStatus, owner: string -> string)
    requires Good(s, owner) && Conserved(s) && to in {Released, Expired}
    ensures var s' := if to == Released then AfterRelease(s, owner(job), job) else AfterSweepRow(s, job);
      && Conserved(s')
      && (IsReserved(s.rows, job) ==>
            owner(job) in s.budgets && owner(job) in s'.budgets
            && s'.budgets[owner(job)].used == s.budgets[owner(job)].used - s.rows[RowOf(s.rows, job)].estimate)
  {
    if IsReserved(s.rows, job) {
      var org := owner(job);
      var s' := if to == Released then AfterRelease(s, org, job) else AfterSweepRow(s, job);
      var k := RowOf(s.rows, job);
      assert s.rows[k] in s.rows;
      HeldAtLeast(s, owner, s.rows, org);
      assert Share(s.rows[k], s.spent, org) == s.rows[k].estimate;
      forall o | o in s'.budgets ensures s'.budgets[o].used == Held(s'.rows, s'.spent, o) {
        HeldSettled(s, owner, job, to, s.spent, o);
      }
    }
  }

  // ---------------------------------------------------------------------------
  // Whole runs
  // ---------------------------------------------------------------------------

  /** Every operation of the run is sound where it comes. */
  ghost predicate SoundRun(s: Ledger, ops: seq<Op>, owner: string -> string) {
    ops == [] ||
    (SoundRun(s, ops[..|ops| - 1], owner) && Sound(Run(s, ops[..|ops| - 1], owner), ops[|ops| - 1], owner))
  }

  /** A run of sound operations, in any interleaving, keeps every organisation's counter equal to the
      estimates still reserved plus the tokens recorded as consumed. */
  lemma {:induction false} BudgetConserved(s: Ledger, ops: seq<Op>, owner: string -> string)
    requires Good(s, owner) && Conserved(s) && SoundRun(s, ops, owner)
    ensures Good(Run(s, ops, owner), owner) && Conserved(Run(s, ops, owner))
  {
    if ops != [] {
      var n := |ops| - 1;
      BudgetConserved(s, ops[..n], owner);
      GoodStep(Run(s, ops[..n], owner), ops[n], owner);
      ConservedIffSound(Run(s, ops[..n], owner), ops[n], owner);
    }
  }

  lemma {:induction false} GoodKept(s: Ledger, ops: seq<Op>, owner: string -> string)
    requires Good(s, owner)
    ensures Good(Run(s, ops, owner), owner)
  {
    if ops != [] {
      GoodKept(s, ops[..|ops| - 1], owner);
      GoodStep(Run(s, ops[..|ops| - 1], owner), ops[|ops| - 1], owner);
    }
  }

  lemma {:induction false} HeldIsConsumed(s: Ledger, owner: string -> string, rows: seq<Reservation>, org: string)
    requires Good(s, owner) && (forall r :: r in s.rows ==> r.status != Reserved)
    requires forall r :: r in rows ==> r in s.rows
    ensures Held(rows, s.spent, org) == ConsumedTokens(rows, s.spent, org)
  {
    if rows != [] {
      assert rows[|rows| - 1] in s.rows;
      HeldIsConsumed(s, owner, rows[..|rows| - 1], org);
    }
  }

  function ConsumedTokens(rows: seq<Reservation>, spent: map<string, int>, org: string): int {
    if rows == [] then 0
    else
      var last := rows[|rows| - 1];
      ConsumedTokens(rows[..|rows| - 1], spent, org)
      + (if last.organizationId == org && last.status == Consumed && last.jobId in spent then spent[last.jobId] else 0)
  }

  /** The rows after one sweep: the selected stale ones expired, all others as they were. */
  lemma SweepRows(s: Ledger, cutoff: int)
    requires UniqueJobs(s.rows) && |Selected(s.rows, cutoff, {})| < 200
    ensures var s' := AfterSweep(s, Selected(s.rows, cutoff, {}));
      && |s'.rows| == |s.rows|
      && (forall k :: 0 <= k < |s.rows| ==>
            s'.rows[k] == if Stale(s.rows[k], cutoff, {}) then s.rows[k].(status := Expired) else s.rows[k])
  {
    var picked := Selected(s.rows, cutoff, {});
    SelectedSweepable(s.rows, cutoff, {});
    SweepLeaves(s, picked, |picked|);
    assert picked[..|picked|] == picked;
    forall k | 0 <= k < |s.rows|
      ensures Stale(s.rows[k], cutoff, {}) <==> exists i :: 0 <= i < |picked| && picked[i].jobId == s.rows[k].jobId
    {
      PickedIffStale(s.rows, cutoff, k);
    }
  }

  lemma PickedIffStale(rows: seq<Reservation>, cutoff: int, k: nat)
    requires UniqueJobs(rows) && k < |rows| && |Selected(rows, cutoff, {})| < 200
    ensures var picked := Selected(rows, cutoff, {});
      Stale(rows[k], cutoff, {}) <==> exists i :: 0 <= i < |picked| && picked[i].jobId == rows[k].jobId
  {
    var picked := Selected(rows, cutoff, {});
    SelectedStale(rows, cutoff, {});
    assert rows[k] in rows;
    if Stale(rows[k], cutoff, {}) {
      var i :| 0 <= i < |picked| && picked[i] == rows[k];
    }
    if i :| 0 <= i < |picked| && picked[i].jobId == rows[k].jobId {
      assert picked[i] in picked;
      var j :| 0 <= j < |rows| && rows[j] == picked[i];
      assert j == k;
    }
  }

  /** One sweep is a run of sound operations; with fewer than two hundred stale rows and none locked,
      no stale reservation survives it. */
  lemma SweepSettlesStale(s: Ledger, owner: string -> string, cutoff: int)
    requires Good(s, owner) && Conserved(s)
    requires |Selected(s.rows, cutoff, {})| < 200
    ensures var s' := AfterSweep(s, Selected(s.rows, cutoff, {}));
      && Good(s', owner) && Conserved(s')
      && (forall r :: r in s'.rows ==> !Stale(r, cutoff, {}))
  {
    SweepIsRun(s, Selected(s.rows, cutoff, {}), owner);
    SweepRows(s, cutoff);
  }

  /** A crash leaks nothing past the sweep. When every row still reserved is stale and one sweep can take them all,
      each counter is afterwards exactly the tokens recorded as consumed, whatever workers left behind. */
  lemma NothingLeaksPastTheSweep(s: Ledger, owner: string -> string, cutoff: int)
    requires Good(s, owner) && Conserved(s) && |Selected(s.rows, cutoff, {})| < 200
    requires forall r :: r in s.rows && r.status == Reserved ==> r.reservedAt < cutoff
    ensures var s' := AfterSweep(s, Selected(s.rows, cutoff, {}));
      forall org :: org in s'.budgets ==> s'.budgets[org].used == ConsumedTokens(s'.rows, s'.spent, org)
  {
    var s' := AfterSweep(s, Selected(s.rows, cutoff, {}));
    SweepSettlesStale(s, owner, cutoff);
    SweepRows(s, cutoff);
    forall r | r in s'.rows ensures r.status != Reserved {
      var k :| 0 <= k < |s'.rows| && s'.rows[k] == r;
      assert s.rows[k] in s.rows;
    }
    forall org | org in s'.budgets ensures s'.budgets[org].used == ConsumedTokens(s'.rows, s'.spent, org) {
      HeldIsConsumed(s', owner, s'.rows, org);
    }
  }

  lemma {:induction false} SweepIsRun(s: Ledger, picked: seq<Reservation>, owner: string -> string)
    requires Good(s, owner) && Conserved(s)
    ensures Good(AfterSweep(s, picked), owner) && Conserved(AfterSweep(s, picked))
  {
    if picked != [] {
      var n := |picked| - 1;
      SweepIsRun(s, picked[..n], owner);
      var m := AfterSweep(s, picked[..n]);
      GoodStep(m, Sweep(picked[n].jobId), owner);
      ConservedIffSound(m, Sweep(picked[n].jobId), owner);
    }
  }

  // ---------------------------------------------------------------------------
  // The limit
  // ---------------------------------------------------------------------------

  /** How far recorded tokens exceeded the estimate, summed over a run. */
  function Overrun(ops: seq<Op>): nat {
    if ops == [] then 0
    else
      var last := ops[|ops| - 1];
      Overrun(ops[..|ops| - 1])
      + (if last.Record? && last.actual > last.estimate then last.actual - last.estimate else 0)
  }

  ghost predicate WithinLimits(s: Ledger, slack: nat) {
    forall org :: org in s.budgets && s.budgets[org].hard ==> s.budgets[org].used <= s.budgets[org].limit + slack
  }

  /** A hard limit is exceeded at most by what recordings ran over their estimates, in every run at all:
      reservations alone never cross it. */
  lemma {:induction false} LimitRespected(s: Ledger, ops: seq<Op>, owner: string -> string)
    requires Good(s, owner) && WithinLimits(s, 0)
    ensures WithinLimits(Run(s, ops, owner), Overrun(ops))
  {
    if ops != [] {
      var n := |ops| - 1;
      LimitRespected(s, ops[..n], owner);
      GoodKept(s, ops[..n], owner);
      LimitStep(Run(s, ops[..n], owner), Overrun(ops[..n]), ops[n], owner);
    }
  }

  lemma LimitStep(s: Ledger, slack: nat, op: Op, owner: string -> string)
    requires Good(s, owner) && WithinLimits(s, slack)
    ensures WithinLimits(Apply(s, op, owner),
                         slack + (if op.Record? && op.actual > op.estimate then op.actual - op.estimate else 0))
  {
    if (op.Release? || op.Sweep?) && IsReserved(s.rows, op.job) {
      assert s.rows[RowOf(s.rows, op.job)] in s.rows;
    }
  }

  // ---------------------------------------------------------------------------
  // One settlement per row
  // ---------------------------------------------------------------------------

  /** The operation takes the row of the job out of `reserved`. */
  predicate Settles(s: Ledger, op: Op, job: string) {
    (op.Record? || op.Release? || op.Sweep?) && op.job == job && IsReserved(s.rows, job)
  }

  function Settlements(s: Ledger, ops: seq<Op>, owner: string -> string, job: string): nat {
    if ops == [] then 0
    else
      var n := |ops| - 1;
      Settlements(s, ops[..n], owner, job) + (if Settles(Run(s, ops[..n], owner), ops[n], job) then 1 else 0)
  }

  lemma SettledStays(s: Ledger, op: Op, owner: string -> string, job: string)
    requires Good(s, owner)
    ensures var s' := Apply(s, op, owner);
      && (HasRow(s.rows, job) ==> HasRow(s'.rows, job))
      && (HasRow(s.rows, job) && !IsReserved(s.rows, job) ==> !IsReserved(s'.rows, job))
      && (Settles(s, op, job) ==> HasRow(s'.rows, job) && !IsReserved(s'.rows, job))
  {
    var s' := Apply(s, op, owner);
    GoodStep(s, op, owner);
    if HasRow(s.rows, job) {
      var k := RowOf(s.rows, job);
      assert k < |s'.rows| && s'.rows[k].jobId == job;
      RowFound(s'.rows, k);
    }
  }

  /** Each reservation row leaves `reserved` at most once in any run, so no estimate is credited twice. */
  lemma {:induction false} SettledOnce(s: Ledger, ops: seq<Op>, owner: string -> string, job: string)
    requires Good(s, owner)
    ensures Settlements(s, ops, owner, job) <= 1
    ensures Settlements(s, ops, owner, job) == 1 ==>
      var s' := Run(s, ops, owner); HasRow(s'.rows, job) && !IsReserved(s'.rows, job)
  {
    if ops != [] {
      var n := |ops| - 1;
      SettledOnce(s, ops[..n], owner, job);
      GoodKept(s, ops[..n], owner);
      SettledStays(Run(s, ops[..n], owner), ops[n], owner, job);
    }
  }

  // ---------------------------------------------------------------------------
  // Where the books break
  // ---------------------------------------------------------------------------

  /** Tokens counted as used that no row stands for. */
  function Excess(s: Ledger, org: string): int
    requires org in s.budgets
  {
    s.budgets[org].used - Held(s.rows, s.spent, org)
  }

  predicate Cleanup(op: Op) { op.Release? || op.Sweep? }

  /** A second reservation of the same job charges the counter again without a row; no sequence of
      releases and sweeps ever gives those tokens back. */
  lemma {:induction false} RetryLeaks(s: Ledger, owner: string -> string, job: string, estimate: nat, now: int,
                                      cleanup: seq<Op>)
    requires Good(s, owner) && Conserved(s)
    requires HasRow(s.rows, job) && Admits(s.budgets, owner(job), estimate)
    requires forall k :: 0 <= k < |cleanup| ==> Cleanup(cleanup[k])
    ensures var s' := Run(AfterReserve(s, owner(job), job, estimate, now), cleanup, owner);
      owner(job) in s'.budgets && Excess(s', owner(job)) == estimate
      && Good(s', owner) && (forall org :: org in s'.budgets ==> Excess(s', org) >= 0)
  {
    var s1 := AfterReserve(s, owner(job), job, estimate, now);
    assert s.rows[RowOf(s.rows, job)] in s.rows;
    if cleanup == [] {
      GoodStep(s, Reserve(job, estimate, now), owner);
    } else {
      var n := |cleanup| - 1;
      RetryLeaks(s, owner, job, estimate, now, cleanup[..n]);
      var m := Run(s1, cleanup[..n], owner);
      CleanupKeepsExcess(m, cleanup[n], owner);
    }
  }

  lemma CleanupKeepsExcess(s: Ledger, op: Op, owner: string -> string)
    requires Good(s, owner) && Cleanup(op) && forall org :: org in s.budgets ==> Excess(s, org) >= 0
    ensures var s' := Apply(s, op, owner);
      && Good(s', owner) && s'.budgets.Keys == s.budgets.Keys
      && (forall org :: org in s.budgets ==> Excess(s', org) == Excess(s, org))
  {
    GoodStep(s, op, owner);
    if IsReserved(s.rows, op.job) {
      var s' := Apply(s, op, owner);
      var k := RowOf(s.rows, op.job);
      assert s.rows[k] in s.rows;
      var to := if op.Release? then Released else Expired;
      HeldAtLeast(s, owner, s.rows, owner(op.job));
      assert Share(s.rows[k], s.spent, owner(op.job)) == s.rows[k].estimate;
      forall org | org in s.budgets ensures Excess(s', org) == Excess(s, org) {
        HeldSettled(s, owner, op.job, to, s.spent, org);
      }
    }
  }

  /** The state after the sweep of a reserved row: still balanced, one estimate lower, and not reserved any more. */
  lemma SweptRow(s: Ledger, owner: string -> string, job: string)
    requires Good(s, owner) && Conserved(s) && IsReserved(s.rows, job)
    ensures var swept := AfterSweepRow(s, job);
      && !IsReserved(swept.rows, job) && owner(job) in s.budgets && owner(job) in swept.budgets
      && swept.budgets[owner(job)].used == Held(swept.rows, swept.spent, owner(job))
      && swept.budgets[owner(job)].used == s.budgets[owner(job)].used - s.rows[RowOf(s.rows, job)].estimate
      && s.rows[RowOf(s.rows, job)].estimate >= 0
  {
    assert s.rows[RowOf(s.rows, job)] in s.rows;
    CreditLaw(s, job, Expired, owner);
    GoodStep(s, Sweep(job), owner);
    SettledStays(s, Sweep(job), owner, job);
  }

  /** A worker that records after its row was swept moves the counter by the difference to an estimate
      that had already been given back: its tokens are undercounted by that estimate. */
  lemma LateRecordUndercounts(s: Ledger, owner: string -> string, job: string, estimate: nat, actual: nat, cost: real)
    requires Good(s, owner) && Conserved(s) && IsReserved(s.rows, job)
    ensures Undercounted(s, AfterSweepRow(s, job), owner(job), job, s.rows[RowOf(s.rows, job)].estimate,
                         estimate, actual, cost)
  {
    SweptRow(s, owner, job);
    LateAgainstPunctual(s, AfterSweepRow(s, job), owner(job), job, s.rows[RowOf(s.rows, job)].estimate,
                        estimate, actual, cost);
  }

  /** Recorded late, after the sweep, the tokens leave the counter lower than recorded in time, by the estimate that the
      sweep had given back; what no row stands for is the difference to the estimate, as far as the counter reaches. */
  predicate Undercounted(s: Ledger, swept: Ledger, org: string, job: string, reserved: int,
                         estimate: nat, actual: nat, cost: real)
  {
    var late := AfterRecord(swept, org, job, estimate, actual, cost);
    var punctual := AfterRecord(s, org, job, estimate, actual, cost);
    && org in swept.budgets && org in late.budgets && org in punctual.budgets
    && late.budgets[org].used == Max(0, punctual.budgets[org].used - reserved)
    && Excess(late, org) == Max(-swept.budgets[org].used, actual - estimate)
  }

  lemma LateAgainstPunctual(s: Ledger, swept: Ledger, org: string, job: string, reserved: int,
                            estimate: nat, actual: nat, cost: real)
    requires org in s.budgets && org in swept.budgets && reserved >= 0
    requires swept.budgets[org].used == s.budgets[org].used - reserved
    requires !IsReserved(swept.rows, job) && swept.budgets[org].used == Held(swept.rows, swept.spent, org)
    ensures Undercounted(s, swept, org, job, reserved, estimate, actual, cost)
  {
    RecordedUsed(s, org, job, estimate, actual, cost);
    LateExcess(swept, org, job, estimate, actual, cost);
    MaxShift(s.budgets[org].used + actual - estimate, reserved);
  }

  lemma MaxShift(x: int, r: int)
    requires r >= 0
    ensures Max(0, x - r) == Max(0, Max(0, x) - r)
  {
  }

  /** Recording without a reserved row, from balanced books: the counter moves, what is held does not. */
  lemma LateExcess(s: Ledger, org: string, job: string, estimate: nat, actual: nat, cost: real)
    requires !IsReserved(s.rows, job) && org in s.budgets && s.budgets[org].used == Held(s.rows, s.spent, org)
    ensures var late := AfterRecord(s, org, job, estimate, actual, cost);
      && org in late.budgets && late.budgets[org].used == Max(0, s.budgets[org].used + actual - estimate)
      && Excess(late, org) == Max(-s.budgets[org].used, actual - estimate)
  {
    RecordedUsed(s, org, job, estimate, actual, cost);
    LateRow(s, org, job, estimate, actual, cost);
  }

  /** Recording without a reserved row leaves rows and recorded tokens alone. */
  lemma LateRow(s: Ledger, org: string, job: string, estimate: nat, actual: nat, cost: real)
    requires !IsReserved(s.rows, job)
    ensures var late := AfterRecord(s, org, job, estimate, actual, cost); late.rows == s.rows && late.spent == s.spent
  {
  }

  // ---------------------------------------------------------------------------
  // Cost
  // ---------------------------------------------------------------------------

  /** The cost recorded for an organisation's jobs in a run. */
  function RecordedCost(ops: seq<Op>, owner: string -> string, org: string): real {
    if ops == [] then 0.0
    else
      var last := ops[|ops| - 1];
      RecordedCost(ops[..|ops| - 1], owner, org) + (if last.Record? && owner(last.job) == org then last.cost else 0.0)
  }

  /** Unlike the tokens, the month's cost is exact in every run, sound or not: it is the sum of what was recorded. */
  lemma {:induction false} CostIsTheSum(s: Ledger, ops: seq<Op>, owner: string -> string, org: string)
    requires org in s.budgets
    ensures var s' := Run(s, ops, owner);
      org in s'.budgets && s'.budgets[org].cost == s.budgets[org].cost + RecordedCost(ops, owner, org)
  {
    if ops != [] {
      var n := |ops| - 1;
      CostIsTheSum(s, ops[..n], owner, org);
      CostStep(Run(s, ops[..n], owner), ops[n], owner, org);
    }
  }

  lemma CostStep(s: Ledger, op: Op, owner: string -> string, org: string)
    requires org in s.budgets
    ensures var s' := Apply(s, op, owner);
      org in s'.budgets
      && s'.budgets[org].cost == s.budgets[org].cost + (if op.Record? && owner(op.job) == org then op.cost else 0.0)
  {
  }
}
