/** Per-organisation AI token budget: reservations, their settlement and the expiry sweeper. */
module OfferBudget {
  import opened Basics

  const TOKEN_ESTIMATE: int := 2000
  const DEFAULT_DAILY_LIMIT: int := 200000
  const RESERVATION_EXPIRY_SECONDS: int := 15 * 60
  const SWEEP_LIMIT: nat := 200

  datatype ReservationStatus = Reserved | Consumed | Released | Expired

  /** A row of ai_budget_reservations. */
  datatype Reservation = Reservation(
    jobId: string, organizationId: string, estimate: int, status: ReservationStatus, reservedAt: int)

  /** A row of organization_ai_budgets: tokens used today, the daily limit, whether it is hard, this month's cost. */
  datatype Budget = Budget(used: int, limit: int, hard: bool, cost: real)

  /** `spent` only records the past: the tokens recorded for each job whose row was consumed. */
  datatype Ledger = Ledger(budgets: map<string, Budget>, rows: seq<Reservation>, spent: map<string, int>)

  function Max(a: int, b: int): int { if a < b then b else a }

  // ---------------------------------------------------------------------------
  // The statements, one transaction each
  // ---------------------------------------------------------------------------

  /** Position of the row of a job, or |rows|: UNIQUE(offer_job_id) leaves at most one. */
  function RowOf(rows: seq<Reservation>, job: string): (k: nat)
    ensures k <= |rows|
    ensures k < |rows| ==> rows[k].jobId == job
    ensures forall i :: 0 <= i < k ==> rows[i].jobId != job
  {
    if rows == [] || rows[0].jobId == job then 0 else 1 + RowOf(rows[1..], job)
  }

  predicate HasRow(rows: seq<Reservation>, job: string) { RowOf(rows, job) < |rows| }

  predicate IsReserved(rows: seq<Reservation>, job: string) {
    HasRow(rows, job) && rows[RowOf(rows, job)].status == Reserved
  }

  function Settle(rows: seq<Reservation>, job: string, to: ReservationStatus): seq<Reservation>
    requires HasRow(rows, job)
  {
    var k := RowOf(rows, job);
    rows[k := rows[k].(status := to)]
  }

  function Charge(budgets: map<string, Budget>, org: string, delta: int): map<string, Budget> {
    if org in budgets then budgets[org := budgets[org].(used := Max(0, budgets[org].used + delta))] else budgets
  }

  function Ensured(budgets: map<string, Budget>, org: string): map<string, Budget> {
    if org in budgets then budgets else budgets[org := Budget(0, DEFAULT_DAILY_LIMIT, true, 0.0)]
  }

  /** The guard of the atomic counter update. */
  predicate Admits(budgets: map<string, Budget>, org: string, estimate: int) {
    var b := Ensured(budgets, org)[org];
    !b.hard || b.used + estimate <= b.limit
  }

  /** reserve(): the counter moves first; the row insert does nothing when the job already has a row. */
  function AfterReserve(s: Ledger, org: string, job: string, estimate: int, now: int): Ledger {
    if !Admits(s.budgets, org, estimate) then s
    else
      var budgets := Ensured(s.budgets, org);
      s.(budgets := budgets[org := budgets[org].(used := budgets[org].used + estimate)],
         rows := if HasRow(s.rows, job) then s.rows
                 else s.rows + [Reservation(job, org, estimate, Reserved, now)])
  }

  /** record_actual(): the counter moves by actual minus estimated, and the cost is added, whatever the row's status;
      a reserved row becomes consumed. */
  function AfterRecord(s: Ledger, org: string, job: string, estimated: int, actual: int, cost: real): Ledger {
    var budgets := WithCost(Charge(s.budgets, org, actual - estimated), org, cost);
    if IsReserved(s.rows, job)
    then Ledger(budgets, Settle(s.rows, job, Consumed), s.spent[job := actual])
    else s.(budgets := budgets)
  }

  function WithCost(budgets: map<string, Budget>, org: string, cost: real): map<string, Budget> {
    if org in budgets then budgets[org := budgets[org].(cost := budgets[org].cost + cost)] else budgets
  }

  /** release(): only a reserved row is credited back. */
  function AfterRelease(s: Ledger, org: string, job: string): Ledger {
    if !IsReserved(s.rows, job) then s
    else s.(budgets := Charge(s.budgets, org, -s.rows[RowOf(s.rows, job)].estimate),
            rows := Settle(s.rows, job, Released))
  }

  /** One row of the sweep: the row is locked and still reserved, and is credited to its own organisation. */
  function AfterSweepRow(s: Ledger, job: string): Ledger {
    if !IsReserved(s.rows, job) then s
    else
      var row := s.rows[RowOf(s.rows, job)];
      s.(budgets := Charge(s.budgets, row.organizationId, -row.estimate), rows := Settle(s.rows, job, Expired))
  }

  function AfterReset(s: Ledger, org: string): Ledger {
    if org in s.budgets then s.(budgets := s.budgets[org := s.budgets[org].(used := 0)]) else s
  }

  // ---------------------------------------------------------------------------
  // Sweep selection: stale reserved rows, oldest first, at most two hundred, skipping locked ones
  // ---------------------------------------------------------------------------

  predicate Stale(row: Reservation, cutoff: int, locked: set<string>) {
    row.status == Reserved && row.reservedAt < cutoff && row.jobId !in locked
  }

  function StaleRows(rows: seq<Reservation>, cutoff: int, locked: set<string>): (r: seq<Reservation>)
    ensures forall x :: x in r <==> x in rows && Stale(x, cutoff, locked)
  {
    if rows == [] then []
    else
      var rest := StaleRows(rows[1..], cutoff, locked);
      if Stale(rows[0], cutoff, locked) then [rows[0]] + rest else rest
  }

  function InsertByAge(row: Reservation, sorted: seq<Reservation>): seq<Reservation> {
    if sorted == [] || row.reservedAt <= sorted[0].reservedAt then [row] + sorted
    else [sorted[0]] + InsertByAge(row, sorted[1..])
  }

  function OldestFirst(rows: seq<Reservation>): seq<Reservation> {
    if rows == [] then [] else InsertByAge(rows[0], OldestFirst(rows[1..]))
  }

  function Selected(rows: seq<Reservation>, cutoff: int, locked: set<string>): seq<Reservation> {
    var all := OldestFirst(StaleRows(rows, cutoff, locked));
    if |all| <= SWEEP_LIMIT then all else all[..SWEEP_LIMIT]
  }

  function AfterSweep(s: Ledger, picked: seq<Reservation>): Ledger {
    if picked == [] then s
    else AfterSweepRow(AfterSweep(s, picked[..|picked| - 1]), picked[|picked| - 1].jobId)
  }

  // ---------------------------------------------------------------------------
  // The service and the sweeper over one store
  // ---------------------------------------------------------------------------

  datatype ReserveOutcome = Admitted | BudgetExhausted

  class BudgetStore {
    var budgets: map<string, Budget>
    var rows: seq<Reservation>
    ghost var spent: map<string, int>

    constructor ()
      ensures Contents() == Ledger(map[], [], map[])
    {
      budgets, rows, spent := map[], [], map[];
    }

    ghost function Contents(): Ledger
      reads this
    {
      Ledger(budgets, rows, spent)
    }

    method Reserve(org: string, job: string, estimate: int, now: int) returns (outcome: ReserveOutcome)
      modifies this
      ensures var known := org in old(budgets);
        var used := if known then old(budgets)[org].used else 0;
        var limit := if known then old(budgets)[org].limit else DEFAULT_DAILY_LIMIT;
        outcome == Admitted <==> (known && !old(budgets)[org].hard) || used + estimate <= limit
      ensures Contents() == AfterReserve(old(Contents()), org, job, estimate, now)
    {
      var ensured := Ensured(budgets, org);
      var b := ensured[org];
      if b.hard && b.used + estimate > b.limit {
        return BudgetExhausted;
      }
      budgets := ensured[org := b.(used := b.used + estimate)];
      if !HasRow(rows, job) {
        rows := rows + [Reservation(job, org, estimate, Reserved, now)];
      }
      outcome := Admitted;
    }

    method RecordActual(org: string, job: string, estimated: int, actual: int, cost: real)
      modifies this
      ensures Contents() == AfterRecord(old(Contents()), org, job, estimated, actual, cost)
    {
      var delta := actual - estimated;
      budgets := WithCost(Charge(budgets, org, delta), org, cost);
      if IsReserved(rows, job) {
        rows := Settle(rows, job, Consumed);
        spent := spent[job := actual];
      }
    }

    method Release(org: string, job: string)
      modifies this`budgets, this`rows
      ensures Contents() == AfterRelease(old(Contents()), org, job)
    {
      if !IsReserved(rows, job) {
        return;
      }
      var estimate := rows[RowOf(rows, job)].estimate;
      rows := Settle(rows, job, Released);
      budgets := Charge(budgets, org, -estimate);
    }

    method ResetDailyCounter(org: string)
      modifies this`budgets
      ensures Contents() == AfterReset(old(Contents()), org)
    {
      if org in budgets {
        budgets := budgets[org := budgets[org].(used := 0)];
      }
    }

    /** One sweep; `locked` are the rows other sweeps hold. A statement that raises, at row `failing`, is caught row by
        row, but it has aborted the transaction: the rows after it raise too and the commit keeps nothing, although
        the rows before it are counted. */
    method SweepOnce(now: int, locked: set<string>, failing: Option<nat>) returns (swept: nat)
      requires UniqueJobs(rows)
      modifies this`budgets, this`rows
      ensures var picked := Selected(old(rows), now - RESERVATION_EXPIRY_SECONDS, locked);
        if failing.Some? && failing.value < |picked|
        then swept == failing.value && Contents() == old(Contents())
        else swept == |picked| && Contents() == AfterSweep(old(Contents()), picked)
    {
      var stale := Selected(rows, now - RESERVATION_EXPIRY_SECONDS, locked);
      SelectedSweepable(rows, now - RESERVATION_EXPIRY_SECONDS, locked);
      var before, beforeBudgets := rows, budgets;
      swept := if failing.Some? && failing.value < |stale| then failing.value else |stale|;
      SweepRows(stale, swept);
      if swept < |stale| {
        rows, budgets := before, beforeBudgets;
      } else {
        assert stale[..swept] == stale;
      }
    }

    method SweepRows(stale: seq<Reservation>, n: nat)
      requires UniqueJobs(rows) && Sweepable(rows, stale) && n <= |stale|
      modifies this`budgets, this`rows
      ensures Contents() == AfterSweep(old(Contents()), stale[..n])
    {
      ghost var start := Contents();
      var i := 0;
      while i < n
        invariant 0 <= i <= n
        invariant Contents() == AfterSweep(start, stale[..i])
      {
        SweepNext(start, stale, i);
        rows := Settle(rows, stale[i].jobId, Expired);
        budgets := Charge(budgets, stale[i].organizationId, -stale[i].estimate);
        i := i + 1;
      }
    }
  }

  ghost predicate UniqueJobs(rows: seq<Reservation>) {
    forall i, j :: 0 <= i < j < |rows| ==> rows[i].jobId != rows[j].jobId
  }

  lemma RowFound(rows: seq<Reservation>, k: nat)
    requires UniqueJobs(rows) && k < |rows|
    ensures RowOf(rows, rows[k].jobId) == k
  {
  }

  lemma {:induction false} InsertByAgeMembers(row: Reservation, sorted: seq<Reservation>)
    ensures multiset(InsertByAge(row, sorted)) == multiset([row]) + multiset(sorted)
    ensures AgeSorted(sorted) ==> AgeSorted(InsertByAge(row, sorted))
  {
    if sorted != [] && row.reservedAt > sorted[0].reservedAt {
      InsertByAgeMembers(row, sorted[1..]);
      assert sorted == [sorted[0]] + sorted[1..];
      if AgeSorted(sorted) { InsertBehind(row, sorted); }
    } else if AgeSorted(sorted) && sorted != [] {
      SortedCons(row, sorted);
    }
  }

  lemma InsertBehind(row: Reservation, sorted: seq<Reservation>)
    requires sorted != [] && AgeSorted(sorted) && row.reservedAt > sorted[0].reservedAt
    requires var tail := InsertByAge(row, sorted[1..]);
      AgeSorted(tail) && multiset(tail) == multiset([row]) + multiset(sorted[1..])
    ensures AgeSorted(InsertByAge(row, sorted))
  {
    var tail := InsertByAge(row, sorted[1..]);
    forall x | x in tail ensures sorted[0].reservedAt <= x.reservedAt {
      assert x in multiset(tail);
      assert x == row || x in sorted[1..];
    }
    SortedCons(sorted[0], tail);
  }

  ghost predicate AgeSorted(rows: seq<Reservation>) {
    forall i, j :: 0 <= i < j < |rows| ==> rows[i].reservedAt <= rows[j].reservedAt
  }

  lemma SortedCons(head: Reservation, tail: seq<Reservation>)
    requires AgeSorted(tail) && forall x :: x in tail ==> head.reservedAt <= x.reservedAt
    ensures AgeSorted([head] + tail)
  {
    var all := [head] + tail;
    forall i, j | 0 <= i < j < |all| ensures all[i].reservedAt <= all[j].reservedAt {
      assert all[j] == tail[j - 1] && tail[j - 1] in tail;
    }
  }

  lemma {:induction false} OldestFirstSorts(rows: seq<Reservation>)
    ensures multiset(OldestFirst(rows)) == multiset(rows) && AgeSorted(OldestFirst(rows))
  {
    if rows != [] {
      OldestFirstSorts(rows[1..]);
      InsertByAgeMembers(rows[0], OldestFirst(rows[1..]));
      assert rows == [rows[0]] + rows[1..];
    }
  }

  lemma {:induction false} StaleRowsUnique(rows: seq<Reservation>, cutoff: int, locked: set<string>)
    requires UniqueJobs(rows)
    ensures forall x :: multiset(StaleRows(rows, cutoff, locked))[x] <= 1
  {
    if rows != [] {
      StaleRowsUnique(rows[1..], cutoff, locked);
      var rest := StaleRows(rows[1..], cutoff, locked);
      forall x | x in rest ensures x != rows[0] {
        var k :| 0 <= k < |rows[1..]| && rows[1..][k] == x;
        assert rows[k + 1] == x;
      }
    }
  }

  lemma MultisetUnique(s: seq<Reservation>, i: nat, j: nat)
    requires i < j < |s| && s[i] == s[j]
    ensures multiset(s)[s[i]] >= 2
  {
    assert s == s[..i] + [s[i]] + s[i + 1..j] + [s[j]] + s[j + 1..];
  }

  /** The selection: only stale rows, none twice, none older left out, everything when two hundred suffice. */
  lemma SelectedStale(rows: seq<Reservation>, cutoff: int, locked: set<string>)
    requires UniqueJobs(rows)
    ensures var picked := Selected(rows, cutoff, locked);
      && (forall x :: x in picked ==> x in rows && Stale(x, cutoff, locked))
      && (forall i, j :: 0 <= i < j < |picked| ==> picked[i].jobId != picked[j].jobId)
      && (forall x, y :: x in picked && y in rows && Stale(y, cutoff, locked) && y !in picked ==>
            x.reservedAt <= y.reservedAt)
      && |picked| <= 200
      && (|picked| < 200 ==> forall y :: y in rows && Stale(y, cutoff, locked) ==> y in picked)
  {
    var stale := StaleRows(rows, cutoff, locked);
    var all := OldestFirst(stale);
    var picked := Selected(rows, cutoff, locked);
    OldestFirstSorts(stale);
    StaleRowsUnique(rows, cutoff, locked);
    forall x ensures x in all <==> x in stale {
      assert x in multiset(all) <==> x in multiset(stale);
    }
    forall i, j | 0 <= i < j < |picked| ensures picked[i].jobId != picked[j].jobId {
      assert picked[i] == all[i] && picked[j] == all[j];
      if all[i] == all[j] { MultisetUnique(all, i, j); }
      assert all[i] in rows && all[j] in rows;
      var a :| 0 <= a < |rows| && rows[a] == all[i];
      var b :| 0 <= b < |rows| && rows[b] == all[j];
    }
    forall x, y | x in picked && y in rows && Stale(y, cutoff, locked) && y !in picked
      ensures x.reservedAt <= y.reservedAt
    {
      assert y in all;
      var a :| 0 <= a < |picked| && picked[a] == x;
      var b :| 0 <= b < |all| && all[b] == y;
      assert b >= |picked|;
    }
  }

  /** Reserved rows of the table, none twice. */
  ghost predicate Sweepable(rows: seq<Reservation>, picked: seq<Reservation>) {
    && (forall x :: x in picked ==> x in rows && x.status == Reserved)
    && (forall i, j :: 0 <= i < j < |picked| ==> picked[i].jobId != picked[j].jobId)
  }

  lemma SelectedSweepable(rows: seq<Reservation>, cutoff: int, locked: set<string>)
    requires UniqueJobs(rows)
    ensures Sweepable(rows, Selected(rows, cutoff, locked))
  {
    SelectedStale(rows, cutoff, locked);
  }

  ghost predicate Named(picked: seq<Reservation>, n: nat, jobId: string) {
    exists i :: 0 <= i < n && i < |picked| && picked[i].jobId == jobId
  }

  /** Exactly the rows of the first n jobs have expired. */
  ghost predicate SweptUpTo(before: seq<Reservation>, after: seq<Reservation>, picked: seq<Reservation>, n: nat) {
    && |after| == |before|
    && forall k :: 0 <= k < |before| ==>
         after[k] == if Named(picked, n, before[k].jobId) then before[k].(status := Expired) else before[k]
  }

  lemma NextUntouched(before: seq<Reservation>, after: seq<Reservation>, picked: seq<Reservation>, n: nat)
    requires UniqueJobs(before) && n < |picked| && Sweepable(before, picked) && SweptUpTo(before, after, picked, n)
    ensures UniqueJobs(after) && IsReserved(after, picked[n].jobId) && after[RowOf(after, picked[n].jobId)] == picked[n]
  {
    assert picked[n] in before;
    var k :| 0 <= k < |before| && before[k] == picked[n];
    assert !Named(picked, n, picked[n].jobId);
    RowFound(after, k);
  }

  lemma SweptOneMore(before: seq<Reservation>, after: seq<Reservation>, picked: seq<Reservation>, n: nat)
    requires UniqueJobs(before) && n < |picked| && Sweepable(before, picked) && SweptUpTo(before, after, picked, n)
    requires HasRow(after, picked[n].jobId)
    ensures SweptUpTo(before, Settle(after, picked[n].jobId, Expired), picked, n + 1)
  {
    NextUntouched(before, after, picked, n);
    var k0 := RowOf(after, picked[n].jobId);
    var next := Settle(after, picked[n].jobId, Expired);
    forall k | 0 <= k < |before|
      ensures next[k] == if Named(picked, n + 1, before[k].jobId) then before[k].(status := Expired) else before[k]
    {
      var job := before[k].jobId;
      assert Named(picked, n + 1, job) <==> Named(picked, n, job) || job == picked[n].jobId;
      assert k != k0 ==> before[k].jobId != before[k0].jobId;
    }
  }

  /** Partway through a sweep the rows still to come are untouched. */
  lemma {:induction false} SweepLeaves(s: Ledger, picked: seq<Reservation>, n: nat)
    requires UniqueJobs(s.rows) && n <= |picked|
    requires Sweepable(s.rows, picked)
    ensures var s' := AfterSweep(s, picked[..n]);
      && SweptUpTo(s.rows, s'.rows, picked, n) && s'.spent == s.spent && UniqueJobs(s'.rows)
      && (n < |picked| ==>
            IsReserved(s'.rows, picked[n].jobId) && s'.rows[RowOf(s'.rows, picked[n].jobId)] == picked[n])
  {
    if n > 0 {
      SweepLeaves(s, picked, n - 1);
      assert picked[..n][..n - 1] == picked[..n - 1];
      SweptOneMore(s.rows, AfterSweep(s, picked[..n - 1]).rows, picked, n - 1);
    }
    if n < |picked| { NextUntouched(s.rows, AfterSweep(s, picked[..n]).rows, picked, n); }
  }

  lemma SweepNext(s: Ledger, picked: seq<Reservation>, n: nat)
    requires UniqueJobs(s.rows) && n < |picked|
    requires Sweepable(s.rows, picked)
    ensures var m := AfterSweep(s, picked[..n]);
      && HasRow(m.rows, picked[n].jobId)
      && AfterSweep(s, picked[..n + 1]) ==
           Ledger(Charge(m.budgets, picked[n].organizationId, -picked[n].estimate),
                  Settle(m.rows, picked[n].jobId, Expired), m.spent)
  {
    var m := AfterSweep(s, picked[..n]);
    var job := picked[n].jobId;
    assert HasRow(m.rows, job) && m.rows[RowOf(m.rows, job)] == picked[n] && picked[n] in picked by {
      SweepLeaves(s, picked, n);
    }
    assert picked[..n + 1][..n] == picked[..n];
  }
}
