/** Which reservations succeed, in numbers, and when they go stale. */
module OfferAdmission {
  import opened OfferBudget
  import opened OfferLedger

  /** One reservation for each of the jobs, in their order, by workers of one organisation. */
  function ReserveAll(s: Ledger, org: string, jobs: seq<string>, estimate: int, now: int): Ledger {
    if jobs == [] then s
    else AfterReserve(ReserveAll(s, org, jobs[..|jobs| - 1], estimate, now), org, jobs[|jobs| - 1], estimate, now)
  }

  /** Different jobs, none of which has a reservation yet. */
  ghost predicate NewJobs(s: Ledger, jobs: seq<string>) {
    && (forall i :: 0 <= i < |jobs| ==> forall r :: r in s.rows ==> r.jobId != jobs[i])
    && (forall i, j :: 0 <= i < j < |jobs| ==> jobs[i] != jobs[j])
  }

  /** How many estimates fit between what is used and the limit. */
  function Room(used: int, limit: int, estimate: int): nat
    requires estimate > 0
  {
    if used <= limit then (limit - used) / estimate else 0
  }

  lemma RoomIsExact(used: int, limit: int, estimate: int, n: nat)
    requires estimate > 0
    ensures n < Room(used, limit, estimate) <==> used + estimate * n + estimate <= limit
  {
    if used <= limit {
      var room := Room(used, limit, estimate);
      if n < room { Grows(estimate, n + 1, room); } else { Grows(estimate, room + 1, n + 1); }
    } else {
      Grows(estimate, 0, n);
    }
  }

  lemma Grows(e: int, a: int, b: int)
    requires e > 0 && a <= b
    ensures e * a <= e * b
  {
  }

  /** Exactly the first n jobs have been admitted: each has its row, and its estimate is on the organisation's counter.
      No other budget has moved. */
  ghost predicate FirstAdmitted(s: Ledger, s': Ledger, org: string, jobs: seq<string>, estimate: int, now: int, n: nat)
  {
    && n <= |jobs| && s'.spent == s.spent
    && s'.rows == s.rows + seq(n, i requires 0 <= i < n => Reservation(jobs[i], org, estimate, Reserved, now))
    && (n == 0 ==> s'.budgets == s.budgets)
    && (n > 0 && org in s.budgets ==>
          s'.budgets == s.budgets[org := s.budgets[org].(used := s.budgets[org].used + estimate * n)])
    && (n > 0 && org !in s.budgets ==>
          s'.budgets == s.budgets[org := Budget(estimate * n, 200000, true, 0.0)])
  }

  lemma OneMoreAdmitted(s: Ledger, m: Ledger, org: string, jobs: seq<string>, estimate: int, now: int)
    requires jobs != [] && NewJobs(s, jobs)
    requires FirstAdmitted(s, m, org, jobs[..|jobs| - 1], estimate, now, |jobs| - 1)
    requires var used := if org in s.budgets then s.budgets[org].used else 0;
      || (org in s.budgets && !s.budgets[org].hard)
      || used + estimate * (|jobs| - 1) + estimate <= (if org in s.budgets then s.budgets[org].limit else 200000)
    ensures FirstAdmitted(s, AfterReserve(m, org, jobs[|jobs| - 1], estimate, now), org, jobs, estimate, now, |jobs|)
  {
    var n := |jobs| - 1;
    forall k | 0 <= k < |m.rows| ensures m.rows[k].jobId != jobs[n] {
      assert m.rows[k] in s.rows || m.rows[k].jobId == jobs[k - |s.rows|];
    }
    assert estimate * |jobs| == estimate * n + estimate;
    var s' := AfterReserve(m, org, jobs[n], estimate, now);
    assert s'.rows == m.rows + [Reservation(jobs[n], org, estimate, Reserved, now)];
  }

  lemma OneMoreRefused(s: Ledger, m: Ledger, org: string, jobs: seq<string>, estimate: int, now: int, n: nat)
    requires jobs != [] && FirstAdmitted(s, m, org, jobs[..|jobs| - 1], estimate, now, n)
    requires org in s.budgets ==> s.budgets[org].hard
    requires var used := if org in s.budgets then s.budgets[org].used else 0;
      used + estimate * n + estimate > if org in s.budgets then s.budgets[org].limit else 200000
    ensures FirstAdmitted(s, AfterReserve(m, org, jobs[|jobs| - 1], estimate, now), org, jobs, estimate, now, n)
  {
    assert n == 0 ==> estimate * n == 0;
    assert AfterReserve(m, org, jobs[|jobs| - 1], estimate, now) == m;
  }

  lemma FewerNew(s: Ledger, jobs: seq<string>)
    requires jobs != [] && NewJobs(s, jobs)
    ensures NewJobs(s, jobs[..|jobs| - 1])
  {
  }

  /** Under a hard limit the reservations of one estimate for different jobs are admitted as long as the estimate fits,
      up to and including the one that reaches the limit exactly, and refused from the next one on, without a trace.
      An organisation without a budget row starts with 200000 tokens under a hard limit. */
  lemma {:induction false} HardLimitAdmits(s: Ledger, org: string, jobs: seq<string>, estimate: int, now: int)
    requires estimate > 0 && NewJobs(s, jobs) && (org in s.budgets ==> s.budgets[org].hard)
    ensures var used := if org in s.budgets then s.budgets[org].used else 0;
      var limit := if org in s.budgets then s.budgets[org].limit else 200000;
      var room := Room(used, limit, estimate);
      FirstAdmitted(s, ReserveAll(s, org, jobs, estimate, now), org, jobs, estimate, now,
                    if |jobs| <= room then |jobs| else room)
  {
    if jobs != [] {
      var n := |jobs| - 1;
      var used := if org in s.budgets then s.budgets[org].used else 0;
      var limit := if org in s.budgets then s.budgets[org].limit else 200000;
      var room := Room(used, limit, estimate);
      var m := ReserveAll(s, org, jobs[..n], estimate, now);
      FewerNew(s, jobs);
      HardLimitAdmits(s, org, jobs[..n], estimate, now);
      if n < room {
        RoomIsExact(used, limit, estimate, n);
        OneMoreAdmitted(s, m, org, jobs, estimate, now);
      } else {
        RoomIsExact(used, limit, estimate, room);
        OneMoreRefused(s, m, org, jobs, estimate, now, room);
      }
    }
  }

  /** A soft budget never refuses, whatever is used already. */
  lemma {:induction false} SoftBudgetNeverRefuses(s: Ledger, org: string, jobs: seq<string>, estimate: int, now: int)
    requires NewJobs(s, jobs) && org in s.budgets && !s.budgets[org].hard
    ensures FirstAdmitted(s, ReserveAll(s, org, jobs, estimate, now), org, jobs, estimate, now, |jobs|)
  {
    if jobs != [] {
      FewerNew(s, jobs);
      SoftBudgetNeverRefuses(s, org, jobs[..|jobs| - 1], estimate, now);
      OneMoreAdmitted(s, ReserveAll(s, org, jobs[..|jobs| - 1], estimate, now), org, jobs, estimate, now);
    }
  }

  /** With the estimate in use, a new organisation gets its first hundred jobs of a day and no more. */
  lemma HundredJobsADay(s: Ledger, org: string, jobs: seq<string>, now: int)
    requires NewJobs(s, jobs) && org !in s.budgets
    ensures FirstAdmitted(s, ReserveAll(s, org, jobs, TOKEN_ESTIMATE, now), org, jobs, 2000, now,
                          if |jobs| <= 100 then |jobs| else 100)
  {
    HardLimitAdmits(s, org, jobs, TOKEN_ESTIMATE, now);
  }

  /** An admitted reservation can be swept fifteen minutes later, and not before. */
  lemma ReservationStaleIff(s: Ledger, org: string, job: string, estimate: int, now: int, later: int)
    requires !HasRow(s.rows, job) && Admits(s.budgets, org, estimate)
    ensures var s' := AfterReserve(s, org, job, estimate, now);
      && (exists row :: row in s'.rows && row.jobId == job)
      && forall row :: row in s'.rows && row.jobId == job ==>
           (Stale(row, later - RESERVATION_EXPIRY_SECONDS, {}) <==> later > now + 900)
  {
    var s' := AfterReserve(s, org, job, estimate, now);
    var added := Reservation(job, org, estimate, Reserved, now);
    assert s'.rows == s.rows + [added] && added in s'.rows;
    assert forall i :: 0 <= i < |s.rows| ==> s.rows[i].jobId != job;
  }
}
