/** Audit rows written inside the caller's transaction: who they name, and what is durable when they fail. */
module AuditTrail {
  import opened Basics

  const SECURITY_CRITICAL_ACTIONS: set<string> :=
    {"admin.impersonate", "admin.user.reset_password", "auth.change_password"}

  datatype Actor = Actor(userId: Option<string>, email: Option<string>, orgId: Option<string>,
                         impersonatedBy: Option<string>)

  datatype User = User(userEmail: string, organizationId: Option<string>)

  datatype Entry = Entry(action: string, resourceType: string, resourceId: string, detail: string)

  datatype AuditRow = AuditRow(who: Actor, entry: Entry)

  type Change = string

  /** The request's actor, the session's staged work, the durable tables, and the failure metric. */
  datatype Books = Books(
    context: Option<Actor>, staged: seq<Change>, stagedRows: seq<AuditRow>,
    changes: seq<Change>, rows: seq<AuditRow>, failures: nat)

  datatype Faults = Faults(lookup: bool, commit: bool, rollback: bool)

  datatype Outcome = Returned | NotRegistered | WriteError

  // ---------------------------------------------------------------------------
  // The actor
  // ---------------------------------------------------------------------------

  /** Python's `or` on optional strings: an empty one counts as missing. */
  function OrElse(a: Option<string>, b: Option<string>): Option<string> {
    if a.Some? && a.value != "" then a else b
  }

  function FromContext(context: Option<Actor>, userId: Option<string>): Option<Actor> {
    if context.Some? && (userId.None? || context.value.userId == userId) then context else None
  }

  /** What the context alone gives; None asks for a look-up of the user. */
  function WithoutLookup(context: Option<Actor>, actor: Option<Actor>): Option<Actor> {
    match actor
    case None => Some(if context.Some? then context.value else Actor(None, None, None, None))
    case Some(a) =>
      var c := FromContext(context, a.userId);
      if c.Some? && c.value.email.Some? && c.value.orgId.Some? then
        Some(Actor(a.userId, c.value.email, c.value.orgId, OrElse(a.impersonatedBy, c.value.impersonatedBy)))
      else if a.userId.None? || a.userId.value == "" then Some(a)
      else if a.email.Some? && a.orgId.Some? then Some(a)
      else None
  }

  /** The known actor, or else the given one completed from the user's record. */
  function FromRecord(known: Option<Actor>, actor: Option<Actor>, users: map<string, User>): Actor
    requires known.None? ==> actor.Some? && actor.value.userId.Some?
  {
    if known.Some? then known.value
    else
      var a := actor.value;
      if a.userId.value !in users then a
      else
        var user := users[a.userId.value];
        Actor(a.userId, Some(user.userEmail), user.organizationId, a.impersonatedBy)
  }

  /** The actor a write for one user starts from. */
  function StartActor(context: Option<Actor>, userId: string): Actor {
    var c := FromContext(context, Some(userId));
    if c.Some? then c.value else Actor(Some(userId), None, None, None)
  }

  predicate LooksUp(context: Option<Actor>, userId: string) {
    WithoutLookup(context, Some(StartActor(context, userId))).None?
  }

  function Enriched(context: Option<Actor>, users: map<string, User>, userId: string): Actor {
    var a := StartActor(context, userId);
    FromRecord(WithoutLookup(context, Some(a)), Some(a), users)
  }

  function ContextAfter(context: Option<Actor>, users: map<string, User>, userId: string): Option<Actor> {
    if LooksUp(context, userId) && userId in users then Some(Enriched(context, users, userId)) else context
  }

  predicate RequestKnowsBoth(context: Option<Actor>, userId: string) {
    FromContext(context, Some(userId)).Some? && context.value.email.Some? && context.value.orgId.Some?
  }

  predicate RecordKnowsBoth(users: map<string, User>, userId: string) {
    userId != "" && userId in users && users[userId].organizationId.Some?
  }

  /** The row always names the user it was written for. The email and the organisation come from the request
      when it knows both, otherwise from the user's record; the impersonator is the request's if the request is
      bound to this very user, and nobody otherwise. */
  lemma RowNamesTheUser(context: Option<Actor>, users: map<string, User>, userId: string)
    ensures var a := Enriched(context, users, userId);
      && a.userId == Some(userId)
      && a.impersonatedBy == (if FromContext(context, Some(userId)).Some? then context.value.impersonatedBy else None)
      && (RequestKnowsBoth(context, userId) || RecordKnowsBoth(users, userId) ==> a.email.Some? && a.orgId.Some?)
      && (a.email.Some? ==> (userId in users && a.email.value == users[userId].userEmail)
                            || (FromContext(context, Some(userId)).Some? && a.email == context.value.email))
  {
  }

  /** Email and organisation in full: the request's if it is bound to the user and knows both; else the record's, if
      there is one and the user's name is not empty; else what the request knows, if it is bound to the user. */
  lemma RowIsExactly(context: Option<Actor>, users: map<string, User>, userId: string)
    ensures var a := Enriched(context, users, userId);
      var bound := context.Some? && context.value.userId == Some(userId);
      if bound && context.value.email.Some? && context.value.orgId.Some?
      then a.email == context.value.email && a.orgId == context.value.orgId
      else if userId != "" && userId in users
      then a.email == Some(users[userId].userEmail) && a.orgId == users[userId].organizationId
      else if bound then a.email == context.value.email && a.orgId == context.value.orgId
      else a.email == None && a.orgId == None
  {
  }

  // ---------------------------------------------------------------------------
  // The writes
  // ---------------------------------------------------------------------------

  function RowFor(b: Books, users: map<string, User>, userId: string, entry: Entry): AuditRow {
    AuditRow(Enriched(b.context, users, userId).(userId := Some(userId)), entry)
  }

  predicate StagingFails(b: Books, userId: string, f: Faults) { f.lookup && LooksUp(b.context, userId) }

  function Staged(b: Books, users: map<string, User>, userId: string, entry: Entry): Books {
    b.(context := ContextAfter(b.context, users, userId),
       stagedRows := b.stagedRows + [RowFor(b, users, userId, entry)])
  }

  function Committed(b: Books): Books {
    b.(staged := [], stagedRows := [], changes := b.changes + b.staged, rows := b.rows + b.stagedRows)
  }

  /** A rollback that raises is ignored and leaves the session as it is. */
  function RolledBack(b: Books, f: Faults): Books {
    if f.rollback then b else b.(staged := [], stagedRows := [])
  }

  function Failed(b: Books, f: Faults): Books {
    RolledBack(b, f).(failures := b.failures + 1)
  }

  predicate WriteFails(b: Books, userId: string, commit: bool, f: Faults) {
    StagingFails(b, userId, f) || (commit && f.commit)
  }

  function AfterWrite(b: Books, users: map<string, User>, userId: string, entry: Entry, commit: bool,
                      f: Faults): Books
  {
    if StagingFails(b, userId, f) then Failed(b, f)
    else
      var s := Staged(b, users, userId, entry);
      if !commit then s else if f.commit then Failed(s, f) else Committed(s)
  }

  predicate CriticalFails(b: Books, userId: string, f: Faults) { WriteFails(b, userId, true, f) }

  class AuditWriter {
    const users: map<string, User>
    var context: Option<Actor>
    var staged: seq<Change>
    var stagedRows: seq<AuditRow>
    var changes: seq<Change>
    var rows: seq<AuditRow>
    var failures: nat

    constructor (users: map<string, User>, context: Option<Actor>)
      ensures this.users == users && State() == Books(context, [], [], [], [], 0)
    {
      this.users := users;
      this.context, staged, stagedRows, changes, rows, failures := context, [], [], [], [], 0;
    }

    ghost function State(): Books
      reads this
    {
      Books(context, staged, stagedRows, changes, rows, failures)
    }

    method Commit()
      modifies this
      ensures State() == Committed(old(State()))
    {
      changes, rows := changes + staged, rows + stagedRows;
      staged, stagedRows := [], [];
    }

    method SafeRollback(f: Faults)
      modifies this
      ensures State() == RolledBack(old(State()), f)
    {
      if !f.rollback { staged, stagedRows := [], []; }
    }

    /** The actor for a row; None if the look-up raised. */
    method EnrichAuditActor(actor: Option<Actor>, f: Faults) returns (r: Option<Actor>)
      modifies this`context
      ensures r.None? <==> WithoutLookup(old(context), actor).None? && f.lookup
      ensures r.Some? ==> r.value == FromRecord(WithoutLookup(old(context), actor), actor, users)
      ensures context ==
        if r.Some? && WithoutLookup(old(context), actor).None? && actor.value.userId.value in users then r
        else old(context)
    {
      if actor.None? {
        if context.Some? { return context; }
        return Some(Actor(None, None, None, None));
      }
      var a := actor.value;
      var c := FromContext(context, a.userId);
      if c.Some? && c.value.email.Some? && c.value.orgId.Some? {
        return Some(Actor(a.userId, c.value.email, c.value.orgId, OrElse(a.impersonatedBy, c.value.impersonatedBy)));
      }
      if a.userId.None? || a.userId.value == "" { return actor; }
      if a.email.Some? && a.orgId.Some? { return actor; }
      if f.lookup { return None; }
      if a.userId.value !in users { return actor; }
      var user := users[a.userId.value];
      r := Some(Actor(a.userId, Some(user.userEmail), user.organizationId, a.impersonatedBy));
      context := r;
    }

    method WriteAuditLog(userId: string, entry: Entry, critical: bool, commit: bool,
                         f: Faults) returns (outcome: Outcome)
      modifies this
      ensures State() == AfterWrite(old(State()), users, userId, entry, commit, f)
      ensures outcome == if critical && WriteFails(old(State()), userId, commit, f) then WriteError else Returned
    {
      var actor := FromContext(context, Some(userId));
      if actor.None? { actor := Some(Actor(Some(userId), None, None, None)); }
      var enriched := EnrichAuditActor(actor, f);
      var failed := enriched.None?;
      if !failed {
        stagedRows := stagedRows + [AuditRow(enriched.value.(userId := Some(userId)), entry)];
        if commit {
          if f.commit { failed := true; } else { Commit(); }
        }
      }
      outcome := Returned;
      if failed {
        SafeRollback(f);
        failures := failures + 1;
        if critical { outcome := WriteError; }
      }
    }

    method CommitSecurityCriticalAudit(userId: string, entry: Entry, f: Faults) returns (outcome: Outcome)
      modifies this
      ensures outcome ==
        if entry.action != "admin.impersonate" && entry.action != "admin.user.reset_password"
           && entry.action != "auth.change_password" then NotRegistered
        else if CriticalFails(old(State()), userId, f) then WriteError else Returned
      ensures outcome.NotRegistered? ==> State() == old(State())
      ensures !outcome.NotRegistered? ==> State() == AfterWrite(old(State()), users, userId, entry, true, f)
    {
      if entry.action !in SECURITY_CRITICAL_ACTIONS { return NotRegistered; }
      outcome := WriteAuditLog(userId, entry, true, false, f);
      if outcome.WriteError? { return; }
      if f.commit {
        SafeRollback(f);
        failures := failures + 1;
        return WriteError;
      }
      Commit();
    }
  }

  // ---------------------------------------------------------------------------
  // What is durable
  // ---------------------------------------------------------------------------

  /** One audited write is all or nothing: if it works, the staged changes, the rows staged before and the new
      row are durable together; if it fails, no table has changed. Either way the metric counts failures exactly. */
  lemma WriteIsAtomic(b: Books, users: map<string, User>, userId: string, entry: Entry, f: Faults)
    ensures var after := AfterWrite(b, users, userId, entry, true, f);
      if WriteFails(b, userId, true, f)
      then after.changes == b.changes && after.rows == b.rows && after.failures == b.failures + 1
      else after.changes == b.changes + b.staged
           && after.rows == b.rows + b.stagedRows + [RowFor(b, users, userId, entry)]
           && after.staged == [] && after.stagedRows == [] && after.failures == b.failures
  {
    var row := RowFor(b, users, userId, entry);
    assert b.rows + (b.stagedRows + [row]) == b.rows + b.stagedRows + [row];
  }

  /** An operational write that was meant not to disturb its caller drops the caller's own staged changes when it
      fails: they are still staged, or durable, exactly if it works, if there were none, or if the rollback
      raised as well. */
  lemma OperationalWriteKeepsChangesIff(b: Books, users: map<string, User>, userId: string, entry: Entry,
                                        commit: bool, f: Faults)
    ensures var after := AfterWrite(b, users, userId, entry, commit, f);
      after.changes + after.staged == b.changes + b.staged
      <==> !WriteFails(b, userId, commit, f) || b.staged == [] || f.rollback
  {
    var after := AfterWrite(b, users, userId, entry, commit, f);
    if WriteFails(b, userId, commit, f) && b.staged != [] && !f.rollback {
      assert |after.changes + after.staged| < |b.changes + b.staged|;
    }
  }

  /** One security-critical request: its own session, its changes, its audited commit. */
  datatype Request = Request(batch: seq<Change>, userId: string, entry: Entry, faults: Faults, context: Option<Actor>)

  /** The session of a new request. */
  function Opened(b: Books, r: Request): Books {
    b.(context := r.context, staged := r.batch, stagedRows := [])
  }

  predicate Succeeds(r: Request) { !(r.faults.lookup && LooksUp(r.context, r.userId)) && !r.faults.commit }

  function RunRequests(b: Books, users: map<string, User>, requests: seq<Request>): Books {
    if requests == [] then b
    else
      var r := requests[|requests| - 1];
      AfterWrite(Opened(RunRequests(b, users, requests[..|requests| - 1]), r), users, r.userId, r.entry, true, r.faults)
  }

  function Batches(requests: seq<Request>): seq<Change> {
    if requests == [] then []
    else
      var r := requests[|requests| - 1];
      Batches(requests[..|requests| - 1]) + (if Succeeds(r) then r.batch else [])
  }

  function RowsOf(users: map<string, User>, requests: seq<Request>): seq<AuditRow> {
    if requests == [] then []
    else
      var r := requests[|requests| - 1];
      RowsOf(users, requests[..|requests| - 1])
      + (if Succeeds(r)
         then [AuditRow(Enriched(r.context, users, r.userId).(userId := Some(r.userId)), r.entry)] else [])
  }

  /** Over any run of security-critical requests with any failures, rollbacks included: the durable changes are
      the batches of the successful requests and the durable rows their rows, one each, in the same order. So no
      change is durable without its row, and no row without its changes. */
  lemma {:induction false} NoChangeWithoutItsRow(b: Books, users: map<string, User>, requests: seq<Request>)
    ensures var after := RunRequests(b, users, requests);
      after.changes == b.changes + Batches(requests) && after.rows == b.rows + RowsOf(users, requests)
  {
    if requests != [] {
      var init, r := requests[..|requests| - 1], requests[|requests| - 1];
      NoChangeWithoutItsRow(b, users, init);
      WriteIsAtomic(Opened(RunRequests(b, users, init), r), users, r.userId, r.entry, r.faults);
    }
  }

  // ---------------------------------------------------------------------------
  // The request's actor across two writes
  // ---------------------------------------------------------------------------

  /** Auditing another user's account in the same request rebinds the request to that user, so a later row for the
      first user loses its impersonator; exactly when the other user is on record, under a name that is not empty. */
  lemma ImpersonatorLostIff(context: Actor, users: map<string, User>, first: string, other: string)
    requires context.userId == Some(first) && other != first && context.impersonatedBy.Some?
    ensures Enriched(ContextAfter(Some(context), users, other), users, first).impersonatedBy == context.impersonatedBy
            <==> !(other != "" && other in users)
  {
    RowNamesTheUser(Some(context), users, first);
    RowNamesTheUser(ContextAfter(Some(context), users, other), users, first);
  }
}
