/** The rows a case action reads and writes, and the database session that stages and commits them. */
module CaseTables {
  import opened Basics
  import opened Transitions

  datatype ProjectRow = ProjectRow(
    organizationId: string, status: Status, changedAt: Option<int>, changedBy: Option<string>)

  /** The row written at creation comes from no status. */
  datatype HistoryRow = HistoryRow(
    id: string, projectId: string, origin: Option<Status>, toStatus: Status,
    actor: Option<string>, reason: Option<string>, at: int)

  /** A queued analysis job of type manual_trigger. */
  datatype JobRow = JobRow(id: string, projectId: string, requestedBy: Option<string>)

  datatype EventType = AnalysisStarted | ProposalReadied

  datatype OutboxRow = OutboxRow(
    id: string, eventType: EventType, projectId: string, organizationId: string, status: Status)

  datatype ExportType = QuotePdf | CaseZip

  /** A pending export. */
  datatype ExportRow = ExportRow(
    id: string, projectId: string, exportType: ExportType, fileName: string, expiresAt: int)

  datatype ProposalStatus = ReadyForExport | SentOut | Approved | OtherStatus(text: string)

  datatype ProposalRow = ProposalRow(id: string, projectId: string, status: ProposalStatus)

  datatype Tables = Tables(
    projects: map<string, ProjectRow>,
    history: seq<HistoryRow>,
    jobs: seq<JobRow>,
    outbox: seq<OutboxRow>,
    exports: seq<ExportRow>,
    proposals: seq<ProposalRow>)

  /** One object passed to session.add. */
  datatype StagedRow =
    | StagedHistory(history: HistoryRow)
    | StagedJob(job: JobRow)
    | StagedEvent(event: OutboxRow)
    | StagedExport(export_: ExportRow)

  /** The primary key of the staged row is not taken in its table. */
  predicate KeyFree(t: Tables, row: StagedRow) {
    match row
    case StagedHistory(h) => forall r | r in t.history :: r.id != h.id
    case StagedJob(j) => forall r | r in t.jobs :: r.id != j.id
    case StagedEvent(e) => forall r | r in t.outbox :: r.id != e.id
    case StagedExport(x) => forall r | r in t.exports :: r.id != x.id
  }

  function Inserted(t: Tables, row: StagedRow): Tables {
    match row
    case StagedHistory(h) => t.(history := t.history + [h])
    case StagedJob(j) => t.(jobs := t.jobs + [j])
    case StagedEvent(e) => t.(outbox := t.outbox + [e])
    case StagedExport(x) => t.(exports := t.exports + [x])
  }

  predicate KeysFree(t: Tables, rows: seq<StagedRow>) {
    rows == [] || (KeysFree(t, rows[..|rows| - 1]) && KeyFree(InsertedAll(t, rows[..|rows| - 1]), rows[|rows| - 1]))
  }

  function InsertedAll(t: Tables, rows: seq<StagedRow>): Tables {
    if rows == [] then t else Inserted(InsertedAll(t, rows[..|rows| - 1]), rows[|rows| - 1])
  }

  /** UPDATE project_final_proposals SET status = 'approved' WHERE project_id = pid. */
  function PricingLocked(proposals: seq<ProposalRow>, pid: string): (r: seq<ProposalRow>)
    ensures |r| == |proposals|
    ensures forall k :: 0 <= k < |r| ==>
      r[k] == if proposals[k].projectId == pid then proposals[k].(status := Approved) else proposals[k]
  {
    if proposals == [] then []
    else
      [if proposals[0].projectId == pid then proposals[0].(status := Approved) else proposals[0]]
      + PricingLocked(proposals[1..], pid)
  }

  predicate HasProposals(t: Tables, pid: string) {
    exists r :: r in t.proposals && r.projectId == pid
  }

  class Database {
    var tables: Tables
    /** The values the CHECK on project_final_proposals.status admits. */
    const proposalStatuses: set<ProposalStatus>

    constructor (tables: Tables, proposalStatuses: set<ProposalStatus>)
      ensures this.tables == tables && this.proposalStatuses == proposalStatuses
    {
      this.tables := tables;
      this.proposalStatuses := proposalStatuses;
    }
  }

  /** The loaded ORM object: its fields are changed in memory and written at commit. */
  class Project {
    const id: string
    const organizationId: string
    var status: Status
    var changedAt: Option<int>
    var changedBy: Option<string>

    constructor (id: string, row: ProjectRow)
      ensures this.id == id && this.organizationId == row.organizationId && this.status == row.status
      ensures changedAt == row.changedAt && changedBy == row.changedBy
    {
      this.id := id;
      this.organizationId := row.organizationId;
      this.status := row.status;
      this.changedAt := row.changedAt;
      this.changedBy := row.changedBy;
    }
  }

  /** What one committed flush leaves in the tables. */
  function Flushed(t: Tables, pid: string, status: Status, at: Option<int>, actor: Option<string>,
                   rows: seq<StagedRow>, lockPricing: bool): Tables
    requires pid in t.projects
  {
    var row := t.projects[pid].(status := status, changedAt := at, changedBy := actor);
    var written := t.(projects := t.projects[pid := row]);
    var locked := if lockPricing then written.(proposals := PricingLocked(written.proposals, pid)) else written;
    InsertedAll(locked, rows)
  }

  class Session {
    const database: Database
    var added: seq<StagedRow>
    var pricingLock: bool

    constructor (database: Database)
      ensures this.database == database && added == [] && !pricingLock
    {
      this.database := database;
      this.added := [];
      this.pricingLock := false;
    }

    method Add(row: StagedRow)
      modifies this`added
      ensures added == old(added) + [row]
    {
      added := added + [row];
    }

    /** The direct UPDATE: PostgreSQL raises when a row it touches would break the CHECK. */
    method ExecutePricingLock(pid: string) returns (raised: bool)
      modifies this`pricingLock
      ensures raised <==> HasProposals(database.tables, pid) && Approved !in database.proposalStatuses
      ensures pricingLock == (old(pricingLock) || !raised)
    {
      raised := Approved !in database.proposalStatuses && HasProposals(database.tables, pid);
      if !raised {
        pricingLock := true;
      }
    }

    /** Flushes the staged rows and the changed project in one transaction, or raises and leaves no trace. */
    method Commit(project: Project, connectionLost: bool) returns (raised: bool)
      requires project.id in database.tables.projects
      modifies database, this`added, this`pricingLock
      ensures raised <==> connectionLost || !KeysFree(old(database.tables), old(added))
      ensures added == [] && !pricingLock
      ensures raised ==> database.tables == old(database.tables)
      ensures !raised ==>
        database.tables == Flushed(old(database.tables), project.id, project.status, project.changedAt,
                                   project.changedBy, old(added), old(pricingLock))
    {
      raised := connectionLost || !KeysFree(database.tables, added);
      if !raised {
        database.tables := Flushed(database.tables, project.id, project.status, project.changedAt,
                                   project.changedBy, added, pricingLock);
      }
      added := [];
      pricingLock := false;
    }
  }

  /** Validates and applies one transition on the loaded object and stages its history row. */
  method ApplyTransition(project: Project, to: Status, actor: Option<string>, reason: Option<string>,
                         historyId: string, now: int, session: Session)
    returns (r: Result<(), TransitionError>)
    modifies project, session`added
    ensures r == Verdict(old(project.status), to)
    ensures r.Err? ==> unchanged(project) && session.added == old(session.added)
    ensures r.Ok? ==>
      && project.status == to && project.changedAt == Some(now) && project.changedBy == actor
      && session.added == old(session.added)
           + [StagedHistory(HistoryRow(historyId, project.id, Some(old(project.status)), to, actor, reason, now))]
  {
    if to !in VALID_STATUSES {
      return Err(UnknownTarget);
    }
    if !CanTransition(project.status, to) {
      return Err(NotAllowed);
    }
    var fromStatus := project.status;
    project.status := to;
    project.changedAt := Some(now);
    project.changedBy := actor;
    session.Add(StagedHistory(HistoryRow(historyId, project.id, Some(fromStatus), to, actor, reason, now)));
    r := Ok(());
  }
}
