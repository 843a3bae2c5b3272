/** The use-case layer: every project status change goes through one of these actions. */
module CaseActions {
  import opened Basics
  import opened Transitions
  import opened CaseTables
  import opened CaseEffects

  datatype Request = Request(
    projectId: string, organizationId: Option<string>, action: Action,
    actor: Option<string>, role: Role, reason: Option<string>)

  /** Everything outside the program's control: failing effects, the commit's fate, the network. */
  datatype Luck = Luck(failing: set<nat>, connectionLost: bool, network: nat -> Delivery)

  datatype Outcome =
    | NotFound | NoFinalProposal | Refused(error: TransitionError) | Aborted | Committed

  function FactsOf(req: Request, projectOrg: string, draw: Draw): Facts {
    Facts(req.projectId, projectOrg, req.actor, req.organizationId, req.role.Superadmin?, draw)
  }

  // ---------------------------------------------------------------------------
  // What one action leaves behind
  // ---------------------------------------------------------------------------

  function HistoryOf(e: Edge, f: Facts, reason: Option<string>): HistoryRow {
    HistoryRow(HistoryId(f.draw), f.projectId, Some(e.fromStatus), e.toStatus, f.actor, reason, f.draw.now)
  }

  /** The tables after a committed edge, table by table. */
  function Landed(t: Tables, e: Edge, f: Facts, reason: Option<string>): Tables
    requires f.projectId in t.projects
  {
    Tables(
      t.projects[f.projectId := t.projects[f.projectId].(
        status := e.toStatus, changedAt := Some(f.draw.now), changedBy := f.actor)],
      t.history + [HistoryOf(e, f, reason)],
      t.jobs + JobsOf(e, f),
      t.outbox + EventsOf(e, f),
      t.exports + ExportsOf(e, f),
      if e == Edge(ProposalReady, QuoteReady) then PricingLocked(t.proposals, f.projectId) else t.proposals)
  }

  /** No primary key drawn for this edge is taken. */
  predicate FreshKeys(t: Tables, e: Edge, f: Facts) {
    && KeyFree(t, StagedHistory(HistoryOf(e, f, None)))
    && (forall row | row in StagedBy(BeforeEffects(e), f) :: KeyFree(t, row))
  }

  /** The action commits; `e.fromStatus` is the status of the object it loaded. */
  ghost predicate Lands(t: Tables, allowed: set<ProposalStatus>, e: Edge, f: Facts, luck: Luck) {
    && CanTransition(e.fromStatus, e.toStatus)
    && !BeforePhaseRaises(e, f.projectId, t, allowed, luck.failing)
    && !luck.connectionLost
    && FreshKeys(t, e, f)
  }

  /** What the registered before-effects of an edge stage, spelled out. */
  lemma StagedPerEdge(e: Edge, f: Facts)
    ensures StagedBy(BeforeEffects(e), f) ==
      (if JobsOf(e, f) != [] then [StagedJob(JobsOf(e, f)[0])] else [])
      + (if EventsOf(e, f) != [] then [StagedEvent(EventsOf(e, f)[0])] else [])
      + (if ExportsOf(e, f) != [] then [StagedExport(ExportsOf(e, f)[0])] else [])
    ensures LockProposalPricing in BeforeEffects(e) <==> e == Edge(ProposalReady, QuoteReady)
  {
    var fns := BeforeEffects(e);
    if |fns| == 2 {
      assert fns[..|fns| - 1] == [fns[0]] && [fns[0]][..0] == [];
      assert StagedBy([fns[0]], f) == RowsOf(fns[0], f);
    } else if |fns| == 1 {
      assert fns[..0] == [];
    }
  }

  /** A key is as free as before once a row has gone into another table. */
  lemma KeyFreeAcross(t: Tables, a: StagedRow, b: StagedRow)
    requires a.StagedHistory? && !b.StagedHistory?
    ensures KeyFree(Inserted(t, a), b) <==> KeyFree(t, b)
  {
  }

  lemma TwoKeys(t: Tables, h: StagedRow, j: StagedRow, e: StagedRow)
    requires h.StagedHistory? && j.StagedJob? && e.StagedEvent?
    ensures KeysFree(t, [h, j, e]) <==> KeyFree(t, h) && KeyFree(t, j) && KeyFree(t, e)
  {
    InsertThree(t, h, j, e);
    KeyFreeAcross(t, h, j);
    KeyFreeAcross(t, h, e);
  }

  lemma KeysPerEdge(t: Tables, e: Edge, f: Facts, h: HistoryRow)
    requires h.id == HistoryId(f.draw)
    ensures KeysFree(t, [StagedHistory(h)] + StagedBy(BeforeEffects(e), f)) <==> FreshKeys(t, e, f)
  {
    StagedPerEdge(e, f);
    var staged := StagedBy(BeforeEffects(e), f);
    assert KeyFree(t, StagedHistory(h)) <==> KeyFree(t, StagedHistory(HistoryOf(e, f, None)));
    if |staged| == 2 {
      assert [StagedHistory(h)] + staged == [StagedHistory(h), staged[0], staged[1]];
      assert staged == [staged[0], staged[1]];
      TwoKeys(t, StagedHistory(h), staged[0], staged[1]);
    } else if |staged| == 1 {
      assert [StagedHistory(h)] + staged == [StagedHistory(h), staged[0]] && staged == [staged[0]];
      InsertTwo(t, StagedHistory(h), staged[0]);
      KeyFreeAcross(t, StagedHistory(h), staged[0]);
    } else {
      assert [StagedHistory(h)] + staged == [StagedHistory(h)];
      InsertTwo(t, StagedHistory(h), StagedHistory(h));
    }
  }

  lemma InsertPerEdge(t: Tables, e: Edge, f: Facts, h: HistoryRow)
    ensures InsertedAll(t, [StagedHistory(h)] + StagedBy(BeforeEffects(e), f))
      == t.(history := t.history + [h], jobs := t.jobs + JobsOf(e, f),
            outbox := t.outbox + EventsOf(e, f), exports := t.exports + ExportsOf(e, f))
  {
    StagedPerEdge(e, f);
    var staged := StagedBy(BeforeEffects(e), f);
    var rows := [StagedHistory(h)] + staged;
    assert t.jobs + [] == t.jobs && t.outbox + [] == t.outbox && t.exports + [] == t.exports;
    if |staged| == 2 {
      assert rows == [StagedHistory(h), staged[0], staged[1]];
      InsertThree(t, StagedHistory(h), staged[0], staged[1]);
    } else if |staged| == 1 {
      assert rows == [StagedHistory(h), staged[0]];
      InsertTwo(t, StagedHistory(h), staged[0]);
    } else {
      assert rows == [StagedHistory(h)];
      InsertTwo(t, StagedHistory(h), StagedHistory(h));
    }
  }

  /** The generic flush of history row and effect rows is the per-edge result above. */
  lemma FlushIsLanded(t: Tables, e: Edge, f: Facts, reason: Option<string>)
    requires f.projectId in t.projects
    ensures var rows := [StagedHistory(HistoryOf(e, f, reason))] + StagedBy(BeforeEffects(e), f);
      && (KeysFree(t, rows) <==> FreshKeys(t, e, f))
      && Flushed(t, f.projectId, e.toStatus, Some(f.draw.now), f.actor, rows,
                 LockProposalPricing in BeforeEffects(e)) == Landed(t, e, f, reason)
  {
    var h := HistoryOf(e, f, reason);
    KeysPerEdge(t, e, f, h);
    StagedPerEdge(e, f);
    var base := t.(projects := t.projects[f.projectId := t.projects[f.projectId].(
        status := e.toStatus, changedAt := Some(f.draw.now), changedBy := f.actor)]);
    var locked := if e == Edge(ProposalReady, QuoteReady)
                  then base.(proposals := PricingLocked(base.proposals, f.projectId)) else base;
    InsertPerEdge(locked, e, f, h);
  }

  lemma InsertTwo(t: Tables, a: StagedRow, b: StagedRow)
    ensures InsertedAll(t, [a]) == Inserted(t, a) && (KeysFree(t, [a]) <==> KeyFree(t, a))
    ensures InsertedAll(t, [a, b]) == Inserted(Inserted(t, a), b)
    ensures KeysFree(t, [a, b]) <==> KeyFree(t, a) && KeyFree(Inserted(t, a), b)
  {
    assert [a][..0] == [] && [a, b][..1] == [a];
  }

  lemma InsertThree(t: Tables, a: StagedRow, b: StagedRow, c: StagedRow)
    ensures InsertedAll(t, [a, b, c]) == Inserted(Inserted(Inserted(t, a), b), c)
    ensures KeysFree(t, [a, b, c]) <==>
      KeyFree(t, a) && KeyFree(Inserted(t, a), b) && KeyFree(Inserted(Inserted(t, a), b), c)
  {
    InsertTwo(t, a, b);
    assert [a, b, c][..2] == [a, b];
  }

  // ---------------------------------------------------------------------------
  // Service
  // ---------------------------------------------------------------------------

  predicate Visible(t: Tables, pid: string, org: Option<string>) {
    pid in t.projects && (org.None? || org.value == t.projects[pid].organizationId)
  }

  /** How an action ends when nothing else happens between its load and its commit. */
  ghost function OutcomeOf(t: Tables, allowed: set<ProposalStatus>, req: Request, draw: Draw, luck: Luck): Outcome {
    if !Visible(t, req.projectId, req.organizationId) then NotFound
    else if req.action.SendQuote? && !HasProposals(t, req.projectId) then NoFinalProposal
    else
      var e := Edge(t.projects[req.projectId].status, ActionTarget(req.action));
      var f := FactsOf(req, t.projects[req.projectId].organizationId, draw);
      if !CanTransition(e.fromStatus, e.toStatus) then Outcome.Refused(NotAllowed)
      else if Lands(t, allowed, e, f, luck) then Committed
      else Aborted
  }

  class CaseActionService {
    const session: Session
    const workQueue: WorkQueue?
    const registry: EffectRegistry

    constructor (session: Session, workQueue: WorkQueue?, registry: EffectRegistry)
      ensures this.session == session && this.workQueue == workQueue && this.registry == registry
    {
      this.session := session;
      this.workQueue := workQueue;
      this.registry := registry;
    }

    ghost predicate Ready()
      reads this, session, registry
    {
      registry.Loaded() && session.added == [] && !session.pricingLock
    }

    method GetProject(pid: string, org: Option<string>) returns (project: Project?)
      ensures project != null <==>
        && pid in session.database.tables.projects
        && (org.None? || session.database.tables.projects[pid].organizationId == org.value)
      ensures project != null ==>
        && fresh(project) && project.id == pid
        && project.status == session.database.tables.projects[pid].status
        && project.organizationId == session.database.tables.projects[pid].organizationId
        && project.changedAt == session.database.tables.projects[pid].changedAt
        && project.changedBy == session.database.tables.projects[pid].changedBy
    {
      if Visible(session.database.tables, pid, org) {
        project := new Project(pid, session.database.tables.projects[pid]);
      } else {
        project := null;
      }
    }

    /** Apply, before-effects, commit, after-effects. The tables may have moved on since `project` was
        loaded: the edge starts from the loaded status, and the row is written unconditionally. */
    method TransitionAndReturn(project: Project, req: Request, draw: Draw, luck: Luck) returns (outcome: Outcome)
      requires Ready() && project.id == req.projectId && project.id in session.database.tables.projects
      modifies project, session, session.database, workQueue
      ensures session.added == [] && !session.pricingLock
      ensures var e := Edge(old(project.status), ActionTarget(req.action));
        var f := FactsOf(req, project.organizationId, draw);
        var t := old(session.database.tables);
        && (outcome == Committed <==> Lands(t, session.database.proposalStatuses, e, f, luck))
        && (outcome.Refused? <==> !CanTransition(e.fromStatus, e.toStatus))
        && (outcome.Refused? ==> outcome.error == NotAllowed)
        && (outcome == Committed || outcome == Aborted || outcome.Refused?)
        && session.database.tables == (if outcome == Committed then Landed(t, e, f, req.reason) else t)
        && (workQueue != null ==>
              workQueue.sent == old(workQueue.sent)
                + (if outcome == Committed then Kept(WiresOf(e, f), luck.network) else []))
    {
      var to := ActionTarget(req.action);
      var fromStatus := project.status;
      var applied := ApplyTransition(project, to, req.actor, req.reason, HistoryId(draw), draw.now, session);
      if applied.Err? {
        assert to in VALID_STATUSES;
        return Outcome.Refused(applied.error);
      }
      var e := Edge(fromStatus, to);
      var f := FactsOf(req, project.organizationId, draw);
      var ctx := new EffectContext(project, f, e, session, workQueue);
      var raised := ctx.RunBeforeCommit(registry, luck.failing);
      if raised {
        session.added, session.pricingLock := [], false;
        return Aborted;
      }
      outcome := CommitAndNotify(ctx, req.reason, luck);
    }

    /** The second half: commit, then the after-effects, whose failures are swallowed. */
    method CommitAndNotify(ctx: EffectContext, reason: Option<string>, luck: Luck) returns (outcome: Outcome)
      requires registry.Loaded()
      requires ctx.session == session && ctx.workQueue == workQueue
      requires ctx.project.id == ctx.facts.projectId && ctx.project.id in session.database.tables.projects
      requires ctx.project.status == ctx.edge.toStatus
      requires ctx.project.changedAt == Some(ctx.facts.draw.now) && ctx.project.changedBy == ctx.facts.actor
      requires session.added ==
        [StagedHistory(HistoryOf(ctx.edge, ctx.facts, reason))] + StagedBy(BeforeEffects(ctx.edge), ctx.facts)
      requires session.pricingLock == (LockProposalPricing in BeforeEffects(ctx.edge))
      requires ctx.state == StateBy(BeforeEffects(ctx.edge), ctx.facts)
      modifies session`added, session`pricingLock, session.database, workQueue
      ensures session.added == [] && !session.pricingLock
      ensures var t := old(session.database.tables);
        && outcome == (if !luck.connectionLost && FreshKeys(t, ctx.edge, ctx.facts) then Committed else Aborted)
        && session.database.tables == (if outcome == Committed then Landed(t, ctx.edge, ctx.facts, reason) else t)
        && (workQueue != null ==>
              workQueue.sent == old(workQueue.sent)
                + (if outcome == Committed then Kept(WiresOf(ctx.edge, ctx.facts), luck.network) else []))
    {
      FlushIsLanded(session.database.tables, ctx.edge, ctx.facts, reason);
      var raised := session.Commit(ctx.project, luck.connectionLost);
      if raised {
        return Aborted;
      }
      HandOffComplete(ctx.edge, ctx.facts, luck.network);
      ctx.RunAfterCommit(registry, luck.network);
      outcome := Committed;
    }

    /** One whole action with no other transaction in between; only send_quote has a guard of its own. */
    method Perform(req: Request, draw: Draw, luck: Luck) returns (outcome: Outcome)
      requires Ready()
      modifies session, session.database, workQueue
      ensures session.added == [] && !session.pricingLock
      ensures outcome == OutcomeOf(old(session.database.tables), session.database.proposalStatuses, req, draw, luck)
      ensures outcome == NotFound <==>
        || req.projectId !in old(session.database.tables).projects
        || (req.organizationId.Some?
            && old(session.database.tables).projects[req.projectId].organizationId != req.organizationId.value)
      ensures outcome == Committed ==>
        var t := old(session.database.tables);
        var e := Edge(t.projects[req.projectId].status, ActionTarget(req.action));
        var f := FactsOf(req, t.projects[req.projectId].organizationId, draw);
        && session.database.tables == Landed(t, e, f, req.reason)
        && (workQueue != null ==> workQueue.sent == old(workQueue.sent) + Kept(WiresOf(e, f), luck.network))
      ensures outcome != Committed ==>
        && session.database.tables == old(session.database.tables)
        && (workQueue != null ==> workQueue.sent == old(workQueue.sent))
    {
      var project := GetProject(req.projectId, req.organizationId);
      if project == null {
        return NotFound;
      }
      if req.action.SendQuote? && !HasProposals(session.database.tables, req.projectId) {
        return NoFinalProposal;
      }
      outcome := TransitionAndReturn(project, req, draw, luck);
    }
  }
}
