/** What a committed action writes down of itself, and how far the tables speak the truth about the past. */
module CaseRecords {
  import opened Basics
  import opened Transitions
  import opened CaseTables
  import opened CaseEffects
  import opened CaseActions
  import opened CaseRuns

  // ---------------------------------------------------------------------------
  // One commit
  // ---------------------------------------------------------------------------

  /** One row more, and this one. */
  ghost predicate OneMore<T>(before: seq<T>, after: seq<T>) {
    |after| == |before| + 1 && before <= after
  }

  /** The project row is moved and signed, and its history has one row more that says from where, to where, by whom, why
      and when. */
  lemma CommitIsSigned(w: World, s: Step)
    requires Commits(w, s)
    ensures var w', pid, target := Next(w, s), s.req.projectId, ActionTarget(s.req.action);
      && w'.t.projects.Keys == w.t.projects.Keys
      && (forall p :: p in w.t.projects && p != pid ==> w'.t.projects[p] == w.t.projects[p])
      && w'.t.projects[pid].status == target && w'.t.projects[pid].changedAt == Some(s.draw.now)
      && w'.t.projects[pid].changedBy == s.req.actor
      && w'.t.projects[pid].organizationId == w.t.projects[pid].organizationId
      && OneMore(w.t.history, w'.t.history)
      && var row := w'.t.history[|w.t.history|];
         && row.projectId == pid && row.origin == Some(w.open[s.session].status) && row.toStatus == target
         && row.actor == s.req.actor && row.reason == s.req.reason && row.at == s.draw.now
         && row.id == "psh_" + s.draw.historyHex
  {
  }

  /** Starting the analysis queues a job in the caller's name and announces it; the worker's proposal is announced; a
      quote sent and a case completed ask for their documents, to be kept thirty days; no other action adds a row. */
  lemma CommitAddsRows(w: World, s: Step)
    requires Commits(w, s)
    ensures var w', pid := Next(w, s), s.req.projectId;
      && (if s.req.action.StartAnalysis?
          then OneMore(w.t.jobs, w'.t.jobs) && w'.t.jobs[|w.t.jobs|].projectId == pid
               && w'.t.jobs[|w.t.jobs|].requestedBy == s.req.actor
               && w'.t.jobs[|w.t.jobs|].id == "job_" + s.draw.jobHex
          else w'.t.jobs == w.t.jobs)
      && (if s.req.action.StartAnalysis? || s.req.action.WorkerProposalReady?
          then OneMore(w.t.outbox, w'.t.outbox)
               && var row := w'.t.outbox[|w.t.outbox|];
                  && row.projectId == pid && row.status == w'.t.projects[pid].status
                  && (row.eventType == AnalysisStarted <==> s.req.action.StartAnalysis?)
                  && row.id == (if s.req.action.StartAnalysis? then s.draw.startedEventId else s.draw.proposalEventId)
          else w'.t.outbox == w.t.outbox)
  {
  }

  lemma CommitAddsExports(w: World, s: Step)
    requires Commits(w, s)
    ensures var w', pid := Next(w, s), s.req.projectId;
      if s.req.action.SendQuote? || s.req.action.Complete?
      then OneMore(w.t.exports, w'.t.exports)
           && var row := w'.t.exports[|w.t.exports|];
              && row.projectId == pid && row.expiresAt == s.draw.now + 2592000
              && (row.exportType == QuotePdf <==> s.req.action.SendQuote?)
              && row.id == "exp_" + (if s.req.action.SendQuote? then s.draw.quoteHex else s.draw.zipHex)
              && row.fileName == (if s.req.action.SendQuote? then "quote-" + pid + ".pdf" else "case-" + pid + ".zip")
      else w'.t.exports == w.t.exports
  {
  }

  /** A commit from proposal_ready to quote_ready approves every proposal of the project and no other; no other commit
      touches a proposal. */
  lemma CommitPrices(w: World, s: Step)
    requires Commits(w, s)
    ensures var before, after := w.t.proposals, Next(w, s).t.proposals;
      var locks := w.open[s.session].status == ProposalReady && ActionTarget(s.req.action) == QuoteReady;
      && |after| == |before|
      && forall k :: 0 <= k < |before| ==>
           && after[k].id == before[k].id && after[k].projectId == before[k].projectId
           && (locks && before[k].projectId == s.req.projectId ==> after[k].status == Approved)
           && (!locks || before[k].projectId != s.req.projectId ==> after[k] == before[k])
  {
  }

  /** What a message of this commit may say: it is about the project, carries the caller's organisation, and grants
      the superadmin's view exactly if the caller is one; a live event tells the project's new status. */
  predicate SaysOf(x: Wire, s: Step, status: Status)
    requires s.Finish?
  {
    match x
    case AnalysisMessage(_, pid, org, superadmin) =>
      pid == s.req.projectId && org == s.req.organizationId && (superadmin <==> s.req.role == Superadmin)
    case ExportMessage(_, pid, org) => pid == s.req.projectId && org == s.req.organizationId
    case LiveEvent(_, kind, pid, told) =>
      pid == s.req.projectId && told == status && (kind == AnalysisStarted <==> s.req.action.StartAnalysis?)
  }

  lemma CommitSends(w: World, s: Step)
    requires Commits(w, s)
    ensures w.sent <= Next(w, s).sent
    ensures forall x :: x in Next(w, s).sent[|w.sent|..] ==> SaysOf(x, s, Next(w, s).t.projects[s.req.projectId].status)
    ensures !w.queueUp ==> Next(w, s).sent == w.sent
  {
    KeptSubset(WiresOf(StepEdge(w, s), StepFacts(w, s)), s.luck.network);
  }

  lemma {:induction false} NothingRefused(wires: seq<Wire>, network: nat -> Delivery)
    requires forall k :: !network(k).Refused?
    ensures Kept(wires, network) == wires
  {
    if wires != [] { NothingRefused(wires[..|wires| - 1], network); }
  }

  /** What there is to say after an action. */
  function News(req: Request, draw: Draw): seq<Wire> {
    var pid, org := req.projectId, req.organizationId;
    match req.action
    case StartAnalysis =>
      [LiveEvent(draw.startedEventId, AnalysisStarted, pid, Analyzing),
       AnalysisMessage("job_" + draw.jobHex, pid, org, req.role == Superadmin)]
    case WorkerProposalReady => [LiveEvent(draw.proposalEventId, ProposalReadied, pid, ProposalReady)]
    case SendQuote => [ExportMessage("exp_" + draw.quoteHex, pid, org)]
    case Complete => [ExportMessage("exp_" + draw.zipHex, pid, org)]
    case _ => []
  }

  lemma NewsOfEdge(origin: Status, req: Request, projectOrg: string, draw: Draw)
    requires CanTransition(origin, ActionTarget(req.action))
    ensures WiresOf(Edge(origin, ActionTarget(req.action)), FactsOf(req, projectOrg, draw)) == News(req, draw)
  {
    AllowedFrom(origin, req.action);
  }

  /** Five of the actions start from one status only. */
  lemma AllowedFrom(origin: Status, action: Action)
    requires CanTransition(origin, ActionTarget(action))
    ensures action.StartAnalysis? ==> origin == Intake
    ensures action.WorkerProposalReady? ==> origin == Analyzing
    ensures action.SendQuote? ==> origin == QuoteReady
    ensures action.Complete? ==> origin == Sent
  {
  }

  /** With a queue that refuses nothing: a started analysis is announced and its job is sent to the workers, a proposal
      is announced, a quote and a completion send their export; each message with the id of the row just written. */
  lemma CommitDelivers(w: World, s: Step)
    requires Commits(w, s) && w.queueUp && forall k :: !s.luck.network(k).Refused?
    ensures Next(w, s).sent == w.sent + News(s.req, s.draw)
  {
    var e, f := StepEdge(w, s), StepFacts(w, s);
    CommitLands(w, s);
    NewsOfEdge(e.fromStatus, s.req, w.open[s.session].projectOrg, s.draw);
    NothingRefused(WiresOf(e, f), s.luck.network);
  }

  // ---------------------------------------------------------------------------
  // No quote without a proposal
  // ---------------------------------------------------------------------------

  ghost predicate Proposed(t: Tables, pid: string) { exists r :: r in t.proposals && r.projectId == pid }

  /** Whoever remembers a proposal is right, and nothing was ever sent without one. */
  ghost predicate NothingSentBlank(w: World) {
    && (forall sid :: sid in w.open && w.open[sid].hasProposals ==> Proposed(w.t, w.open[sid].projectId))
    && (forall h :: h in w.t.history && h.toStatus == Sent ==> Proposed(w.t, h.projectId))
  }

  lemma ProposalsStay(w: World, s: Step)
    ensures forall pid :: Proposed(w.t, pid) ==> Proposed(Next(w, s).t, pid)
  {
    var before, after := w.t.proposals, Next(w, s).t.proposals;
    if Commits(w, s) { CommitPrices(w, s); }
    assert |before| <= |after| && forall k :: 0 <= k < |before| ==> after[k].projectId == before[k].projectId;
    forall pid | Proposed(w.t, pid) ensures Proposed(Next(w, s).t, pid) {
      var r :| r in before && r.projectId == pid;
      var k :| 0 <= k < |before| && before[k] == r;
      assert after[k] in after;
    }
  }

  lemma MemoriesStayRight(w: World, s: Step)
    requires NothingSentBlank(w)
    ensures var w' := Next(w, s);
      forall sid :: sid in w'.open && w'.open[sid].hasProposals ==> Proposed(w'.t, w'.open[sid].projectId)
  {
    var w' := Next(w, s);
    ProposalsStay(w, s);
    forall sid | sid in w'.open && w'.open[sid].hasProposals ensures Proposed(w'.t, w'.open[sid].projectId) {
      assert (sid in w.open && w'.open[sid] == w.open[sid]) || s.Load?;
    }
  }

  /** Only sending a quote moves a project to sent. */
  lemma NewSentRow(w: World, s: Step, h: HistoryRow)
    requires h in Next(w, s).t.history && h !in w.t.history && h.toStatus == Sent
    ensures Commits(w, s) && w.open[s.session].hasProposals && w.open[s.session].projectId == h.projectId
  {
    if Commits(w, s) { CommitIsSigned(w, s); } else if !Creates(w, s) { QuietStep(w, s); }
  }

  lemma NothingSentBlankStep(w: World, s: Step)
    requires NothingSentBlank(w)
    ensures NothingSentBlank(Next(w, s))
  {
    MemoriesStayRight(w, s);
    ProposalsStay(w, s);
    forall h | h in Next(w, s).t.history && h.toStatus == Sent ensures Proposed(Next(w, s).t, h.projectId) {
      if h !in w.t.history { NewSentRow(w, s, h); }
    }
  }

  /** In every run, stale commits included: a project that was ever sent has a proposal. */
  lemma {:induction false} SentHasProposal(w: World, steps: seq<Step>)
    requires NothingSentBlank(w)
    ensures NothingSentBlank(Run(w, steps))
    decreases |steps|
  {
    if steps != [] {
      NothingSentBlankStep(w, steps[0]);
      SentHasProposal(Next(w, steps[0]), steps[1..]);
    }
  }

  // ---------------------------------------------------------------------------
  // The row and its history
  // ---------------------------------------------------------------------------

  /** The last history row of a project. */
  function LastRow(history: seq<HistoryRow>, pid: string): Option<HistoryRow> {
    if history == [] then None
    else if history[|history| - 1].projectId == pid then Some(history[|history| - 1])
    else LastRow(history[..|history| - 1], pid)
  }

  lemma LastRowSnoc(history: seq<HistoryRow>, row: HistoryRow, pid: string)
    ensures LastRow(history + [row], pid) == if row.projectId == pid then Some(row) else LastRow(history, pid)
  {
    assert (history + [row])[..|history|] == history;
  }

  /** The project row repeats its last history row: the status it went to, and, unless it is new, when and by whom. */
  predicate Repeats(p: ProjectRow, last: Option<HistoryRow>) {
    && last.Some? && p.status == last.value.toStatus
    && (if last.value.origin.None? then p.changedAt == None && p.changedBy == None
        else p.changedAt == Some(last.value.at) && p.changedBy == last.value.actor)
  }

  ghost predicate Recorded(w: World) {
    forall pid :: pid in w.t.projects ==> Repeats(w.t.projects[pid], LastRow(w.t.history, pid))
  }

  lemma RecordedStep(w: World, s: Step)
    requires Recorded(w)
    ensures Recorded(Next(w, s))
  {
    var w' := Next(w, s);
    if Commits(w, s) {
      CommitIsSigned(w, s);
      var row := w'.t.history[|w.t.history|];
      assert w'.t.history == w.t.history + [row];
      forall pid | pid in w'.t.projects ensures Repeats(w'.t.projects[pid], LastRow(w'.t.history, pid)) {
        LastRowSnoc(w.t.history, row, pid);
      }
    } else if Creates(w, s) {
      var row := CreationRow(s.projectId, s.historyHex);
      forall pid | pid in w'.t.projects ensures Repeats(w'.t.projects[pid], LastRow(w'.t.history, pid)) {
        LastRowSnoc(w.t.history, row, pid);
      }
    } else {
      QuietStep(w, s);
    }
  }

  /** In every run, stale commits included: each project row repeats the last row of its history. */
  lemma {:induction false} RowRepeatsHistory(w: World, steps: seq<Step>)
    requires Recorded(w)
    ensures Recorded(Run(w, steps))
    decreases |steps|
  {
    if steps != [] {
      RecordedStep(w, steps[0]);
      RowRepeatsHistory(Next(w, steps[0]), steps[1..]);
    }
  }
}
