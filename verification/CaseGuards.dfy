/** The two guards of the workflow over whole runs: the evidence freeze and the pricing gate, and exactly where each
    holds. */
module CaseGuards {
  import opened Basics
  import opened Transitions
  import opened CaseTables
  import opened CaseEffects
  import opened CaseActions
  import opened CaseRuns

  const PRICED_STATUSES: set<Status> := {QuoteReady, Sent, Archived}

  // ---------------------------------------------------------------------------
  // Evidence freeze
  // ---------------------------------------------------------------------------

  /** While the project is locked its content is what the analysis started with. */
  ghost predicate FrozenFor(w: World, pid: string) {
    pid in w.t.projects && IsLocked(w.t.projects[pid].status) ==> Unchanged(w, pid)
  }

  predicate Unchanged(w: World, pid: string) {
    pid in w.content && pid in w.frozen && w.content[pid] == w.frozen[pid]
  }

  ghost predicate Frozen(w: World) {
    w.content.Keys == w.t.projects.Keys && forall pid :: pid in w.t.projects ==> FrozenFor(w, pid)
  }

  /** The ways to break the freeze, to be seen before the step: a commit that enters the locked statuses otherwise than
      by starting the analysis, over content that the analysis did not see; and a write of such content into a locked
      project. */
  ghost predicate Thaws(w: World, s: Step, pid: string) {
    || (Commits(w, s) && s.req.projectId == pid && IsLocked(StepEdge(w, s).toStatus)
        && StepEdge(w, s) != Edge(Intake, Analyzing) && !Unchanged(w, pid))
    || (Writes(w, s) && w.open[s.session].projectId == pid && IsLocked(w.t.projects[pid].status)
        && !(pid in w.frozen && s.newContent == w.frozen[pid]))
  }

  /** The ways back: the analysis is started, the project is unlocked, or the analysed content is written again. */
  ghost predicate Refreezes(w: World, s: Step, pid: string) {
    || (Commits(w, s) && s.req.projectId == pid
        && (StepEdge(w, s) == Edge(Intake, Analyzing) || !IsLocked(StepEdge(w, s).toStatus)))
    || (Writes(w, s) && w.open[s.session].projectId == pid && pid in w.frozen && s.newContent == w.frozen[pid])
  }

  /** The exact law of the evidence freeze, step by step, stale commits and writes under any guard included: a frozen
      project stays frozen if and only if the step does not thaw it, and one that is not becomes so if and only if the
      step is one of the ways back. */
  lemma FreezeIff(w: World, s: Step, pid: string)
    requires pid in w.t.projects && pid in w.content
    ensures pid in Next(w, s).t.projects && pid in Next(w, s).content
    ensures FrozenFor(w, pid) ==> (FrozenFor(Next(w, s), pid) <==> !Thaws(w, s, pid))
    ensures !FrozenFor(w, pid) ==> (FrozenFor(Next(w, s), pid) <==> Refreezes(w, s, pid))
  {
    if Commits(w, s) {
      CommitFreezes(w, s, pid);
    } else if s.Write? {
      WriteFreezes(w, s, pid);
    }
  }

  lemma CommitFreezes(w: World, s: Step, pid: string)
    requires pid in w.t.projects && pid in w.content && Commits(w, s)
    ensures FrozenFor(w, pid) ==> (FrozenFor(Next(w, s), pid) <==> !Thaws(w, s, pid))
    ensures !FrozenFor(w, pid) ==> (FrozenFor(Next(w, s), pid) <==> Refreezes(w, s, pid))
  {
    var w' := Next(w, s);
    assert w'.content == w.content;
    if s.req.projectId != pid {
      assert w'.t.projects[pid] == w.t.projects[pid] && Unchanged(w', pid) == Unchanged(w, pid);
    } else {
      assert w'.t.projects[pid].status == StepEdge(w, s).toStatus;
    }
  }

  lemma WriteFreezes(w: World, s: Step, pid: string)
    requires pid in w.t.projects && pid in w.content && s.Write?
    ensures FrozenFor(w, pid) ==> (FrozenFor(Next(w, s), pid) <==> !Thaws(w, s, pid))
    ensures !FrozenFor(w, pid) ==> (FrozenFor(Next(w, s), pid) <==> Refreezes(w, s, pid))
  {
  }

  /** A project that has just appeared is a draft with its content. */
  lemma NewIsDraft(w: World, s: Step, pid: string)
    requires pid in Next(w, s).t.projects && pid !in w.t.projects
    ensures Next(w, s).t.projects[pid].status == Draft && pid in Next(w, s).content
  {
  }

  lemma ContentKeys(w: World, s: Step)
    requires w.content.Keys == w.t.projects.Keys
    ensures Next(w, s).content.Keys == Next(w, s).t.projects.Keys
  {
  }

  lemma NoThawKeeps(w: World, s: Step)
    requires Frozen(w) && forall pid :: !Thaws(w, s, pid)
    ensures Frozen(Next(w, s))
  {
    ContentKeys(w, s);
    forall pid | pid in Next(w, s).t.projects ensures FrozenFor(Next(w, s), pid) {
      if pid in w.t.projects {
        assert FrozenFor(w, pid) && pid in w.content;
        FreezeIff(w, s, pid);
      } else {
        NewIsDraft(w, s, pid);
      }
    }
  }

  lemma ThawBreaks(w: World, s: Step, pid: string)
    requires Frozen(w) && Thaws(w, s, pid)
    ensures !Frozen(Next(w, s))
  {
    assert pid in w.t.projects && FrozenFor(w, pid) && pid in w.content;
    FreezeIff(w, s, pid);
  }

  lemma FreezeStepIff(w: World, s: Step)
    requires Frozen(w)
    ensures Frozen(Next(w, s)) <==> forall pid :: !Thaws(w, s, pid)
  {
    if pid :| Thaws(w, s, pid) { ThawBreaks(w, s, pid); } else { NoThawKeeps(w, s); }
  }

  /** Every state of the run is frozen. */
  ghost predicate AlwaysFrozen(w: World, steps: seq<Step>)
    decreases |steps|
  {
    Frozen(w) && (steps == [] || AlwaysFrozen(Next(w, steps[0]), steps[1..]))
  }

  ghost predicate NeverThaws(w: World, steps: seq<Step>)
    decreases |steps|
  {
    steps == [] || ((forall pid :: !Thaws(w, steps[0], pid)) && NeverThaws(Next(w, steps[0]), steps[1..]))
  }

  /** Over all runs: every locked project has in every state the content its analysis started with, if and only if no
      step thaws one. */
  lemma {:induction false} EvidenceFrozenIff(w: World, steps: seq<Step>)
    requires Frozen(w)
    ensures AlwaysFrozen(w, steps) <==> NeverThaws(w, steps)
    decreases |steps|
  {
    if steps != [] {
      FreezeStepIff(w, steps[0]);
      if Frozen(Next(w, steps[0])) { EvidenceFrozenIff(Next(w, steps[0]), steps[1..]); }
    }
  }

  // What would be enough, and why the guards in use are not

  /** The step commits from the durable status, or writes under a guard that refuses every locked status, checked
      against the durable status. */
  ghost predicate Careful(w: World, s: Step) {
    && (Commits(w, s) ==> UpToDate(w, s))
    && (Writes(w, s) ==>
          LOCKED_STATUSES <= s.refused
          && w.open[s.session].status == w.t.projects[w.open[s.session].projectId].status)
  }

  ghost predicate AllCareful(w: World, steps: seq<Step>)
    decreases |steps|
  {
    steps == [] || (Careful(w, steps[0]) && AllCareful(Next(w, steps[0]), steps[1..]))
  }

  lemma CarefulNeverThaws(w: World, s: Step, pid: string)
    requires Careful(w, s) && FrozenFor(w, pid)
    ensures !Thaws(w, s, pid)
  {
    if Commits(w, s) && s.req.projectId == pid { LockedBoundary(StepEdge(w, s).fromStatus, StepEdge(w, s).toStatus); }
  }

  /** The promise of the module: if every write of evidence is guarded by assert_unlocked in its own transaction, and
      no commit is stale, every locked project keeps the content its analysis started with. */
  lemma {:induction false} CarefulRunsFreeze(w: World, steps: seq<Step>)
    requires Frozen(w) && AllCareful(w, steps)
    ensures AlwaysFrozen(w, steps)
    decreases |steps|
  {
    if steps != [] {
      forall pid ensures !Thaws(w, steps[0], pid) {
        if pid in w.t.projects { CarefulNeverThaws(w, steps[0], pid); }
      }
      FreezeStepIff(w, steps[0]);
      CarefulRunsFreeze(Next(w, steps[0]), steps[1..]);
    }
  }

  /** The statuses at which the selection of an analysed area is closed. */
  const SELECTION_LOCKED: set<Status> := {ProposalReady, QuoteReady, Sent, Archived, Cancelled}

  /** A write under this guard that was checked against the durable status. */
  ghost predicate FreshWrite(w: World, s: Step, guard: set<Status>) {
    Writes(w, s) && s.refused == guard && w.open[s.session].status == w.t.projects[w.open[s.session].projectId].status
  }

  /** A guard keeps the freeze against writers that check the durable status if and only if it refuses every locked
      status. Photo uploads check nothing, and the selection guard leaves out `analyzing`. */
  lemma GuardFreezesIff(guard: set<Status>)
    ensures (forall w, s :: Frozen(w) && FreshWrite(w, s, guard) ==> forall pid :: !Thaws(w, s, pid))
            <==> LOCKED_STATUSES <= guard
  {
    if status :| status in LOCKED_STATUSES && status !in guard {
      var w, s := MissedWorld(status), Write(0, guard, 1);
      assert Frozen(w) && FreshWrite(w, s, guard) && Thaws(w, s, "p");
    }
  }

  /** One locked project, held by one session. */
  function MissedWorld(status: Status): World {
    World(Tables(map["p" := ProjectRow("o", status, None, None)], [], [], [], [], []), {}, false, [],
          map[0 := Loaded("p", None, status, "o", false)], map["p" := 0], map["p" := 0])
  }

  lemma GuardsInUseMiss()
    ensures !(LOCKED_STATUSES <= {}) && !(LOCKED_STATUSES <= SELECTION_LOCKED)
  {
    assert Analyzing in LOCKED_STATUSES;
  }

  // ---------------------------------------------------------------------------
  // Sent implies approved: exactly when
  // ---------------------------------------------------------------------------

  /** Past the pricing gate every proposal of the project is approved. */
  ghost predicate PricedFor(t: Tables, pid: string) {
    pid in t.projects && t.projects[pid].status in PRICED_STATUSES ==> AllApproved(t, pid)
  }

  ghost predicate AllApproved(t: Tables, pid: string) {
    forall r :: r in t.proposals && r.projectId == pid ==> r.status == Approved
  }

  ghost predicate Priced(w: World) {
    forall pid :: pid in w.t.projects ==> PricedFor(w.t, pid)
  }

  /** The ways past the gate with an unapproved proposal, to be seen before the step: a commit past the gate that is
      not the approval itself, and a new unapproved proposal for a project that is already past it. */
  ghost predicate Unprices(w: World, s: Step, pid: string) {
    || (Commits(w, s) && s.req.projectId == pid && StepEdge(w, s).toStatus in PRICED_STATUSES
        && StepEdge(w, s) != Edge(ProposalReady, QuoteReady) && !AllApproved(w.t, pid))
    || (s.Propose? && s.row.projectId == pid && s.row.status in w.allowed && s.row.status != Approved
        && pid in w.t.projects && w.t.projects[pid].status in PRICED_STATUSES)
  }

  /** The ways back: an approval, or a commit to a status before the gate. */
  ghost predicate Reprices(w: World, s: Step, pid: string) {
    && Commits(w, s) && s.req.projectId == pid
    && (StepEdge(w, s) == Edge(ProposalReady, QuoteReady) || StepEdge(w, s).toStatus !in PRICED_STATUSES)
  }

  /** The exact law of "sent implies approved", step by step and stale commits included: a project that is priced stays
      so if and only if the step is not one of the ways past the gate, and one that is not becomes so if and only if
      the step is one of the ways back. */
  lemma PricedIff(w: World, s: Step, pid: string)
    requires pid in w.t.projects
    ensures pid in Next(w, s).t.projects
    ensures PricedFor(w.t, pid) ==> (PricedFor(Next(w, s).t, pid) <==> !Unprices(w, s, pid))
    ensures !PricedFor(w.t, pid) ==> (PricedFor(Next(w, s).t, pid) <==> Reprices(w, s, pid))
  {
    if Commits(w, s) {
      if StepEdge(w, s) == Edge(ProposalReady, QuoteReady) {
        ApprovalPrices(w, s, pid);
      } else {
        OtherEdgesPrice(w, s, pid);
      }
    } else if s.Propose? {
      var t' := Next(w, s).t;
      if t'.proposals != w.t.proposals { assert s.row in t'.proposals; }
      assert forall r :: r in w.t.proposals ==> r in t'.proposals;
    }
  }

  /** Without stale commits the fast path is the only edge past the gate. */
  lemma OnlyTheFastPath(w: World, s: Step, pid: string)
    requires pid in w.t.projects && PricedFor(w.t, pid) && Commits(w, s) && UpToDate(w, s)
    ensures Unprices(w, s, pid) <==>
      s.req.projectId == pid && StepEdge(w, s) == Edge(Analyzing, QuoteReady) && !AllApproved(w.t, pid)
  {
  }

  /** The approval edge prices its project and leaves the others alone. */
  lemma ApprovalPrices(w: World, s: Step, pid: string)
    requires pid in w.t.projects && Commits(w, s) && StepEdge(w, s) == Edge(ProposalReady, QuoteReady)
    ensures PricedFor(Next(w, s).t, pid) <==> PricedFor(w.t, pid) || s.req.projectId == pid
  {
    LockApproves(w.t.proposals, s.req.projectId, pid);
  }

  lemma OtherEdgesPrice(w: World, s: Step, pid: string)
    requires pid in w.t.projects && Commits(w, s) && StepEdge(w, s) != Edge(ProposalReady, QuoteReady)
    ensures PricedFor(w.t, pid) ==> (PricedFor(Next(w, s).t, pid) <==> !Unprices(w, s, pid))
    ensures !PricedFor(w.t, pid) ==> (PricedFor(Next(w, s).t, pid) <==> Reprices(w, s, pid))
  {
    assert Next(w, s).t.proposals == w.t.proposals;
    assert AllApproved(Next(w, s).t, pid) <==> AllApproved(w.t, pid);
  }

  lemma LockApproves(proposals: seq<ProposalRow>, locked: string, pid: string)
    ensures forall r :: r in PricingLocked(proposals, locked) && r.projectId == locked ==> r.status == Approved
    ensures locked != pid ==>
      forall r: ProposalRow :: r.projectId == pid ==> (r in PricingLocked(proposals, locked) <==> r in proposals)
  {
    var after := PricingLocked(proposals, locked);
    forall r | r in after ensures r.projectId == locked ==> r.status == Approved {
      var k :| 0 <= k < |after| && after[k] == r;
    }
    if locked != pid {
      forall r: ProposalRow | r.projectId == pid ensures r in after <==> r in proposals {
        if r in after { var k :| 0 <= k < |after| && after[k] == r; assert proposals[k].projectId == pid; }
        if r in proposals { var k :| 0 <= k < |proposals| && proposals[k] == r; assert after[k] == r; }
      }
    }
  }

  /** Every state of the run is priced. */
  ghost predicate AlwaysPriced(w: World, steps: seq<Step>)
    decreases |steps|
  {
    Priced(w) && (steps == [] || AlwaysPriced(Next(w, steps[0]), steps[1..]))
  }

  /** No step of the run goes one of the ways past the gate. */
  ghost predicate NeverUnprices(w: World, steps: seq<Step>)
    decreases |steps|
  {
    steps == [] || ((forall pid :: !Unprices(w, steps[0], pid)) && NeverUnprices(Next(w, steps[0]), steps[1..]))
  }

  /** Over whole runs, stale commits included: nothing is ever past the gate with an unapproved proposal if and only if
      no step goes one of the ways past it. */
  lemma {:induction false} SentImpliesApprovedIff(w: World, steps: seq<Step>)
    requires Priced(w)
    ensures AlwaysPriced(w, steps) <==> NeverUnprices(w, steps)
    decreases |steps|
  {
    if steps != [] {
      var s, w' := steps[0], Next(w, steps[0]);
      PricedStepIff(w, s);
      if Priced(w') { SentImpliesApprovedIff(w', steps[1..]); }
    }
  }

  lemma PricedStepIff(w: World, s: Step)
    requires Priced(w)
    ensures Priced(Next(w, s)) <==> forall pid :: !Unprices(w, s, pid)
  {
    var w' := Next(w, s);
    forall pid | pid in w.t.projects
      ensures pid in w'.t.projects && (PricedFor(w'.t, pid) <==> !Unprices(w, s, pid))
    {
      assert PricedFor(w.t, pid);
      PricedIff(w, s, pid);
    }
    assert forall pid :: Unprices(w, s, pid) ==> pid in w.t.projects;
    if forall pid :: !Unprices(w, s, pid) {
      forall pid | pid in w'.t.projects ensures PricedFor(w'.t, pid) {
        if pid !in w.t.projects { NewIsDraft(w, s, pid); }
      }
    }
  }

  // ---------------------------------------------------------------------------
  // All laws at once
  // ---------------------------------------------------------------------------

  /** From an empty database, over every run: the books are kept; histories are walks throughout if and only if no
      commit is stale; evidence is frozen throughout if and only if no step thaws; and "sent implies approved" holds
      throughout if and only if no step goes past the gate unapproved. */
  lemma ReachableWorlds(allowed: set<ProposalStatus>, queueUp: bool, steps: seq<Step>)
    ensures var w := Empty(allowed, queueUp);
      && Books(Run(w, steps))
      && (AlwaysWalked(w, steps) <==> Serial(w, steps))
      && (AlwaysFrozen(w, steps) <==> NeverThaws(w, steps))
      && (AlwaysPriced(w, steps) <==> NeverUnprices(w, steps))
  {
    var w := Empty(allowed, queueUp);
    BooksKept(w, steps);
    WalksIffSerial(w, steps);
    EvidenceFrozenIff(w, steps);
    SentImpliesApprovedIff(w, steps);
  }

  // ---------------------------------------------------------------------------
  // The proposal CHECK
  // ---------------------------------------------------------------------------

  /** An approval commits exactly when nothing fails and the CHECK has no row to object to. */
  lemma ApprovalCommitsIff(t: Tables, allowed: set<ProposalStatus>, f: Facts, luck: Luck)
    ensures Lands(t, allowed, Edge(ProposalReady, QuoteReady), f, luck) <==>
      && (Approved in allowed || !HasProposals(t, f.projectId))
      && 0 !in luck.failing && !luck.connectionLost
      && (forall r :: r in t.history ==> r.id != HistoryId(f.draw))
  {
    var e := Edge(ProposalReady, QuoteReady);
    StagedPerEdge(e, f);
    assert BeforeEffects(e) == [LockProposalPricing];
  }

  ghost predicate NoneApproved(w: World) {
    forall r :: r in w.t.proposals ==> r.status != Approved
  }

  lemma NoneApprovedStep(w: World, s: Step)
    requires NoneApproved(w) && Approved !in w.allowed
    ensures NoneApproved(Next(w, s)) && Next(w, s).allowed == w.allowed
  {
    if Commits(w, s) && StepEdge(w, s) == Edge(ProposalReady, QuoteReady) {
      ApprovalCommitsIff(w.t, w.allowed, StepFacts(w, s), s.luck);
      assert forall k :: 0 <= k < |w.t.proposals| ==> w.t.proposals[k].projectId != s.req.projectId;
      assert Next(w, s).t.proposals == w.t.proposals;
    }
  }

  /** Under the CHECK of migration 0016 no proposal is ever approved, in any run, stale or not. */
  lemma {:induction false} CheckForbidsApproval(w: World, steps: seq<Step>)
    requires NoneApproved(w) && Approved !in w.allowed
    ensures NoneApproved(Run(w, steps))
    decreases |steps|
  {
    if steps != [] {
      NoneApprovedStep(w, steps[0]);
      CheckForbidsApproval(Next(w, steps[0]), steps[1..]);
    }
  }
}
