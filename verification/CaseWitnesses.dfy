/** Runs that show what the workflow does not prevent: the stale-load race, the two ways a case is sent with an
    unapproved proposal, and the four ways the evidence of a locked case is changed. */
module CaseWitnesses {
  import opened Basics
  import opened Transitions
  import opened CaseTables
  import opened CaseEffects
  import opened CaseActions
  import opened CaseWalks
  import opened CaseRuns
  import opened CaseGuards

  const CLEAN: Luck := Luck({}, false, _ => Accepted)

  const STARTING: Edge := Edge(Intake, Analyzing)

  /** A clean finish commits when its edge is allowed, its keys are fresh and the CHECK has no say. */
  lemma CleanFinishCommits(w: World, s: Step)
    requires s.Finish? && s.session in w.open && s.luck == CLEAN
    requires s.req.projectId == w.open[s.session].projectId && s.req.projectId in w.t.projects
    requires s.req.organizationId == w.open[s.session].requestOrg
    requires s.req.action.SendQuote? ==> w.open[s.session].hasProposals
    requires CanTransition(w.open[s.session].status, ActionTarget(s.req.action))
    requires StepEdge(w, s) == Edge(ProposalReady, QuoteReady) ==> Approved in w.allowed
    requires FreshKeys(w.t, StepEdge(w, s), StepFacts(w, s))
    ensures Commits(w, s)
  {
    StagedPerEdge(StepEdge(w, s), StepFacts(w, s));
  }

  /** A finish of start_analysis by a session that has loaded the project in intake. */
  ghost predicate CleanStart(w: World, s: Step, pid: string) {
    && s.Finish? && s.session in w.open && s.req.projectId == pid && s.req.action == StartAnalysis && s.luck == CLEAN
    && w.open[s.session].projectId == pid && w.open[s.session].status == Intake
    && w.open[s.session].requestOrg == s.req.organizationId
    && pid in w.t.projects && FreshKeys(w.t, STARTING, StepFacts(w, s))
  }

  lemma FreshAfterOther(t: Tables, fa: Facts, fb: Facts, reason: Option<string>)
    requires fa.projectId in t.projects && FreshKeys(t, STARTING, fb)
    requires fa.draw.historyHex != fb.draw.historyHex && fa.draw.jobHex != fb.draw.jobHex
      && fa.draw.startedEventId != fb.draw.startedEventId
    ensures FreshKeys(Landed(t, STARTING, fa, reason), STARTING, fb)
  {
    FreshKeysMean(t, STARTING, fb);
    StagedPerEdge(STARTING, fb);
    var job, event := JobsOf(STARTING, fb)[0], EventsOf(STARTING, fb)[0];
    assert StagedBy(BeforeEffects(STARTING), fb) == [StagedJob(job), StagedEvent(event)];
    assert job in JobsOf(STARTING, fb) && event in EventsOf(STARTING, fb);
    assert JobId(fa.draw)[4..] == fa.draw.jobHex && JobId(fb.draw)[4..] == fb.draw.jobHex;
    assert HistoryId(fa.draw)[4..] == fa.draw.historyHex && HistoryId(fb.draw)[4..] == fb.draw.historyHex;
    var t' := Landed(t, STARTING, fa, reason);
    assert KeyFree(t', StagedJob(job)) && KeyFree(t', StagedEvent(event));
  }

  ghost predicate ApartDraws(a: Draw, b: Draw) {
    a.historyHex != b.historyHex && a.jobHex != b.jobHex && a.startedEventId != b.startedEventId
  }

  lemma BothCommit(w: World, a: Step, b: Step, pid: string)
    requires CleanStart(w, a, pid) && CleanStart(w, b, pid) && a.session != b.session && ApartDraws(a.draw, b.draw)
    ensures Commits(w, a) && CleanStart(Next(w, a), b, pid) && Commits(Next(w, a), b)
    ensures StepEdge(w, a) == STARTING && StepEdge(Next(w, a), b) == STARTING
    ensures Next(w, a).t == Landed(w.t, STARTING, StepFacts(w, a), a.req.reason)
    ensures Next(Next(w, a), b).t == Landed(Next(w, a).t, STARTING, StepFacts(Next(w, a), b), b.req.reason)
  {
    CleanFinishCommits(w, a);
    FreshAfterOther(w.t, StepFacts(w, a), StepFacts(w, b), a.req.reason);
    CleanFinishCommits(Next(w, a), b);
  }

  /** Two sessions that loaded the same intake project both commit start_analysis: two jobs, and a
      history that is no longer a walk. */
  lemma StaleStartTwice(w: World, a: Step, b: Step, pid: string)
    requires Books(w) && AllWalked(w) && CleanStart(w, a, pid) && CleanStart(w, b, pid)
    requires w.t.projects[pid].status == Intake && a.session != b.session && ApartDraws(a.draw, b.draw)
    ensures Commits(w, a) && Commits(Next(w, a), b)
    ensures var w2 := Next(Next(w, a), b);
      && JobCount(w2.t.jobs, pid) == JobCount(w.t.jobs, pid) + 2
      && Books(w2) && !AllWalked(w2)
  {
    BothCommit(w, a, b, pid);
    BooksStep(w, a);
    BooksStep(Next(w, a), b);
    assert !AllWalked(Next(Next(w, a), b)) by {
      WalkStep(w, a);
      WalkKeptIffUpToDate(Next(w, a), b);
    }
    JobCountSnoc(STARTING, StepFacts(w, a), w.t.jobs, pid);
    JobCountSnoc(STARTING, StepFacts(Next(w, a), b), Next(w, a).t.jobs, pid);
  }

  // ---------------------------------------------------------------------------
  // Scripts: actions performed one after the other
  // ---------------------------------------------------------------------------

  function Tally(n: nat): string { seq(n, _ => 'a') }

  function DrawAt(n: nat): Draw {
    Draw(Tally(n), Tally(n), "evt_" + Tally(n), "evt_" + Tally(n), Tally(n), Tally(n), "", n)
  }

  function RequestFor(pid: string, action: Action): Request {
    Request(pid, None, action, None, Manager, None)
  }

  /** The n-th action of a script: load, then finish. */
  function Act(pid: string, action: Action, n: nat): seq<Step> {
    [Load(n, pid, None), Finish(n, RequestFor(pid, action), DrawAt(n), CLEAN)]
  }

  /** Every identifier in the tables is shorter than the ones of the n-th draw. */
  ghost predicate Room(t: Tables, n: nat) {
    && (forall r :: r in t.history ==> |r.id| < n + 4)
    && (forall r :: r in t.jobs ==> |r.id| < n + 4)
    && (forall r :: r in t.outbox ==> |r.id| < n + 4)
    && (forall r :: r in t.exports ==> |r.id| < n + 4)
  }

  lemma DrawLengths(n: nat)
    ensures var d := DrawAt(n);
      && |HistoryId(d)| == |JobId(d)| == |QuoteExportId(d)| == |ZipExportId(d)| == n + 4
      && |d.startedEventId| == |d.proposalEventId| == n + 4
  {
  }

  lemma FreshInRoom(t: Tables, e: Edge, f: Facts, n: nat)
    requires Room(t, n) && f.draw == DrawAt(n)
    ensures FreshKeys(t, e, f)
  {
    DrawLengths(n);
    StagedPerEdge(e, f);
  }

  lemma RoomForNext(t: Tables, e: Edge, f: Facts, reason: Option<string>, n: nat)
    requires Room(t, n) && f.draw == DrawAt(n) && f.projectId in t.projects
    ensures FreshKeys(t, e, f) && Room(Landed(t, e, f, reason), n + 1)
  {
    DrawLengths(n);
    FreshInRoom(t, e, f, n);
  }

  /** The finish of an action right after its load. */
  lemma FinishCommits(w: World, pid: string, action: Action, n: nat)
    requires pid in w.t.projects && Room(w.t, n)
    requires CanTransition(w.t.projects[pid].status, ActionTarget(action))
    requires action.SendQuote? ==> HasProposals(w.t, pid)
    requires w.t.projects[pid].status == ProposalReady && ActionTarget(action) == QuoteReady ==> Approved in w.allowed
    ensures var w1, s := Next(w, Load(n, pid, None)), Finish(n, RequestFor(pid, action), DrawAt(n), CLEAN);
      && w1 == w.(open := w1.open) && Commits(w1, s) && UpToDate(w1, s)
      && StepEdge(w1, s) == Edge(w.t.projects[pid].status, ActionTarget(action))
      && (forall sid :: sid in w.open && sid != n ==> sid in w1.open && w1.open[sid] == w.open[sid])
      && Room(Next(w1, s).t, n + 1)
  {
    var w1 := Next(w, Load(n, pid, None));
    var s := Finish(n, RequestFor(pid, action), DrawAt(n), CLEAN);
    var row := w.t.projects[pid];
    assert w1.open[n] == Loaded(pid, None, row.status, row.organizationId, HasProposals(w.t, pid));
    RoomForNext(w1.t, StepEdge(w1, s), StepFacts(w1, s), None, n);
    CleanFinishCommits(w1, s);
  }

  lemma ActCommits(w: World, pid: string, action: Action, n: nat)
    requires pid in w.t.projects && Room(w.t, n)
    requires CanTransition(w.t.projects[pid].status, ActionTarget(action))
    requires action.SendQuote? ==> HasProposals(w.t, pid)
    requires w.t.projects[pid].status == ProposalReady && ActionTarget(action) == QuoteReady ==> Approved in w.allowed
    ensures Serial(w, Act(pid, action, n))
    ensures ActDone(w, pid, action, n, Run(w, Act(pid, action, n)))
  {
    var w1, s := Next(w, Load(n, pid, None)), Finish(n, RequestFor(pid, action), DrawAt(n), CLEAN);
    FinishCommits(w, pid, action, n);
    FinishLeaves(w1, s);
    TwoSteps(w, Load(n, pid, None), s);
  }

  /** What a commit leaves of the world, seen from the outside. */
  lemma FinishLeaves(w: World, s: Step)
    requires Commits(w, s)
    ensures var w', e, pid := Next(w, s), StepEdge(w, s), s.req.projectId;
      && w'.t.projects.Keys == w.t.projects.Keys && w'.t.projects[pid].status == e.toStatus
      && w'.allowed == w.allowed && w'.content == w.content && w'.open == w.open - {s.session}
      && w'.t.proposals ==
           (if e == Edge(ProposalReady, QuoteReady) then PricingLocked(w.t.proposals, pid) else w.t.proposals)
      && w'.frozen ==
           (if e == Edge(Intake, Analyzing) && pid in w.content then w.frozen[pid := w.content[pid]] else w.frozen)
  {
  }

  ghost predicate ActDone(w: World, pid: string, action: Action, n: nat, w': World)
    requires pid in w.t.projects
  {
    var e := Edge(w.t.projects[pid].status, ActionTarget(action));
    && w'.t.projects.Keys == w.t.projects.Keys && w'.t.projects[pid].status == e.toStatus
    && Room(w'.t, n + 1) && w'.allowed == w.allowed && w'.content == w.content
    && w'.t.proposals ==
         (if e == Edge(ProposalReady, QuoteReady) then PricingLocked(w.t.proposals, pid) else w.t.proposals)
    && (forall sid :: sid in w.open && sid != n ==> sid in w'.open && w'.open[sid] == w.open[sid])
    && w'.frozen ==
         (if e == Edge(Intake, Analyzing) && pid in w.content then w.frozen[pid := w.content[pid]] else w.frozen)
  }

  lemma TwoSteps(w: World, a: Step, b: Step)
    ensures Run(w, [a, b]) == Next(Next(w, a), b)
    ensures Serial(w, [a, b]) <==>
      (Commits(w, a) ==> UpToDate(w, a)) && (Commits(Next(w, a), b) ==> UpToDate(Next(w, a), b))
  {
    assert [a, b][1..] == [b] && [b][1..] == [];
    assert Run(Next(w, a), [b]) == Next(Next(w, a), b);
    assert Serial(Next(w, a), [b]) <==> (Commits(Next(w, a), b) ==> UpToDate(Next(w, a), b));
  }

  lemma {:induction false} RunConcat(w: World, a: seq<Step>, b: seq<Step>)
    ensures Run(w, a + b) == Run(Run(w, a), b)
    ensures Serial(w, a + b) <==> Serial(w, a) && Serial(Run(w, a), b)
    decreases |a|
  {
    if a == [] {
      assert a + b == b;
    } else {
      assert (a + b)[0] == a[0] && (a + b)[1..] == a[1..] + b;
      RunConcat(Next(w, a[0]), a[1..], b);
    }
  }

  /** Where a script without stale commits has brought project p. */
  ghost predicate At(allowed: set<ProposalStatus>, steps: seq<Step>, status: Status, proposals: seq<ProposalRow>,
                     n: nat)
  {
    var w := Run(Empty(allowed, true), steps);
    && Serial(Empty(allowed, true), steps)
    && "p" in w.t.projects && w.t.projects["p"].status == status
    && w.t.proposals == proposals && Room(w.t, n) && w.allowed == allowed
    && "p" in w.content && w.content["p"] == 0 && ("p" in w.frozen ==> w.frozen["p"] == 0)
  }

  lemma Opening(allowed: set<ProposalStatus>)
    requires ReadyForExport in allowed
    ensures At(allowed, OPENING, Draft, [ProposalRow("f", "p", ReadyForExport)], 1)
  {
    var w := Empty(allowed, true);
    TwoSteps(w, OPENING[0], OPENING[1]);
    assert Next(Next(w, OPENING[0]), OPENING[1]).t.proposals == [ProposalRow("f", "p", ReadyForExport)];
  }

  lemma ThenAct(allowed: set<ProposalStatus>, steps: seq<Step>, status: Status, proposals: seq<ProposalRow>, n: nat,
                action: Action)
    requires At(allowed, steps, status, proposals, n) && CanTransition(status, ActionTarget(action))
    requires action.SendQuote? ==> exists r :: r in proposals && r.projectId == "p"
    requires status == ProposalReady && ActionTarget(action) == QuoteReady ==> Approved in allowed
    ensures At(allowed, steps + Act("p", action, n), ActionTarget(action),
               if status == ProposalReady && ActionTarget(action) == QuoteReady then PricingLocked(proposals, "p")
               else proposals, n + 1)
  {
    ActCommits(Run(Empty(allowed, true), steps), "p", action, n);
    RunConcat(Empty(allowed, true), steps, Act("p", action, n));
  }

  lemma ThenPropose(allowed: set<ProposalStatus>, steps: seq<Step>, status: Status, proposals: seq<ProposalRow>, n: nat,
                    row: ProposalRow)
    requires At(allowed, steps, status, proposals, n) && row.projectId == "p" && row.status in allowed
    ensures At(allowed, steps + [Propose(row)], status, proposals + [row], n)
  {
    var w := Run(Empty(allowed, true), steps);
    RunConcat(Empty(allowed, true), steps, [Propose(row)]);
    assert [Propose(row)][1..] == [];
    assert Run(w, [Propose(row)]) == Next(w, Propose(row)) && Serial(w, [Propose(row)]);
  }

  const OPENING: seq<Step> := [Create("p", "o", 0, ""), Propose(ProposalRow("f", "p", ReadyForExport))]

  const ANALYSING: seq<Step> := OPENING + Act("p", Submit, 1) + Act("p", StartAnalysis, 2)

  const UNAPPROVED: seq<ProposalRow> := [ProposalRow("f", "p", ReadyForExport)]

  lemma Analysing(allowed: set<ProposalStatus>)
    requires ReadyForExport in allowed
    ensures At(allowed, ANALYSING, Analyzing, UNAPPROVED, 3)
  {
    Opening(allowed);
    ThenAct(allowed, OPENING, Draft, UNAPPROVED, 1, Submit);
    ThenAct(allowed, OPENING + Act("p", Submit, 1), Intake, UNAPPROVED, 2, StartAnalysis);
  }

  const FAST_PATH: seq<Step> := ANALYSING + Act("p", WorkerQuoteReady, 3) + Act("p", SendQuote, 4)

  /** The worker fast path reaches `sent`, without a stale commit, with a proposal that nobody approved. */
  lemma FastPathSendsUnapproved(allowed: set<ProposalStatus>)
    requires ReadyForExport in allowed
    ensures At(allowed, FAST_PATH, Sent, UNAPPROVED, 5)
  {
    assert UNAPPROVED[0] in UNAPPROVED;
    Analysing(allowed);
    ThenAct(allowed, ANALYSING, Analyzing, UNAPPROVED, 3, WorkerQuoteReady);
    ThenAct(allowed, ANALYSING + Act("p", WorkerQuoteReady, 3), QuoteReady, UNAPPROVED, 4, SendQuote);
  }

  const APPROVED: seq<Step> := ANALYSING + Act("p", WorkerProposalReady, 3) + Act("p", ApproveProposal, 4)

  lemma ThenApproved(allowed: set<ProposalStatus>)
    requires ReadyForExport in allowed && Approved in allowed
    ensures At(allowed, APPROVED, QuoteReady, [ProposalRow("f", "p", Approved)], 5)
  {
    Analysing(allowed);
    ThenAct(allowed, ANALYSING, Analyzing, UNAPPROVED, 3, WorkerProposalReady);
    ThenAct(allowed, ANALYSING + Act("p", WorkerProposalReady, 3), ProposalReady, UNAPPROVED, 4, ApproveProposal);
    assert PricingLocked(UNAPPROVED, "p") == [ProposalRow("f", "p", Approved)];
  }

  const LATE_PROPOSAL: seq<Step> := APPROVED + [Propose(ProposalRow("g", "p", ReadyForExport))] + Act("p", SendQuote, 5)

  /** So does the reviewed path, when a proposal is added after the approval. */
  lemma LateProposalSentUnapproved(allowed: set<ProposalStatus>)
    requires ReadyForExport in allowed && Approved in allowed
    ensures At(allowed, LATE_PROPOSAL, Sent,
               [ProposalRow("f", "p", Approved), ProposalRow("g", "p", ReadyForExport)], 6)
  {
    ThenApproved(allowed);
    var approved, late := [ProposalRow("f", "p", Approved)], ProposalRow("g", "p", ReadyForExport);
    ThenPropose(allowed, APPROVED, QuoteReady, approved, 5, late);
    assert approved + [late] == [approved[0], late] && late in approved + [late];
    ThenAct(allowed, APPROVED + [Propose(late)], QuoteReady, approved + [late], 5, SendQuote);
  }

  const BOTH_LOAD: seq<Step> := [Load(2, "p", None), Load(3, "p", None)]

  function StartAt(n: nat): Step { Finish(n, RequestFor("p", StartAnalysis), DrawAt(n), CLEAN) }

  const BOTH_START: seq<Step> := [StartAt(2), StartAt(3)]

  lemma BothCleanStarts(w: World)
    requires "p" in w.t.projects && w.t.projects["p"].status == Intake && Room(w.t, 2)
    ensures var w2 := Run(w, BOTH_LOAD);
      w2.t == w.t && w2.sent == w.sent && CleanStart(w2, StartAt(2), "p") && CleanStart(w2, StartAt(3), "p")
  {
    TwoSteps(w, BOTH_LOAD[0], BOTH_LOAD[1]);
    var w2 := Run(w, BOTH_LOAD);
    assert Room(w.t, 3);
    RoomForNext(w2.t, STARTING, StepFacts(w2, StartAt(2)), None, 2);
    RoomForNext(w2.t, STARTING, StepFacts(w2, StartAt(3)), None, 3);
  }

  lemma BothStart(w: World)
    requires Books(w) && AllWalked(w)
    requires CleanStart(w, StartAt(2), "p") && CleanStart(w, StartAt(3), "p") && w.t.projects["p"].status == Intake
    ensures !AllWalked(Run(w, BOTH_START)) && JobCount(Run(w, BOTH_START).t.jobs, "p") >= 2
  {
    var a, b := StartAt(2), StartAt(3);
    assert |a.draw.historyHex| != |b.draw.historyHex| && |a.draw.jobHex| != |b.draw.jobHex|;
    assert |a.draw.startedEventId| != |b.draw.startedEventId|;
    assert ApartDraws(a.draw, b.draw);
    StaleStartTwice(w, a, b, "p");
    TwoSteps(w, a, b);
  }

  const RACE: seq<Step> := OPENING + Act("p", Submit, 1) + BOTH_LOAD + BOTH_START

  /** The stale-load race is reachable from an empty database. */
  lemma RaceIsReachable(allowed: set<ProposalStatus>)
    requires ReadyForExport in allowed
    ensures var w := Run(Empty(allowed, true), RACE); !AllWalked(w) && JobCount(w.t.jobs, "p") >= 2
  {
    var w := Empty(allowed, true);
    var s := OPENING + Act("p", Submit, 1);
    Opening(allowed);
    ThenAct(allowed, OPENING, Draft, [ProposalRow("f", "p", ReadyForExport)], 1, Submit);
    BooksKept(w, s);
    HistoryIsWalk(w, s);
    var w1 := Run(w, s);
    BothCleanStarts(w1);
    RunConcat(w, s, BOTH_LOAD);
    var w2 := Run(w1, BOTH_LOAD);
    forall pid | pid in w2.t.projects ensures Walked(w2.t, pid) { assert Walked(w1.t, pid); }
    BothStart(w2);
    RunConcat(w, s + BOTH_LOAD, BOTH_START);
  }

  // ---------------------------------------------------------------------------
  // Ways to change the evidence of a locked case
  // ---------------------------------------------------------------------------

  /** Some locked project no longer has the content its analysis started with. */
  ghost predicate Thawed(allowed: set<ProposalStatus>, steps: seq<Step>) {
    !Frozen(Run(Empty(allowed, true), steps))
  }

  function LoadWrite(sid: nat, refused: set<Status>): seq<Step> {
    [Load(sid, "p", None), Write(sid, refused, 1)]
  }

  lemma LoadWriteThaws(w: World, sid: nat, refused: set<Status>)
    requires "p" in w.t.projects && IsLocked(w.t.projects["p"].status) && w.t.projects["p"].status !in refused
    requires "p" in w.frozen ==> w.frozen["p"] == 0
    ensures !Frozen(Run(w, LoadWrite(sid, refused)))
  {
    TwoSteps(w, Load(sid, "p", None), Write(sid, refused, 1));
    assert !FrozenFor(Run(w, LoadWrite(sid, refused)), "p");
  }

  /** Photos are uploaded without any look at the status, so into a case that is being analysed as well. */
  lemma UploadThaws(allowed: set<ProposalStatus>)
    requires ReadyForExport in allowed
    ensures Thawed(allowed, ANALYSING + LoadWrite(9, {}))
  {
    Analysing(allowed);
    LoadWriteThaws(Run(Empty(allowed, true), ANALYSING), 9, {});
    RunConcat(Empty(allowed, true), ANALYSING, LoadWrite(9, {}));
  }

  /** The guard of the selection routes lets a case through that is being analysed. */
  lemma SelectionThaws(allowed: set<ProposalStatus>)
    requires ReadyForExport in allowed
    ensures Thawed(allowed, ANALYSING + LoadWrite(9, SELECTION_LOCKED))
  {
    Analysing(allowed);
    LoadWriteThaws(Run(Empty(allowed, true), ANALYSING), 9, SELECTION_LOCKED);
    RunConcat(Empty(allowed, true), ANALYSING, LoadWrite(9, SELECTION_LOCKED));
  }

  const SUBMITTED: seq<Step> := OPENING + Act("p", Submit, 1)

  lemma ThenSubmitted(allowed: set<ProposalStatus>)
    requires ReadyForExport in allowed
    ensures At(allowed, SUBMITTED, Intake, UNAPPROVED, 2)
  {
    Opening(allowed);
    ThenAct(allowed, OPENING, Draft, UNAPPROVED, 1, Submit);
  }

  lemma OneStep(w: World, s: Step)
    ensures Run(w, [s]) == Next(w, s)
  {
    assert [s][1..] == [];
  }

  /** Session 9 loads the case, another session acts on it, then session 9 does `last`. */
  function Around(action: Action, n: nat, middle: seq<Step>, last: Step): seq<Step> {
    [Load(9, "p", None)] + (Act("p", action, n) + (middle + [last]))
  }

  lemma RunAround(w: World, action: Action, n: nat, middle: seq<Step>, last: Step)
    ensures Run(w, Around(action, n, middle, last)) ==
      Next(Run(Run(Next(w, Load(9, "p", None)), Act("p", action, n)), middle), last)
  {
    var w1 := Next(w, Load(9, "p", None));
    OneStep(w, Load(9, "p", None));
    RunConcat(w, [Load(9, "p", None)], Act("p", action, n) + (middle + [last]));
    RunConcat(w1, Act("p", action, n), middle + [last]);
    var w2 := Run(w1, Act("p", action, n));
    RunConcat(w2, middle, [last]);
    OneStep(Run(w2, middle), last);
  }

  /** Project p as a world of a script knows it, with content and frozen content 0 so far. */
  ghost predicate Holds(w: World, status: Status, n: nat) {
    && "p" in w.t.projects && w.t.projects["p"].status == status && Room(w.t, n)
    && "p" in w.content && w.content["p"] == 0 && ("p" in w.frozen ==> w.frozen["p"] == 0)
  }

  /** What the other session's action leaves: session 9 still holds the status it loaded. */
  lemma BehindItsBack(w: World, status: Status, action: Action, n: nat) returns (w2: World)
    requires Holds(w, status, n) && n != 9 && CanTransition(status, ActionTarget(action)) && !action.SendQuote?
    requires ActionTarget(action) != QuoteReady
    ensures w2 == Run(Next(w, Load(9, "p", None)), Act("p", action, n))
    ensures Holds(w2, ActionTarget(action), n + 1)
    ensures 9 in w2.open && w2.open[9].projectId == "p" && w2.open[9].status == status && w2.open[9].requestOrg == None
  {
    var w1 := Next(w, Load(9, "p", None));
    ActCommits(w1, "p", action, n);
    w2 := Run(w1, Act("p", action, n));
  }

  const STALE_GUARD: seq<Step> := Around(StartAnalysis, 2, [], Write(9, LOCKED_STATUSES, 1))

  /** assert_unlocked itself is not enough when the status was read before the analysis started. */
  lemma StaleGuardThaws(allowed: set<ProposalStatus>)
    requires ReadyForExport in allowed
    ensures Thawed(allowed, SUBMITTED + STALE_GUARD)
  {
    ThenSubmitted(allowed);
    var w := Run(Empty(allowed, true), SUBMITTED);
    var w2 := BehindItsBack(w, Intake, StartAnalysis, 2);
    assert Run(w2, []) == w2;
    RunAround(w, StartAnalysis, 2, [], Write(9, LOCKED_STATUSES, 1));
    assert !FrozenFor(Next(w2, Write(9, LOCKED_STATUSES, 1)), "p");
    RunConcat(Empty(allowed, true), SUBMITTED, STALE_GUARD);
  }

  function LateWorker(n: nat): Step { Finish(9, RequestFor("p", WorkerProposalReady), DrawAt(n), CLEAN) }

  const STALE_COMMIT: seq<Step> := Around(ReturnToDraft, 3, LoadWrite(8, LOCKED_STATUSES), LateWorker(4))

  /** Nor is it enough with every write guarded and fresh, when a commit is stale: the case is returned to draft and
      edited while a worker still holds it as being analysed, and the worker's commit then locks content that nobody
      has analysed. */
  lemma StaleCommitThaws(allowed: set<ProposalStatus>)
    requires ReadyForExport in allowed
    ensures Thawed(allowed, ANALYSING + STALE_COMMIT)
  {
    Analysing(allowed);
    var w := Run(Empty(allowed, true), ANALYSING);
    var w2 := BehindItsBack(w, Analyzing, ReturnToDraft, 3);
    RunAround(w, ReturnToDraft, 3, LoadWrite(8, LOCKED_STATUSES), LateWorker(4));
    DraftWrite(w2);
    LateWorkerThaws(Run(w2, LoadWrite(8, LOCKED_STATUSES)));
    RunConcat(Empty(allowed, true), ANALYSING, STALE_COMMIT);
  }

  lemma DraftWrite(w: World)
    requires Holds(w, Draft, 4) && 9 in w.open
    ensures var w' := Run(w, LoadWrite(8, LOCKED_STATUSES));
      && w'.t == w.t && w'.frozen == w.frozen && w'.content == w.content["p" := 1]
      && 9 in w'.open && w'.open[9] == w.open[9]
  {
    TwoSteps(w, Load(8, "p", None), Write(8, LOCKED_STATUSES, 1));
  }

  lemma LateWorkerThaws(w: World)
    requires "p" in w.t.projects && "p" in w.content && w.content["p"] == 1 && ("p" in w.frozen ==> w.frozen["p"] == 0)
    requires 9 in w.open && w.open[9].projectId == "p" && w.open[9].status == Analyzing && Room(w.t, 4)
    requires w.open[9].requestOrg == None
    ensures !Frozen(Next(w, LateWorker(4)))
  {
    var s := LateWorker(4);
    RoomForNext(w.t, StepEdge(w, s), StepFacts(w, s), None, 4);
    CleanFinishCommits(w, s);
    assert !FrozenFor(Next(w, s), "p");
  }
}
