/** Whole runs: many sessions load and finish actions on many projects, in any interleaving, with any
    failures, while other code creates projects, adds proposals and edits content. */
module CaseRuns {
  import opened Basics
  import opened Transitions
  import opened CaseTables
  import opened CaseEffects
  import opened CaseActions
  import opened CaseWalks

  /** What a session remembers of the project it loaded. */
  datatype Loaded = Loaded(
    projectId: string, requestOrg: Option<string>, status: Status, projectOrg: string, hasProposals: bool)

  /** `content` is the editable evidence of a project; `frozen` only records the past: the content when the
      analysis last started. */
  datatype World = World(
    t: Tables, allowed: set<ProposalStatus>, queueUp: bool, sent: seq<Wire>, open: map<nat, Loaded>,
    content: map<string, int>, frozen: map<string, int>)

  /** `Write` is any change of a project's evidence by a session that has loaded it: refused if the status it loaded is
      among `refused`, and otherwise made whatever the status is by then. */
  datatype Step =
    | Create(projectId: string, organizationId: string, initialContent: int, historyHex: string)
    | Propose(row: ProposalRow)
    | Write(session: nat, refused: set<Status>, newContent: int)
    | Load(session: nat, projectId: string, requestOrg: Option<string>)
    | Finish(session: nat, req: Request, draw: Draw, luck: Luck)

  function StepEdge(w: World, s: Step): Edge
    requires s.Finish? && s.session in w.open
  {
    Edge(w.open[s.session].status, ActionTarget(s.req.action))
  }

  function StepFacts(w: World, s: Step): Facts
    requires s.Finish? && s.session in w.open
  {
    FactsOf(s.req, w.open[s.session].projectOrg, s.draw)
  }

  /** The session holds this project and its action commits. */
  ghost predicate Commits(w: World, s: Step) {
    && s.Finish? && s.session in w.open
    && s.req.projectId == w.open[s.session].projectId && s.req.projectId in w.t.projects
    && s.req.organizationId == w.open[s.session].requestOrg
    && (s.req.action.SendQuote? ==> w.open[s.session].hasProposals)
    && Lands(w.t, w.allowed, StepEdge(w, s), StepFacts(w, s), s.luck)
  }

  /** The status the session loaded is still the durable one. */
  ghost predicate UpToDate(w: World, s: Step) {
    s.Finish? && s.session in w.open && s.req.projectId in w.t.projects
    ==> w.open[s.session].status == w.t.projects[s.req.projectId].status
  }

  ghost function AfterCommitted(w: World, s: Step): World
    requires Commits(w, s)
  {
    var e, f := StepEdge(w, s), StepFacts(w, s);
    var pid := s.req.projectId;
    w.(t := Landed(w.t, e, f, s.req.reason),
       sent := w.sent + (if w.queueUp then Kept(WiresOf(e, f), s.luck.network) else []),
       open := w.open - {s.session},
       frozen := if e == Edge(Intake, Analyzing) && pid in w.content then w.frozen[pid := w.content[pid]] else w.frozen)
  }

  /** The history row of a new project; who created it and when is left out. */
  function CreationRow(pid: string, hex: string): HistoryRow {
    HistoryRow("psh_" + hex, pid, None, Draft, None, Some("Project created"), 0)
  }

  /** The tables with one more project and its creation row. */
  function Created(t: Tables, pid: string, org: string, hex: string): Tables {
    t.(projects := t.projects[pid := ProjectRow(org, Draft, None, None)],
       history := t.history + [CreationRow(pid, hex)])
  }

  /** The session holds a project whose evidence it changes. */
  predicate Writes(w: World, s: Step) {
    && s.Write? && s.session in w.open && w.open[s.session].status !in s.refused
    && w.open[s.session].projectId in w.t.projects
  }

  ghost function Next(w: World, s: Step): World {
    match s
    case Create(pid, org, content, hex) =>
      if pid in w.t.projects || !KeyFree(w.t, StagedHistory(CreationRow(pid, hex))) then w
      else w.(t := Created(w.t, pid, org, hex), content := w.content[pid := content])
    case Propose(row) =>
      if row.projectId !in w.t.projects || row.status !in w.allowed then w
      else w.(t := w.t.(proposals := w.t.proposals + [row]))
    case Write(sid, refused, content) =>
      if sid !in w.open then w
      else if !Writes(w, s) then w.(open := w.open - {sid})
      else w.(content := w.content[w.open[sid].projectId := content], open := w.open - {sid})
    case Load(sid, pid, org) =>
      if !Visible(w.t, pid, org) then w
      else w.(open := w.open[sid := Loaded(pid, org, w.t.projects[pid].status, w.t.projects[pid].organizationId,
                                           HasProposals(w.t, pid))])
    case Finish(sid, req, draw, luck) =>
      if Commits(w, s) then AfterCommitted(w, s) else w.(open := w.open - {sid})
  }

  ghost function Run(w: World, steps: seq<Step>): World
    decreases |steps|
  {
    if steps == [] then w else Run(Next(w, steps[0]), steps[1..])
  }

  /** No action of the run commits from a stale status. */
  ghost predicate Serial(w: World, steps: seq<Step>)
    decreases |steps|
  {
    steps == [] || ((Commits(w, steps[0]) ==> UpToDate(w, steps[0])) && Serial(Next(w, steps[0]), steps[1..]))
  }

  ghost function Empty(allowed: set<ProposalStatus>, queueUp: bool): World {
    World(Tables(map[], [], [], [], [], []), allowed, queueUp, [], map[], map[], map[])
  }

  // ---------------------------------------------------------------------------
  // Counting rows per project
  // ---------------------------------------------------------------------------

  /** The edges of one project, in commit order. */
  function EdgesOf(h: seq<HistoryRow>, pid: string): seq<Edge> {
    if h == [] then []
    else
      var last := h[|h| - 1];
      EdgesOf(h[..|h| - 1], pid)
      + (if last.projectId == pid && last.origin.Some? then [Edge(last.origin.value, last.toStatus)] else [])
  }

  /** The creation rows of one project. */
  function CreationCount(h: seq<HistoryRow>, pid: string): nat {
    if h == [] then 0
    else
      CreationCount(h[..|h| - 1], pid) + (if h[|h| - 1].projectId == pid && h[|h| - 1].origin.None? then 1 else 0)
  }

  function JobCount(jobs: seq<JobRow>, pid: string): nat {
    if jobs == [] then 0
    else JobCount(jobs[..|jobs| - 1], pid) + (if jobs[|jobs| - 1].projectId == pid then 1 else 0)
  }

  function EventCount(outbox: seq<OutboxRow>, pid: string, kind: EventType): nat {
    if outbox == [] then 0
    else
      var last := outbox[|outbox| - 1];
      EventCount(outbox[..|outbox| - 1], pid, kind) + (if last.projectId == pid && last.eventType == kind then 1 else 0)
  }

  function ExportCount(exports: seq<ExportRow>, pid: string, kind: ExportType): nat {
    if exports == [] then 0
    else
      var last := exports[|exports| - 1];
      ExportCount(exports[..|exports| - 1], pid, kind)
      + (if last.projectId == pid && last.exportType == kind then 1 else 0)
  }

  function EdgeCount(h: seq<HistoryRow>, pid: string, e: Edge): nat {
    CountWhere(EdgesOf(h, pid), Is(e))
  }

  // ---------------------------------------------------------------------------
  // Invariants of every run, stale or not
  // ---------------------------------------------------------------------------

  /** Every row a transition creates is matched by a committed edge that creates such rows. */
  ghost predicate Balanced(t: Tables, pid: string) {
    CreationCount(t.history, pid) == 1 && JobsBalanced(t, pid) && EventsBalanced(t, pid) && ExportsBalanced(t, pid)
  }

  ghost predicate JobsBalanced(t: Tables, pid: string) {
    JobCount(t.jobs, pid) == EdgeCount(t.history, pid, Edge(Intake, Analyzing))
  }

  ghost predicate EventsBalanced(t: Tables, pid: string) {
    && EventCount(t.outbox, pid, AnalysisStarted) == EdgeCount(t.history, pid, Edge(Intake, Analyzing))
    && EventCount(t.outbox, pid, ProposalReadied) == EdgeCount(t.history, pid, Edge(Analyzing, ProposalReady))
  }

  ghost predicate ExportsBalanced(t: Tables, pid: string) {
    && ExportCount(t.exports, pid, QuotePdf) == EdgeCount(t.history, pid, Edge(QuoteReady, Sent))
    && ExportCount(t.exports, pid, CaseZip) == EdgeCount(t.history, pid, Edge(Sent, Archived))
  }

  ghost predicate DistinctKeys(t: Tables) {
    && (forall i, j :: 0 <= i < j < |t.history| ==> t.history[i].id != t.history[j].id)
    && (forall i, j :: 0 <= i < j < |t.jobs| ==> t.jobs[i].id != t.jobs[j].id)
    && (forall i, j :: 0 <= i < j < |t.outbox| ==> t.outbox[i].id != t.outbox[j].id)
    && (forall i, j :: 0 <= i < j < |t.exports| ==> t.exports[i].id != t.exports[j].id)
  }

  /** The durable row a message speaks of. */
  ghost predicate HasRow(t: Tables, w: Wire) {
    match w
    case AnalysisMessage(id, pid, _, _) => exists r :: r in t.jobs && r.id == id && r.projectId == pid
    case ExportMessage(id, pid, _) => exists r :: r in t.exports && r.id == id && r.projectId == pid
    case LiveEvent(id, kind, pid, _) =>
      exists r :: r in t.outbox && r.id == id && r.projectId == pid && r.eventType == kind
  }

  ghost predicate SameTarget(a: Wire, b: Wire) {
    match (a, b)
    case (AnalysisMessage(i, _, _, _), AnalysisMessage(j, _, _, _)) => i == j
    case (ExportMessage(i, _, _), ExportMessage(j, _, _)) => i == j
    case (LiveEvent(i, _, _, _), LiveEvent(j, _, _, _)) => i == j
    case _ => false
  }

  ghost predicate NoneTwice(sent: seq<Wire>) {
    forall i, j :: 0 <= i < j < |sent| ==> !SameTarget(sent[i], sent[j])
  }

  /** Every message is about a committed row, and no row is announced twice. */
  ghost predicate Transported(t: Tables, sent: seq<Wire>) {
    (forall w :: w in sent ==> HasRow(t, w)) && NoneTwice(sent)
  }

  ghost predicate RowsHaveProjects(t: Tables) {
    && (forall r :: r in t.history ==>
          r.projectId in t.projects && (r.origin.Some? ==> CanTransition(r.origin.value, r.toStatus)))
    && (forall r :: r in t.jobs ==> r.projectId in t.projects)
    && (forall r :: r in t.outbox ==> r.projectId in t.projects)
    && (forall r :: r in t.exports ==> r.projectId in t.projects)
  }

  ghost predicate TablesKept(t: Tables) {
    && (forall pid :: pid in t.projects ==> Balanced(t, pid))
    && DistinctKeys(t)
    && RowsHaveProjects(t)
  }

  ghost predicate Books(w: World) { TablesKept(w.t) && Transported(w.t, w.sent) }

  lemma HistorySnoc(h: seq<HistoryRow>, row: HistoryRow, pid: string)
    ensures EdgesOf(h + [row], pid) ==
      EdgesOf(h, pid)
      + (if row.projectId == pid && row.origin.Some? then [Edge(row.origin.value, row.toStatus)] else [])
    ensures CreationCount(h + [row], pid) ==
      CreationCount(h, pid) + (if row.projectId == pid && row.origin.None? then 1 else 0)
  {
    assert (h + [row])[..|h|] == h;
  }

  lemma EdgeCountSnoc(h: seq<HistoryRow>, row: HistoryRow, pid: string, e: Edge)
    ensures EdgeCount(h + [row], pid, e) ==
      EdgeCount(h, pid, e)
      + (if row.projectId == pid && row.origin.Some? && Edge(row.origin.value, row.toStatus) == e then 1 else 0)
  {
    HistorySnoc(h, row, pid);
    var a := EdgesOf(h, pid);
    if row.projectId == pid && row.origin.Some? {
      var last := Edge(row.origin.value, row.toStatus);
      assert (a + [last])[..|a|] == a;
    } else {
      assert a + [] == a;
    }
  }

  lemma JobCountSnoc(e: Edge, f: Facts, jobs: seq<JobRow>, pid: string)
    ensures JobCount(jobs + JobsOf(e, f), pid) ==
      JobCount(jobs, pid) + (if e == Edge(Intake, Analyzing) && f.projectId == pid then 1 else 0)
  {
    assert jobs + [] == jobs;
    if JobsOf(e, f) != [] { assert (jobs + JobsOf(e, f))[..|jobs|] == jobs; }
  }

  lemma EventCountSnoc(e: Edge, f: Facts, outbox: seq<OutboxRow>, pid: string)
    ensures EventCount(outbox + EventsOf(e, f), pid, AnalysisStarted) ==
      EventCount(outbox, pid, AnalysisStarted) + (if e == Edge(Intake, Analyzing) && f.projectId == pid then 1 else 0)
    ensures EventCount(outbox + EventsOf(e, f), pid, ProposalReadied) ==
      EventCount(outbox, pid, ProposalReadied)
      + (if e == Edge(Analyzing, ProposalReady) && f.projectId == pid then 1 else 0)
  {
    assert outbox + [] == outbox;
    if EventsOf(e, f) != [] { assert (outbox + EventsOf(e, f))[..|outbox|] == outbox; }
  }

  lemma ExportCountSnoc(e: Edge, f: Facts, exports: seq<ExportRow>, pid: string)
    ensures ExportCount(exports + ExportsOf(e, f), pid, QuotePdf) ==
      ExportCount(exports, pid, QuotePdf) + (if e == Edge(QuoteReady, Sent) && f.projectId == pid then 1 else 0)
    ensures ExportCount(exports + ExportsOf(e, f), pid, CaseZip) ==
      ExportCount(exports, pid, CaseZip) + (if e == Edge(Sent, Archived) && f.projectId == pid then 1 else 0)
  {
    assert exports + [] == exports;
    if ExportsOf(e, f) != [] { assert (exports + ExportsOf(e, f))[..|exports|] == exports; }
  }

  lemma EdgeCountAfter(t: Tables, e: Edge, f: Facts, reason: Option<string>, pid: string, x: Edge)
    requires f.projectId in t.projects
    ensures EdgeCount(Landed(t, e, f, reason).history, pid, x) ==
      EdgeCount(t.history, pid, x) + (if x == e && f.projectId == pid then 1 else 0)
  {
    EdgeCountSnoc(t.history, HistoryOf(e, f, reason), pid, x);
  }

  lemma JobsAfter(t: Tables, e: Edge, f: Facts, reason: Option<string>, pid: string)
    requires f.projectId in t.projects && JobsBalanced(t, pid)
    ensures JobsBalanced(Landed(t, e, f, reason), pid)
  {
    JobCountSnoc(e, f, t.jobs, pid);
    EdgeCountAfter(t, e, f, reason, pid, Edge(Intake, Analyzing));
  }

  lemma EventsAfter(t: Tables, e: Edge, f: Facts, reason: Option<string>, pid: string)
    requires f.projectId in t.projects && EventsBalanced(t, pid)
    ensures EventsBalanced(Landed(t, e, f, reason), pid)
  {
    EventCountSnoc(e, f, t.outbox, pid);
    EdgeCountAfter(t, e, f, reason, pid, Edge(Intake, Analyzing));
    EdgeCountAfter(t, e, f, reason, pid, Edge(Analyzing, ProposalReady));
  }

  lemma ExportsAfter(t: Tables, e: Edge, f: Facts, reason: Option<string>, pid: string)
    requires f.projectId in t.projects && ExportsBalanced(t, pid)
    ensures ExportsBalanced(Landed(t, e, f, reason), pid)
  {
    ExportCountSnoc(e, f, t.exports, pid);
    EdgeCountAfter(t, e, f, reason, pid, Edge(QuoteReady, Sent));
    EdgeCountAfter(t, e, f, reason, pid, Edge(Sent, Archived));
  }

  lemma BalancedAfter(t: Tables, e: Edge, f: Facts, reason: Option<string>, pid: string)
    requires f.projectId in t.projects && Balanced(t, pid)
    ensures Balanced(Landed(t, e, f, reason), pid)
  {
    JobsAfter(t, e, f, reason, pid);
    EventsAfter(t, e, f, reason, pid);
    ExportsAfter(t, e, f, reason, pid);
    HistorySnoc(t.history, HistoryOf(e, f, reason), pid);
  }

  /** A project that has just been created owns no row and no edge. */
  lemma {:induction false} NothingYet(t: Tables, pid: string)
    requires RowsHaveProjects(t) && pid !in t.projects
    ensures EdgesOf(t.history, pid) == [] && CreationCount(t.history, pid) == 0 && JobCount(t.jobs, pid) == 0
    ensures forall k :: EventCount(t.outbox, pid, k) == 0
    ensures forall k :: ExportCount(t.exports, pid, k) == 0
    decreases |t.history| + |t.jobs| + |t.outbox| + |t.exports|
  {
    if t.history != [] {
      assert t.history[|t.history| - 1] in t.history;
      NothingYet(t.(history := t.history[..|t.history| - 1]), pid);
    } else if t.jobs != [] {
      assert t.jobs[|t.jobs| - 1] in t.jobs;
      NothingYet(t.(jobs := t.jobs[..|t.jobs| - 1]), pid);
    } else if t.outbox != [] {
      assert t.outbox[|t.outbox| - 1] in t.outbox;
      NothingYet(t.(outbox := t.outbox[..|t.outbox| - 1]), pid);
    } else if t.exports != [] {
      assert t.exports[|t.exports| - 1] in t.exports;
      NothingYet(t.(exports := t.exports[..|t.exports| - 1]), pid);
    }
  }

  /** The fresh-key test of the commit, read off table by table. */
  lemma FreshKeysMean(t: Tables, e: Edge, f: Facts)
    requires FreshKeys(t, e, f)
    ensures forall r :: r in t.history ==> r.id != HistoryId(f.draw)
    ensures forall r, n :: r in t.jobs && n in JobsOf(e, f) ==> r.id != n.id
    ensures forall r, n :: r in t.outbox && n in EventsOf(e, f) ==> r.id != n.id
    ensures forall r, n :: r in t.exports && n in ExportsOf(e, f) ==> r.id != n.id
  {
    StagedPerEdge(e, f);
    var rows := StagedBy(BeforeEffects(e), f);
    if JobsOf(e, f) != [] { assert rows[0] in rows; }
    if EventsOf(e, f) != [] { assert rows[|rows| - 1] in rows; }
    if ExportsOf(e, f) != [] { assert rows[0] in rows; }
  }

  lemma DistinctKeysAfter(t: Tables, e: Edge, f: Facts, reason: Option<string>)
    requires f.projectId in t.projects && DistinctKeys(t) && FreshKeys(t, e, f)
    ensures DistinctKeys(Landed(t, e, f, reason))
  {
    FreshKeysMean(t, e, f);
  }

  /** A message of a committed edge names a row of that same commit, one that was not there before. */
  lemma NewWiresNewRows(t: Tables, e: Edge, f: Facts, reason: Option<string>, network: nat -> Delivery, w: Wire)
    requires f.projectId in t.projects && FreshKeys(t, e, f)
    requires w in Kept(WiresOf(e, f), network)
    ensures HasRow(Landed(t, e, f, reason), w)
    ensures !HasRow(t, w)
    ensures forall old_ :: HasRow(t, old_) ==> !SameTarget(old_, w)
  {
    FreshKeysMean(t, e, f);
    KeptSubset(WiresOf(e, f), network);
    var t' := Landed(t, e, f, reason);
    match w
    case AnalysisMessage(id, pid, _, _) =>
      assert JobsOf(e, f)[0] in JobsOf(e, f) && JobsOf(e, f)[0] in t'.jobs;
    case ExportMessage(id, pid, _) =>
      assert ExportsOf(e, f)[0] in ExportsOf(e, f) && ExportsOf(e, f)[0] in t'.exports;
    case LiveEvent(id, kind, pid, _) =>
      assert EventsOf(e, f)[0] in EventsOf(e, f) && EventsOf(e, f)[0] in t'.outbox;
  }

  lemma {:induction false} KeptSubset(wires: seq<Wire>, network: nat -> Delivery)
    ensures forall w :: w in Kept(wires, network) ==> w in wires
    ensures NoneTwice(wires) ==> NoneTwice(Kept(wires, network))
  {
    if wires != [] {
      var init := wires[..|wires| - 1];
      KeptSubset(init, network);
      if NoneTwice(wires) && !network(|init|).Refused? {
        var k := Kept(init, network);
        forall i | 0 <= i < |k| ensures !SameTarget(k[i], wires[|init|]) {
          assert k[i] in init;
          var m :| 0 <= m < |init| && init[m] == k[i];
          assert wires[m] == k[i];
        }
      }
    }
  }

  lemma TransportedAfter(t: Tables, sent: seq<Wire>, e: Edge, f: Facts, reason: Option<string>,
                         network: nat -> Delivery)
    requires f.projectId in t.projects && FreshKeys(t, e, f) && Transported(t, sent)
    ensures Transported(Landed(t, e, f, reason), sent + Kept(WiresOf(e, f), network))
    ensures Transported(Landed(t, e, f, reason), sent)
  {
    var t' := Landed(t, e, f, reason);
    var newcomer := Kept(WiresOf(e, f), network);
    forall w | w in sent ensures HasRow(t', w) {
      RowsStay(t, e, f, reason, w);
    }
    forall w | w in newcomer ensures HasRow(t', w) {
      NewWiresNewRows(t, e, f, reason, network, w);
    }
    KeptSubset(WiresOf(e, f), network);
    var all := sent + newcomer;
    forall i, j | 0 <= i < j < |all| ensures !SameTarget(all[i], all[j]) {
      if i < |sent| <= j {
        assert all[i] in sent && all[j] in newcomer;
        NewWiresNewRows(t, e, f, reason, network, all[j]);
      }
    }
  }

  lemma RowsStay(t: Tables, e: Edge, f: Facts, reason: Option<string>, w: Wire)
    requires f.projectId in t.projects && HasRow(t, w)
    ensures HasRow(Landed(t, e, f, reason), w)
  {
    var t' := Landed(t, e, f, reason);
    match w
    case AnalysisMessage(id, pid, _, _) =>
      var r :| r in t.jobs && r.id == id && r.projectId == pid;
      assert r in t'.jobs;
    case ExportMessage(id, pid, _) =>
      var r :| r in t.exports && r.id == id && r.projectId == pid;
      assert r in t'.exports;
    case LiveEvent(id, kind, pid, _) =>
      var r :| r in t.outbox && r.id == id && r.projectId == pid && r.eventType == kind;
      assert r in t'.outbox;
  }

  /** What a committing step does to tables and messages, stated for its edge. */
  lemma CommitLands(w: World, s: Step)
    requires Commits(w, s)
    ensures var e, f := StepEdge(w, s), StepFacts(w, s);
      && f.projectId == s.req.projectId && f.projectId in w.t.projects
      && CanTransition(e.fromStatus, e.toStatus) && FreshKeys(w.t, e, f)
      && Next(w, s).t == Landed(w.t, e, f, s.req.reason)
      && Next(w, s).sent == (if w.queueUp then w.sent + Kept(WiresOf(e, f), s.luck.network) else w.sent)
  {
    assert w.sent + [] == w.sent;
  }

  lemma BooksCommit(w: World, s: Step)
    requires Books(w) && Commits(w, s)
    ensures Books(Next(w, s))
  {
    CommitLands(w, s);
    BooksLanded(w.t, w.sent, StepEdge(w, s), StepFacts(w, s), s.req.reason, s.luck.network);
  }

  lemma BooksLanded(t: Tables, sent: seq<Wire>, e: Edge, f: Facts, reason: Option<string>, network: nat -> Delivery)
    requires f.projectId in t.projects && FreshKeys(t, e, f) && CanTransition(e.fromStatus, e.toStatus)
    requires TablesKept(t) && Transported(t, sent)
    ensures TablesKept(Landed(t, e, f, reason))
    ensures Transported(Landed(t, e, f, reason), sent + Kept(WiresOf(e, f), network))
    ensures Transported(Landed(t, e, f, reason), sent)
  {
    var t' := Landed(t, e, f, reason);
    forall pid | pid in t'.projects ensures Balanced(t', pid) {
      assert pid in t.projects;
      BalancedAfter(t, e, f, reason, pid);
    }
    DistinctKeysAfter(t, e, f, reason);
    OwnersAfter(t, e, f, reason);
    TransportedAfter(t, sent, e, f, reason, network);
  }

  lemma OwnersAfter(t: Tables, e: Edge, f: Facts, reason: Option<string>)
    requires f.projectId in t.projects && RowsHaveProjects(t) && CanTransition(e.fromStatus, e.toStatus)
    ensures RowsHaveProjects(Landed(t, e, f, reason))
  {
  }

  /** The step makes a new project. */
  predicate Creates(w: World, s: Step) {
    s.Create? && s.projectId !in w.t.projects && KeyFree(w.t, StagedHistory(CreationRow(s.projectId, s.historyHex)))
  }

  /** A step that neither commits an action nor creates a project leaves every row table but the proposals alone. */
  lemma QuietStep(w: World, s: Step)
    requires !Commits(w, s) && !Creates(w, s)
    ensures var t' := Next(w, s).t;
      && t'.history == w.t.history && t'.jobs == w.t.jobs && t'.outbox == w.t.outbox && t'.exports == w.t.exports
      && t'.projects == w.t.projects && Next(w, s).sent == w.sent
  {
  }

  lemma BalancedCreated(t: Tables, newcomer: string, org: string, hex: string, pid: string)
    requires RowsHaveProjects(t) && newcomer !in t.projects && (pid != newcomer ==> Balanced(t, pid))
    ensures Balanced(Created(t, newcomer, org, hex), pid)
  {
    HistorySnoc(t.history, CreationRow(newcomer, hex), pid);
    CreationAddsNoEdge(t.history, CreationRow(newcomer, hex), pid);
    if pid == newcomer { NothingYet(t, pid); }
  }

  lemma BooksCreate(w: World, s: Step)
    requires Books(w) && Creates(w, s)
    ensures Books(Next(w, s))
  {
    var t' := Next(w, s).t;
    assert t' == Created(w.t, s.projectId, s.organizationId, s.historyHex);
    forall pid | pid in t'.projects ensures Balanced(t', pid) {
      assert pid != s.projectId ==> Balanced(w.t, pid);
      BalancedCreated(w.t, s.projectId, s.organizationId, s.historyHex, pid);
    }
    RestCreated(w.t, w.sent, s.projectId, s.organizationId, s.historyHex);
  }

  lemma RestCreated(t: Tables, sent: seq<Wire>, newcomer: string, org: string, hex: string)
    requires DistinctKeys(t) && RowsHaveProjects(t) && Transported(t, sent)
    requires newcomer !in t.projects && KeyFree(t, StagedHistory(CreationRow(newcomer, hex)))
    ensures var t' := Created(t, newcomer, org, hex);
      DistinctKeys(t') && RowsHaveProjects(t') && Transported(t', sent)
  {
    var t' := Created(t, newcomer, org, hex);
    forall m | m in sent ensures HasRow(t', m) { assert HasRow(t, m); }
  }

  lemma CreationAddsNoEdge(h: seq<HistoryRow>, row: HistoryRow, pid: string)
    requires row.origin.None?
    ensures EdgesOf(h + [row], pid) == EdgesOf(h, pid)
  {
    HistorySnoc(h, row, pid);
    assert EdgesOf(h, pid) + [] == EdgesOf(h, pid);
  }

  lemma BooksStep(w: World, s: Step)
    requires Books(w)
    ensures Books(Next(w, s))
  {
    if Commits(w, s) {
      BooksCommit(w, s);
    } else if Creates(w, s) {
      BooksCreate(w, s);
    } else {
      QuietStep(w, s);
      forall pid | pid in Next(w, s).t.projects ensures Balanced(Next(w, s).t, pid) { assert Balanced(w.t, pid); }
      forall m | m in Next(w, s).sent ensures HasRow(Next(w, s).t, m) { assert HasRow(w.t, m); }
    }
  }

  /** In every run with arbitrary failures and interleavings: row counts equal edge counts, keys stay
      distinct, and every message sent names a committed row, each row at most once. */
  lemma {:induction false} BooksKept(w: World, steps: seq<Step>)
    requires Books(w)
    ensures Books(Run(w, steps))
    decreases |steps|
  {
    if steps != [] {
      BooksStep(w, steps[0]);
      BooksKept(Next(w, steps[0]), steps[1..]);
    }
  }

  // ---------------------------------------------------------------------------
  // Runs without stale commits
  // ---------------------------------------------------------------------------

  /** The history of a project leads from draft to its current status. */
  ghost predicate Walked(t: Tables, pid: string)
    requires pid in t.projects
  {
    IsWalk(EdgesOf(t.history, pid), Draft, t.projects[pid].status)
  }

  ghost predicate AllWalked(w: World) {
    forall pid :: pid in w.t.projects ==> Walked(w.t, pid)
  }

  /** One commit keeps its project's history a walk exactly when it was not stale. */
  lemma WalkKeptIffUpToDate(w: World, s: Step)
    requires AllWalked(w) && Commits(w, s)
    ensures AllWalked(Next(w, s)) <==> UpToDate(w, s)
  {
    CommitLands(w, s);
    var t', p := Next(w, s).t, s.req.projectId;
    forall pid | pid in t'.projects && pid != p ensures Walked(t', pid) {
      assert Walked(w.t, pid);
      OthersWalk(w.t, StepEdge(w, s), StepFacts(w, s), s.req.reason, pid);
    }
    assert Walked(w.t, p);
    OwnWalk(w.t, StepEdge(w, s), StepFacts(w, s), s.req.reason);
  }

  lemma OthersWalk(t: Tables, e: Edge, f: Facts, reason: Option<string>, pid: string)
    requires f.projectId in t.projects && pid in t.projects && pid != f.projectId && Walked(t, pid)
    ensures Walked(Landed(t, e, f, reason), pid)
  {
    HistorySnoc(t.history, HistoryOf(e, f, reason), pid);
    assert EdgesOf(t.history, pid) + [] == EdgesOf(t.history, pid);
  }

  lemma OwnWalk(t: Tables, e: Edge, f: Facts, reason: Option<string>)
    requires f.projectId in t.projects && Walked(t, f.projectId) && CanTransition(e.fromStatus, e.toStatus)
    ensures Walked(Landed(t, e, f, reason), f.projectId) <==> e.fromStatus == t.projects[f.projectId].status
  {
    var p, a := f.projectId, EdgesOf(t.history, f.projectId);
    HistorySnoc(t.history, HistoryOf(e, f, reason), p);
    assert (a + [e])[..|a|] == a;
    if IsWalk(a, Draft, e.fromStatus) { OneEnd(a, Draft, e.fromStatus, t.projects[p].status); }
  }

  lemma OneEnd(edges: seq<Edge>, start: Status, end: Status, other: Status)
    requires IsWalk(edges, start, end) && IsWalk(edges, start, other)
    ensures end == other
  {
  }

  lemma WalkStep(w: World, s: Step)
    requires AllWalked(w) && RowsHaveProjects(w.t) && (Commits(w, s) ==> UpToDate(w, s))
    ensures AllWalked(Next(w, s))
  {
    var w' := Next(w, s);
    if Commits(w, s) {
      WalkKeptIffUpToDate(w, s);
    } else if Creates(w, s) {
      forall pid | pid in w'.t.projects ensures Walked(w'.t, pid) {
        CreationAddsNoEdge(w.t.history, CreationRow(s.projectId, s.historyHex), pid);
        if pid == s.projectId { NothingYet(w.t, pid); } else { assert Walked(w.t, pid); }
      }
    } else {
      QuietStep(w, s);
      forall pid | pid in w'.t.projects ensures Walked(w'.t, pid) { assert Walked(w.t, pid); }
    }
  }

  /** In every state of the run each project's history is a walk of allowed edges from draft to its status. */
  ghost predicate AlwaysWalked(w: World, steps: seq<Step>)
    decreases |steps|
  {
    AllWalked(w) && (steps == [] || AlwaysWalked(Next(w, steps[0]), steps[1..]))
  }

  /** Over whole runs: the histories are walks in every state if and only if no commit is stale. */
  lemma {:induction false} WalksIffSerial(w: World, steps: seq<Step>)
    requires Books(w) && AllWalked(w)
    ensures AlwaysWalked(w, steps) <==> Serial(w, steps)
    decreases |steps|
  {
    if steps != [] {
      BooksStep(w, steps[0]);
      if Commits(w, steps[0]) ==> UpToDate(w, steps[0]) {
        WalkStep(w, steps[0]);
        WalksIffSerial(Next(w, steps[0]), steps[1..]);
      } else {
        WalkKeptIffUpToDate(w, steps[0]);
      }
    }
  }

  /** In every run without stale commits each project's history is a walk of allowed edges that starts
      in draft and ends at its status. */
  lemma {:induction false} HistoryIsWalk(w: World, steps: seq<Step>)
    requires Books(w) && AllWalked(w) && Serial(w, steps)
    ensures AllWalked(Run(w, steps))
    decreases |steps|
  {
    if steps != [] {
      BooksStep(w, steps[0]);
      WalkStep(w, steps[0]);
      HistoryIsWalk(Next(w, steps[0]), steps[1..]);
    }
  }

  /** Where histories are walks, a project has one case-zip export if it is archived by completion, else none. */
  lemma OneCaseZip(w: World, pid: string)
    requires Books(w) && AllWalked(w) && pid in w.t.projects
    ensures ExportCount(w.t.exports, pid, CaseZip) <= 1
    ensures ExportCount(w.t.exports, pid, CaseZip) == 1 <==> w.t.projects[pid].status == Archived
  {
    assert Walked(w.t, pid) && Balanced(w.t, pid);
    var edges := EdgesOf(w.t.history, pid);
    TerminalAbsorbs(edges, Draft, w.t.projects[pid].status, Archived);
    OnlySentArchives(edges, Draft, w.t.projects[pid].status);
  }

  lemma {:induction false} OnlySentArchives(edges: seq<Edge>, start: Status, end: Status)
    requires IsWalk(edges, start, end)
    ensures CountWhere(edges, Is(Edge(Sent, Archived))) == CountWhere(edges, Into(Archived))
  {
    if edges != [] {
      OnlySentArchives(edges[..|edges| - 1], start, edges[|edges| - 1].fromStatus);
    }
  }
}
