/** Isolation of tenants: what a caller of one organisation can see, change and be told of another's projects. */
module CaseTenants {
  import opened Basics
  import opened Transitions
  import opened CaseTables
  import opened CaseEffects
  import opened CaseActions
  import opened CaseRuns

  /** A load in the name of an organisation opens the session if and only if the project is that organisation's; a load
      in nobody's name, whenever the project exists. */
  lemma LoadOpensIff(w: World, sid: nat, pid: string, org: Option<string>)
    requires sid !in w.open
    ensures var w' := Next(w, Load(sid, pid, org));
      && (sid in w'.open <==>
            pid in w.t.projects && (org.Some? ==> w.t.projects[pid].organizationId == org.value))
      && (sid in w'.open ==>
            && w'.open[sid].projectId == pid && w'.open[sid].requestOrg == org
            && w'.open[sid].status == w.t.projects[pid].status
            && w'.open[sid].projectOrg == w.t.projects[pid].organizationId)
      && w' == w.(open := w'.open) && forall o :: o in w.open ==> o in w'.open && w'.open[o] == w.open[o]
  {
  }

  /** A whole action is not found if and only if there is no such project or it is another organisation's; and a quote
      is refused for want of a proposal if and only if no proposal row names the project. */
  lemma OutcomeIff(t: Tables, allowed: set<ProposalStatus>, req: Request, draw: Draw, luck: Luck)
    ensures var outcome := OutcomeOf(t, allowed, req, draw, luck);
      var found := req.projectId in t.projects
                   && (req.organizationId.Some? ==>
                         t.projects[req.projectId].organizationId == req.organizationId.value);
      && (outcome == NotFound <==> !found)
      && (outcome == NoFinalProposal <==>
            found && req.action == SendQuote && forall r :: r in t.proposals ==> r.projectId != req.projectId)
  {
  }

  // ---------------------------------------------------------------------------
  // Isolation over runs
  // ---------------------------------------------------------------------------

  function ProjectOf(wire: Wire): string {
    match wire
    case AnalysisMessage(_, pid, _, _) => pid
    case ExportMessage(_, pid, _) => pid
    case LiveEvent(_, _, pid, _) => pid
  }

  /** Nothing was taken away, and nothing that was added is about this project. */
  ghost predicate GrewElsewhere<T(!new)>(before: seq<T>, after: seq<T>, projectOf: T -> string, pid: string) {
    before <= after && forall i :: |before| <= i < |after| ==> projectOf(after[i]) != pid
  }

  ghost predicate Untouched(w: World, w': World, pid: string)
  {
    && (pid in w.t.projects <==> pid in w'.t.projects)
    && (pid in w.t.projects ==> w'.t.projects[pid] == w.t.projects[pid])
    && (pid in w.content <==> pid in w'.content) && (pid in w.content ==> w'.content[pid] == w.content[pid])
    && RowsUntouched(w, w', pid)
  }

  ghost predicate RowsUntouched(w: World, w': World, pid: string) {
    && GrewElsewhere(w.t.history, w'.t.history, (r: HistoryRow) => r.projectId, pid)
    && GrewElsewhere(w.t.jobs, w'.t.jobs, (r: JobRow) => r.projectId, pid)
    && GrewElsewhere(w.t.outbox, w'.t.outbox, (r: OutboxRow) => r.projectId, pid)
    && GrewElsewhere(w.t.exports, w'.t.exports, (r: ExportRow) => r.projectId, pid)
    && GrewElsewhere(w.sent, w'.sent, ProjectOf, pid)
  }

  /** No open session holds the project. */
  ghost predicate NobodyHolds(w: World, pid: string) {
    forall sid :: sid in w.open ==> w.open[sid].projectId != pid
  }

  /** The step does not load the project in its own organisation's name, or in nobody's. */
  predicate Foreign(s: Step, pid: string, org: string) {
    s.Load? && s.projectId == pid ==> s.requestOrg.Some? && s.requestOrg.value != org
  }

  ghost predicate AllForeign(steps: seq<Step>, pid: string, org: string) {
    forall k :: 0 <= k < |steps| ==> Foreign(steps[k], pid, org)
  }

  lemma ForeignCommit(w: World, s: Step, pid: string)
    requires Commits(w, s) && NobodyHolds(w, pid)
    ensures NobodyHolds(Next(w, s), pid) && Untouched(w, Next(w, s), pid)
  {
    var e, f := StepEdge(w, s), StepFacts(w, s);
    CommitLands(w, s);
    assert f.projectId != pid;
    forall x | x in Kept(WiresOf(e, f), s.luck.network) ensures ProjectOf(x) != pid {
      KeptSubset(WiresOf(e, f), s.luck.network);
    }
  }

  lemma ForeignStep(w: World, s: Step, pid: string, org: string)
    requires pid in w.t.projects && w.t.projects[pid].organizationId == org
    requires NobodyHolds(w, pid) && Foreign(s, pid, org)
    ensures NobodyHolds(Next(w, s), pid) && Untouched(w, Next(w, s), pid)
  {
    if Commits(w, s) {
      ForeignCommit(w, s, pid);
    } else if Creates(w, s) {
      assert s.projectId != pid;
    } else {
      QuietStep(w, s);
    }
  }

  lemma GrewOn<T(!new)>(a: seq<T>, b: seq<T>, c: seq<T>, projectOf: T -> string, pid: string)
    requires GrewElsewhere(a, b, projectOf, pid) && GrewElsewhere(b, c, projectOf, pid)
    ensures GrewElsewhere(a, c, projectOf, pid)
  {
  }

  lemma UntouchedOn(u: World, v: World, w: World, pid: string)
    requires Untouched(u, v, pid) && Untouched(v, w, pid)
    ensures Untouched(u, w, pid)
  {
    GrewOn(u.t.history, v.t.history, w.t.history, (r: HistoryRow) => r.projectId, pid);
    GrewOn(u.t.jobs, v.t.jobs, w.t.jobs, (r: JobRow) => r.projectId, pid);
    GrewOn(u.t.outbox, v.t.outbox, w.t.outbox, (r: OutboxRow) => r.projectId, pid);
    GrewOn(u.t.exports, v.t.exports, w.t.exports, (r: ExportRow) => r.projectId, pid);
    GrewOn(u.sent, v.sent, w.sent, ProjectOf, pid);
  }

  /** In every run in which nobody loads a project in its own organisation's name or in nobody's, whatever the callers
      of other organisations try: its row, its content, its history, jobs, events and exports and the messages about it
      are exactly what they were. */
  lemma {:induction false} TenantIsolation(w: World, steps: seq<Step>, pid: string, org: string)
    requires pid in w.t.projects && w.t.projects[pid].organizationId == org
    requires NobodyHolds(w, pid) && AllForeign(steps, pid, org)
    ensures NobodyHolds(Run(w, steps), pid) && Untouched(w, Run(w, steps), pid)
    decreases |steps|
  {
    if steps != [] {
      ForeignStep(w, steps[0], pid, org);
      TenantIsolation(Next(w, steps[0]), steps[1..], pid, org);
      UntouchedOn(w, Next(w, steps[0]), Run(w, steps), pid);
    }
  }

  // ---------------------------------------------------------------------------
  // The organisation on rows and messages
  // ---------------------------------------------------------------------------

  function OrgOf(wire: Wire): Option<string> {
    match wire
    case AnalysisMessage(_, _, org, _) => org
    case ExportMessage(_, _, org) => org
    case LiveEvent(_, _, _, _) => None
  }

  /** The wire names its project's organisation, or none. */
  predicate WireFits(t: Tables, wire: Wire) {
    ProjectOf(wire) in t.projects
    && (OrgOf(wire).Some? ==> t.projects[ProjectOf(wire)].organizationId == OrgOf(wire).value)
  }

  predicate RowFits(t: Tables, r: OutboxRow) {
    r.projectId in t.projects && t.projects[r.projectId].organizationId == r.organizationId
  }

  predicate SessionFits(t: Tables, l: Loaded) {
    && l.projectId in t.projects && t.projects[l.projectId].organizationId == l.projectOrg
    && (l.requestOrg.Some? ==> l.requestOrg.value == l.projectOrg)
  }

  ghost predicate OrgsFit(w: World) {
    && (forall r :: r in w.t.outbox ==> RowFits(w.t, r))
    && (forall x :: x in w.sent ==> WireFits(w.t, x))
    && (forall sid :: sid in w.open ==> SessionFits(w.t, w.open[sid]))
  }

  /** Projects stay, each with its organisation. */
  lemma OrgsStay(w: World, s: Step)
    ensures forall pid :: pid in w.t.projects ==>
      pid in Next(w, s).t.projects && Next(w, s).t.projects[pid].organizationId == w.t.projects[pid].organizationId
  {
  }

  lemma OrgsFitCommit(w: World, s: Step)
    requires OrgsFit(w) && Commits(w, s)
    ensures OrgsFit(Next(w, s))
  {
    var w', e, f := Next(w, s), StepEdge(w, s), StepFacts(w, s);
    OrgsStay(w, s);
    CommitLands(w, s);
    KeptSubset(WiresOf(e, f), s.luck.network);
    assert SessionFits(w.t, w.open[s.session]);
    forall x | x in WiresOf(e, f) ensures WireFits(w'.t, x) {}
    forall r | r in w'.t.outbox ensures RowFits(w'.t, r) {
      if r in w.t.outbox { assert RowFits(w.t, r); } else { assert r in EventsOf(e, f); }
    }
    forall x | x in w'.sent ensures WireFits(w'.t, x) {
      if x in w.sent { assert WireFits(w.t, x); }
    }
    forall sid | sid in w'.open ensures SessionFits(w'.t, w'.open[sid]) { assert SessionFits(w.t, w.open[sid]); }
  }

  lemma OrgsFitQuiet(w: World, s: Step)
    requires OrgsFit(w) && !Commits(w, s)
    ensures forall r :: r in Next(w, s).t.outbox ==> RowFits(Next(w, s).t, r)
    ensures forall x :: x in Next(w, s).sent ==> WireFits(Next(w, s).t, x)
  {
    var w' := Next(w, s);
    OrgsStay(w, s);
    assert w'.t.outbox == w.t.outbox && w'.sent == w.sent;
    forall r | r in w'.t.outbox ensures RowFits(w'.t, r) { assert RowFits(w.t, r); }
    forall x | x in w'.sent ensures WireFits(w'.t, x) { assert WireFits(w.t, x); }
  }

  lemma OrgsFitStep(w: World, s: Step)
    requires OrgsFit(w)
    ensures OrgsFit(Next(w, s))
  {
    if Commits(w, s) {
      OrgsFitCommit(w, s);
    } else {
      var w' := Next(w, s);
      OrgsStay(w, s);
      OrgsFitQuiet(w, s);
      forall sid | sid in w'.open ensures SessionFits(w'.t, w'.open[sid]) {
        if sid in w.open && w'.open[sid] == w.open[sid] { assert SessionFits(w.t, w.open[sid]); }
      }
    }
  }

  /** In every run each event row carries its project's organisation, and each message that organisation or none: so a
      worker that loads the project in the message's name finds it. */
  lemma {:induction false} MessagesCarryOwnOrg(w: World, steps: seq<Step>)
    requires OrgsFit(w)
    ensures OrgsFit(Run(w, steps))
    decreases |steps|
  {
    if steps != [] {
      OrgsFitStep(w, steps[0]);
      MessagesCarryOwnOrg(Next(w, steps[0]), steps[1..]);
    }
  }

  lemma WorkerFindsTheProject(w: World, wire: Wire, sid: nat)
    requires OrgsFit(w) && wire in w.sent && sid !in w.open
    ensures sid in Next(w, Load(sid, ProjectOf(wire), OrgOf(wire))).open
  {
    assert WireFits(w.t, wire);
    LoadOpensIff(w, sid, ProjectOf(wire), OrgOf(wire));
  }
}
