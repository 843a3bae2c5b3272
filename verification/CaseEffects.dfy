/** The effect registry and the concrete effects that run around a committed transition. */
module CaseEffects {
  import opened Basics
  import opened Text
  import opened Transitions
  import opened CaseTables

  datatype BeforeEffect =
    | CreateAnalysisJob | WriteAnalysisStartedOutbox | WriteProposalReadyOutbox
    | LockProposalPricing | CreateQuoteExport | CreateCompletionExport

  datatype AfterEffect =
    | PublishAnalysisStarted | EnqueueAnalysisJob | PublishProposalReady
    | EnqueueQuoteExport | EnqueueCompletionExport

  datatype Edge = Edge(fromStatus: Status, toStatus: Status)

  // ---------------------------------------------------------------------------
  // Registry
  // ---------------------------------------------------------------------------

  /** The effects of one edge, as the map in the head of action_effects.py lists them. */
  function BeforeEffects(e: Edge): seq<BeforeEffect> {
    match e
    case Edge(Intake, Analyzing) => [CreateAnalysisJob, WriteAnalysisStartedOutbox]
    case Edge(Analyzing, ProposalReady) => [WriteProposalReadyOutbox]
    case Edge(ProposalReady, QuoteReady) => [LockProposalPricing]
    case Edge(QuoteReady, Sent) => [CreateQuoteExport]
    case Edge(Sent, Archived) => [CreateCompletionExport]
    case _ => []
  }

  function AfterEffects(e: Edge): seq<AfterEffect> {
    match e
    case Edge(Intake, Analyzing) => [PublishAnalysisStarted, EnqueueAnalysisJob]
    case Edge(Analyzing, ProposalReady) => [PublishProposalReady]
    case Edge(QuoteReady, Sent) => [EnqueueQuoteExport]
    case Edge(Sent, Archived) => [EnqueueCompletionExport]
    case _ => []
  }

  /** The key of an effect: both names stripped. */
  function NormalizedKey(fromName: string,
                         toName: string): Edge { Edge(StatusOf(Strip(fromName)), StatusOf(Strip(toName))) }

  predicate Registrable(fromName: string, toName: string) {
    var e := NormalizedKey(fromName, toName);
    CanTransition(e.fromStatus, e.toStatus)
  }

  /** A name registers the edge it names, with or without space around it. */
  lemma KeyOfNames(e: Edge, fromName: string, toName: string)
    requires CanTransition(e.fromStatus, e.toStatus)
    requires Strip(fromName) == StatusText(e.fromStatus) && Strip(toName) == StatusText(e.toStatus)
    ensures NormalizedKey(fromName, toName) == e && Registrable(fromName, toName)
  {
    LockedBoundary(e.fromStatus, e.toStatus);
    StatusTextRoundTrip(e.fromStatus);
    StatusTextRoundTrip(e.toStatus);
  }

  class EffectRegistry {
    var before: map<Edge, seq<BeforeEffect>>
    var after: map<Edge, seq<AfterEffect>>

    constructor ()
      ensures before == map[] && after == map[]
    {
      before := map[];
      after := map[];
    }

    function BeforeOf(e: Edge): seq<BeforeEffect>
      reads this
    {
      if e in before then before[e] else []
    }

    function AfterOf(e: Edge): seq<AfterEffect>
      reads this
    {
      if e in after then after[e] else []
    }

    /** Only edges of the status machine can carry an effect. */
    ghost predicate OnlyAllowedEdges()
      reads this
    {
      forall e :: e in before.Keys + after.Keys ==> CanTransition(e.fromStatus, e.toStatus)
    }

    /** The decorator strips the two names, raises for an edge outside the table, and otherwise appends. */
    method RegisterBefore(fromName: string, toName: string, fn: BeforeEffect) returns (ok: bool)
      requires OnlyAllowedEdges()
      modifies this`before
      ensures OnlyAllowedEdges() && ok == Registrable(fromName, toName)
      ensures before ==
        if !ok then old(before)
        else old(before)[NormalizedKey(fromName, toName) := old(BeforeOf(NormalizedKey(fromName, toName))) + [fn]]
    {
      var e := NormalizedKey(fromName, toName);
      ok := CanTransition(e.fromStatus, e.toStatus);
      if ok {
        before := before[e := BeforeOf(e) + [fn]];
      }
    }

    method RegisterAfter(fromName: string, toName: string, fn: AfterEffect) returns (ok: bool)
      requires OnlyAllowedEdges()
      modifies this`after
      ensures OnlyAllowedEdges() && ok == Registrable(fromName, toName)
      ensures after ==
        if !ok then old(after)
        else old(after)[NormalizedKey(fromName, toName) := old(AfterOf(NormalizedKey(fromName, toName))) + [fn]]
    {
      var e := NormalizedKey(fromName, toName);
      ok := CanTransition(e.fromStatus, e.toStatus);
      if ok {
        after := after[e := AfterOf(e) + [fn]];
      }
    }

    /** The registry after action_effects.py has been imported. */
    ghost predicate Loaded()
      reads this
    {
      && OnlyAllowedEdges()
      && (forall e :: BeforeOf(e) == BeforeEffects(e))
      && (forall e :: AfterOf(e) == AfterEffects(e))
    }
  }

  /** Importing the module runs the decorators in source order; none of them raises. */
  method LoadActionEffects() returns (r: EffectRegistry)
    ensures fresh(r) && r.Loaded()
  {
    r := new EffectRegistry();
    LoadBeforeEffects(r);
    LoadAfterEffects(r);
  }

  /** @before_transition(…): the decorators of the module name listed edges, so none of them raises. */
  method RegisterNamedBefore(r: EffectRegistry, e: Edge, fn: BeforeEffect)
    requires r.OnlyAllowedEdges() && CanTransition(e.fromStatus, e.toStatus)
    modifies r`before
    ensures r.OnlyAllowedEdges()
    ensures forall x :: r.BeforeOf(x) == if x == e then old(r.BeforeOf(e)) + [fn] else old(r.BeforeOf(x))
  {
    LockedBoundary(e.fromStatus, e.toStatus);
    StatusTextRoundTrip(e.fromStatus);
    StatusTextRoundTrip(e.toStatus);
    KeyOfNames(e, StatusText(e.fromStatus), StatusText(e.toStatus));
    var ok := r.RegisterBefore(StatusText(e.fromStatus), StatusText(e.toStatus), fn);
  }

  method RegisterNamedAfter(r: EffectRegistry, e: Edge, fn: AfterEffect)
    requires r.OnlyAllowedEdges() && CanTransition(e.fromStatus, e.toStatus)
    modifies r`after
    ensures r.OnlyAllowedEdges()
    ensures forall x :: r.AfterOf(x) == if x == e then old(r.AfterOf(e)) + [fn] else old(r.AfterOf(x))
  {
    LockedBoundary(e.fromStatus, e.toStatus);
    StatusTextRoundTrip(e.fromStatus);
    StatusTextRoundTrip(e.toStatus);
    KeyOfNames(e, StatusText(e.fromStatus), StatusText(e.toStatus));
    var ok := r.RegisterAfter(StatusText(e.fromStatus), StatusText(e.toStatus), fn);
  }

  const EXPORT_EDGES: set<Edge> := {Edge(QuoteReady, Sent), Edge(Sent, Archived)}

  method LoadBeforeEffects(r: EffectRegistry)
    requires r.OnlyAllowedEdges() && r.before == map[]
    modifies r`before
    ensures r.OnlyAllowedEdges()
    ensures forall e :: r.BeforeOf(e) == BeforeEffects(e)
  {
    LoadReviewEffects(r);
    RegisterNamedBefore(r, Edge(QuoteReady, Sent), CreateQuoteExport);
    RegisterNamedBefore(r, Edge(Sent, Archived), CreateCompletionExport);
  }

  method LoadReviewEffects(r: EffectRegistry)
    requires r.OnlyAllowedEdges() && r.before == map[]
    modifies r`before
    ensures r.OnlyAllowedEdges()
    ensures forall e :: r.BeforeOf(e) == if e in EXPORT_EDGES then [] else BeforeEffects(e)
  {
    RegisterNamedBefore(r, Edge(Intake, Analyzing), CreateAnalysisJob);
    RegisterNamedBefore(r, Edge(Intake, Analyzing), WriteAnalysisStartedOutbox);
    RegisterNamedBefore(r, Edge(Analyzing, ProposalReady), WriteProposalReadyOutbox);
    RegisterNamedBefore(r, Edge(ProposalReady, QuoteReady), LockProposalPricing);
  }

  method LoadAfterEffects(r: EffectRegistry)
    requires r.OnlyAllowedEdges() && r.after == map[]
    modifies r`after
    ensures r.OnlyAllowedEdges()
    ensures forall e :: r.AfterOf(e) == AfterEffects(e)
  {
    RegisterNamedAfter(r, Edge(Intake, Analyzing), PublishAnalysisStarted);
    RegisterNamedAfter(r, Edge(Intake, Analyzing), EnqueueAnalysisJob);
    RegisterNamedAfter(r, Edge(Analyzing, ProposalReady), PublishProposalReady);
    RegisterNamedAfter(r, Edge(QuoteReady, Sent), EnqueueQuoteExport);
    RegisterNamedAfter(r, Edge(Sent, Archived), EnqueueCompletionExport);
  }

  // ---------------------------------------------------------------------------
  // Effect context
  // ---------------------------------------------------------------------------

  /** The random identifiers and the clock reading drawn during one action. */
  datatype Draw = Draw(
    historyHex: string, jobHex: string, startedEventId: string, proposalEventId: string,
    quoteHex: string, zipHex: string, fallbackEventId: string, now: int)

  const EXPORT_TTL_SECONDS := 30 * 24 * 3600

  function HistoryId(d: Draw): string { "psh_" + d.historyHex }

  function JobId(d: Draw): string { "job_" + d.jobHex }

  function QuoteExportId(d: Draw): string { "exp_" + d.quoteHex }

  function ZipExportId(d: Draw): string { "exp_" + d.zipHex }

  /** What the effects read of their context besides the session and the queue. */
  datatype Facts = Facts(
    projectId: string, projectOrg: string, actor: Option<string>,
    requestOrg: Option<string>, superadmin: bool, draw: Draw)

  datatype StateKey =
    | AnalysisJobKey | StartedOutboxKey | ProposalOutboxKey | QuoteExportKey | CompletionExportKey

  type State = map<StateKey, string>

  /** A message handed to Redis: two kinds of queue payload and one kind of live event. */
  datatype Wire =
    | AnalysisMessage(jobId: string, projectId: string, organizationId: Option<string>, superadmin: bool)
    | ExportMessage(exportId: string, projectId: string, organizationId: Option<string>)
    | LiveEvent(eventId: string, eventType: EventType, projectId: string, status: Status)

  class WorkQueue {
    var sent: seq<Wire>

    constructor ()
      ensures sent == []
    {
      sent := [];
    }
  }

  /** What Redis does with one call: take it, refuse it, or take it and then lose the reply. */
  datatype Delivery = Accepted | Refused | AcceptedThenLost

  function RowsOf(fn: BeforeEffect, f: Facts): seq<StagedRow> {
    match fn
    case CreateAnalysisJob => [StagedJob(JobRow(JobId(f.draw), f.projectId, f.actor))]
    case WriteAnalysisStartedOutbox =>
      [StagedEvent(OutboxRow(f.draw.startedEventId, AnalysisStarted, f.projectId, f.projectOrg, Analyzing))]
    case WriteProposalReadyOutbox =>
      [StagedEvent(OutboxRow(f.draw.proposalEventId, ProposalReadied, f.projectId, f.projectOrg, ProposalReady))]
    case LockProposalPricing => []
    case CreateQuoteExport =>
      [StagedExport(ExportRow(QuoteExportId(f.draw), f.projectId, QuotePdf,
                              "quote-" + f.projectId + ".pdf", f.draw.now + EXPORT_TTL_SECONDS))]
    case CreateCompletionExport =>
      [StagedExport(ExportRow(ZipExportId(f.draw), f.projectId, CaseZip,
                              "case-" + f.projectId + ".zip", f.draw.now + EXPORT_TTL_SECONDS))]
  }

  function StateAfter(fn: BeforeEffect, f: Facts, state: State): State {
    match fn
    case CreateAnalysisJob => state[AnalysisJobKey := JobId(f.draw)]
    case WriteAnalysisStartedOutbox => state[StartedOutboxKey := f.draw.startedEventId]
    case WriteProposalReadyOutbox => state[ProposalOutboxKey := f.draw.proposalEventId]
    case LockProposalPricing => state
    case CreateQuoteExport => state[QuoteExportKey := QuoteExportId(f.draw)]
    case CreateCompletionExport => state[CompletionExportKey := ZipExportId(f.draw)]
  }

  function StagedBy(fns: seq<BeforeEffect>, f: Facts): seq<StagedRow> {
    if fns == [] then [] else StagedBy(fns[..|fns| - 1], f) + RowsOf(fns[|fns| - 1], f)
  }

  function StateBy(fns: seq<BeforeEffect>, f: Facts): State {
    if fns == [] then map[] else StateAfter(fns[|fns| - 1], f, StateBy(fns[..|fns| - 1], f))
  }

  /** The message one after-commit effect builds, or nothing where it logs "missing id" and returns. */
  function MessageOf(fn: AfterEffect, f: Facts, state: State): Option<Wire> {
    match fn
    case PublishAnalysisStarted =>
      Some(LiveEvent(if StartedOutboxKey in state then state[StartedOutboxKey] else f.draw.fallbackEventId,
                     AnalysisStarted, f.projectId, Analyzing))
    case PublishProposalReady =>
      Some(LiveEvent(if ProposalOutboxKey in state then state[ProposalOutboxKey] else f.draw.fallbackEventId,
                     ProposalReadied, f.projectId, ProposalReady))
    case EnqueueAnalysisJob =>
      if AnalysisJobKey !in state || state[AnalysisJobKey] == "" then None
      else Some(AnalysisMessage(state[AnalysisJobKey], f.projectId, f.requestOrg, f.superadmin))
    case EnqueueQuoteExport =>
      if QuoteExportKey !in state || state[QuoteExportKey] == "" then None
      else Some(ExportMessage(state[QuoteExportKey], f.projectId, f.requestOrg))
    case EnqueueCompletionExport =>
      if CompletionExportKey !in state || state[CompletionExportKey] == "" then None
      else Some(ExportMessage(state[CompletionExportKey], f.projectId, f.requestOrg))
  }

  function Delivered(fn: AfterEffect, f: Facts, state: State, delivery: Delivery): seq<Wire> {
    match MessageOf(fn, f, state)
    case None => []
    case Some(w) => if delivery.Refused? then [] else [w]
  }

  function SentBy(fns: seq<AfterEffect>, f: Facts, state: State, network: nat -> Delivery): seq<Wire> {
    if fns == [] then []
    else
      SentBy(fns[..|fns| - 1], f, state, network)
      + Delivered(fns[|fns| - 1], f, state, network(|fns| - 1))
  }

  class EffectContext {
    const project: Project
    const facts: Facts
    const edge: Edge
    const session: Session
    const workQueue: WorkQueue?
    var state: State

    constructor (project: Project, facts: Facts, edge: Edge, session: Session, workQueue: WorkQueue?)
      ensures this.project == project && this.facts == facts && this.edge == edge
      ensures this.session == session && this.workQueue == workQueue && state == map[]
    {
      this.project := project;
      this.facts := facts;
      this.edge := edge;
      this.session := session;
      this.workQueue := workQueue;
      this.state := map[];
    }

    /** One before-commit effect: stages its row and leaves the row's id for the second phase. */
    method RunBeforeEffect(fn: BeforeEffect) returns (raised: bool)
      modifies this, session`added, session`pricingLock
      ensures raised <==>
        fn.LockProposalPricing? && HasProposals(session.database.tables, facts.projectId)
        && Approved !in session.database.proposalStatuses
      ensures !raised ==>
        && session.added == old(session.added) + RowsOf(fn, facts)
        && session.pricingLock == (old(session.pricingLock) || fn.LockProposalPricing?)
        && state == StateAfter(fn, facts, old(state))
    {
      raised := false;
      var d := facts.draw;
      match fn
      case CreateAnalysisJob =>
        var job := JobRow(JobId(d), facts.projectId, facts.actor);
        session.Add(StagedJob(job));
        state := state[AnalysisJobKey := job.id];
      case WriteAnalysisStartedOutbox =>
        var event := OutboxRow(d.startedEventId, AnalysisStarted, facts.projectId, facts.projectOrg, Analyzing);
        session.Add(StagedEvent(event));
        state := state[StartedOutboxKey := event.id];
      case WriteProposalReadyOutbox =>
        var event := OutboxRow(d.proposalEventId, ProposalReadied, facts.projectId, facts.projectOrg, ProposalReady);
        session.Add(StagedEvent(event));
        state := state[ProposalOutboxKey := event.id];
      case LockProposalPricing =>
        raised := session.ExecutePricingLock(facts.projectId);
      case CreateQuoteExport =>
        var row := ExportRow(QuoteExportId(d), facts.projectId, QuotePdf,
                             "quote-" + facts.projectId + ".pdf", d.now + EXPORT_TTL_SECONDS);
        session.Add(StagedExport(row));
        state := state[QuoteExportKey := row.id];
      case CreateCompletionExport =>
        var row := ExportRow(ZipExportId(d), facts.projectId, CaseZip,
                             "case-" + facts.projectId + ".zip", d.now + EXPORT_TTL_SECONDS);
        session.Add(StagedExport(row));
        state := state[CompletionExportKey := row.id];
    }

    /** Runs the effects of the edge in order; the first exception leaves the loop and propagates. */
    method RunBeforeCommit(registry: EffectRegistry, failing: set<nat>) returns (raised: bool)
      requires registry.Loaded() && state == map[]
      modifies this, session`added, session`pricingLock
      ensures raised <==> BeforePhaseRaises(edge, facts.projectId, session.database.tables,
                                            session.database.proposalStatuses, failing)
      ensures !raised ==>
        && session.added == old(session.added) + StagedBy(BeforeEffects(edge), facts)
        && session.pricingLock == (old(session.pricingLock) || LockProposalPricing in BeforeEffects(edge))
        && state == StateBy(BeforeEffects(edge), facts)
    {
      raised := RunInOrder(registry.BeforeOf(edge), failing);
    }

    method RunInOrder(fns: seq<BeforeEffect>, failing: set<nat>) returns (raised: bool)
      requires state == map[]
      modifies this, session`added, session`pricingLock
      ensures raised <==> PhaseRaises(fns, facts.projectId, session.database.tables,
                                      session.database.proposalStatuses, failing)
      ensures !raised ==>
        && session.added == old(session.added) + StagedBy(fns, facts)
        && session.pricingLock == (old(session.pricingLock) || LockProposalPricing in fns)
        && state == StateBy(fns, facts)
    {
      var i := 0;
      while i < |fns|
        invariant 0 <= i <= |fns|
        invariant session.added == old(session.added) + StagedBy(fns[..i], facts)
        invariant session.pricingLock == (old(session.pricingLock) || LockProposalPricing in fns[..i])
        invariant state == StateBy(fns[..i], facts)
        invariant !PhaseRaises(fns[..i], facts.projectId, session.database.tables,
                               session.database.proposalStatuses, failing)
      {
        assert fns[..i + 1][..i] == fns[..i] && fns[..i + 1] == fns[..i] + [fns[i]];
        if i in failing {
          return true;
        }
        raised := RunBeforeEffect(fns[i]);
        if raised {
          assert fns[i] in fns;
          return true;
        }
        i := i + 1;
      }
      assert fns[..i] == fns;
      raised := false;
    }

    /** One after-commit effect; `raised` is the exception the caller swallows. */
    method RunAfterEffect(fn: AfterEffect, delivery: Delivery) returns (raised: bool)
      modifies workQueue
      ensures workQueue != null ==> workQueue.sent == old(workQueue.sent) + Delivered(fn, facts, state, delivery)
      ensures raised ==> workQueue != null && MessageOf(fn, facts, state).Some? && !delivery.Accepted?
    {
      raised := false;
      if workQueue == null {
        return;
      }
      var message := MessageOf(fn, facts, state);
      if message.Some? {
        if !delivery.Refused? {
          workQueue.sent := workQueue.sent + [message.value];
        }
        raised := !delivery.Accepted?;
      }
    }

    /** Every effect of the edge gets its turn, whatever the ones before it raised. */
    method RunAfterCommit(registry: EffectRegistry, network: nat -> Delivery)
      requires registry.Loaded()
      modifies workQueue
      ensures workQueue != null ==>
        workQueue.sent == old(workQueue.sent) + SentBy(AfterEffects(edge), facts, state, network)
    {
      var fns := registry.AfterOf(edge);
      var i := 0;
      while i < |fns|
        invariant 0 <= i <= |fns|
        invariant fns == AfterEffects(edge)
        invariant workQueue != null ==>
          workQueue.sent == old(workQueue.sent) + SentBy(fns[..i], facts, state, network)
      {
        assert fns[..i + 1][..i] == fns[..i];
        var swallowed := RunAfterEffect(fns[i], network(i));
        i := i + 1;
      }
      assert fns[..i] == fns;
    }
  }

  /** Some effect raises: a failure from outside, or the pricing lock against the CHECK. */
  ghost predicate PhaseRaises(fns: seq<BeforeEffect>, pid: string, t: Tables, allowed: set<ProposalStatus>,
                              failing: set<nat>)
  {
    || (exists k: nat :: k < |fns| && k in failing)
    || (LockProposalPricing in fns && HasProposals(t, pid) && Approved !in allowed)
  }

  ghost predicate BeforePhaseRaises(e: Edge, pid: string, t: Tables, allowed: set<ProposalStatus>, failing: set<nat>) {
    PhaseRaises(BeforeEffects(e), pid, t, allowed, failing)
  }

  // ---------------------------------------------------------------------------
  // What an edge stages and sends, per edge
  // ---------------------------------------------------------------------------

  function JobsOf(e: Edge, f: Facts): seq<JobRow> {
    if e == Edge(Intake, Analyzing) then [JobRow(JobId(f.draw), f.projectId, f.actor)] else []
  }

  function EventsOf(e: Edge, f: Facts): seq<OutboxRow> {
    if e == Edge(Intake, Analyzing) then
      [OutboxRow(f.draw.startedEventId, AnalysisStarted, f.projectId, f.projectOrg, Analyzing)]
    else if e == Edge(Analyzing, ProposalReady) then
      [OutboxRow(f.draw.proposalEventId, ProposalReadied, f.projectId, f.projectOrg, ProposalReady)]
    else []
  }

  function ExportsOf(e: Edge, f: Facts): seq<ExportRow> {
    if e == Edge(QuoteReady, Sent) then
      [ExportRow(QuoteExportId(f.draw), f.projectId, QuotePdf, "quote-" + f.projectId + ".pdf",
                 f.draw.now + EXPORT_TTL_SECONDS)]
    else if e == Edge(Sent, Archived) then
      [ExportRow(ZipExportId(f.draw), f.projectId, CaseZip, "case-" + f.projectId + ".zip",
                 f.draw.now + EXPORT_TTL_SECONDS)]
    else []
  }

  /** The messages of an edge when every id it needs was handed over by the first phase. */
  function WiresOf(e: Edge, f: Facts): seq<Wire> {
    match e
    case Edge(Intake, Analyzing) =>
      [LiveEvent(f.draw.startedEventId, AnalysisStarted, f.projectId, Analyzing),
       AnalysisMessage(JobId(f.draw), f.projectId, f.requestOrg, f.superadmin)]
    case Edge(Analyzing, ProposalReady) =>
      [LiveEvent(f.draw.proposalEventId, ProposalReadied, f.projectId, ProposalReady)]
    case Edge(QuoteReady, Sent) => [ExportMessage(QuoteExportId(f.draw), f.projectId, f.requestOrg)]
    case Edge(Sent, Archived) => [ExportMessage(ZipExportId(f.draw), f.projectId, f.requestOrg)]
    case _ => []
  }

  /** The messages Redis did not refuse, in order. */
  function Kept(wires: seq<Wire>, network: nat -> Delivery): seq<Wire> {
    if wires == [] then []
    else
      Kept(wires[..|wires| - 1], network)
      + (if network(|wires| - 1).Refused? then [] else [wires[|wires| - 1]])
  }

  lemma StartHandsOver(f: Facts)
    ensures StateBy(BeforeEffects(Edge(Intake, Analyzing)), f) ==
      map[AnalysisJobKey := JobId(f.draw), StartedOutboxKey := f.draw.startedEventId]
  {
    var before := BeforeEffects(Edge(Intake, Analyzing));
    assert before[..1] == [CreateAnalysisJob] && before[..1][..0] == [];
    assert StateBy(before[..1], f) == map[AnalysisJobKey := JobId(f.draw)];
    assert before[|before| - 1] == WriteAnalysisStartedOutbox && before[..|before| - 1] == before[..1];
  }

  lemma StartSends(f: Facts, state: State, network: nat -> Delivery)
    requires state == map[AnalysisJobKey := JobId(f.draw), StartedOutboxKey := f.draw.startedEventId]
    ensures SentBy(AfterEffects(Edge(Intake, Analyzing)), f, state, network) ==
      Kept(WiresOf(Edge(Intake, Analyzing), f), network)
  {
    var e := Edge(Intake, Analyzing);
    var fns, w := AfterEffects(e), WiresOf(e, f);
    assert JobId(f.draw)[0] == 'j';
    assert fns[..1] == [PublishAnalysisStarted] && fns[..1][..0] == [];
    assert w[..1] == [w[0]] && w[..1][..0] == [];
    assert fns[|fns| - 1] == EnqueueAnalysisJob && fns[..|fns| - 1] == fns[..1];
    assert SentBy(fns[..1], f, state, network) == Delivered(PublishAnalysisStarted, f, state, network(0));
    assert Kept(w[..1], network) == Delivered(PublishAnalysisStarted, f, state, network(0));
    assert w[|w| - 1] == w[1] && w[..|w| - 1] == w[..1];
  }

  /** ctx.state hands every id over: no effect meets a missing id and no fallback id is ever sent. */
  lemma HandOffComplete(e: Edge, f: Facts, network: nat -> Delivery)
    ensures SentBy(AfterEffects(e), f, StateBy(BeforeEffects(e), f), network) == Kept(WiresOf(e, f), network)
  {
    if e == Edge(Intake, Analyzing) {
      StartHandsOver(f);
      StartSends(f, StateBy(BeforeEffects(e), f), network);
    } else {
      var fns, before := AfterEffects(e), BeforeEffects(e);
      if |fns| == 1 {
        assert fns[..0] == [] && before[..0] == [];
        assert QuoteExportId(f.draw)[0] == 'e' && ZipExportId(f.draw)[0] == 'e';
        assert WiresOf(e, f)[..0] == [];
      }
    }
  }
}
