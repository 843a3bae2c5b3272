/** Arithmetic of walks through the status machine: length bounds, edge balance, absorption. */
module CaseWalks {
  import opened Transitions
  import opened CaseEffects

  /** `edges` leads from `start` to `end` through allowed edges only. */
  ghost predicate IsWalk(edges: seq<Edge>, start: Status, end: Status) {
    if edges == [] then start == end
    else
      var last := edges[|edges| - 1];
      && last.toStatus == end
      && CanTransition(last.fromStatus, last.toStatus)
      && IsWalk(edges[..|edges| - 1], start, last.fromStatus)
  }

  function CountWhere(edges: seq<Edge>, keep: Edge -> bool): nat {
    if edges == [] then 0
    else CountWhere(edges[..|edges| - 1], keep) + (if keep(edges[|edges| - 1]) then 1 else 0)
  }

  function Is(e: Edge): Edge -> bool { (x: Edge) => x == e }

  function Into(s: Status): Edge -> bool { (x: Edge) => x.toStatus == s }

  function OutOf(s: Status): Edge -> bool { (x: Edge) => x.fromStatus == s }

  /** The edges of action return_to_draft. */
  function Returns(edges: seq<Edge>): nat {
    CountWhere(edges, Into(Draft))
  }

  /** How far along the forward path a status lies. */
  function Rank(s: Status): nat {
    match s
    case Draft => 0
    case Intake => 1
    case Analyzing => 2
    case ProposalReady => 3
    case QuoteReady => 4
    case Sent => 5
    case _ => 6
  }

  /** Every edge but a return climbs; a return falls from at most rank five. */
  lemma EdgeClimbs(s: Status, t: Status)
    requires CanTransition(s, t)
    ensures Rank(s) <= 5
    ensures t != Draft ==> Rank(s) < Rank(t)
    ensures t == Draft ==> Rank(t) == 0
  {
  }

  /** A walk from draft with r returns has at most 6(r+1) edges; the sharper form counts the current rank. */
  lemma {:induction false} WalkLength(edges: seq<Edge>, end: Status)
    requires IsWalk(edges, Draft, end)
    ensures |edges| <= 6 * Returns(edges) + Rank(end)
    ensures |edges| <= 6 * (Returns(edges) + 1)
  {
    if edges != [] {
      var last := edges[|edges| - 1];
      WalkLength(edges[..|edges| - 1], last.fromStatus);
      EdgeClimbs(last.fromStatus, last.toStatus);
    }
  }

  /** Without a return the rank climbs at every edge, so the walk is short from wherever it starts. */
  lemma {:induction false} NoReturnTerminates(edges: seq<Edge>, start: Status, end: Status)
    requires IsWalk(edges, start, end) && Returns(edges) == 0
    ensures |edges| + Rank(start) <= Rank(end)
  {
    if edges != [] {
      var last := edges[|edges| - 1];
      EdgeClimbs(last.fromStatus, last.toStatus);
      NoReturnTerminates(edges[..|edges| - 1], start, last.fromStatus);
    }
  }

  const FULL_LAP: seq<Edge> := [
    Edge(Draft, Intake), Edge(Intake, Analyzing), Edge(Analyzing, ProposalReady),
    Edge(ProposalReady, QuoteReady), Edge(QuoteReady, Sent)]

  function Laps(r: nat): seq<Edge> {
    if r == 0 then [] else Laps(r - 1) + FULL_LAP + [Edge(Sent, Draft)]
  }

  lemma {:induction false} WalkConcat(a: seq<Edge>, b: seq<Edge>, s: Status, m: Status, e: Status)
    requires IsWalk(a, s, m) && IsWalk(b, m, e)
    ensures IsWalk(a + b, s, e)
  {
    if b == [] {
      assert a + b == a;
    } else {
      assert (a + b)[..|a + b| - 1] == a + b[..|b| - 1];
      WalkConcat(a, b[..|b| - 1], s, m, b[|b| - 1].fromStatus);
    }
  }

  lemma {:induction false} CountConcat(a: seq<Edge>, b: seq<Edge>, keep: Edge -> bool)
    ensures CountWhere(a + b, keep) == CountWhere(a, keep) + CountWhere(b, keep)
  {
    if b == [] {
      assert a + b == a;
    } else {
      assert (a + b)[..|a + b| - 1] == a + b[..|b| - 1];
      CountConcat(a, b[..|b| - 1], keep);
    }
  }

  lemma OneEdgeMore(edges: seq<Edge>, start: Status, mid: Status, end: Status)
    requires IsWalk(edges, start, mid) && CanTransition(mid, end)
    ensures IsWalk(edges + [Edge(mid, end)], start, end)
    ensures Returns(edges + [Edge(mid, end)]) == Returns(edges) + (if end == Draft then 1 else 0)
  {
    assert (edges + [Edge(mid, end)])[..|edges|] == edges;
  }

  lemma FullLap()
    ensures IsWalk(FULL_LAP, Draft, Sent) && Returns(FULL_LAP) == 0
  {
    OneEdgeMore([], Draft, Draft, Intake);
    var one := [Edge(Draft, Intake)];
    assert [] + one == one;
    OneEdgeMore(one, Draft, Intake, Analyzing);
    var two := one + [Edge(Intake, Analyzing)];
    OneEdgeMore(two, Draft, Analyzing, ProposalReady);
    var three := two + [Edge(Analyzing, ProposalReady)];
    OneEdgeMore(three, Draft, ProposalReady, QuoteReady);
    var four := three + [Edge(ProposalReady, QuoteReady)];
    OneEdgeMore(four, Draft, QuoteReady, Sent);
    assert FULL_LAP == four + [Edge(QuoteReady, Sent)];
  }

  lemma SingleEdge(e: Edge, keep: Edge -> bool)
    requires CanTransition(e.fromStatus, e.toStatus)
    ensures IsWalk([e], e.fromStatus, e.toStatus)
    ensures CountWhere([e], keep) == if keep(e) then 1 else 0
  {
    assert [e][..0] == [];
  }

  /** The bound is attained for every number of returns. */
  lemma {:induction false} WalkLengthTight(r: nat)
    ensures IsWalk(Laps(r), Draft, Draft) && Returns(Laps(r)) == r && |Laps(r)| == 6 * r
    ensures var full := Laps(r) + FULL_LAP + [Edge(Sent, Archived)];
      IsWalk(full, Draft, Archived) && Returns(full) == r && |full| == 6 * (r + 1)
  {
    if r > 0 {
      WalkLengthTight(r - 1);
      FullLap();
      SingleEdge(Edge(Sent, Draft), Into(Draft));
      WalkConcat(Laps(r - 1), FULL_LAP, Draft, Draft, Sent);
      WalkConcat(Laps(r - 1) + FULL_LAP, [Edge(Sent, Draft)], Draft, Sent, Draft);
      CountConcat(Laps(r - 1), FULL_LAP, Into(Draft));
      CountConcat(Laps(r - 1) + FULL_LAP, [Edge(Sent, Draft)], Into(Draft));
    }
    FullLap();
    SingleEdge(Edge(Sent, Archived), Into(Draft));
    WalkConcat(Laps(r), FULL_LAP, Draft, Draft, Sent);
    WalkConcat(Laps(r) + FULL_LAP, [Edge(Sent, Archived)], Draft, Sent, Archived);
    CountConcat(Laps(r), FULL_LAP, Into(Draft));
    CountConcat(Laps(r) + FULL_LAP, [Edge(Sent, Archived)], Into(Draft));
  }

  /** For every status, entries minus exits tell whether it is current and whether it was initial. */
  lemma {:induction false} EdgeBalance(edges: seq<Edge>, start: Status, end: Status, s: Status)
    requires IsWalk(edges, start, end)
    ensures CountWhere(edges, Into(s)) - CountWhere(edges, OutOf(s))
      == (if s == end then 1 else 0) - (if s == start then 1 else 0)
  {
    if edges != [] {
      EdgeBalance(edges[..|edges| - 1], start, edges[|edges| - 1].fromStatus, s);
    }
  }

  /** No edge leaves a terminal status, so a walk enters one at most once and then ends there. */
  lemma {:induction false} TerminalAbsorbs(edges: seq<Edge>, start: Status, end: Status, s: Status)
    requires IsWalk(edges, start, end) && s in TERMINAL_STATUSES
    ensures CountWhere(edges, OutOf(s)) == 0
    ensures start != s ==> CountWhere(edges, Into(s)) == if end == s then 1 else 0
  {
    NoExit(edges, start, end, s);
    EdgeBalance(edges, start, end, s);
  }

  lemma {:induction false} NoExit(edges: seq<Edge>, start: Status, end: Status, s: Status)
    requires IsWalk(edges, start, end) && s in TERMINAL_STATUSES
    ensures CountWhere(edges, OutOf(s)) == 0
  {
    if edges != [] {
      NoExit(edges[..|edges| - 1], start, edges[|edges| - 1].fromStatus, s);
    }
  }

  /** The table in one line: from any status that is not terminal one may go on by one step, back to draft, or out by
      cancelling; and the worker may skip the review. */
  lemma AllowedIff(s: Status, t: Status)
    ensures CanTransition(s, t) <==>
      && s in VALID_STATUSES && t in VALID_STATUSES && s !in {Archived, Cancelled} && s != t
      && (t == Draft || t == Cancelled || Rank(t) == Rank(s) + 1 || (s == Analyzing && t == QuoteReady))
  {
  }
}
