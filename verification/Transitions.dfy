/** The project status machine: the transition table, the human action menu and the guards. */
module Transitions {
  import opened Basics
  import opened Text

  /** The eight statuses of the table; `Unlisted` is any other text a status column could hold. */
  datatype Status =
    | Draft | Intake | Analyzing | ProposalReady | QuoteReady | Sent | Archived | Cancelled
    | Unlisted(text: string)

  /** The text a status column holds. */
  function StatusText(s: Status): string {
    match s
    case Draft => "draft"
    case Intake => "intake"
    case Analyzing => "analyzing"
    case ProposalReady => "proposal_ready"
    case QuoteReady => "quote_ready"
    case Sent => "sent"
    case Archived => "archived"
    case Cancelled => "cancelled"
    case Unlisted(text) => text
  }

  function StatusOf(text: string): Status {
    if text == "draft" then Draft
    else if text == "intake" then Intake
    else if text == "analyzing" then Analyzing
    else if text == "proposal_ready" then ProposalReady
    else if text == "quote_ready" then QuoteReady
    else if text == "sent" then Sent
    else if text == "archived" then Archived
    else if text == "cancelled" then Cancelled
    else Unlisted(text)
  }

  /** Text and status determine each other, and a listed status has no space around it. */
  lemma StatusTextRoundTrip(s: Status)
    requires s in VALID_STATUSES
    ensures StatusOf(StatusText(s)) == s && Strip(StatusText(s)) == StatusText(s)
  {
    assert "draft"[0] == 'd' && "intake"[0] == 'i' && "analyzing"[1] == 'n' && "archived"[1] == 'r';
    assert "proposal_ready"[0] == 'p' && "quote_ready"[0] == 'q' && "sent"[0] == 's' && "cancelled"[0] == 'c';
    TidyStrips(StatusText(s));
  }

  const VALID_STATUSES: set<Status> :=
    {Draft, Intake, Analyzing, ProposalReady, QuoteReady, Sent, Archived, Cancelled}

  const LOCKED_STATUSES: set<Status> := {Analyzing, ProposalReady, QuoteReady, Sent}

  const TERMINAL_STATUSES: set<Status> := {Archived, Cancelled}

  function AllowedTargets(s: Status): set<Status> {
    match s
    case Draft => {Intake, Cancelled}
    case Intake => {Analyzing, Draft, Cancelled}
    case Analyzing => {ProposalReady, QuoteReady, Draft, Cancelled}
    case ProposalReady => {QuoteReady, Draft, Cancelled}
    case QuoteReady => {Sent, Draft, Cancelled}
    case Sent => {Archived, Draft, Cancelled}
    case Archived => {}
    case Cancelled => {}
    case Unlisted(_) => {}
  }

  predicate CanTransition(current: Status, to: Status) {
    to in AllowedTargets(current)
  }

  predicate IsLocked(s: Status) {
    s in LOCKED_STATUSES
  }

  datatype TransitionError = UnknownTarget | NotAllowed

  /** The verdict of the two checks at the head of apply_transition. */
  function Verdict(current: Status, to: Status): Result<(), TransitionError> {
    if to !in VALID_STATUSES then Err(UnknownTarget)
    else if !CanTransition(current, to) then Err(NotAllowed)
    else Ok(())
  }

  /** The locked set is entered only by starting the analysis, and left only to draft, archived or cancelled. */
  lemma LockedBoundary(s: Status, t: Status)
    requires CanTransition(s, t)
    ensures !IsLocked(s) && IsLocked(t) <==> s == Intake && t == Analyzing
    ensures IsLocked(s) && !IsLocked(t) <==> IsLocked(s) && t in {Draft, Archived, Cancelled}
    ensures s !in TERMINAL_STATUSES && s in VALID_STATUSES && t in VALID_STATUSES
  {
    assert s != Archived && s != Cancelled && !s.Unlisted?;
  }

  // ---------------------------------------------------------------------------
  // Human action menu
  // ---------------------------------------------------------------------------

  datatype Action =
    | Submit | StartAnalysis | ApproveProposal | SendQuote | Complete | ReturnToDraft | Cancel
    | WorkerProposalReady | WorkerQuoteReady

  /** The status each service method passes as to_status. */
  function ActionTarget(a: Action): Status {
    match a
    case Submit => Intake
    case StartAnalysis => Analyzing
    case ApproveProposal => QuoteReady
    case SendQuote => Sent
    case Complete => Archived
    case ReturnToDraft => Draft
    case Cancel => Cancelled
    case WorkerProposalReady => ProposalReady
    case WorkerQuoteReady => QuoteReady
  }

  datatype TransitionMeta = TransitionMeta(action: Action, toStatus: Status, requiresReason: bool)

  /** The registry of human-triggered edges; the two worker edges are absent from it. */
  function HumanRegistry(s: Status, t: Status): Option<TransitionMeta> {
    match (s, t)
    case (Draft, Intake) => Some(TransitionMeta(Submit, Intake, false))
    case (Draft, Cancelled) => Some(TransitionMeta(Cancel, Cancelled, true))
    case (Intake, Analyzing) => Some(TransitionMeta(StartAnalysis, Analyzing, false))
    case (Intake, Draft) => Some(TransitionMeta(ReturnToDraft, Draft, true))
    case (Intake, Cancelled) => Some(TransitionMeta(Cancel, Cancelled, true))
    case (Analyzing, Draft) => Some(TransitionMeta(ReturnToDraft, Draft, true))
    case (Analyzing, Cancelled) => Some(TransitionMeta(Cancel, Cancelled, true))
    case (ProposalReady, QuoteReady) => Some(TransitionMeta(ApproveProposal, QuoteReady, false))
    case (ProposalReady, Draft) => Some(TransitionMeta(ReturnToDraft, Draft, true))
    case (ProposalReady, Cancelled) => Some(TransitionMeta(Cancel, Cancelled, true))
    case (QuoteReady, Sent) => Some(TransitionMeta(SendQuote, Sent, false))
    case (QuoteReady, Draft) => Some(TransitionMeta(ReturnToDraft, Draft, true))
    case (QuoteReady, Cancelled) => Some(TransitionMeta(Cancel, Cancelled, true))
    case (Sent, Archived) => Some(TransitionMeta(Complete, Archived, false))
    case (Sent, Draft) => Some(TransitionMeta(ReturnToDraft, Draft, true))
    case (Sent, Cancelled) => Some(TransitionMeta(Cancel, Cancelled, true))
    case _ => None
  }

  /** The numeric part of the menu's sort key. */
  function SortRank(a: Action): int {
    match a
    case ReturnToDraft => 10
    case Cancel => 20
    case WorkerProposalReady => 99
    case WorkerQuoteReady => 99
    case _ => 0
  }

  datatype Role = Manager | Superadmin | OtherRole(name: string)

  /** Keeps the targets the registry names, in the order the set happened to be walked. */
  function MenuEntries(current: Status, walk: seq<Status>): seq<TransitionMeta> {
    if walk == [] then []
    else
      var rest := MenuEntries(current, walk[1..]);
      match HumanRegistry(current, walk[0])
      case Some(meta) => [meta] + rest
      case None => rest
  }

  /** Stable insertion of one entry by its sort rank. */
  function InsertByRank(m: TransitionMeta, sorted: seq<TransitionMeta>): seq<TransitionMeta> {
    if sorted == [] || SortRank(m.action) <= SortRank(sorted[0].action) then [m] + sorted
    else [sorted[0]] + InsertByRank(m, sorted[1..])
  }

  function SortByRank(entries: seq<TransitionMeta>): seq<TransitionMeta> {
    if entries == [] then [] else InsertByRank(entries[0], SortByRank(entries[1..]))
  }

  /** `walk` is the order in which the frozenset of targets is iterated. */
  function AvailableTransitions(current: Status, role: Role, walk: seq<Status>): seq<TransitionMeta> {
    if role.OtherRole? then [] else SortByRank(MenuEntries(current, walk))
  }

  ghost predicate Enumerates(walk: seq<Status>, targets: set<Status>) {
    && (forall t :: t in walk <==> t in targets)
    && (forall i, j :: 0 <= i < j < |walk| ==> walk[i] != walk[j])
  }

  ghost predicate StrictlyRanked(entries: seq<TransitionMeta>) {
    forall i, j :: 0 <= i < j < |entries| ==> SortRank(entries[i].action) < SortRank(entries[j].action)
  }

  ghost predicate DistinctRanks(entries: seq<TransitionMeta>) {
    forall i, j :: 0 <= i < j < |entries| ==> SortRank(entries[i].action) != SortRank(entries[j].action)
  }

  lemma {:induction false} MenuEntriesExact(current: Status, walk: seq<Status>)
    ensures forall m :: m in MenuEntries(current, walk) <==>
      exists t :: t in walk && HumanRegistry(current, t) == Some(m)
  {
    if walk != [] {
      MenuEntriesExact(current, walk[1..]);
      forall m ensures m in MenuEntries(current, walk) <==>
        exists t :: t in walk && HumanRegistry(current, t) == Some(m)
      {
        if m in MenuEntries(current, walk) {
          if HumanRegistry(current, walk[0]) == Some(m) {
          } else {
            assert m in MenuEntries(current, walk[1..]);
            var t :| t in walk[1..] && HumanRegistry(current, t) == Some(m);
            assert t in walk;
          }
        }
        if t :| t in walk && HumanRegistry(current, t) == Some(m) {
          assert t == walk[0] || t in walk[1..];
        }
      }
    }
  }

  lemma {:induction false} InsertMembers(m: TransitionMeta, sorted: seq<TransitionMeta>)
    ensures forall x :: x in InsertByRank(m, sorted) <==> x == m || x in sorted
  {
    if sorted == [] || SortRank(m.action) <= SortRank(sorted[0].action) {
    } else {
      InsertMembers(m, sorted[1..]);
    }
  }

  lemma StrictCons(head: TransitionMeta, tail: seq<TransitionMeta>)
    requires StrictlyRanked(tail) && forall x :: x in tail ==> SortRank(head.action) < SortRank(x.action)
    ensures StrictlyRanked([head] + tail)
  {
    var all := [head] + tail;
    forall i, j | 0 <= i < j < |all| ensures SortRank(all[i].action) < SortRank(all[j].action) {
      assert all[j] == tail[j - 1] && tail[j - 1] in tail;
    }
  }

  lemma StrictTail(sorted: seq<TransitionMeta>, x: TransitionMeta)
    requires sorted != [] && StrictlyRanked(sorted) && x in sorted[1..]
    ensures SortRank(sorted[0].action) < SortRank(x.action)
  {
    var k :| 0 <= k < |sorted[1..]| && sorted[1..][k] == x;
    assert sorted[k + 1] == x;
  }

  lemma {:induction false} InsertKeepsStrict(m: TransitionMeta, sorted: seq<TransitionMeta>)
    requires StrictlyRanked(sorted)
    requires forall x :: x in sorted ==> SortRank(x.action) != SortRank(m.action)
    ensures StrictlyRanked(InsertByRank(m, sorted))
  {
    if sorted == [] || SortRank(m.action) <= SortRank(sorted[0].action) {
      forall x | x in sorted ensures SortRank(m.action) < SortRank(x.action) {
        assert sorted[0] in sorted;
        if x in sorted[1..] { StrictTail(sorted, x); }
      }
      StrictCons(m, sorted);
    } else {
      var tail := InsertByRank(m, sorted[1..]);
      InsertKeepsStrict(m, sorted[1..]);
      InsertMembers(m, sorted[1..]);
      forall x | x in tail ensures SortRank(sorted[0].action) < SortRank(x.action) {
        if x in sorted[1..] { StrictTail(sorted, x); }
      }
      StrictCons(sorted[0], tail);
    }
  }

  lemma {:induction false} SortIsStrict(entries: seq<TransitionMeta>)
    requires DistinctRanks(entries)
    ensures StrictlyRanked(SortByRank(entries))
    ensures forall x :: x in SortByRank(entries) <==> x in entries
  {
    if entries != [] {
      assert DistinctRanks(entries[1..]);
      SortIsStrict(entries[1..]);
      forall x | x in SortByRank(entries[1..]) ensures SortRank(x.action) != SortRank(entries[0].action) {
        var k :| 0 <= k < |entries[1..]| && entries[1..][k] == x;
        assert entries[k + 1] == x;
      }
      InsertMembers(entries[0], SortByRank(entries[1..]));
      InsertKeepsStrict(entries[0], SortByRank(entries[1..]));
    }
  }

  /** Two strictly ranked sequences with the same members are the same sequence. */
  lemma {:induction false} StrictOrderUnique(a: seq<TransitionMeta>, b: seq<TransitionMeta>)
    requires StrictlyRanked(a) && StrictlyRanked(b)
    requires forall x :: x in a <==> x in b
    ensures a == b
  {
    assert b != [] ==> b[0] in b;
    if a != [] {
      assert a[0] in b && b != [];
      assert b[0] in a;
      assert a[0] == b[0];
      forall x ensures x in a[1..] <==> x in b[1..] {
        if x in a[1..] { assert x in a && x in b && x != b[0]; }
        if x in b[1..] { assert x in b && x in a && x != a[0]; }
      }
      StrictOrderUnique(a[1..], b[1..]);
      assert a == [a[0]] + a[1..] && b == [b[0]] + b[1..];
    }
  }

  /** Distinct targets of one status give entries of distinct rank: at most one forward action each. */
  lemma {:induction false} MenuRanksDistinct(current: Status, walk: seq<Status>)
    requires forall i, j :: 0 <= i < j < |walk| ==> walk[i] != walk[j]
    ensures DistinctRanks(MenuEntries(current, walk))
  {
    if walk != [] {
      MenuRanksDistinct(current, walk[1..]);
      MenuEntriesExact(current, walk[1..]);
      if HumanRegistry(current, walk[0]).Some? {
        var m := HumanRegistry(current, walk[0]).value;
        var rest := MenuEntries(current, walk[1..]);
        forall x | x in rest ensures SortRank(x.action) != SortRank(m.action) {
          var t :| t in walk[1..] && HumanRegistry(current, t) == Some(x);
          var k :| 0 <= k < |walk[1..]| && walk[1..][k] == t;
          assert walk[k + 1] == t;
          RankDeterminesTarget(current, t, walk[0]);
        }
        var e := MenuEntries(current, walk);
        assert e == [m] + rest;
        forall i, j | 0 <= i < j < |e| ensures SortRank(e[i].action) != SortRank(e[j].action) {
          assert e[j] == rest[j - 1] && rest[j - 1] in rest;
          if i > 0 { assert e[i] == rest[i - 1]; }
        }
      }
    }
  }

  lemma RankDeterminesTarget(s: Status, t: Status, u: Status)
    requires HumanRegistry(s, t).Some? && HumanRegistry(s, u).Some?
    ensures SortRank(HumanRegistry(s, t).value.action) == SortRank(HumanRegistry(s, u).value.action) ==> t == u
  {
    assert !s.Archived? && !s.Cancelled? && !s.Unlisted?;
  }

  /** The menu is exact for manager roles, empty for the rest, and blind to set iteration order. */
  lemma MenuExact(current: Status, role: Role, walk: seq<Status>)
    requires Enumerates(walk, AllowedTargets(current))
    ensures var menu := AvailableTransitions(current, role, walk);
      && (role.OtherRole? ==> menu == [])
      && (!role.OtherRole? ==> forall t ::
            (exists m :: m in menu && m.toStatus == t) <==>
            CanTransition(current, t) && !(current == Analyzing && t in {ProposalReady, QuoteReady}))
      && (forall m :: m in menu ==>
            ActionTarget(m.action) == m.toStatus && Verdict(current, ActionTarget(m.action)).Ok?)
      && StrictlyRanked(menu)
  {
    MenuEntriesExact(current, walk);
    MenuRanksDistinct(current, walk);
    SortIsStrict(MenuEntries(current, walk));
    var menu := AvailableTransitions(current, role, walk);
    if !role.OtherRole? {
      forall t ensures (exists m :: m in menu && m.toStatus == t) <==>
            CanTransition(current, t) && !(current == Analyzing && t in {ProposalReady, QuoteReady})
      {
        RegistryExact(current, t);
        if CanTransition(current, t) && !(current == Analyzing && t in {ProposalReady, QuoteReady}) {
          var m := HumanRegistry(current, t).value;
          assert t in walk;
          assert m in menu && m.toStatus == t;
        }
        if m :| m in menu && m.toStatus == t {
          var u :| u in walk && HumanRegistry(current, u) == Some(m);
          RegistryExact(current, u);
        }
      }
    }
    forall m | m in menu
      ensures ActionTarget(m.action) == m.toStatus && Verdict(current, ActionTarget(m.action)).Ok?
    {
      var u :| u in walk && HumanRegistry(current, u) == Some(m);
      RegistryExact(current, u);
    }
  }

  lemma RegistryExact(s: Status, t: Status)
    ensures HumanRegistry(s, t).Some? <==>
      CanTransition(s, t) && !(s == Analyzing && t in {ProposalReady, QuoteReady})
    ensures HumanRegistry(s, t).Some? ==>
      var m := HumanRegistry(s, t).value; m.toStatus == t && ActionTarget(m.action) == t && t in VALID_STATUSES
  {
  }

  lemma MenuIgnoresIterationOrder(current: Status, role: Role, walk: seq<Status>, other: seq<Status>)
    requires Enumerates(walk, AllowedTargets(current)) && Enumerates(other, AllowedTargets(current))
    ensures AvailableTransitions(current, role, walk) == AvailableTransitions(current, role, other)
  {
    var a, b := MenuEntries(current, walk), MenuEntries(current, other);
    MenuRanksDistinct(current, walk);
    MenuRanksDistinct(current, other);
    SortIsStrict(a);
    SortIsStrict(b);
    forall m ensures m in a <==> m in b {
      SameEntries(current, walk, other, m);
      SameEntries(current, other, walk, m);
    }
    StrictOrderUnique(SortByRank(a), SortByRank(b));
  }

  lemma SameEntries(current: Status, walk: seq<Status>, other: seq<Status>, m: TransitionMeta)
    requires forall t :: t in walk ==> t in other
    ensures m in MenuEntries(current, walk) ==> m in MenuEntries(current, other)
  {
    MenuEntriesExact(current, walk);
    MenuEntriesExact(current, other);
  }

  ghost predicate EntryInOrder(m: TransitionMeta) {
    && (m.requiresReason <==> m.toStatus in {Draft, Cancelled})
    && SortRank(m.action) == if m.toStatus == Cancelled then 20 else if m.toStatus == Draft then 10 else 0
  }

  lemma EntryOf(s: Status, t: Status)
    requires HumanRegistry(s, t).Some?
    ensures EntryInOrder(HumanRegistry(s, t).value)
  {
  }

  lemma {:induction false} EntriesInOrder(current: Status, walk: seq<Status>)
    ensures forall m :: m in MenuEntries(current, walk) ==> EntryInOrder(m)
  {
    if walk != [] {
      EntriesInOrder(current, walk[1..]);
      if HumanRegistry(current, walk[0]).Some? { EntryOf(current, walk[0]); }
    }
  }

  /** Forward before back before cancelling. */
  predicate Before(m: TransitionMeta, later: TransitionMeta) {
    m.toStatus != Cancelled && (m.toStatus == Draft ==> later.toStatus == Cancelled)
  }

  ghost predicate LaidOut(menu: seq<TransitionMeta>) {
    && (forall m :: m in menu ==> (m.requiresReason <==> m.toStatus in {Draft, Cancelled}))
    && (forall i, j :: 0 <= i < j < |menu| ==> Before(menu[i], menu[j]))
  }

  lemma RankedIsLaidOut(menu: seq<TransitionMeta>)
    requires StrictlyRanked(menu) && forall m :: m in menu ==> EntryInOrder(m)
    ensures LaidOut(menu)
  {
    forall i, j | 0 <= i < j < |menu| ensures Before(menu[i], menu[j]) {
      assert EntryInOrder(menu[i]) && EntryInOrder(menu[j]);
    }
  }

  /** A menu is laid out forward first, then back, and cancelling last; and it asks for a reason for the last two. */
  lemma MenuLaidOut(current: Status, role: Role, walk: seq<Status>)
    requires Enumerates(walk, AllowedTargets(current))
    ensures LaidOut(AvailableTransitions(current, role, walk))
  {
    MenuExact(current, role, walk);
    MenuRanksDistinct(current, walk);
    SortIsStrict(MenuEntries(current, walk));
    EntriesInOrder(current, walk);
    var menu := AvailableTransitions(current, role, walk);
    assert menu == [] || menu == SortByRank(MenuEntries(current, walk));
    RankedIsLaidOut(menu);
  }
}
