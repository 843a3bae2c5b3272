/** The names given to logged requests. */
module AuditRoutes {
  import opened Basics

  /** The fixed path segments the table of routes uses. */
  datatype Word =
    | Auth | Login | Logout | Cases | Archive | Send | FinalProposal | Duplicate | ProposalDraft | AnalysisJobs |
    Cancel | Retry | Exports | ReportPdf | ProposalDocx | QuotePdf | QuoteDocx | CaseZip | Images | Primary |
    AnalysisReference | Admin | Users | ResetPassword | Companies | Impersonate | Jobs | Suppliers | Pricebooks

  function Name(w: Word): string {
    match w
    case Auth => "auth"
    case Login => "login"
    case Logout => "logout"
    case Cases => "cases"
    case Archive => "archive"
    case Send => "send"
    case FinalProposal => "final-proposal"
    case Duplicate => "duplicate"
    case ProposalDraft => "proposal-draft"
    case AnalysisJobs => "analysis-jobs"
    case Cancel => "cancel"
    case Retry => "retry"
    case Exports => "exports"
    case ReportPdf => "report-pdf"
    case ProposalDocx => "proposal-docx"
    case QuotePdf => "quote-pdf"
    case QuoteDocx => "quote-docx"
    case CaseZip => "case-zip"
    case Images => "images"
    case Primary => "primary"
    case AnalysisReference => "analysis-reference"
    case Admin => "admin"
    case Users => "users"
    case ResetPassword => "reset-password"
    case Companies => "companies"
    case Impersonate => "impersonate"
    case Jobs => "jobs"
    case Suppliers => "suppliers"
    case Pricebooks => "pricebooks"
  }

  datatype Verb = Post | Patch | Put | Delete

  function VerbName(v: Verb): string {
    match v
    case Post => "post"
    case Patch => "patch"
    case Put => "put"
    case Delete => "delete"
  }

  /** The named actions, in the order of the table. */
  datatype Action =
    | AuthLogin | AuthLogout | CaseCreate | CaseArchive | CaseSend | CaseFinalProposal | CaseDuplicate |
    CaseUpdate | CaseProposalDraftUpdate | AnalysisTrigger | AnalysisCancel | AnalysisRetry | ExportReportPdf |
    ExportProposalDocx | ExportQuotePdf | ExportQuoteDocx | ExportCaseZip | ImageDelete | ImageSetPrimary |
    ImageSetAnalysisReference | AdminUserCreate | AdminUserUpdate | AdminUserResetPassword | AdminCompanyCreate |
    AdminCompanyUpdate | AdminImpersonate | AdminJobRetry | SupplierUpdate | PricebookCreate

  function ActionName(a: Action): string {
    match a
    case AuthLogin => "auth.login"
    case AuthLogout => "auth.logout"
    case CaseCreate => "case.create"
    case CaseArchive => "case.archive"
    case CaseSend => "case.send"
    case CaseFinalProposal => "case.final_proposal"
    case CaseDuplicate => "case.duplicate"
    case CaseUpdate => "case.update"
    case CaseProposalDraftUpdate => "case.proposal_draft.update"
    case AnalysisTrigger => "analysis.trigger"
    case AnalysisCancel => "analysis.cancel"
    case AnalysisRetry => "analysis.retry"
    case ExportReportPdf => "export.report_pdf"
    case ExportProposalDocx => "export.proposal_docx"
    case ExportQuotePdf => "export.quote_pdf"
    case ExportQuoteDocx => "export.quote_docx"
    case ExportCaseZip => "export.case_zip"
    case ImageDelete => "image.delete"
    case ImageSetPrimary => "image.set_primary"
    case ImageSetAnalysisReference => "image.set_analysis_reference"
    case AdminUserCreate => "admin.user.create"
    case AdminUserUpdate => "admin.user.update"
    case AdminUserResetPassword => "admin.user.reset_password"
    case AdminCompanyCreate => "admin.company.create"
    case AdminCompanyUpdate => "admin.company.update"
    case AdminImpersonate => "admin.impersonate"
    case AdminJobRetry => "admin.job.retry"
    case SupplierUpdate => "supplier.update"
    case PricebookCreate => "pricebook.create"
  }

  datatype Pattern = End | Fixed(word: Word, after: Pattern) | Slot(after: Pattern)

  datatype Route = Route(verb: Verb, pattern: Pattern)

  /** The row of the table that gives the action its name. */
  function RouteOf(a: Action): Route {
    match a
    case AuthLogin => Route(Post, Fixed(Auth, Fixed(Login, End)))
    case AuthLogout => Route(Post, Fixed(Auth, Fixed(Logout, End)))
    case CaseCreate => Route(Post, Fixed(Cases, End))
    case CaseArchive => Route(Post, Fixed(Cases, Slot(Fixed(Archive, End))))
    case CaseSend => Route(Post, Fixed(Cases, Slot(Fixed(Send, End))))
    case CaseFinalProposal => Route(Post, Fixed(Cases, Slot(Fixed(FinalProposal, End))))
    case CaseDuplicate => Route(Post, Fixed(Cases, Slot(Fixed(Duplicate, End))))
    case CaseUpdate => Route(Patch, Fixed(Cases, Slot(End)))
    case CaseProposalDraftUpdate => Route(Patch, Fixed(Cases, Slot(Fixed(ProposalDraft, End))))
    case AnalysisTrigger => Route(Post, Fixed(Cases, Slot(Fixed(AnalysisJobs, End))))
    case AnalysisCancel => Route(Post, Fixed(AnalysisJobs, Slot(Fixed(Cancel, End))))
    case AnalysisRetry => Route(Post, Fixed(AnalysisJobs, Slot(Fixed(Retry, End))))
    case ExportReportPdf => Route(Post, Fixed(Cases, Slot(Fixed(Exports, Fixed(ReportPdf, End)))))
    case ExportProposalDocx => Route(Post, Fixed(Cases, Slot(Fixed(Exports, Fixed(ProposalDocx, End)))))
    case ExportQuotePdf => Route(Post, Fixed(Cases, Slot(Fixed(Exports, Fixed(QuotePdf, End)))))
    case ExportQuoteDocx => Route(Post, Fixed(Cases, Slot(Fixed(Exports, Fixed(QuoteDocx, End)))))
    case ExportCaseZip => Route(Post, Fixed(Cases, Slot(Fixed(Exports, Fixed(CaseZip, End)))))
    case ImageDelete => Route(Delete, Fixed(Cases, Slot(Fixed(Images, Slot(End)))))
    case ImageSetPrimary => Route(Patch, Fixed(Cases, Slot(Fixed(Images, Slot(Fixed(Primary, End))))))
    case ImageSetAnalysisReference =>
      Route(Patch, Fixed(Cases, Slot(Fixed(Images, Slot(Fixed(AnalysisReference, End))))))
    case AdminUserCreate => Route(Post, Fixed(Admin, Fixed(Users, End)))
    case AdminUserUpdate => Route(Patch, Fixed(Admin, Fixed(Users, Slot(End))))
    case AdminUserResetPassword => Route(Post, Fixed(Admin, Fixed(Users, Slot(Fixed(ResetPassword, End)))))
    case AdminCompanyCreate => Route(Post, Fixed(Admin, Fixed(Companies, End)))
    case AdminCompanyUpdate => Route(Patch, Fixed(Admin, Fixed(Companies, Slot(End))))
    case AdminImpersonate => Route(Post, Fixed(Admin, Fixed(Impersonate, Slot(End))))
    case AdminJobRetry => Route(Post, Fixed(Admin, Fixed(Jobs, Slot(Fixed(Retry, End)))))
    case SupplierUpdate => Route(Patch, Fixed(Suppliers, Slot(End)))
    case PricebookCreate => Route(Post, Fixed(Pricebooks, End))
  }

  /** The table as the program walks it: some order of all rows. */
  ghost predicate IsTable(order: seq<Action>) { forall a: Action :: a in order }

  // ---------------------------------------------------------------------------
  // Paths
  // ---------------------------------------------------------------------------

  function UntilSlash(s: string): (n: nat)
    ensures n <= |s|
    ensures forall i :: 0 <= i < n ==> s[i] != '/'
    ensures n < |s| ==> s[n] == '/'
  {
    if s == "" || s[0] == '/' then 0 else 1 + UntilSlash(s[1..])
  }

  /** The segments between slashes that are not empty. */
  function Split(s: string): seq<string>
    decreases |s|
  {
    if s == "" then []
    else if s[0] == '/' then Split(s[1..])
    else [s[..UntilSlash(s)]] + Split(s[UntilSlash(s)..])
  }

  function Render(parts: seq<string>): string {
    if parts == [] then "" else "/" + parts[0] + Render(parts[1..])
  }

  ghost predicate Segment(s: string) { s != "" && '/' !in s }

  const API_PREFIX := "/api/v1"

  function WithoutPrefix(path: string): string {
    if API_PREFIX <= path then path[|API_PREFIX|..] else path
  }

  lemma {:induction false} UntilSlashOf(part: string, rest: string)
    requires '/' !in part && (rest != "" ==> rest[0] == '/')
    ensures UntilSlash(part + rest) == |part|
  {
    if part == "" {
      assert part + rest == rest;
    } else {
      assert (part + rest)[1..] == part[1..] + rest && part[0] in part;
      UntilSlashOf(part[1..], rest);
    }
  }

  lemma {:induction false} SplitRender(parts: seq<string>)
    requires forall p :: p in parts ==> Segment(p)
    ensures Split(Render(parts)) == parts
  {
    if parts != [] {
      var rest := Render(parts[1..]);
      var s := parts[0] + rest;
      assert Segment(parts[0]);
      assert Render(parts)[1..] == s;
      SplitRender(parts[1..]);
      assert rest != "" ==> rest[0] == '/';
      UntilSlashOf(parts[0], rest);
      assert s[..|parts[0]|] == parts[0] && s[|parts[0]|..] == rest;
    }
  }

  // ---------------------------------------------------------------------------
  // Classification
  // ---------------------------------------------------------------------------

  predicate Matches(p: Pattern, parts: seq<string>) {
    match p
    case End => parts == []
    case Fixed(w, after) => parts != [] && parts[0] == Name(w) && Matches(after, parts[1..])
    case Slot(after) => parts != [] && Matches(after, parts[1..])
  }

  datatype Class = Class(name: string, resourceType: Option<string>, resourceId: Option<string>)

  /** The first segment of the pattern; and the second of the path, if the pattern has a slot there. */
  function ClassOf(a: Action, parts: seq<string>): Class {
    var p := RouteOf(a).pattern;
    Class(ActionName(a),
          match p case End => None case Fixed(w, _) => Some(Name(w)) case Slot(_) => Some("{id}"),
          if !p.End? && p.after.Slot? && |parts| > 1 then Some(parts[1]) else None)
  }

  predicate Hits(a: Action, verb: Verb, parts: seq<string>) {
    RouteOf(a).verb == verb && Matches(RouteOf(a).pattern, parts)
  }

  /** The first row that matches. */
  function LookUp(order: seq<Action>, verb: Verb, parts: seq<string>): Option<Action> {
    if order == [] then None
    else if Hits(order[0], verb, parts) then Some(order[0])
    else LookUp(order[1..], verb, parts)
  }

  function Dotted(parts: seq<string>): string {
    if parts == [] then "" else "." + parts[0] + Dotted(parts[1..])
  }

  function Fallback(verb: Verb, parts: seq<string>): Class {
    Class(VerbName(verb) + Dotted(parts),
          if |parts| > 0 then Some(parts[0]) else None, if |parts| > 1 then Some(parts[1]) else None)
  }

  function Classify(order: seq<Action>, verb: Verb, path: string): Class {
    var parts := Split(WithoutPrefix(path));
    match LookUp(order, verb, parts)
    case Some(a) => ClassOf(a, parts)
    case None => Fallback(verb, parts)
  }

  // ---------------------------------------------------------------------------
  // No two rows of one method can match the same path
  // ---------------------------------------------------------------------------

  /** Length and first letter tell the words of the table apart. */
  function Initials(w: Word): (nat, char) {
    match w
    case Auth => (4, 'a')
    case Login => (5, 'l')
    case Logout => (6, 'l')
    case Cases => (5, 'c')
    case Archive => (7, 'a')
    case Send => (4, 's')
    case FinalProposal => (14, 'f')
    case Duplicate => (9, 'd')
    case ProposalDraft => (14, 'p')
    case AnalysisJobs => (13, 'a')
    case Cancel => (6, 'c')
    case Retry => (5, 'r')
    case Exports => (7, 'e')
    case ReportPdf => (10, 'r')
    case ProposalDocx => (13, 'p')
    case QuotePdf => (9, 'q')
    case QuoteDocx => (10, 'q')
    case CaseZip => (8, 'c')
    case Images => (6, 'i')
    case Primary => (7, 'p')
    case AnalysisReference => (18, 'a')
    case Admin => (5, 'a')
    case Users => (5, 'u')
    case ResetPassword => (14, 'r')
    case Companies => (9, 'c')
    case Impersonate => (11, 'i')
    case Jobs => (4, 'j')
    case Suppliers => (9, 's')
    case Pricebooks => (10, 'p')
  }

  lemma NameInitials(w: Word)
    ensures |Name(w)| == Initials(w).0 && |Name(w)| > 0 && Name(w)[0] == Initials(w).1
  {
  }

  lemma InitialsDiffer(a: Word, b: Word)
    requires a != b
    ensures Initials(a) != Initials(b)
  {
  }

  lemma NamesDiffer(a: Word, b: Word)
    requires a != b
    ensures Name(a) != Name(b)
  {
    InitialsDiffer(a, b);
    NameInitials(a);
    NameInitials(b);
  }

  /** Some position is fixed in both patterns, to different words; or their lengths differ. */
  predicate Apart(p: Pattern, q: Pattern) {
    if p.End? || q.End? then p != q
    else (p.Fixed? && q.Fixed? && p.word != q.word) || Apart(p.after, q.after)
  }

  lemma {:induction false} ApartNeverBoth(p: Pattern, q: Pattern, parts: seq<string>)
    requires Apart(p, q) && Matches(p, parts)
    ensures !Matches(q, parts)
  {
    if !p.End? && !q.End? {
      if p.Fixed? && q.Fixed? && p.word != q.word {
        NamesDiffer(p.word, q.word);
      } else {
        ApartNeverBoth(p.after, q.after, parts[1..]);
      }
    }
  }

  /** Where the table puts slots: after "admin" in third place; elsewhere in second, and in fourth except for POST. */
  predicate SlotAt(verb: Verb, first: Word, i: nat) {
    if first == Admin then i == 2 else (i == 1 && first != Auth) || (i == 3 && verb != Post)
  }

  predicate Shaped(verb: Verb, first: Word, p: Pattern, i: nat) {
    p.End? || ((p.Slot? <==> SlotAt(verb, first, i)) && Shaped(verb, first, p.after, i + 1))
  }

  /** The method and the first word of a row tell where its slots are. */
  lemma RowsAreShaped(a: Action)
    ensures var r := RouteOf(a); r.pattern.Fixed? && Shaped(r.verb, r.pattern.word, r.pattern, 0)
  {
  }

  lemma RowsDiffer(a: Action, b: Action)
    requires a != b
    ensures RouteOf(a) != RouteOf(b)
  {
  }

  lemma {:induction false} SameShapeApart(verb: Verb, first: Word, p: Pattern, q: Pattern, i: nat)
    requires Shaped(verb, first, p, i) && Shaped(verb, first, q, i) && p != q
    ensures Apart(p, q)
  {
    if !p.End? && !q.End? && p.after != q.after { SameShapeApart(verb, first, p.after, q.after, i + 1); }
  }

  /** The patterns of one method are pairwise disjoint. */
  lemma RowsAreApart(a: Action, b: Action)
    requires a != b && RouteOf(a).verb == RouteOf(b).verb
    ensures Apart(RouteOf(a).pattern, RouteOf(b).pattern)
  {
    var p, q := RouteOf(a).pattern, RouteOf(b).pattern;
    RowsAreShaped(a);
    RowsAreShaped(b);
    RowsDiffer(a, b);
    if p.word == q.word { SameShapeApart(RouteOf(a).verb, p.word, p, q, 0); }
  }

  lemma OneRowHits(a: Action, b: Action, verb: Verb, parts: seq<string>)
    requires Hits(a, verb, parts) && Hits(b, verb, parts)
    ensures a == b
  {
    if a != b {
      RowsAreApart(a, b);
      ApartNeverBoth(RouteOf(a).pattern, RouteOf(b).pattern, parts);
    }
  }

  /** A row in the table is the answer exactly when it matches: the first match is the only one. */
  lemma {:induction false} LookUpIsTheMatch(order: seq<Action>, verb: Verb, parts: seq<string>, a: Action)
    ensures LookUp(order, verb, parts) == Some(a) <==> a in order && Hits(a, verb, parts)
  {
    if order != [] {
      LookUpIsTheMatch(order[1..], verb, parts, a);
      if Hits(order[0], verb, parts) && Hits(a, verb, parts) { OneRowHits(order[0], a, verb, parts); }
    }
  }

  /** Whatever the order of the rows, every request gets the same answer. */
  lemma OrderDoesNotMatter(order: seq<Action>, other: seq<Action>, verb: Verb, path: string)
    requires multiset(order) == multiset(other)
    ensures Classify(order, verb, path) == Classify(other, verb, path)
  {
    var parts := Split(WithoutPrefix(path));
    forall a ensures a in order <==> a in other { assert a in multiset(order) <==> a in multiset(other); }
    var one, two := LookUp(order, verb, parts), LookUp(other, verb, parts);
    if one.Some? {
      LookUpIsTheMatch(order, verb, parts, one.value);
      LookUpIsTheMatch(other, verb, parts, one.value);
    } else if two.Some? {
      LookUpIsTheMatch(order, verb, parts, two.value);
      LookUpIsTheMatch(other, verb, parts, two.value);
    }
  }

  // ---------------------------------------------------------------------------
  // Rendering and back
  // ---------------------------------------------------------------------------

  function Slots(p: Pattern): nat {
    match p
    case End => 0
    case Fixed(_, after) => Slots(after)
    case Slot(after) => 1 + Slots(after)
  }

  function Fill(p: Pattern, ids: seq<string>): seq<string>
    requires |ids| == Slots(p)
  {
    match p
    case End => []
    case Fixed(w, after) => [Name(w)] + Fill(after, ids)
    case Slot(after) => [ids[0]] + Fill(after, ids[1..])
  }

  lemma ShortNameIsSegment(w: Word)
    requires Initials(w).0 <= 7
    ensures Segment(Name(w))
  {
  }

  lemma LongNameIsSegment(w: Word)
    requires Initials(w).0 > 7
    ensures Segment(Name(w))
  {
  }

  lemma NameIsSegment(w: Word)
    ensures Segment(Name(w))
  {
    if Initials(w).0 <= 7 { ShortNameIsSegment(w); } else { LongNameIsSegment(w); }
  }

  lemma {:induction false} FillMatches(p: Pattern, ids: seq<string>)
    requires |ids| == Slots(p) && forall id :: id in ids ==> Segment(id)
    ensures Matches(p, Fill(p, ids))
    ensures forall s :: s in Fill(p, ids) ==> Segment(s)
  {
    match p
    case End =>
    case Fixed(w, after) =>
      NameIsSegment(w);
      FillMatches(after, ids);
    case Slot(after) =>
      assert ids[0] in ids;
      FillMatches(after, ids[1..]);
  }

  /** The id in second place is the first id. */
  lemma SecondSegment(p: Pattern, ids: seq<string>)
    requires |ids| == Slots(p) && p.Fixed? && p.after.Slot?
    ensures |Fill(p, ids)| > 1 && Slots(p) > 0 && Fill(p, ids)[1] == ids[0]
  {
    assert Fill(p, ids) == [Name(p.word)] + ([ids[0]] + Fill(p.after.after, ids[1..]));
  }

  lemma HitIsClassified(order: seq<Action>, a: Action, verb: Verb, parts: seq<string>)
    requires IsTable(order) && Hits(a, verb, parts) && forall s :: s in parts ==> Segment(s)
    ensures Classify(order, verb, API_PREFIX + Render(parts)) == ClassOf(a, parts)
  {
    SplitRender(parts);
    assert (API_PREFIX + Render(parts))[|API_PREFIX|..] == Render(parts);
    assert a in order;
    LookUpIsTheMatch(order, verb, parts, a);
  }

  /** Classification undoes rendering. A path rendered from any row with any ids is given that row's action, the
      row's first segment, and the first id if the row has its slot second, behind the API prefix. */
  lemma ClassifyUndoesRender(order: seq<Action>, a: Action, ids: seq<string>, r: Route)
    requires IsTable(order) && r == RouteOf(a)
    requires |ids| == Slots(r.pattern) && forall id :: id in ids ==> Segment(id)
    ensures r.pattern.Fixed? && (r.pattern.after.Slot? ==> |ids| > 0)
    ensures Classify(order, r.verb, API_PREFIX + Render(Fill(r.pattern, ids))) ==
      Class(ActionName(a), Some(Name(r.pattern.word)), if r.pattern.after.Slot? then Some(ids[0]) else None)
  {
    RowsAreShaped(a);
    FillMatches(r.pattern, ids);
    HitIsClassified(order, a, r.verb, Fill(r.pattern, ids));
    if r.pattern.after.Slot? { SecondSegment(r.pattern, ids); }
  }

  ghost predicate IsRender(a: Action, ids: seq<string>, verb: Verb, parts: seq<string>) {
    RouteOf(a).verb == verb && |ids| == Slots(RouteOf(a).pattern) && Fill(RouteOf(a).pattern, ids) == parts
  }

  /** Anything that is not a rendering of some row gets the generic name. */
  lemma OnlyRendersAreNamed(order: seq<Action>, verb: Verb, parts: seq<string>)
    requires IsTable(order) && forall s :: s in parts ==> Segment(s)
    ensures LookUp(order, verb, parts).Some? <==>
      exists a, ids :: IsRender(a, ids, verb, parts)
  {
    if LookUp(order, verb, parts).Some? {
      var a := LookUp(order, verb, parts).value;
      LookUpIsTheMatch(order, verb, parts, a);
      var ids := MatchIsFill(RouteOf(a).pattern, parts);
      assert IsRender(a, ids, verb, parts);
    }
    if a, ids :| IsRender(a, ids, verb, parts) {
      FillOnlyMatches(RouteOf(a).pattern, ids);
      assert a in order;
      LookUpIsTheMatch(order, verb, parts, a);
    }
  }

  lemma {:induction false} FillOnlyMatches(p: Pattern, ids: seq<string>)
    requires |ids| == Slots(p)
    ensures Matches(p, Fill(p, ids))
  {
    match p
    case End =>
    case Fixed(w, after) => FillOnlyMatches(after, ids);
    case Slot(after) => FillOnlyMatches(after, ids[1..]);
  }

  lemma {:induction false} MatchIsFill(p: Pattern, parts: seq<string>) returns (ids: seq<string>)
    requires Matches(p, parts)
    ensures |ids| == Slots(p) && Fill(p, ids) == parts
  {
    match p
    case End =>
      ids := [];
    case Fixed(w, after) =>
      ids := MatchIsFill(after, parts[1..]);
      assert parts == [parts[0]] + parts[1..];
    case Slot(after) =>
      var rest := MatchIsFill(after, parts[1..]);
      ids := [parts[0]] + rest;
      assert ids[1..] == rest && parts == [parts[0]] + parts[1..];
  }

  // ---------------------------------------------------------------------------
  // Requests the table does not name
  // ---------------------------------------------------------------------------

  function UntilDot(s: string): (n: nat)
    ensures n <= |s|
  {
    if s == "" || s[0] == '.' then 0 else 1 + UntilDot(s[1..])
  }

  /** The pieces of a name between its dots. */
  function CutAtDots(s: string): seq<string>
    decreases |s|
  {
    var n := UntilDot(s);
    if n == |s| then [s] else [s[..n]] + CutAtDots(s[n + 1..])
  }

  lemma {:induction false} UntilDotOf(part: string, rest: string)
    requires '.' !in part && (rest != "" ==> rest[0] == '.')
    ensures UntilDot(part + rest) == |part|
  {
    if part == "" {
      assert part + rest == rest;
    } else {
      assert (part + rest)[1..] == part[1..] + rest && part[0] in part;
      UntilDotOf(part[1..], rest);
    }
  }

  lemma {:induction false} CutUndoesDotted(head: string, parts: seq<string>)
    requires '.' !in head && forall p :: p in parts ==> '.' !in p
    ensures CutAtDots(head + Dotted(parts)) == [head] + parts
    decreases |parts|
  {
    var rest := Dotted(parts);
    UntilDotOf(head, rest);
    if parts == [] {
      assert head + rest == head;
    } else {
      assert parts[0] in parts;
      CutUndoesDotted(parts[0], parts[1..]);
      assert (head + rest)[..|head|] == head && (head + rest)[|head| + 1..] == parts[0] + Dotted(parts[1..]);
    }
  }

  lemma VerbHasNoDot(v: Verb)
    ensures '.' !in VerbName(v)
  {
  }

  /** A path that no row of the table renders is named by its method and all its segments, in order; its type is the
      first segment and its id the second. */
  lemma OthersAreNamedByTheirParts(order: seq<Action>, verb: Verb, parts: seq<string>)
    requires IsTable(order) && (forall s :: s in parts ==> Segment(s) && '.' !in s)
    requires forall a, ids :: !IsRender(a, ids, verb, parts)
    ensures var c := Classify(order, verb, API_PREFIX + Render(parts));
      && CutAtDots(c.name) == [VerbName(verb)] + parts
      && (c.resourceType.Some? <==> |parts| >= 1) && (|parts| >= 1 ==> c.resourceType.value == parts[0])
      && (c.resourceId.Some? <==> |parts| >= 2) && (|parts| >= 2 ==> c.resourceId.value == parts[1])
  {
    OnlyRendersAreNamed(order, verb, parts);
    SplitRender(parts);
    assert (API_PREFIX + Render(parts))[|API_PREFIX|..] == Render(parts);
    VerbHasNoDot(verb);
    CutUndoesDotted(VerbName(verb), parts);
  }
}
