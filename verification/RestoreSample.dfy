/** The sample of references that is checked after a restore. */
module RestoreSample {
  import opened Basics
  import opened RecoveryManifest

  datatype SampleReference = SampleReference(source: string, recordId: string, projectId: string, storageKey: string)

  datatype Identity = Identity(source: string, recordId: string, storageKey: string)

  function SampleOfPhoto(p: PhotoReference): SampleReference {
    SampleReference("db.project_photo." + p.variant, p.photoId, p.projectId, p.storageKey)
  }

  function SampleOfExport(x: ExportReference): SampleReference {
    SampleReference("db.project_export.storage", x.exportId, x.projectId, x.storageKey)
  }

  function IdentityOf(s: SampleReference): Identity { Identity(s.source, s.recordId, s.storageKey) }

  // ---------------------------------------------------------------------------
  // The selection as a function of the candidates
  // ---------------------------------------------------------------------------

  function IdentitiesOf(refs: seq<SampleReference>): set<Identity> {
    set r | r in refs :: IdentityOf(r)
  }

  /** The first reference of each identity. */
  function Dedup(refs: seq<SampleReference>): seq<SampleReference> {
    if refs == [] then []
    else
      var before, last := Dedup(refs[..|refs| - 1]), refs[|refs| - 1];
      if IdentityOf(last) in IdentitiesOf(before) then before else before + [last]
  }

  function Take(refs: seq<SampleReference>, size: int): seq<SampleReference> {
    if size <= 0 then [] else if size <= |refs| then refs[..size] else refs
  }

  function FirstOriginal(photos: seq<PhotoReference>): Option<PhotoReference> {
    if photos == [] then None
    else if photos[0].variant == "original" then Some(photos[0])
    else FirstOriginal(photos[1..])
  }

  predicate Derived(p: PhotoReference) { p.variant == "preview" || p.variant == "ai_input" }

  function FirstDerived(photos: seq<PhotoReference>): Option<PhotoReference> {
    if photos == [] then None else if Derived(photos[0]) then Some(photos[0]) else FirstDerived(photos[1..])
  }

  function Photos(photos: seq<PhotoReference>): seq<SampleReference> {
    seq(|photos|, i requires 0 <= i < |photos| => SampleOfPhoto(photos[i]))
  }

  function Exports(exports: seq<ExportReference>): seq<SampleReference> {
    seq(|exports|, i requires 0 <= i < |exports| => SampleOfExport(exports[i]))
  }

  function Leads(photos: seq<PhotoReference>, exports: seq<ExportReference>): seq<SampleReference> {
    (if FirstOriginal(photos).Some? then [SampleOfPhoto(FirstOriginal(photos).value)] else [])
    + (if FirstDerived(photos).Some? then [SampleOfPhoto(FirstDerived(photos).value)] else [])
    + (if exports != [] then [SampleOfExport(exports[0])] else [])
  }

  function Candidates(photos: seq<PhotoReference>, exports: seq<ExportReference>): seq<SampleReference> {
    Leads(photos, exports) + (Photos(photos) + Exports(exports))
  }

  // ---------------------------------------------------------------------------
  // The program
  // ---------------------------------------------------------------------------

  class Sampler {
    const sampleSize: int
    var selected: seq<SampleReference>
    var seen: set<Identity>
    ghost var offered: seq<SampleReference>

    ghost predicate Valid()
      reads this
    {
      selected == Take(Dedup(offered), sampleSize) && seen == IdentitiesOf(selected)
    }

    constructor (sampleSize: int)
      ensures Valid() && offered == [] && this.sampleSize == sampleSize
    {
      this.sampleSize := sampleSize;
      selected, seen, offered := [], {}, [];
    }

    method Add(reference: Option<SampleReference>)
      requires Valid()
      modifies this
      ensures Valid()
      ensures offered == old(offered) + (if reference.Some? then [reference.value] else [])
    {
      if reference.None? { return; }
      ghost var before := offered;
      offered := offered + [reference.value];
      assert offered[..|offered| - 1] == before;
      if |selected| >= sampleSize { return; }
      assert selected == Dedup(before);
      if IdentityOf(reference.value) in seen { return; }
      seen := seen + {IdentityOf(reference.value)};
      selected := selected + [reference.value];
    }

    method AddLeads(photos: seq<PhotoReference>, exports: seq<ExportReference>)
      requires Valid() && offered == []
      modifies this
      ensures Valid() && offered == Leads(photos, exports)
    {
      var original := FirstOriginal(photos);
      var derived := FirstDerived(photos);
      Add(if original.Some? then Some(SampleOfPhoto(original.value)) else None);
      Add(if derived.Some? then Some(SampleOfPhoto(derived.value)) else None);
      Add(if exports != [] then Some(SampleOfExport(exports[0])) else None);
    }

    method AddAll(references: seq<SampleReference>)
      requires Valid()
      modifies this
      ensures Valid() && offered == old(offered) + references
    {
      var i := 0;
      while i < |references|
        invariant 0 <= i <= |references| && Valid()
        invariant offered == old(offered) + references[..i]
      {
        Add(Some(references[i]));
        assert references[..i + 1] == references[..i] + [references[i]];
        i := i + 1;
      }
      assert references[..i] == references;
    }
  }

  method SelectReferenceSample(photos: seq<PhotoReference>, exports: seq<ExportReference>, sampleSize: int)
    returns (selected: seq<SampleReference>)
    ensures selected == Take(Dedup(Candidates(photos, exports)), sampleSize)
  {
    var sampler := new Sampler(sampleSize);
    sampler.AddLeads(photos, exports);
    sampler.AddAll(Photos(photos));
    sampler.AddAll(Exports(exports));
    assert Leads(photos, exports) + Photos(photos) + Exports(exports) == Candidates(photos, exports);
    selected := sampler.selected;
  }

  // ---------------------------------------------------------------------------
  // What a sample covers
  // ---------------------------------------------------------------------------

  ghost predicate DistinctIdentities(refs: seq<SampleReference>) {
    forall i, j :: 0 <= i < j < |refs| ==> IdentityOf(refs[i]) != IdentityOf(refs[j])
  }

  lemma IdentitiesSnoc(refs: seq<SampleReference>, last: SampleReference)
    ensures IdentitiesOf(refs + [last]) == IdentitiesOf(refs) + {IdentityOf(last)}
  {
  }

  lemma DistinctSnoc(refs: seq<SampleReference>, last: SampleReference)
    requires DistinctIdentities(refs) && IdentityOf(last) !in IdentitiesOf(refs)
    ensures DistinctIdentities(refs + [last])
  {
    assert forall i :: 0 <= i < |refs| ==> refs[i] in refs && IdentityOf(refs[i]) in IdentitiesOf(refs);
  }

  lemma {:induction false} DedupIsExact(refs: seq<SampleReference>)
    ensures DistinctIdentities(Dedup(refs)) && IdentitiesOf(Dedup(refs)) == IdentitiesOf(refs)
    ensures |Dedup(refs)| == |IdentitiesOf(refs)|
  {
    if refs != [] {
      var init, last := refs[..|refs| - 1], refs[|refs| - 1];
      DedupIsExact(init);
      assert refs == init + [last];
      IdentitiesSnoc(init, last);
      if IdentityOf(last) !in IdentitiesOf(Dedup(init)) {
        IdentitiesSnoc(Dedup(init), last);
        DistinctSnoc(Dedup(init), last);
      }
    }
  }

  lemma {:induction false} DedupInventsNothing(refs: seq<SampleReference>)
    ensures forall r :: r in Dedup(refs) ==> r in refs
  {
    if refs != [] { DedupInventsNothing(refs[..|refs| - 1]); }
  }

  lemma {:induction false} DedupOfPrefix(a: seq<SampleReference>, b: seq<SampleReference>)
    ensures Dedup(a) <= Dedup(a + b)
  {
    if b == [] {
      assert a + b == a;
    } else {
      assert (a + b)[..|a + b| - 1] == a + b[..|b| - 1];
      DedupOfPrefix(a, b[..|b| - 1]);
    }
  }

  lemma LastIsNew(init: seq<SampleReference>, last: SampleReference)
    requires DistinctIdentities(init + [last])
    ensures DistinctIdentities(init) && IdentityOf(last) !in IdentitiesOf(init)
  {
    var refs := init + [last];
    forall i, j | 0 <= i < j < |init| ensures IdentityOf(init[i]) != IdentityOf(init[j]) {
      assert init[i] == refs[i] && init[j] == refs[j];
    }
    forall r | r in init ensures IdentityOf(r) != IdentityOf(last) {
      var i :| 0 <= i < |init| && init[i] == r;
      assert IdentityOf(refs[i]) != IdentityOf(refs[|init|]);
    }
  }

  lemma {:induction false} DistinctStays(refs: seq<SampleReference>)
    requires DistinctIdentities(refs)
    ensures Dedup(refs) == refs
  {
    if refs != [] {
      var init, last := refs[..|refs| - 1], refs[|refs| - 1];
      assert refs == init + [last];
      LastIsNew(init, last);
      DistinctStays(init);
    }
  }

  lemma {:induction false} FirstsAreFound(photos: seq<PhotoReference>)
    ensures FirstOriginal(photos).Some? <==> exists p :: p in photos && p.variant == "original"
    ensures FirstDerived(photos).Some? <==> exists p :: p in photos && Derived(p)
    ensures FirstOriginal(photos).Some? ==>
      FirstOriginal(photos).value in photos && FirstOriginal(photos).value.variant == "original"
    ensures FirstDerived(photos).Some? ==> FirstDerived(photos).value in photos && Derived(FirstDerived(photos).value)
  {
    if photos != [] {
      FirstsAreFound(photos[1..]);
      assert photos == [photos[0]] + photos[1..];
    }
  }

  /** "original", "preview" and "ai_input" photos and exports carry four different sources. */
  lemma SourcesDiffer()
    ensures "db.project_photo." + "original" != "db.project_export.storage"
    ensures "db.project_photo." + "preview" != "db.project_export.storage"
    ensures "db.project_photo." + "ai_input" != "db.project_export.storage"
    ensures "db.project_photo." + "original" != "db.project_photo." + "preview"
    ensures "db.project_photo." + "original" != "db.project_photo." + "ai_input"
  {
    assert |"db.project_photo." + "original"| == 25 && |"db.project_photo." + "preview"| == 24;
    assert ("db.project_photo." + "original")[11] == 'p';
    assert "db.project_export.storage"[11] == 'e';
    assert ("db.project_photo." + "ai_input")[17] == 'a' && ("db.project_photo." + "original")[17] == 'o';
    assert ("db.project_photo." + "ai_input")[11] == 'p';
  }

  lemma LeadsAreDistinct(photos: seq<PhotoReference>, exports: seq<ExportReference>)
    ensures DistinctIdentities(Leads(photos, exports))
  {
    FirstsAreFound(photos);
    SourcesDiffer();
  }

  /** A sample names no reference twice, invents none, and has as many as the size allows: the smaller of the size
      and the number of different references there are. */
  lemma SampleIsFull(photos: seq<PhotoReference>, exports: seq<ExportReference>, size: int)
    ensures var s := Take(Dedup(Candidates(photos, exports)), size);
      && DistinctIdentities(s)
      && (forall r :: r in s ==> r in Candidates(photos, exports))
      && var all := IdentitiesOf(Photos(photos) + Exports(exports));
         |s| == (if size <= 0 then 0 else if size <= |all| then size else |all|)
         && (size >= |all| ==> IdentitiesOf(s) == all)
  {
    var c := Candidates(photos, exports);
    DedupIsExact(c);
    DedupInventsNothing(c);
    LeadsAddNothing(photos, exports);
    var s := Take(Dedup(c), size);
    assert forall r :: r in s ==> r in Dedup(c);
  }

  lemma LeadsAddNothing(photos: seq<PhotoReference>, exports: seq<ExportReference>)
    ensures IdentitiesOf(Candidates(photos, exports)) == IdentitiesOf(Photos(photos) + Exports(exports))
  {
    FirstsAreFound(photos);
    var rest := Photos(photos) + Exports(exports);
    forall p | p in photos ensures SampleOfPhoto(p) in rest {
      var i :| 0 <= i < |photos| && photos[i] == p;
      assert rest[i] == SampleOfPhoto(p);
    }
    if exports != [] { assert rest[|photos|] == SampleOfExport(exports[0]); }
    assert forall r :: r in Leads(photos, exports) ==> r in rest;
  }

  lemma TakeOfPrefix(a: seq<SampleReference>, b: seq<SampleReference>, size: nat)
    requires a <= b
    ensures Take(a, size) <= Take(b, size)
  {
  }

  /** The sample starts with the leads. */
  lemma LeadsComeFirst(photos: seq<PhotoReference>, exports: seq<ExportReference>, size: nat)
    ensures Take(Leads(photos, exports), size) <= Take(Dedup(Candidates(photos, exports)), size)
  {
    var leads, rest := Leads(photos, exports), Photos(photos) + Exports(exports);
    LeadsAreDistinct(photos, exports);
    DistinctStays(leads);
    DedupOfPrefix(leads, rest);
    TakeOfPrefix(leads, Dedup(leads + rest), size);
  }

  ghost predicate ShowsPhoto(photos: seq<PhotoReference>, sample: seq<SampleReference>,
                             wanted: PhotoReference -> bool)
  {
    exists p :: p in photos && wanted(p) && SampleOfPhoto(p) in sample
  }

  /** A sample of three or more has an original photo, a derived photo and an export, each if there is one;
      smaller samples drop them from the end of that order. */
  lemma SampleCoversEveryKind(photos: seq<PhotoReference>, exports: seq<ExportReference>, size: nat)
    requires size >= 3
    ensures var s := Take(Dedup(Candidates(photos, exports)), size);
      && ((exists p :: p in photos && p.variant == "original") ==>
            ShowsPhoto(photos, s, (p: PhotoReference) => p.variant == "original"))
      && ((exists p :: p in photos && p.variant in {"preview", "ai_input"}) ==>
            ShowsPhoto(photos, s, (p: PhotoReference) => p.variant in {"preview", "ai_input"}))
      && (exports != [] ==> SampleOfExport(exports[0]) in s)
  {
    LeadsComeFirst(photos, exports, size);
    FirstsAreFound(photos);
    var leads, s := Leads(photos, exports), Take(Dedup(Candidates(photos, exports)), size);
    assert leads <= s;
    assert forall r :: r in leads ==> r in s;
    if exports != [] { assert leads[|leads| - 1] == SampleOfExport(exports[0]); }
    if FirstOriginal(photos).Some? { assert leads[0] == SampleOfPhoto(FirstOriginal(photos).value); }
    if FirstDerived(photos).Some? { assert SampleOfPhoto(FirstDerived(photos).value) in leads; }
  }

  /** The sample names rows of the database as the manifest names them. */
  ghost predicate SameRow(s: SampleReference, r: StorageReference) {
    s.source == r.source && s.recordId == r.recordId && s.projectId == r.projectId && s.storageKey == r.storageKey
  }

  /** The row behind a reference of the sample is among the references the manifest is made of. */
  lemma RowIsReferenced(photos: seq<PhotoReference>, exports: seq<ExportReference>, s: SampleReference)
    requires (exists p :: p in photos && s == SampleOfPhoto(p)) || (exists x :: x in exports && s == SampleOfExport(x))
    ensures exists r :: r in References(photos, exports) && SameRow(s, r)
  {
    var all := References(photos, exports);
    if p :| p in photos && s == SampleOfPhoto(p) {
      var i :| 0 <= i < |photos| && photos[i] == p;
      assert all[i] == FromPhoto(p);
      assert all[i] in all && SameRow(s, all[i]);
    } else {
      var x :| x in exports && s == SampleOfExport(x);
      var i :| 0 <= i < |exports| && exports[i] == x;
      assert all[|photos| + i] == FromExport(x);
      assert all[|photos| + i] in all && SameRow(s, all[|photos| + i]);
    }
  }

  /** Whatever is sampled is in the manifest exported of the same rows, under the same source, id, project and key. */
  lemma SampleIsInTheManifest(photos: seq<PhotoReference>, exports: seq<ExportReference>, size: int,
                              s: SampleReference)
    requires s in Take(Dedup(Candidates(photos, exports)), size)
    ensures exists r :: r in LoadReferences(photos, exports) && SameRow(s, r)
  {
    assert s in Candidates(photos, exports) by { SampleIsFull(photos, exports, size); }
    CandidateIsRow(photos, exports, s);
    RowIsReferenced(photos, exports, s);
    SameMembers(References(photos, exports));
  }

  lemma CandidateIsRow(photos: seq<PhotoReference>, exports: seq<ExportReference>, s: SampleReference)
    requires s in Candidates(photos, exports)
    ensures (exists p :: p in photos && s == SampleOfPhoto(p)) || (exists x :: x in exports && s == SampleOfExport(x))
  {
    FirstsAreFound(photos);
    if s in Photos(photos) {
      var i :| 0 <= i < |photos| && Photos(photos)[i] == s;
      assert photos[i] in photos;
    } else if s in Exports(exports) {
      var i :| 0 <= i < |exports| && Exports(exports)[i] == s;
      assert exports[i] in exports;
    } else {
      assert s in Leads(photos, exports);
      assert exports != [] ==> exports[0] in exports;
    }
  }
}
