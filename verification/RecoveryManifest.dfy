/** Export of a version-pinned recovery manifest for every object the database refers to. */
module RecoveryManifest {
  import opened Basics
  import opened Text

  datatype PhotoReference = PhotoReference(
    organizationId: string, projectId: string, photoId: string, storageKey: string, variant: string)

  datatype ExportReference = ExportReference(
    organizationId: string, projectId: string, exportId: string, storageKey: string)

  datatype StorageReference = StorageReference(
    source: string, organizationId: string, projectId: string, recordId: string, storageKey: string)

  function FromPhoto(p: PhotoReference): StorageReference {
    StorageReference("db.project_photo." + p.variant, p.organizationId, p.projectId, p.photoId, p.storageKey)
  }

  function FromExport(x: ExportReference): StorageReference {
    StorageReference("db.project_export.storage", x.organizationId, x.projectId, x.exportId, x.storageKey)
  }

  // ---------------------------------------------------------------------------
  // Ordered loading
  // ---------------------------------------------------------------------------

  /** The sort key (storage_key, source, record_id), compared component by component. */
  predicate RefLess(a: StorageReference, b: StorageReference) {
    || Less(a.storageKey, b.storageKey)
    || (a.storageKey == b.storageKey
        && (Less(a.source, b.source) || (a.source == b.source && Less(a.recordId, b.recordId))))
  }

  function InsertRef(r: StorageReference, sorted: seq<StorageReference>): seq<StorageReference> {
    if sorted == [] || !RefLess(sorted[0], r) then [r] + sorted else [sorted[0]] + InsertRef(r, sorted[1..])
  }

  /** Python's stable sort. */
  function SortRefs(refs: seq<StorageReference>): seq<StorageReference> {
    if refs == [] then [] else InsertRef(refs[0], SortRefs(refs[1..]))
  }

  function References(photos: seq<PhotoReference>, exports: seq<ExportReference>): seq<StorageReference> {
    seq(|photos|, i requires 0 <= i < |photos| => FromPhoto(photos[i]))
    + seq(|exports|, i requires 0 <= i < |exports| => FromExport(exports[i]))
  }

  function LoadReferences(photos: seq<PhotoReference>, exports: seq<ExportReference>): seq<StorageReference> {
    SortRefs(References(photos, exports))
  }

  /** The references are in key order. */
  ghost predicate KeyOrdered(refs: seq<StorageReference>) {
    forall i, j :: 0 <= i < j < |refs| ==>
      refs[i].storageKey == refs[j].storageKey || Less(refs[i].storageKey, refs[j].storageKey)
  }

  lemma {:induction false} InsertRefOrdered(r: StorageReference, sorted: seq<StorageReference>)
    requires KeyOrdered(sorted)
    ensures KeyOrdered(InsertRef(r, sorted))
    ensures multiset(InsertRef(r, sorted)) == multiset([r]) + multiset(sorted)
  {
    if sorted == [] {
    } else if !RefLess(sorted[0], r) {
      LessTotal(r.storageKey, sorted[0].storageKey);
      forall x | x in sorted ensures r.storageKey == x.storageKey || Less(r.storageKey, x.storageKey) {
        var k :| 0 <= k < |sorted| && sorted[k] == x;
        if Less(r.storageKey, sorted[0].storageKey) && Less(sorted[0].storageKey, x.storageKey) {
          LessTransitive(r.storageKey, sorted[0].storageKey, x.storageKey);
        }
      }
      OrderedCons(r, sorted);
    } else {
      InsertRefOrdered(r, sorted[1..]);
      var tail := InsertRef(r, sorted[1..]);
      assert sorted == [sorted[0]] + sorted[1..];
      forall x | x in tail ensures sorted[0].storageKey == x.storageKey || Less(sorted[0].storageKey, x.storageKey) {
        assert x in multiset(tail);
        if x in sorted[1..] {
          var k :| 0 <= k < |sorted[1..]| && sorted[1..][k] == x;
          assert sorted[k + 1] == x;
        }
      }
      OrderedCons(sorted[0], tail);
    }
  }

  lemma OrderedCons(head: StorageReference, tail: seq<StorageReference>)
    requires KeyOrdered(tail)
    requires forall x :: x in tail ==> head.storageKey == x.storageKey || Less(head.storageKey, x.storageKey)
    ensures KeyOrdered([head] + tail)
  {
    var all := [head] + tail;
    forall i, j | 0 <= i < j < |all|
      ensures all[i].storageKey == all[j].storageKey || Less(all[i].storageKey, all[j].storageKey)
    {
      assert all[j] == tail[j - 1] && tail[j - 1] in tail;
    }
  }

  predicate SameKey(a: StorageReference, b: StorageReference) {
    a.storageKey == b.storageKey && a.source == b.source && a.recordId == b.recordId
  }

  lemma RefTotal(a: StorageReference, b: StorageReference)
    ensures RefLess(a, b) || RefLess(b, a) || SameKey(a, b)
  {
    LessTotal(a.storageKey, b.storageKey);
    LessTotal(a.source, b.source);
    LessTotal(a.recordId, b.recordId);
  }

  lemma RefTransitive(a: StorageReference, b: StorageReference, c: StorageReference)
    requires RefLess(a, b) && RefLess(b, c)
    ensures RefLess(a, c)
  {
    if Less(a.storageKey, b.storageKey) && Less(b.storageKey, c.storageKey) {
      LessTransitive(a.storageKey, b.storageKey, c.storageKey);
    }
    if Less(a.source, b.source) && Less(b.source, c.source) { LessTransitive(a.source, b.source, c.source); }
    if Less(a.recordId, b.recordId) && Less(b.recordId, c.recordId) {
      LessTransitive(a.recordId, b.recordId, c.recordId);
    }
  }

  /** No later reference is less than an earlier one. */
  ghost predicate RefOrdered(refs: seq<StorageReference>) {
    forall i, j :: 0 <= i < j < |refs| ==> !RefLess(refs[j], refs[i])
  }

  lemma NotLessTransitive(a: StorageReference, b: StorageReference, c: StorageReference)
    requires !RefLess(b, a) && !RefLess(c, b)
    ensures !RefLess(c, a)
  {
    if RefLess(c, a) {
      RefTotal(a, b);
      if RefLess(a, b) { RefTransitive(c, a, b); }
    }
  }

  lemma RefOrderedCons(head: StorageReference, tail: seq<StorageReference>)
    requires RefOrdered(tail) && forall x :: x in tail ==> !RefLess(x, head)
    ensures RefOrdered([head] + tail)
  {
    var all := [head] + tail;
    forall i, j | 0 <= i < j < |all| ensures !RefLess(all[j], all[i]) {
      assert all[j] == tail[j - 1] && tail[j - 1] in tail;
    }
  }

  lemma RefIrreflexive(a: StorageReference)
    ensures !RefLess(a, a)
  {
    LessIrreflexive(a.storageKey);
    LessIrreflexive(a.source);
    LessIrreflexive(a.recordId);
  }

  lemma RefAsymmetric(a: StorageReference, b: StorageReference)
    requires RefLess(a, b)
    ensures !RefLess(b, a)
  {
    RefIrreflexive(a);
    if RefLess(b, a) { RefTransitive(a, b, a); }
  }

  lemma {:induction false} InsertRefFully(r: StorageReference, sorted: seq<StorageReference>)
    requires RefOrdered(sorted)
    ensures RefOrdered(InsertRef(r, sorted))
    ensures forall x :: x in InsertRef(r, sorted) <==> x == r || x in sorted
  {
    if sorted == [] {
    } else if !RefLess(sorted[0], r) {
      forall x | x in sorted ensures !RefLess(x, r) {
        var k :| 0 <= k < |sorted| && sorted[k] == x;
        if k > 0 { NotLessTransitive(r, sorted[0], x); }
      }
      RefOrderedCons(r, sorted);
    } else {
      InsertRefFully(r, sorted[1..]);
      var tail := InsertRef(r, sorted[1..]);
      forall x | x in tail ensures !RefLess(x, sorted[0]) {
        RefAsymmetric(sorted[0], r);
        if x in sorted[1..] {
          var k :| 0 <= k < |sorted[1..]| && sorted[1..][k] == x;
          assert sorted[k + 1] == x;
        }
      }
      RefOrderedCons(sorted[0], tail);
    }
  }

  lemma {:induction false} SortRefsFully(refs: seq<StorageReference>)
    ensures RefOrdered(SortRefs(refs))
  {
    if refs != [] {
      SortRefsFully(refs[1..]);
      InsertRefFully(refs[0], SortRefs(refs[1..]));
    }
  }

  /** Sorting loses no reference and duplicates none, orders by key, source and record, and so puts equal keys next
      to each other. */
  lemma {:induction false} SortRefsOrdered(refs: seq<StorageReference>)
    ensures multiset(SortRefs(refs)) == multiset(refs)
    ensures RefOrdered(SortRefs(refs)) && KeyOrdered(SortRefs(refs))
  {
    SortRefsFully(refs);
    if refs != [] {
      SortRefsOrdered(refs[1..]);
      InsertRefOrdered(refs[0], SortRefs(refs[1..]));
      assert refs == [refs[0]] + refs[1..];
    }
  }

  // ---------------------------------------------------------------------------
  // Grouping
  // ---------------------------------------------------------------------------

  /** The references to one key, in list order. */
  function ForKey(refs: seq<StorageReference>, key: string): seq<StorageReference> {
    if refs == [] then []
    else
      var last := refs[|refs| - 1];
      ForKey(refs[..|refs| - 1], key) + (if last.storageKey == key then [last] else [])
  }

  method GroupReferencesByKey(refs: seq<StorageReference>) returns (grouped: map<string, seq<StorageReference>>)
    ensures forall key :: key in grouped <==> exists r :: r in refs && r.storageKey == key
    ensures forall key :: key in grouped ==> grouped[key] == ForKey(refs, key)
  {
    grouped := map[];
    var i := 0;
    while i < |refs|
      invariant 0 <= i <= |refs|
      invariant forall key :: key in grouped <==> exists r :: r in refs[..i] && r.storageKey == key
      invariant forall key :: key in grouped ==> grouped[key] == ForKey(refs[..i], key)
    {
      var key := refs[i].storageKey;
      assert refs[..i + 1][..i] == refs[..i] && refs[..i + 1] == refs[..i] + [refs[i]];
      var group := [];
      if key in grouped {
        group := grouped[key];
      } else {
        NoneForKey(refs[..i], key);
      }
      grouped := grouped[key := group + [refs[i]]];
      i := i + 1;
    }
    assert refs[..i] == refs;
  }

  lemma {:induction false} NoneForKey(refs: seq<StorageReference>, key: string)
    requires forall r :: r in refs ==> r.storageKey != key
    ensures ForKey(refs, key) == []
  {
    if refs != [] {
      assert refs[|refs| - 1] in refs;
      NoneForKey(refs[..|refs| - 1], key);
    }
  }

  ghost predicate Increasing(keys: seq<string>) {
    forall i, j :: 0 <= i < j < |keys| ==> Less(keys[i], keys[j])
  }

  function InsertKey(key: string, sorted: seq<string>): seq<string> {
    if sorted == [] || Less(key, sorted[0]) then [key] + sorted else [sorted[0]] + InsertKey(key, sorted[1..])
  }

  lemma {:induction false} InsertKeyIncreasing(key: string, sorted: seq<string>)
    requires Increasing(sorted) && key !in sorted
    ensures Increasing(InsertKey(key, sorted))
    ensures forall k :: k in InsertKey(key, sorted) <==> k == key || k in sorted
  {
    if sorted == [] {
    } else if Less(key, sorted[0]) {
      forall j | 0 < j < |sorted| ensures Less(key, sorted[j]) {
        LessTransitive(key, sorted[0], sorted[j]);
      }
    } else {
      LessTotal(key, sorted[0]);
      InsertKeyIncreasing(key, sorted[1..]);
      var tail := InsertKey(key, sorted[1..]);
      forall k | k in tail ensures Less(sorted[0], k) {
        if k in sorted[1..] {
          var i :| 0 <= i < |sorted[1..]| && sorted[1..][i] == k;
          assert sorted[i + 1] == k;
        }
      }
      var all := InsertKey(key, sorted);
      forall i, j | 0 <= i < j < |all| ensures Less(all[i], all[j]) {
        assert all[j] == tail[j - 1] && tail[j - 1] in tail;
        if i > 0 { assert all[i] == tail[i - 1]; }
      }
    }
  }

  /** sorted(dict): the keys in increasing order, whatever order the set is walked in. */
  method SortedKeys(keys: set<string>) returns (sorted: seq<string>)
    ensures Increasing(sorted)
    ensures forall k :: k in sorted <==> k in keys
  {
    sorted := [];
    var rest := keys;
    while rest != {}
      invariant rest <= keys && Increasing(sorted)
      invariant forall k :: k in sorted <==> k in keys && k !in rest
      decreases |rest|
    {
      var k :| k in rest;
      InsertKeyIncreasing(k, sorted);
      sorted := InsertKey(k, sorted);
      rest := rest - {k};
    }
  }

  /** The distinct keys of the references, in increasing order. */
  function KeysOf(refs: seq<StorageReference>): seq<string> {
    if refs == [] then []
    else
      var before, key := KeysOf(refs[..|refs| - 1]), refs[|refs| - 1].storageKey;
      if key in before then before else InsertKey(key, before)
  }

  lemma {:induction false} KeysOfExact(refs: seq<StorageReference>)
    ensures Increasing(KeysOf(refs))
    ensures forall k :: k in KeysOf(refs) <==> exists r :: r in refs && r.storageKey == k
  {
    if refs != [] {
      var init, last := refs[..|refs| - 1], refs[|refs| - 1];
      KeysOfExact(init);
      assert refs == init + [last];
      if last.storageKey !in KeysOf(init) { InsertKeyIncreasing(last.storageKey, KeysOf(init)); }
      forall k ensures k in KeysOf(refs) <==> exists r :: r in refs && r.storageKey == k {
        assert k in KeysOf(refs) <==> k in KeysOf(init) || k == last.storageKey;
        if r :| r in refs && r.storageKey == k { assert r in init || r == last; }
      }
    }
  }

  lemma {:induction false} IncreasingIsUnique(a: seq<string>, b: seq<string>)
    requires Increasing(a) && Increasing(b) && forall k :: k in a <==> k in b
    ensures a == b
  {
    assert b != [] ==> b[0] in b;
    if a != [] {
      assert a[0] in b && b[0] in a;
      LeastIsFirst(a, b[0]);
      LeastIsFirst(b, a[0]);
      LessIrreflexive(a[0]);
      if Less(a[0], b[0]) && Less(b[0], a[0]) { LessTransitive(a[0], b[0], a[0]); }
      forall k ensures k in a[1..] <==> k in b[1..] {
        AfterFirst(a, k);
        AfterFirst(b, k);
      }
      IncreasingIsUnique(a[1..], b[1..]);
      assert a == [a[0]] + a[1..] && b == [b[0]] + b[1..];
    }
  }

  lemma LeastIsFirst(a: seq<string>, k: string)
    requires Increasing(a) && k in a
    ensures k == a[0] || Less(a[0], k)
  {
  }

  lemma AfterFirst(a: seq<string>, k: string)
    requires Increasing(a) && a != []
    ensures k in a[1..] <==> k in a && k != a[0]
  {
    LessIrreflexive(a[0]);
    if k in a[1..] {
      var i :| 0 <= i < |a[1..]| && a[1..][i] == k;
      assert Less(a[0], a[i + 1]);
    }
  }

  // ---------------------------------------------------------------------------
  // Versioned storage
  // ---------------------------------------------------------------------------

  /** One version of an object; a delete marker has no content of its own. */
  datatype Version = Version(versionId: Option<string>, bytes: seq<bv8>, marker: bool)

  /** The versions of each key, oldest first. */
  type Bucket = map<string, seq<Version>>

  /** head_object: the newest version, unless there is none or it is a delete marker. */
  function Head(b: Bucket, key: string): Option<Version> {
    if key !in b || b[key] == [] || b[key][|b[key]| - 1].marker then None
    else Some(b[key][|b[key]| - 1])
  }

  /** The bucket accepts its head as a recovery point: present, with a version id that is not blank. */
  predicate Pinnable(b: Bucket, key: string) {
    Head(b, key).Some? && Head(b, key).value.versionId.Some? && Strip(Head(b, key).value.versionId.value) != ""
  }

  datatype ManifestReference = ManifestReference(source: string, organizationId: string, projectId: string,
                                                 recordId: string)

  datatype ManifestObject = ManifestObject(key: string, versionId: string, size: nat,
                                           references: seq<ManifestReference>)

  datatype ExportError = HeadFailed(key: string) | NoVersionId(key: string)

  function Plain(r: StorageReference): ManifestReference {
    ManifestReference(r.source, r.organizationId, r.projectId, r.recordId)
  }

  function PlainAll(refs: seq<StorageReference>): (r: seq<ManifestReference>)
    ensures |r| == |refs| && forall i :: 0 <= i < |r| ==> r[i] == Plain(refs[i])
  {
    seq(|refs|, i requires 0 <= i < |refs| => Plain(refs[i]))
  }

  /** What the manifest says of a key whose head is pinnable. */
  function Described(b: Bucket, key: string, refs: seq<StorageReference>): ManifestObject
    requires Pinnable(b, key)
  {
    var head := Head(b, key).value;
    ManifestObject(key, head.versionId.value, |head.bytes|, PlainAll(refs))
  }

  /** The i-th object describes the head of the i-th key, as the bucket stood at the i-th call. */
  ghost predicate Pins(objects: seq<ManifestObject>, keys: seq<string>, refs: seq<StorageReference>,
                       seen: nat -> Bucket)
  {
    && |objects| <= |keys|
    && forall i :: 0 <= i < |objects| ==>
         Pinnable(seen(i), keys[i]) && objects[i] == Described(seen(i), keys[i], ForKey(refs, keys[i]))
  }

  /** One head call: the object, or why there is none. */
  method HeadObject(b: Bucket, key: string, refs: seq<StorageReference>)
    returns (r: Result<ManifestObject, ExportError>)
    ensures r.Ok? <==> Pinnable(b, key)
    ensures r.Ok? ==> r.value == Described(b, key, refs)
    ensures r.Err? ==> r.error.key == key && (r.error.HeadFailed? <==> Head(b, key).None?)
  {
    var response := Head(b, key);
    if response.None? {
      return Err(HeadFailed(key));
    }
    var versionId := response.value.versionId;
    if versionId.None? || Strip(versionId.value) == "" {
      return Err(NoVersionId(key));
    }
    r := Ok(ManifestObject(key, versionId.value, |response.value.bytes|, PlainAll(refs)));
  }

  lemma PinsSnoc(objects: seq<ManifestObject>, keys: seq<string>, refs: seq<StorageReference>, seen: nat -> Bucket,
                 o: ManifestObject)
    requires Pins(objects, keys, refs, seen) && |objects| < |keys|
    requires Pinnable(seen(|objects|), keys[|objects|])
    requires o == Described(seen(|objects|), keys[|objects|], ForKey(refs, keys[|objects|]))
    ensures Pins(objects + [o], keys, refs, seen)
  {
  }

  lemma FirstFailure(keys: seq<string>, seen: nat -> Bucket, i: nat, error: ExportError)
    requires i < |keys| && error.key == keys[i] && !Pinnable(seen(i), keys[i])
    requires error.HeadFailed? <==> Head(seen(i), keys[i]).None?
    requires forall j :: 0 <= j < i ==> Pinnable(seen(j), keys[j])
    ensures Unpinnable(keys, seen, error) && !AllPinnable(keys, seen)
  {
    assert AllPinnable(keys[..i], seen);
  }

  /** `seen(i)` is the source bucket at the i-th head call; writers may have changed it in between. */
  method BuildObjectManifest(grouped: map<string, seq<StorageReference>>, ghost refs: seq<StorageReference>,
                             seen: nat -> Bucket)
    returns (r: Result<seq<ManifestObject>, ExportError>)
    requires forall key :: key in grouped <==> exists ref :: ref in refs && ref.storageKey == key
    requires forall key :: key in grouped ==> grouped[key] == ForKey(refs, key)
    ensures r.Ok? ==> Pins(r.value, KeysOf(refs), refs, seen) && |r.value| == |KeysOf(refs)|
    ensures r.Err? ==> Unpinnable(KeysOf(refs), seen, r.error)
    ensures r.Ok? <==> AllPinnable(KeysOf(refs), seen)
  {
    var order := SortedKeys(grouped.Keys);
    assert order == KeysOf(refs) by {
      KeysOfExact(refs);
      IncreasingIsUnique(order, KeysOf(refs));
    }
    r := HeadAll(order, grouped, refs, seen);
  }

  method HeadAll(order: seq<string>, grouped: map<string, seq<StorageReference>>, ghost refs: seq<StorageReference>,
                 seen: nat -> Bucket)
    returns (r: Result<seq<ManifestObject>, ExportError>)
    requires forall key :: key in order ==> key in grouped && grouped[key] == ForKey(refs, key)
    ensures r.Ok? ==> Pins(r.value, order, refs, seen) && |r.value| == |order|
    ensures r.Err? ==> Unpinnable(order, seen, r.error)
    ensures r.Ok? <==> AllPinnable(order, seen)
  {
    var objects: seq<ManifestObject> := [];
    var i := 0;
    while i < |order|
      invariant 0 <= i <= |order| && |objects| == i
      invariant Pins(objects, order, refs, seen)
    {
      assert order[i] in order;
      var described := HeadObject(seen(i), order[i], grouped[order[i]]);
      if described.Err? {
        FirstFailure(order, seen, i, described.error);
        return Err(described.error);
      }
      PinsSnoc(objects, order, refs, seen, described.value);
      objects := objects + [described.value];
      i := i + 1;
    }
    r := Ok(objects);
  }

  ghost predicate AllPinnable(keys: seq<string>, seen: nat -> Bucket) {
    forall i :: 0 <= i < |keys| ==> Pinnable(seen(i), keys[i])
  }

  /** The error names the first key whose head was not pinnable when it was read, and why. */
  ghost predicate Unpinnable(keys: seq<string>, seen: nat -> Bucket, error: ExportError) {
    exists i :: 0 <= i < |keys| && error.key == keys[i] && !Pinnable(seen(i), keys[i]) && AllPinnable(keys[..i], seen)
                && (error.HeadFailed? <==> Head(seen(i), keys[i]).None?)
  }

  /** `snapshotConsistent` is the manifest's own declaration. */
  datatype Manifest = Manifest(
    sourceBucket: string, snapshotConsistent: bool, sourceReferenceCount: nat, uniqueObjectCount: nat,
    objects: seq<ManifestObject>)

  /** The references of a manifest, read back object by object. */
  function ReadBack(objects: seq<ManifestObject>): seq<StorageReference> {
    if objects == [] then [] else Tagged(objects[0].references, objects[0].key) + ReadBack(objects[1..])
  }

  function Tagged(refs: seq<ManifestReference>, key: string): (r: seq<StorageReference>)
    ensures |r| == |refs|
    ensures forall i :: 0 <= i < |r| ==>
      r[i] == StorageReference(refs[i].source, refs[i].organizationId, refs[i].projectId, refs[i].recordId, key)
  {
    seq(|refs|, i requires 0 <= i < |refs| =>
      StorageReference(refs[i].source, refs[i].organizationId, refs[i].projectId, refs[i].recordId, key))
  }

  method ExportManifest(photos: seq<PhotoReference>, exports: seq<ExportReference>, bucket: string, seen: nat -> Bucket)
    returns (r: Result<Manifest, ExportError>)
    ensures var refs := LoadReferences(photos, exports);
      var keys := KeysOf(refs);
      && (r.Ok? <==> AllPinnable(keys, seen))
      && (r.Err? ==> Unpinnable(keys, seen, r.error))
      && (r.Ok? ==>
            && Pins(r.value.objects, keys, refs, seen) && |r.value.objects| == |keys|
            && r.value.sourceBucket == bucket && r.value.snapshotConsistent
            && ReadBack(r.value.objects) == refs
            && r.value.sourceReferenceCount == |photos| + |exports|
            && r.value.uniqueObjectCount == |keys|)
  {
    var refs := LoadReferences(photos, exports);
    SortRefsOrdered(References(photos, exports));
    SortLength(References(photos, exports));
    var grouped := GroupReferencesByKey(refs);
    var objects := BuildObjectManifest(grouped, refs, seen);
    if objects.Err? {
      return Err(objects.error);
    }
    KeysOfExact(refs);
    GroupingLosesNothing(refs, KeysOf(refs), objects.value, seen);
    r := Ok(Manifest(bucket, true, |refs|, |objects.value|, objects.value));
  }

  lemma {:induction false} SortLength(refs: seq<StorageReference>)
    ensures |SortRefs(refs)| == |refs|
  {
    if refs != [] {
      SortLength(refs[1..]);
      InsertLength(refs[0], SortRefs(refs[1..]));
    }
  }

  lemma {:induction false} InsertLength(r: StorageReference, sorted: seq<StorageReference>)
    ensures |InsertRef(r, sorted)| == |sorted| + 1
  {
    if sorted != [] && RefLess(sorted[0], r) { InsertLength(r, sorted[1..]); }
  }

  function Groups(refs: seq<StorageReference>, keys: seq<string>): seq<StorageReference> {
    if keys == [] then [] else ForKey(refs, keys[0]) + Groups(refs, keys[1..])
  }

  /** Behind a greater key the least one does not come again. */
  lemma LeastDoesNotReturn(refs: seq<StorageReference>, n: nat, key: string)
    requires KeyOrdered(refs) && n < |refs| - 1 && Less(key, refs[n].storageKey)
    ensures refs[|refs| - 1].storageKey != key
  {
    if refs[|refs| - 1].storageKey == key {
      LessIrreflexive(key);
      if Less(refs[n].storageKey, key) { LessTransitive(key, refs[n].storageKey, key); }
    }
  }

  /** In key-ordered references the group of the least key is a prefix. */
  lemma {:induction false} LeastGroupIsPrefix(refs: seq<StorageReference>, key: string)
    requires KeyOrdered(refs)
    requires forall r :: r in refs ==> r.storageKey == key || Less(key, r.storageKey)
    ensures var n := |ForKey(refs, key)|;
      n <= |refs| && ForKey(refs, key) == refs[..n]
      && forall i :: n <= i < |refs| ==> refs[i].storageKey != key
  {
    if refs != [] {
      var init, last := refs[..|refs| - 1], refs[|refs| - 1];
      LeastGroupIsPrefix(init, key);
      var n := |ForKey(init, key)|;
      if n < |init| {
        assert refs[n] == init[n] && refs[n] in refs;
        LeastDoesNotReturn(refs, n, key);
      }
      assert init + [last] == refs;
    }
  }

  lemma {:induction false} ForKeyOfSuffix(refs: seq<StorageReference>, n: nat, key: string)
    requires n <= |refs| && forall i :: 0 <= i < n ==> refs[i].storageKey != key
    ensures ForKey(refs, key) == ForKey(refs[n..], key)
  {
    if |refs| == n {
      NoneForKey(refs, key);
    } else {
      assert refs[n..][..|refs[n..]| - 1] == refs[..|refs| - 1][n..];
      ForKeyOfSuffix(refs[..|refs| - 1], n, key);
    }
  }

  /** Cutting off the group of the least key leaves ordered references to the other keys only. */
  lemma CutLeastGroup(refs: seq<StorageReference>, keys: seq<string>)
    requires KeyOrdered(refs) && Increasing(keys) && keys != []
    requires forall r :: r in refs ==> r.storageKey in keys
    ensures var n := |ForKey(refs, keys[0])|;
      && n <= |refs| && ForKey(refs, keys[0]) == refs[..n]
      && (forall i :: 0 <= i < n ==> refs[i].storageKey == keys[0])
      && (forall r :: r in refs[n..] ==> r.storageKey in keys[1..])
  {
    forall r | r in refs ensures r.storageKey == keys[0] || Less(keys[0], r.storageKey) {
      var i :| 0 <= i < |keys| && keys[i] == r.storageKey;
    }
    LeastGroupIsPrefix(refs, keys[0]);
    ForKeyKeys(refs, keys[0]);
    var n := |ForKey(refs, keys[0])|;
    assert forall i :: 0 <= i < n ==> refs[i] == ForKey(refs, keys[0])[i] && refs[i] in ForKey(refs, keys[0]);
    forall r | r in refs[n..] ensures r.storageKey in keys[1..] {
      var i :| n <= i < |refs| && refs[i] == r;
      assert refs[i] in refs;
      var j :| 0 <= j < |keys| && keys[j] == r.storageKey;
      assert keys[1..][j - 1] == keys[j];
    }
  }

  /** Reading the groups in key order gives the sorted reference list back, nothing lost or repeated. */
  lemma {:induction false} GroupsAreTheList(refs: seq<StorageReference>, keys: seq<string>)
    requires KeyOrdered(refs) && Increasing(keys)
    requires forall r :: r in refs ==> r.storageKey in keys
    ensures Groups(refs, keys) == refs
  {
    assert refs != [] ==> refs[0] in refs;
    if keys != [] {
      CutLeastGroup(refs, keys);
      var n := |ForKey(refs, keys[0])|;
      var rest := refs[n..];
      GroupsAreTheList(rest, keys[1..]);
      forall k | k in keys[1..] ensures ForKey(refs, k) == ForKey(rest, k) {
        var j :| 0 <= j < |keys[1..]| && keys[1..][j] == k;
        assert Less(keys[0], keys[j + 1]);
        LessIrreflexive(keys[0]);
        ForKeyOfSuffix(refs, n, k);
      }
      SameGroups(refs, rest, keys[1..]);
      assert refs == refs[..n] + rest;
    }
  }

  lemma {:induction false} SameGroups(a: seq<StorageReference>, b: seq<StorageReference>, keys: seq<string>)
    requires forall k :: k in keys ==> ForKey(a, k) == ForKey(b, k)
    ensures Groups(a, keys) == Groups(b, keys)
  {
    if keys != [] {
      assert keys[0] in keys;
      SameGroups(a, b, keys[1..]);
    }
  }

  lemma {:induction false} ForKeyKeys(refs: seq<StorageReference>, key: string)
    ensures forall r :: r in ForKey(refs, key) ==> r.storageKey == key
  {
    if refs != [] { ForKeyKeys(refs[..|refs| - 1], key); }
  }

  lemma {:induction false} ReadBackIsGroups(refs: seq<StorageReference>, keys: seq<string>,
                                            objects: seq<ManifestObject>)
    requires |objects| == |keys|
    requires forall i :: 0 <= i < |keys| ==>
      objects[i].key == keys[i] && objects[i].references == PlainAll(ForKey(refs, keys[i]))
    ensures ReadBack(objects) == Groups(refs, keys)
  {
    if keys != [] {
      var group := ForKey(refs, keys[0]);
      ForKeyKeys(refs, keys[0]);
      assert forall i :: 0 <= i < |group| ==> group[i] in group;
      assert Tagged(objects[0].references, objects[0].key) == group;
      ReadBackIsGroups(refs, keys[1..], objects[1..]);
    }
  }

  lemma GroupingLosesNothing(refs: seq<StorageReference>, keys: seq<string>, objects: seq<ManifestObject>,
                             seen: nat -> Bucket)
    requires KeyOrdered(refs) && Increasing(keys) && Pins(objects, keys, refs, seen) && |objects| == |keys|
    requires forall r :: r in refs ==> r.storageKey in keys
    ensures ReadBack(objects) == refs
  {
    ReadBackIsGroups(refs, keys, objects);
    GroupsAreTheList(refs, keys);
  }

  // ---------------------------------------------------------------------------
  // From a row of the database to its line in the manifest
  // ---------------------------------------------------------------------------

  /** The object stands in the manifest with the reference of this row. */
  ghost predicate NamesPhoto(o: ManifestObject, r: ManifestReference, p: PhotoReference) {
    && o.key == p.storageKey && r in o.references
    && r.source == "db.project_photo." + p.variant && r.organizationId == p.organizationId
    && r.projectId == p.projectId && r.recordId == p.photoId
  }

  ghost predicate NamesExport(o: ManifestObject, r: ManifestReference, x: ExportReference) {
    && o.key == x.storageKey && r in o.references
    && r.source == "db.project_export.storage" && r.organizationId == x.organizationId
    && r.projectId == x.projectId && r.recordId == x.exportId
  }

  lemma {:induction false} ReadBackFinds(objects: seq<ManifestObject>, ref: StorageReference)
    returns (o: ManifestObject, r: ManifestReference)
    requires ref in ReadBack(objects)
    ensures o in objects && r in o.references
    ensures ref == StorageReference(r.source, r.organizationId, r.projectId, r.recordId, o.key)
  {
    var first := Tagged(objects[0].references, objects[0].key);
    if ref in first {
      var i :| 0 <= i < |first| && first[i] == ref;
      o, r := objects[0], objects[0].references[i];
    } else {
      o, r := ReadBackFinds(objects[1..], ref);
    }
  }

  lemma {:induction false} ReadBackHasAll(objects: seq<ManifestObject>, o: ManifestObject, r: ManifestReference)
    requires o in objects && r in o.references
    ensures StorageReference(r.source, r.organizationId, r.projectId, r.recordId, o.key) in ReadBack(objects)
  {
    if o == objects[0] {
      var i :| 0 <= i < |o.references| && o.references[i] == r;
      assert Tagged(o.references, o.key)[i] in Tagged(o.references, o.key);
    } else {
      ReadBackHasAll(objects[1..], o, r);
    }
  }

  lemma SameMembers(refs: seq<StorageReference>)
    ensures forall r :: r in SortRefs(refs) <==> r in refs
  {
    SortRefsOrdered(refs);
    forall r ensures r in SortRefs(refs) <==> r in refs {
      assert r in multiset(SortRefs(refs)) <==> r in multiset(refs);
    }
  }

  /** Every photo and every export of the database is named under its own key, with its own organisation, project, id
      and kind, in a manifest that reads back to the loaded references. */
  lemma RowsAreNamed(photos: seq<PhotoReference>, exports: seq<ExportReference>, objects: seq<ManifestObject>)
    requires ReadBack(objects) == LoadReferences(photos, exports)
    ensures forall p :: p in photos ==> exists o, r :: o in objects && NamesPhoto(o, r, p)
    ensures forall x :: x in exports ==> exists o, r :: o in objects && NamesExport(o, r, x)
  {
    var all := References(photos, exports);
    SameMembers(all);
    forall p | p in photos ensures exists o, r :: o in objects && NamesPhoto(o, r, p) {
      var i :| 0 <= i < |photos| && photos[i] == p;
      assert all[i] == FromPhoto(p) && FromPhoto(p) in all;
      var o, r := ReadBackFinds(objects, FromPhoto(p));
      assert NamesPhoto(o, r, p);
    }
    forall x | x in exports ensures exists o, r :: o in objects && NamesExport(o, r, x) {
      var i :| 0 <= i < |exports| && exports[i] == x;
      assert all[|photos| + i] == FromExport(x) && FromExport(x) in all;
      var o, r := ReadBackFinds(objects, FromExport(x));
      assert NamesExport(o, r, x);
    }
  }

  ghost predicate NamesARow(photos: seq<PhotoReference>, exports: seq<ExportReference>, o: ManifestObject,
                            r: ManifestReference)
  {
    (exists p :: p in photos && NamesPhoto(o, r, p)) || (exists x :: x in exports && NamesExport(o, r, x))
  }

  lemma RowNamed(photos: seq<PhotoReference>, exports: seq<ExportReference>, k: nat, o: ManifestObject,
                 r: ManifestReference)
    requires k < |photos| + |exports| && r in o.references
    requires References(photos, exports)[k] ==
      StorageReference(r.source, r.organizationId, r.projectId, r.recordId, o.key)
    ensures NamesARow(photos, exports, o, r)
  {
    if k < |photos| {
      assert NamesPhoto(o, r, photos[k]);
    } else {
      assert NamesExport(o, r, exports[k - |photos|]);
    }
  }

  /** And it names nothing else. */
  lemma OnlyRowsAreNamed(photos: seq<PhotoReference>, exports: seq<ExportReference>, objects: seq<ManifestObject>,
                         o: ManifestObject, r: ManifestReference)
    requires ReadBack(objects) == LoadReferences(photos, exports) && o in objects && r in o.references
    ensures NamesARow(photos, exports, o, r)
  {
    var all := References(photos, exports);
    SameMembers(all);
    ReadBackHasAll(objects, o, r);
    var k :| 0 <= k < |all| && all[k] == StorageReference(r.source, r.organizationId, r.projectId, r.recordId, o.key);
    RowNamed(photos, exports, k, o, r);
  }

  /** The loaded references are sorted by key, within a key by source, and within a source by record id. */
  lemma SortedBy(photos: seq<PhotoReference>, exports: seq<ExportReference>, i: nat, j: nat)
    requires i < j < |LoadReferences(photos, exports)|
    ensures var a, b := LoadReferences(photos, exports)[i], LoadReferences(photos, exports)[j];
      && (a.storageKey != b.storageKey ==> Less(a.storageKey, b.storageKey))
      && (a.storageKey == b.storageKey && a.source != b.source ==> Less(a.source, b.source))
      && (a.storageKey == b.storageKey && a.source == b.source && a.recordId != b.recordId ==>
            Less(a.recordId, b.recordId))
  {
    var refs := LoadReferences(photos, exports);
    SortRefsOrdered(References(photos, exports));
    assert !RefLess(refs[j], refs[i]);
    RefTotal(refs[i], refs[j]);
    if refs[i].storageKey == refs[j].storageKey { LessIrreflexive(refs[i].storageKey); }
    if refs[i].source == refs[j].source { LessIrreflexive(refs[i].source); }
  }

  /** A head is pinnable if and only if the key's last version is no delete marker and has an id that is not blank. */
  lemma PinnableIff(b: Bucket, key: string)
    ensures Pinnable(b, key) <==>
      && key in b && b[key] != []
      && var last := b[key][|b[key]| - 1]; !last.marker && last.versionId.Some? && !AllSpace(last.versionId.value)
  {
    if Head(b, key).Some? && Head(b, key).value.versionId.Some? { StripIff(Head(b, key).value.versionId.value, "x"); }
  }
}
