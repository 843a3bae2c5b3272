/** Restore of a manifest into an isolated bucket, and the drill that spans export and restore. */
module RecoveryRestore {
  import opened Basics
  import opened Text
  import opened RecoveryManifest

  datatype RestoredObject = RestoredObject(sourceKey: string, targetKey: string, sourceVersionId: string, size: nat)

  datatype RestoreOutcome =
    | Restored
    | TargetRequired
    | SameBucket
    | HeadRaised(key: string)
    | RefusedOverwrite(key: string)
    | CopyRaised(key: string)
    | SizeMismatch(key: string)

  /** The calls that fail for reasons of their own, by position in the manifest; a copy in `lost` has been made before
      the call raises. */
  datatype Faults = Faults(head: set<nat>, copy: set<nat>, lost: set<nat>, check: set<nat>)

  const NO_FAULTS: Faults := Faults({}, {}, {}, {})

  /** The version of a key that carries an id. */
  function Pinned(b: Bucket, key: string, versionId: string): Option<Version> {
    if key in b then FindVersion(b[key], versionId) else None
  }

  function FindVersion(versions: seq<Version>, versionId: string): Option<Version> {
    if versions == [] then None
    else if versions[0].versionId == Some(versionId) then Some(versions[0])
    else FindVersion(versions[1..], versionId)
  }

  function VersionsOf(b: Bucket, key: string): seq<Version> {
    if key in b then b[key] else []
  }

  /** copy_object of a pinned version: a new newest version in the target bucket. */
  function Copied(target: Bucket, key: string, bytes: seq<bv8>, newId: string): Bucket {
    target[key := VersionsOf(target, key) + [Version(Some(newId), bytes, false)]]
  }

  /** The pinned version still exists in the source as it stands at this copy, and is not a delete marker. */
  predicate Copyable(source: Bucket, o: ManifestObject) {
    Pinned(source, o.key, o.versionId).Some? && !Pinned(source, o.key, o.versionId).value.marker
  }

  predicate CopyableAt(objects: seq<ManifestObject>, source: nat -> Bucket, i: nat)
    requires i < |objects|
  {
    Copyable(source(i), objects[i])
  }

  /** The target after the first n objects have been copied; `source(i)` is the source at the i-th copy. */
  function Additions(target: Bucket, objects: seq<ManifestObject>, source: nat -> Bucket, ids: nat -> string,
                     n: nat): Bucket
    requires n <= |objects|
    requires forall i :: 0 <= i < n ==> CopyableAt(objects, source, i)
  {
    if n == 0 then target
    else
      var o := objects[n - 1];
      assert CopyableAt(objects, source, n - 1);
      Copied(Additions(target, objects, source, ids, n - 1), o.key,
             Pinned(source(n - 1), o.key, o.versionId).value.bytes, ids(n - 1))
  }

  /** Everything the i-th round of the loop needs, given what was in the target at the start. */
  ghost predicate RoundOk(start: Bucket, objects: seq<ManifestObject>, source: nat -> Bucket, faults: Faults, i: nat)
    requires i < |objects|
  {
    var o := objects[i];
    && i !in faults.head && i !in faults.copy && i !in faults.lost && i !in faults.check
    && Head(start, o.key).None? && (forall j :: 0 <= j < i ==> objects[j].key != o.key)
    && CopyableAt(objects, source, i)
    && |Pinned(source(i), o.key, o.versionId).value.bytes| == o.size
  }

  function LogOf(o: ManifestObject): RestoredObject { RestoredObject(o.key, o.key, o.versionId, o.size) }

  function LogsOf(objects: seq<ManifestObject>): (r: seq<RestoredObject>)
    ensures |r| == |objects| && forall i :: 0 <= i < |r| ==> r[i] == LogOf(objects[i])
  {
    seq(|objects|, i requires 0 <= i < |objects| => LogOf(objects[i]))
  }

  class TargetBucket {
    var content: Bucket

    constructor (content: Bucket)
      ensures this.content == content
    {
      this.content := content;
    }
  }

  /** One round of the loop. */
  method RestoreOne(o: ManifestObject, target: TargetBucket, source: Bucket, faults: Faults, i: nat, id: string)
    returns (failure: Option<RestoreOutcome>, size: nat)
    modifies target
    ensures failure == RoundFailure(old(target.content), o, source, faults, i)
    ensures failure.None? ==> size == o.size
    ensures target.content ==
      if CopyReached(old(target.content), o, source, faults, i)
      then Copied(old(target.content), o.key, Pinned(source, o.key, o.versionId).value.bytes, id)
      else old(target.content)
  {
    size := 0;
    if i in faults.head {
      return Some(HeadRaised(o.key)), size;
    }
    if Head(target.content, o.key).Some? {
      return Some(RefusedOverwrite(o.key)), size;
    }
    var version := Pinned(source, o.key, o.versionId);
    if i in faults.copy || version.None? || version.value.marker {
      return Some(CopyRaised(o.key)), size;
    }
    target.content := Copied(target.content, o.key, version.value.bytes, id);
    if i in faults.lost {
      return Some(CopyRaised(o.key)), size;
    }
    if i in faults.check {
      return Some(HeadRaised(o.key)), size;
    }
    size := |Head(target.content, o.key).value.bytes|;
    failure := if size != o.size then Some(SizeMismatch(o.key)) else None;
  }

  /** The head call answers "absent" and the pinned version can be copied. */
  predicate CopyReached(target: Bucket, o: ManifestObject, source: Bucket, faults: Faults, i: nat) {
    i !in faults.head && i !in faults.copy && Head(target, o.key).None? && Copyable(source, o)
  }

  function RoundFailure(target: Bucket, o: ManifestObject, source: Bucket, faults: Faults,
                        i: nat): Option<RestoreOutcome>
  {
    if i in faults.head then Some(HeadRaised(o.key))
    else if Head(target, o.key).Some? then Some(RefusedOverwrite(o.key))
    else if !CopyReached(target, o, source, faults, i) then Some(CopyRaised(o.key))
    else if i in faults.lost then Some(CopyRaised(o.key))
    else if i in faults.check then Some(HeadRaised(o.key))
    else if |Pinned(source, o.key, o.versionId).value.bytes| != o.size then Some(SizeMismatch(o.key))
    else None
  }

  /** Why a round stops: a head call raised, before the copy or after it; there is an object already; the copy raised,
      for a fault, a lost answer or a version that is gone; or the copy has another size than the manifest says. */
  lemma FailureSays(target: Bucket, o: ManifestObject, source: Bucket, faults: Faults, i: nat)
    ensures var failure := RoundFailure(target, o, source, faults, i);
      var first, copied := i !in faults.head, i !in faults.copy && Copyable(source, o) && i !in faults.lost;
      var absent := Head(target, o.key).None?;
      && (failure == Some(RefusedOverwrite(o.key)) <==> first && !absent)
      && (failure == Some(CopyRaised(o.key)) <==> first && absent && !copied)
      && (failure == Some(HeadRaised(o.key)) <==> !first || (absent && copied && i in faults.check))
      && (failure == Some(SizeMismatch(o.key)) <==>
            first && absent && copied && i !in faults.check
            && |Pinned(source, o.key, o.versionId).value.bytes| != o.size)
  {
  }

  ghost predicate AllCopyable(objects: seq<ManifestObject>, source: nat -> Bucket, n: nat) {
    n <= |objects| && forall i :: 0 <= i < n ==> CopyableAt(objects, source, i)
  }

  ghost predicate AllOk(start: Bucket, objects: seq<ManifestObject>, source: nat -> Bucket, faults: Faults, n: nat) {
    n <= |objects| && forall i :: 0 <= i < n ==> RoundOk(start, objects, source, faults, i)
  }

  /** None of the first n keys had a current object in the target. */
  ghost predicate AllNew(start: Bucket, objects: seq<ManifestObject>, n: nat) {
    n <= |objects| && forall i :: 0 <= i < n ==> Head(start, objects[i].key).None?
  }

  /** The target is its old content plus copies of the first n objects, all of them under keys it did not have. */
  ghost predicate IsPrefix(now: Bucket, start: Bucket, objects: seq<ManifestObject>, source: nat -> Bucket,
                           ids: nat -> string, n: nat)
  {
    && AllCopyable(objects, source, n) && AllNew(start, objects, n)
    && now == Additions(start, objects, source, ids, n)
  }

  /** After i good rounds, the next one fails exactly when its own conditions do not hold, and copies exactly
      the next object of the manifest. */
  lemma RoundDecides(now: Bucket, start: Bucket, objects: seq<ManifestObject>, source: nat -> Bucket, faults: Faults,
                     ids: nat -> string, i: nat)
    requires i < |objects| && IsPrefix(now, start, objects, source, ids, i) && AllOk(start, objects, source, faults, i)
    ensures RoundFailure(now, objects[i], source(i), faults, i).None? <==> AllOk(start, objects, source, faults, i + 1)
    ensures CopyReached(now, objects[i], source(i), faults, i) ==>
      IsPrefix(Copied(now, objects[i].key, Pinned(source(i), objects[i].key, objects[i].versionId).value.bytes, ids(i)),
               start, objects, source, ids, i + 1)
  {
    HeadAfter(start, objects, source, ids, i, objects[i].key);
    assert RoundFailure(now, objects[i], source(i), faults, i).None? <==> RoundOk(start, objects, source, faults, i);
    if CopyReached(now, objects[i], source(i), faults, i) {
      assert CopyableAt(objects, source, i);
    }
  }

  /** The restore loop. On any abort the target holds its old content plus a prefix of the manifest. */
  method Restore(manifest: Manifest, targetName: string, target: TargetBucket, source: nat -> Bucket,
                 faults: Faults, ids: nat -> string)
    returns (outcome: RestoreOutcome, restored: seq<RestoredObject>, ghost copied: nat)
    modifies target
    ensures outcome.TargetRequired? <==> Strip(targetName) == ""
    ensures outcome.SameBucket? <==> Strip(targetName) != "" && Strip(targetName) == manifest.sourceBucket
    ensures outcome.Restored? <==>
      && Strip(targetName) != "" && Strip(targetName) != manifest.sourceBucket
      && AllOk(old(target.content), manifest.objects, source, faults, |manifest.objects|)
    ensures AllOk(old(target.content), manifest.objects, source, faults, |restored|)
    ensures restored == LogsOf(manifest.objects[..|restored|])
    ensures outcome.Restored? ==> copied == |restored| == |manifest.objects|
    ensures |restored| <= copied <= |restored| + 1
    ensures copied > |restored| ==> outcome.SizeMismatch? || outcome.HeadRaised? || outcome.CopyRaised?
    ensures IsPrefix(target.content, old(target.content), manifest.objects, source, ids, copied)
  {
    restored, copied := [], 0;
    var name := Strip(targetName);
    if name == "" {
      return TargetRequired, restored, copied;
    }
    if name == manifest.sourceBucket {
      return SameBucket, restored, copied;
    }
    outcome, restored, copied := RestoreAll(manifest.objects, target, source, faults, ids);
  }

  method RestoreAll(objects: seq<ManifestObject>, target: TargetBucket, source: nat -> Bucket,
                    faults: Faults, ids: nat -> string)
    returns (outcome: RestoreOutcome, restored: seq<RestoredObject>, ghost copied: nat)
    modifies target
    ensures !outcome.TargetRequired? && !outcome.SameBucket?
    ensures outcome.Restored? <==> AllOk(old(target.content), objects, source, faults, |objects|)
    ensures AllOk(old(target.content), objects, source, faults, |restored|)
    ensures restored == LogsOf(objects[..|restored|])
    ensures outcome.Restored? ==> copied == |restored| == |objects|
    ensures |restored| <= copied <= |restored| + 1
    ensures copied > |restored| ==> outcome.SizeMismatch? || outcome.HeadRaised? || outcome.CopyRaised?
    ensures IsPrefix(target.content, old(target.content), objects, source, ids, copied)
  {
    restored, copied := [], 0;
    ghost var start := target.content;
    var i := 0;
    while i < |objects|
      invariant 0 <= i <= |objects| && copied == i && restored == LogsOf(objects[..i])
      invariant AllOk(start, objects, source, faults, i)
      invariant IsPrefix(target.content, start, objects, source, ids, i)
    {
      RoundDecides(target.content, start, objects, source, faults, ids, i);
      if CopyReached(target.content, objects[i], source(i), faults, i) { copied := copied + 1; }
      var failure, size := RestoreOne(objects[i], target, source(i), faults, i, ids(i));
      if failure.Some? {
        AllOkPrefix(start, objects, source, faults, i + 1);
        return failure.value, restored, copied;
      }
      LogsSnoc(objects, i);
      assert size == objects[i].size;
      restored := restored + [RestoredObject(objects[i].key, objects[i].key, objects[i].versionId, size)];
      i := i + 1;
    }
    assert objects[..i] == objects;
    outcome := Restored;
  }

  lemma AllOkPrefix(start: Bucket, objects: seq<ManifestObject>, source: nat -> Bucket, faults: Faults, n: nat)
    requires n <= |objects| && !AllOk(start, objects, source, faults, n)
    ensures !AllOk(start, objects, source, faults, |objects|)
  {
  }

  lemma LogsSnoc(objects: seq<ManifestObject>, i: nat)
    requires i < |objects|
    ensures LogsOf(objects[..i + 1]) == LogsOf(objects[..i]) + [LogOf(objects[i])]
  {
    assert objects[..i + 1] == objects[..i] + [objects[i]];
  }

  /** A key has a current object after n copies exactly if it had one before or one of the copies made it. */
  lemma {:induction false} HeadAfter(start: Bucket, objects: seq<ManifestObject>, source: nat -> Bucket,
                                     ids: nat -> string,
                                     n: nat, key: string)
    requires n <= |objects| && forall i :: 0 <= i < n ==> CopyableAt(objects, source, i)
    ensures Head(Additions(start, objects, source, ids, n), key).Some? <==>
      Head(start, key).Some? || exists i :: 0 <= i < n && objects[i].key == key
  {
    if n > 0 {
      HeadAfter(start, objects, source, ids, n - 1, key);
      if objects[n - 1].key == key {
        assert Head(Additions(start, objects, source, ids, n), key).Some?;
      }
    }
  }

  /** Copies never touch a key outside the copied prefix, and only append to the versions of one inside it. */
  lemma {:induction false} AdditionsFrame(start: Bucket, objects: seq<ManifestObject>, source: nat -> Bucket,
                                          ids: nat -> string, n: nat, key: string)
    requires n <= |objects| && forall i :: 0 <= i < n ==> CopyableAt(objects, source, i)
    ensures var b := Additions(start, objects, source, ids, n);
      && VersionsOf(start, key) <= VersionsOf(b, key)
      && ((forall i :: 0 <= i < n ==> objects[i].key != key) ==>
            VersionsOf(b, key) == VersionsOf(start, key) && (key in b <==> key in start))
  {
    if n > 0 {
      AdditionsFrame(start, objects, source, ids, n - 1, key);
    }
  }

  /** With distinct keys, each copied key ends with exactly the pinned bytes as its current object. */
  lemma {:induction false} AdditionsContent(start: Bucket, objects: seq<ManifestObject>, source: nat -> Bucket,
                                            ids: nat -> string, n: nat, i: nat)
    requires i < n <= |objects| && forall k :: 0 <= k < n ==> CopyableAt(objects, source, k)
    requires forall j, k :: 0 <= j < k < n ==> objects[j].key != objects[k].key
    ensures CopyableAt(objects, source, i)
    ensures var head := Head(Additions(start, objects, source, ids, n), objects[i].key);
      head.Some? && head.value.bytes == Pinned(source(i), objects[i].key, objects[i].versionId).value.bytes
  {
    if i < n - 1 {
      AdditionsContent(start, objects, source, ids, n - 1, i);
    }
  }

  // ---------------------------------------------------------------------------
  // The drill: export, later changes of the source, restore
  // ---------------------------------------------------------------------------

  /** Versioned storage only ever appends versions, and a version id names one version of a key. */
  ghost predicate Grows(before: Bucket, after: Bucket, key: string) {
    VersionsOf(before, key) <= VersionsOf(after, key)
  }

  ghost predicate UniqueIds(b: Bucket, key: string) {
    var v := VersionsOf(b, key);
    forall i, j :: 0 <= i < j < |v| && v[i].versionId.Some? ==> v[i].versionId != v[j].versionId
  }

  lemma {:induction false} FindUnique(versions: seq<Version>, k: nat, versionId: string)
    requires k < |versions| && versions[k].versionId == Some(versionId)
    requires forall i, j :: 0 <= i < j < |versions| && versions[i].versionId.Some? ==>
      versions[i].versionId != versions[j].versionId
    ensures FindVersion(versions, versionId) == Some(versions[k])
  {
    if k > 0 {
      assert versions[1..][k - 1] == versions[k];
      forall i, j | 0 <= i < j < |versions[1..]| && versions[1..][i].versionId.Some?
        ensures versions[1..][i].versionId != versions[1..][j].versionId
      {
        assert versions[1..][i] == versions[i + 1] && versions[1..][j] == versions[j + 1];
      }
      FindUnique(versions[1..], k - 1, versionId);
    }
  }

  /** Whatever newer versions the source has gained, the pinned id still finds the version of the manifest. */
  lemma PinSurvives(seen: Bucket, later: Bucket, key: string)
    requires Pinnable(seen, key) && Grows(seen, later, key) && UniqueIds(later, key)
    ensures Pinned(later, key, Head(seen, key).value.versionId.value) == Head(seen, key)
    ensures !Head(seen, key).value.marker
  {
    var k := |seen[key]| - 1;
    assert VersionsOf(later, key)[k] == seen[key][k];
    FindUnique(VersionsOf(later, key), k, Head(seen, key).value.versionId.value);
  }

  lemma PinnedRound(keys: seq<string>, refs: seq<StorageReference>, seen: nat -> Bucket, objects: seq<ManifestObject>,
                    later: nat -> Bucket, start: Bucket, i: nat)
    requires Increasing(keys) && Pins(objects, keys, refs, seen) && |objects| == |keys| && i < |keys|
    requires Grows(seen(i), later(i), keys[i]) && UniqueIds(later(i), keys[i])
    ensures CopyableAt(objects, later, i)
    ensures Pinned(later(i), objects[i].key, objects[i].versionId) == Head(seen(i), keys[i])
    ensures RoundOk(start, objects, later, NO_FAULTS, i) <==> Head(start, keys[i]).None?
  {
    PinSurvives(seen(i), later(i), keys[i]);
    assert objects[i] == ManifestObject(keys[i], Head(seen(i), keys[i]).value.versionId.value,
                                        |Head(seen(i), keys[i]).value.bytes|, PlainAll(ForKey(refs, keys[i])));
    forall j | 0 <= j < i ensures objects[j].key != objects[i].key {
      assert objects[j].key == keys[j];
      LessIrreflexive(keys[i]);
    }
  }

  /** Between the i-th head call and the i-th copy the source only gained versions of the i-th key, and the
      target started without it. */
  ghost predicate Undisturbed(keys: seq<string>, seen: nat -> Bucket, later: nat -> Bucket, start: Bucket) {
    forall i :: 0 <= i < |keys| ==>
      Grows(seen(i), later(i), keys[i]) && UniqueIds(later(i), keys[i]) && Head(start, keys[i]).None?
  }

  /** Every key has, in this bucket, the bytes it had when its head was read. */
  ghost predicate Recovered(keys: seq<string>, seen: nat -> Bucket, b: Bucket) {
    forall i :: 0 <= i < |keys| ==>
      Head(seen(i), keys[i]).Some? && Head(b, keys[i]).Some?
      && Head(b, keys[i]).value.bytes == Head(seen(i), keys[i]).value.bytes
  }

  /** Point-in-time recovery. A manifest exported from a source that later only appended versions restores
      without faults into any bucket that has none of its keys, and every key the database refers to then
      has the bytes it had when the exporter read its head. */
  lemma PointInTimeRecovery(photos: seq<PhotoReference>, exports: seq<ExportReference>, seen: nat -> Bucket,
                            objects: seq<ManifestObject>, later: nat -> Bucket, start: Bucket, ids: nat -> string)
    requires var refs := LoadReferences(photos, exports);
      Pins(objects, KeysOf(refs), refs, seen) && |objects| == |KeysOf(refs)|
    requires Undisturbed(KeysOf(LoadReferences(photos, exports)), seen, later, start)
    ensures AllOk(start, objects, later, NO_FAULTS, |objects|) && AllCopyable(objects, later, |objects|)
    ensures Recovered(KeysOf(LoadReferences(photos, exports)), seen, Additions(start, objects, later, ids, |objects|))
    ensures forall p :: p in photos ==> p.storageKey in KeysOf(LoadReferences(photos, exports))
    ensures forall x :: x in exports ==> x.storageKey in KeysOf(LoadReferences(photos, exports))
  {
    var refs := LoadReferences(photos, exports);
    var keys := KeysOf(refs);
    KeysOfExact(refs);
    forall i | 0 <= i < |objects|
      ensures RoundOk(start, objects, later, NO_FAULTS, i) && CopyableAt(objects, later, i)
      ensures objects[i].key == keys[i]
      ensures Pinned(later(i), objects[i].key, objects[i].versionId) == Head(seen(i), keys[i])
    {
      PinnedRound(keys, refs, seen, objects, later, start, i);
    }
    forall j, k | 0 <= j < k < |objects| ensures objects[j].key != objects[k].key {
      LessIrreflexive(keys[k]);
    }
    var b := Additions(start, objects, later, ids, |objects|);
    forall i | 0 <= i < |keys|
      ensures Head(seen(i), keys[i]).Some? && Head(b, keys[i]).Some?
      ensures Head(b, keys[i]).value.bytes == Head(seen(i), keys[i]).value.bytes
    {
      assert Pinnable(seen(i), keys[i]);
      AdditionsContent(start, objects, later, ids, |objects|, i);
    }
    forall p | p in photos ensures p.storageKey in keys {
      ReferenceLoaded(photos, exports, FromPhoto(p));
    }
    forall x | x in exports ensures x.storageKey in keys {
      ReferenceLoaded(photos, exports, FromExport(x));
    }
  }

  /** The two programs, one after the other, with other writers at work on the source throughout. */
  method Drill(photos: seq<PhotoReference>, exports: seq<ExportReference>, sourceName: string, seen: nat -> Bucket,
               targetName: string, target: TargetBucket, later: nat -> Bucket, ids: nat -> string)
    returns (exported: Result<Manifest, ExportError>, outcome: RestoreOutcome)
    requires Undisturbed(KeysOf(LoadReferences(photos, exports)), seen, later, target.content)
    requires Strip(targetName) != "" && Strip(targetName) != sourceName
    modifies target
    ensures exported.Ok? <==> AllPinnable(KeysOf(LoadReferences(photos, exports)), seen)
    ensures exported.Ok? ==>
      outcome.Restored? && Recovered(KeysOf(LoadReferences(photos, exports)), seen, target.content)
    ensures exported.Err? ==> target.content == old(target.content)
  {
    exported := ExportManifest(photos, exports, sourceName, seen);
    outcome := TargetRequired;
    if exported.Ok? {
      PointInTimeRecovery(photos, exports, seen, exported.value.objects, later, target.content, ids);
      var restored;
      ghost var copied;
      outcome, restored, copied := Restore(exported.value, targetName, target, later, NO_FAULTS, ids);
    }
  }

  lemma ReferenceLoaded(photos: seq<PhotoReference>, exports: seq<ExportReference>, r: StorageReference)
    requires (exists p :: p in photos && FromPhoto(p) == r) || (exists x :: x in exports && FromExport(x) == r)
    ensures r in LoadReferences(photos, exports)
  {
    var all := References(photos, exports);
    if p :| p in photos && FromPhoto(p) == r {
      var i :| 0 <= i < |photos| && photos[i] == p;
      assert all[i] == r;
    } else {
      var x :| x in exports && FromExport(x) == r;
      var i :| 0 <= i < |exports| && exports[i] == x;
      assert all[|photos| + i] == r;
    }
    SortRefsOrdered(all);
    assert r in multiset(all);
    assert r in multiset(SortRefs(all));
  }

  /** An aborted or finished restore leaves every object that was in the target as it was. */
  lemma TargetObjectsUnchanged(start: Bucket, objects: seq<ManifestObject>, source: nat -> Bucket, ids: nat -> string,
                               n: nat, key: string)
    requires n <= |objects|
    requires forall i :: 0 <= i < n ==> CopyableAt(objects, source, i) && Head(start, objects[i].key).None?
    requires Head(start, key).Some?
    ensures var b := Additions(start, objects, source, ids, n); key in b && b[key] == start[key]
  {
    AdditionsFrame(start, objects, source, ids, n, key);
  }
}
