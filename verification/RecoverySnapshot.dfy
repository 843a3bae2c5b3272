/** Whether an exported manifest pictures one instant of the source, as it declares of itself. */
module RecoverySnapshot {
  import opened Basics
  import opened Text
  import opened RecoveryManifest
  import opened RecoveryRestore

  /** The source bucket over time: any writes between two instants, but versions are only ever appended. */
  type Timeline = nat -> Bucket

  ghost predicate Growing(source: Timeline) {
    && (forall s, t, key :: s <= t ==> Grows(source(s), source(t), key))
    && (forall t, key :: UniqueIds(source(t), key))
  }

  /** The i-th head call happens at times[i]. */
  ghost predicate Export(keys: seq<string>, times: seq<nat>) {
    |times| == |keys| && forall i, j :: 0 <= i <= j < |times| ==> times[i] <= times[j]
  }

  /** What the exporter saw at its i-th call. */
  function Seen(source: Timeline, times: seq<nat>): nat -> Bucket {
    (i: nat) => if i < |times| then source(times[i]) else map[]
  }

  /** All pinned versions are the current ones of this bucket. */
  ghost predicate Pictures(objects: seq<ManifestObject>, b: Bucket) {
    forall i :: 0 <= i < |objects| ==>
      Head(b, objects[i].key).Some? && Head(b, objects[i].key).value.versionId == Some(objects[i].versionId)
  }

  // ---------------------------------------------------------------------------
  // The life of a pinned version
  // ---------------------------------------------------------------------------

  /** How many versions the i-th key had when its head was read; the last of them is the pinned one. */
  function PinnedCount(source: Timeline, keys: seq<string>, times: seq<nat>, i: nat): nat
    requires i < |keys| && |times| == |keys|
  {
    |VersionsOf(source(times[i]), keys[i])|
  }

  /** The i-th pinned version exists at t. */
  ghost predicate Created(source: Timeline, keys: seq<string>, times: seq<nat>, i: nat, t: nat)
    requires i < |keys| && |times| == |keys|
  {
    |VersionsOf(source(t), keys[i])| >= PinnedCount(source, keys, times, i)
  }

  /** A newer version, or a delete marker, covers the i-th pinned version at t. */
  ghost predicate Superseded(source: Timeline, keys: seq<string>, times: seq<nat>, i: nat, t: nat)
    requires i < |keys| && |times| == |keys|
  {
    |VersionsOf(source(t), keys[i])| > PinnedCount(source, keys, times, i)
  }

  ghost predicate AllCreated(source: Timeline, keys: seq<string>, times: seq<nat>, t: nat)
    requires |times| == |keys|
  {
    forall i :: 0 <= i < |keys| ==> Created(source, keys, times, i, t)
  }

  /** Whenever a pinned version is already covered, all the others had been created at an earlier instant: none is
      covered before, or just when, another one comes into being. */
  ghost predicate Overlapping(source: Timeline, keys: seq<string>, times: seq<nat>)
    requires |times| == |keys|
  {
    forall i: nat, t: nat :: i < |keys| && Superseded(source, keys, times, i, t) ==>
      t > 0 && AllCreated(source, keys, times, t - 1)
  }

  /** A key is pictured at t exactly while its pinned version exists and is not covered. */
  lemma PicturedWhileCurrent(source: Timeline, keys: seq<string>, refs: seq<StorageReference>, times: seq<nat>,
                             objects: seq<ManifestObject>, i: nat, t: nat)
    requires Growing(source) && Export(keys, times) && |objects| == |keys| && i < |keys|
    requires Pins(objects, keys, refs, Seen(source, times))
    ensures objects[i].key == keys[i]
    ensures Head(source(t), keys[i]).Some? && Head(source(t), keys[i]).value.versionId == Some(objects[i].versionId)
      <==> Created(source, keys, times, i, t) && !Superseded(source, keys, times, i, t)
  {
    var key, before := keys[i], source(times[i]);
    assert Pinnable(Seen(source, times)(i), key);
    var pinned, now := VersionsOf(before, key), VersionsOf(source(t), key);
    var n := |pinned|;
    assert pinned[n - 1].versionId == Some(objects[i].versionId);
    assert Grows(source(if t <= times[i] then t else times[i]), source(if t <= times[i] then times[i] else t), key);
    if t <= times[i] {
      assert now <= pinned && UniqueIds(before, key);
      if 0 < |now| < n { assert now[|now| - 1] == pinned[|now| - 1]; }
    } else {
      assert pinned <= now && UniqueIds(source(t), key);
      if |now| > n { assert now[n - 1] == pinned[n - 1]; }
    }
  }

  lemma PicturesIffCurrent(source: Timeline, keys: seq<string>, refs: seq<StorageReference>, times: seq<nat>,
                           objects: seq<ManifestObject>, t: nat)
    requires Growing(source) && Export(keys, times) && |objects| == |keys|
    requires Pins(objects, keys, refs, Seen(source, times))
    ensures Pictures(objects, source(t)) <==>
      forall i :: 0 <= i < |keys| ==> Created(source, keys, times, i, t) && !Superseded(source, keys, times, i, t)
  {
    forall i | 0 <= i < |keys|
      ensures objects[i].key == keys[i]
      ensures Head(source(t), keys[i]).Some? && Head(source(t), keys[i]).value.versionId == Some(objects[i].versionId)
        <==> Created(source, keys, times, i, t) && !Superseded(source, keys, times, i, t)
    {
      PicturedWhileCurrent(source, keys, refs, times, objects, i, t);
    }
  }

  lemma CreatedStays(source: Timeline, keys: seq<string>, times: seq<nat>, i: nat, s: nat, t: nat)
    requires Growing(source) && |times| == |keys| && i < |keys| && s <= t
    ensures Created(source, keys, times, i, s) ==> Created(source, keys, times, i, t)
    ensures Superseded(source, keys, times, i, s) ==> Superseded(source, keys, times, i, t)
  {
    assert Grows(source(s), source(t), keys[i]);
  }

  /** The first instant at which all pinned versions exist. */
  lemma {:induction false} FirstAllCreated(source: Timeline, keys: seq<string>, times: seq<nat>,
                                           t: nat) returns (first: nat)
    requires |times| == |keys| && AllCreated(source, keys, times, t)
    ensures AllCreated(source, keys, times, first) && (first > 0 ==> !AllCreated(source, keys, times, first - 1))
  {
    if t > 0 && AllCreated(source, keys, times, t - 1) {
      first := FirstAllCreated(source, keys, times, t - 1);
    } else {
      first := t;
    }
  }

  lemma LastCallSeesAll(source: Timeline, keys: seq<string>, times: seq<nat>) returns (t: nat)
    requires Growing(source) && Export(keys, times)
    ensures AllCreated(source, keys, times, t)
  {
    t := if times == [] then 0 else times[|times| - 1];
    forall i | 0 <= i < |keys| ensures Created(source, keys, times, i, t) {
      CreatedStays(source, keys, times, i, times[i], t);
    }
  }

  /** The declaration "storage_snapshot_consistent" is true of an exported manifest, that is, the source looked like
      that at some instant, if and only if the lives of the pinned versions overlap: none was covered before, or
      just when, another one was created. */
  lemma SnapshotConsistentIff(source: Timeline, keys: seq<string>, refs: seq<StorageReference>, times: seq<nat>,
                              objects: seq<ManifestObject>)
    requires Growing(source) && Export(keys, times) && |objects| == |keys|
    requires Pins(objects, keys, refs, Seen(source, times))
    ensures (exists t :: Pictures(objects, source(t))) <==> Overlapping(source, keys, times)
  {
    if t :| Pictures(objects, source(t)) {
      PicturesIffCurrent(source, keys, refs, times, objects, t);
      forall i: nat, u: nat | i < |keys| && Superseded(source, keys, times, i, u)
        ensures u > 0 && AllCreated(source, keys, times, u - 1)
      {
        if u <= t { CreatedStays(source, keys, times, i, u, t); }
        assert u > t;
        var v: nat := u - 1;
        forall j | 0 <= j < |keys| ensures Created(source, keys, times, j, v) {
          CreatedStays(source, keys, times, j, t, v);
        }
      }
    }
    if Overlapping(source, keys, times) {
      var last := LastCallSeesAll(source, keys, times);
      var t := FirstAllCreated(source, keys, times, last);
      forall i | 0 <= i < |keys| ensures Created(source, keys, times, i, t) && !Superseded(source, keys, times, i, t) {
        assert Created(source, keys, times, i, t);
      }
      PicturesIffCurrent(source, keys, refs, times, objects, t);
    }
  }

  /** What an operator can arrange: if no referenced key is written between the first head call and the last, the
      declaration is true. */
  lemma QuietExportIsConsistent(source: Timeline, keys: seq<string>, refs: seq<StorageReference>, times: seq<nat>,
                                objects: seq<ManifestObject>)
    requires Growing(source) && Export(keys, times) && |objects| == |keys| && keys != []
    requires Pins(objects, keys, refs, Seen(source, times))
    requires forall i :: 0 <= i < |keys| ==>
      VersionsOf(source(times[0]), keys[i]) == VersionsOf(source(times[|times| - 1]), keys[i])
    ensures Pictures(objects, source(times[0])) && Overlapping(source, keys, times)
  {
    forall i | 0 <= i < |keys|
      ensures Created(source, keys, times, i, times[0]) && !Superseded(source, keys, times, i, times[0])
    {
      assert Grows(source(times[0]), source(times[i]), keys[i]);
      assert Grows(source(times[i]), source(times[|times| - 1]), keys[i]);
    }
    PicturesIffCurrent(source, keys, refs, times, objects, times[0]);
    SnapshotConsistentIff(source, keys, refs, times, objects);
  }

  // ---------------------------------------------------------------------------
  // A manifest that pictures no instant
  // ---------------------------------------------------------------------------

  function Stored(id: string): seq<Version> { [Version(Some(id), [], false)] }

  /** First "a" is rewritten, then "b". */
  function TwoRewrites(t: nat): Bucket {
    if t == 0 then map["a" := Stored("a1"), "b" := Stored("b1")]
    else if t == 1 then map["a" := Stored("a1") + Stored("a2"), "b" := Stored("b1")]
    else map["a" := Stored("a1") + Stored("a2"), "b" := Stored("b1") + Stored("b2")]
  }

  lemma IdsDiffer()
    ensures "a1" != "a2" && "b1" != "b2" && "a" != "b"
  {
    assert "a1"[1] != "a2"[1] && "b1"[1] != "b2"[1] && "a"[0] != "b"[0];
  }

  lemma TwoRewritesGrow()
    ensures Growing(TwoRewrites)
  {
    IdsDiffer();
    assert forall t, key :: key in TwoRewrites(t) ==> key == "a" || key == "b";
  }

  /** With the head of "a" read before both rewrites and the head of "b" after both, no instant ever looked like the
      manifest: "a" had its pinned version only before "b" got its own. */
  lemma NoInstantPictured(objects: seq<ManifestObject>, refs: seq<StorageReference>)
    requires Pins(objects, ["a", "b"], refs, Seen(TwoRewrites, [0, 2])) && |objects| == 2
    ensures forall t :: !Pictures(objects, TwoRewrites(t))
    ensures !Overlapping(TwoRewrites, ["a", "b"], [0, 2])
  {
    var keys, times := ["a", "b"], [0, 2];
    TwoRewritesGrow();
    IdsDiffer();
    assert Export(keys, times);
    assert VersionsOf(TwoRewrites(0), "a") == Stored("a1") && |VersionsOf(TwoRewrites(1), "a")| == 2;
    assert |VersionsOf(TwoRewrites(2), "b")| == 2 && |VersionsOf(TwoRewrites(0), "b")| == 1;
    assert Superseded(TwoRewrites, keys, times, 0, 1);
    assert !Created(TwoRewrites, keys, times, 1, 0);
    assert !AllCreated(TwoRewrites, keys, times, 0);
    SnapshotConsistentIff(TwoRewrites, keys, refs, times, objects);
  }

  lemma RewrittenHeads()
    ensures AllPinnable(["a", "b"], Seen(TwoRewrites, [0, 2]))
  {
    var seen := Seen(TwoRewrites, [0, 2]);
    IdsDiffer();
    assert Tidy("a1") && Tidy("b2");
    TidyStrips("a1");
    TidyStrips("b2");
    assert seen(0) == TwoRewrites(0) && seen(1) == TwoRewrites(2);
    assert Head(seen(0), "a") == Some(Version(Some("a1"), [], false));
    assert Head(seen(1), "b") == Some(Version(Some("b2"), [], false));
    var keys := ["a", "b"];
    assert keys[0] == "a" && keys[1] == "b";
    assert Pinnable(seen(0), keys[0]) && Pinnable(seen(1), keys[1]);
  }

  const TWO_EXPORTS: seq<ExportReference> := [ExportReference("o", "p", "x", "a"), ExportReference("o", "p", "y", "b")]

  /** Such an export goes through, and declares itself consistent. */
  method ExportDuringRewrites() returns (r: Result<Manifest, ExportError>)
    ensures r.Ok? && r.value.snapshotConsistent
    ensures forall t :: !Pictures(r.value.objects, TwoRewrites(t))
  {
    r := ExportManifest([], TWO_EXPORTS, "bucket", Seen(TwoRewrites, [0, 2]));
    TwoKeys();
    RewrittenHeads();
    NoInstantPictured(r.value.objects, LoadReferences([], TWO_EXPORTS));
  }

  lemma TwoKeys()
    ensures KeysOf(LoadReferences([], TWO_EXPORTS)) == ["a", "b"]
  {
    var refs := LoadReferences([], TWO_EXPORTS);
    KeysOfExact(refs);
    forall k | k in KeysOf(refs) ensures k in ["a", "b"] {
      var r :| r in refs && r.storageKey == k;
      OnlyLoaded(TWO_EXPORTS, r);
    }
    assert TWO_EXPORTS[0] in TWO_EXPORTS && TWO_EXPORTS[1] in TWO_EXPORTS;
    ReferenceLoaded([], TWO_EXPORTS, FromExport(TWO_EXPORTS[0]));
    ReferenceLoaded([], TWO_EXPORTS, FromExport(TWO_EXPORTS[1]));
    assert Less("a", "b");
    IncreasingIsUnique(KeysOf(refs), ["a", "b"]);
  }

  lemma OnlyLoaded(exports: seq<ExportReference>, r: StorageReference)
    requires r in LoadReferences([], exports)
    ensures exists x :: x in exports && FromExport(x) == r
  {
    var all := References([], exports);
    SortRefsOrdered(all);
    assert r in multiset(SortRefs(all));
    var i :| 0 <= i < |all| && all[i] == r;
    assert exports[i] in exports;
  }
}
