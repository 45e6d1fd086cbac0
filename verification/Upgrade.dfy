/** The defaults v0.3.0 persisted, the patches that correct them, and which patches
    survive the write they are part of. */
module Upgrades {
  import opened Prelude
  import opened MergePatch

  // ---------------------------------------------------------------------
  // Structural defaulting
  // ---------------------------------------------------------------------

  datatype Schema = Schema(default: Option<Json>, properties: map<Key, Schema>)

  /** Fills in missing members from the schema, descending only into objects that
      are there. */
  function Defaulted(doc: Json, s: Schema): Json
    decreases s
  {
    if !doc.Object? then doc
    else
      Object(map k | k in doc.members.Keys + s.properties.Keys && (k in doc.members || s.properties[k].default.Some?) ::
               if k !in s.properties then doc.members[k]
               else Defaulted(if k in doc.members then doc.members[k] else s.properties[k].default.value,
                   s.properties[k]))
  }

  lemma DefaultedMember(doc: Json, s: Schema, k: Key)
    requires doc.Object?
    ensures Defaulted(doc, s).Object?
    ensures Member(Defaulted(doc, s), k)
         == if k !in s.properties then Member(doc, k)
            else if k in doc.members then Some(Defaulted(doc.members[k], s.properties[k]))
            else if s.properties[k].default.Some? then Some(Defaulted(s.properties[k].default.value, s.properties[k]))
            else None
  {
  }

  /** The default a schema declares for the end of a path. */
  function LeafDefault(s: Schema, path: Path): Option<Json>
    requires path != []
    decreases path
  {
    if path[0] !in s.properties then None
    else
      var p := s.properties[path[0]];
      if |path| > 1 then LeafDefault(p, path[1..])
      else if p.default.None? then None
      else Some(Defaulted(p.default.value, p))
  }

  /** One write: the patch is merged, then the schema's defaults are applied. */
  function Stored(doc: Json, patch: Json, s: Schema): Json {
    Defaulted(Merge(doc, patch), s)
  }

  /** A value that was set survives every schema; a removed key comes back exactly
      as the schema defaults it. */
  lemma {:induction false} StoredLeaf(doc: Json, path: Path, leaf: Json, s: Schema)
    requires path != [] && Scalar(leaf)
    ensures Lookup(Stored(doc, PatchAt(path, leaf), s), path) == if leaf.Null? then LeafDefault(s, path) else Some(leaf)
    decreases |path|
  {
    var k := path[0];
    MergedMember(doc, PatchAt(path, leaf), k);
    DefaultedMember(Merge(doc, PatchAt(path, leaf)), s, k);
    PatchedLeaf(doc, path, leaf);
    if |path| > 1 && k in s.properties {
      StoredLeaf(Member(doc, k).GetOr(Null), path[1..], leaf, s.properties[k]);
    }
  }

  /** No block that encloses the end of the path has a default of its own. */
  predicate BlocksAreUndefaulted(s: Schema, path: Path) {
    |path| > 1 && path[0] in s.properties ==>
      s.properties[path[0]].default.None? && BlocksAreUndefaulted(s.properties[path[0]], path[1..])
  }

  /** A nested default reaches exactly the documents in which every enclosing block
      is open and the leaf is missing. */
  lemma {:induction false} DefaultsReachOpenBlocks(doc: Json, path: Path, s: Schema)
    requires path != [] && BlocksAreUndefaulted(s, path)
    ensures Lookup(doc, path).Some? && Scalar(Lookup(doc, path).value) ==>
              Lookup(Defaulted(doc, s), path) == Lookup(doc, path)
    ensures Lookup(doc, path).None? ==>
              Lookup(Defaulted(doc, s), path) == if BlocksAreObjects(doc, path) then LeafDefault(s, path) else None
    decreases |path|
  {
    if doc.Object? {
      var k := path[0];
      DefaultedMember(doc, s, k);
      assert |path| == 1 ==> path[1..] == [] && forall m: Json :: Lookup(m, path[1..]) == Some(m);
      if |path| > 1 && k in doc.members && k in s.properties {
        DefaultsReachOpenBlocks(doc.members[k], path[1..], s.properties[k]);
      } else if |path| > 1 && k in doc.members {
        LookupNeedsBlocks(doc.members[k], path[1..]);
      }
    }
  }

  lemma {:induction false} LookupNeedsBlocks(doc: Json, path: Path)
    requires path != []
    ensures Lookup(doc, path).Some? ==> BlocksAreObjects(doc, path)
    decreases |path|
  {
    if |path| > 1 && doc.Object? && path[0] in doc.members {
      LookupNeedsBlocks(doc.members[path[0]], path[1..]);
    }
  }

  // ---------------------------------------------------------------------
  // The table
  // ---------------------------------------------------------------------

  datatype Kind = StreamlineCluster | StreamlineTopic

  datatype Remediation = SetValue | RemoveKey

  datatype LegacyDefault = LegacyDefault(
    kind: Kind, field: Path, parent: Option<Path>, legacy: Json, supported: Json,
    remediation: Remediation, mergePatch: Json)
  {
    predicate NeedsCorrectedCrdsFirst() {
      remediation.RemoveKey?
    }

    /** What the leaf should be after the patch. */
    function Target(): Option<Json> {
      if supported.Null? then None else Some(supported)
    }
  }

  const CLUSTER_REPLICAS := LegacyDefault(
    StreamlineCluster, [Spec, Replicas], None, Number(3), Number(1), SetValue,
    Object(map[Spec := Object(map[Replicas := Number(1)])]))

  const POD_ANTI_AFFINITY := LegacyDefault(
    StreamlineCluster, [Spec, PodAntiAffinity], None, Bool(true), Bool(false), SetValue,
    Object(map[Spec := Object(map[PodAntiAffinity := Bool(false)])]))

  const REPLICATION_FACTOR := LegacyDefault(
    StreamlineTopic, [Spec, ReplicationFactor], None, Number(2), Number(1), SetValue,
    Object(map[Spec := Object(map[ReplicationFactor := Number(1)])]))

  const RETENTION_MS := LegacyDefault(
    StreamlineTopic, [Spec, Retention, RetentionMs], Some([Spec, Retention]), Number(604_800_000), Number(-1), SetValue,
    Object(map[Spec := Object(map[Retention := Object(map[RetentionMs := Number(-1)])])]))

  const MIN_INSYNC_REPLICAS := LegacyDefault(
    StreamlineTopic, [Spec, Config, MinInsyncReplicas], Some([Spec, Config]), Number(1), Null, RemoveKey,
    Object(map[Spec := Object(map[Config := Object(map[MinInsyncReplicas := Null])])]))

  const MAX_MESSAGE_BYTES := LegacyDefault(
    StreamlineTopic, [Spec, Config, MaxMessageBytes], Some([Spec, Config]), Number(1_048_576), Null, RemoveKey,
    Object(map[Spec := Object(map[Config := Object(map[MaxMessageBytes := Null])])]))

  const LEGACY_DEFAULTS: seq<LegacyDefault> := [
    CLUSTER_REPLICAS, POD_ANTI_AFFINITY, REPLICATION_FACTOR, RETENTION_MS, MIN_INSYNC_REPLICAS, MAX_MESSAGE_BYTES]

  function FindEntry(table: seq<LegacyDefault>, field: Path): (r: Option<LegacyDefault>)
    ensures r.Some? ==> r.value in table && r.value.field == field
    ensures r.None? ==> forall e <- table :: e.field != field
  {
    if table == [] then None
    else if table[0].field == field then Some(table[0])
    else FindEntry(table[1..], field)
  }

  /** The fix a rejection carries, and whether it blames the v0.3.0 default. */
  datatype Remedy = Remedy(entry: LegacyDefault, blamesUpgrade: bool)

  function RemedyFor(field: Path, observedIsLegacy: bool): Option<Remedy> {
    var entry := FindEntry(LEGACY_DEFAULTS, field);
    if entry.None? then None else Some(Remedy(entry.value, observedIsLegacy))
  }

  function RemedyForValue(field: Path, observed: Json): Option<Remedy> {
    var entry := FindEntry(LEGACY_DEFAULTS, field);
    if entry.None? then None else Some(Remedy(entry.value, observed == entry.value.legacy))
  }

  lemma TabledShape(e: LegacyDefault)
    requires e in LEGACY_DEFAULTS
    ensures |e.field| in {2, 3} && e.field[0] == Spec && Scalar(e.supported) && e.legacy != e.supported
    ensures e.parent == if |e.field| == 2 then None else Some([Spec, e.field[1]])
    ensures e.remediation.RemoveKey? <==> e.supported.Null?
    ensures e.mergePatch
         == Object(map[Spec := if |e.field| == 2 then Object(map[e.field[1] := e.supported])
                               else Object(map[e.field[1] := Object(map[e.field[2] := e.supported])])])
  {
  }

  lemma {:induction false} NestedPatch(path: Path, leaf: Json)
    requires |path| in {2, 3}
    ensures PatchAt(path, leaf)
         == Object(map[path[0] := if |path| == 2 then Object(map[path[1] := leaf])
                                  else Object(map[path[1] := Object(map[path[2] := leaf])])])
  {
    var rest := path[1..];
    assert rest[0] == path[1];
    if |path| == 2 {
      assert rest[1..] == [];
      assert PatchAt(rest, leaf) == Object(map[path[1] := leaf]);
    } else {
      assert rest[1..][0] == path[2] && rest[1..][1..] == [];
      assert PatchAt(rest[1..], leaf) == Object(map[path[2] := leaf]);
      assert PatchAt(rest, leaf) == Object(map[path[1] := PatchAt(rest[1..], leaf)]);
    }
  }

  /** The table is what its comments say: each patch writes its own leaf and nothing
      wider, changes the value, removes exactly when there is no supported value, and
      names the block it sits in. */
  lemma TableIsConsistent(e: LegacyDefault)
    requires e in LEGACY_DEFAULTS
    ensures |e.field| > 1 && Scalar(e.supported) && e.legacy != e.supported
    ensures e.mergePatch == PatchAt(e.field, e.supported)
    ensures e.remediation.RemoveKey? <==> e.supported.Null?
    ensures e.parent == if |e.field| == 2 then None else Some(e.field[..|e.field| - 1])
    ensures FindEntry(LEGACY_DEFAULTS, e.field) == Some(e)
  {
    TabledShape(e);
    NestedPatch(e.field, e.supported);
    assert |e.field| == 3 ==> e.field[..2] == [Spec, e.field[1]];
    EntryIsFound(e);
  }

  lemma EntryIsFound(e: LegacyDefault)
    requires e in LEGACY_DEFAULTS
    ensures FindEntry(LEGACY_DEFAULTS, e.field) == Some(e)
  {
    FindsIt(LEGACY_DEFAULTS, e);
    TabledFieldsDiffer(FindEntry(LEGACY_DEFAULTS, e.field).value, e);
  }

  lemma {:induction false} FindsIt(table: seq<LegacyDefault>, e: LegacyDefault)
    requires e in table
    ensures FindEntry(table, e.field).Some?
  {
  }

  lemma TabledFieldsDiffer(d: LegacyDefault, e: LegacyDefault)
    requires d in LEGACY_DEFAULTS && e in LEGACY_DEFAULTS
    ensures d != e ==> d.field[|d.field| - 1] != e.field[|e.field| - 1] && d.field[1] != e.field[|e.field| - 1]
  {
  }

  /** No tabled field lies on the way to another. */
  lemma TabledFieldsAreApart(d: LegacyDefault, e: LegacyDefault)
    requires d in LEGACY_DEFAULTS && e in LEGACY_DEFAULTS && d != e
    ensures !IsPrefix(d.field, e.field)
  {
    TabledShape(d);
    TabledShape(e);
    TabledFieldsDiffer(d, e);
    PrefixAt(d.field, e.field, |d.field| - 1);
  }

  lemma {:induction false} PrefixAt(p: Path, q: Path, k: nat)
    requires k < |p|
    ensures IsPrefix(p, q) ==> |p| <= |q| && p[k] == q[k]
  {
    if q != [] && k > 0 {
      PrefixAt(p[1..], q[1..], k - 1);
    } else if q != [] && |p| > 1 {
      PrefixAt(p[1..], q[1..], 0);
    }
  }

  // ---------------------------------------------------------------------
  // The patches
  // ---------------------------------------------------------------------

  function PatchesOf(table: seq<LegacyDefault>, kind: Kind): seq<Json> {
    if table == [] then []
    else (if table[0].kind == kind then [table[0].mergePatch] else []) + PatchesOf(table[1..], kind)
  }

  lemma {:induction false} EntryOf(table: seq<LegacyDefault>, kind: Kind, p: Json) returns (e: LegacyDefault)
    requires p in PatchesOf(table, kind)
    ensures e in table && e.kind == kind && p == e.mergePatch
  {
    if p in PatchesOf(table[1..], kind) {
      e := EntryOf(table[1..], kind, p);
    } else {
      e := table[0];
    }
  }

  lemma TabledPatchesAgree(d: LegacyDefault, e: LegacyDefault)
    requires d in LEGACY_DEFAULTS && e in LEGACY_DEFAULTS
    ensures Agree(d.mergePatch, e.mergePatch)
  {
    if d != e {
      TableIsConsistent(d);
      TableIsConsistent(e);
      TabledFieldsAreApart(d, e);
      TabledFieldsAreApart(e, d);
      LeafPatchesAgree(d.field, d.supported, e.field, e.supported);
    }
  }

  /** All the patches of a kind, applied in any order, give one document. */
  lemma PatchOrderIsIrrelevant(kind: Kind, doc: Json, order: seq<Json>)
    requires multiset(order) == multiset(PatchesOf(LEGACY_DEFAULTS, kind))
    ensures MergeAll(doc, order) == MergeAll(doc, PatchesOf(LEGACY_DEFAULTS, kind))
  {
    var patches := PatchesOf(LEGACY_DEFAULTS, kind);
    forall j, k | 0 <= j < k < |patches|
      ensures Agree(patches[j], patches[k])
    {
      var d := EntryOf(LEGACY_DEFAULTS, kind, patches[j]);
      var e := EntryOf(LEGACY_DEFAULTS, kind, patches[k]);
      TabledPatchesAgree(d, e);
    }
    AnyOrderGivesOneDocument(doc, patches, order);
  }

  /** Any two tabled patches commute on every document. */
  lemma TabledPatchesCommute(d: LegacyDefault, e: LegacyDefault, doc: Json)
    requires d in LEGACY_DEFAULTS && e in LEGACY_DEFAULTS
    ensures Merge(Merge(doc, d.mergePatch), e.mergePatch) == Merge(Merge(doc, e.mergePatch), d.mergePatch)
  {
    TabledPatchesAgree(d, e);
    AgreeingPatchesCommute(doc, d.mergePatch, e.mergePatch);
  }

  /** A tabled patch writes its own leaf and leaves every path that is not on the way
      to it alone, on every document; where the enclosing blocks are objects, those
      blocks keep their members too. */
  lemma TabledPatchIsFramed(e: LegacyDefault, doc: Json, q: Path)
    requires e in LEGACY_DEFAULTS
    ensures Lookup(Merge(doc, e.mergePatch), e.field) == e.Target()
    ensures !IsPrefix(q, e.field) && !IsPrefix(e.field, q) ==> Lookup(Merge(doc, e.mergePatch), q) == Lookup(doc, q)
    ensures BlocksAreObjects(doc, e.field) && IsPrefix(q, e.field) && |q| < |e.field| ==>
              var before, after := Lookup(doc, q), Lookup(Merge(doc, e.mergePatch), q);
              && before.Some? && after.Some? && before.value.Object? && after.value.Object?
              && forall k | k != e.field[|q|] || |q| + 1 < |e.field| ::
                   k in before.value.members <==> k in after.value.members
  {
    TableIsConsistent(e);
    PatchedLeaf(doc, e.field, e.supported);
    if !IsPrefix(q, e.field) && !IsPrefix(e.field, q) {
      PatchLeavesOthers(doc, e.field, e.supported, q);
    }
    if BlocksAreObjects(doc, e.field) && IsPrefix(q, e.field) && |q| < |e.field| {
      PatchKeepsBlocks(doc, e.field, e.supported, q);
    }
  }

  /** A tabled patch sticks exactly when it sets a value or the schema has stopped
      defaulting the key, for every document and every schema. */
  lemma PatchSticksExactly(e: LegacyDefault, doc: Json, s: Schema)
    requires e in LEGACY_DEFAULTS
    ensures Lookup(Stored(doc, e.mergePatch, s), e.field) == e.Target()
       <==> e.remediation.SetValue? || LeafDefault(s, e.field).None?
  {
    TableIsConsistent(e);
    StoredLeaf(doc, e.field, e.supported, s);
  }

  /** A v0.3.0 schema, whatever else it holds: it defaults every tabled field of its
      kind to the legacy value, and gives no enclosing block a default. */
  predicate IsV030(s: Schema, kind: Kind) {
    forall e <- LEGACY_DEFAULTS | e.kind == kind ::
      |e.field| > 1 && LeafDefault(s, e.field) == Some(e.legacy) && BlocksAreUndefaulted(s, e.field)
  }

  /** A corrected schema, whatever else it holds: it defaults no field whose only
      supported state is absence. */
  predicate IsCorrected(s: Schema, kind: Kind) {
    forall e <- LEGACY_DEFAULTS | e.kind == kind && e.remediation.RemoveKey? ::
      |e.field| > 1 && LeafDefault(s, e.field).None?
  }

  /** Under v0.3.0 the entries that need the corrected definitions first are exactly
      those whose patch leaves the legacy value in place, even on documents that had
      never opened the block; under corrected definitions every patch sticks. */
  lemma NeedsCorrectedCrdsFirstIsExact(e: LegacyDefault, doc: Json, legacy: Schema, corrected: Schema)
    requires e in LEGACY_DEFAULTS && IsV030(legacy, e.kind) && IsCorrected(corrected, e.kind)
    ensures Lookup(Stored(doc, e.mergePatch, legacy), e.field)
         == if e.NeedsCorrectedCrdsFirst() then Some(e.legacy) else e.Target()
    ensures e.NeedsCorrectedCrdsFirst() <==> Lookup(Stored(doc, e.mergePatch, legacy), e.field) != e.Target()
    ensures Lookup(Stored(doc, e.mergePatch, corrected), e.field) == e.Target()
  {
    TableIsConsistent(e);
    StoredLeaf(doc, e.field, e.supported, legacy);
    StoredLeaf(doc, e.field, e.supported, corrected);
  }

  predicate HasSpec(doc: Json) {
    doc.Object? && Spec in doc.members && doc.members[Spec].Object?
  }

  lemma BlocksUnderSpec(doc: Json, path: Path)
    requires HasSpec(doc) && |path| in {2, 3} && path[0] == Spec
    ensures BlocksAreObjects(doc, path)
       <==> |path| == 2
            || (Member(doc.members[Spec], path[1]).Some? && Member(doc.members[Spec], path[1]).value.Object?)
    ensures Lookup(doc, [Spec, path[1]]) == Member(doc.members[Spec], path[1])
  {
    var spec := doc.members[Spec];
    assert BlocksAreObjects(doc, path) <==> BlocksAreObjects(spec, path[1..]);
    assert |path| == 3 && Member(spec, path[1]).Some? ==>
      (BlocksAreObjects(spec, path[1..]) <==> BlocksAreObjects(spec.members[path[1]], path[1..][1..]));
    assert [Spec, path[1]][1..] == [path[1]];
    assert [path[1]][1..] == [];
    assert Member(doc, Spec) == Some(spec);
    assert Lookup(spec, [path[1]]) == Member(spec, path[1]);
  }

  /** What v0.3.0 persisted where a manifest left a tabled field out: a top-level
      default reached every object, a nested one exactly those that opened the
      block. */
  lemma ParentTellsWhatWasPersisted(e: LegacyDefault, doc: Json, legacy: Schema)
    requires e in LEGACY_DEFAULTS && IsV030(legacy, e.kind)
    requires HasSpec(doc) && Lookup(doc, e.field).None?
    ensures Lookup(Defaulted(doc, legacy), e.field) == Some(e.legacy)
       <==> e.parent.None? || (Lookup(doc, e.parent.value).Some? && Lookup(doc, e.parent.value).value.Object?)
  {
    TabledShape(e);
    DefaultsReachOpenBlocks(doc, e.field, legacy);
    BlocksUnderSpec(doc, e.field);
  }

  // ---------------------------------------------------------------------
  // The schemas
  // ---------------------------------------------------------------------

  function Leaf(v: Json): Schema {
    Schema(Some(v), map[])
  }

  const OPTIONAL := Schema(None, map[])

  /** The tabled part of the v0.3.0 topic schema. */
  const V030_TOPIC := Schema(None, map[
    Spec := Schema(None, map[
      ReplicationFactor := Leaf(Number(2)),
      Retention := Schema(None, map[RetentionMs := Leaf(Number(604_800_000))]),
      Config := Schema(None, map[MinInsyncReplicas := Leaf(Number(1)), MaxMessageBytes := Leaf(Number(1_048_576))])])])

  /** The tabled part of the v0.3.0 cluster schema. */
  const V030_CLUSTER := Schema(None, map[
    Spec := Schema(None, map[Replicas := Leaf(Number(3)), PodAntiAffinity := Leaf(Bool(true))])])

  lemma V030ClusterIsV030()
    ensures IsV030(V030_CLUSTER, StreamlineCluster)
  {
    var spec := V030_CLUSTER.properties[Spec];
    forall e <- LEGACY_DEFAULTS | e.kind == StreamlineCluster
      ensures |e.field| > 1 && LeafDefault(V030_CLUSTER, e.field) == Some(e.legacy)
      ensures BlocksAreUndefaulted(V030_CLUSTER, e.field)
    {
      assert e.field[1..] == [e.field[1]];
      assert LeafDefault(V030_CLUSTER, e.field) == LeafDefault(spec, [e.field[1]]);
      assert BlocksAreUndefaulted(spec, [e.field[1]]);
    }
  }

  /** The topic schema this release installs. */
  const CORRECTED_TOPIC := Schema(None, map[
    Spec := Schema(None, map[
      ClusterRef := OPTIONAL,
      Partitions := Leaf(Number(3)),
      ReplicationFactor := Leaf(Number(1)),
      Retention := Schema(
        Some(Object(map[CleanupPolicy := String("delete"), RetentionBytes := Number(-1), RetentionMs := Number(-1)])),
        map[CleanupPolicy := Leaf(String("delete")), RetentionBytes := Leaf(Number(-1)),
            RetentionMs := Leaf(Number(-1))]),
      Compression := Schema(Some(Object(map[Type := String("producer")])), map[Type := Leaf(String("producer"))]),
      Config := Schema(
        Some(Object(map[Custom := Object(map[]), FlushIntervalMs := Null, FlushMessages := Null,
            IndexIntervalBytes := Null,
                        MaxMessageBytes := Null, MinInsyncReplicas := Null, SegmentBytes := Null])),
        map[Custom := Leaf(Object(map[])), FlushIntervalMs := OPTIONAL, FlushMessages := OPTIONAL,
            IndexIntervalBytes := OPTIONAL, MaxMessageBytes := OPTIONAL, MinInsyncReplicas := OPTIONAL,
            SegmentBytes := OPTIONAL])])])

  lemma V030TopicIsV030()
    ensures IsV030(V030_TOPIC, StreamlineTopic)
  {
    var spec := V030_TOPIC.properties[Spec];
    forall e <- LEGACY_DEFAULTS | e.kind == StreamlineTopic
      ensures |e.field| > 1 && LeafDefault(V030_TOPIC, e.field) == Some(e.legacy)
      ensures BlocksAreUndefaulted(V030_TOPIC, e.field)
    {
      assert LeafDefault(V030_TOPIC, e.field) == LeafDefault(spec, e.field[1..]);
      if |e.field| == 3 {
        assert e.field[1..][1..] == [e.field[2]];
        assert LeafDefault(spec, e.field[1..]) == LeafDefault(spec.properties[e.field[1]], [e.field[2]]);
        assert BlocksAreUndefaulted(spec.properties[e.field[1]], [e.field[2]]);
        assert BlocksAreUndefaulted(spec, e.field[1..]);
      } else {
        assert e.field[1..] == [e.field[1]];
        assert BlocksAreUndefaulted(spec, [e.field[1]]);
      }
    }
  }

  lemma CorrectedTopicIsCorrected()
    ensures IsCorrected(CORRECTED_TOPIC, StreamlineTopic)
  {
    var spec := CORRECTED_TOPIC.properties[Spec];
    var config := spec.properties[Config];
    forall e <- LEGACY_DEFAULTS | e.kind == StreamlineTopic && e.remediation.RemoveKey?
      ensures |e.field| > 1 && LeafDefault(CORRECTED_TOPIC, e.field).None?
    {
      assert e.field[1..][1..] == [e.field[2]];
      assert LeafDefault(CORRECTED_TOPIC, e.field) == LeafDefault(spec, e.field[1..]);
      assert LeafDefault(spec, e.field[1..]) == LeafDefault(config, [e.field[2]]);
    }
  }
}
