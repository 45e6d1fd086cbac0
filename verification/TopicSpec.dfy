/** Topic specs: reading one from a document, the settings the server cannot honour,
    and what the documented patches do to that list. */
module TopicSpecs {
  import opened Prelude
  import opened MergePatch
  import opened Upgrades

  type I32 = x: int | -0x8000_0000 <= x < 0x8000_0000
  type I64 = x: int | -0x8000_0000_0000_0000 <= x < 0x8000_0000_0000_0000

  datatype TopicConfig = TopicConfig(
    minInsyncReplicas: Option<I32>, maxMessageBytes: Option<I64>, segmentBytes: Option<I64>,
    indexIntervalBytes: Option<I64>, flushIntervalMs: Option<I64>, flushMessages: Option<I64>)

  datatype RetentionConfig = RetentionConfig(retentionMs: I64, retentionBytes: I64, cleanupPolicy: string)

  /** `custom` holds the entries of the ordered map of free-form overrides. */
  datatype TopicSpec = TopicSpec(
    clusterRef: string, partitions: I32, replicationFactor: I32, config: TopicConfig,
    custom: seq<(Key, string)>, retention: RetentionConfig, compressionType: string)

  const NO_CONFIG := TopicConfig(None, None, None, None, None, None)
  const DEFAULT_RETENTION := RetentionConfig(-1, -1, "delete")
  const DEFAULT_COMPRESSION := "producer"

  // ---------------------------------------------------------------------
  // The rejections
  // ---------------------------------------------------------------------

  /** A setting that is refused and the value asked for. */
  datatype Rejection = Rejection(field: Path, requested: Json)

  function When(condition: bool, r: Rejection): seq<Rejection> {
    if condition then [r] else []
  }

  function ConfigEntries(c: TopicConfig): seq<(Key, Option<int>)> {
    [(MinInsyncReplicas, c.minInsyncReplicas), (MaxMessageBytes, c.maxMessageBytes), (SegmentBytes, c.segmentBytes),
     (IndexIntervalBytes, c.indexIntervalBytes), (FlushIntervalMs, c.flushIntervalMs), (FlushMessages, c.flushMessages)]
  }

  function Overrides(entries: seq<(Key, Option<int>)>): seq<Rejection> {
    if entries == [] then []
    else
      When(entries[0].1.Some?, Rejection([Spec, Config, entries[0].0], Number(entries[0].1.GetOr(0))))
      + Overrides(entries[1..])
  }

  function CustomOverrides(custom: seq<(Key, string)>): seq<Rejection> {
    if custom == [] then []
    else [Rejection([Spec, Config, Custom, custom[0].0], String("set"))] + CustomOverrides(custom[1..])
  }

  function ReplicationRejections(spec: TopicSpec): seq<Rejection> {
    When(spec.replicationFactor != 1, Rejection([Spec, ReplicationFactor], Number(spec.replicationFactor)))
    + When(spec.partitions < 1, Rejection([Spec, Partitions], Number(spec.partitions)))
  }

  function SettingRejections(spec: TopicSpec): seq<Rejection> {
    When(spec.retention.retentionMs != -1,
        Rejection([Spec, Retention, RetentionMs], Number(spec.retention.retentionMs)))
    + When(spec.retention.retentionBytes != -1,
           Rejection([Spec, Retention, RetentionBytes], Number(spec.retention.retentionBytes)))
    + When(spec.retention.cleanupPolicy != DEFAULT_RETENTION.cleanupPolicy,
           Rejection([Spec, Retention, CleanupPolicy], String(spec.retention.cleanupPolicy)))
    + When(spec.compressionType != DEFAULT_COMPRESSION,
           Rejection([Spec, Compression, Type], String(spec.compressionType)))
  }

  function Rejections(spec: TopicSpec): seq<Rejection> {
    ReplicationRejections(spec) + SettingRejections(spec)
    + Overrides(ConfigEntries(spec.config)) + CustomOverrides(spec.custom)
  }

  method RejectReplication(spec: TopicSpec) returns (unsupported: seq<Rejection>)
    ensures unsupported == ReplicationRejections(spec)
  {
    unsupported := [];
    if spec.replicationFactor != 1 {
      unsupported := unsupported + [Rejection([Spec, ReplicationFactor], Number(spec.replicationFactor))];
    }
    if spec.partitions < 1 {
      unsupported := unsupported + [Rejection([Spec, Partitions], Number(spec.partitions))];
    }
  }

  method RejectSettings(spec: TopicSpec, soFar: seq<Rejection>) returns (unsupported: seq<Rejection>)
    ensures unsupported == soFar + SettingRejections(spec)
  {
    unsupported := soFar;
    if spec.retention.retentionMs != DEFAULT_RETENTION.retentionMs {
      unsupported := unsupported + [Rejection([Spec, Retention, RetentionMs], Number(spec.retention.retentionMs))];
    }
    if spec.retention.retentionBytes != DEFAULT_RETENTION.retentionBytes {
      unsupported := unsupported + [Rejection([Spec, Retention, RetentionBytes],
          Number(spec.retention.retentionBytes))];
    }
    if spec.retention.cleanupPolicy != DEFAULT_RETENTION.cleanupPolicy {
      unsupported := unsupported + [Rejection([Spec, Retention, CleanupPolicy], String(spec.retention.cleanupPolicy))];
    }
    if spec.compressionType != DEFAULT_COMPRESSION {
      unsupported := unsupported + [Rejection([Spec, Compression, Type], String(spec.compressionType))];
    }
  }

  method RejectOverrides(entries: seq<(Key, Option<int>)>, soFar: seq<Rejection>) returns (unsupported: seq<Rejection>)
    ensures unsupported == soFar + Overrides(entries)
  {
    unsupported := soFar;
    for k := 0 to |entries|
      invariant unsupported + Overrides(entries[k..]) == soFar + Overrides(entries)
    {
      assert entries[k..][1..] == entries[k + 1..];
      if entries[k].1.Some? {
        unsupported := unsupported + [Rejection([Spec, Config, entries[k].0], Number(entries[k].1.value))];
      }
    }
  }

  method RejectCustom(custom: seq<(Key, string)>, soFar: seq<Rejection>) returns (unsupported: seq<Rejection>)
    ensures unsupported == soFar + CustomOverrides(custom)
  {
    unsupported := soFar;
    for k := 0 to |custom|
      invariant unsupported + CustomOverrides(custom[k..]) == soFar + CustomOverrides(custom)
    {
      assert custom[k..][1..] == custom[k + 1..];
      unsupported := unsupported + [Rejection([Spec, Config, Custom, custom[k].0], String("set"))];
    }
  }

  method UnsupportedFields(spec: TopicSpec) returns (unsupported: seq<Rejection>)
    ensures unsupported == Rejections(spec)
    ensures unsupported == [] <==> Supported(spec)
    ensures forall r :: r in unsupported <==> AsksFor(spec, r)
    ensures IsSublist(Fields(unsupported), FIELD_ORDER + CustomFields(spec.custom))
  {
    unsupported := RejectReplication(spec);
    unsupported := RejectSettings(spec, unsupported);
    unsupported := RejectOverrides(ConfigEntries(spec.config), unsupported);
    unsupported := RejectCustom(spec.custom, unsupported);
    EmptyMeansSupported(spec);
    RejectionsExactly(spec);
  }

  // ---------------------------------------------------------------------
  // What an empty list means
  // ---------------------------------------------------------------------

  /** Every setting the server cannot apply is at its default, and the two it can
      apply are in range. */
  predicate Supported(spec: TopicSpec) {
    && spec.replicationFactor == 1 && spec.partitions >= 1
    && spec.config == NO_CONFIG && spec.custom == []
    && spec.retention == DEFAULT_RETENTION && spec.compressionType == DEFAULT_COMPRESSION
  }

  lemma {:induction false} NoOverridesMeansUnset(entries: seq<(Key, Option<int>)>)
    ensures Overrides(entries) == [] <==> forall k | 0 <= k < |entries| :: entries[k].1.None?
  {
    if entries != [] {
      NoOverridesMeansUnset(entries[1..]);
      assert forall k | 0 < k < |entries| :: entries[k] == entries[1..][k - 1];
    }
  }

  lemma EmptyMeansSupported(spec: TopicSpec)
    ensures Rejections(spec) == [] <==> Supported(spec)
  {
    var entries := ConfigEntries(spec.config);
    NoOverridesMeansUnset(entries);
    assert spec.config == NO_CONFIG <==>
      entries[0].1.None? && entries[1].1.None? && entries[2].1.None?
      && entries[3].1.None? && entries[4].1.None? && entries[5].1.None?;
    assert |Rejections(spec)| == |ReplicationRejections(spec)| + |SettingRejections(spec)|
                               + |Overrides(entries)| + |CustomOverrides(spec.custom)|;
  }

  // ---------------------------------------------------------------------
  // Which settings are refused, and in which order
  // ---------------------------------------------------------------------

  /** The spec asks for a setting the server cannot apply, and this refusal tells which one
      and what was asked for. */
  predicate AsksFor(spec: TopicSpec, r: Rejection) {
    var c, kept := spec.config, spec.retention;
    || (r == Rejection([Spec, ReplicationFactor], Number(spec.replicationFactor)) && spec.replicationFactor != 1)
    || (r == Rejection([Spec, Partitions], Number(spec.partitions)) && spec.partitions < 1)
    || (r == Rejection([Spec, Retention, RetentionMs], Number(kept.retentionMs)) && kept.retentionMs != -1)
    || (r == Rejection([Spec, Retention, RetentionBytes], Number(kept.retentionBytes)) && kept.retentionBytes != -1)
    || (r == Rejection([Spec, Retention, CleanupPolicy], String(kept.cleanupPolicy)) && kept.cleanupPolicy != "delete")
    || (r == Rejection([Spec, Compression, Type], String(spec.compressionType)) && spec.compressionType != "producer")
    || Overridden(r, MinInsyncReplicas, c.minInsyncReplicas) || Overridden(r, MaxMessageBytes, c.maxMessageBytes)
    || Overridden(r, SegmentBytes, c.segmentBytes) || Overridden(r, IndexIntervalBytes, c.indexIntervalBytes)
    || Overridden(r, FlushIntervalMs, c.flushIntervalMs) || Overridden(r, FlushMessages, c.flushMessages)
    || (exists e <- spec.custom :: r == Rejection([Spec, Config, Custom, e.0], String("set")))
  }

  predicate Overridden(r: Rejection, key: Key, value: Option<int>) {
    value.Some? && r == Rejection([Spec, Config, key], Number(value.value))
  }

  /** The order of the fields; the free-form overrides come last, in theirs. */
  const FIELD_ORDER: seq<Path> := [
    [Spec, ReplicationFactor], [Spec, Partitions],
    [Spec, Retention, RetentionMs], [Spec, Retention, RetentionBytes], [Spec, Retention, CleanupPolicy],
    [Spec, Compression, Type],
    [Spec, Config, MinInsyncReplicas], [Spec, Config, MaxMessageBytes], [Spec, Config, SegmentBytes],
    [Spec, Config, IndexIntervalBytes], [Spec, Config, FlushIntervalMs], [Spec, Config, FlushMessages]]

  function Fields(rs: seq<Rejection>): seq<Path> {
    if rs == [] then [] else [rs[0].field] + Fields(rs[1..])
  }

  /** The one list is the other with some members left out. */
  predicate IsSublist<T(==)>(xs: seq<T>, ys: seq<T>)
    decreases |ys|
  {
    || xs == []
    || (ys != [] && (IsSublist(xs, ys[1..]) || (xs[0] == ys[0] && IsSublist(xs[1..], ys[1..]))))
  }

  function CustomFields(custom: seq<(Key, string)>): seq<Path> {
    seq(|custom|, k requires 0 <= k < |custom| => [Spec, Config, Custom, custom[k].0])
  }

  lemma {:induction false} OverrideMember(entries: seq<(Key, Option<int>)>, r: Rejection)
    ensures r in Overrides(entries) <==> exists e <- entries :: Overridden(r, e.0, e.1)
  {
    if entries != [] {
      OverrideMember(entries[1..], r);
      assert entries == [entries[0]] + entries[1..];
    }
  }

  lemma {:induction false} CustomMember(custom: seq<(Key, string)>, r: Rejection)
    ensures r in CustomOverrides(custom)
       <==> exists e <- custom :: r == Rejection([Spec, Config, Custom, e.0], String("set"))
  {
    if custom != [] {
      CustomMember(custom[1..], r);
      assert custom == [custom[0]] + custom[1..];
    }
  }

  lemma ConfigMember(c: TopicConfig, r: Rejection)
    ensures r in Overrides(ConfigEntries(c)) <==>
      || Overridden(r, MinInsyncReplicas, c.minInsyncReplicas) || Overridden(r, MaxMessageBytes, c.maxMessageBytes)
      || Overridden(r, SegmentBytes, c.segmentBytes) || Overridden(r, IndexIntervalBytes, c.indexIntervalBytes)
      || Overridden(r, FlushIntervalMs, c.flushIntervalMs) || Overridden(r, FlushMessages, c.flushMessages)
  {
    var entries := ConfigEntries(c);
    OverrideMember(entries, r);
    assert entries[0] in entries && entries[1] in entries && entries[2] in entries;
    assert entries[3] in entries && entries[4] in entries && entries[5] in entries;
  }

  lemma RejectionMember(spec: TopicSpec, r: Rejection)
    ensures r in Rejections(spec) <==> AsksFor(spec, r)
  {
    ConfigMember(spec.config, r);
    CustomMember(spec.custom, r);
  }

  lemma {:induction false} SublistsChain<T>(a: seq<T>, b: seq<T>, x: seq<T>, y: seq<T>)
    requires IsSublist(a, x) && IsSublist(b, y)
    ensures IsSublist(a + b, x + y)
    decreases |x|
  {
    if x == [] {
      assert a + b == b && x + y == y;
    } else {
      assert (x + y)[1..] == x[1..] + y && (x + y)[0] == x[0];
      if a == [] || IsSublist(a, x[1..]) {
        SublistsChain(a, b, x[1..], y);
      } else {
        assert (a + b)[1..] == a[1..] + b && (a + b)[0] == a[0];
        SublistsChain(a[1..], b, x[1..], y);
      }
    }
  }

  lemma {:induction false} FieldsOfConcat(a: seq<Rejection>, b: seq<Rejection>)
    ensures Fields(a + b) == Fields(a) + Fields(b)
  {
    if a == [] {
      assert a + b == b;
    } else {
      assert (a + b)[1..] == a[1..] + b;
      FieldsOfConcat(a[1..], b);
    }
  }

  lemma MayBeField(condition: bool, r: Rejection)
    ensures IsSublist(Fields(When(condition, r)), [r.field])
  {
    assert [r][1..] == [] && [r.field][1..] == [];
  }

  lemma {:induction false} OverrideFields(entries: seq<(Key, Option<int>)>, fields: seq<Path>)
    requires |fields| == |entries| && forall k | 0 <= k < |entries| :: fields[k] == [Spec, Config, entries[k].0]
    ensures IsSublist(Fields(Overrides(entries)), fields)
  {
    if entries != [] {
      var r := Rejection([Spec, Config, entries[0].0], Number(entries[0].1.GetOr(0)));
      OverrideFields(entries[1..], fields[1..]);
      FieldsOfConcat(When(entries[0].1.Some?, r), Overrides(entries[1..]));
      MayBeField(entries[0].1.Some?, r);
      SublistsChain(Fields(When(entries[0].1.Some?, r)), Fields(Overrides(entries[1..])), [r.field], fields[1..]);
      assert [r.field] + fields[1..] == fields;
    }
  }

  lemma {:induction false} CustomFieldsAreAll(custom: seq<(Key, string)>)
    ensures Fields(CustomOverrides(custom)) == CustomFields(custom)
  {
    if custom != [] {
      CustomFieldsAreAll(custom[1..]);
      assert CustomFields(custom)[1..] == CustomFields(custom[1..]);
    }
  }

  lemma OneMoreField(a: seq<Rejection>, x: seq<Path>, condition: bool, r: Rejection)
    requires IsSublist(Fields(a), x)
    ensures IsSublist(Fields(a + When(condition, r)), x + [r.field])
  {
    FieldsOfConcat(a, When(condition, r));
    MayBeField(condition, r);
    SublistsChain(Fields(a), Fields(When(condition, r)), x, [r.field]);
  }

  lemma SettingFields(spec: TopicSpec)
    ensures IsSublist(Fields(SettingRejections(spec)), FIELD_ORDER[2..6])
  {
    var r := spec.retention;
    var ms := Rejection([Spec, Retention, RetentionMs], Number(r.retentionMs));
    var bytes := Rejection([Spec, Retention, RetentionBytes], Number(r.retentionBytes));
    var policy := Rejection([Spec, Retention, CleanupPolicy], String(r.cleanupPolicy));
    var compression := Rejection([Spec, Compression, Type], String(spec.compressionType));
    var a := When(r.retentionMs != -1, ms);
    var b := a + When(r.retentionBytes != -1, bytes);
    var c := b + When(r.cleanupPolicy != DEFAULT_RETENTION.cleanupPolicy, policy);
    MayBeField(r.retentionMs != -1, ms);
    OneMoreField(a, [ms.field], r.retentionBytes != -1, bytes);
    OneMoreField(b, [ms.field] + [bytes.field], r.cleanupPolicy != DEFAULT_RETENTION.cleanupPolicy, policy);
    OneMoreField(c, [ms.field] + [bytes.field] + [policy.field], spec.compressionType != DEFAULT_COMPRESSION,
        compression);
    assert FIELD_ORDER[2..6] == [ms.field] + [bytes.field] + [policy.field] + [compression.field];
  }

  lemma ReplicationFields(spec: TopicSpec)
    ensures IsSublist(Fields(ReplicationRejections(spec)), FIELD_ORDER[..2])
  {
    var rf := Rejection([Spec, ReplicationFactor], Number(spec.replicationFactor));
    var partitions := Rejection([Spec, Partitions], Number(spec.partitions));
    MayBeField(spec.replicationFactor != 1, rf);
    OneMoreField(When(spec.replicationFactor != 1, rf), [rf.field], spec.partitions < 1, partitions);
    assert FIELD_ORDER[..2] == [rf.field] + [partitions.field];
  }

  lemma FieldsInOrder(a: seq<Rejection>, b: seq<Rejection>, c: seq<Rejection>, d: seq<Rejection>, custom: seq<Path>)
    requires IsSublist(Fields(a), FIELD_ORDER[..2]) && IsSublist(Fields(b), FIELD_ORDER[2..6])
    requires IsSublist(Fields(c), FIELD_ORDER[6..]) && IsSublist(Fields(d), custom)
    ensures IsSublist(Fields(a + b + c + d), FIELD_ORDER + custom)
  {
    var x, y, z := FIELD_ORDER[..2], FIELD_ORDER[2..6], FIELD_ORDER[6..];
    FieldsOfConcat(a + b + c, d);
    FieldsOfConcat(a + b, c);
    FieldsOfConcat(a, b);
    SublistsChain(Fields(a), Fields(b), x, y);
    SublistsChain(Fields(a + b), Fields(c), x + y, z);
    SublistsChain(Fields(a + b + c), Fields(d), x + y + z, custom);
    assert x + y + z == FIELD_ORDER;
  }

  lemma RejectionsInOrder(spec: TopicSpec)
    ensures IsSublist(Fields(Rejections(spec)), FIELD_ORDER + CustomFields(spec.custom))
  {
    ReplicationFields(spec);
    SettingFields(spec);
    OverrideFields(ConfigEntries(spec.config), FIELD_ORDER[6..]);
    CustomFieldsAreAll(spec.custom);
    IsItsOwnSublist(CustomFields(spec.custom));
    FieldsInOrder(ReplicationRejections(spec), SettingRejections(spec), Overrides(ConfigEntries(spec.config)),
                  CustomOverrides(spec.custom), CustomFields(spec.custom));
  }

  /** For every spec: exactly the settings asked for that the server cannot apply are
      refused, each once, in the order of the fields with the free-form ones last. */
  lemma RejectionsExactly(spec: TopicSpec)
    ensures forall r :: r in Rejections(spec) <==> AsksFor(spec, r)
    ensures IsSublist(Fields(Rejections(spec)), FIELD_ORDER + CustomFields(spec.custom))
  {
    forall r
      ensures r in Rejections(spec) <==> AsksFor(spec, r)
    {
      RejectionMember(spec, r);
    }
    RejectionsInOrder(spec);
  }

  lemma {:induction false} IsItsOwnSublist<T>(xs: seq<T>)
    ensures IsSublist(xs, xs)
  {
    if xs != [] {
      IsItsOwnSublist(xs[1..]);
    }
  }

  // ---------------------------------------------------------------------
  // Provenance
  // ---------------------------------------------------------------------

  /** The replication factor decides its provenance from a constant of its own, the
      partition count has no fix, and every other rejection asks the table. */
  function RemedyOf(r: Rejection): Option<Remedy> {
    if r.field == [Spec, ReplicationFactor] then RemedyFor(r.field, r.requested == Number(2))
    else if r.field == [Spec, Partitions] then None
    else RemedyForValue(r.field, r.requested)
  }

  lemma NotTabled(field: Path)
    requires field != []
    requires |field| > 3
          || field[|field| - 1] !in {Replicas, PodAntiAffinity, ReplicationFactor, RetentionMs, MinInsyncReplicas,
              MaxMessageBytes}
    ensures field !in TabledFields()
  {
  }

  /** A rejection carries a fix exactly when the table has an entry for its field, and
      it blames v0.3.0 exactly when the value it saw is the one v0.3.0 persisted. */
  lemma ProvenanceIsHonest(r: Rejection)
    ensures RemedyOf(r).Some? <==> exists e <- LEGACY_DEFAULTS :: e.field == r.field
    ensures RemedyOf(r).Some? ==>
              var remedy := RemedyOf(r).value;
              && remedy.entry in LEGACY_DEFAULTS && remedy.entry.field == r.field
              && (remedy.blamesUpgrade <==> r.requested == remedy.entry.legacy)
  {
    if r.field == [Spec, ReplicationFactor] {
      TableIsConsistent(REPLICATION_FACTOR);
    } else if r.field == [Spec, Partitions] {
      NotTabled(r.field);
    }
  }

  // ---------------------------------------------------------------------
  // Patches clear their own rejections
  // ---------------------------------------------------------------------

  /** The spec after the four topic patches. */
  function Corrected(spec: TopicSpec): TopicSpec {
    spec.(replicationFactor := 1,
          retention := spec.retention.(retentionMs := -1),
          config := spec.config.(minInsyncReplicas := None, maxMessageBytes := None))
  }

  function TabledFields(): set<Path> {
    set e <- LEGACY_DEFAULTS :: e.field
  }

  /** The rejections of any other field, in order. */
  function Without(rs: seq<Rejection>, fields: set<Path>): seq<Rejection> {
    if rs == [] then [] else When(rs[0].field !in fields, rs[0]) + Without(rs[1..], fields)
  }

  /** `fields` holds the four topic fields of the table and no other topic setting. */
  ghost predicate FourFields(fields: set<Path>) {
    && [Spec, ReplicationFactor] in fields && [Spec, Retention, RetentionMs] in fields
    && [Spec, Config, MinInsyncReplicas] in fields && [Spec, Config, MaxMessageBytes] in fields
    && [Spec, Partitions] !in fields && [Spec, Retention, RetentionBytes] !in fields
    && [Spec, Retention, CleanupPolicy] !in fields && [Spec, Compression, Type] !in fields
    && (forall k: Key | k in {SegmentBytes, IndexIntervalBytes, FlushIntervalMs, FlushMessages} ::
        [Spec, Config, k] !in fields)
    && (forall k: Key :: [Spec, Config, Custom, k] !in fields)
  }

  lemma TabledFieldsAreFour()
    ensures FourFields(TabledFields())
  {
    assert [Spec, ReplicationFactor] == REPLICATION_FACTOR.field && REPLICATION_FACTOR in LEGACY_DEFAULTS;
    assert [Spec, Retention, RetentionMs] == RETENTION_MS.field && RETENTION_MS in LEGACY_DEFAULTS;
    assert [Spec, Config, MinInsyncReplicas] == MIN_INSYNC_REPLICAS.field && MIN_INSYNC_REPLICAS in LEGACY_DEFAULTS;
    assert [Spec, Config, MaxMessageBytes] == MAX_MESSAGE_BYTES.field && MAX_MESSAGE_BYTES in LEGACY_DEFAULTS;
    NotTabled([Spec, Partitions]);
    NotTabled([Spec, Retention, RetentionBytes]);
    NotTabled([Spec, Retention, CleanupPolicy]);
    NotTabled([Spec, Compression, Type]);
    forall k: Key | k in {SegmentBytes, IndexIntervalBytes, FlushIntervalMs, FlushMessages}
      ensures [Spec, Config, k] !in TabledFields()
    {
      NotTabled([Spec, Config, k]);
    }
    forall k: Key
      ensures [Spec, Config, Custom, k] !in TabledFields()
    {
      NotTabled([Spec, Config, Custom, k]);
    }
  }

  lemma {:induction false} WithoutOfConcat(a: seq<Rejection>, b: seq<Rejection>, fields: set<Path>)
    ensures Without(a + b, fields) == Without(a, fields) + Without(b, fields)
  {
    if a == [] {
      assert a + b == b;
    } else {
      var head, rest := When(a[0].field !in fields, a[0]), a[1..];
      assert a + b == [a[0]] + (rest + b);
      WithoutOfConcat(rest, b, fields);
      assert Without(a, fields) == head + Without(rest, fields);
      assert Without(a + b, fields) == head + Without(rest + b, fields);
    }
  }

  lemma WithoutOfOne(condition: bool, r: Rejection, fields: set<Path>)
    ensures Without(When(condition, r), fields) == When(condition && r.field !in fields, r)
  {
    assert [r][1..] == [];
  }

  lemma {:induction false} CustomIsKept(custom: seq<(Key, string)>, fields: set<Path>)
    requires FourFields(fields)
    ensures Without(CustomOverrides(custom), fields) == CustomOverrides(custom)
  {
    if custom != [] {
      CustomIsKept(custom[1..], fields);
      WithoutOfConcat([Rejection([Spec, Config, Custom, custom[0].0], String("set"))], CustomOverrides(custom[1..]),
          fields);
    }
  }

  /** The overrides that are left when some of the keys are cleared. */
  function Cleared(entries: seq<(Key, Option<int>)>, fields: set<Path>): seq<(Key, Option<int>)> {
    seq(|entries|, k requires 0 <= k < |entries| =>
          if [Spec, Config, entries[k].0] in fields then (entries[k].0, None) else entries[k])
  }

  lemma {:induction false} ClearedOverrides(entries: seq<(Key, Option<int>)>, fields: set<Path>)
    ensures Without(Overrides(entries), fields) == Overrides(Cleared(entries, fields))
  {
    if entries != [] {
      ClearedOverrides(entries[1..], fields);
      var cleared := Cleared(entries, fields);
      assert cleared[1..] == Cleared(entries[1..], fields);
      var r := Rejection([Spec, Config, entries[0].0], Number(entries[0].1.GetOr(0)));
      WithoutOfConcat(When(entries[0].1.Some?, r), Overrides(entries[1..]), fields);
      WithoutOfOne(entries[0].1.Some?, r, fields);
    }
  }

  lemma CorrectedOverrides(c: TopicConfig, fields: set<Path>)
    requires FourFields(fields)
    ensures Without(Overrides(ConfigEntries(c)), fields)
         == Overrides(ConfigEntries(c.(minInsyncReplicas := None, maxMessageBytes := None)))
  {
    ClearedOverrides(ConfigEntries(c), fields);
    assert Cleared(ConfigEntries(c), fields) == ConfigEntries(c.(minInsyncReplicas := None, maxMessageBytes := None));
  }

  lemma CorrectedReplication(spec: TopicSpec, fields: set<Path>)
    requires FourFields(fields)
    ensures Without(ReplicationRejections(spec), fields) == ReplicationRejections(Corrected(spec))
  {
    var rf := Rejection([Spec, ReplicationFactor], Number(spec.replicationFactor));
    var partitions := Rejection([Spec, Partitions], Number(spec.partitions));
    WithoutOfConcat(When(spec.replicationFactor != 1, rf), When(spec.partitions < 1, partitions), fields);
    WithoutOfOne(spec.replicationFactor != 1, rf, fields);
    WithoutOfOne(spec.partitions < 1, partitions, fields);
  }

  lemma CorrectedSettings(spec: TopicSpec, fields: set<Path>)
    requires FourFields(fields)
    ensures Without(SettingRejections(spec), fields) == SettingRejections(Corrected(spec))
  {
    var r := spec.retention;
    var ms := Rejection([Spec, Retention, RetentionMs], Number(r.retentionMs));
    var bytes := Rejection([Spec, Retention, RetentionBytes], Number(r.retentionBytes));
    var policy := Rejection([Spec, Retention, CleanupPolicy], String(r.cleanupPolicy));
    var compression := Rejection([Spec, Compression, Type], String(spec.compressionType));
    var a := When(r.retentionMs != -1, ms);
    var b := When(r.retentionBytes != -1, bytes);
    var c := When(r.cleanupPolicy != DEFAULT_RETENTION.cleanupPolicy, policy);
    var d := When(spec.compressionType != DEFAULT_COMPRESSION, compression);
    WithoutOfConcat(a + b + c, d, fields);
    WithoutOfConcat(a + b, c, fields);
    WithoutOfConcat(a, b, fields);
    WithoutOfOne(r.retentionMs != -1, ms, fields);
    WithoutOfOne(r.retentionBytes != -1, bytes, fields);
    WithoutOfOne(r.cleanupPolicy != DEFAULT_RETENTION.cleanupPolicy, policy, fields);
    WithoutOfOne(spec.compressionType != DEFAULT_COMPRESSION, compression, fields);
    assert a + b + c + d == SettingRejections(spec);
    assert b + c + d == SettingRejections(Corrected(spec));
  }

  /** The four patches remove exactly the rejections of the four tabled fields: every
      other rejection stays, word for word and in its place. */
  lemma PatchesClearTheirOwnRejections(spec: TopicSpec)
    ensures Rejections(Corrected(spec)) == Without(Rejections(spec), TabledFields())
  {
    var fields := TabledFields();
    TabledFieldsAreFour();
    var a, b := ReplicationRejections(spec), SettingRejections(spec);
    var c, d := Overrides(ConfigEntries(spec.config)), CustomOverrides(spec.custom);
    WithoutOfConcat(a + b + c, d, fields);
    WithoutOfConcat(a + b, c, fields);
    WithoutOfConcat(a, b, fields);
    CorrectedReplication(spec, fields);
    CorrectedSettings(spec, fields);
    CorrectedOverrides(spec.config, fields);
    CustomIsKept(spec.custom, fields);
  }
}
