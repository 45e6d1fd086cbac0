/** Stored topic documents: how a spec is read out of one, and that the documented
    patches turn the document of a spec into the document of the corrected spec. */
module TopicDocuments {
  import opened Prelude
  import opened MergePatch
  import opened Upgrades
  import opened TopicSpecs

  predicate IsInt(m: Option<Json>, default: int, v: int) {
    if m.None? then v == default else m.value == Number(v)
  }

  predicate IsOptional(m: Option<Json>, v: Option<int>) {
    if v.None? then m.None? || m.value.Null? else m == Some(Number(v.value))
  }

  predicate IsString(m: Option<Json>, default: string, v: string) {
    if m.None? then v == default else m.value == String(v)
  }

  /** A block that may be left out, in which case every field takes its default. */
  predicate IsBlock(m: Option<Json>) {
    m.None? || m.value.Object?
  }

  function Block(m: Option<Json>): Json {
    m.GetOr(Object(map[]))
  }

  /** The entries of a string map, each key once. */
  predicate IsCustom(m: Option<Json>, custom: seq<(Key, string)>) {
    && IsBlock(m)
    && (forall j, k | 0 <= j < k < |custom| :: custom[j].0 != custom[k].0)
    && (forall k | k in Members(Block(m)) :: exists e <- custom :: e.0 == k)
    && (forall e <- custom :: Member(Block(m), e.0) == Some(String(e.1)))
  }

  predicate ConfigDecodes(block: Json, c: TopicConfig, custom: seq<(Key, string)>) {
    && IsOptional(Member(block, MinInsyncReplicas), c.minInsyncReplicas)
    && IsOptional(Member(block, MaxMessageBytes), c.maxMessageBytes)
    && IsOptional(Member(block, SegmentBytes), c.segmentBytes)
    && IsOptional(Member(block, IndexIntervalBytes), c.indexIntervalBytes)
    && IsOptional(Member(block, FlushIntervalMs), c.flushIntervalMs)
    && IsOptional(Member(block, FlushMessages), c.flushMessages)
    && IsCustom(Member(block, Custom), custom)
  }

  predicate RetentionDecodes(block: Json, r: RetentionConfig) {
    && IsInt(Member(block, RetentionMs), DEFAULT_RETENTION.retentionMs, r.retentionMs)
    && IsInt(Member(block, RetentionBytes), DEFAULT_RETENTION.retentionBytes, r.retentionBytes)
    && IsString(Member(block, CleanupPolicy), DEFAULT_RETENTION.cleanupPolicy, r.cleanupPolicy)
  }

  predicate SpecDecodes(s: Json, spec: TopicSpec) {
    && Member(s, ClusterRef) == Some(String(spec.clusterRef))
    && IsInt(Member(s, Partitions), 3, spec.partitions)
    && IsInt(Member(s, ReplicationFactor), 1, spec.replicationFactor)
    && IsBlock(Member(s, Config)) && ConfigDecodes(Block(Member(s, Config)), spec.config, spec.custom)
    && IsBlock(Member(s, Retention)) && RetentionDecodes(Block(Member(s, Retention)), spec.retention)
    && IsBlock(Member(s, Compression))
    && IsString(Member(Block(Member(s, Compression)), Type), DEFAULT_COMPRESSION, spec.compressionType)
  }

  /** The document holds a well-formed spec, and it is this one. Members the spec does
      not know are ignored. */
  predicate DecodesTo(doc: Json, spec: TopicSpec) {
    HasSpec(doc) && SpecDecodes(doc.members[Spec], spec)
  }

  // ---------------------------------------------------------------------
  // A document holds one spec, and every spec has a document
  // ---------------------------------------------------------------------

  lemma {:induction false} SameEntries(a: seq<(Key, string)>, b: seq<(Key, string)>)
    requires forall j, k | 0 <= j < k < |a| :: a[j].0 != a[k].0
    requires forall j, k | 0 <= j < k < |b| :: b[j].0 != b[k].0
    requires forall e: (Key, string) :: e in a <==> e in b
    ensures multiset(a) == multiset(b)
  {
    EntriesOnce(a);
    EntriesOnce(b);
  }

  lemma {:induction false} EntriesOnce(a: seq<(Key, string)>)
    requires forall j, k | 0 <= j < k < |a| :: a[j].0 != a[k].0
    ensures forall e: (Key, string) :: multiset(a)[e] == if e in a then 1 else 0
  {
    if a != [] {
      var n := |a| - 1;
      EntriesOnce(a[..n]);
      assert a == a[..n] + [a[n]];
      assert a[n] !in a[..n];
    }
  }

  lemma CustomIsDetermined(m: Option<Json>, a: seq<(Key, string)>, b: seq<(Key, string)>)
    requires IsCustom(m, a) && IsCustom(m, b)
    ensures multiset(a) == multiset(b)
  {
    forall e: (Key, string)
      ensures e in a <==> e in b
    {
      CustomEntry(m, a, e);
      CustomEntry(m, b, e);
    }
    SameEntries(a, b);
  }

  lemma CustomEntry(m: Option<Json>, a: seq<(Key, string)>, e: (Key, string))
    requires IsCustom(m, a)
    ensures e in a <==> Member(Block(m), e.0) == Some(String(e.1))
  {
    if Member(Block(m), e.0) == Some(String(e.1)) {
      assert e.0 in Members(Block(m));
      var f :| f in a && f.0 == e.0;
      assert Member(Block(m), f.0) == Some(String(f.1));
      assert f == e;
    }
  }

  /** A document holds at most one spec, but for the order of the free-form overrides. */
  lemma DecodesToOne(doc: Json, s: TopicSpec, t: TopicSpec)
    requires DecodesTo(doc, s) && DecodesTo(doc, t)
    ensures s.(custom := t.custom) == t && multiset(s.custom) == multiset(t.custom)
  {
    CustomIsDetermined(Member(Block(Member(doc.members[Spec], Config)), Custom), s.custom, t.custom);
  }

  function CustomMembers(custom: seq<(Key, string)>): map<Key, Json> {
    if custom == [] then map[]
    else
      var n := |custom| - 1;
      CustomMembers(custom[..n])[custom[n].0 := String(custom[n].1)]
  }

  lemma {:induction false} CustomIsWritten(custom: seq<(Key, string)>)
    requires forall j, k | 0 <= j < k < |custom| :: custom[j].0 != custom[k].0
    ensures IsCustom(Some(Object(CustomMembers(custom))), custom)
  {
    if custom != [] {
      var n := |custom| - 1;
      CustomIsWritten(custom[..n]);
      var before, after := Object(CustomMembers(custom[..n])), Object(CustomMembers(custom));
      forall k | k in after.members
        ensures exists e <- custom :: e.0 == k
      {
        if k == custom[n].0 {
          assert custom[n] in custom;
        } else {
          assert k in Members(Block(Some(before)));
          var e :| e in custom[..n] && e.0 == k;
          assert e in custom;
        }
      }
      forall e <- custom
        ensures Member(after, e.0) == Some(String(e.1))
      {
        var k :| 0 <= k < |custom| && custom[k] == e;
        if k < n {
          assert custom[..n][k] == e && e in custom[..n];
          assert Member(before, e.0) == Some(String(e.1));
        }
      }
    }
  }

  function OptionalNumber(v: Option<int>): Json {
    if v.None? then Null else Number(v.value)
  }

  function ConfigDocument(c: TopicConfig, custom: seq<(Key, string)>): Json {
    Object(map[
      MinInsyncReplicas := OptionalNumber(c.minInsyncReplicas), MaxMessageBytes := OptionalNumber(c.maxMessageBytes),
      SegmentBytes := OptionalNumber(c.segmentBytes), IndexIntervalBytes := OptionalNumber(c.indexIntervalBytes),
      FlushIntervalMs := OptionalNumber(c.flushIntervalMs), FlushMessages := OptionalNumber(c.flushMessages),
      Custom := Object(CustomMembers(custom))])
  }

  function SpecDocument(spec: TopicSpec, config: Json): Json {
    Object(map[
      ClusterRef := String(spec.clusterRef),
      Partitions := Number(spec.partitions),
      ReplicationFactor := Number(spec.replicationFactor),
      Config := config,
      Retention := Object(map[
        RetentionMs := Number(spec.retention.retentionMs), RetentionBytes := Number(spec.retention.retentionBytes),
        CleanupPolicy := String(spec.retention.cleanupPolicy)]),
      Compression := Object(map[Type := String(spec.compressionType)])])
  }

  /** The document a spec is written as, every field in it. */
  function Document(spec: TopicSpec): Json {
    Object(map[Spec := SpecDocument(spec, ConfigDocument(spec.config, spec.custom))])
  }

  lemma ConfigReadsBack(c: TopicConfig, custom: seq<(Key, string)>)
    requires forall j, k | 0 <= j < k < |custom| :: custom[j].0 != custom[k].0
    ensures ConfigDocument(c, custom).Object? && ConfigDecodes(ConfigDocument(c, custom), c, custom)
  {
    CustomIsWritten(custom);
  }

  /** The round trip: what is written is read back, and nothing else is. */
  lemma DocumentReadsBack(spec: TopicSpec, t: TopicSpec)
    requires forall j, k | 0 <= j < k < |spec.custom| :: spec.custom[j].0 != spec.custom[k].0
    ensures DecodesTo(Document(spec), spec)
    ensures DecodesTo(Document(spec), t) ==>
              spec.(custom := t.custom) == t && multiset(spec.custom) == multiset(t.custom)
  {
    ConfigReadsBack(spec.config, spec.custom);
    SpecReadsBack(spec, ConfigDocument(spec.config, spec.custom));
    if DecodesTo(Document(spec), t) {
      DecodesToOne(Document(spec), spec, t);
    }
  }

  lemma SpecReadsBack(spec: TopicSpec, config: Json)
    requires config.Object? && ConfigDecodes(config, spec.config, spec.custom)
    ensures SpecDecodes(SpecDocument(spec, config), spec)
  {
    var s := SpecDocument(spec, config);
    assert Member(s, Config) == Some(config) && Block(Member(s, Config)) == config;
    assert RetentionDecodes(s.members[Retention], spec.retention);
  }

  // ---------------------------------------------------------------------
  // Defaults of the schema are defaults of the spec
  // ---------------------------------------------------------------------

  lemma LeafDefaulted(doc: Json, s: Schema, k: Key, v: Json)
    requires doc.Object? && k in s.properties && s.properties[k] == Schema(Some(v), map[]) && !v.Object?
    requires Member(doc, k).None? || !Member(doc, k).value.Object?
    ensures Member(Defaulted(doc, s), k) == if Member(doc, k).None? then Some(v) else Member(doc, k)
  {
    DefaultedMember(doc, s, k);
  }

  lemma OptionalDefaulted(doc: Json, s: Schema, k: Key)
    requires doc.Object? && k in s.properties && s.properties[k] == OPTIONAL
    requires Member(doc, k).None? || !Member(doc, k).value.Object?
    ensures Member(Defaulted(doc, s), k) == Member(doc, k)
  {
    DefaultedMember(doc, s, k);
  }

  lemma UnknownsAreKept(m: map<Key, Json>, default: Option<Json>)
    ensures Defaulted(Object(m), Schema(default, map[])) == Object(m)
  {
    forall k: Key
      ensures Member(Defaulted(Object(m), Schema(default, map[])), k) == Member(Object(m), k)
    {
      DefaultedMember(Object(m), Schema(default, map[]), k);
    }
    SameMembers(Defaulted(Object(m), Schema(default, map[])), Object(m));
  }

  /** A block is described by these properties, and where it is left out it is filled in. */
  predicate Describes(s: Schema, k: Key, properties: map<Key, Schema>) {
    && k in s.properties && s.properties[k].properties == properties
    && s.properties[k].default.Some? && s.properties[k].default.value.Object?
  }

  const RETENTION_PROPERTIES := map[
    CleanupPolicy := Leaf(String("delete")), RetentionBytes := Leaf(Number(-1)), RetentionMs := Leaf(Number(-1))]

  lemma RetentionDefaulted(block: Json, r: RetentionConfig, s: Schema)
    requires block.Object? && RetentionDecodes(block, r) && s.properties == RETENTION_PROPERTIES
    ensures Defaulted(block, s).Object? && RetentionDecodes(Defaulted(block, s), r)
  {
    LeafDefaulted(block, s, CleanupPolicy, String("delete"));
    LeafDefaulted(block, s, RetentionBytes, Number(-1));
    LeafDefaulted(block, s, RetentionMs, Number(-1));
  }

  const CONFIG_PROPERTIES := map[
    Custom := Leaf(Object(map[])), FlushIntervalMs := OPTIONAL, FlushMessages := OPTIONAL,
    IndexIntervalBytes := OPTIONAL, MaxMessageBytes := OPTIONAL, MinInsyncReplicas := OPTIONAL,
    SegmentBytes := OPTIONAL]

  lemma NumbersDefaulted(block: Json, c: TopicConfig, custom: seq<(Key, string)>, s: Schema, k: Key)
    requires block.Object? && ConfigDecodes(block, c, custom) && s.properties == CONFIG_PROPERTIES
    requires k in {MinInsyncReplicas, MaxMessageBytes, SegmentBytes, IndexIntervalBytes, FlushIntervalMs, FlushMessages}
    ensures Member(Defaulted(block, s), k) == Member(block, k)
  {
    OptionalDefaulted(block, s, k);
  }

  lemma CustomDefaulted(block: Json, custom: seq<(Key, string)>, s: Schema)
    requires block.Object? && IsCustom(Member(block, Custom), custom) && s.properties == CONFIG_PROPERTIES
    ensures IsCustom(Member(Defaulted(block, s), Custom), custom)
  {
    DefaultedMember(block, s, Custom);
    UnknownsAreKept(Members(Block(Member(block, Custom))), Some(Object(map[])));
    assert Member(Defaulted(block, s), Custom) == Some(Block(Member(block, Custom)));
  }

  lemma ConfigDefaulted(block: Json, c: TopicConfig, custom: seq<(Key, string)>, s: Schema)
    requires block.Object? && ConfigDecodes(block, c, custom) && s.properties == CONFIG_PROPERTIES
    ensures Defaulted(block, s).Object? && ConfigDecodes(Defaulted(block, s), c, custom)
  {
    forall k: Key | k in {MinInsyncReplicas, MaxMessageBytes, SegmentBytes, IndexIntervalBytes, FlushIntervalMs,
        FlushMessages}
      ensures Member(Defaulted(block, s), k) == Member(block, k)
    {
      NumbersDefaulted(block, c, custom, s, k);
    }
    CustomDefaulted(block, custom, s);
  }

  lemma BlockDefaulted(doc: Json, s: Schema, k: Key)
    requires doc.Object? && k in s.properties && s.properties[k].default.Some?
    ensures Defaulted(doc, s).Object?
    ensures Member(Defaulted(doc, s), k)
         == Some(Defaulted(Member(doc, k).GetOr(s.properties[k].default.value), s.properties[k]))
  {
    DefaultedMember(doc, s, k);
  }

  lemma RetentionFilledIn(doc: Json, r: RetentionConfig, s: Schema)
    requires doc.Object? && IsBlock(Member(doc, Retention)) && RetentionDecodes(Block(Member(doc, Retention)), r)
    requires Describes(s, Retention, RETENTION_PROPERTIES)
    requires RetentionDecodes(s.properties[Retention].default.value, DEFAULT_RETENTION)
    ensures IsBlock(Member(Defaulted(doc, s), Retention))
    ensures RetentionDecodes(Block(Member(Defaulted(doc, s), Retention)), r)
  {
    BlockDefaulted(doc, s, Retention);
    RetentionDefaulted(Member(doc, Retention).GetOr(s.properties[Retention].default.value), r, s.properties[Retention]);
  }

  lemma NothingMeansNoConfig(c: TopicConfig, custom: seq<(Key, string)>)
    requires ConfigDecodes(Object(map[]), c, custom)
    ensures c == NO_CONFIG && custom == []
  {
    CustomIsDetermined(Member(Object(map[]), Custom), custom, []);
    assert |multiset(custom)| == |custom|;
  }

  lemma ConfigFilledIn(doc: Json, c: TopicConfig, custom: seq<(Key, string)>, s: Schema)
    requires doc.Object? && IsBlock(Member(doc, Config)) && ConfigDecodes(Block(Member(doc, Config)), c, custom)
    requires Describes(s, Config, CONFIG_PROPERTIES)
    requires ConfigDecodes(s.properties[Config].default.value, NO_CONFIG, [])
    ensures IsBlock(Member(Defaulted(doc, s), Config))
    ensures ConfigDecodes(Block(Member(Defaulted(doc, s), Config)), c, custom)
  {
    BlockDefaulted(doc, s, Config);
    if Member(doc, Config).None? {
      NothingMeansNoConfig(c, custom);
    }
    ConfigDefaulted(Member(doc, Config).GetOr(s.properties[Config].default.value), c, custom, s.properties[Config]);
  }

  lemma CompressionFilledIn(doc: Json, compression: string, s: Schema)
    requires doc.Object? && IsBlock(Member(doc, Compression))
    requires IsString(Member(Block(Member(doc, Compression)), Type), DEFAULT_COMPRESSION, compression)
    requires Describes(s, Compression, map[Type := Leaf(String(DEFAULT_COMPRESSION))])
    requires IsString(Member(s.properties[Compression].default.value, Type), DEFAULT_COMPRESSION, DEFAULT_COMPRESSION)
    ensures IsBlock(Member(Defaulted(doc, s), Compression))
    ensures IsString(Member(Block(Member(Defaulted(doc, s), Compression)), Type), DEFAULT_COMPRESSION, compression)
  {
    var given := Member(doc, Compression).GetOr(s.properties[Compression].default.value);
    BlockDefaulted(doc, s, Compression);
    LeafDefaulted(given, s.properties[Compression], Type, String(DEFAULT_COMPRESSION));
  }

  /** A schema of the spec whose defaults are those of the spec. */
  predicate AgreesWithSpec(s: Schema) {
    && ClusterRef in s.properties && s.properties[ClusterRef] == OPTIONAL
    && Partitions in s.properties && s.properties[Partitions] == Leaf(Number(3))
    && ReplicationFactor in s.properties && s.properties[ReplicationFactor] == Leaf(Number(1))
    && Describes(s, Retention, RETENTION_PROPERTIES) && Describes(s, Config, CONFIG_PROPERTIES)
    && Describes(s, Compression, map[Type := Leaf(String(DEFAULT_COMPRESSION))])
    && RetentionDecodes(s.properties[Retention].default.value, DEFAULT_RETENTION)
    && ConfigDecodes(s.properties[Config].default.value, NO_CONFIG, [])
    && IsString(Member(s.properties[Compression].default.value, Type), DEFAULT_COMPRESSION, DEFAULT_COMPRESSION)
  }

  lemma CorrectedConfigAgrees()
    ensures Spec in CORRECTED_TOPIC.properties
    ensures
      var s := CORRECTED_TOPIC.properties[Spec];
      Describes(s, Config, CONFIG_PROPERTIES) && ConfigDecodes(s.properties[Config].default.value, NO_CONFIG, [])
  {
    var config := CORRECTED_TOPIC.properties[Spec].properties[Config].default.value;
    assert config.Object? && Member(config, Custom) == Some(Object(map[]));
  }

  lemma CorrectedRetentionAgrees()
    ensures Spec in CORRECTED_TOPIC.properties
    ensures
      var s := CORRECTED_TOPIC.properties[Spec];
      && Describes(s, Retention, RETENTION_PROPERTIES)
      && RetentionDecodes(s.properties[Retention].default.value, DEFAULT_RETENTION)
  {
  }

  lemma CorrectedTopicAgrees()
    ensures Spec in CORRECTED_TOPIC.properties && AgreesWithSpec(CORRECTED_TOPIC.properties[Spec])
  {
    CorrectedConfigAgrees();
    CorrectedRetentionAgrees();
  }

  lemma SpecDefaulted(doc: Json, spec: TopicSpec, s: Schema)
    requires doc.Object? && SpecDecodes(doc, spec) && AgreesWithSpec(s)
    ensures Defaulted(doc, s).Object? && SpecDecodes(Defaulted(doc, s), spec)
  {
    OptionalDefaulted(doc, s, ClusterRef);
    LeafDefaulted(doc, s, Partitions, Number(3));
    LeafDefaulted(doc, s, ReplicationFactor, Number(1));
    RetentionFilledIn(doc, spec.retention, s);
    ConfigFilledIn(doc, spec.config, spec.custom, s);
    CompressionFilledIn(doc, spec.compressionType, s);
  }

  /** The defaults the installed schema fills in are those the operator reads where a field
      is left out: defaulting the document of any topic leaves its spec as it is. */
  lemma DefaultingKeepsTheSpec(doc: Json, spec: TopicSpec)
    requires DecodesTo(doc, spec)
    ensures DecodesTo(Defaulted(doc, CORRECTED_TOPIC), spec)
  {
    var schema := CORRECTED_TOPIC.properties[Spec];
    DefaultedMember(doc, CORRECTED_TOPIC, Spec);
    assert Defaulted(doc, CORRECTED_TOPIC).members[Spec] == Defaulted(doc.members[Spec], schema);
    CorrectedTopicAgrees();
    SpecDefaulted(doc.members[Spec], spec, schema);
  }

  /** A patch of one spec member. */
  lemma PatchedSpec(doc: Json, key: Key, patch: Json)
    requires HasSpec(doc) && !patch.Null?
    ensures
      var doc' := Merge(doc, Object(map[Spec := Object(map[key := patch])]));
      var s, s' := doc.members[Spec], Member(doc', Spec).GetOr(Null);
      && HasSpec(doc') && doc'.members[Spec] == s'
      && Member(s', key) == Some(Merge(Block(Member(s, key)), patch))
      && forall k: Key | k != key :: Member(s', k) == Member(s, k)
  {
    var inner := Object(map[key := patch]);
    MergedMember(doc, Object(map[Spec := inner]), Spec);
    var s := doc.members[Spec];
    forall k: Key
      ensures Member(Merge(s, inner), k) == if k == key then Some(Merge(Block(Member(s, key)), patch)) else Member(s, k)
    {
      MergedMember(s, inner, k);
    }
  }

  lemma ReplicationPatch(doc: Json, spec: TopicSpec)
    requires DecodesTo(doc, spec)
    ensures DecodesTo(Merge(doc, REPLICATION_FACTOR.mergePatch), spec.(replicationFactor := 1))
  {
    PatchedSpec(doc, ReplicationFactor, Number(1));
  }

  lemma RetentionBlock(block: Json, r: RetentionConfig)
    requires RetentionDecodes(block, r)
    ensures RetentionDecodes(Merge(block, Object(map[RetentionMs := Number(-1)])), r.(retentionMs := -1))
  {
    var patch := Object(map[RetentionMs := Number(-1)]);
    MergedMember(block, patch, RetentionMs);
    MergedMember(block, patch, RetentionBytes);
    MergedMember(block, patch, CleanupPolicy);
  }

  /** Two spec blocks that hold the same thing everywhere but under one key. */
  predicate SameBut(s: Json, s': Json, key: Key) {
    forall k | k in {ClusterRef, Partitions, ReplicationFactor, Config, Retention, Compression} && k != key ::
      Member(s', k) == Member(s, k)
  }

  lemma WithRetention(s: Json, s': Json, spec: TopicSpec, r: RetentionConfig)
    requires SpecDecodes(s, spec) && SameBut(s, s', Retention)
    requires IsBlock(Member(s', Retention)) && RetentionDecodes(Block(Member(s', Retention)), r)
    ensures SpecDecodes(s', spec.(retention := r))
  {
  }

  lemma WithConfig(s: Json, s': Json, spec: TopicSpec, c: TopicConfig)
    requires SpecDecodes(s, spec) && SameBut(s, s', Config)
    requires IsBlock(Member(s', Config)) && ConfigDecodes(Block(Member(s', Config)), c, spec.custom)
    ensures SpecDecodes(s', spec.(config := c))
  {
  }

  lemma PatchedBlock(doc: Json, key: Key, patch: Json)
    requires HasSpec(doc) && patch.Object?
    ensures
      var doc' := Merge(doc, Object(map[Spec := Object(map[key := patch])]));
      && HasSpec(doc') && SameBut(doc.members[Spec], doc'.members[Spec], key)
      && Member(doc'.members[Spec], key) == Some(Merge(Block(Member(doc.members[Spec], key)), patch))
      && Merge(Block(Member(doc.members[Spec], key)), patch).Object?
  {
    PatchedSpec(doc, key, patch);
  }

  /** A patch of the retention block alone changes the retention alone. */
  lemma RetentionReplaced(doc: Json, spec: TopicSpec, patch: Json, r: RetentionConfig)
    requires DecodesTo(doc, spec) && patch.Object?
    requires RetentionDecodes(Merge(Block(Member(doc.members[Spec], Retention)), patch), r)
    ensures DecodesTo(Merge(doc, Object(map[Spec := Object(map[Retention := patch])])), spec.(retention := r))
  {
    PatchedBlock(doc, Retention, patch);
    WithRetention(doc.members[Spec], Merge(doc, Object(map[Spec := Object(map[Retention := patch])])).members[Spec],
        spec, r);
  }

  lemma RetentionPatch(doc: Json, spec: TopicSpec)
    requires DecodesTo(doc, spec)
    ensures DecodesTo(Merge(doc, RETENTION_MS.mergePatch), spec.(retention := spec.retention.(retentionMs := -1)))
  {
    RetentionBlock(Block(Member(doc.members[Spec], Retention)), spec.retention);
    RetentionReplaced(doc, spec, Object(map[RetentionMs := Number(-1)]), spec.retention.(retentionMs := -1));
  }

  /** A config with one of the two tabled keys removed. */
  function Removed(c: TopicConfig, key: Key): TopicConfig {
    if key.MinInsyncReplicas? then c.(minInsyncReplicas := None)
    else if key.MaxMessageBytes? then c.(maxMessageBytes := None)
    else c
  }

  lemma ConfigBlock(block: Json, c: TopicConfig, custom: seq<(Key, string)>, key: Key)
    requires ConfigDecodes(block, c, custom) && key in {MinInsyncReplicas, MaxMessageBytes}
    ensures ConfigDecodes(Merge(block, Object(map[key := Null])), Removed(c, key), custom)
  {
    var patch := Object(map[key := Null]);
    forall k: Key
      ensures Member(Merge(block, patch), k) == if k == key then None else Member(block, k)
    {
      MergedMember(block, patch, k);
    }
  }

  /** A patch of the config block alone changes the config alone. */
  lemma ConfigReplaced(doc: Json, spec: TopicSpec, patch: Json, c: TopicConfig)
    requires DecodesTo(doc, spec) && patch.Object?
    requires ConfigDecodes(Merge(Block(Member(doc.members[Spec], Config)), patch), c, spec.custom)
    ensures DecodesTo(Merge(doc, Object(map[Spec := Object(map[Config := patch])])), spec.(config := c))
  {
    PatchedBlock(doc, Config, patch);
    WithConfig(doc.members[Spec], Merge(doc, Object(map[Spec := Object(map[Config := patch])])).members[Spec], spec, c);
  }

  lemma ConfigPatch(doc: Json, spec: TopicSpec, key: Key)
    requires DecodesTo(doc, spec) && key in {MinInsyncReplicas, MaxMessageBytes}
    ensures DecodesTo(Merge(doc, Object(map[Spec := Object(map[Config := Object(map[key := Null])])])),
                      spec.(config := Removed(spec.config, key)))
  {
    ConfigBlock(Block(Member(doc.members[Spec], Config)), spec.config, spec.custom, key);
    ConfigReplaced(doc, spec, Object(map[key := Null]), Removed(spec.config, key));
  }

  const TOPIC_PATCHES: seq<Json> := [
    REPLICATION_FACTOR.mergePatch, RETENTION_MS.mergePatch, MIN_INSYNC_REPLICAS.mergePatch,
        MAX_MESSAGE_BYTES.mergePatch]

  lemma ClusterPatchFirst(table: seq<LegacyDefault>)
    requires table != [] && table[0].kind.StreamlineCluster?
    ensures PatchesOf(table, StreamlineTopic) == PatchesOf(table[1..], StreamlineTopic)
  {
  }

  lemma TopicPatchFirst(table: seq<LegacyDefault>)
    requires table != [] && table[0].kind.StreamlineTopic?
    ensures PatchesOf(table, StreamlineTopic) == [table[0].mergePatch] + PatchesOf(table[1..], StreamlineTopic)
  {
  }

  lemma TopicPatchesAreTabled()
    ensures PatchesOf(LEGACY_DEFAULTS, StreamlineTopic) == TOPIC_PATCHES
  {
    ClusterPatchFirst(LEGACY_DEFAULTS);
    ClusterPatchFirst(LEGACY_DEFAULTS[1..]);
    var tail := [REPLICATION_FACTOR, RETENTION_MS, MIN_INSYNC_REPLICAS, MAX_MESSAGE_BYTES];
    assert LEGACY_DEFAULTS[1..][1..] == tail;
    TopicPatchFirst(tail);
    TopicPatchFirst(tail[1..]);
    TopicPatchFirst(tail[1..][1..]);
    TopicPatchFirst(tail[1..][1..][1..]);
  }

  lemma MergeFour(doc: Json, a: Json, b: Json, c: Json, d: Json)
    ensures MergeAll(doc, [a, b, c, d]) == Merge(Merge(Merge(Merge(doc, a), b), c), d)
  {
    SplitFirst(doc, a, [b, c, d]);
    SplitFirst(Merge(doc, a), b, [c, d]);
    SplitFirst(Merge(Merge(doc, a), b), c, [d]);
    assert [a] + [b, c, d] == [a, b, c, d] && [b] + [c, d] == [b, c, d] && [c] + [d] == [c, d];
    assert [d][1..] == [];
  }

  /** Applied in any order to the stored document of any topic, the four patches give
      the document of the corrected spec, and the list of rejections that document
      gets is the old one with only the four tabled fields taken out. */
  lemma PatchedTopicIsCorrected(doc: Json, spec: TopicSpec, order: seq<Json>)
    requires DecodesTo(doc, spec)
    requires multiset(order) == multiset(PatchesOf(LEGACY_DEFAULTS, StreamlineTopic))
    ensures DecodesTo(MergeAll(doc, order), Corrected(spec))
    ensures Rejections(Corrected(spec)) == Without(Rejections(spec), TabledFields())
  {
    PatchOrderIsIrrelevant(StreamlineTopic, doc, order);
    TopicPatchesAreTabled();
    PatchesApplied(doc, spec);
    PatchesClearTheirOwnRejections(spec);
  }

  lemma SetPatchesApplied(doc: Json, spec: TopicSpec)
    requires DecodesTo(doc, spec)
    ensures DecodesTo(Merge(Merge(doc, REPLICATION_FACTOR.mergePatch), RETENTION_MS.mergePatch),
                      spec.(replicationFactor := 1, retention := spec.retention.(retentionMs := -1)))
  {
    ReplicationPatch(doc, spec);
    RetentionPatch(Merge(doc, REPLICATION_FACTOR.mergePatch), spec.(replicationFactor := 1));
  }

  lemma RemovalPatchesApplied(doc: Json, spec: TopicSpec)
    requires DecodesTo(doc, spec)
    ensures DecodesTo(Merge(Merge(doc, MIN_INSYNC_REPLICAS.mergePatch), MAX_MESSAGE_BYTES.mergePatch),
                      spec.(config := spec.config.(minInsyncReplicas := None, maxMessageBytes := None)))
  {
    ConfigPatch(doc, spec, MinInsyncReplicas);
    ConfigPatch(Merge(doc, MIN_INSYNC_REPLICAS.mergePatch), spec.(config := Removed(spec.config, MinInsyncReplicas)),
        MaxMessageBytes);
  }

  lemma PatchesApplied(doc: Json, spec: TopicSpec)
    requires DecodesTo(doc, spec)
    ensures DecodesTo(MergeAll(doc, TOPIC_PATCHES), Corrected(spec))
  {
    MergeFour(doc, REPLICATION_FACTOR.mergePatch, RETENTION_MS.mergePatch,
              MIN_INSYNC_REPLICAS.mergePatch, MAX_MESSAGE_BYTES.mergePatch);
    SetPatchesApplied(doc, spec);
    RemovalPatchesApplied(Merge(Merge(doc, REPLICATION_FACTOR.mergePatch), RETENTION_MS.mergePatch),
                          spec.(replicationFactor := 1, retention := spec.retention.(retentionMs := -1)));
  }
}
