/** Stored cluster documents: how the two tabled settings are read out of one, what the
    documented patches do to them, and what the rejections of a stored one say. */
module ClusterDocuments {
  import opened Prelude
  import opened MergePatch
  import opened Upgrades
  import C = ClusterSpecs

  predicate IsReplicas(m: Option<Json>, v: int) {
    if m.None? then v == 1 else m.value == Number(v)
  }

  predicate IsAntiAffinity(m: Option<Json>, v: bool) {
    if m.None? then !v else m.value == Bool(v)
  }

  /** The document holds a spec, with these two settings. */
  predicate DecodesTo(doc: Json, s: C.ClusterSpec) {
    && HasSpec(doc)
    && IsReplicas(Member(doc.members[Spec], Replicas), s.replicas)
    && IsAntiAffinity(Member(doc.members[Spec], PodAntiAffinity), s.podAntiAffinity)
  }

  /** The document determines the two settings. */
  lemma DecodesToOne(doc: Json, s: C.ClusterSpec, t: C.ClusterSpec)
    requires DecodesTo(doc, s) && DecodesTo(doc, t)
    ensures s.replicas == t.replicas && s.podAntiAffinity == t.podAntiAffinity
  {
  }

  /** Two documents whose specs hold the same under every other key. */
  ghost predicate SameOtherwise(doc: Json, doc': Json) {
    && HasSpec(doc) && HasSpec(doc')
    && forall k: Key | k != Replicas && k != PodAntiAffinity ::
         Member(doc.members[Spec], k) == Member(doc'.members[Spec], k)
  }

  lemma SettingPatched(doc: Json, key: Key, value: Json)
    requires HasSpec(doc) && Scalar(value) && !value.Null?
    ensures
      var doc' := Merge(doc, Object(map[Spec := Object(map[key := value])]));
      && HasSpec(doc')
      && forall k: Key ::
           Member(doc'.members[Spec], k) == if k == key then Some(value) else Member(doc.members[Spec], k)
  {
    var inner := Object(map[key := value]);
    MergedMember(doc, Object(map[Spec := inner]), Spec);
    forall k: Key
      ensures Member(Merge(doc.members[Spec], inner), k)
           == if k == key then Some(value) else Member(doc.members[Spec], k)
    {
      MergedMember(doc.members[Spec], inner, k);
    }
  }

  lemma FirstPatch(table: seq<LegacyDefault>, kind: Kind)
    requires table != [] && table[0].kind == kind
    ensures PatchesOf(table, kind) == [table[0].mergePatch] + PatchesOf(table[1..], kind)
  {
  }

  lemma {:induction false} NoPatchesOf(table: seq<LegacyDefault>, kind: Kind)
    requires forall e <- table :: e.kind != kind
    ensures PatchesOf(table, kind) == []
  {
    if table != [] {
      NoPatchesOf(table[1..], kind);
    }
  }

  lemma TwoPatches(table: seq<LegacyDefault>, kind: Kind)
    requires |table| >= 2 && table[0].kind == table[1].kind == kind
    requires forall e <- table[2..] :: e.kind != kind
    ensures PatchesOf(table, kind) == [table[0].mergePatch, table[1].mergePatch]
  {
    assert table[1..][1..] == table[2..];
    NoPatchesOf(table[2..], kind);
    FirstPatch(table, kind);
    FirstPatch(table[1..], kind);
  }

  lemma ClusterPatchesAreTabled()
    ensures PatchesOf(LEGACY_DEFAULTS, StreamlineCluster)
         == [CLUSTER_REPLICAS.mergePatch, POD_ANTI_AFFINITY.mergePatch]
  {
    TwoPatches(LEGACY_DEFAULTS, StreamlineCluster);
  }

  lemma PatchesApplied(doc: Json, s: C.ClusterSpec)
    requires DecodesTo(doc, s)
    ensures
      var doc' := MergeAll(doc, [CLUSTER_REPLICAS.mergePatch, POD_ANTI_AFFINITY.mergePatch]);
      DecodesTo(doc', C.Corrected(s)) && SameOtherwise(doc, doc')
  {
    var once := Merge(doc, CLUSTER_REPLICAS.mergePatch);
    SettingPatched(doc, Replicas, Number(1));
    SettingPatched(once, PodAntiAffinity, Bool(false));
    SplitFirst(doc, CLUSTER_REPLICAS.mergePatch, [POD_ANTI_AFFINITY.mergePatch]);
    SplitFirst(once, POD_ANTI_AFFINITY.mergePatch, []);
    assert [POD_ANTI_AFFINITY.mergePatch] + [] == [POD_ANTI_AFFINITY.mergePatch];
    assert [CLUSTER_REPLICAS.mergePatch] + [POD_ANTI_AFFINITY.mergePatch]
        == [CLUSTER_REPLICAS.mergePatch, POD_ANTI_AFFINITY.mergePatch];
  }

  /** Applied in any order to the stored document of any cluster, the two patches give the
      document of the corrected spec and change nothing else of it; and of the errors of
      the spec exactly those about the two settings go. */
  lemma PatchedClusterIsCorrected(doc: Json, s: C.ClusterSpec, order: seq<Json>)
    requires DecodesTo(doc, s)
    requires multiset(order) == multiset(PatchesOf(LEGACY_DEFAULTS, StreamlineCluster))
    ensures DecodesTo(MergeAll(doc, order), C.Corrected(s)) && SameOtherwise(doc, MergeAll(doc, order))
    ensures C.SpecErrors(C.Corrected(s)) == C.Others(C.SpecErrors(s))
  {
    PatchOrderIsIrrelevant(StreamlineCluster, doc, order);
    ClusterPatchesAreTabled();
    PatchesApplied(doc, s);
    C.ClusterPatchesClearTheirOwnErrors(s);
  }

  /** The table's values are those that validation accepts, and no other; the legacy ones
      it rejects. */
  lemma TabledValuesAreTheAcceptedOnes(s: C.ClusterSpec)
    ensures CLUSTER_REPLICAS.supported == Number(s.replicas)
       <==> forall e <- C.SpecErrors(s) :: !e.ReplicasTooLow? && !e.ReplicasUnsupported?
    ensures POD_ANTI_AFFINITY.supported == Bool(s.podAntiAffinity)
       <==> C.PodAntiAffinityUnsupported !in C.SpecErrors(s)
    ensures CLUSTER_REPLICAS.legacy == Number(s.replicas) ==> C.ReplicasUnsupported(s.replicas) in C.SpecErrors(s)
    ensures POD_ANTI_AFFINITY.legacy == Bool(s.podAntiAffinity) ==> C.PodAntiAffinityUnsupported in C.SpecErrors(s)
  {
    C.ErrorMember(s, C.ReplicasTooLow(s.replicas));
    C.ErrorMember(s, C.ReplicasUnsupported(s.replicas));
    C.ErrorMember(s, C.PodAntiAffinityUnsupported);
    forall e <- C.SpecErrors(s) | s.replicas == 1
      ensures !e.ReplicasTooLow? && !e.ReplicasUnsupported?
    {
      C.ErrorMember(s, e);
    }
  }

  /** A cluster that left both settings out, stored by v0.3.0 and valid otherwise, is
      rejected for the two defaults and for nothing else. */
  lemma StoredByV030(doc: Json, legacy: Schema, s: C.ClusterSpec)
    requires IsV030(legacy, StreamlineCluster) && HasSpec(doc)
    requires Lookup(doc, CLUSTER_REPLICAS.field).None? && Lookup(doc, POD_ANTI_AFFINITY.field).None?
    requires C.Supported(s)
    ensures
      var stored := s.(replicas := 3, podAntiAffinity := true);
      && DecodesTo(doc, s) && HasSpec(Defaulted(doc, legacy)) && DecodesTo(Defaulted(doc, legacy), stored)
      && forall e :: e in C.SpecErrors(stored) <==> e == C.ReplicasUnsupported(3) || e == C.PodAntiAffinityUnsupported
  {
    var stored := s.(replicas := 3, podAntiAffinity := true);
    ParentTellsWhatWasPersisted(CLUSTER_REPLICAS, doc, legacy);
    ParentTellsWhatWasPersisted(POD_ANTI_AFFINITY, doc, legacy);
    SettingAt(doc, Replicas);
    SettingAt(doc, PodAntiAffinity);
    SpecStays(doc, legacy);
    SettingAt(Defaulted(doc, legacy), Replicas);
    SettingAt(Defaulted(doc, legacy), PodAntiAffinity);
    LegacyErrors(s);
  }

  lemma LegacyErrors(s: C.ClusterSpec)
    requires C.Supported(s)
    ensures forall e :: e in C.SpecErrors(s.(replicas := 3, podAntiAffinity := true))
                   <==> e == C.ReplicasUnsupported(3) || e == C.PodAntiAffinityUnsupported
  {
    C.AcceptedMeansSupported(s);
    C.ErrorsExactly(s);
    C.ErrorsExactly(s.(replicas := 3, podAntiAffinity := true));
    assert forall e :: e in C.SpecErrors(s) <==> C.Justified(s, e);
  }

  lemma SettingAt(doc: Json, key: Key)
    requires HasSpec(doc)
    ensures Lookup(doc, [Spec, key]) == Member(doc.members[Spec], key)
  {
    var spec := doc.members[Spec];
    assert [Spec, key][1..] == [key] && [key][1..] == [];
    assert Member(doc, Spec) == Some(spec) && Lookup(spec, [key]) == Member(spec, key);
  }

  lemma SpecStays(doc: Json, s: Schema)
    requires HasSpec(doc)
    ensures HasSpec(Defaulted(doc, s))
  {
    DefaultedMember(doc, s, Spec);
    if Spec in s.properties {
      DefaultedMember(doc.members[Spec], s.properties[Spec], Spec);
    }
  }

  // ---------------------------------------------------------------------
  // Provenance
  // ---------------------------------------------------------------------

  /** Too few replicas carry no fix; too many are blamed on v0.3.0 when there are three. */
  function RemedyOf(e: C.SpecError): Option<Remedy> {
    match e
    case ReplicasUnsupported(n) => RemedyFor([Spec, Replicas], n == 3)
    case PodAntiAffinityUnsupported => RemedyFor([Spec, PodAntiAffinity], true)
    case _ => None
  }

  /** A reported error carries a fix exactly when it is about too many replicas or about
      anti-affinity; the fix is the tabled one of that setting, and v0.3.0 is blamed exactly
      when the spec holds the value v0.3.0 persisted. */
  lemma ProvenanceIsHonest(s: C.ClusterSpec, e: C.SpecError)
    requires e in C.SpecErrors(s)
    ensures RemedyOf(e).Some? <==> e == C.ReplicasUnsupported(s.replicas) || e.PodAntiAffinityUnsupported?
    ensures e.ReplicasUnsupported? ==>
              RemedyOf(e) == Some(Remedy(CLUSTER_REPLICAS, CLUSTER_REPLICAS.legacy == Number(s.replicas)))
    ensures e.PodAntiAffinityUnsupported? ==>
              RemedyOf(e) == Some(Remedy(POD_ANTI_AFFINITY, POD_ANTI_AFFINITY.legacy == Bool(s.podAntiAffinity)))
  {
    C.ErrorMember(s, e);
    ReplicasAreTabled();
    AntiAffinityIsTabled();
  }

  lemma ReplicasAreTabled()
    ensures CLUSTER_REPLICAS.field == [Spec, Replicas]
    ensures FindEntry(LEGACY_DEFAULTS, CLUSTER_REPLICAS.field) == Some(CLUSTER_REPLICAS)
  {
    assert LEGACY_DEFAULTS[0] == CLUSTER_REPLICAS;
    EntryIsFound(CLUSTER_REPLICAS);
  }

  lemma AntiAffinityIsTabled()
    ensures POD_ANTI_AFFINITY.field == [Spec, PodAntiAffinity]
    ensures FindEntry(LEGACY_DEFAULTS, POD_ANTI_AFFINITY.field) == Some(POD_ANTI_AFFINITY)
  {
    assert LEGACY_DEFAULTS[1] == POD_ANTI_AFFINITY;
    EntryIsFound(POD_ANTI_AFFINITY);
  }
}
