/** One reconcile of a StreamlineCluster: a sequence of writes, any of which may
    fail before or after it takes effect. */
module ClusterControllers {
  import opened Prelude
  import Conditions
  import opened StatusPublication
  import opened ClusterSpecs
  import opened ClusterRender
  import opened ClusterStatuses
  import opened Finalizers

  const CLUSTER_FINALIZER := "streamline.io/cluster-cleanup"

  /** The cluster's objects on the API server. */
  datatype Store = Store(
    finalizers: seq<string>,
    hpa: bool,
    configMap: Option<ConfigMapObject>,
    headless: Option<Service>,
    client: Option<Service>,
    statefulSet: Option<StatefulSet>,
    claims: set<string>,
    status: Option<Status<Body>>)

  /** The fate of the read and of the write of one create-or-patch. */
  datatype Upsert = Upsert(get: Fault, put: Fault)

  datatype Faults = Faults(
    finalizer: Fault, hpa: Upsert,
    configMap: Upsert, headless: Upsert, client: Upsert, statefulSet: Upsert,
    pods: Fault, status: Fault)

  const NO_UPSERT_FAULT := Upsert(Delivered, Delivered)
  const NO_FAULTS := Faults(
    Delivered, NO_UPSERT_FAULT, NO_UPSERT_FAULT, NO_UPSERT_FAULT, NO_UPSERT_FAULT, NO_UPSERT_FAULT, Delivered,
        Delivered)

  /** For an object being deleted: the listing of its claims, the claims listed, the fate
      of each delete, and that of the finalizer patch. */
  datatype Deletion = Deletion(listed: Fault, claims: seq<string>, deletes: seq<Fault>, patch: Fault)

  /** One reconcile's inputs: the object, whether it is being deleted, what the API
      server answers, how many pods it reports ready, and the clock. */
  datatype Inputs = Inputs(
    name: string, namespace: string, spec: ClusterSpec, generation: Option<int>,
    deletion: Option<Deletion>, readyPods: int, faults: Faults, clock: Clock)
  {
    function Subject(): Subject {
      ClusterStatuses.Subject(name, namespace, spec.replicas, spec.kafkaPort, generation)
    }

    predicate Valid() {
      |clock.readings| == 4 && (deletion.Some? ==> |deletion.value.claims| == |deletion.value.deletes|)
    }

    predicate Live() { deletion.None? }
  }

  datatype Error = KubeApi

  /** When to reconcile next: after so many seconds, or on the next change. */
  datatype Action = Requeue(seconds: nat) | AwaitChange

  // ---------------------------------------------------------------------
  // Autoscaling decision
  // ---------------------------------------------------------------------

  datatype HpaAction = Apply | Delete

  datatype HpaConfig = HpaConfig(enabled: bool)

  function DesiredHpaConfig(s: ClusterSpec, specIsValid: bool): HpaConfig {
    if s.autoscaling.None? then HpaConfig(false)
    else HpaConfig(s.autoscaling.value.enabled && specIsValid)
  }

  function ActionFor(config: HpaConfig): HpaAction {
    if config.enabled then Apply else Delete
  }

  datatype DeleteOutcome = Gone | Propagate

  /** Only "already absent" is a success in disguise. */
  function ClassifyDeleteError(code: Option<int>): DeleteOutcome {
    if code == Some(404) then Gone else Propagate
  }

  /** An HPA would be applied for an enabled block of a valid spec alone, and there is no
      such spec: validation rejects every enabled block, so the branch is unreachable. */
  lemma HpaIsNeverApplied(s: ClusterSpec)
    ensures forall valid: bool ::
      ActionFor(DesiredHpaConfig(s, valid)) == Apply <==> valid && s.autoscaling.Some? && s.autoscaling.value.enabled
    ensures ActionFor(DesiredHpaConfig(s, SpecErrors(s) == [])) == Delete
  {
    AcceptedMeansSupported(s);
  }

  // ---------------------------------------------------------------------
  // Reconcile
  // ---------------------------------------------------------------------

  /** What a create-or-patch leaves: with the object there and read, a patch;
      otherwise a create, which fails when the object is there after all. */
  function Upserted<T>(existing: Option<T>, desired: T, f: Upsert): (r: (Option<T>, bool))
  {
    if f.get.Delivered? && existing.Some? then
      (if f.put.TakesEffect() then Some(desired) else existing, f.put.Delivered?)
    else if existing.Some? then (existing, false)
    else (if f.put.TakesEffect() then Some(desired) else None, f.put.Delivered?)
  }

  class ClusterController {
    var store: Store

    constructor (store: Store)
      ensures this.store == store
    {
      this.store := store;
    }

    method EnsureFinalizer(fault: Fault) returns (r: Result<(), Error>)
      modifies this
      ensures store == old(store).(finalizers :=
                if CLUSTER_FINALIZER in old(store).finalizers || !fault.TakesEffect() then old(store).finalizers
                else old(store).finalizers + [CLUSTER_FINALIZER])
      ensures r.Ok? <==> CLUSTER_FINALIZER in old(store).finalizers || fault.Delivered?
      ensures r.Ok? ==> CLUSTER_FINALIZER in store.finalizers
    {
      if CLUSTER_FINALIZER in store.finalizers {
        return Ok(());
      }
      if fault.TakesEffect() {
        store := store.(finalizers := store.finalizers + [CLUSTER_FINALIZER]);
      }
      r := if fault.Delivered? then Ok(()) else Err(KubeApi);
    }

    /** A lost or failed delete is an error, so that it is retried; an absent HPA
        is a success. */
    method DeleteHpa(fault: Fault) returns (r: Result<(), Error>)
      modifies this
      ensures store == old(store).(hpa := old(store).hpa && !fault.TakesEffect())
      ensures r.Ok? <==> fault.Delivered?
      ensures r.Ok? ==> !store.hpa
    {
      var existed := store.hpa;
      if fault.TakesEffect() {
        store := store.(hpa := false);
      }
      if fault.Delivered? && existed {
        return Ok(());
      }
      var code := if fault.Delivered? then Some(404) else None;
      match ClassifyDeleteError(code)
      case Gone => r := Ok(());
      case Propagate => r := Err(KubeApi);
    }

    method ReconcileHpa(config: HpaConfig, fault: Upsert) returns (r: Result<(), Error>)
      modifies this
      ensures !config.enabled ==>
        && store == old(store).(hpa := old(store).hpa && !fault.put.TakesEffect())
        && (r.Ok? <==> fault.put.Delivered?)
        && (r.Ok? ==> !store.hpa)
      ensures config.enabled ==>
        var up := Upserted(if old(store).hpa then Some(()) else None, (), fault);
        store == old(store).(hpa := up.0.Some?) && (r.Ok? <==> up.1)
    {
      if ActionFor(config).Delete? {
        r := DeleteHpa(fault.put);
        return;
      }
      var up := Upserted(if store.hpa then Some(()) else None, (), fault);
      store := store.(hpa := up.0.Some?);
      r := if up.1 then Ok(()) else Err(KubeApi);
    }

    method ReconcileConfigMap(i: Inputs) returns (r: Result<(), Error>)
      modifies this
      ensures var up := Upserted(old(store).configMap, RenderConfigMap(i.name, i.spec), i.faults.configMap);
        store == old(store).(configMap := up.0) && (r.Ok? <==> up.1)
    {
      var lines := RenderConfig(i.spec);
      var up := Upserted(store.configMap, ConfigMapObject(i.name, lines), i.faults.configMap);
      store := store.(configMap := up.0);
      r := if up.1 then Ok(()) else Err(KubeApi);
    }

    method ReconcileHeadlessService(i: Inputs) returns (r: Result<(), Error>)
      modifies this
      ensures var up := Upserted(old(store).headless, RenderHeadless(i.name, i.spec), i.faults.headless);
        store == old(store).(headless := up.0) && (r.Ok? <==> up.1)
    {
      var up := Upserted(store.headless, RenderHeadless(i.name, i.spec), i.faults.headless);
      store := store.(headless := up.0);
      r := if up.1 then Ok(()) else Err(KubeApi);
    }

    method ReconcileClientService(i: Inputs) returns (r: Result<(), Error>)
      modifies this
      ensures var up := Upserted(old(store).client, RenderClient(i.name, i.spec), i.faults.client);
        store == old(store).(client := up.0) && (r.Ok? <==> up.1)
    {
      var up := Upserted(store.client, RenderClient(i.name, i.spec), i.faults.client);
      store := store.(client := up.0);
      r := if up.1 then Ok(()) else Err(KubeApi);
    }

    method ReconcileStatefulSet(i: Inputs) returns (r: Result<(), Error>)
      modifies this
      ensures var up := Upserted(old(store).statefulSet, RenderStatefulSet(i.name, i.spec), i.faults.statefulSet);
        store == old(store).(statefulSet := up.0) && (r.Ok? <==> up.1)
    {
      var desired := BuildStatefulSet(i.name, i.spec);
      var up := Upserted(store.statefulSet, desired, i.faults.statefulSet);
      store := store.(statefulSet := up.0);
      r := if up.1 then Ok(()) else Err(KubeApi);
    }

    method PublishStatus(d: Desired<Body>, i: Inputs) returns (r: Result<(), Error>)
      requires |d.updates| == |i.clock.readings|
      modifies this
      ensures var built := Build(old(store).status, d, i.clock);
        && store == old(store).(status := if i.faults.status.TakesEffect() then Some(built) else old(store).status)
        && (r.Ok? <==> old(store).status == Some(built) || i.faults.status.Delivered?)
    {
      var publisher := new Publisher(store.status);
      var ok := publisher.PatchStatusIfChanged(Build(store.status, d, i.clock), i.faults.status);
      store := store.(status := publisher.published);
      r := if ok then Ok(()) else Err(KubeApi);
    }

    method ReconcileWorkloads(i: Inputs) returns (r: Result<(), Error>)
      modifies this
      ensures (store, r.Ok?) == Rendered(old(store), ObjectsOf(i), i.faults)
    {
      r := ReconcileConfigMap(i);
      if r.Err? { return; }
      r := ReconcileHeadlessService(i);
      if r.Err? { return; }
      r := ReconcileClientService(i);
      if r.Err? { return; }
      r := ReconcileStatefulSet(i);
    }

    /** What happens before the validation gate, for accepted and rejected specs
        alike. */
    method Prepare(i: Inputs, hpa: HpaConfig) returns (r: Result<(), Error>)
      requires !hpa.enabled
      modifies this
      ensures (store, r.Ok?) == Prepared(old(store), i.faults)
    {
      r := EnsureFinalizer(i.faults.finalizer);
      if r.Err? { return; }
      r := ReconcileHpa(hpa, i.faults.hpa);
    }

    method ReconcileAccepted(i: Inputs) returns (r: Result<Action, Error>)
      requires i.Valid()
      modifies this
      ensures (store, r.Ok?) == Realized(old(store), ObjectsOf(i), Observed(i.Subject(), i.readyPods), i.faults,
          i.clock)
      ensures r.Ok? ==> r.value == Requeue(60)
    {
      var step := ReconcileWorkloads(i);
      if step.Err? { return Err(KubeApi); }
      if !i.faults.pods.Delivered? { return Err(KubeApi); }
      step := PublishStatus(Observed(i.Subject(), i.readyPods), i);
      r := if step.Ok? then Ok(Requeue(60)) else Err(KubeApi);
    }

    /** The order is finalizer, HPA cleanup, validation gate, ConfigMap, Services,
        StatefulSet, status; the first failure ends the reconcile. The call that
        would apply an HPA after the StatefulSet is unreachable. An object being
        deleted is cleaned up instead. */
    method Reconcile(i: Inputs) returns (r: Result<Action, Error>)
      requires i.Valid()
      modifies this
      ensures (store, r.Ok?) == Outcome(old(store), i)
      ensures r.Ok? ==> r.value == (if !i.Live() then AwaitChange else Requeue(if Supported(i.spec) then 60 else 300))
    {
      if i.deletion.Some? {
        var deleted := HandleDeletion(i.deletion.value);
        return if deleted.Ok? then Ok(AwaitChange) else Err(KubeApi);
      }
      r := ReconcileLive(i);
    }

    method ReconcileLive(i: Inputs) returns (r: Result<Action, Error>)
      requires i.Valid()
      modifies this
      ensures (store, r.Ok?) == Executed(old(store), PlanOf(i), i.faults, i.clock)
      ensures r.Ok? ==> r.value == Requeue(if Supported(i.spec) then 60 else 300)
    {
      var errors := Validate(i.spec);
      HpaIsNeverApplied(i.spec);
      var step := Prepare(i, DesiredHpaConfig(i.spec, errors == []));
      if step.Err? { return Err(KubeApi); }
      if errors != [] {
        assert PlanOf(i) == Plan(None, Invalid(i.Subject(), Rejection(errors)));
        step := PublishStatus(Invalid(i.Subject(), Rejection(errors)), i);
        r := if step.Ok? then Ok(Requeue(300)) else Err(KubeApi);
      } else {
        r := ReconcileAccepted(i);
      }
    }

    /** One delete for each claim listed, whatever became of the ones before. */
    method DeleteClaims(d: Deletion)
      requires |d.claims| == |d.deletes|
      modifies this
      ensures store == old(store).(claims := old(store).claims
          - (set k | 0 <= k < |d.claims| && d.deletes[k].TakesEffect() :: d.claims[k]))
    {
      ghost var before := store;
      for k := 0 to |d.claims|
        invariant store == before.(claims := store.claims)
        invariant store.claims == before.claims - (set j | 0 <= j < k && d.deletes[j].TakesEffect() :: d.claims[j])
      {
        if d.deletes[k].TakesEffect() {
          store := store.(claims := store.claims - {d.claims[k]});
        }
      }
    }

    /** Claims are deleted as far as the API server lets them; the finalizer goes
        in any case, and every other finalizer stays, in order. */
    method HandleDeletion(d: Deletion) returns (r: Result<(), Error>)
      requires |d.claims| == |d.deletes|
      modifies this
      ensures (store, r.Ok?) == Deleted(old(store), d)
      ensures DeletionLeaves(old(store), d, store, r.Ok?)
      ensures r.Ok? ==> CLUSTER_FINALIZER !in store.finalizers
      ensures r.Ok? && (forall f <- d.deletes :: !f.LostBefore?) ==> forall c <- d.claims :: c !in store.claims
    {
      ghost var before := store;
      DeletionExactly(before, d);
      AllAreTaken(d);
      if !d.listed.Delivered? {
        return Err(KubeApi);
      }
      DeleteClaims(d);
      if d.patch.TakesEffect() {
        store := store.(finalizers := Without(store.finalizers, CLUSTER_FINALIZER));
      }
      r := if d.patch.Delivered? then Ok(()) else Err(KubeApi);
    }
  }

  // ---------------------------------------------------------------------
  // What one reconcile does to the store
  // ---------------------------------------------------------------------

  function Wording(e: SpecError): Conditions.Text {
    match e
    case ReplicasTooLow(n) => Conditions.Figures("replicas must be >= 1", [n])
    case ReplicasUnsupported(n) => Conditions.Figures("replicas is not supported", [n])
    case PortOutOfRange(field, p) => Conditions.Figures(field, [p])
    case PortsNotDistinct => Conditions.Words("ports must all be different")
    case EnvEntry(k, named, reason) =>
      Conditions.Joined([Conditions.Figures("env", [k]), Conditions.Words(named.GetOr("")), EnvWording(reason)])
    case PodAntiAffinityUnsupported => Conditions.Words("podAntiAffinity is not supported")
    case RackAwarenessUnsupported => Conditions.Words("rackAwareness.enabled is not supported")
    case TolerationsUnsupported(n) => Conditions.Figures("tolerations are not supported", [n])
    case AutoscalingUnsupported => Conditions.Words("autoscaling.enabled is not supported")
    case MinReplicasTooLow(n) => Conditions.Figures("autoscaling.minReplicas must be >= 1", [n])
    case MaxBelowMin(x, n) => Conditions.Figures("autoscaling.maxReplicas must be >= minReplicas", [x, n])
    case TargetCpuOutOfRange(n) => Conditions.Figures("autoscaling.targetCpuUtilization must be 1-100", [n])
    case TlsSecretNameMissing => Conditions.Words("tls.secretName is required")
    case CaSecretNameMissing => Conditions.Words("tls.caSecretName is required")
    case InsecureSkipVerifyUnsupported => Conditions.Words("tls.insecureSkipVerify is not supported")
    case MtlsWithoutTls => Conditions.Words("tls.mtlsEnabled requires tls.enabled")
  }

  function EnvWording(e: EnvError): Conditions.Text {
    match e
    case EmptyName => Conditions.Words("name must not be empty")
    case NeitherValueNorSource => Conditions.Words("must set value or valueFrom")
    case BothValueAndSource => Conditions.Words("value and valueFrom are mutually exclusive")
    case TwoReferences => Conditions.Words("valueFrom must set exactly one reference")
    case NoReference => Conditions.Words("valueFrom must set a reference")
    case BlankRefName(field) => Conditions.Joined([Conditions.Words(field), Conditions.Words("name must not be empty")])
    case BlankRefKey(field) => Conditions.Joined([Conditions.Words(field), Conditions.Words("key must not be empty")])
  }

  /** The rejection message joins the wordings of all errors. */
  function Rejection(errors: seq<SpecError>): Conditions.Text {
    Conditions.Joined(seq(|errors|, k requires 0 <= k < |errors| => Wording(errors[k])))
  }

  /** The objects an accepted spec renders to. */
  datatype Objects = Objects(configMap: ConfigMapObject, headless: Service, client: Service, statefulSet: StatefulSet)

  function ObjectsOf(i: Inputs): Objects {
    Objects(RenderConfigMap(i.name, i.spec), RenderHeadless(i.name, i.spec),
            RenderClient(i.name, i.spec), RenderStatefulSet(i.name, i.spec))
  }

  /** What a reconcile sets out to do: None for a rejected spec, which publishes
      its rejection and renders nothing. */
  datatype Plan = Plan(objects: Option<Objects>, status: Desired<Body>)

  function PlanOf(i: Inputs): (p: Plan)
    ensures WellFormed(p.status) && |p.status.updates| == 4
  {
    if Supported(i.spec) then Plan(Some(ObjectsOf(i)), Observed(i.Subject(), i.readyPods))
    else Plan(None, Invalid(i.Subject(), Rejection(SpecErrors(i.spec))))
  }

  /** The error is one that validation reports: of a known port, and of an entry whose name
      it mentions only if there is one. */
  predicate IsReported(e: SpecError) {
    && (e.PortOutOfRange? ==> e.field in {"kafkaPort", "httpPort", "raftPort"})
    && (e.EnvEntry? ==> e.named != Some(""))
  }

  /** The wordings without figures differ in length, or else in how they begin. */
  lemma FixedWordings(e: SpecError)
    ensures
      match e
      case PortsNotDistinct => Wording(e).Words? && |Wording(e).words| == 27
      case PodAntiAffinityUnsupported => Wording(e).Words? && |Wording(e).words| == 32
      case RackAwarenessUnsupported => Wording(e).Words? && |Wording(e).words| == 38
      case AutoscalingUnsupported => Wording(e).Words? && |Wording(e).words| == 36 && Wording(e).words[0] == 'a'
      case TlsSecretNameMissing => Wording(e).Words? && |Wording(e).words| == 26
      case CaSecretNameMissing => Wording(e).Words? && |Wording(e).words| == 28
      case InsecureSkipVerifyUnsupported => Wording(e).Words? && |Wording(e).words| == 39
      case MtlsWithoutTls => Wording(e).Words? && |Wording(e).words| == 36 && Wording(e).words[0] == 't'
      case EnvEntry(k, named, reason) => Wording(e).Joined?
      case _ => Wording(e).Figures?
  {
  }

  /** And so do those with. */
  lemma FiguredWordings(e: SpecError)
    requires IsReported(e)
    ensures
      match e
      case ReplicasTooLow(n) => |Wording(e).words| == 21 && Wording(e).figures == [n]
      case ReplicasUnsupported(n) => |Wording(e).words| == 25 && Wording(e).figures == [n]
      case PortOutOfRange(field, p) =>
        Wording(e).words == field && |field| in {8, 9} && Wording(e).figures == [p]
      case TolerationsUnsupported(n) => |Wording(e).words| == 29 && Wording(e).figures == [n]
      case MinReplicasTooLow(n) => |Wording(e).words| == 36 && Wording(e).figures == [n]
      case MaxBelowMin(x, n) => Wording(e).figures == [x, n]
      case TargetCpuOutOfRange(n) => |Wording(e).words| == 46 && Wording(e).figures == [n]
      case _ => true
  {
    assert |"kafkaPort"| == 9 && |"httpPort"| == 8 && |"raftPort"| == 8;
  }

  lemma EntryWordings(a: EnvError, b: EnvError)
    ensures EnvWording(a) == EnvWording(b) <==> a == b
  {
    EntryWording(a);
    EntryWording(b);
  }

  lemma EntryWording(e: EnvError)
    ensures
      match e
      case EmptyName => EnvWording(e).Words? && |EnvWording(e).words| == 22
      case NeitherValueNorSource => EnvWording(e).Words? && |EnvWording(e).words| == 27
      case BothValueAndSource => EnvWording(e).Words? && |EnvWording(e).words| == 42
      case TwoReferences => EnvWording(e).Words? && |EnvWording(e).words| == 40
      case NoReference => EnvWording(e).Words? && |EnvWording(e).words| == 30
      case BlankRefName(field) =>
        && EnvWording(e).Joined? && |EnvWording(e).parts| == 2 && EnvWording(e).parts[0] == Conditions.Words(field)
        && EnvWording(e).parts[1].Words? && |EnvWording(e).parts[1].words| == 22
      case BlankRefKey(field) =>
        && EnvWording(e).Joined? && |EnvWording(e).parts| == 2 && EnvWording(e).parts[0] == Conditions.Words(field)
        && EnvWording(e).parts[1].Words? && |EnvWording(e).parts[1].words| == 21
  {
  }

  lemma EntriesAreToldApart(e: SpecError, f: SpecError)
    requires e.EnvEntry? && f.EnvEntry? && IsReported(e) && IsReported(f) && Wording(e) == Wording(f)
    ensures e == f
  {
    var a, b := Wording(e).parts, Wording(f).parts;
    assert a[0] == Conditions.Figures("env", [e.index]) && b[0] == Conditions.Figures("env", [f.index]);
    assert [e.index][0] == [f.index][0];
    assert a[1] == Conditions.Words(e.named.GetOr("")) && b[1] == Conditions.Words(f.named.GetOr(""));
    assert a[2] == EnvWording(e.reason) && b[2] == EnvWording(f.reason);
    EntryWordings(e.reason, f.reason);
  }

  /** No two errors read the same. */
  lemma ErrorsAreToldApart(e: SpecError, f: SpecError)
    requires IsReported(e) && IsReported(f) && Wording(e) == Wording(f)
    ensures e == f
  {
    FixedWordings(e);
    FixedWordings(f);
    FiguredWordings(e);
    FiguredWordings(f);
    if e.EnvEntry? {
      EntriesAreToldApart(e, f);
    } else if Wording(e).Figures? {
      assert Wording(e).figures[0] == Wording(f).figures[0];
    }
  }

  lemma ReportedErrors(s: ClusterSpec)
    ensures forall e <- SpecErrors(s) :: IsReported(e)
  {
    ErrorsExactly(s);
    assert Blank("");
  }

  /** The message of a rejection holds every error in full: two rejected specs are given the
      same message if and only if they have the same errors, in the same order. */
  lemma RejectionsAreToldApart(s: ClusterSpec, t: ClusterSpec)
    ensures Rejection(SpecErrors(s)) == Rejection(SpecErrors(t)) <==> SpecErrors(s) == SpecErrors(t)
  {
    var a, b := SpecErrors(s), SpecErrors(t);
    ReportedErrors(s);
    ReportedErrors(t);
    if Rejection(a) == Rejection(b) {
      assert |Rejection(a).parts| == |a| && |Rejection(b).parts| == |b|;
      forall k | 0 <= k < |a|
        ensures a[k] == b[k]
      {
        assert Rejection(a).parts[k] == Wording(a[k]) && Rejection(b).parts[k] == Wording(b[k]);
        assert a[k] in a && b[k] in b;
        ErrorsAreToldApart(a[k], b[k]);
      }
    }
  }

  /** A rejected spec that is rejected again publishes nothing if and only if it has the same
      errors, asks for as many replicas, and is of the same generation. */
  lemma RejectionsAreQuietExactly(prior: Option<Status<Body>>, i: Inputs, j: Inputs)
    requires i.Valid() && j.Valid() && !Supported(i.spec) && !Supported(j.spec)
    ensures
      var published := Build(prior, PlanOf(i).status, i.clock);
      Build(Some(published), PlanOf(j).status, j.clock) == published
      <==> SpecErrors(i.spec) == SpecErrors(j.spec) && i.spec.replicas == j.spec.replicas
           && i.generation == j.generation
  {
    var d, e := PlanOf(i).status, PlanOf(j).status;
    QuietExactly(prior, d, e, i.clock, j.clock);
    RejectionsAreToldApart(i.spec, j.spec);
    assert d.updates[0].message == Rejection(SpecErrors(i.spec));
    assert e.updates[0].message == Rejection(SpecErrors(j.spec));
  }

  function Finalized(s: Store, fault: Fault): (Store, bool) {
    if CLUSTER_FINALIZER in s.finalizers then (s, true)
    else
      (if fault.TakesEffect() then s.(finalizers := s.finalizers + [CLUSTER_FINALIZER]) else s,
       fault.Delivered?)
  }

  function StatusPatched(s: Store, d: Desired<Body>, clock: Clock, fault: Fault): (Store, bool)
    requires |d.updates| == |clock.readings|
  {
    var built := Build(s.status, d, clock);
    (if fault.TakesEffect() then s.(status := Some(built)) else s,
     s.status == Some(built) || fault.Delivered?)
  }

  /** The workload writes, in order, up to the first failure. */
  function Rendered(s: Store, o: Objects, f: Faults): (Store, bool) {
    var configMap := Upserted(s.configMap, o.configMap, f.configMap);
    var s1 := s.(configMap := configMap.0);
    if !configMap.1 then (s1, false)
    else
      var headless := Upserted(s1.headless, o.headless, f.headless);
      var s2 := s1.(headless := headless.0);
      if !headless.1 then (s2, false)
      else
        var client := Upserted(s2.client, o.client, f.client);
        var s3 := s2.(client := client.0);
        if !client.1 then (s3, false)
        else
          var statefulSet := Upserted(s3.statefulSet, o.statefulSet, f.statefulSet);
          (s3.(statefulSet := statefulSet.0), statefulSet.1)
  }

  function Cleaned(s: Store, f: Faults): Store {
    s.(hpa := s.hpa && !f.hpa.put.TakesEffect())
  }

  function Prepared(s: Store, f: Faults): (Store, bool) {
    var finalized := Finalized(s, f.finalizer);
    if !finalized.1 then finalized else (Cleaned(finalized.0, f), f.hpa.put.Delivered?)
  }

  function Realized(s: Store, o: Objects, d: Desired<Body>, f: Faults, clock: Clock): (Store, bool)
    requires |d.updates| == |clock.readings|
  {
    var rendered := Rendered(s, o, f);
    if !rendered.1 || !f.pods.Delivered? then (rendered.0, false)
    else StatusPatched(rendered.0, d, clock, f.status)
  }

  /** The store afterwards, and whether every call succeeded. */
  function Executed(s: Store, p: Plan, f: Faults, clock: Clock): (Store, bool)
    requires |p.status.updates| == |clock.readings|
  {
    var prepared := Prepared(s, f);
    if !prepared.1 then prepared
    else if p.objects.None? then StatusPatched(prepared.0, p.status, clock, f.status)
    else Realized(prepared.0, p.objects.value, p.status, f, clock)
  }

  /** The claims whose delete took effect are gone, and so is the finalizer once its
      patch took effect; nothing else changes. */
  function Deleted(s: Store, d: Deletion): (Store, bool)
    requires |d.claims| == |d.deletes|
  {
    if !d.listed.Delivered? then (s, false)
    else
      (s.(claims := s.claims - (set k | 0 <= k < |d.claims| && d.deletes[k].TakesEffect() :: d.claims[k]),
          finalizers := if d.patch.TakesEffect() then Without(s.finalizers, CLUSTER_FINALIZER) else s.finalizers),
       d.patch.Delivered?)
  }

  /** A listed claim of this name has a delete that takes effect. */
  predicate IsTaken(d: Deletion, claim: string)
    requires |d.claims| == |d.deletes|
  {
    exists k | 0 <= k < |d.claims| :: d.claims[k] == claim && !d.deletes[k].LostBefore?
  }

  /** What a deletion leaves: the claims that were there and that no delete took, and no
      finalizer of the operator once its patch takes effect. Without a listing nothing
      changes, and success needs both the listing and the patch answered. */
  ghost predicate DeletionLeaves(s: Store, d: Deletion, t: Store, ok: bool)
    requires |d.claims| == |d.deletes|
  {
    && (ok <==> d.listed.Delivered? && d.patch.Delivered?)
    && (!d.listed.Delivered? ==> t == s)
    && (d.listed.Delivered? ==>
          && t == s.(claims := t.claims, finalizers := t.finalizers)
          && (forall c :: c in t.claims <==> c in s.claims && !IsTaken(d, c))
          && (if d.patch.LostBefore? then t.finalizers == s.finalizers
              else CLUSTER_FINALIZER !in t.finalizers
                   && forall f | f != CLUSTER_FINALIZER :: multiset(t.finalizers)[f] == multiset(s.finalizers)[f]))
  }

  lemma AllAreTaken(d: Deletion)
    requires |d.claims| == |d.deletes|
    ensures (forall f <- d.deletes :: !f.LostBefore?) ==> forall c <- d.claims :: IsTaken(d, c)
  {
    if forall f <- d.deletes :: !f.LostBefore? {
      forall c <- d.claims
        ensures IsTaken(d, c)
      {
        var k :| 0 <= k < |d.claims| && d.claims[k] == c;
        assert d.deletes[k] in d.deletes;
      }
    }
  }

  lemma DeletionExactly(s: Store, d: Deletion)
    requires |d.claims| == |d.deletes|
    ensures DeletionLeaves(s, d, Deleted(s, d).0, Deleted(s, d).1)
  {
    WithoutRemoves(s.finalizers, CLUSTER_FINALIZER);
  }

  /** The store after a reconcile of a live object or of one being deleted, and whether
      it succeeded. */
  function Outcome(s: Store, i: Inputs): (Store, bool)
    requires i.Valid()
  {
    if i.deletion.Some? then Deleted(s, i.deletion.value) else Executed(s, PlanOf(i), i.faults, i.clock)
  }

  function Reconciled(s: Store, i: Inputs): Store
    requires i.Valid()
  {
    Outcome(s, i).0
  }

  /** A cluster being deleted, whatever its spec: which claims and finalizers are left and
      when that counts as success; when every delete takes effect, no listed claim is. */
  lemma DeletedClusterLosesItsClaims(s: Store, i: Inputs)
    requires i.Valid() && i.deletion.Some?
    ensures DeletionLeaves(s, i.deletion.value, Reconciled(s, i), Outcome(s, i).1)
    ensures i.deletion.value.listed.Delivered? && (forall f <- i.deletion.value.deletes :: !f.LostBefore?) ==>
              forall c <- i.deletion.value.claims :: c !in Reconciled(s, i).claims
  {
    DeletionExactly(s, i.deletion.value);
    AllAreTaken(i.deletion.value);
  }

  /** A create-or-patch can take effect: a create when there is no object, a patch when
      the object was read. A create of an object that could not be read is refused. */
  predicate Goes(existing: bool, f: Upsert) {
    existing ==> f.get.Delivered?
  }

  /** The call takes effect and is answered. */
  predicate Succeeds(existing: bool, f: Upsert) {
    Goes(existing, f) && f.put.Delivered?
  }

  function Written<T>(reached: bool, existing: Option<T>, desired: T, f: Upsert): Option<T> {
    if reached && Goes(existing.Some?, f) && !f.put.LostBefore? then Some(desired) else existing
  }

  predicate WritesAll(s: Store, f: Faults) {
    && Succeeds(s.configMap.Some?, f.configMap) && Succeeds(s.headless.Some?, f.headless)
    && Succeeds(s.client.Some?, f.client) && Succeeds(s.statefulSet.Some?, f.statefulSet)
  }

  /** The four writes, told one by one: each takes effect exactly when it is reached, which
      is when all before it succeeded, and is not lost itself. */
  predicate EachWrite(reached: bool, s: Store, o: Objects, f: Faults, t: Store) {
    var toHeadless := reached && Succeeds(s.configMap.Some?, f.configMap);
    var toClient := toHeadless && Succeeds(s.headless.Some?, f.headless);
    var toStatefulSet := toClient && Succeeds(s.client.Some?, f.client);
    && t.configMap == Written(reached, s.configMap, o.configMap, f.configMap)
    && t.headless == Written(toHeadless, s.headless, o.headless, f.headless)
    && t.client == Written(toClient, s.client, o.client, f.client)
    && t.statefulSet == Written(toStatefulSet, s.statefulSet, o.statefulSet, f.statefulSet)
  }

  lemma RenderedExactly(s: Store, o: Objects, f: Faults)
    ensures EachWrite(true, s, o, f, Rendered(s, o, f).0)
    ensures Rendered(s, o, f).1 <==> WritesAll(s, f)
  {
  }

  /** The calls of a live reconcile likewise: the finalizer, the HPA cleanup, the objects if
      there are any to render, the listing of the pods for those that are, and the status. The
      reconcile succeeds exactly when every call does. */
  predicate EachCall(s: Store, o: Option<Objects>, d: Desired<Body>, f: Faults, clock: Clock, t: Store, ok: bool)
    requires |d.updates| == |clock.readings|
  {
    var atHpa := CLUSTER_FINALIZER in s.finalizers || f.finalizer.Delivered?;
    var atGate := atHpa && f.hpa.put.Delivered?;
    var atStatus := atGate && (o.Some? ==> WritesAll(s, f) && f.pods.Delivered?);
    var built := Build(s.status, d, clock);
    && t.finalizers == (if CLUSTER_FINALIZER in s.finalizers || f.finalizer.LostBefore? then s.finalizers
                        else s.finalizers + [CLUSTER_FINALIZER])
    && t.hpa == (s.hpa && !(atHpa && !f.hpa.put.LostBefore?))
    && (if o.Some? then EachWrite(atGate, s, o.value, f, t) else SameWorkloads(s, t))
    && t.claims == s.claims
    && t.status == (if atStatus && !f.status.LostBefore? then Some(built) else s.status)
    && (ok <==> atStatus && (s.status == Some(built) || f.status.Delivered?))
  }

  lemma ExecutedExactly(s: Store, p: Plan, f: Faults, clock: Clock)
    requires |p.status.updates| == |clock.readings|
    ensures EachCall(s, p.objects, p.status, f, clock, Executed(s, p, f, clock).0, Executed(s, p, f, clock).1)
  {
    if p.objects.Some? && Prepared(s, f).1 {
      RenderedExactly(Prepared(s, f).0, p.objects.value, f);
      RenderedTouchesWorkloadsOnly(Prepared(s, f).0, p.objects.value, f);
    }
  }

  /** An accepted spec gets its four objects and the status of the pods observed, a
      rejected one the status that says why, each by the calls above. */
  lemma EachCallExactly(s: Store, i: Inputs)
    requires i.Valid() && i.Live()
    ensures
      var (t, ok) := Outcome(s, i);
      var subject := ClusterStatuses.Subject(i.name, i.namespace, i.spec.replicas, i.spec.kafkaPort, i.generation);
      if Supported(i.spec) then
        var objects := Objects(RenderConfigMap(i.name, i.spec), RenderHeadless(i.name, i.spec),
                               RenderClient(i.name, i.spec), RenderStatefulSet(i.name, i.spec));
        EachCall(s, Some(objects), Observed(subject, i.readyPods), i.faults, i.clock, t, ok)
      else
        EachCall(s, None, Invalid(subject, Rejection(SpecErrors(i.spec))), i.faults, i.clock, t, ok)
  {
    ExecutedExactly(s, PlanOf(i), i.faults, i.clock);
  }

  predicate Holds(s: Store, o: Objects) {
    && s.configMap == Some(o.configMap) && s.headless == Some(o.headless)
    && s.client == Some(o.client) && s.statefulSet == Some(o.statefulSet)
  }

  /** The four workload objects are what the spec renders to. */
  predicate Converged(s: Store, i: Inputs) {
    && s.configMap == Some(RenderConfigMap(i.name, i.spec))
    && s.headless == Some(RenderHeadless(i.name, i.spec))
    && s.client == Some(RenderClient(i.name, i.spec))
    && s.statefulSet == Some(RenderStatefulSet(i.name, i.spec))
  }

  predicate SameWorkloads(s: Store, t: Store) {
    s.configMap == t.configMap && s.headless == t.headless && s.client == t.client && s.statefulSet == t.statefulSet
  }

  // ---------------------------------------------------------------------
  // Convergence
  // ---------------------------------------------------------------------

  predicate StepAt(states: seq<Store>, run: seq<Inputs>, k: nat)
    requires |states| == |run| + 1 && k < |run|
  {
    run[k].Valid() && states[k + 1] == Reconciled(states[k], run[k])
  }

  /** A run: each pass takes the store it finds to the next. */
  ghost predicate IsRun(states: seq<Store>, run: seq<Inputs>) {
    |states| == |run| + 1 && forall k: nat | k < |run| :: StepAt(states, run, k)
  }

  lemma RealizedWithoutFaults(s: Store, o: Objects, d: Desired<Body>, clock: Clock)
    requires |d.updates| == |clock.readings|
    ensures Realized(s, o, d, NO_FAULTS, clock)
         == (s.(configMap := Some(o.configMap), headless := Some(o.headless), client := Some(o.client),
                statefulSet := Some(o.statefulSet), status := Some(Build(s.status, d, clock))), true)
  {
  }

  lemma PreparedWithoutFaults(s: Store)
    ensures var (t, ok) := Prepared(s, NO_FAULTS);
      && ok && !t.hpa && CLUSTER_FINALIZER in t.finalizers
      && t == s.(hpa := false, finalizers := t.finalizers)
      && (CLUSTER_FINALIZER in s.finalizers ==> t.finalizers == s.finalizers)
  {
  }

  lemma ExecutedWithoutFaults(s: Store, p: Plan, clock: Clock)
    requires |p.status.updates| == |clock.readings|
    ensures
      var (t, ok) := Executed(s, p, NO_FAULTS, clock);
      && ok && !t.hpa && CLUSTER_FINALIZER in t.finalizers && t.claims == s.claims
      && (CLUSTER_FINALIZER in s.finalizers ==> t.finalizers == s.finalizers)
      && t.status == Some(Build(s.status, p.status, clock))
      && (if p.objects.Some? then Holds(t, p.objects.value) else SameWorkloads(s, t))
  {
    PreparedWithoutFaults(s);
    if p.objects.Some? {
      RealizedWithoutFaults(Prepared(s, NO_FAULTS).0, p.objects.value, p.status, clock);
    }
  }

  /** One fault-free reconcile of a live object, from any store, which is to say after
      any run of failures, leaves no operator HPA; an accepted spec gets all four objects
      as rendered and a status built from the pod count, and a rejected one leaves every
      workload as it found it. */
  lemma ConvergesFromAnyStore(s: Store, i: Inputs)
    requires i.Valid() && i.Live() && i.faults == NO_FAULTS
    ensures
      var after := Reconciled(s, i);
      && !after.hpa
      && CLUSTER_FINALIZER in after.finalizers
      && (Supported(i.spec) ==>
            Converged(after, i) && after.status == Some(Build(s.status, Observed(i.Subject(), i.readyPods), i.clock)))
      && (!Supported(i.spec) ==> SameWorkloads(s, after) && after.status.Some? && after.status.value.body.phase.Failed?)
  {
    ExecutedWithoutFaults(s, PlanOf(i), i.clock);
  }

  /** The pass renders what `i` renders, or nothing. */
  predicate KeepsTo(i: Inputs, pass: Inputs) {
    !pass.Live() || !Supported(pass.spec) || (pass.name == i.name && pass.spec == i.spec)
  }

  lemma RewritingIsHarmless(s: Store, o: Objects, f: Faults)
    requires Holds(s, o)
    ensures Holds(Rendered(s, o, f).0, o)
  {
  }

  lemma ExecutedKeeps(s: Store, p: Plan, f: Faults, clock: Clock, o: Objects)
    requires |p.status.updates| == |clock.readings|
    requires Holds(s, o) && (p.objects.Some? ==> p.objects.value == o)
    ensures Holds(Executed(s, p, f, clock).0, o)
  {
    if p.objects.Some? {
      RewritingIsHarmless(Prepared(s, f).0, o, f);
    }
  }

  /** What has converged stays converged: a pass on the same spec, on a rejected one or on
      the object being deleted leaves the four objects as rendered, however its calls
      fail, and an HPA that is gone stays gone. */
  lemma ConvergenceLasts(s: Store, i: Inputs, pass: Inputs)
    requires pass.Valid() && KeepsTo(i, pass) && Converged(s, i)
    ensures Converged(Reconciled(s, pass), i)
    ensures Reconciled(s, pass).hpa ==> s.hpa
  {
    ReconcileIsBounded(s, pass);
    if pass.Live() {
      assert PlanOf(pass).objects.Some? ==> ObjectsOf(pass) == ObjectsOf(i);
      ExecutedKeeps(s, PlanOf(pass), pass.faults, pass.clock, ObjectsOf(i));
    }
  }

  /** As rendered, and without an operator HPA. */
  predicate Steady(s: Store, i: Inputs) {
    Converged(s, i) && !s.hpa
  }

  lemma BecomesSteady(states: seq<Store>, run: seq<Inputs>, k: nat)
    requires IsRun(states, run) && k < |run|
    requires run[k].Live() && run[k].faults == NO_FAULTS && Supported(run[k].spec)
    ensures Steady(states[k + 1], run[k])
  {
    assert StepAt(states, run, k);
    ConvergesFromAnyStore(states[k], run[k]);
  }

  lemma StaysSteady(states: seq<Store>, run: seq<Inputs>, i: Inputs, k: nat)
    requires IsRun(states, run) && k < |run| && KeepsTo(i, run[k]) && Steady(states[k], i)
    ensures Steady(states[k + 1], i)
  {
    assert StepAt(states, run, k);
    ConvergenceLasts(states[k], i, run[k]);
  }

  /** In any run from any store, once a fault-free reconcile of an accepted spec has
      passed, and for as long as every pass after it keeps to that spec, the cluster is
      as rendered and without an operator HPA, whatever failed before and whatever fails
      after. */
  lemma {:induction false} ConvergesAfterAnyRun(states: seq<Store>, run: seq<Inputs>, k: nat, m: nat)
    requires IsRun(states, run) && k < m <= |run|
    requires run[k].Live() && run[k].faults == NO_FAULTS && Supported(run[k].spec)
    requires forall j | k < j < m :: KeepsTo(run[k], run[j])
    ensures Steady(states[m], run[k])
    decreases m
  {
    if m == k + 1 {
      BecomesSteady(states, run, k);
    } else {
      ConvergesAfterAnyRun(states, run, k, m - 1);
      StaysSteady(states, run, run[k], m - 1);
    }
  }

  lemma RenderedTouchesWorkloadsOnly(s: Store, o: Objects, f: Faults)
    ensures var t := Rendered(s, o, f).0;
      t.hpa == s.hpa && t.finalizers == s.finalizers && t.claims == s.claims && t.status == s.status
  {
  }

  lemma ExecutedIsBounded(s: Store, p: Plan, f: Faults, clock: Clock)
    requires |p.status.updates| == |clock.readings|
    ensures
      var t := Executed(s, p, f, clock).0;
      && (p.objects.None? ==> SameWorkloads(s, t))
      && (t.hpa ==> s.hpa)
      && s.finalizers <= t.finalizers
      && t.claims == s.claims
  {
    if p.objects.Some? {
      RenderedTouchesWorkloadsOnly(Prepared(s, f).0, p.objects.value, f);
    }
  }

  lemma RenderedSucceeds(s: Store, o: Objects, f: Faults)
    requires Rendered(s, o, f).1
    ensures Holds(Rendered(s, o, f).0, o)
  {
  }

  lemma ExecutedTruthfully(s: Store, p: Plan, f: Faults, clock: Clock)
    requires |p.status.updates| == |clock.readings| && Executed(s, p, f, clock).1
    ensures var t := Executed(s, p, f, clock).0;
      && !t.hpa && CLUSTER_FINALIZER in t.finalizers
      && (p.objects.Some? ==> Holds(t, p.objects.value))
  {
    if p.objects.Some? {
      RenderedSucceeds(Prepared(s, f).0, p.objects.value, f);
      RenderedTouchesWorkloadsOnly(Prepared(s, f).0, p.objects.value, f);
    }
  }

  /** A reconcile reports success only when the HPA is gone and, for an accepted
      spec, all four objects are as rendered, whatever failed before. */
  lemma SuccessIsTruthful(s: Store, i: Inputs)
    requires i.Valid() && i.Live() && Outcome(s, i).1
    ensures var t := Reconciled(s, i);
      && !t.hpa && CLUSTER_FINALIZER in t.finalizers
      && (Supported(i.spec) ==> Converged(t, i))
  {
    ExecutedTruthfully(s, PlanOf(i), i.faults, i.clock);
  }

  /** However its calls fail, a reconcile of a rejected spec touches no workload
      object, no reconcile ever brings an HPA about, claims go only with the object, and
      a deletion touches claims and finalizers alone. */
  lemma ReconcileIsBounded(s: Store, i: Inputs)
    requires i.Valid()
    ensures !i.Live() || !Supported(i.spec) ==> SameWorkloads(s, Reconciled(s, i))
    ensures Reconciled(s, i).hpa ==> s.hpa
    ensures i.Live() ==> s.finalizers <= Reconciled(s, i).finalizers && Reconciled(s, i).claims == s.claims
    ensures !i.Live() ==> Reconciled(s, i) == s.(claims := Reconciled(s, i).claims,
        finalizers := Reconciled(s, i).finalizers)
  {
    if i.Live() {
      ExecutedIsBounded(s, PlanOf(i), i.faults, i.clock);
    }
  }

  const EMPTY := Store([], false, None, None, None, None, {}, None)

  /** A StatefulSet has one replica and comes after what its pods mount and are
      reached through. */
  predicate Ordered(s: Store) {
    s.statefulSet.Some? ==>
      && s.statefulSet.value.replicas == 1
      && s.configMap.Some? && s.headless.Some? && s.client.Some?
  }

  lemma RenderedStaysOrdered(s: Store, o: Objects, f: Faults)
    requires Ordered(s) && o.statefulSet.replicas == 1
    ensures Ordered(Rendered(s, o, f).0)
  {
  }

  lemma ExecutedStaysOrdered(s: Store, p: Plan, f: Faults, clock: Clock)
    requires |p.status.updates| == |clock.readings| && Ordered(s)
    requires p.objects.Some? ==> p.objects.value.statefulSet.replicas == 1
    ensures Ordered(Executed(s, p, f, clock).0)
  {
    if p.objects.Some? {
      RenderedStaysOrdered(Prepared(s, f).0, p.objects.value, f);
    }
  }

  lemma ReconcileStaysOrdered(s: Store, i: Inputs)
    requires i.Valid() && Ordered(s)
    ensures Ordered(Reconciled(s, i))
  {
    if i.Live() {
      ExecutedStaysOrdered(s, PlanOf(i), i.faults, i.clock);
    }
  }

  /** In every run from an empty store, with specs changing and calls failing at
      will, a StatefulSet never has more than one replica and never precedes its
      ConfigMap and Services. */
  lemma {:induction false} RunsStayOrdered(states: seq<Store>, run: seq<Inputs>, m: nat)
    requires IsRun(states, run) && states[0] == EMPTY && m <= |run|
    ensures Ordered(states[m]) && !states[m].hpa
    decreases m
  {
    if m > 0 {
      RunsStayOrdered(states, run, m - 1);
      assert StepAt(states, run, m - 1);
      ReconcileStaysOrdered(states[m - 1], run[m - 1]);
      ReconcileIsBounded(states[m - 1], run[m - 1]);
    }
  }

  /** Reconciling once more on the same inputs, without failures, changes nothing:
      the controller does not trigger itself. */
  lemma ConvergedIsStable(s: Store, i: Inputs, clock: Clock)
    requires i.Valid() && i.Live() && i.faults == NO_FAULTS && |clock.readings| == 4
    ensures Reconciled(Reconciled(s, i), i.(clock := clock)) == Reconciled(s, i)
  {
    var again, p := i.(clock := clock), PlanOf(i);
    assert again.Subject() == i.Subject();
    assert PlanOf(again) == p;
    ExecutedAgain(s, p, i.clock, clock);
  }

  lemma ExecutedAgain(s: Store, p: Plan, first: Clock, second: Clock)
    requires WellFormed(p.status) && |p.status.updates| == |first.readings| == |second.readings|
    ensures Executed(Executed(s, p, NO_FAULTS, first).0, p, NO_FAULTS, second) == Executed(s, p, NO_FAULTS, first)
  {
    var t := Executed(s, p, NO_FAULTS, first).0;
    ExecutedWithoutFaults(s, p, first);
    ExecutedWithoutFaults(t, p, second);
    RepeatedReconcileIsQuiet(s.status, p.status, first, second);
  }
}
