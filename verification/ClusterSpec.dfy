/** The StreamlineCluster spec and the validation that gates every rendering. */
module ClusterSpecs {
  import opened Prelude

  datatype KeyRef = KeyRef(name: string, key: string)

  datatype EnvVarSource = EnvVarSource(secretKeyRef: Option<KeyRef>, configMapKeyRef: Option<KeyRef>)

  datatype EnvVar = EnvVar(name: string, value: Option<string>, valueFrom: Option<EnvVarSource>)

  datatype ClusterTls = ClusterTls(
    enabled: bool, secretName: string, mtlsEnabled: bool,
    caSecretName: Option<string>, insecureSkipVerify: bool)

  datatype AutoScalingSpec = AutoScalingSpec(
    enabled: bool, minReplicas: int, maxReplicas: int, targetCpuUtilization: int)

  datatype ClusterSpec = ClusterSpec(
    replicas: int,
    image: string,
    kafkaPort: int,
    httpPort: int,
    raftPort: int,
    env: seq<EnvVar>,
    podAntiAffinity: bool,
    rackAwareness: Option<bool>,
    tolerations: seq<string>,
    logLevel: string,
    autoscaling: Option<AutoScalingSpec>,
    tls: Option<ClusterTls>)

  /** The characters `trim` removes. */
  predicate IsWhitespace(c: char) {
    || '\U{9}' <= c <= '\U{d}' || c == ' ' || c == '\U{85}' || c == '\U{a0}' || c == '\U{1680}'
    || '\U{2000}' <= c <= '\U{200a}' || c == '\U{2028}' || c == '\U{2029}' || c == '\U{202f}'
    || c == '\U{205f}' || c == '\U{3000}'
  }

  predicate Blank(s: string) {
    forall c <- s :: IsWhitespace(c)
  }

  datatype EnvError =
    | EmptyName | NeitherValueNorSource | BothValueAndSource | TwoReferences | NoReference
    | BlankRefName(field: string) | BlankRefKey(field: string)

  datatype EnvVarRef = Secret(ref: KeyRef) | ConfigMap(ref: KeyRef)

  function IncompleteRef(field: string, r: KeyRef): Option<EnvError> {
    if Blank(r.name) then Some(BlankRefName(field))
    else if Blank(r.key) then Some(BlankRefKey(field))
    else None
  }

  /** What an entry renders to: None is a literal value. */
  function ResolveSource(e: EnvVar): Result<Option<EnvVarRef>, EnvError> {
    if Blank(e.name) then Err(EmptyName)
    else if e.valueFrom.None? then
      if e.value.Some? then Ok(None) else Err(NeitherValueNorSource)
    else if e.value.Some? then Err(BothValueAndSource)
    else
      match (e.valueFrom.value.secretKeyRef, e.valueFrom.value.configMapKeyRef)
      case (Some(_), Some(_)) => Err(TwoReferences)
      case (Some(secret), None) =>
        (match IncompleteRef("secretKeyRef", secret)
         case Some(error) => Err(error)
         case None => Ok(Some(Secret(secret))))
      case (None, Some(configMap)) =>
        (match IncompleteRef("configMapKeyRef", configMap)
         case Some(error) => Err(error)
         case None => Ok(Some(ConfigMap(configMap))))
      case (None, None) => Err(NoReference)
  }

  datatype SpecError =
    | ReplicasTooLow(replicas: int)
    | ReplicasUnsupported(replicas: int)
    | PortOutOfRange(field: string, port: int)
    | PortsNotDistinct
    | EnvEntry(index: nat, named: Option<string>, reason: EnvError)
    | PodAntiAffinityUnsupported
    | RackAwarenessUnsupported
    | TolerationsUnsupported(count: nat)
    | AutoscalingUnsupported
    | MinReplicasTooLow(minReplicas: int)
    | MaxBelowMin(maxReplicas: int, minReplicas: int)
    | TargetCpuOutOfRange(target: int)
    | TlsSecretNameMissing
    | CaSecretNameMissing
    | InsecureSkipVerifyUnsupported
    | MtlsWithoutTls

  predicate PortInRange(p: int) {
    1 <= p <= 65535
  }

  function When(c: bool, e: SpecError): seq<SpecError> {
    if c then [e] else []
  }

  /** The name an error about the entry mentions. */
  function Named(e: EnvVar): Option<string> {
    if Blank(e.name) then None else Some(e.name)
  }

  function EnvErrors(env: seq<EnvVar>): seq<SpecError> {
    if env == [] then []
    else
      var n := |env| - 1;
      var r := ResolveSource(env[n]);
      EnvErrors(env[..n]) + (if r.Err? then [EnvEntry(n, Named(env[n]), r.error)] else [])
  }

  function AutoscalingErrors(a: Option<AutoScalingSpec>): seq<SpecError> {
    if a.None? || !a.value.enabled then []
    else
      [AutoscalingUnsupported]
      + When(a.value.minReplicas < 1, MinReplicasTooLow(a.value.minReplicas))
      + When(a.value.maxReplicas < a.value.minReplicas, MaxBelowMin(a.value.maxReplicas, a.value.minReplicas))
      + When(!(1 <= a.value.targetCpuUtilization <= 100), TargetCpuOutOfRange(a.value.targetCpuUtilization))
  }

  function TlsErrors(tls: Option<ClusterTls>): seq<SpecError> {
    if tls.None? then []
    else if tls.value.enabled then
      When(Blank(tls.value.secretName), TlsSecretNameMissing)
      + When(tls.value.mtlsEnabled && tls.value.caSecretName.None?, CaSecretNameMissing)
      + When(tls.value.insecureSkipVerify, InsecureSkipVerifyUnsupported)
    else When(tls.value.mtlsEnabled, MtlsWithoutTls)
  }

  function ReplicaErrors(replicas: int): seq<SpecError> {
    When(replicas < 1, ReplicasTooLow(replicas)) + When(replicas > 1, ReplicasUnsupported(replicas))
  }

  function PortErrors(kafka: int, http: int, raft: int): seq<SpecError> {
    When(!PortInRange(kafka), PortOutOfRange("kafkaPort", kafka))
    + When(!PortInRange(http), PortOutOfRange("httpPort", http))
    + When(!PortInRange(raft), PortOutOfRange("raftPort", raft))
    + When(kafka == http || kafka == raft || http == raft, PortsNotDistinct)
  }

  function PlacementErrors(s: ClusterSpec): seq<SpecError> {
    When(s.podAntiAffinity, PodAntiAffinityUnsupported)
    + When(s.rackAwareness == Some(true), RackAwarenessUnsupported)
    + When(s.tolerations != [], TolerationsUnsupported(|s.tolerations|))
  }

  /** Every reason a spec is rejected, in the order it is reported. */
  function SpecErrors(s: ClusterSpec): seq<SpecError> {
    ReplicaErrors(s.replicas) + PortErrors(s.kafkaPort, s.httpPort, s.raftPort) + EnvErrors(s.env)
    + PlacementErrors(s) + AutoscalingErrors(s.autoscaling) + TlsErrors(s.tls)
  }

  method ValidateReplicas(replicas: int) returns (errors: seq<SpecError>)
    ensures errors == ReplicaErrors(replicas)
  {
    errors := [];
    if replicas < 1 {
      errors := errors + [ReplicasTooLow(replicas)];
    }
    if replicas > 1 {
      errors := errors + [ReplicasUnsupported(replicas)];
    }
  }

  method ValidatePorts(kafka: int, http: int, raft: int) returns (errors: seq<SpecError>)
    ensures errors == PortErrors(kafka, http, raft)
  {
    errors := [];
    if kafka < 1 || kafka > 65535 {
      errors := errors + [PortOutOfRange("kafkaPort", kafka)];
    }
    if http < 1 || http > 65535 {
      errors := errors + [PortOutOfRange("httpPort", http)];
    }
    if raft < 1 || raft > 65535 {
      errors := errors + [PortOutOfRange("raftPort", raft)];
    }
    if kafka == http || kafka == raft || http == raft {
      errors := errors + [PortsNotDistinct];
    }
  }

  method ValidatePlacement(s: ClusterSpec) returns (errors: seq<SpecError>)
    ensures errors == PlacementErrors(s)
  {
    errors := [];
    if s.podAntiAffinity {
      errors := errors + [PodAntiAffinityUnsupported];
    }
    if s.rackAwareness.Some? && s.rackAwareness.value {
      errors := errors + [RackAwarenessUnsupported];
    }
    if s.tolerations != [] {
      errors := errors + [TolerationsUnsupported(|s.tolerations|)];
    }
  }

  /** Every reason to reject a spec, none exactly for supported specs. */
  method Validate(s: ClusterSpec) returns (errors: seq<SpecError>)
    ensures errors == SpecErrors(s)
    ensures errors == [] <==> Supported(s)
    ensures (forall e :: e in errors <==> Justified(s, e)) && InOrder(errors)
  {
    errors := ValidateReplicas(s.replicas);
    var more := ValidatePorts(s.kafkaPort, s.httpPort, s.raftPort);
    errors := errors + more;
    more := ValidateEnv(s.env);
    errors := errors + more;
    more := ValidatePlacement(s);
    errors := errors + more;
    errors := errors + AutoscalingErrors(s.autoscaling) + TlsErrors(s.tls);
    AcceptedMeansSupported(s);
    ErrorsExactly(s);
  }

  /** Reports every entry that cannot be mapped, with its position. */
  method ValidateEnv(env: seq<EnvVar>) returns (errors: seq<SpecError>)
    ensures errors == EnvErrors(env)
  {
    errors := [];
    for k := 0 to |env|
      invariant errors == EnvErrors(env[..k])
    {
      assert env[..k + 1][..k] == env[..k];
      var r := ResolveSource(env[k]);
      if r.Err? {
        errors := errors + [EnvEntry(k, Named(env[k]), r.error)];
      }
    }
    assert env[..|env|] == env;
  }

  // ---------------------------------------------------------------------
  // What an accepted spec is
  // ---------------------------------------------------------------------

  /** A spec that validation accepts: one broker, three distinct ports, mappable
      environment entries, nothing inert, and TLS whose Secrets are given. Only that the
      name of a CA Secret is not blank goes unchecked. */
  predicate Supported(s: ClusterSpec) {
    && s.replicas == 1
    && PortInRange(s.kafkaPort) && PortInRange(s.httpPort) && PortInRange(s.raftPort)
    && s.kafkaPort != s.httpPort && s.kafkaPort != s.raftPort && s.httpPort != s.raftPort
    && (forall e <- s.env :: ResolveSource(e).Ok?)
    && !s.podAntiAffinity && s.rackAwareness != Some(true) && s.tolerations == []
    && (s.autoscaling.Some? ==> !s.autoscaling.value.enabled)
    && (s.tls.Some? ==> CompleteTls(s.tls.value))
  }

  predicate CompleteTls(tls: ClusterTls) {
    if tls.enabled then
      && !Blank(tls.secretName) && !tls.insecureSkipVerify
      && (tls.mtlsEnabled ==> tls.caSecretName.Some?)
    else !tls.mtlsEnabled
  }

  lemma {:induction false} EnvErrorsNameTheUnmappable(env: seq<EnvVar>)
    ensures EnvErrors(env) == [] <==> forall e <- env :: ResolveSource(e).Ok?
    ensures forall k: nat, named, reason :: EnvEntry(k, named, reason) in EnvErrors(env) <==>
            k < |env| && named == Named(env[k]) && ResolveSource(env[k]) == Err(reason)
  {
    if env != [] {
      var n := |env| - 1;
      EnvErrorsNameTheUnmappable(env[..n]);
      InitAndLast(env);
      forall k: nat, named, reason
        ensures EnvEntry(k, named, reason) in EnvErrors(env)
           <==> k < |env| && named == Named(env[k]) && ResolveSource(env[k]) == Err(reason)
      {
        assert EnvEntry(k, named, reason) in EnvErrors(env[..n])
          <==> k < n && named == Named(env[..n][k]) && ResolveSource(env[..n][k]) == Err(reason);
      }
    }
  }

  lemma InitAndLast<T>(s: seq<T>)
    requires s != []
    ensures forall x :: x in s <==> x in s[..|s| - 1] || x == s[|s| - 1]
  {
    assert s == s[..|s| - 1] + [s[|s| - 1]];
  }

  lemma AcceptedMeansSupported(s: ClusterSpec)
    ensures SpecErrors(s) == [] <==> Supported(s)
  {
    EnvErrorsNameTheUnmappable(s.env);
  }

  /** An entry is accepted exactly when its name is not blank and it carries either
      a literal, or a single reference whose name and key are not blank; and what
      it resolves to is that very literal or reference. */
  lemma ResolvedExactly(e: EnvVar)
    ensures ResolveSource(e) == Ok(None) <==> !Blank(e.name) && e.value.Some? && e.valueFrom.None?
    ensures forall r: EnvVarRef :: ResolveSource(e) == Ok(Some(r)) <==>
      && !Blank(e.name) && e.value.None? && !Blank(r.ref.name) && !Blank(r.ref.key)
      && e.valueFrom == Some(match r
                             case Secret(ref) => EnvVarSource(Some(ref), None)
                             case ConfigMap(ref) => EnvVarSource(None, Some(ref)))
  {
  }

  /** And the reason an entry is refused for, the first that applies. */
  lemma UnresolvedExactly(e: EnvVar)
    ensures
      var r, from := ResolveSource(e), e.valueFrom;
      var named := !Blank(e.name);
      var secret := named && e.value.None? && from.Some? && from.value.secretKeyRef.Some?;
      var configMap := named && e.value.None? && from.Some? && from.value.configMapKeyRef.Some?;
      && (r == Err(EmptyName) <==> !named)
      && (r == Err(NeitherValueNorSource) <==> named && e.value.None? && from.None?)
      && (r == Err(BothValueAndSource) <==> named && e.value.Some? && from.Some?)
      && (r == Err(TwoReferences) <==> secret && configMap)
      && (r == Err(NoReference) <==> named && e.value.None? && from == Some(EnvVarSource(None, None)))
      && (forall field :: r == Err(BlankRefName(field)) <==>
            || (secret && !configMap && field == "secretKeyRef" && Blank(from.value.secretKeyRef.value.name))
            || (configMap && !secret && field == "configMapKeyRef" && Blank(from.value.configMapKeyRef.value.name)))
      && (forall field :: r == Err(BlankRefKey(field)) <==>
            || (secret && !configMap && field == "secretKeyRef"
                && !Blank(from.value.secretKeyRef.value.name) && Blank(from.value.secretKeyRef.value.key))
            || (configMap && !secret && field == "configMapKeyRef"
                && !Blank(from.value.configMapKeyRef.value.name) && Blank(from.value.configMapKeyRef.value.key)))
  {
    assert "secretKeyRef"[0] == 's' && "configMapKeyRef"[0] == 'c';
  }

  // ---------------------------------------------------------------------
  // Which errors are reported, and in which order
  // ---------------------------------------------------------------------

  /** The spec gives reason for the error, and the error tells what it saw. */
  predicate Justified(s: ClusterSpec, e: SpecError) {
    var a, tls := s.autoscaling, s.tls;
    match e
    case ReplicasTooLow(n) => n == s.replicas && n < 1
    case ReplicasUnsupported(n) => n == s.replicas && n > 1
    case PortOutOfRange(field, p) =>
      && (p < 1 || p > 65535)
      && ((field == "kafkaPort" && p == s.kafkaPort) || (field == "httpPort" && p == s.httpPort)
          || (field == "raftPort" && p == s.raftPort))
    case PortsNotDistinct => s.kafkaPort == s.httpPort || s.kafkaPort == s.raftPort || s.httpPort == s.raftPort
    case EnvEntry(k, named, reason) =>
      k < |s.env| && ResolveSource(s.env[k]) == Err(reason)
      && named == if Blank(s.env[k].name) then None else Some(s.env[k].name)
    case PodAntiAffinityUnsupported => s.podAntiAffinity
    case RackAwarenessUnsupported => s.rackAwareness == Some(true)
    case TolerationsUnsupported(n) => n == |s.tolerations| > 0
    case AutoscalingUnsupported => a.Some? && a.value.enabled
    case MinReplicasTooLow(n) => a.Some? && a.value.enabled && n == a.value.minReplicas < 1
    case MaxBelowMin(x, n) =>
      a.Some? && a.value.enabled && x == a.value.maxReplicas && n == a.value.minReplicas && x < n
    case TargetCpuOutOfRange(n) => a.Some? && a.value.enabled && n == a.value.targetCpuUtilization && (n < 1 || n > 100)
    case TlsSecretNameMissing => tls.Some? && tls.value.enabled && Blank(tls.value.secretName)
    case CaSecretNameMissing => tls.Some? && tls.value.enabled && tls.value.mtlsEnabled && tls.value.caSecretName.None?
    case InsecureSkipVerifyUnsupported => tls.Some? && tls.value.enabled && tls.value.insecureSkipVerify
    case MtlsWithoutTls => tls.Some? && !tls.value.enabled && tls.value.mtlsEnabled
  }

  /** Where in the list an error belongs. */
  function Place(e: SpecError): (nat, nat) {
    match e
    case ReplicasTooLow(_) => (0, 0)
    case ReplicasUnsupported(_) => (0, 1)
    case PortOutOfRange(field, _) => (1, if field == "kafkaPort" then 0 else if field == "httpPort" then 1 else 2)
    case PortsNotDistinct => (1, 3)
    case EnvEntry(k, _, _) => (2, k)
    case PodAntiAffinityUnsupported => (3, 0)
    case RackAwarenessUnsupported => (3, 1)
    case TolerationsUnsupported(_) => (3, 2)
    case AutoscalingUnsupported => (4, 0)
    case MinReplicasTooLow(_) => (4, 1)
    case MaxBelowMin(_, _) => (4, 2)
    case TargetCpuOutOfRange(_) => (4, 3)
    case TlsSecretNameMissing => (5, 0)
    case CaSecretNameMissing => (5, 1)
    case InsecureSkipVerifyUnsupported => (5, 2)
    case MtlsWithoutTls => (5, 3)
  }

  predicate Below(p: (nat, nat), q: (nat, nat)) {
    p.0 < q.0 || (p.0 == q.0 && p.1 < q.1)
  }

  predicate InOrder(es: seq<SpecError>) {
    forall j, k | 0 <= j < k < |es| :: Below(Place(es[j]), Place(es[k]))
  }

  lemma PortMember(s: ClusterSpec, e: SpecError)
    ensures e in PortErrors(s.kafkaPort, s.httpPort, s.raftPort)
       <==> (e.PortOutOfRange? || e.PortsNotDistinct?) && Justified(s, e)
  {
  }

  lemma PlacementMember(s: ClusterSpec, e: SpecError)
    ensures e in PlacementErrors(s)
       <==> (e.PodAntiAffinityUnsupported? || e.RackAwarenessUnsupported? || e.TolerationsUnsupported?)
            && Justified(s, e)
  {
  }

  lemma AutoscalingMember(s: ClusterSpec, e: SpecError)
    ensures e in AutoscalingErrors(s.autoscaling)
       <==> (e.AutoscalingUnsupported? || e.MinReplicasTooLow? || e.MaxBelowMin? || e.TargetCpuOutOfRange?)
            && Justified(s, e)
  {
  }

  lemma TlsMember(s: ClusterSpec, e: SpecError)
    ensures e in TlsErrors(s.tls)
       <==> (e.TlsSecretNameMissing? || e.CaSecretNameMissing? || e.InsecureSkipVerifyUnsupported? || e.MtlsWithoutTls?)
            && Justified(s, e)
  {
  }

  lemma EnvMember(s: ClusterSpec, e: SpecError)
    ensures e in EnvErrors(s.env) <==> e.EnvEntry? && Justified(s, e)
  {
    EnvErrorsNameTheUnmappable(s.env);
    OnlyEntries(s.env);
  }

  lemma {:induction false} OnlyEntries(env: seq<EnvVar>)
    ensures forall e <- EnvErrors(env) :: e.EnvEntry? && e.index < |env|
    ensures InOrder(EnvErrors(env))
  {
    if env != [] {
      OnlyEntries(env[..|env| - 1]);
    }
  }

  lemma ErrorMember(s: ClusterSpec, e: SpecError)
    ensures e in SpecErrors(s) <==> Justified(s, e)
  {
    var a, b, c := ReplicaErrors(s.replicas), PortErrors(s.kafkaPort, s.httpPort, s.raftPort), EnvErrors(s.env);
    var d, f, g := PlacementErrors(s), AutoscalingErrors(s.autoscaling), TlsErrors(s.tls);
    assert e in a <==> (e.ReplicasTooLow? || e.ReplicasUnsupported?) && Justified(s, e);
    PortMember(s, e);
    EnvMember(s, e);
    PlacementMember(s, e);
    AutoscalingMember(s, e);
    TlsMember(s, e);
  }

  predicate Within(es: seq<SpecError>, low: nat, high: nat) {
    forall e <- es :: low <= Place(e).0 < high
  }

  lemma ChainedInOrder(a: seq<SpecError>, b: seq<SpecError>, mid: nat, high: nat)
    requires mid <= high && InOrder(a) && InOrder(b) && Within(a, 0, mid) && Within(b, mid, high)
    ensures InOrder(a + b) && Within(a + b, 0, high)
  {
  }

  lemma PortPlaces()
    ensures forall p :: Place(PortOutOfRange("kafkaPort", p)) == (1, 0)
    ensures forall p :: Place(PortOutOfRange("httpPort", p)) == (1, 1)
    ensures forall p :: Place(PortOutOfRange("raftPort", p)) == (1, 2)
  {
    assert "kafkaPort"[0] == 'k' && "httpPort"[0] == 'h' && "raftPort"[0] == 'r';
  }

  lemma FourInOrder(a: seq<SpecError>, b: seq<SpecError>, c: seq<SpecError>, d: seq<SpecError>, part: nat)
    requires |a| <= 1 && |b| <= 1 && |c| <= 1 && |d| <= 1
    requires (forall e <- a :: Place(e) == (part, 0)) && (forall e <- b :: Place(e) == (part, 1))
    requires (forall e <- c :: Place(e) == (part, 2)) && (forall e <- d :: Place(e) == (part, 3))
    ensures InOrder(a + b + c + d) && Within(a + b + c + d, part, part + 1)
  {
  }

  lemma PortsInOrder(kafka: int, http: int, raft: int)
    ensures InOrder(PortErrors(kafka, http, raft)) && Within(PortErrors(kafka, http, raft), 1, 2)
  {
    PortPlaces();
    FourInOrder(When(!PortInRange(kafka), PortOutOfRange("kafkaPort", kafka)),
                When(!PortInRange(http), PortOutOfRange("httpPort", http)),
                When(!PortInRange(raft), PortOutOfRange("raftPort", raft)),
                When(kafka == http || kafka == raft || http == raft, PortsNotDistinct), 1);
  }

  lemma PlacementInOrder(s: ClusterSpec)
    ensures InOrder(PlacementErrors(s)) && Within(PlacementErrors(s), 3, 4)
  {
  }

  lemma AutoscalingInOrder(a: Option<AutoScalingSpec>)
    ensures InOrder(AutoscalingErrors(a)) && Within(AutoscalingErrors(a), 4, 5)
  {
    if a.Some? && a.value.enabled {
      var x := a.value;
      FourInOrder([AutoscalingUnsupported], When(x.minReplicas < 1, MinReplicasTooLow(x.minReplicas)),
                  When(x.maxReplicas < x.minReplicas, MaxBelowMin(x.maxReplicas, x.minReplicas)),
                  When(!(1 <= x.targetCpuUtilization <= 100), TargetCpuOutOfRange(x.targetCpuUtilization)), 4);
    }
  }

  lemma TlsInOrder(tls: Option<ClusterTls>)
    ensures InOrder(TlsErrors(tls)) && Within(TlsErrors(tls), 5, 6)
  {
    if tls.Some? && tls.value.enabled {
      var a := When(Blank(tls.value.secretName), TlsSecretNameMissing);
      var b := When(tls.value.mtlsEnabled && tls.value.caSecretName.None?, CaSecretNameMissing);
      var c := When(tls.value.insecureSkipVerify, InsecureSkipVerifyUnsupported);
      FourInOrder(a, b, c, [], 5);
      assert TlsErrors(tls) == a + b + c + [];
    }
  }

  /** For every spec: exactly the justified errors are reported, each once and in the order
      of their places. */
  lemma ErrorsExactly(s: ClusterSpec)
    ensures forall e :: e in SpecErrors(s) <==> Justified(s, e)
    ensures InOrder(SpecErrors(s))
  {
    forall e
      ensures e in SpecErrors(s) <==> Justified(s, e)
    {
      ErrorMember(s, e);
    }
    ErrorsInOrder(s);
  }

  lemma SixInOrder(a: seq<SpecError>, b: seq<SpecError>, c: seq<SpecError>, d: seq<SpecError>, e: seq<SpecError>,
      f: seq<SpecError>)
    requires InOrder(a) && InOrder(b) && InOrder(c) && InOrder(d) && InOrder(e) && InOrder(f)
    requires Within(a, 0, 1) && Within(b, 1, 2) && Within(c, 2, 3) && Within(d, 3, 4) && Within(e, 4, 5)
    requires Within(f, 5, 6)
    ensures InOrder(a + b + c + d + e + f)
  {
    ChainedInOrder(a, b, 1, 2);
    ChainedInOrder(a + b, c, 2, 3);
    ChainedInOrder(a + b + c, d, 3, 4);
    ChainedInOrder(a + b + c + d, e, 4, 5);
    ChainedInOrder(a + b + c + d + e, f, 5, 6);
  }

  lemma EntriesWithin(env: seq<EnvVar>)
    ensures InOrder(EnvErrors(env)) && Within(EnvErrors(env), 2, 3)
  {
    OnlyEntries(env);
    assert forall e <- EnvErrors(env) :: Place(e).0 == 2;
  }

  lemma ReplicasInOrder(replicas: int)
    ensures InOrder(ReplicaErrors(replicas)) && Within(ReplicaErrors(replicas), 0, 1)
  {
  }

  lemma ErrorsInOrder(s: ClusterSpec)
    ensures InOrder(SpecErrors(s))
  {
    ReplicasInOrder(s.replicas);
    PortsInOrder(s.kafkaPort, s.httpPort, s.raftPort);
    EntriesWithin(s.env);
    PlacementInOrder(s);
    AutoscalingInOrder(s.autoscaling);
    TlsInOrder(s.tls);
    SixInOrder(ReplicaErrors(s.replicas), PortErrors(s.kafkaPort, s.httpPort, s.raftPort), EnvErrors(s.env),
               PlacementErrors(s), AutoscalingErrors(s.autoscaling), TlsErrors(s.tls));
  }

  // ---------------------------------------------------------------------
  // What the two upgrade patches do to the list
  // ---------------------------------------------------------------------

  /** The spec after the patches that set one replica and drop the anti-affinity. */
  function Corrected(s: ClusterSpec): ClusterSpec {
    s.(replicas := 1, podAntiAffinity := false)
  }

  predicate IsAboutPatchedField(e: SpecError) {
    e.ReplicasTooLow? || e.ReplicasUnsupported? || e.PodAntiAffinityUnsupported?
  }

  function Others(es: seq<SpecError>): seq<SpecError> {
    if es == [] then [] else When(!IsAboutPatchedField(es[0]), es[0]) + Others(es[1..])
  }

  lemma {:induction false} OthersOfConcat(a: seq<SpecError>, b: seq<SpecError>)
    ensures Others(a + b) == Others(a) + Others(b)
  {
    if a == [] {
      assert a + b == b;
    } else {
      var head, rest := When(!IsAboutPatchedField(a[0]), a[0]), a[1..];
      assert a + b == [a[0]] + (rest + b);
      OthersOfConcat(rest, b);
      assert Others(a) == head + Others(rest);
      assert Others(a + b) == head + Others(rest + b);
    }
  }

  /** Exactly the errors about other fields are left. */
  lemma {:induction false} OthersExactly(es: seq<SpecError>)
    ensures forall e :: multiset(Others(es))[e] == if IsAboutPatchedField(e) then 0 else multiset(es)[e]
  {
    if es != [] {
      OthersExactly(es[1..]);
      assert es == [es[0]] + es[1..];
    }
  }

  lemma {:induction false} OthersOfOthers(es: seq<SpecError>)
    requires forall e <- es :: !IsAboutPatchedField(e)
    ensures Others(es) == es
  {
    if es != [] {
      OthersOfOthers(es[1..]);
    }
  }

  lemma {:induction false} EnvErrorsAreOthers(env: seq<EnvVar>)
    ensures forall e <- EnvErrors(env) :: !IsAboutPatchedField(e)
  {
    if env != [] {
      EnvErrorsAreOthers(env[..|env| - 1]);
    }
  }

  lemma OthersOfPlacement(s: ClusterSpec)
    ensures Others(PlacementErrors(s)) == PlacementErrors(Corrected(s))
  {
    var rest := When(s.rackAwareness == Some(true), RackAwarenessUnsupported)
              + When(s.tolerations != [], TolerationsUnsupported(|s.tolerations|));
    OthersOfConcat(When(s.podAntiAffinity, PodAntiAffinityUnsupported), rest);
    OthersOfOthers(rest);
    assert PlacementErrors(s) == When(s.podAntiAffinity, PodAntiAffinityUnsupported) + rest;
    assert [PodAntiAffinityUnsupported][1..] == [];
  }

  lemma OthersOfReplicas(replicas: int)
    ensures Others(ReplicaErrors(replicas)) == []
  {
    assert |ReplicaErrors(replicas)| <= 1;
    assert replicas != 1 ==> ReplicaErrors(replicas)[1..] == [];
  }

  lemma OthersOfSix(a: seq<SpecError>, b: seq<SpecError>, c: seq<SpecError>, d: seq<SpecError>, e: seq<SpecError>,
      f: seq<SpecError>)
    ensures Others(a + b + c + d + e + f) == Others(a) + Others(b) + Others(c) + Others(d) + Others(e) + Others(f)
  {
    OthersOfConcat(a + b + c + d + e, f);
    OthersOfConcat(a + b + c + d, e);
    OthersOfConcat(a + b + c, d);
    OthersOfConcat(a + b, c);
    OthersOfConcat(a, b);
  }

  lemma OthersOfPorts(kafka: int, http: int, raft: int)
    ensures Others(PortErrors(kafka, http, raft)) == PortErrors(kafka, http, raft)
  {
    OthersOfOthers(PortErrors(kafka, http, raft));
  }

  lemma OthersOfAutoscaling(a: Option<AutoScalingSpec>)
    ensures Others(AutoscalingErrors(a)) == AutoscalingErrors(a)
  {
    OthersOfOthers(AutoscalingErrors(a));
  }

  lemma OthersOfTls(tls: Option<ClusterTls>)
    ensures Others(TlsErrors(tls)) == TlsErrors(tls)
  {
    OthersOfOthers(TlsErrors(tls));
  }

  lemma OthersOfEnv(env: seq<EnvVar>)
    ensures Others(EnvErrors(env)) == EnvErrors(env)
  {
    EnvErrorsAreOthers(env);
    OthersOfOthers(EnvErrors(env));
  }

  /** The two cluster patches remove exactly the errors of their own fields: every
      other error stays, word for word and in its place. */
  lemma ClusterPatchesClearTheirOwnErrors(s: ClusterSpec)
    ensures SpecErrors(Corrected(s)) == Others(SpecErrors(s))
  {
    OthersOfSix(ReplicaErrors(s.replicas), PortErrors(s.kafkaPort, s.httpPort, s.raftPort), EnvErrors(s.env),
                PlacementErrors(s), AutoscalingErrors(s.autoscaling), TlsErrors(s.tls));
    OthersOfReplicas(s.replicas);
    OthersOfPorts(s.kafkaPort, s.httpPort, s.raftPort);
    OthersOfEnv(s.env);
    OthersOfPlacement(s);
    OthersOfAutoscaling(s.autoscaling);
    OthersOfTls(s.tls);
  }
}
