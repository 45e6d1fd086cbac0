/** The statuses the cluster controller publishes. */
module ClusterStatuses {
  import opened Prelude
  import opened Conditions
  import opened StatusPublication

  datatype Phase = Pending | Running | Scaling | Upgrading | Failed | Terminating

  datatype Endpoint = Endpoint(cluster: string, ordinal: int, namespace: string, port: int)

  datatype Body = Body(
    phase: Phase, readyReplicas: int, replicas: int, leaderId: Option<int>, endpoints: seq<Endpoint>,
        observedGeneration: Option<int>)

  /** The parts of a StreamlineCluster a status is derived from. */
  datatype Subject = Subject(
    name: string, namespace: string, replicas: int, kafkaPort: int, generation: Option<int>)

  function ObservedBody(c: Subject, ready: int): Body {
    Body(
      if ready == c.replicas then Running else if ready > 0 then Scaling else Pending,
      ready,
      c.replicas,
      None,
      seq(if c.replicas >= 0 then c.replicas else 0, k => Endpoint(c.name, k, c.namespace, c.kafkaPort)),
      c.generation)
  }

  function ReadyUpdate(ready: int, desired: int): Update {
    var message := Figures("brokers ready", [ready, desired]);
    if ready == desired then Update(Ready, True, Words("AllBrokersReady"), message)
    else Update(Ready, False, Words("BrokersNotReady"), message)
  }

  function AvailableUpdate(ready: int): Update {
    if ready > 0 then Update(Available, True, Words("MinimumAvailable"), Figures("broker(s) available", [ready]))
    else Update(Available, False, Words("NoBrokersAvailable"), Words("No brokers are available"))
  }

  function ProgressingUpdate(ready: int, desired: int): Update {
    if ready < desired then Update(Progressing, True, Words("ScalingUp"), Figures("Scaling", [ready, desired]))
    else if ready > desired
        then Update(Progressing, True, Words("ScalingDown"), Figures("Scaling down", [ready, desired]))
    else Update(Progressing, False, Words("UpToDate"), Words("All replicas are up to date"))
  }

  function DegradedUpdate(ready: int, desired: int): Update {
    if ready == desired then Update(Degraded, False, Words("Healthy"), Words("Cluster is healthy"))
    else if ready == 0 then Update(Degraded, True, Words("NoBrokersReady"), Figures("No brokers are ready", [desired]))
    else if ready < desired then Update(Degraded, True, Words("PartiallyReady"), Figures("Only", [ready, desired]))
    else Update(Degraded, True, Words("TooManyReadyBrokers"), Figures("expected exactly", [ready, desired]))
  }

  function Observed(c: Subject, ready: int): (d: Desired<Body>)
    ensures WellFormed(d) && |d.updates| == 4
  {
    Desired(
      ObservedBody(c, ready),
      [ReadyUpdate(ready, c.replicas), AvailableUpdate(ready),
       ProgressingUpdate(ready, c.replicas), DegradedUpdate(ready, c.replicas)],
      None)
  }

  function Invalid(c: Subject, message: Text): (d: Desired<Body>)
    ensures WellFormed(d) && |d.updates| == 4
  {
    var reason := Words("InvalidSpec");
    Desired(
      Body(Failed, 0, c.replicas, None, [], c.generation),
      [Update(Ready, False, reason, message),
       Update(Available, False, reason, message),
       Update(Progressing, False, reason, Words("Reconciliation is blocked until the spec is corrected")),
       Update(Degraded, True, reason, message)],
      None)
  }

  /** Whatever was published before, the built status carries each of the update's
      statuses on the first condition of its type. */
  lemma BuiltStatusSays<B>(prior: Option<Status<B>>, d: Desired<B>, clock: Clock, u: Update)
    requires WellFormed(d) && |clock.readings| == |d.updates| && u in d.updates
    ensures SettledOn(Build(prior, d, clock).conditions, u)
  {
    BuildSettles(prior, d, clock);
  }

  predicate Says(s: Status<Body>, kind: ConditionType, status: ConditionStatus) {
    Find(s.conditions, kind).Some? && Find(s.conditions, kind).value.status == status
  }

  /** From any prior status, the phase and the first condition of each type agree with
      each other and with the count: running, ready, not progressing and not degraded
      all mean exactly the desired number of ready brokers, and available means at
      least one. */
  lemma ConditionsAgree(prior: Option<Status<Body>>, c: Subject, ready: int, clock: Clock)
    requires |clock.readings| == 4
    ensures
      var s := Build(prior, Observed(c, ready), clock);
      var healthy := ready == c.replicas;
      && (s.body.phase.Running? <==> healthy)
      && Says(s, Ready, if healthy then True else False)
      && Says(s, Progressing, if healthy then False else True)
      && Says(s, Degraded, if healthy then False else True)
      && Says(s, Available, if ready > 0 then True else False)
      && (s.body.phase.Scaling? <==> !healthy && ready > 0)
      && (c.replicas >= 0 ==> |s.body.endpoints| == c.replicas)
  {
    var d := Observed(c, ready);
    assert d.updates[0] in d.updates && d.updates[1] in d.updates;
    assert d.updates[2] in d.updates && d.updates[3] in d.updates;
    BuiltStatusSays(prior, d, clock, ReadyUpdate(ready, c.replicas));
    BuiltStatusSays(prior, d, clock, AvailableUpdate(ready));
    BuiltStatusSays(prior, d, clock, ProgressingUpdate(ready, c.replicas));
    BuiltStatusSays(prior, d, clock, DegradedUpdate(ready, c.replicas));
  }

  /** What is published of an observed cluster besides its conditions: the pods counted, the
      brokers asked for, and for each of them, by its place, the address of its pod on the
      Kafka port. The phase is told by the count alone. */
  lemma ObservedExactly(prior: Option<Status<Body>>, c: Subject, ready: int, clock: Clock)
    requires |clock.readings| == 4
    ensures
      var b := Build(prior, Observed(c, ready), clock).body;
      && b.readyReplicas == ready && b.replicas == c.replicas
      && b.leaderId.None? && b.observedGeneration == c.generation
      && |b.endpoints| == (if c.replicas > 0 then c.replicas else 0)
      && (forall k | 0 <= k < |b.endpoints| ::
            && b.endpoints[k].cluster == c.name && b.endpoints[k].ordinal == k
            && b.endpoints[k].namespace == c.namespace && b.endpoints[k].port == c.kafkaPort)
      && (b.phase.Running? <==> ready == c.replicas)
      && (b.phase.Scaling? <==> ready != c.replicas && ready > 0)
      && (b.phase.Pending? <==> ready != c.replicas && ready <= 0)
  {
  }

  /** The condition's reason is the word, and its message holds the figures. */
  predicate Explains(s: Status<Body>, kind: ConditionType, reason: string, figures: seq<int>) {
    var c := Find(s.conditions, kind);
    && c.Some? && c.value.reason == Some(Words(reason)) && c.value.message.Some?
    && match c.value.message.value
       case Words(_) => figures == []
       case Figures(_, shown) => shown == figures
       case Joined(_) => false
  }

  /** Why each condition is what it is, for every count: the reason names the case, and the
      message carries the count and, where it matters, the number asked for. */
  lemma ReasonsExactly(prior: Option<Status<Body>>, c: Subject, ready: int, clock: Clock)
    requires |clock.readings| == 4
    ensures
      var s, n := Build(prior, Observed(c, ready), clock), c.replicas;
      && Explains(s, Ready, if ready == n then "AllBrokersReady" else "BrokersNotReady", [ready, n])
      && Explains(s, Available, if ready > 0 then "MinimumAvailable" else "NoBrokersAvailable",
                  if ready > 0 then [ready] else [])
      && Explains(s, Progressing, if ready < n then "ScalingUp" else if ready > n then "ScalingDown" else "UpToDate",
                  if ready == n then [] else [ready, n])
      && Explains(s, Degraded,
                  if ready == n then "Healthy" else if ready == 0 then "NoBrokersReady"
                  else if ready < n then "PartiallyReady" else "TooManyReadyBrokers",
                  if ready == n then [] else if ready == 0 then [n] else [ready, n])
  {
    var d := Observed(c, ready);
    assert d.updates[0] in d.updates && d.updates[1] in d.updates;
    assert d.updates[2] in d.updates && d.updates[3] in d.updates;
    BuiltStatusSays(prior, d, clock, ReadyUpdate(ready, c.replicas));
    BuiltStatusSays(prior, d, clock, AvailableUpdate(ready));
    BuiltStatusSays(prior, d, clock, ProgressingUpdate(ready, c.replicas));
    BuiltStatusSays(prior, d, clock, DegradedUpdate(ready, c.replicas));
  }

  /** From any prior status, a rejected spec is published as failed, and the first
      condition of each type shows it unhealthy. */
  lemma RejectionIsVisible(prior: Option<Status<Body>>, c: Subject, message: Text, clock: Clock)
    requires |clock.readings| == 4
    ensures
      var s := Build(prior, Invalid(c, message), clock);
      && s.body.phase.Failed? && s.body.readyReplicas == 0 && s.body.endpoints == []
      && s.body.replicas == c.replicas && s.body.leaderId.None? && s.body.observedGeneration == c.generation
      && (forall kind | kind in {Ready, Available, Degraded} ::
            Find(s.conditions, kind).Some? && Find(s.conditions, kind).value.message == Some(message))
      && Says(s, Ready, False) && Says(s, Available, False) && Says(s, Progressing, False) && Says(s, Degraded, True)
  {
    var d := Invalid(c, message);
    forall k | 0 <= k < 4
      ensures SettledOn(Build(prior, d, clock).conditions, d.updates[k])
    {
      BuiltStatusSays(prior, d, clock, d.updates[k]);
    }
    assert d.updates[0].kind.Ready? && d.updates[1].kind.Available?;
    assert d.updates[2].kind.Progressing? && d.updates[3].kind.Degraded?;
  }

  // ---------------------------------------------------------------------
  // Duplicates in the prior status
  // ---------------------------------------------------------------------

  /** The status each of the four types is to have. */
  function Verdict(kind: ConditionType, healthy: bool, available: bool): ConditionStatus {
    match kind
    case Ready => if healthy then True else False
    case Available => if available then True else False
    case Progressing => if healthy then False else True
    case _ => if healthy then False else True
  }

  /** For every prior status: all the conditions of a type agree with the count exactly
      when no duplicate in the prior status contradicts it, and without duplicates
      they all do. */
  lemma EveryConditionAgrees(prior: Option<Status<Body>>, c: Subject, ready: int, clock: Clock, kind: ConditionType)
    requires |clock.readings| == 4 && kind in {Ready, Available, Progressing, Degraded}
    ensures
      var s := Build(prior, Observed(c, ready), clock);
      var verdict := Verdict(kind, ready == c.replicas, ready > 0);
      && (AllSay(s.conditions, kind, verdict) <==> RestSay(Seeded(prior, None), kind, verdict))
      && (Distinct(Kinds(Seeded(prior, None))) ==> AllSay(s.conditions, kind, verdict))
  {
    var d := Observed(c, ready);
    var k := match kind case Ready => 0 case Available => 1 case Progressing => 2 case _ => 3;
    assert d.updates[k] in d.updates;
    assert d.updates[k].kind == kind && d.updates[k].status == Verdict(kind, ready == c.replicas, ready > 0);
    AllSayExactly(prior, d, clock, d.updates[k]);
  }

  /** Likewise for a rejected spec: no condition shows health exactly when no duplicate
      in the prior status did, and without duplicates none does. */
  lemma NoStaleHealth(prior: Option<Status<Body>>, c: Subject, message: Text, clock: Clock, kind: ConditionType)
    requires |clock.readings| == 4 && kind in {Ready, Available, Progressing, Degraded}
    ensures
      var s := Build(prior, Invalid(c, message), clock);
      var verdict := if kind.Degraded? then True else False;
      && (AllSay(s.conditions, kind, verdict) <==> RestSay(Seeded(prior, None), kind, verdict))
      && (Distinct(Kinds(Seeded(prior, None))) ==> AllSay(s.conditions, kind, verdict))
  {
    var d := Invalid(c, message);
    var k := match kind case Ready => 0 case Available => 1 case Progressing => 2 case _ => 3;
    assert d.updates[k] in d.updates;
    assert d.updates[k].kind == kind && d.updates[k].status == (if kind.Degraded? then True else False);
    AllSayExactly(prior, d, clock, d.updates[k]);
  }

  /** A duplicate does survive: updates act on the first condition of a type alone, so
      a second Ready=True stays on the object of a rejected spec. */
  lemma StaleDuplicateSurvives(c: Subject, message: Text, clock: Clock)
    requires |clock.readings| == 4
    ensures exists prior: Option<Status<Body>> ::
      !AllSay(Build(prior, Invalid(c, message), clock).conditions, Ready, False)
  {
    var first := Condition(Ready, False, None, None, None);
    var stale := Condition(Ready, True, None, None, None);
    var prior := Some(Status(ObservedBody(c, 0), [first, stale], None));
    assert stale in [first, stale][1..];
    assert !RestSay(Seeded(prior, None), Ready, False);
    NoStaleHealth(prior, c, message, clock, Ready);
  }
}
