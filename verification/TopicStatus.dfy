/** The statuses the topic controller publishes, and what they may claim. */
module TopicStatuses {
  import opened Prelude
  import opened Conditions
  import opened StatusPublication
  import opened TopicSpecs
  import opened TopicSync

  datatype Phase = PhasePending | PhaseReady | PhaseUpdating | PhaseFailed | PhaseTerminating

  datatype PartitionAssignment = PartitionAssignment(partition: int, leader: int, replicas: seq<int>, isr: seq<int>)

  datatype Body = Body(
    ready: bool, phase: Phase, partitions: int, replicationFactor: int,
    partitionAssignments: seq<PartitionAssignment>, observedGeneration: Option<int>, errorMessage: Option<Text>)

  function UnsupportedStatus(generation: Option<int>, message: Text): (d: Desired<Body>)
    ensures WellFormed(d) && |d.updates| == 2
  {
    Desired(
      Body(false, PhaseFailed, 0, 0, [], generation, Some(message)),
      [Update(Ready, False, Words("UnsupportedConfiguration"), message),
       Update(Synced, False, Words("UnsupportedConfiguration"), Words("The topic was not created"))],
      None)
  }

  function PendingStatus(generation: Option<int>, message: Text): (d: Desired<Body>)
    ensures WellFormed(d) && |d.updates| == 2
  {
    Desired(
      Body(false, PhasePending, 0, 0, [], generation, None),
      [Update(Ready, False, Words("Pending"), message),
       Update(Synced, False, Words("WaitingForCluster"), Words("Topic cannot sync until cluster is ready"))],
      None)
  }

  function ErrorStatus(generation: Option<int>, message: Text): (d: Desired<Body>)
    ensures WellFormed(d) && |d.updates| == 2
  {
    Desired(
      Body(false, PhaseFailed, 0, 0, [], generation, Some(message)),
      [Update(Ready, False, Words("Error"), message), Update(Synced, False, Words("SyncFailed"), message)],
      None)
  }

  /** The counts are the server's, never the spec's. */
  function ReadyStatus(generation: Option<int>, state: ServerState, verified: bool): (d: Desired<Body>)
    ensures WellFormed(d) && |d.updates| == 2
  {
    Desired(
      Body(true, PhaseReady, state.partitions.GetOr(0), state.replicationFactor.GetOr(0), [], generation, None),
      [Update(Ready, True, Words("TopicReady"), Words("Topic successfully created/updated")),
       if verified then Update(Synced, True, Words("ConfigSynced"), Words("Server-reported counts match"))
       else Update(Synced, Unknown, Words("ServerDidNotReportConfiguration"), Words("could not be verified"))],
      None)
  }

  /** The status for what the server said. */
  function ServerStatus(generation: Option<int>, spec: TopicSpec, state: ServerState): (d: Desired<Body>)
    ensures WellFormed(d) && |d.updates| == 2
  {
    match Outcome(spec, state)
    case InSync(reported) => ReadyStatus(generation, reported, true)
    case Unverified => ReadyStatus(generation, state, false)
    case Drift(message) => ErrorStatus(generation, message)
  }

  /** What one reconcile found out. */
  datatype Finding =
    | Refused(message: Text)
    | ClusterMissing(message: Text)
    | ClusterNotReady
    | CallFailed(message: Text)
    | Reported(state: ServerState)

  function StatusFor(generation: Option<int>, spec: TopicSpec, f: Finding): (d: Desired<Body>)
    ensures WellFormed(d) && |d.updates| == 2
  {
    match f
    case Refused(message) => UnsupportedStatus(generation, message)
    case ClusterMissing(message) => ErrorStatus(generation, message)
    case ClusterNotReady => PendingStatus(generation, Words("Waiting for cluster to be ready"))
    case CallFailed(message) => ErrorStatus(generation, message)
    case Reported(state) => ServerStatus(generation, spec, state)
  }

  // ---------------------------------------------------------------------
  // Honesty
  // ---------------------------------------------------------------------

  function SyncedIs(spec: TopicSpec, f: Finding): ConditionStatus {
    if f.Reported? && Agrees(spec, f.state) then True
    else if f.Reported? && !Differs(spec, f.state) then Unknown
    else False
  }

  lemma SyncedUpdate(generation: Option<int>, spec: TopicSpec, f: Finding)
    ensures
      var u := StatusFor(generation, spec, f).updates;
      && u[0].kind == Ready && u[1].kind == Synced && u[1].status == SyncedIs(spec, f)
      && u[0].status == (if SyncedIs(spec, f).False? then False else True)
  {
    if f.Reported? {
      OutcomeIsExact(spec, f.state);
    }
  }

  predicate Carries(s: Status<Body>, kind: ConditionType, status: ConditionStatus) {
    Find(s.conditions, kind).Some? && Find(s.conditions, kind).value.status == status
  }

  /** From any prior status: Synced is true exactly when the server confirmed both
      counts, and then the published counts are those of the spec; it is unknown
      exactly when the server contradicted nothing but left a count out; a
      contradicted count always shows as failed; and an unready topic publishes no
      counts. */
  lemma SyncedIsEarned(prior: Option<Status<Body>>, generation: Option<int>, spec: TopicSpec, f: Finding, clock: Clock)
    requires |clock.readings| == 2
    ensures
      var s := Build(prior, StatusFor(generation, spec, f), clock);
      && (Carries(s, Synced, True) <==> f.Reported? && Agrees(spec, f.state))
      && (Carries(s, Synced, Unknown) <==> f.Reported? && !Agrees(spec, f.state) && !Differs(spec, f.state))
      && (Carries(s, Synced, True) ==>
          s.body.partitions == spec.partitions && s.body.replicationFactor == spec.replicationFactor)
      && (f.Reported? && Differs(spec, f.state) ==>
            s.body.phase.PhaseFailed? && Carries(s, Ready, False) && Carries(s, Synced, False))
      && (s.body.ready <==> Carries(s, Ready, True))
      && (s.body.ready <==> f.Reported? && !Differs(spec, f.state))
      && (!s.body.ready ==> s.body.partitions == 0 && s.body.replicationFactor == 0)
  {
    var d := StatusFor(generation, spec, f);
    SyncedUpdate(generation, spec, f);
    BuildSettles(prior, d, clock);
    assert d.updates[0] in d.updates && d.updates[1] in d.updates;
    if f.Reported? {
      OutcomeIsExact(spec, f.state);
    }
  }

  /** What is published of each finding besides the conditions' statuses, from any prior
      status: the generation that was looked at, the phase, the server's counts and none
      where the topic is not ready, and what went wrong, in full, as the error and as the
      message of the Ready condition. */
  lemma PublishedExactly(prior: Option<Status<Body>>, generation: Option<int>, spec: TopicSpec, f: Finding,
      clock: Clock)
    requires |clock.readings| == 2
    ensures
      var s := Build(prior, StatusFor(generation, spec, f), clock);
      var b, ready := s.body, f.Reported? && !Differs(spec, f.state);
      && b.observedGeneration == generation && b.partitionAssignments == [] && b.ready == ready
      && b.phase == (if ready then PhaseReady else if f.ClusterNotReady? then PhasePending else PhaseFailed)
      && b.partitions == (if ready && f.state.partitions.Some? then f.state.partitions.value else 0)
      && b.replicationFactor == (if ready && f.state.replicationFactor.Some? then f.state.replicationFactor.value
                                 else 0)
      && b.errorMessage == (match f
                            case Refused(message) => Some(message)
                            case ClusterMissing(message) => Some(message)
                            case ClusterNotReady => None
                            case CallFailed(message) => Some(message)
                            case Reported(state) => if ready then None else Some(Joined(DriftOf(spec, state))))
      && Find(s.conditions, Ready).Some? && Find(s.conditions, Synced).Some?
      && (b.errorMessage.Some? ==> Find(s.conditions, Ready).value.message == b.errorMessage)
  {
    var d := StatusFor(generation, spec, f);
    SyncedUpdate(generation, spec, f);
    BuildSettles(prior, d, clock);
    assert d.updates[0] in d.updates && d.updates[1] in d.updates;
    if f.Reported? {
      OutcomeIsExact(spec, f.state);
    }
  }

  predicate Gives(s: Status<Body>, kind: ConditionType, reason: string) {
    Find(s.conditions, kind).Some? && Find(s.conditions, kind).value.reason == Some(Words(reason))
  }

  /** Why each topic condition is what it is. */
  lemma ReasonsExactly(prior: Option<Status<Body>>, generation: Option<int>, spec: TopicSpec, f: Finding, clock: Clock)
    requires |clock.readings| == 2
    ensures
      var s := Build(prior, StatusFor(generation, spec, f), clock);
      var failed := f.ClusterMissing? || f.CallFailed? || (f.Reported? && Differs(spec, f.state));
      && Gives(s, Ready, if f.Refused? then "UnsupportedConfiguration" else if f.ClusterNotReady? then "Pending"
                         else if failed then "Error" else "TopicReady")
      && Gives(s, Synced, if f.Refused? then "UnsupportedConfiguration"
                          else if f.ClusterNotReady? then "WaitingForCluster"
                          else if failed then "SyncFailed"
                          else if Agrees(spec, f.state) then "ConfigSynced" else "ServerDidNotReportConfiguration")
  {
    var d := StatusFor(generation, spec, f);
    SyncedUpdate(generation, spec, f);
    BuildSettles(prior, d, clock);
    assert d.updates[0] in d.updates && d.updates[1] in d.updates;
    if f.Reported? {
      OutcomeIsExact(spec, f.state);
    }
  }

  /** From any prior status, no Synced condition on the object contradicts the finding
      exactly when no duplicate of the prior status does; without duplicates none
      does. */
  lemma NoStaleClaims(prior: Option<Status<Body>>, generation: Option<int>, spec: TopicSpec, f: Finding, clock: Clock)
    requires |clock.readings| == 2
    ensures
      var s := Build(prior, StatusFor(generation, spec, f), clock);
      && (AllSay(s.conditions, Synced, SyncedIs(spec, f)) <==> RestSay(Seeded(prior, None), Synced, SyncedIs(spec, f)))
      && (Distinct(Kinds(Seeded(prior, None))) ==> AllSay(s.conditions, Synced, SyncedIs(spec, f)))
  {
    var d := StatusFor(generation, spec, f);
    SyncedUpdate(generation, spec, f);
    SeedsEverything(generation, spec, f);
    assert d.updates[1] in d.updates;
    AllSayExactly(prior, d, clock, d.updates[1]);
  }

  lemma SeedsEverything(generation: Option<int>, spec: TopicSpec, f: Finding)
    ensures StatusFor(generation, spec, f).owned == None
  {
  }

  lemma OneShape(g1: Option<int>, s1: TopicSpec, f1: Finding, g2: Option<int>, s2: TopicSpec, f2: Finding)
    ensures SameShape(StatusFor(g1, s1, f1), StatusFor(g2, s2, f2))
  {
    SyncedUpdate(g1, s1, f1);
    SyncedUpdate(g2, s2, f2);
    SeedsEverything(g1, s1, f1);
    SeedsEverything(g2, s2, f2);
  }

  /** A finding after another publishes nothing if and only if both call for the same
      status. */
  lemma FindingsAreQuietExactly(
      prior: Option<Status<Body>>, generation: Option<int>, spec: TopicSpec, f: Finding, g: Finding,
      first: Clock, second: Clock)
    requires |first.readings| == |second.readings| == 2
    ensures
      var published := Build(prior, StatusFor(generation, spec, f), first);
      Build(Some(published), StatusFor(generation, spec, g), second) == published
      <==> StatusFor(generation, spec, f) == StatusFor(generation, spec, g)
  {
    OneShape(generation, spec, f, generation, spec, g);
    QuietExactly(prior, StatusFor(generation, spec, f), StatusFor(generation, spec, g), first, second);
  }

  /** Whatever the reconcile found out, finding it out again publishes nothing new. */
  lemma TopicStatusIsQuiet(prior: Option<Status<Body>>, generation: Option<int>, spec: TopicSpec, f: Finding,
      first: Clock, second: Clock)
    requires |first.readings| == |second.readings| == 2
    ensures
      var d := StatusFor(generation, spec, f);
      Build(Some(Build(prior, d, first)), d, second) == Build(prior, d, first)
  {
    RepeatedReconcileIsQuiet(prior, StatusFor(generation, spec, f), first, second);
  }
}
