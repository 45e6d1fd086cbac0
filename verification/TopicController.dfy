/** One reconcile of a StreamlineTopic. */
module TopicControllers {
  import opened Prelude
  import opened Conditions
  import opened StatusPublication
  import opened MergePatch
  import opened TopicSpecs
  import opened TopicSync
  import opened TopicStatuses
  import opened Finalizers

  const TOPIC_FINALIZER := "streamline.io/topic-cleanup"

  /** What came back from the Streamline server: nothing but a reason, or a status code,
      the text of a body, and the document the text holds (None when it is not JSON). */
  datatype Reply = NoAnswer(why: string) | Answer(code: nat, text: string, body: Option<Json>)

  datatype ClusterView = ClusterView(readyReplicas: int, endpoints: nat)

  /** What came back for the referenced cluster. */
  datatype ClusterReply = Unavailable | Found(status: Option<ClusterView>)

  /** A request to the Streamline server. */
  datatype Call = Create(name: string, partitions: int) | Read(name: string) | Remove(name: string)

  /** `deletion` is the fate of the finalizer patch for a topic that is being deleted. */
  datatype Inputs = Inputs(
    name: string, spec: TopicSpec, generation: Option<int>, deletion: Option<Fault>,
    cluster: ClusterReply, post: Reply, get: Reply,
    finalizerFault: Fault, statusFault: Fault, clock: Clock)
  {
    predicate Valid() { |clock.readings| == 2 }
  }

  datatype Error = KubeApi

  /** When to reconcile next: after so many seconds, or on the next change. */
  datatype Action = Requeue(seconds: nat) | AwaitChange

  // ---------------------------------------------------------------------
  // What one reconcile finds out
  // ---------------------------------------------------------------------

  predicate IsSuccess(code: nat) {
    200 <= code < 300
  }

  /** A conflict means that the topic is already there. */
  predicate Accepted(post: Reply) {
    post.Answer? && (IsSuccess(post.code) || post.code == 409)
  }

  predicate IsReady(cluster: ClusterReply) {
    && cluster.Found? && cluster.status.Some?
    && cluster.status.value.readyReplicas > 0 && cluster.status.value.endpoints > 0
  }

  function ReadBack(get: Reply): ServerState {
    if get.Answer? && IsSuccess(get.code) then ParseTopicState(get.body) else NOTHING_REPORTED
  }

  /** The state from the first reply that reports any. */
  function Learned(post: Reply, get: Reply): ServerState
    requires post.Answer?
  {
    var state := ParseTopicState(post.body);
    if state.IsEmpty() then ReadBack(get) else state
  }

  /** A failure is published with what came back: the reason, or the code and the text. */
  function CallFailure(name: string, post: Reply): Text {
    match post
    case NoAnswer(why) => Joined([Words("HTTP request to create topic failed"), Words(name), Words(why)])
    case Answer(code, text, _) => Joined([Figures("Failed to create topic", [code]), Words(name), Words(text)])
  }

  function Spelled(k: Key): string {
    match k
    case Spec => "spec"
    case Replicas => "replicas"
    case PodAntiAffinity => "podAntiAffinity"
    case ClusterRef => "clusterRef"
    case Partitions => "partitions"
    case ReplicationFactor => "replicationFactor"
    case Retention => "retention"
    case RetentionMs => "retentionMs"
    case RetentionBytes => "retentionBytes"
    case CleanupPolicy => "cleanupPolicy"
    case Compression => "compression"
    case Type => "type"
    case Config => "config"
    case MinInsyncReplicas => "minInsyncReplicas"
    case MaxMessageBytes => "maxMessageBytes"
    case SegmentBytes => "segmentBytes"
    case IndexIntervalBytes => "indexIntervalBytes"
    case FlushIntervalMs => "flushIntervalMs"
    case FlushMessages => "flushMessages"
    case Custom => "custom"
    case Topic => "topic"
    case PartitionCountSnake => "partition_count"
    case PartitionCountCamel => "partitionCount"
    case ReplicationFactorSnake => "replication_factor"
    case Other(name) => name
  }

  function Wording(r: Rejection): Text {
    Joined(
      seq(|r.field|, k requires 0 <= k < |r.field| => Words(Spelled(r.field[k])))
      + [match r.requested case Number(n) => Figures("=", [n]) case String(s) => Words(s) case _ => Words("")])
  }

  /** The refusal joins the wordings of all rejections. */
  function Refusal(rs: seq<Rejection>): Text {
    Joined(seq(|rs|, k requires 0 <= k < |rs| => Wording(rs[k])))
  }

  function NotFound(i: Inputs): Text {
    Joined([Words("Cluster not found"), Words(i.spec.clusterRef)])
  }

  function FindingOf(i: Inputs): Finding {
    if !Supported(i.spec) then Refused(Refusal(Rejections(i.spec)))
    else if i.cluster.Unavailable? then ClusterMissing(NotFound(i))
    else if !IsReady(i.cluster) then ClusterNotReady
    else if !Accepted(i.post) then CallFailed(CallFailure(i.name, i.post))
    else Reported(Learned(i.post, i.get))
  }

  /** The requests one reconcile of a live topic sends. */
  function CallsOf(i: Inputs): seq<Call> {
    if !Supported(i.spec) || !IsReady(i.cluster) then []
    else
      [Create(i.name, i.spec.partitions)]
      + (if Accepted(i.post) && ParseTopicState(i.post.body).IsEmpty() then [Read(i.name)] else [])
  }

  function RequeueAfter(f: Finding): Action {
    match f
    case Refused(_) => Requeue(300)
    case ClusterMissing(_) => Requeue(30)
    case ClusterNotReady => Requeue(10)
    case CallFailed(_) => Requeue(30)
    case Reported(_) => Requeue(60)
  }

  function PassOf(i: Inputs): (p: Pass<Body>)
    ensures i.Valid() ==> p.Valid()
  {
    Pass(StatusFor(i.generation, i.spec, FindingOf(i)), i.clock, i.statusFault)
  }

  /** The cluster serves: a broker is ready and has an endpoint. */
  predicate Serves(cluster: ClusterReply) {
    match cluster
    case Unavailable => false
    case Found(None) => false
    case Found(Some(view)) => view.readyReplicas > 0 && view.endpoints > 0
  }

  /** The server took the topic, or has it already. */
  predicate Took(post: Reply) {
    post.Answer? && (200 <= post.code <= 299 || post.code == 409)
  }

  /** What the server said of the topic: in its answer to the create if that says anything,
      and otherwise in its answer to the read. */
  function Said(post: Reply, get: Reply): ServerState
    requires Took(post)
  {
    if ParseTopicState(post.body) != ServerState(None, None) then ParseTopicState(post.body)
    else if get.Answer? && 200 <= get.code <= 299 then ParseTopicState(get.body)
    else ServerState(None, None)
  }

  /** What is found out, in the order in which it is asked: the spec, the cluster, the
      create, the state. */
  lemma FindingsExactly(i: Inputs)
    ensures FindingOf(i).Refused? <==> !Supported(i.spec)
    ensures FindingOf(i).ClusterMissing? <==> Supported(i.spec) && i.cluster.Unavailable?
    ensures FindingOf(i).ClusterNotReady? <==> Supported(i.spec) && i.cluster.Found? && !Serves(i.cluster)
    ensures FindingOf(i).CallFailed? <==> Supported(i.spec) && Serves(i.cluster) && !Took(i.post)
    ensures FindingOf(i).Reported? <==> Supported(i.spec) && Serves(i.cluster) && Took(i.post)
    ensures FindingOf(i).Reported? ==> FindingOf(i).state == Said(i.post, i.get)
    ensures FindingOf(i).Refused? ==> FindingOf(i).message == Refusal(Rejections(i.spec))
    ensures FindingOf(i).ClusterMissing? ==>
              FindingOf(i).message == Joined([Words("Cluster not found"), Words(i.spec.clusterRef)])
    ensures FindingOf(i).CallFailed? ==> FindingOf(i).message == CallFailure(i.name, i.post)
  {
  }

  /** The next reconcile comes after five minutes where only a change of the spec can help,
      half a minute after a failure, ten seconds when the cluster is about to be ready, and
      a minute otherwise. */
  lemma RequeuesExactly(i: Inputs)
    ensures RequeueAfter(FindingOf(i)) == Requeue(
              if !Supported(i.spec) then 300
              else if i.cluster.Unavailable? then 30
              else if !Serves(i.cluster) then 10
              else if !Took(i.post) then 30
              else 60)
  {
    FindingsExactly(i);
  }

  class TopicController {
    var finalizers: seq<string>
    var status: Option<Status<Body>>
    var calls: seq<Call>

    constructor (finalizers: seq<string>, status: Option<Status<Body>>)
      ensures this.finalizers == finalizers && this.status == status && calls == []
    {
      this.finalizers, this.status, calls := finalizers, status, [];
    }

    method EnsureFinalizer(fault: Fault) returns (r: Result<(), Error>)
      modifies this`finalizers
      ensures finalizers == if TOPIC_FINALIZER in old(finalizers) || !fault.TakesEffect() then old(finalizers)
                            else old(finalizers) + [TOPIC_FINALIZER]
      ensures r.Ok? <==> TOPIC_FINALIZER in old(finalizers) || fault.Delivered?
    {
      if TOPIC_FINALIZER in finalizers {
        return Ok(());
      }
      if fault.TakesEffect() {
        finalizers := finalizers + [TOPIC_FINALIZER];
      }
      r := if fault.Delivered? then Ok(()) else Err(KubeApi);
    }

    method FetchTopicState(name: string, get: Reply) returns (state: ServerState)
      modifies this`calls
      ensures calls == old(calls) + [Read(name)] && state == ReadBack(get)
    {
      calls := calls + [Read(name)];
      match get
      case NoAnswer(_) => state := NOTHING_REPORTED;
      case Answer(code, _, body) => state := if IsSuccess(code) then ParseTopicState(body) else NOTHING_REPORTED;
    }

    method CreateOrUpdateTopic(i: Inputs) returns (r: Result<ServerState, Text>)
      requires Supported(i.spec) && IsReady(i.cluster)
      modifies this`calls
      ensures calls == old(calls) + CallsOf(i)
      ensures r == if Accepted(i.post) then Ok(Learned(i.post, i.get)) else Err(CallFailure(i.name, i.post))
      ensures r.Ok? <==> i.post.Answer? && (200 <= i.post.code <= 299 || i.post.code == 409)
      ensures
        var created := old(calls) + [Create(i.name, i.spec.partitions)];
        calls == if r.Ok? && ParseTopicState(i.post.body) == ServerState(None, None) then created + [Read(i.name)]
                 else created
      ensures r.Ok? ==>
        r.value == if ParseTopicState(i.post.body) != ServerState(None, None) then ParseTopicState(i.post.body)
                   else if i.get.Answer? && 200 <= i.get.code <= 299 then ParseTopicState(i.get.body)
                   else ServerState(None, None)
    {
      calls := calls + [Create(i.name, i.spec.partitions)];
      if i.post.NoAnswer? || (!IsSuccess(i.post.code) && i.post.code != 409) {
        return Err(CallFailure(i.name, i.post));
      }
      var state := ParseTopicState(i.post.body);
      if state.IsEmpty() {
        state := FetchTopicState(i.name, i.get);
      }
      r := Ok(state);
    }

    method PublishStatus(d: Desired<Body>, clock: Clock, fault: Fault) returns (r: Result<(), Error>)
      requires WellFormed(d) && |d.updates| == |clock.readings|
      modifies this`status
      ensures status == Published(old(status), [Pass(d, clock, fault)])
      ensures r.Ok? <==> old(status) == Some(Build(old(status), d, clock)) || fault.Delivered?
    {
      ghost var pass := Pass(d, clock, fault);
      assert [pass][..0] == [] && [pass][0].Valid();
      var publisher := new Publisher(status);
      var ok := publisher.PatchStatusIfChanged(Build(status, d, clock), fault);
      status := publisher.published;
      r := if ok then Ok(()) else Err(KubeApi);
    }

    method UpdateStatusFromServer(i: Inputs, state: ServerState) returns (r: Result<(), Error>)
      requires i.Valid()
      modifies this`status
      ensures status == Published(old(status),
          [Pass(ServerStatus(i.generation, i.spec, state), i.clock, i.statusFault)])
      ensures r.Ok? <==> old(status) == Some(Build(old(status), ServerStatus(i.generation, i.spec, state), i.clock))
                         || i.statusFault.Delivered?
    {
      var outcome := EvaluateSync(i.spec, state);
      var d := match outcome
        case InSync(reported) => ReadyStatus(i.generation, reported, true)
        case Unverified => ReadyStatus(i.generation, state, false)
        case Drift(message) => ErrorStatus(i.generation, message);
      r := PublishStatus(d, i.clock, i.statusFault);
    }

    /** Publishes what was found out, building the status that goes with it. */
    method UpdateStatus(i: Inputs, f: Finding) returns (r: Result<Action, Error>)
      requires i.Valid()
      modifies this`status
      ensures status == Published(old(status), [Pass(StatusFor(i.generation, i.spec, f), i.clock, i.statusFault)])
      ensures r.Ok? <==> old(status) == Some(Build(old(status), StatusFor(i.generation, i.spec, f), i.clock))
                         || i.statusFault.Delivered?
      ensures r.Ok? ==> r.value == RequeueAfter(f)
    {
      var step: Result<(), Error>;
      match f {
        case Refused(message) =>
          step := PublishStatus(UnsupportedStatus(i.generation, message), i.clock, i.statusFault);
        case ClusterMissing(message) =>
          step := PublishStatus(ErrorStatus(i.generation, message), i.clock, i.statusFault);
        case ClusterNotReady =>
          step := PublishStatus(PendingStatus(i.generation, Words("Waiting for cluster to be ready")), i.clock,
              i.statusFault);
        case CallFailed(message) =>
          step := PublishStatus(ErrorStatus(i.generation, message), i.clock, i.statusFault);
        case Reported(state) =>
          step := UpdateStatusFromServer(i, state);
      }
      r := if step.Ok? then Ok(RequeueAfter(f)) else Err(KubeApi);
    }

    /** The cluster and the server, for a spec that passed the gate. */
    method AskServer(i: Inputs) returns (f: Finding)
      requires Supported(i.spec)
      modifies this`calls
      ensures calls == old(calls) + CallsOf(i) && f == FindingOf(i)
    {
      if i.cluster.Unavailable? {
        return ClusterMissing(NotFound(i));
      }
      if !IsReady(i.cluster) {
        return ClusterNotReady;
      }
      var outcome := CreateOrUpdateTopic(i);
      f := match outcome case Ok(state) => Reported(state) case Err(message) => CallFailed(message);
    }

    /** The gate comes first: a refused spec never gets as far as the cluster. */
    method Investigate(i: Inputs) returns (f: Finding)
      modifies this`calls
      ensures calls == old(calls) + CallsOf(i) && f == FindingOf(i)
    {
      var unsupported := UnsupportedFields(i.spec);
      if unsupported != [] {
        return Refused(Refusal(unsupported));
      }
      f := AskServer(i);
    }

    /** Everything after the finalizer. */
    method Settle(i: Inputs) returns (r: Result<Action, Error>)
      requires i.Valid()
      modifies this`status, this`calls
      ensures calls == old(calls) + CallsOf(i)
      ensures status == Published(old(status), [PassOf(i)])
      ensures r.Ok? <==> old(status) == Some(Build(old(status), PassOf(i).desired, i.clock)) || i.statusFault.Delivered?
      ensures r.Ok? ==> r.value == RequeueAfter(FindingOf(i))
    {
      var f := Investigate(i);
      r := UpdateStatus(i, f);
    }

    /** Nothing is asked of the server before the finalizer is in place, and nothing for
        a refused spec; a topic being deleted is cleaned up instead. */
    method Reconcile(i: Inputs) returns (r: Result<Action, Error>)
      requires i.Valid()
      modifies this
      ensures i.deletion.Some? ==>
                && status == old(status)
                && calls == old(calls) + (if i.cluster.Found? then [Remove(i.name)] else [])
                && finalizers == (if i.deletion.value.TakesEffect()
                                  then Finalizers.Without(old(finalizers), TOPIC_FINALIZER)
                                  else old(finalizers))
                && (r.Ok? <==> i.deletion.value.Delivered?)
                && (r.Ok? ==> r.value == AwaitChange && TOPIC_FINALIZER !in finalizers)
      ensures i.deletion.None? ==>
                finalizers == if TOPIC_FINALIZER in old(finalizers) || !i.finalizerFault.TakesEffect()
                              then old(finalizers)
                              else old(finalizers) + [TOPIC_FINALIZER]
      ensures i.deletion.None? && (TOPIC_FINALIZER in old(finalizers) || i.finalizerFault.Delivered?) ==>
                calls == old(calls) + CallsOf(i) && status == Published(old(status), [PassOf(i)])
      ensures i.deletion.None? && !(TOPIC_FINALIZER in old(finalizers) || i.finalizerFault.Delivered?) ==>
                r.Err? && calls == old(calls) && status == old(status)
      ensures i.deletion.None? && !Supported(i.spec) ==> calls == old(calls)
      ensures i.deletion.None? ==>
                (r.Ok? <==>
                  && (TOPIC_FINALIZER in old(finalizers) || i.finalizerFault.Delivered?)
                  && (old(status) == Some(Build(old(status), PassOf(i).desired, i.clock)) || i.statusFault.Delivered?))
      ensures i.deletion.None? && r.Ok? ==> TOPIC_FINALIZER in finalizers
      ensures i.deletion.None? && r.Ok? ==> r.value == Requeue(
                if !Supported(i.spec) then 300
                else if i.cluster.Unavailable? then 30
                else if !Serves(i.cluster) then 10
                else if !Took(i.post) then 30
                else 60)
    {
      RequeuesExactly(i);
      if i.deletion.Some? {
        var deleted := HandleDeletion(i.name, i.cluster, i.deletion.value);
        return if deleted.Ok? then Ok(AwaitChange) else Err(KubeApi);
      }
      var step := EnsureFinalizer(i.finalizerFault);
      if step.Err? {
        return Err(KubeApi);
      }
      r := Settle(i);
    }

    /** The server is asked to drop the topic as far as the cluster can be reached; the
        finalizer goes in any case. */
    method HandleDeletion(name: string, cluster: ClusterReply, patch: Fault) returns (r: Result<(), Error>)
      modifies this`finalizers, this`calls
      ensures calls == old(calls) + if cluster.Found? then [Remove(name)] else []
      ensures finalizers == if patch.TakesEffect() then Finalizers.Without(old(finalizers), TOPIC_FINALIZER)
          else old(finalizers)
      ensures r.Ok? <==> patch.Delivered?
      ensures r.Ok? ==> TOPIC_FINALIZER !in finalizers
    {
      if cluster.Found? {
        calls := calls + [Remove(name)];
      }
      WithoutRemoves(finalizers, TOPIC_FINALIZER);
      if patch.TakesEffect() {
        finalizers := Finalizers.Without(finalizers, TOPIC_FINALIZER);
      }
      r := if patch.Delivered? then Ok(()) else Err(KubeApi);
    }
  }

  // ---------------------------------------------------------------------
  // What a reconcile may claim
  // ---------------------------------------------------------------------

  /** For every spec, cluster and pair of replies, and from any prior status: a topic
      is published as synced exactly when its spec is supported, its cluster serves, the
      server took the create with a code from 200 to 299 or with 409, and the reply that was
      read confirmed both counts; and then the published counts are the spec's. */
  lemma SyncedMeansConfirmed(prior: Option<Status<Body>>, i: Inputs)
    requires i.Valid()
    ensures
      var s := Build(prior, PassOf(i).desired, i.clock);
      var serves := i.cluster.Found? && i.cluster.status.Some?
        && i.cluster.status.value.readyReplicas > 0 && i.cluster.status.value.endpoints > 0;
      var took := i.post.Answer? && (200 <= i.post.code <= 299 || i.post.code == 409);
      var confirmed := Supported(i.spec) && serves && took
        && Said(i.post, i.get) == ServerState(Some(i.spec.partitions), Some(i.spec.replicationFactor));
      && (Carries(s, Synced, True) <==> confirmed)
      && (confirmed ==> s.body.ready && s.body.partitions == i.spec.partitions && s.body.replicationFactor == 1)
  {
    FindingsExactly(i);
    SyncedIsEarned(prior, i.generation, i.spec, FindingOf(i), i.clock);
  }

  /** The server is contacted only for supported specs on serving clusters, it is sent the
      partition count and nothing else of the spec, and it is read back exactly when
      its answer to a create that it took reported nothing. */
  lemma CallsAreGated(i: Inputs)
    ensures CallsOf(i) ==
      if !Supported(i.spec) || !Serves(i.cluster) then []
      else if Took(i.post) && ParseTopicState(i.post.body) == ServerState(None, None) then
        [Create(i.name, i.spec.partitions), Read(i.name)]
      else [Create(i.name, i.spec.partitions)]
  {
  }

  function Passes(run: seq<Inputs>): (ps: seq<Pass<Body>>)
    requires forall i <- run :: i.Valid()
    ensures |ps| == |run| && forall p <- ps :: p.Valid()
  {
    seq(|run|, k requires 0 <= k < |run| => assert run[k].Valid(); PassOf(run[k]))
  }

  /** Over any run of reconciles that get as far as the status, the topic's status is
      patched at most as often as what the controller finds out changes; and when the
      patches take effect, exactly as often, save for a first finding that the prior
      status already told. */
  lemma TopicPatchesFollowFindings(prior: Option<Status<Body>>, run: seq<Inputs>)
    requires forall i <- run :: i.Valid()
    ensures Patches(prior, Passes(run)) <= Changes(Passes(run))
    ensures run != [] && (forall i <- run :: i.statusFault.TakesEffect()) ==>
              Patches(prior, Passes(run)) + (if Settled(prior, Passes(run)[0].desired) then 1 else 0)
              == Changes(Passes(run))
  {
    var passes := Passes(run);
    PatchesFollowInputs(prior, passes);
    if run != [] && forall i <- run :: i.statusFault.TakesEffect() {
      forall k | 0 <= k < |run|
        ensures passes[k].fault.TakesEffect() && SameShape(passes[0].desired, passes[k].desired)
      {
        assert run[k] in run;
        OneShape(run[0].generation, run[0].spec, FindingOf(run[0]), run[k].generation, run[k].spec, FindingOf(run[k]));
      }
      PatchesExactly(prior, passes);
    }
  }

  lemma Spelling(k: Key)
    ensures
      var s := Spelled(k);
      match k
      case Spec => |s| == 4 && s[0] == 's'
      case Replicas => |s| == 8 && s[0] == 'r'
      case PodAntiAffinity => |s| == 15 && s[0] == 'p' && s[1] == 'o'
      case ClusterRef => |s| == 10 && s[0] == 'c'
      case Partitions => |s| == 10 && s[0] == 'p'
      case ReplicationFactor => |s| == 17 && s[0] == 'r'
      case Retention => |s| == 9 && s[0] == 'r'
      case RetentionMs => |s| == 11 && s[0] == 'r'
      case RetentionBytes => |s| == 14 && s[0] == 'r'
      case CleanupPolicy => |s| == 13 && s[0] == 'c'
      case Compression => |s| == 11 && s[0] == 'c'
      case Type => |s| == 4 && s[0] == 't'
      case Config => |s| == 6 && s[0] == 'c' && s[3] == 'f'
      case MinInsyncReplicas => |s| == 17 && s[0] == 'm'
      case MaxMessageBytes => |s| == 15 && s[0] == 'm' && s[1] == 'a'
      case SegmentBytes => |s| == 12 && s[0] == 's'
      case IndexIntervalBytes => |s| == 18 && s[0] == 'i'
      case FlushIntervalMs => |s| == 15 && s[0] == 'f' && s[1] == 'l'
      case FlushMessages => |s| == 13 && s[0] == 'f'
      case Custom => |s| == 6 && s[0] == 'c' && s[3] == 't'
      case Topic => |s| == 5 && s[0] == 't'
      case PartitionCountSnake => |s| == 15 && s[0] == 'p' && s[1] == 'a'
      case PartitionCountCamel => |s| == 14 && s[0] == 'p'
      case ReplicationFactorSnake => |s| == 18 && s[0] == 'r'
      case Other(name) => s == name
  {
  }

  /** No two of the operator's own names are spelled the same. */
  lemma NamesAreToldApart(k: Key, l: Key)
    requires k.Other? <==> l.Other?
    ensures Spelled(k) == Spelled(l) <==> k == l
  {
    Spelling(k);
    Spelling(l);
  }

  /** A name of another kind is not one of the operator's own. */
  ghost predicate Canonical(k: Key) {
    k.Other? ==> forall own: Key | !own.Other? :: Spelled(own) != k.name
  }

  lemma KeysAreToldApart(k: Key, l: Key)
    requires Canonical(k) && Canonical(l) && Spelled(k) == Spelled(l)
    ensures k == l
  {
    if k.Other? <==> l.Other? {
      NamesAreToldApart(k, l);
    }
  }

  /** A refusal that names a field by canonical keys and gives the value asked for. */
  ghost predicate IsPlain(r: Rejection) {
    (r.requested.Number? || r.requested.String?) && forall k <- r.field :: Canonical(k)
  }

  lemma WordingsAreToldApart(r: Rejection, q: Rejection)
    requires IsPlain(r) && IsPlain(q) && Wording(r) == Wording(q)
    ensures r == q
  {
    var a, b := Wording(r).parts, Wording(q).parts;
    var n := |r.field|;
    assert |a| == |r.field| + 1 && |b| == |q.field| + 1;
    forall k | 0 <= k < n
      ensures r.field[k] == q.field[k]
    {
      assert a[k] == Words(Spelled(r.field[k])) && b[k] == Words(Spelled(q.field[k]));
      assert r.field[k] in r.field && q.field[k] in q.field;
      KeysAreToldApart(r.field[k], q.field[k]);
    }
    assert r.requested.Number? ==> a[n] == Figures("=", [r.requested.n]) && a[n].figures[0] == r.requested.n;
    assert q.requested.Number? ==> b[n] == Figures("=", [q.requested.n]) && b[n].figures[0] == q.requested.n;
    assert r.requested.String? ==> a[n] == Words(r.requested.s);
    assert q.requested.String? ==> b[n] == Words(q.requested.s);
  }

  lemma IsPlainIfAsked(spec: TopicSpec, r: Rejection)
    requires (forall e <- spec.custom :: Canonical(e.0)) && AsksFor(spec, r)
    ensures IsPlain(r)
  {
  }

  lemma RejectionsArePlain(spec: TopicSpec)
    requires forall e <- spec.custom :: Canonical(e.0)
    ensures forall r <- Rejections(spec) :: IsPlain(r)
  {
    forall r <- Rejections(spec)
      ensures IsPlain(r)
    {
      RejectionMember(spec, r);
      IsPlainIfAsked(spec, r);
    }
  }

  /** A refusal holds every rejection in full: two specs are refused in the same words if and
      only if they have the same rejections, in the same order. */
  lemma RefusalsAreToldApart(s: TopicSpec, t: TopicSpec)
    requires (forall e <- s.custom :: Canonical(e.0)) && (forall e <- t.custom :: Canonical(e.0))
    ensures Refusal(Rejections(s)) == Refusal(Rejections(t)) <==> Rejections(s) == Rejections(t)
  {
    var a, b := Rejections(s), Rejections(t);
    RejectionsArePlain(s);
    RejectionsArePlain(t);
    if Refusal(a) == Refusal(b) {
      assert |Refusal(a).parts| == |a| && |Refusal(b).parts| == |b|;
      forall k | 0 <= k < |a|
        ensures a[k] == b[k]
      {
        assert Refusal(a).parts[k] == Wording(a[k]) && Refusal(b).parts[k] == Wording(b[k]);
        assert a[k] in a && b[k] in b;
        WordingsAreToldApart(a[k], b[k]);
      }
    }
  }

  /** Two failed creates are told apart by nothing but what came back. */
  predicate SameFailure(a: Reply, b: Reply) {
    match a
    case NoAnswer(why) => b.NoAnswer? && b.why == why
    case Answer(code, text, _) => b.Answer? && b.code == code && b.text == text
  }

  /** A create that fails again is quiet if and only if the same came back: with the code
      and the text, or the reason, of the failure before, nothing is patched, and with any
      other the status is patched again. */
  lemma FailuresAreQuietExactly(prior: Option<Status<Body>>, i: Inputs, again: Reply, second: Clock)
    requires i.Valid() && |second.readings| == 2
    requires Supported(i.spec) && Serves(i.cluster) && !Took(i.post) && !Took(again)
    ensures
      var published := Build(prior, PassOf(i).desired, i.clock);
      Build(Some(published), PassOf(i.(post := again)).desired, second) == published <==> SameFailure(i.post, again)
  {
    var f, g := FindingOf(i), FindingOf(i.(post := again));
    FindingsAreQuietExactly(prior, i.generation, i.spec, f, g, i.clock, second);
    FailuresAreToldApart(i.name, i.post, i.name, again);
    assert StatusFor(i.generation, i.spec, f).body.errorMessage == Some(CallFailure(i.name, i.post));
    assert StatusFor(i.generation, i.spec, g).body.errorMessage == Some(CallFailure(i.name, again));
  }

  lemma FailuresAreToldApart(m: string, a: Reply, n: string, b: Reply)
    ensures CallFailure(m, a) == CallFailure(n, b) <==> m == n && SameFailure(a, b)
  {
    var c, d := CallFailure(m, a).parts, CallFailure(n, b).parts;
    assert CallFailure(m, a) == CallFailure(n, b) ==> c[0] == d[0] && c[1] == d[1] && c[2] == d[2];
  }

  lemma FailuresSayDifferently(i: Inputs, j: Inputs)
    requires Supported(i.spec) && Serves(i.cluster) && !Took(i.post)
    requires Supported(j.spec) && Serves(j.cluster) && !Took(j.post)
    requires i.name != j.name || !SameFailure(i.post, j.post)
    ensures PassOf(i).desired != PassOf(j).desired
  {
    FailuresAreToldApart(i.name, i.post, j.name, j.post);
    assert PassOf(i).desired.body.errorMessage == Some(CallFailure(i.name, i.post));
    assert PassOf(j).desired.body.errorMessage == Some(CallFailure(j.name, j.post));
  }

  predicate Fails(i: Inputs) {
    Supported(i.spec) && Serves(i.cluster) && !Took(i.post)
  }

  lemma {:induction false} AllChange(passes: seq<Pass<Body>>, n: nat)
    requires n <= |passes| && forall k | 0 < k < |passes| :: passes[k - 1].desired != passes[k].desired
    ensures Changes(passes[..n]) == n
  {
    if n > 0 {
      AllChange(passes, n - 1);
      assert passes[..n][..n - 1] == passes[..n - 1];
    }
  }

  lemma NeighboursDiffer(run: seq<Inputs>, k: nat)
    requires 0 < k < |run| && !SameFailure(run[k - 1].post, run[k].post)
    requires forall i <- run :: i.Valid() && Fails(i) && i.name == run[0].name
    ensures Passes(run)[k - 1].desired != Passes(run)[k].desired
  {
    assert run[k - 1] in run && run[k] in run;
    FailuresSayDifferently(run[k - 1], run[k]);
  }

  lemma FailuresAllChange(run: seq<Inputs>)
    requires forall i <- run :: i.Valid() && Fails(i) && i.name == run[0].name
    requires forall k | 0 < k < |run| :: !SameFailure(run[k - 1].post, run[k].post)
    ensures Changes(Passes(run)) == |run|
  {
    var passes := Passes(run);
    forall k | 0 < k < |run|
      ensures passes[k - 1].desired != passes[k].desired
    {
      NeighboursDiffer(run, k);
    }
    AllChange(passes, |passes|);
    assert passes[..|passes|] == passes;
  }

  /** A server whose failures never read the same twice has every reconcile patch the
      status, the first perhaps excepted. */
  lemma VaryingFailuresNeverSettle(prior: Option<Status<Body>>, run: seq<Inputs>)
    requires run != []
    requires forall i <- run :: i.Valid() && Fails(i) && !i.statusFault.LostBefore? && i.name == run[0].name
    requires forall k | 0 < k < |run| :: !SameFailure(run[k - 1].post, run[k].post)
    ensures Changes(Passes(run)) == |run|
    ensures Patches(prior, Passes(run)) >= |run| - 1
  {
    FailuresAllChange(run);
    TopicPatchesFollowFindings(prior, run);
  }
}
