/** What the server says about a topic, and how it compares with the spec. */
module TopicSync {
  import opened Prelude
  import opened MergePatch
  import opened TopicSpecs
  import Conditions

  /** Only what the server reported; a field it left out stays empty. */
  datatype ServerState = ServerState(partitions: Option<I32>, replicationFactor: Option<I32>) {
    predicate IsEmpty() { partitions.None? && replicationFactor.None? }
    predicate IsFullyReported() { partitions.Some? && replicationFactor.Some? }
  }

  const NOTHING_REPORTED := ServerState(None, None)

  // ---------------------------------------------------------------------
  // Parsing a reply
  // ---------------------------------------------------------------------

  function AsI64(j: Json): Option<I64> {
    if j.Number? && -0x8000_0000_0000_0000 <= j.n < 0x8000_0000_0000_0000 then Some(j.n) else None
  }

  /** The integer under the first key that holds one. */
  function FindInteger(root: Json, keys: seq<Key>): Option<I64> {
    if keys == [] then None
    else
      var m := Member(root, keys[0]);
      if m.Some? && AsI64(m.value).Some? then AsI64(m.value) else FindInteger(root, keys[1..])
  }

  /** A first integer that does not fit 32 bits hides the keys after it. */
  function FindI32(root: Json, keys: seq<Key>): Option<I32> {
    match FindInteger(root, keys)
    case Some(n) => if -0x8000_0000 <= n < 0x8000_0000 then Some(n) else None
    case None => None
  }

  const PARTITION_KEYS := [Partitions, PartitionCountSnake, PartitionCountCamel]
  const REPLICATION_KEYS := [ReplicationFactorSnake, ReplicationFactor]

  /** `body` is None when the text is not JSON. */
  function ParseTopicState(body: Option<Json>): ServerState {
    if body.None? then NOTHING_REPORTED
    else
      var root := Member(body.value, Topic).GetOr(body.value);
      ServerState(FindI32(root, PARTITION_KEYS), FindI32(root, REPLICATION_KEYS))
  }

  predicate HoldsInteger(root: Json, k: Key) {
    Member(root, k).Some? && AsI64(Member(root, k).value).Some?
  }

  /** Nothing is invented: a count is reported exactly when some accepted key holds an
      integer, the first such key holds this one, and it fits. */
  lemma {:induction false} ReportedIsWhatTheBodyHolds(root: Json, keys: seq<Key>, n: I32)
    ensures FindI32(root, keys) == Some(n) <==>
      exists k | 0 <= k < |keys| ::
        && Member(root, keys[k]) == Some(Number(n))
        && forall j | 0 <= j < k :: !HoldsInteger(root, keys[j])
  {
    if keys != [] {
      ReportedIsWhatTheBodyHolds(root, keys[1..], n);
      if HoldsInteger(root, keys[0]) {
        assert FindI32(root, keys) == Some(n) <==> Member(root, keys[0]) == Some(Number(n));
      } else {
        assert forall k | 0 <= k < |keys| - 1 :: keys[1..][k] == keys[k + 1];
        if FindI32(root, keys) == Some(n) {
          var k :| 0 <= k < |keys[1..]| && Member(root, keys[1..][k]) == Some(Number(n))
                   && forall j | 0 <= j < k :: !HoldsInteger(root, keys[1..][j]);
          assert forall j | 0 < j < k + 1 :: keys[j] == keys[1..][j - 1];
          assert Member(root, keys[k + 1]) == Some(Number(n));
        }
        if k :| 0 <= k < |keys| && Member(root, keys[k]) == Some(Number(n))
                && forall j | 0 <= j < k :: !HoldsInteger(root, keys[j]) {
          assert k > 0;
          assert keys[1..][k - 1] == keys[k];
        }
      }
    }
  }

  /** The first of the keys under which `root` holds an integer holds this one. */
  predicate SaysFirst(root: Json, keys: seq<Key>, n: I32) {
    exists k | 0 <= k < |keys| ::
      && root.Object? && keys[k] in root.members && root.members[keys[k]] == Number(n)
      && forall j | 0 <= j < k ::
           keys[j] in root.members ==>
             !root.members[keys[j]].Number?
             || !(-0x8000_0000_0000_0000 <= root.members[keys[j]].n < 0x8000_0000_0000_0000)
  }

  /** Which reply reports which count: the object itself or the one under `topic` is read,
      the partitions under their three spellings, the replication factor under its two, and
      a text that is not JSON reports nothing. */
  lemma ParsedExactly(body: Option<Json>, n: I32)
    ensures
      var wrapped := body.Some? && body.value.Object? && Topic in body.value.members;
      var root := if body.None? then Null else if wrapped then body.value.members[Topic] else body.value;
      && (ParseTopicState(body).partitions == Some(n)
          <==> SaysFirst(root, [Partitions, PartitionCountSnake, PartitionCountCamel], n))
      && (ParseTopicState(body).replicationFactor == Some(n)
          <==> SaysFirst(root, [ReplicationFactorSnake, ReplicationFactor], n))
  {
    if body.Some? {
      var root := Member(body.value, Topic).GetOr(body.value);
      ReportedIsWhatTheBodyHolds(root, PARTITION_KEYS, n);
      ReportedIsWhatTheBodyHolds(root, REPLICATION_KEYS, n);
      HeldIsSaid(root, PARTITION_KEYS, n);
      HeldIsSaid(root, REPLICATION_KEYS, n);
    }
  }

  lemma HeldIsSaid(root: Json, keys: seq<Key>, n: I32)
    ensures SaysFirst(root, keys, n) <==>
      exists k | 0 <= k < |keys| ::
        && Member(root, keys[k]) == Some(Number(n))
        && forall j | 0 <= j < k :: !HoldsInteger(root, keys[j])
  {
    if SaysFirst(root, keys, n) {
      var k :| 0 <= k < |keys|
        && root.Object? && keys[k] in root.members && root.members[keys[k]] == Number(n)
        && forall j | 0 <= j < k ::
             keys[j] in root.members ==>
               !root.members[keys[j]].Number?
               || !(-0x8000_0000_0000_0000 <= root.members[keys[j]].n < 0x8000_0000_0000_0000);
      assert Member(root, keys[k]) == Some(Number(n));
      assert forall j | 0 <= j < k :: !HoldsInteger(root, keys[j]);
    }
  }

  // ---------------------------------------------------------------------
  // Comparing
  // ---------------------------------------------------------------------

  datatype SyncOutcome = InSync(state: ServerState) | Drift(message: Conditions.Text) | Unverified

  function DriftOf(spec: TopicSpec, state: ServerState): seq<Conditions.Text> {
    (if state.partitions.Some? && state.partitions.value != spec.partitions
     then [Conditions.Figures("server reports partitions", [state.partitions.value, spec.partitions])] else [])
    + (if state.replicationFactor.Some? && state.replicationFactor.value != spec.replicationFactor
       then [Conditions.Figures("server reports replication factor",
           [state.replicationFactor.value, spec.replicationFactor])]
       else [])
  }

  function Outcome(spec: TopicSpec, state: ServerState): SyncOutcome {
    if DriftOf(spec, state) != [] then Drift(Conditions.Joined(DriftOf(spec, state)))
    else if state.IsFullyReported() then InSync(state)
    else Unverified
  }

  method EvaluateSync(spec: TopicSpec, state: ServerState) returns (outcome: SyncOutcome)
    ensures outcome == Outcome(spec, state)
    ensures outcome.InSync? <==> Agrees(spec, state)
    ensures outcome.Drift? <==> Differs(spec, state)
    ensures outcome.InSync? ==> outcome.state == state
  {
    var drift: seq<Conditions.Text> := [];
    if state.partitions.Some? {
      if state.partitions.value != spec.partitions {
        drift := drift + [Conditions.Figures("server reports partitions", [state.partitions.value, spec.partitions])];
      }
    }
    if state.replicationFactor.Some? {
      if state.replicationFactor.value != spec.replicationFactor {
        drift := drift + [Conditions.Figures("server reports replication factor",
            [state.replicationFactor.value, spec.replicationFactor])];
      }
    }
    assert drift == DriftOf(spec, state);
    OutcomeIsExact(spec, state);
    if drift != [] {
      return Drift(Conditions.Joined(drift));
    }
    outcome := if state.IsFullyReported() then InSync(state) else Unverified;
  }

  /** The server confirmed both counts. */
  predicate Agrees(spec: TopicSpec, state: ServerState) {
    state.partitions == Some(spec.partitions) && state.replicationFactor == Some(spec.replicationFactor)
  }

  /** The server contradicted one of them. */
  predicate Differs(spec: TopicSpec, state: ServerState) {
    || (state.partitions.Some? && state.partitions.value != spec.partitions)
    || (state.replicationFactor.Some? && state.replicationFactor.value != spec.replicationFactor)
  }

  lemma OutcomeIsExact(spec: TopicSpec, state: ServerState)
    ensures Outcome(spec, state).InSync? <==> Agrees(spec, state)
    ensures Outcome(spec, state).Drift? <==> Differs(spec, state)
  {
    assert |DriftOf(spec, state)| > 0 <==> Differs(spec, state);
  }

  /** A drift tells what was reported and what is asked for, the partitions before the
      replication factor, and nothing about a count that agrees. */
  lemma DriftTellsBoth(spec: TopicSpec, state: ServerState)
    ensures
      var d := DriftOf(spec, state);
      var partitions := state.partitions.Some? && state.partitions.value != spec.partitions;
      var replication := state.replicationFactor.Some? && state.replicationFactor.value != spec.replicationFactor;
      && |d| == (if partitions then 1 else 0) + (if replication then 1 else 0)
      && (partitions ==>
            d[0] == Conditions.Figures("server reports partitions", [state.partitions.value, spec.partitions]))
      && (replication ==>
            d[|d| - 1] == Conditions.Figures("server reports replication factor",
                [state.replicationFactor.value, spec.replicationFactor]))
      && (d != [] ==> Outcome(spec, state) == Drift(Conditions.Joined(d)))
  {
  }
}
