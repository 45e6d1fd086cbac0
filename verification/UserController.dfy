/** One reconcile of a StreamlineUser: the operator creates nothing for users, says
    so, and takes off the finalizer that earlier versions put on. */
module UserControllers {
  import opened Prelude
  import opened Conditions
  import opened StatusPublication
  import opened Finalizers

  const USER_FINALIZER := "streamline.io/user-cleanup"

  datatype Phase = Pending | PhaseReady | Failed | Unsupported

  datatype Body = Body(
    ready: bool, phase: Phase, username: Option<string>, credentialsSecret: Option<string>,
    observedGeneration: Option<int>, errorMessage: Option<Text>)

  const UNSUPPORTED_REASON := Words("UnsupportedByServer")
  const UNSUPPORTED_MESSAGE := Words("User management is not supported")

  const OWNED: seq<ConditionType> := [Ready, CredentialsReady]

  /** Only the two owned condition types are carried over; foreign ones are dropped. */
  function UnsupportedStatus(generation: Option<int>): (d: Desired<Body>)
    ensures WellFormed(d) && |d.updates| == 2
  {
    Desired(
      Body(false, Unsupported, None, None, generation, Some(UNSUPPORTED_MESSAGE)),
      [Update(Ready, False, UNSUPPORTED_REASON, UNSUPPORTED_MESSAGE),
       Update(CredentialsReady, False, UNSUPPORTED_REASON, Words("No credentials Secret is provisioned"))],
      Some(OWNED))
  }

  datatype Inputs = Inputs(generation: Option<int>, deleting: bool, finalizerFault: Fault, statusFault: Fault,
      clock: Clock) {
    predicate Valid() { |clock.readings| == 2 }
  }

  datatype Error = KubeApi

  class UserController {
    var finalizers: seq<string>
    var status: Option<Status<Body>>

    constructor (finalizers: seq<string>, status: Option<Status<Body>>)
      ensures this.finalizers == finalizers && this.status == status
    {
      this.finalizers, this.status := finalizers, status;
    }

    method RemoveFinalizerIfPresent(fault: Fault) returns (r: Result<(), Error>)
      modifies this`finalizers
      ensures finalizers == if fault.TakesEffect() then Without(old(finalizers), USER_FINALIZER) else old(finalizers)
      ensures r.Ok? <==> USER_FINALIZER !in old(finalizers) || fault.Delivered?
      ensures r.Ok? ==> USER_FINALIZER !in finalizers
    {
      WithoutRemoves(finalizers, USER_FINALIZER);
      if USER_FINALIZER !in finalizers {
        WithoutNone(finalizers, USER_FINALIZER);
        return Ok(());
      }
      if fault.TakesEffect() {
        finalizers := Without(finalizers, USER_FINALIZER);
      }
      r := if fault.Delivered? then Ok(()) else Err(KubeApi);
    }

    method UpdateStatusUnsupported(i: Inputs) returns (r: Result<(), Error>)
      requires i.Valid()
      modifies this`status
      ensures status == Published(old(status), [Pass(UnsupportedStatus(i.generation), i.clock, i.statusFault)])
      ensures r.Ok? ==> Settled(status, UnsupportedStatus(i.generation))
      ensures r.Ok? <==> old(status) == Some(Build(old(status), UnsupportedStatus(i.generation), i.clock))
                         || i.statusFault.Delivered?
    {
      var d := UnsupportedStatus(i.generation);
      ghost var pass := Pass(d, i.clock, i.statusFault);
      assert [pass][..0] == [] && [pass][0].Valid();
      BuildSettles(status, d, i.clock);
      var publisher := new Publisher(status);
      var ok := publisher.PatchStatusIfChanged(Build(status, d, i.clock), i.statusFault);
      status := publisher.published;
      r := if ok then Ok(()) else Err(KubeApi);
    }

    /** The finalizer is never put back, so nothing this operator does holds up a
        deletion; a success means the published status says unsupported. */
    method Reconcile(i: Inputs) returns (r: Result<(), Error>)
      requires i.Valid()
      modifies this
      ensures finalizers == if i.finalizerFault.TakesEffect() then Without(old(finalizers), USER_FINALIZER)
          else old(finalizers)
      ensures r.Ok? ==> USER_FINALIZER !in finalizers
      ensures i.deleting || !(USER_FINALIZER !in old(finalizers) || i.finalizerFault.Delivered?) ==>
          status == old(status)
      ensures !i.deleting && (USER_FINALIZER !in old(finalizers) || i.finalizerFault.Delivered?) ==>
                status == Published(old(status), [Pass(UnsupportedStatus(i.generation), i.clock, i.statusFault)])
      ensures r.Ok? && !i.deleting ==> Settled(status, UnsupportedStatus(i.generation))
      ensures r.Ok? <==>
        && (USER_FINALIZER !in old(finalizers) || i.finalizerFault.Delivered?)
        && (i.deleting || i.statusFault.Delivered?
            || old(status) == Some(Build(old(status), UnsupportedStatus(i.generation), i.clock)))
    {
      r := RemoveFinalizerIfPresent(i.finalizerFault);
      if r.Err? || i.deleting {
        return;
      }
      r := UpdateStatusUnsupported(i);
    }
  }

  /** From any prior status a user is published as unsupported and without credentials,
      and no condition the operator does not own survives; where the owned ones were
      not duplicated, exactly the two of them are left, both false. */
  lemma UsersAreNeverReady(prior: Option<Status<Body>>, generation: Option<int>, clock: Clock)
    requires |clock.readings| == 2
    ensures
      var s := Build(prior, UnsupportedStatus(generation), clock);
      && !s.body.ready && s.body.phase.Unsupported? && s.body.credentialsSecret.None? && s.body.username.None?
      && s.body.observedGeneration == generation && s.body.errorMessage == Some(UNSUPPORTED_MESSAGE)
      && Find(s.conditions, Ready).Some? && Find(s.conditions, Ready).value.message == Some(UNSUPPORTED_MESSAGE)
      && (forall c <- s.conditions :: c.kind in OWNED)
      && Find(s.conditions, Ready).Some? && Find(s.conditions, Ready).value.status == False
      && Find(s.conditions, CredentialsReady).Some? && Find(s.conditions, CredentialsReady).value.status == False
      && (Distinct(Kinds(Seeded(prior, Some(OWNED)))) ==>
            |s.conditions| == 2 && forall c <- s.conditions :: c.status == False)
  {
    var d := UnsupportedStatus(generation);
    var s := Build(prior, d, clock);
    BuildSettles(prior, d, clock);
    assert d.updates[0] in d.updates && d.updates[1] in d.updates;
    if Distinct(Kinds(Seeded(prior, Some(OWNED)))) {
      SetAllKeepsDistinct(Seeded(prior, Some(OWNED)), d.updates, clock.readings);
      OwnedAndDistinctIsTwo(s.conditions);
    }
  }

  lemma {:induction false} FoundIsThere(cs: seq<Condition>, kind: ConditionType)
    ensures Find(cs, kind).Some? ==> Find(cs, kind).value in cs && Find(cs, kind).value.kind == kind
  {
    if cs != [] {
      FoundIsThere(cs[1..], kind);
    }
  }

  lemma {:induction false} DistinctIsItsSet<T>(s: seq<T>)
    requires Distinct(s)
    ensures |(set x <- s)| == |s|
  {
    if s != [] {
      assert forall j, k | 0 <= j < k < |s| - 1 :: s[1..][j] != s[1..][k];
      DistinctIsItsSet(s[1..]);
      assert s[0] !in s[1..];
      assert (set x <- s) == {s[0]} + (set x <- s[1..]);
    }
  }

  lemma {:induction false} OwnedAndDistinctIsTwo(cs: seq<Condition>)
    requires Distinct(Kinds(cs)) && forall c <- cs :: c.kind in OWNED
    requires Find(cs, Ready).Some? && Find(cs, Ready).value.status == False
    requires Find(cs, CredentialsReady).Some? && Find(cs, CredentialsReady).value.status == False
    ensures |cs| == 2 && forall c <- cs :: c.status == False
  {
    KindsAt(cs);
    FoundIsThere(cs, Ready);
    FoundIsThere(cs, CredentialsReady);
    forall k | 0 <= k < |cs|
      ensures cs[k].kind in OWNED && cs[k].status == False
    {
      FindIsTheOne(cs, k);
    }
    var kinds := set c <- cs :: c.kind;
    assert kinds <= {Ready, CredentialsReady};
    DistinctIsItsSet(Kinds(cs));
    assert (set k <- Kinds(cs)) == kinds == {Ready, CredentialsReady};
  }

  /** Reconciling the same user again publishes nothing. */
  lemma UserStatusIsQuiet(prior: Option<Status<Body>>, generation: Option<int>, first: Clock, second: Clock)
    requires |first.readings| == |second.readings| == 2
    ensures
      var d := UnsupportedStatus(generation);
      Build(Some(Build(prior, d, first)), d, second) == Build(prior, d, first)
  {
    RepeatedReconcileIsQuiet(prior, UnsupportedStatus(generation), first, second);
  }
}
