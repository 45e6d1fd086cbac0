/** The coordination Lease and the decisions a replica takes on reading it. */
module Lease {
  import opened Prelude

  type Identity = string

  /** Microseconds on the clock the replicas share. */
  type Time = int

  const SECOND: Time := 1_000_000
  const LEASE_DURATION_SECS := 15
  const RENEW_INTERVAL: Time := 10 * SECOND
  const RETRY_INTERVAL: Time := 5 * SECOND

  /** An absent `spec` reads exactly like one whose fields are all absent, so the
      two are not told apart. */
  datatype LeaseSpec = LeaseSpec(
    holder: Option<Identity>,
    durationSecs: Option<int>,
    acquireTime: Option<Time>,
    renewTime: Option<Time>,
    transitions: Option<int>)

  predicate HeldBy(lease: Option<LeaseSpec>, i: Identity) {
    lease.Some? && lease.value.holder == Some(i)
  }

  /** Whole seconds in a signed duration, truncated toward zero. */
  function NumSeconds(d: Time): int {
    if d >= 0 then d / SECOND else -((-d) / SECOND)
  }

  predicate Expired(lease: LeaseSpec, now: Time) {
    match lease.renewTime
    case None => true
    case Some(t) => NumSeconds(now - t) > lease.durationSecs.GetOr(LEASE_DURATION_SECS)
  }

  function CreateLease(id: Identity, captured: Time): LeaseSpec {
    LeaseSpec(Some(id), Some(LEASE_DURATION_SECS), Some(captured), Some(captured), Some(0))
  }

  function UpdateLease(id: Identity, existing: LeaseSpec, captured: Time, takeover: bool): LeaseSpec {
    var transitions := existing.transitions.GetOr(0);
    LeaseSpec(
      Some(id),
      Some(LEASE_DURATION_SECS),
      if takeover then Some(captured) else existing.acquireTime,
      Some(captured),
      Some(if takeover then transitions + 1 else transitions))
  }

  datatype Kind = Create | Acquire | Takeover | Renew | Release

  /** What a replica does with the answer to a `get`: write, give up with a
      definite answer, or report that the Lease does not exist. */
  datatype Decision = Send(kind: Kind, lease: LeaseSpec) | Decline | Missing

  /** `captured` was read before the `get`, `checked` after it. */
  function AcquireDecision(id: Identity, captured: Time, checked: Time, seen: Option<LeaseSpec>): Decision {
    match seen
    case None => Send(Create, CreateLease(id, captured))
    case Some(lease) =>
      if lease.holder == Some(id) then Send(Acquire, UpdateLease(id, lease, captured, false))
      else if Expired(lease, checked) then Send(Takeover, UpdateLease(id, lease, captured, true))
      else Decline
  }

  /** `captured` was read after the `get`. */
  function RenewDecision(id: Identity, captured: Time, seen: Option<LeaseSpec>): Decision {
    match seen
    case None => Missing
    case Some(lease) =>
      if lease.holder != Some(id) then Decline
      else Send(Renew, lease.(renewTime := Some(captured)))
  }

  function ReleaseDecision(id: Identity, seen: Option<LeaseSpec>): Decision {
    match seen
    case None => Missing
    case Some(lease) =>
      if lease.holder != Some(id) then Decline
      else Send(Release, lease.(holder := None))
  }

  // ---------------------------------------------------------------------
  // Who may write, and what
  // ---------------------------------------------------------------------

  /** When a lease is expired, in plain numbers and for every duration: a full second
      past it, or with no renewal time at all. A negative duration counts from zero. */
  predicate Stale(lease: LeaseSpec, now: Time) {
    lease.renewTime.Some? ==>
      var age, d := now - lease.renewTime.value, if lease.durationSecs.Some? then lease.durationSecs.value else 15;
      if d >= 0 then age >= (d + 1) * 1_000_000 else age > d * 1_000_000
  }

  lemma ExpiredExactly(lease: LeaseSpec, now: Time)
    ensures Expired(lease, now) <==> Stale(lease, now)
  {
    if lease.renewTime.Some? {
      var age, d := now - lease.renewTime.value, lease.durationSecs.GetOr(LEASE_DURATION_SECS);
      if age >= 0 {
        assert age / SECOND > d <==> age >= (d + 1) * SECOND;
      } else {
        assert (-age) / SECOND < -d <==> -age < -d * SECOND;
      }
    }
  }

  /** A replica may claim the Lease it read when there is none, when it holds it itself,
      and when it is stale. */
  predicate Open(id: Identity, seen: Option<LeaseSpec>, now: Time) {
    seen.None? || seen.value.holder == Some(id) || Stale(seen.value, now)
  }

  /** A claim names the replica and the time it took before reading. Its own Lease keeps
      the acquire time and the count of transitions; another's gets that time and one
      transition more. */
  predicate Claims(id: Identity, seen: Option<LeaseSpec>, captured: Time, claim: LeaseSpec) {
    && claim.holder == Some(id) && claim.durationSecs == Some(15) && claim.renewTime == Some(captured)
    && match seen
       case None => claim.acquireTime == Some(captured) && claim.transitions == Some(0)
       case Some(lease) =>
         var before := if lease.transitions.Some? then lease.transitions.value else 0;
         if lease.holder == Some(id) then
           claim.acquireTime == lease.acquireTime && claim.transitions == Some(before)
         else
           claim.acquireTime == Some(captured) && claim.transitions == Some(before + 1)
  }

  lemma AcquireDecisionExactly(id: Identity, captured: Time, checked: Time, seen: Option<LeaseSpec>)
    ensures
      var d := AcquireDecision(id, captured, checked, seen);
      if Open(id, seen, checked) then d.Send? && Claims(id, seen, captured, d.lease) else d.Decline?
  {
    if seen.Some? {
      ExpiredExactly(seen.value, checked);
    }
  }

  // ---------------------------------------------------------------------
  // What expiry means in clock ticks, and what a release does to it
  // ---------------------------------------------------------------------

  /** Whole-second truncation together with the strict comparison: a lease of the
      default duration can be taken over only when it is a full sixteen seconds
      old, not fifteen. */
  lemma ExpiryNeedsSixteenSeconds(lease: LeaseSpec, now: Time)
    requires lease.renewTime.Some?
    requires lease.durationSecs.GetOr(LEASE_DURATION_SECS) == LEASE_DURATION_SECS
    ensures Expired(lease, now) <==> now - lease.renewTime.value >= 16 * SECOND
  {
    var d := now - lease.renewTime.value;
    if d >= 0 {
      assert d / SECOND >= 16 <==> d >= 16 * SECOND;
    } else {
      assert (-d) / SECOND >= 0;
    }
  }

  lemma ExpiryIsPersistent(lease: LeaseSpec, t: Time, u: Time)
    requires t <= u && Expired(lease, t)
    ensures Expired(lease, u)
  {
    if lease.renewTime.Some? {
      var a, b := t - lease.renewTime.value, u - lease.renewTime.value;
      if a >= 0 {
        assert a / SECOND <= b / SECOND;
      } else if b >= 0 {
        assert (-a) / SECOND >= 0 && b / SECOND >= 0;
      } else {
        assert (-b) / SECOND <= (-a) / SECOND;
      }
    }
  }

  /** A release clears the holder and nothing else, so a standby reading the
      released Lease takes it over exactly when it could have taken it over had
      the holder stayed: there is no immediate hand-over. */
  lemma ReleaseGivesNoImmediateTakeover(id: Identity, releaser: Identity, lease: LeaseSpec, captured: Time,
      checked: Time)
    requires lease.holder == Some(releaser) && id != releaser
    requires lease.durationSecs == Some(LEASE_DURATION_SECS) && lease.renewTime.Some?
    ensures
      var released := ReleaseDecision(releaser, Some(lease));
      released.Send?
      && (AcquireDecision(id, captured, checked, Some(released.lease)).Send?
          <==> checked - lease.renewTime.value >= 16 * SECOND)
  {
    ExpiryNeedsSixteenSeconds(lease, checked);
    ExpiryNeedsSixteenSeconds(lease.(holder := None), checked);
  }
}
