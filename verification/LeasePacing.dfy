/** How often a replica turns to the server: what the two intervals mean over a run, whatever
    the other replicas do and however long calls take. */
module LeasePacing {
  import opened Prelude
  import opened Lease
  import opened LeaseProtocol

  /** Since an attempt that began at `t`: still under way, over and waiting out the retry
      interval, or successful for good. */
  predicate AfterAttempt(s: State, i: Identity, t: Time) {
    && i in s.replicas && t <= s.now
    && (s.replicas[i].main.Standby? ==> s.replicas[i].main.notBefore >= t + 5 * SECOND)
  }

  lemma StepKeepsAttempt(s: State, e: Event, i: Identity, t: Time)
    requires AfterAttempt(s, i, t) && Enabled(s, e) && e != Restart(i)
    ensures AfterAttempt(Apply(s, e), i, t)
  {
  }

  lemma {:induction false} RunKeepsAttempt(bound: Option<Time>, s: State, events: seq<Event>, u: State, i: Identity,
      t: Time)
    requires AfterAttempt(s, i, t) && Run(bound, s, events, u) && Restart(i) !in events
    ensures AfterAttempt(u, i, t)
    decreases |events|
  {
    if events != [] {
      assert events[0] in events;
      StepKeepsAttempt(s, events[0], i, t);
      RunKeepsAttempt(bound, Apply(s, events[0]), events[1..], u, i, t);
    }
  }

  /** A replica that has not been restarted begins its attempts at least five seconds
      apart. */
  lemma AttemptsAreSpaced(bound: Option<Time>, s: State, events: seq<Event>, u: State, i: Identity)
    requires Enabled(s, BeginAttempt(i)) && Run(bound, Apply(s, BeginAttempt(i)), events, u) && Restart(i) !in events
    requires Enabled(u, BeginAttempt(i))
    ensures u.now >= s.now + 5 * SECOND
  {
    RunKeepsAttempt(bound, Apply(s, BeginAttempt(i)), events, u, i, s.now);
  }

  /** Since a renewal that began at `t`: whatever sleep there is began no earlier. */
  predicate AfterRenewal(s: State, i: Identity, t: Time) {
    && i in s.replicas && t <= s.now
    && (s.replicas[i].renew.Sleeping? ==> s.replicas[i].renew.since >= t)
  }

  lemma StepKeepsRenewal(s: State, e: Event, i: Identity, t: Time)
    requires AfterRenewal(s, i, t) && Enabled(s, e)
    ensures AfterRenewal(Apply(s, e), i, t)
  {
  }

  lemma {:induction false} RunKeepsRenewal(bound: Option<Time>, s: State, events: seq<Event>, u: State, i: Identity,
      t: Time)
    requires AfterRenewal(s, i, t) && Run(bound, s, events, u)
    ensures AfterRenewal(u, i, t)
    decreases |events|
  {
    if events != [] {
      StepKeepsRenewal(s, events[0], i, t);
      RunKeepsRenewal(bound, Apply(s, events[0]), events[1..], u, i, t);
    }
  }

  /** Renewals of one replica begin at least ten seconds apart, across restarts too. */
  lemma RenewalsAreSpaced(bound: Option<Time>, s: State, events: seq<Event>, u: State, i: Identity)
    requires Enabled(s, Wake(i)) && Run(bound, Apply(s, Wake(i)), events, u) && Enabled(u, Wake(i))
    ensures u.now >= s.now + 10 * SECOND
  {
    RunKeepsRenewal(bound, Apply(s, Wake(i)), events, u, i, s.now);
  }

  /** A failed attempt is tried again five seconds after it failed, no sooner and, once they
      have passed, at any time. */
  lemma RetryExactly(s: State, e: Event, i: Identity, d: nat)
    requires Enabled(s, e) && e in {MainConflict(i), MainError(i)}
    requires s.replicas[i].main.AcquireGet? || s.replicas[i].main.AcquireWrite?
    ensures Enabled(Apply(Apply(s, e), Tick(d)), BeginAttempt(i)) <==> d >= 5 * SECOND
  {
  }

  /** A renewed lease is renewed again ten seconds after the renewal was confirmed. */
  lemma RenewAgainExactly(s: State, i: Identity, d: nat)
    requires Enabled(s, RenewOk(i))
    ensures Enabled(Apply(Apply(s, RenewOk(i)), Tick(d)), Wake(i)) <==> d >= 10 * SECOND
  {
  }
}
