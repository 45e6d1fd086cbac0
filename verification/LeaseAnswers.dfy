/** What a `renew` that returns true says about the moment it returns: the answer may
    be old, and how old decides whether the tenure is still unbroken. */
module LeaseAnswers {
  import opened Prelude
  import opened Lease
  import opened LeaseProtocol
  import opened LeaseInvariants
  import opened LeaseTenure
  import opened LeaseExclusion

  /** No pending call is older than the bound. */
  predicate Prompt(bound: Time, s: State) {
    WithinBound(bound, s, s.now)
  }

  lemma StepKeepsPrompt(bound: Time, s: State, e: Event)
    requires 0 <= bound && Prompt(bound, s) && EnabledUnder(Some(bound), s, e)
    ensures Prompt(bound, Apply(s, e))
  {
    var t := Apply(s, e);
    forall i <- t.replicas
      ensures TasksWithin(bound, t.replicas[i], t.now)
    {
      assert TasksWithin(bound, s.replicas[i], s.now);
      if e.Tick? {
        assert TasksWithin(bound, s.replicas[i], s.now + e.d);
      }
    }
  }

  lemma {:induction false} RunKeepsPrompt(bound: Time, s: State, events: seq<Event>, t: State)
    requires 0 <= bound && Prompt(bound, s) && Run(Some(bound), s, events, t)
    ensures Prompt(bound, t)
    decreases |events|
  {
    if events != [] {
      StepKeepsPrompt(bound, s, events[0]);
      RunKeepsPrompt(bound, Apply(s, events[0]), events[1..], t);
    }
  }

  lemma ReachablePrompt(bound: Time, s: State)
    requires 0 <= bound && Reachable(Some(bound), s)
    ensures Prompt(bound, s)
  {
    var s0, events :| Initial(s0) && Run(Some(bound), s0, events, s);
    RunKeepsPrompt(bound, s0, events, s);
  }

  /** Less than sixteen seconds after a replica's renewal landed, whatever landed on
      top of it is the replica's own, and never turned the renewal time back. */
  lemma {:induction false} OnlyOwnAfter(s: State, i: Identity, start: nat, n: nat, m: nat)
    requires GoodNet(s) && GoodLog(s) && NoneLater(s, i, start)
    requires start < n <= m < |s.log|
    requires s.log[n].write.author == i && s.now < RenewedAt(s, n) + 16 * SECOND
    ensures s.log[m].write.author == i && RenewedAt(s, n) <= RenewedAt(s, m)
  {
    if m > n {
      OnlyOwnAfter(s, i, start, n, m - 1);
      InvJustifiesLog(s);
      assert JustifiedAt(s, m) && JustifiedAt(s, m - 1) && LandedWell(s, m) && LandedWell(s, m - 1);
      var w := s.log[m].write;
      assert SentWell(s, w);
      if w.kind.Takeover? {
        ExpiryNeedsSixteenSeconds(s.At(m).value, w.checked);
      } else {
        HolderWroteLast(s, m, w.author);
      }
    }
  }

  /** With calls shorter than sixteen seconds, whenever `renew` returns true no other
      identity has written the Lease since the replica's acquisition, up to the very
      moment of the answer. */
  lemma AnswerIsCurrent(bound: Time, s: State, i: Identity)
    requires 0 <= bound < 16 * SECOND && Reachable(Some(bound), s) && Enabled(s, RenewOk(i))
    ensures s.replicas[i].Tenured()
    ensures forall m | s.replicas[i].main.start <= m < |s.log| :: s.log[m].write.author == i
  {
    ReachableInv(Some(bound), s);
    ReachablePrompt(bound, s);
    assert GoodRenew(s, i) && GoodMain(s, i) && TasksWithin(bound, s.replicas[i], s.now);
    var start, n := s.replicas[i].main.start, s.replicas[i].renew.write.base;
    assert LandedWell(s, n);
    UpToTheAnswer(s, i);
    forall m: nat | start <= m < |s.log|
      ensures s.log[m].write.author == i
    {
      if m > n {
        OnlyOwnAfter(s, i, start, n, m);
      }
    }
  }

  // ---------------------------------------------------------------------
  // The condition is exact
  // ---------------------------------------------------------------------

  const LATE: Time := RENEW_INTERVAL + 3 * CALL + 16 * SECOND

  function Renewed(a: Identity): LeaseSpec {
    Renewal(a).lease
  }

  function LateRival(a: Identity, b: Identity): Write {
    Write(b, Takeover, 2, 2, LATE, LATE, UpdateLease(b, Renewed(a), LATE, true))
  }

  /** The renewal has landed, its answer is still under way. */
  function Unanswered(now: Time, a: Identity, b: Identity, rb: Replica): State
    requires a != b
  {
    var s := StillRenewing(a, b);
    Duel(now, a, b, s.log + [Entry(Renewal(a), s.now)], s.net, s.replicas[a], rb)
  }

  lemma RenewalWaits(bound: Time, a: Identity, b: Identity)
    requires 16 * SECOND <= bound && a != b
    ensures Reachable(Some(bound), Unanswered(LATE, a, b, WAITING))
  {
    FirstIsStillRenewing(bound, a, b);
    var s0 := StillRenewing(a, b);
    var s1 := Unanswered(s0.now, a, b, WAITING);
    assert s0.replicas == s1.replicas;
    ReachThen(Some(bound), s0, Land(Renewal(a)), s1);
    ReachThen(Some(bound), s1, Tick(LATE - s0.now), Unanswered(LATE, a, b, WAITING));
  }

  lemma RivalReads(a: Identity, b: Identity)
    requires a != b
    ensures
      var s := Unanswered(LATE, a, b, WAITING.(main := AcquireGet(LATE)));
      Enabled(s, AttemptRead(b, 2))
      && Apply(s, AttemptRead(b, 2))
         == Unanswered(LATE, a, b, WAITING.(main := AcquireWrite(LateRival(a, b), LATE))).Sending(LateRival(a, b))
  {
    var s := Unanswered(LATE, a, b, WAITING.(main := AcquireGet(LATE)));
    assert s.At(2) == Some(Renewed(a));
  }

  /** A renewal whose answer takes sixteen seconds: the standby has taken over by the
      time `renew` returns true. */
  lemma LateAnswer(bound: Time, a: Identity, b: Identity) returns (s: State)
    requires 16 * SECOND <= bound && a != b
    ensures Reachable(Some(bound), s) && Enabled(s, RenewOk(a)) && s.replicas[a].Tenured()
    ensures s.replicas[a].main.start < |s.log| - 1 && s.log[|s.log| - 1].write.author == b
  {
    RenewalWaits(bound, a, b);
    var s0 := Unanswered(LATE, a, b, WAITING);
    var s1 := Unanswered(LATE, a, b, WAITING.(main := AcquireGet(LATE)));
    ReachThen(Some(bound), s0, BeginAttempt(b), s1);
    RivalReads(a, b);
    var s2 := Unanswered(LATE, a, b, WAITING.(main := AcquireWrite(LateRival(a, b), LATE))).Sending(LateRival(a, b));
    ReachThen(Some(bound), s1, AttemptRead(b, 2), s2);
    s := s2.(log := s2.log + [Entry(LateRival(a, b), LATE)]);
    ReachThen(Some(bound), s2, Land(LateRival(a, b)), s);
  }

  /** Whenever `renew` returns true, everything written since the acquisition is the
      replica's own. */
  ghost predicate AnswersAreCurrent(bound: Time) {
    forall s, i, m: nat |
      Reachable(Some(bound), s) && Enabled(s, RenewOk(i)) && s.replicas[i].Tenured()
      && s.replicas[i].main.start <= m < |s.log| :: s.log[m].write.author == i
  }

  /** That holds exactly when calls take less than sixteen seconds; up to the write
      that was acknowledged it holds whatever the timing. */
  lemma AnswersAreCurrentExactly(bound: Time)
    requires 0 <= bound
    ensures AnswersAreCurrent(bound) <==> bound < 16 * SECOND
  {
    if bound < 16 * SECOND {
      forall s, i, m: nat |
        Reachable(Some(bound), s) && Enabled(s, RenewOk(i)) && s.replicas[i].Tenured()
        && s.replicas[i].main.start <= m < |s.log|
        ensures s.log[m].write.author == i
      {
        AnswerIsCurrent(bound, s, i);
      }
    } else {
      var s := LateAnswer(bound, "a", "b");
      assert s.log[|s.log| - 1].write.author != "a";
    }
  }

  // ---------------------------------------------------------------------
  // What a conflict says
  // ---------------------------------------------------------------------

  lemma {:induction false} BeatenForGood(bound: Option<Time>, s: State, events: seq<Event>, t: State, w: Write)
    requires s.Rejected(w) && Run(bound, s, events, t)
    ensures t.Rejected(w) && !t.Landed(w)
    decreases |events|
  {
    if events != [] {
      BeatenForGood(bound, Apply(s, events[0]), events[1..], t, w);
    }
  }

  /** A conflict is final: whoever is told of one, in an attempt, a renewal or a release, was
      beaten to the version it had read, and its write never takes effect, however long it
      is on its way. */
  lemma ConflictIsFinal(bound: Option<Time>, s: State, e: Event, events: seq<Event>, t: State)
    requires (e.MainConflict? || e.RenewConflict?) && Enabled(s, e) && Run(bound, Apply(s, e), events, t)
    ensures
      var w := if e.MainConflict? then s.replicas[e.i].main.write else s.replicas[e.i].renew.write;
      && w.base < |s.log| && s.log[w.base].write != w
      && !t.Landed(w)
  {
    var w := if e.MainConflict? then s.replicas[e.i].main.write else s.replicas[e.i].renew.write;
    BeatenForGood(bound, Apply(s, e), events, t, w);
  }
}
