/** At most one leader, when calls are bounded, and the exact bound. */
module LeaseExclusion {
  import opened Prelude
  import opened Lease
  import opened LeaseProtocol
  import opened LeaseInvariants
  import opened LeaseTenure

  /** The replica's lease on leadership starts counting when its acquisition
      lands, before it has heard of it. */
  predicate Anchored(s: State, i: Identity)
    requires i in s.replicas
  {
    s.replicas[i].Leading() || (s.replicas[i].main.AcquireWrite? && s.Landed(s.replicas[i].main.write))
  }

  function Anchor(s: State, i: Identity): nat
    requires i in s.replicas && Anchored(s, i)
  {
    if s.replicas[i].Leading() then s.replicas[i].renew.confirmed else s.replicas[i].main.write.base
  }

  /** Since position `c` nobody else has written, and the renewal times written
      never went back. */
  ghost predicate Exclusive(s: State, i: Identity, c: nat) {
    && c < |s.log| && s.log[c].write.author == i
    && (forall m | c < m < |s.log| :: s.log[m].write.author == i)
    && (forall m: nat, n: nat | c <= m <= n < |s.log| :: RenewedAt(s, m) <= RenewedAt(s, n))
  }

  /** How late each pending activity can be, counted from the time the replica
      last wrote into the Lease. */
  ghost predicate Punctual(bound: Time, s: State, i: Identity)
    requires i in s.replicas
  {
    var r := s.replicas[i];
    && (match r.main
        case AcquireGet(captured) => s.now <= captured + bound
        case AcquireWrite(w, since) => since <= w.captured + bound && s.now <= since + bound
        case _ => true)
    && (match r.renew
        case Sleeping(since, c) =>
          c < |s.log| && since <= RenewedAt(s, c) + 2 * bound && s.now <= since + RENEW_INTERVAL
        case RenewGet(since, c) =>
          c < |s.log| && since <= RenewedAt(s, c) + 2 * bound + RENEW_INTERVAL && s.now <= since + bound
        case RenewWrite(w, since, c) =>
          c < |s.log| && since <= RenewedAt(s, c) + 3 * bound + RENEW_INTERVAL && s.now <= since + bound
        case _ => true)
  }

  ghost predicate TimedWell(bound: Time, s: State, i: Identity)
    requires i in s.replicas
  {
    Punctual(bound, s, i) && (Anchored(s, i) ==> Exclusive(s, i, Anchor(s, i)))
  }

  ghost predicate TimedInv(bound: Time, s: State) {
    forall i <- s.replicas :: TimedWell(bound, s, i)
  }

  /** Ten seconds of sleep and four calls end before a lease can expire. */
  predicate SafeBound(bound: Time) {
    0 <= bound && 10 * SECOND + 4 * bound < 16 * SECOND
  }

  lemma AnchorIsFresh(bound: Time, s: State, i: Identity)
    requires SafeBound(bound) && Inv(s) && TimedInv(bound, s)
    requires i in s.replicas && Anchored(s, i)
    ensures Anchor(s, i) < |s.log| && s.now < RenewedAt(s, Anchor(s, i)) + 16 * SECOND
  {
    assert GoodMain(s, i) && GoodRenew(s, i) && TimedWell(bound, s, i);
    if !s.replicas[i].Leading() {
      assert LandedWell(s, Anchor(s, i));
    }
  }

  /** While a replica is anchored, the Lease is too fresh to be taken over. */
  lemma NoTakeoverLands(bound: Time, s: State, w: Write, i: Identity)
    requires SafeBound(bound) && Inv(s) && TimedInv(bound, s) && Enabled(s, Land(w))
    requires i in s.replicas && Anchored(s, i)
    ensures !w.kind.Takeover?
  {
    var c, n := Anchor(s, i), |s.log|;
    AnchorIsFresh(bound, s, i);
    assert TimedWell(bound, s, i);
    LandKeepsLog(s, w);
    assert SentWell(s, w);
    assert LandedWell(s, n - 1);
    assert RenewedAt(s, c) <= RenewedAt(s, n - 1);
    ExpiryNeedsSixteenSeconds(s.At(n).value, w.checked);
  }

  /** Short of a takeover, only the author of the last write can write again. */
  lemma OnlyTheHolderLands(s: State, w: Write, i: Identity)
    requires GoodNet(s) && GoodLog(s) && Enabled(s, Land(w)) && !w.kind.Takeover?
    requires |s.log| > 0 && s.log[|s.log| - 1].write.author == i
    ensures w.author == i && HeldBy(s.At(|s.log|), i)
  {
    LandKeepsLog(s, w);
    assert SentWell(s, w);
    InvJustifiesLog(s);
    HolderWroteLast(s, |s.log|, w.author);
  }

  lemma NoOwnAcquisitionLands(s: State, w: Write, i: Identity)
    requires Inv(s) && Enabled(s, Land(w)) && w.author == i
    requires i in s.replicas && Anchored(s, i)
    ensures !w.Acquires()
  {
    LandKeepsLog(s, w);
    assert GoodMain(s, i) && GoodRenew(s, i);
  }

  /** A write that acquires nothing never turns the renewal time back. */
  lemma RenewalTimeGrows(s: State, w: Write)
    requires GoodNet(s) && GoodLog(s) && Enabled(s, Land(w)) && !w.Acquires() && |s.log| > 0
    ensures w.lease.renewTime.Some? && RenewedAt(s, |s.log| - 1) <= w.lease.renewTime.value
  {
    LandKeepsLog(s, w);
    assert SentWell(s, w);
    assert LandedWell(s, |s.log| - 1);
  }

  /** The heart of the matter: while a replica is anchored, only its own writes
      are accepted. */
  lemma NobodyElseLands(bound: Time, s: State, w: Write, i: Identity)
    requires SafeBound(bound) && Inv(s) && TimedInv(bound, s) && Enabled(s, Land(w))
    requires i in s.replicas && Anchored(s, i)
    ensures w.author == i && !w.Acquires()
    ensures w.lease.renewTime.Some? && RenewedAt(s, |s.log| - 1) <= w.lease.renewTime.value
  {
    NoTakeoverLands(bound, s, w, i);
    AnchorIsFresh(bound, s, i);
    assert TimedWell(bound, s, i);
    OnlyTheHolderLands(s, w, i);
    NoOwnAcquisitionLands(s, w, i);
    RenewalTimeGrows(s, w);
  }

  lemma LandKeepsTimedInv(bound: Time, s: State, w: Write)
    requires SafeBound(bound) && Inv(s) && TimedInv(bound, s) && Enabled(s, Land(w))
    ensures TimedInv(bound, Apply(s, Land(w)))
  {
    var t := Apply(s, Land(w));
    LandKeepsInv(s, w);
    forall i <- t.replicas
      ensures TimedWell(bound, t, i)
    {
      assert TimedWell(bound, s, i);
      if Anchored(s, i) {
        NobodyElseLands(bound, s, w, i);
        AnchorIsFresh(bound, s, i);
        ExclusiveGrows(s, w, i, Anchor(s, i));
      }
    }
  }

  lemma ExclusiveGrows(s: State, w: Write, i: Identity, c: nat)
    requires Enabled(s, Land(w)) && Exclusive(s, i, c) && w.author == i
    requires w.lease.renewTime.Some? && RenewedAt(s, |s.log| - 1) <= w.lease.renewTime.value
    ensures Exclusive(Apply(s, Land(w)), i, c)
  {
    var t := Apply(s, Land(w));
    forall m: nat, n: nat | c <= m <= n < |t.log|
      ensures RenewedAt(t, m) <= RenewedAt(t, n)
    {
      if m < |s.log| {
        assert RenewedAt(s, m) <= RenewedAt(s, if n < |s.log| then n else |s.log| - 1);
      }
    }
  }

  /** Every other step leaves the history alone. */
  lemma QuietStepKeepsTimedInv(bound: Time, s: State, e: Event)
    requires SafeBound(bound) && Inv(s) && TimedInv(bound, s)
    requires EnabledUnder(Some(bound), s, e) && !e.Land?
    ensures TimedInv(bound, Apply(s, e))
  {
    var t := Apply(s, e);
    forall i <- t.replicas
      ensures TimedWell(bound, t, i)
    {
      assert GoodMain(s, i) && GoodRenew(s, i) && TimedWell(bound, s, i);
      if e.Tick? {
        TickOfOne(bound, s, e.d, i);
      } else if e.i != i {
        StillTimed(bound, s, t, i);
      } else if Renews(e) || e.RenewRead? {
        OwnRenewStep(bound, s, e);
      } else {
        OwnMainStep(bound, s, e);
      }
    }
  }

  lemma TickOfOne(bound: Time, s: State, d: nat, i: Identity)
    requires i in s.replicas && TimedWell(bound, s, i)
    requires EnabledUnder(Some(bound), s, Tick(d))
    ensures TimedWell(bound, Apply(s, Tick(d)), i)
  {
    var t := Apply(s, Tick(d));
    assert TasksWithin(bound, s.replicas[i], t.now);
    if Anchored(s, i) {
      ExclusiveMovesOn(s, t, i, Anchor(s, i), Anchor(s, i));
    }
  }

  lemma StillTimed(bound: Time, s: State, t: State, i: Identity)
    requires i in s.replicas && i in t.replicas && t.log == s.log && t.now == s.now
    requires s.replicas[i] == t.replicas[i] && TimedWell(bound, s, i)
    ensures TimedWell(bound, t, i)
  {
    if Anchored(s, i) {
      ExclusiveMovesOn(s, t, i, Anchor(s, i), Anchor(s, i));
    }
  }

  lemma ExclusiveMovesOn(s: State, t: State, i: Identity, c: nat, d: nat)
    requires t.log == s.log && Exclusive(s, i, c) && c <= d < |s.log|
    ensures Exclusive(t, i, d)
  {
    forall m: nat, n: nat | d <= m <= n < |t.log|
      ensures RenewedAt(t, m) <= RenewedAt(t, n)
    {
      assert RenewedAt(s, m) <= RenewedAt(s, n);
    }
  }

  lemma OwnRenewStep(bound: Time, s: State, e: Event)
    requires SafeBound(bound) && GoodLog(s) && Enabled(s, e) && (Renews(e) || e.RenewRead?)
    requires GoodMain(s, e.i) && GoodRenew(s, e.i) && TimedWell(bound, s, e.i)
    ensures TimedWell(bound, Apply(s, e), e.i)
  {
    var t, i := Apply(s, e), e.i;
    if e.RenewOk? {
      var w := s.replicas[i].renew.write;
      assert LandedWell(s, w.base);
      ExclusiveMovesOn(s, t, i, Anchor(s, i), w.base);
    } else if Anchored(t, i) {
      ExclusiveMovesOn(s, t, i, Anchor(s, i), Anchor(s, i));
    }
  }

  lemma OwnMainStep(bound: Time, s: State, e: Event)
    requires SafeBound(bound) && GoodLog(s) && Enabled(s, e)
    requires !e.Tick? && !e.Land? && !Renews(e) && !e.RenewRead?
    requires GoodMain(s, e.i) && GoodRenew(s, e.i) && TimedWell(bound, s, e.i)
    ensures TimedWell(bound, Apply(s, e), e.i)
  {
    var t, i := Apply(s, e), e.i;
    if t.replicas[i].main.AcquireWrite? {
      var w := t.replicas[i].main.write;
      assert w.base < |s.log| ==> LandedWell(s, w.base);
    }
    if e.MainOk? && s.replicas[i].main.AcquireWrite? {
      assert LandedWell(s, s.replicas[i].main.write.base);
      ExclusiveMovesOn(s, t, i, Anchor(s, i), Anchor(s, i));
    } else if Anchored(t, i) {
      ExclusiveMovesOn(s, t, i, Anchor(s, i), Anchor(s, i));
    }
  }

  lemma {:induction false} TimedRunKeepsInv(bound: Time, s: State, events: seq<Event>, t: State)
    requires SafeBound(bound) && Inv(s) && TimedInv(bound, s) && Run(Some(bound), s, events, t)
    ensures Inv(t) && TimedInv(bound, t)
    decreases |events|
  {
    if events != [] {
      var e := events[0];
      StepKeepsInv(s, e);
      if e.Land? {
        LandKeepsTimedInv(bound, s, e.write);
      } else {
        QuietStepKeepsTimedInv(bound, s, e);
      }
      TimedRunKeepsInv(bound, Apply(s, e), events[1..], t);
    }
  }

  lemma TimedReachableInv(bound: Time, s: State)
    requires SafeBound(bound) && Reachable(Some(bound), s)
    ensures Inv(s) && TimedInv(bound, s)
  {
    var s0, events :| Initial(s0) && Run(Some(bound), s0, events, s);
    InitialInv(s0);
    TimedRunKeepsInv(bound, s0, events, s);
  }

  /** While a replica leads, the last write is its own and no standby that reads
      the Lease can find it expired. */
  lemma LeaderIsUncontested(bound: Time, s: State, i: Identity)
    requires SafeBound(bound) && Reachable(Some(bound), s)
    requires i in s.replicas && s.replicas[i].Leading()
    ensures s.Version() > 0 && s.log[|s.log| - 1].write.author == i
    ensures !Expired(s.Current().value, s.now)
  {
    TimedReachableInv(bound, s);
    AnchorIsFresh(bound, s, i);
    assert TimedWell(bound, s, i);
    assert RenewedAt(s, Anchor(s, i)) <= RenewedAt(s, |s.log| - 1);
    assert LandedWell(s, |s.log| - 1);
    ExpiryNeedsSixteenSeconds(s.Current().value, s.now);
  }

  /** At most one leader: with every call bounded so that ten seconds plus four
      calls stay under sixteen seconds, no reachable state has two replicas
      leading. */
  lemma AtMostOneLeader(bound: Time, s: State, i: Identity, j: Identity)
    requires SafeBound(bound) && Reachable(Some(bound), s)
    requires i in s.replicas && s.replicas[i].Leading()
    requires j in s.replicas && s.replicas[j].Leading()
    ensures i == j
  {
    LeaderIsUncontested(bound, s, i);
    LeaderIsUncontested(bound, s, j);
  }

  /** What the probes promise: at most one replica answers 200 on `/leaderz`, it
      is one that leads, and a standby is ready all along. */
  lemma ProbesAgreeWithElection(bound: Time, s: State, i: Identity, j: Identity)
    requires SafeBound(bound) && Reachable(Some(bound), s)
    requires i in s.replicas && j in s.replicas
    ensures s.replicas[i].flags.leader ==> s.replicas[i].Leading() && s.replicas[i].flags.ready
    ensures s.replicas[i].flags.leader && s.replicas[j].flags.leader ==> i == j
    ensures s.replicas[i].main.Standby? || s.replicas[i].main.AcquireGet? || s.replicas[i].main.AcquireWrite?
            ==> s.replicas[i].flags == Flags(true, false)
  {
    ReachableInv(Some(bound), s);
    assert GoodFlags(s.replicas[i]) && GoodFlags(s.replicas[j]) && GoodMain(s, i) && GoodRenew(s, i);
    if s.replicas[i].flags.leader && s.replicas[j].flags.leader {
      AtMostOneLeader(bound, s, i, j);
    }
  }

  // ---------------------------------------------------------------------
  // The bound is exact
  // ---------------------------------------------------------------------

  ghost predicate MutualExclusion(bound: Time) {
    forall s, i, j |
      Reachable(Some(bound), s) && i in s.replicas && j in s.replicas
      && s.replicas[i].Leading() && s.replicas[j].Leading() :: i == j
  }

  lemma {:induction false} RunThen(bound: Option<Time>, s: State, events: seq<Event>, t: State, e: Event)
    requires Run(bound, s, events, t) && EnabledUnder(bound, t, e)
    ensures Run(bound, s, events + [e], Apply(t, e))
    decreases |events|
  {
    if events == [] {
      assert events + [e] == [e];
      assert [e][1..] == [];
    } else {
      RunThen(bound, Apply(s, events[0]), events[1..], t, e);
      assert (events + [e])[1..] == events[1..] + [e];
    }
  }

  lemma ReachThen(bound: Option<Time>, t: State, e: Event, u: State)
    requires Reachable(bound, t) && EnabledUnder(bound, t, e) && Apply(t, e) == u
    ensures Reachable(bound, u)
  {
    var s, events :| Initial(s) && Run(bound, s, events, t);
    RunThen(bound, s, events, t, e);
  }

  const CALL: Time := 1_500_000
  const WAITING := Replica(Standby(0), Idle, Flags(true, false))

  function First(a: Identity): Write {
    Write(a, Create, 0, 0, 0, CALL, CreateLease(a, 0))
  }

  function Renewal(a: Identity): Write {
    var captured := RENEW_INTERVAL + 3 * CALL;
    Write(a, Renew, 1, 1, captured, captured, CreateLease(a, 0).(renewTime := Some(captured)))
  }

  function Rival(a: Identity, b: Identity): Write {
    var captured := RENEW_INTERVAL + 4 * CALL;
    Write(b, Takeover, 1, 1, captured, captured, UpdateLease(b, CreateLease(a, 0), captured, true))
  }

  /** A state of two replicas in which the first one's acquisition has landed or,
      with an empty log, not yet. */
  function Duel(now: Time, a: Identity, b: Identity, log: seq<Entry>, net: set<Write>, ra: Replica, rb: Replica): State
    requires a != b
  {
    State(now, None, log, net, map[a := ra, b := rb])
  }

  lemma FirstAttempt(a: Identity, b: Identity)
    requires a != b
    ensures
      var s := Duel(CALL, a, b, [], {}, WAITING.(main := AcquireGet(0)), WAITING);
      Enabled(s, AttemptRead(a, 0))
      && Apply(s, AttemptRead(a, 0))
         == Duel(CALL, a, b, [], {First(a)}, WAITING.(main := AcquireWrite(First(a), CALL)), WAITING)
  {
    var s := Duel(CALL, a, b, [], {}, WAITING.(main := AcquireGet(0)), WAITING);
    assert {} + {First(a)} == {First(a)};
  }

  lemma FirstSends(bound: Time, a: Identity, b: Identity)
    requires CALL <= bound && a != b
    ensures Reachable(Some(bound),
        Duel(CALL, a, b, [], {First(a)}, WAITING.(main := AcquireWrite(First(a), CALL)), WAITING))
  {
    var s0 := Duel(0, a, b, [], {}, WAITING, WAITING);
    assert Initial(s0) && Run(Some(bound), s0, [], s0);
    var s1 := Duel(0, a, b, [], {}, WAITING.(main := AcquireGet(0)), WAITING);
    ReachThen(Some(bound), s0, BeginAttempt(a), s1);
    var s2 := s1.(now := CALL);
    ReachThen(Some(bound), s1, Tick(CALL), s2);
    FirstAttempt(a, b);
    var s3 := Duel(CALL, a, b, [], {First(a)}, WAITING.(main := AcquireWrite(First(a), CALL)), WAITING);
    ReachThen(Some(bound), s2, AttemptRead(a, 0), s3);
  }

  /** The first replica's acquisition has landed, its answer is under way. */
  lemma FirstLands(bound: Time, a: Identity, b: Identity)
    requires CALL <= bound && a != b
    ensures Reachable(Some(bound), Duel(2 * CALL, a, b, [Entry(First(a), 2 * CALL)], {First(a)},
                                        WAITING.(main := AcquireWrite(First(a), CALL)), WAITING))
  {
    FirstSends(bound, a, b);
    var s3 := Duel(CALL, a, b, [], {First(a)}, WAITING.(main := AcquireWrite(First(a), CALL)), WAITING);
    var s4 := s3.(now := 2 * CALL);
    ReachThen(Some(bound), s3, Tick(CALL), s4);
    var s5 := s4.(log := [Entry(First(a), 2 * CALL)]);
    ReachThen(Some(bound), s4, Land(First(a)), s5);
  }

  lemma FirstLeads(bound: Time, a: Identity, b: Identity)
    requires CALL <= bound && a != b
    ensures Reachable(Some(bound), Duel(2 * CALL, a, b, [Entry(First(a), 2 * CALL)], {First(a)},
                                        Replica(Running(0), Sleeping(2 * CALL, 0), Flags(true, true)), WAITING))
  {
    FirstLands(bound, a, b);
    var log := [Entry(First(a), 2 * CALL)];
    var s5 := Duel(2 * CALL, a, b, log, {First(a)}, WAITING.(main := AcquireWrite(First(a), CALL)), WAITING);
    var s6 := Duel(2 * CALL, a, b, log, {First(a)},
                   Replica(Running(0), Sleeping(2 * CALL, 0), Flags(true, true)), WAITING);
    ReachThen(Some(bound), s5, MainOk(a), s6);
  }

  function StillRenewing(a: Identity, b: Identity): State
    requires a != b
  {
    Duel(RENEW_INTERVAL + 4 * CALL, a, b, [Entry(First(a), 2 * CALL)], {First(a), Renewal(a)},
         Replica(Running(0), RenewWrite(Renewal(a), RENEW_INTERVAL + 3 * CALL, 0), Flags(true, true)), WAITING)
  }

  function Reading(now: Time, a: Identity, b: Identity): State
    requires a != b
  {
    Duel(now, a, b, [Entry(First(a), 2 * CALL)], {First(a)},
         Replica(Running(0), RenewGet(2 * CALL + RENEW_INTERVAL, 0), Flags(true, true)), WAITING)
  }

  lemma FirstSleeps(bound: Time, a: Identity, b: Identity)
    requires CALL <= bound && a != b
    ensures Reachable(Some(bound), Reading(2 * CALL + RENEW_INTERVAL, a, b))
  {
    FirstLeads(bound, a, b);
    var ra := Replica(Running(0), Sleeping(2 * CALL, 0), Flags(true, true));
    var s6 := Duel(2 * CALL, a, b, [Entry(First(a), 2 * CALL)], {First(a)}, ra, WAITING);
    var s7 := s6.(now := 2 * CALL + RENEW_INTERVAL);
    ReachThen(Some(bound), s6, Tick(RENEW_INTERVAL), s7);
    ReachThen(Some(bound), s7, Wake(a), Reading(s7.now, a, b));
  }

  lemma FirstWakes(bound: Time, a: Identity, b: Identity)
    requires CALL <= bound && a != b
    ensures Reachable(Some(bound), Reading(3 * CALL + RENEW_INTERVAL, a, b))
  {
    FirstSleeps(bound, a, b);
    ReachThen(Some(bound), Reading(2 * CALL + RENEW_INTERVAL, a, b), Tick(CALL),
        Reading(3 * CALL + RENEW_INTERVAL, a, b));
  }

  lemma FirstIsStillRenewing(bound: Time, a: Identity, b: Identity)
    requires CALL <= bound && a != b
    ensures Reachable(Some(bound), StillRenewing(a, b))
  {
    FirstWakes(bound, a, b);
    var s9 := Reading(3 * CALL + RENEW_INTERVAL, a, b);
    var s10 := StillRenewing(a, b).(now := s9.now);
    assert s9.At(1) == Some(CreateLease(a, 0));
    assert s10.net == s9.net + {Renewal(a)};
    assert Apply(s9, RenewRead(a, 1)) == s10;
    ReachThen(Some(bound), s9, RenewRead(a, 1), s10);
    ReachThen(Some(bound), s10, Tick(CALL), StillRenewing(a, b));
  }

  /** The state in which the rival has read the Lease and sent its takeover. */
  function RivalSends(a: Identity, b: Identity): State
    requires a != b
  {
    var s := StillRenewing(a, b);
    Duel(s.now, a, b, s.log, s.net + {Rival(a, b)}, s.replicas[a], WAITING.(main := AcquireWrite(Rival(a, b), s.now)))
  }

  lemma RivalCompetes(bound: Time, a: Identity, b: Identity)
    requires CALL <= bound && a != b
    ensures Reachable(Some(bound), RivalSends(a, b))
  {
    FirstIsStillRenewing(bound, a, b);
    var s0 := StillRenewing(a, b);
    var s1 := Duel(s0.now, a, b, s0.log, s0.net, s0.replicas[a], WAITING.(main := AcquireGet(s0.now)));
    ReachThen(Some(bound), s0, BeginAttempt(b), s1);
    ReachThen(Some(bound), s1, AttemptRead(b, 1), RivalSends(a, b));
  }

  /** Calls of a second and a half are enough: the leader's first renewal is still
      unanswered sixteen seconds after the time its acquisition recorded, and a
      standby that looks at that moment takes over. */
  lemma TwoLeaders(bound: Time, a: Identity, b: Identity) returns (s: State)
    requires 10 * SECOND + 4 * bound >= 16 * SECOND && a != b
    ensures Reachable(Some(bound), s)
    ensures s.replicas.Keys == {a, b} && s.replicas[a].Leading() && s.replicas[b].Leading()
  {
    RivalCompetes(bound, a, b);
    var s2 := RivalSends(a, b);
    var s3 := s2.(log := s2.log + [Entry(Rival(a, b), s2.now)]);
    ReachThen(Some(bound), s2, Land(Rival(a, b)), s3);
    s := Duel(s3.now, a, b, s3.log, s3.net, s3.replicas[a],
              Replica(Running(1), Sleeping(s3.now, 1), Flags(true, true)));
    ReachThen(Some(bound), s3, MainOk(b), s);
  }

  /** Mutual exclusion holds exactly when ten seconds plus four calls stay under
      sixteen seconds. */
  lemma BoundIsExact(bound: Time)
    requires 0 <= bound
    ensures MutualExclusion(bound) <==> SafeBound(bound)
  {
    if SafeBound(bound) {
      forall s, i, j |
        Reachable(Some(bound), s) && i in s.replicas && j in s.replicas
        && s.replicas[i].Leading() && s.replicas[j].Leading()
        ensures i == j
      {
        AtMostOneLeader(bound, s, i, j);
      }
    } else {
      var s := TwoLeaders(bound, "a", "b");
    }
  }
}
