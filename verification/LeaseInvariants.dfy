/** What every step of the election protocol keeps, whatever the timing. */
module LeaseInvariants {
  import opened Prelude
  import opened Lease
  import opened LeaseProtocol

  /** Each write is what its author's decision produced from the version it read. */
  predicate Justified(w: Write, seen: Option<LeaseSpec>) {
    match w.kind
    case Renew => RenewDecision(w.author, w.captured, seen) == Send(Renew, w.lease)
    case Release => ReleaseDecision(w.author, seen) == Send(Release, w.lease)
    case _ => AcquireDecision(w.author, w.captured, w.checked, seen) == Send(w.kind, w.lease)
  }

  predicate SentWell(s: State, w: Write) {
    && w.author in s.replicas
    && w.base <= w.sentAt <= |s.log|
    && w.captured <= w.checked <= s.now
    && Justified(w, s.At(w.base))
    && (!w.Acquires() ==> |s.log| > 0)
    && (w.kind.Renew? && w.base > 0 ==> RenewedAt(s, w.base - 1) <= w.captured)
  }

  /** The renewal time the write at position `k` left in the Lease. */
  function RenewedAt(s: State, k: nat): Time
    requires k < |s.log|
  {
    s.log[k].write.lease.renewTime.GetOr(0)
  }

  ghost predicate GoodNet(s: State) {
    forall w <- s.net :: SentWell(s, w)
  }

  /** A write that landed was sent at the version it replaced: stale reads never win. */
  predicate LandedWell(s: State, k: nat)
    requires k < |s.log|
  {
    var w := s.log[k].write;
    && w in s.net
    && w.base == k == w.sentAt
    && w.checked <= s.log[k].at <= s.now
    && w.lease.durationSecs == Some(LEASE_DURATION_SECS)
    && w.lease.renewTime.Some? && w.lease.renewTime.value <= s.now
    && (!w.kind.Release? ==> w.lease.renewTime.value == w.captured)
  }

  ghost predicate GoodLog(s: State) {
    && (|s.log| > 0 ==> s.log[0].write.Acquires())
    && (forall k: nat | k < |s.log| :: LandedWell(s, k))
  }

  ghost predicate GoodMain(s: State, i: Identity)
    requires i in s.replicas
  {
    var r := s.replicas[i];
    match r.main
    case Standby(_) => r.renew.Idle?
    case AcquireGet(captured) => r.renew.Idle? && captured <= s.now
    case AcquireWrite(w, since) =>
      && r.renew.Idle?
      && w in s.net && w.author == i && w.Acquires()
      && w.checked == since
      && (s.Landed(w) ==> NoneLater(s, i, w.base))
    case Running(start) => GoodStart(s, i, start)
    case ReleaseGet(start, _) => GoodStart(s, i, start)
    case ReleaseWrite(start, w, _) => GoodStart(s, i, start) && w in s.net && w.author == i && w.kind.Release?
    case Exited => r.renew.Stopped?
  }

  /** None of the replica's acquisition writes, however delayed, can land after
      position `k`. */
  ghost predicate NoneLater(s: State, i: Identity, k: nat) {
    forall w <- s.net :: w.author == i && w.Acquires() ==> w.base <= k
  }

  ghost predicate GoodStart(s: State, i: Identity, start: nat) {
    && start < |s.log| && s.log[start].write.author == i && s.log[start].write.Acquires()
    && NoneLater(s, i, start)
  }

  ghost predicate GoodRenew(s: State, i: Identity)
    requires i in s.replicas
  {
    var r := s.replicas[i];
    match r.renew
    case Idle => true
    case Sleeping(_, c) => GoodConfirmed(s, i, c)
    case RenewGet(_, c) => GoodConfirmed(s, i, c)
    case RenewWrite(w, since, c) =>
      && GoodConfirmed(s, i, c)
      && w in s.net && w.author == i && w.kind.Renew? && w.captured == since && c < w.sentAt
    case Stopped => true
  }

  ghost predicate GoodConfirmed(s: State, i: Identity, c: nat)
    requires i in s.replicas
  {
    && s.replicas[i].Tenured()
    && s.replicas[i].main.start <= c < |s.log|
    && s.log[c].write.author == i && !s.log[c].write.kind.Release?
  }

  /** The probes tell the truth about the tasks. */
  predicate GoodFlags(r: Replica) {
    && r.flags.leader == (r.main.Running? && r.Leading())
    && r.flags.ready == (r.main.Standby? || r.main.AcquireGet? || r.main.AcquireWrite? || r.main.Running?)
  }

  ghost predicate Inv(s: State) {
    && GoodNet(s)
    && GoodLog(s)
    && (forall i <- s.replicas :: GoodMain(s, i) && GoodRenew(s, i) && GoodFlags(s.replicas[i]))
  }

  lemma InitialInv(s: State)
    requires Initial(s)
    ensures Inv(s)
  {
  }

  lemma LogStaysGood(s: State, t: State)
    requires GoodLog(s)
    requires t.log == s.log && s.net <= t.net && s.now <= t.now
    ensures GoodLog(t)
  {
    forall k: nat | k < |t.log|
      ensures LandedWell(t, k)
    {
      assert LandedWell(s, k);
    }
  }

  lemma LandKeepsLog(s: State, w: Write)
    requires GoodNet(s) && GoodLog(s) && Enabled(s, Land(w))
    ensures w.base == |s.log| == w.sentAt
    ensures GoodLog(Apply(s, Land(w)))
    ensures GoodNet(Apply(s, Land(w)))
  {
    var t := Apply(s, Land(w));
    assert SentWell(s, w);
    if |s.log| > 0 {
      assert LandedWell(s, |s.log| - 1);
    }
    forall k: nat | k < |t.log|
      ensures LandedWell(t, k)
    {
      if k < |s.log| {
        assert LandedWell(s, k);
      }
    }
    forall x <- t.net
      ensures SentWell(t, x)
    {
      assert SentWell(s, x);
      assert t.At(x.base) == s.At(x.base);
    }
  }

  lemma LandKeepsInv(s: State, w: Write)
    requires Inv(s) && Enabled(s, Land(w))
    ensures w.base == |s.log| == w.sentAt
    ensures Inv(Apply(s, Land(w)))
  {
    var t := Apply(s, Land(w));
    LandKeepsLog(s, w);
    forall i <- t.replicas
      ensures GoodMain(t, i) && GoodRenew(t, i) && GoodFlags(t.replicas[i])
    {
      assert GoodMain(s, i) && GoodRenew(s, i) && GoodFlags(s.replicas[i]);
      assert NoneLater(t, i, |s.log|) by {
        forall x <- t.net
          ensures x.base <= |s.log|
        {
          assert SentWell(s, x);
        }
      }
    }
  }

  /** A step of replica `i` that sends at most `sent` leaves everything the
      invariant says about the others in place. */
  lemma OthersKeepInv(s: State, t: State, i: Identity, sent: set<Write>)
    requires Inv(s) && i in s.replicas
    requires t.now == s.now && t.initial == s.initial && t.log == s.log
    requires t.net == s.net + sent
    requires t.replicas.Keys == s.replicas.Keys
    requires forall j <- s.replicas | j != i :: t.replicas[j] == s.replicas[j]
    requires forall w <- sent ::
      && w.author == i && w.base <= w.sentAt == |s.log| && w.captured <= w.checked == s.now
      && Justified(w, s.At(w.base)) && (!w.Acquires() ==> |s.log| > 0)
      && (w.kind.Renew? && w.base > 0 ==> RenewedAt(s, w.base - 1) <= w.captured)
    requires GoodMain(t, i) && GoodRenew(t, i) && GoodFlags(t.replicas[i])
    ensures Inv(t)
  {
    LogStaysGood(s, t);
    assert forall v | 0 <= v <= |s.log| :: t.At(v) == s.At(v);
    forall j <- t.replicas
      ensures GoodMain(t, j) && GoodRenew(t, j) && GoodFlags(t.replicas[j])
    {
      assert GoodMain(s, j) && GoodRenew(s, j);
    }
  }

  lemma AttemptReadKeepsInv(s: State, i: Identity, v: nat)
    requires Inv(s) && Enabled(s, AttemptRead(i, v))
    ensures Inv(Apply(s, AttemptRead(i, v)))
  {
    var t := Apply(s, AttemptRead(i, v));
    assert GoodMain(s, i) && GoodRenew(s, i);
    if t.replicas[i].main.AcquireWrite? {
      var w := t.replicas[i].main.write;
      assert w.base < |s.log| ==> LandedWell(s, w.base);
    }
    OthersKeepInv(s, t, i, if t.net == s.net then {} else {t.replicas[i].main.write});
  }

  /** What a task of a running replica relies on survives any write that is not
      an acquisition of its own. */
  lemma TenureKeeps(s: State, t: State, i: Identity, c: nat)
    requires i in s.replicas && i in t.replicas
    requires t.log == s.log
    requires forall w <- t.net :: w.author == i && w.Acquires() ==> w in s.net
    requires s.replicas[i].Tenured() && t.replicas[i].Tenured()
    requires t.replicas[i].main.start == s.replicas[i].main.start
    ensures GoodStart(s, i, s.replicas[i].main.start) ==> GoodStart(t, i, t.replicas[i].main.start)
    ensures GoodConfirmed(s, i, c) ==> GoodConfirmed(t, i, c)
  {
  }

  lemma RenewReadOwn(s: State, i: Identity, v: nat)
    requires Enabled(s, RenewRead(i, v)) && GoodLog(s)
    requires GoodMain(s, i) && GoodRenew(s, i) && GoodFlags(s.replicas[i])
    ensures
      var t := Apply(s, RenewRead(i, v));
      GoodMain(t, i) && GoodRenew(t, i) && GoodFlags(t.replicas[i])
  {
    var t := Apply(s, RenewRead(i, v));
    TenureKeeps(s, t, i, s.replicas[i].renew.confirmed);
  }

  lemma RenewReadKeepsInv(s: State, i: Identity, v: nat)
    requires Inv(s) && Enabled(s, RenewRead(i, v))
    ensures Inv(Apply(s, RenewRead(i, v)))
  {
    var t := Apply(s, RenewRead(i, v));
    assert GoodMain(s, i) && GoodRenew(s, i) && GoodFlags(s.replicas[i]);
    RenewReadOwn(s, i, v);
    if RenewDecision(i, s.now, s.At(v)).Send? {
      RenewSendsWell(s, i, v);
      OthersKeepInv(s, t, i, {t.replicas[i].renew.write});
    } else {
      OthersKeepInv(s, t, i, {});
    }
  }

  lemma RenewSendsWell(s: State, i: Identity, v: nat)
    requires GoodLog(s) && Enabled(s, RenewRead(i, v)) && GoodRenew(s, i)
    requires RenewDecision(i, s.now, s.At(v)).Send?
    ensures
      var t := Apply(s, RenewRead(i, v));
      && t.replicas[i].renew.RenewWrite?
      && var w := t.replicas[i].renew.write;
         && t.net == s.net + {w} && t.replicas.Keys == s.replicas.Keys
         && w.author == i && w.kind.Renew? && w.base == v && w.sentAt == |s.log| && w.captured == w.checked == s.now
         && Justified(w, s.At(v))
         && |s.log| > 0 && (v > 0 ==> RenewedAt(s, v - 1) <= s.now)
  {
    assert v > 0 ==> LandedWell(s, v - 1);
  }

  lemma ReleaseReadKeepsInv(s: State, i: Identity, v: nat)
    requires Inv(s) && Enabled(s, ReleaseRead(i, v))
    ensures Inv(Apply(s, ReleaseRead(i, v)))
  {
    var t := Apply(s, ReleaseRead(i, v));
    assert GoodMain(s, i) && GoodRenew(s, i);
    var d := ReleaseDecision(i, s.At(v));
    if d.Send? {
      var w := t.replicas[i].main.write;
      TenureKeeps(s, t, i, if s.replicas[i].Leading() then s.replicas[i].renew.confirmed else 0);
      assert GoodMain(t, i);
      assert GoodRenew(t, i);
      OthersKeepInv(s, t, i, {w});
    } else {
      OthersKeepInv(s, t, i, {});
    }
  }

  predicate Sends(e: Event) {
    e.AttemptRead? || e.RenewRead? || e.ReleaseRead?
  }

  predicate Renews(e: Event) {
    e.Wake? || e.RenewOk? || e.RenewConflict? || e.RenewError?
  }

  /** The steps that move the main task and send nothing keep what is said of the replica
      they move. */
  lemma MainTaskStepOwn(s: State, e: Event)
    requires Inv(s) && Enabled(s, e) && !e.Tick? && !e.Land? && !Sends(e) && !Renews(e)
    ensures GoodMain(Apply(s, e), e.i) && GoodRenew(Apply(s, e), e.i) && GoodFlags(Apply(s, e).replicas[e.i])
  {
    var t := Apply(s, e);
    assert GoodMain(s, e.i) && GoodRenew(s, e.i) && GoodFlags(s.replicas[e.i]);
    if e.Shutdown? {
      TenureKeeps(s, t, e.i, if s.replicas[e.i].Leading() then s.replicas[e.i].renew.confirmed else 0);
    } else if e.MainOk? && s.replicas[e.i].main.AcquireWrite? {
      assert NoneLater(t, e.i, t.replicas[e.i].main.start);
      assert GoodStart(t, e.i, t.replicas[e.i].main.start);
    }
  }

  lemma MainTaskStepKeepsInv(s: State, e: Event)
    requires Inv(s) && Enabled(s, e) && !e.Tick? && !e.Land? && !Sends(e) && !Renews(e)
    ensures Inv(Apply(s, e))
  {
    MainTaskStepOwn(s, e);
    OthersKeepInv(s, Apply(s, e), e.i, {});
  }

  lemma RenewTaskStepKeepsInv(s: State, e: Event)
    requires Inv(s) && Enabled(s, e) && Renews(e)
    ensures Inv(Apply(s, e))
  {
    var t := Apply(s, e);
    assert GoodMain(s, e.i) && GoodRenew(s, e.i);
    var c := if e.RenewOk? then t.replicas[e.i].renew.confirmed else s.replicas[e.i].renew.confirmed;
    if e.RenewOk? {
      assert LandedWell(s, c);
      assert s.log[c].write == s.replicas[e.i].renew.write;
      assert GoodConfirmed(s, e.i, c);
    }
    TenureKeeps(s, t, e.i, c);
    assert GoodMain(t, e.i);
    assert GoodRenew(t, e.i);
    OthersKeepInv(s, t, e.i, {});
  }

  lemma TickKeepsInv(s: State, d: nat)
    requires Inv(s)
    ensures Inv(Apply(s, Tick(d)))
  {
    var t := Apply(s, Tick(d));
    LogStaysGood(s, t);
    assert forall v | 0 <= v <= |s.log| :: t.At(v) == s.At(v);
    forall j <- t.replicas
      ensures GoodMain(t, j) && GoodRenew(t, j) && GoodFlags(t.replicas[j])
    {
      assert GoodMain(s, j) && GoodRenew(s, j);
    }
  }

  lemma StepKeepsInv(s: State, e: Event)
    requires Inv(s) && Enabled(s, e)
    ensures Inv(Apply(s, e))
  {
    match e
    case Tick(d) => TickKeepsInv(s, d);
    case Land(w) => LandKeepsInv(s, w);
    case AttemptRead(i, v) => AttemptReadKeepsInv(s, i, v);
    case RenewRead(i, v) => RenewReadKeepsInv(s, i, v);
    case ReleaseRead(i, v) => ReleaseReadKeepsInv(s, i, v);
    case _ => if Renews(e) { RenewTaskStepKeepsInv(s, e); } else { MainTaskStepKeepsInv(s, e); }
  }

  lemma {:induction false} RunKeepsInv(bound: Option<Time>, s: State, events: seq<Event>, t: State)
    requires Inv(s) && Run(bound, s, events, t)
    ensures Inv(t)
    decreases |events|
  {
    if events != [] {
      StepKeepsInv(s, events[0]);
      RunKeepsInv(bound, Apply(s, events[0]), events[1..], t);
    }
  }

  lemma ReachableInv(bound: Option<Time>, t: State)
    requires Reachable(bound, t)
    ensures Inv(t)
  {
    var s, events :| Initial(s) && Run(bound, s, events, t);
    InitialInv(s);
    RunKeepsInv(bound, s, events, t);
  }
}
