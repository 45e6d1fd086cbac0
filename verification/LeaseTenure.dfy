/** Tenure and takeover accounting, under no timing assumption. */
module LeaseTenure {
  import opened Prelude
  import opened Lease
  import opened LeaseProtocol
  import opened LeaseInvariants

  predicate JustifiedAt(s: State, k: nat)
    requires k < |s.log|
  {
    s.log[k].write.base == k && Justified(s.log[k].write, s.At(k))
  }

  /** What the history alone says: each accepted write is what its author decided
      on reading the version it replaced. */
  ghost predicate JustifiedLog(s: State) {
    && (|s.log| > 0 ==> s.log[0].write.Acquires())
    && (forall k: nat | k < |s.log| :: JustifiedAt(s, k))
  }

  lemma InvJustifiesLog(s: State)
    requires GoodNet(s) && GoodLog(s)
    ensures JustifiedLog(s)
  {
    forall k: nat | k < |s.log|
      ensures JustifiedAt(s, k)
    {
      assert LandedWell(s, k);
      assert SentWell(s, s.log[k].write);
    }
  }

  lemma HolderWroteLast(s: State, v: nat, i: Identity)
    requires JustifiedLog(s) && 0 < v <= |s.log| && HeldBy(s.At(v), i)
    ensures s.log[v - 1].write.author == i && !s.log[v - 1].write.kind.Release?
    ensures !s.log[v - 1].write.Acquires() ==> HeldBy(s.At(v - 1), i) && v > 1
  {
    assert JustifiedAt(s, v - 1);
  }

  /** As long as the Lease names the replica, every write since its acquisition is
      its own. */
  lemma {:induction false} TenureIsUnbroken(s: State, i: Identity, start: nat, v: nat)
    requires JustifiedLog(s)
    requires forall k | start < k < |s.log| && s.log[k].write.author == i :: !s.log[k].write.Acquires()
    requires start < v <= |s.log| && HeldBy(s.At(v), i)
    ensures forall m | start <= m < v :: s.log[m].write.author == i
    decreases v
  {
    HolderWroteLast(s, v, i);
    if v - 1 > start {
      TenureIsUnbroken(s, i, start, v - 1);
    }
  }

  lemma NoSecondAcquisition(s: State, i: Identity, start: nat)
    requires GoodLog(s) && NoneLater(s, i, start)
    ensures forall k | start < k < |s.log| && s.log[k].write.author == i :: !s.log[k].write.Acquires()
  {
    forall k: nat | start < k < |s.log| && s.log[k].write.author == i
      ensures !s.log[k].write.Acquires()
    {
      assert LandedWell(s, k);
    }
  }

  lemma UpToTheAnswer(s: State, i: Identity)
    requires Inv(s) && Enabled(s, RenewOk(i))
    ensures s.replicas[i].Tenured()
    ensures
      var start, n := s.replicas[i].main.start, s.replicas[i].renew.write.base;
      && start < n < |s.log|
      && s.log[n].write == s.replicas[i].renew.write
      && (forall m | start <= m <= n :: s.log[m].write.author == i)
  {
    assert GoodRenew(s, i) && GoodMain(s, i);
    InvJustifiesLog(s);
    var start, n := s.replicas[i].main.start, s.replicas[i].renew.write.base;
    NoSecondAcquisition(s, i, start);
    assert LandedWell(s, n);
    assert JustifiedAt(s, n);
    TenureIsUnbroken(s, i, start, n);
  }

  /** When `renew` returns true, no other identity wrote the Lease between the
      replica's acquisition and the renewal just acknowledged. */
  lemma RenewTrueMeansUnbrokenTenure(s: State, i: Identity)
    requires Reachable(None, s) && Enabled(s, RenewOk(i))
    ensures s.replicas[i].Tenured()
    ensures
      var start, n := s.replicas[i].main.start, s.replicas[i].renew.write.base;
      && start < n < |s.log|
      && s.log[n].write == s.replicas[i].renew.write
      && (forall m | start <= m <= n :: s.log[m].write.author == i)
  {
    ReachableInv(None, s);
    UpToTheAnswer(s, i);
  }

  /** A release that takes effect ends the releaser's own tenure: back to the
      releaser's last acquisition no other identity wrote, and the Lease it leaves
      differs from the one it replaced in the holder alone. */
  lemma ReleaseEndsOwnTenure(s: State, w: Write) returns (a: nat)
    requires Reachable(None, s) && Enabled(s, Land(w)) && w.kind.Release?
    ensures a < |s.log| && s.log[a].write.Acquires()
    ensures forall m | a <= m < |s.log| :: s.log[m].write.author == w.author
    ensures HeldBy(s.Current(), w.author)
    ensures Apply(s, Land(w)).Current() == Some(s.Current().value.(holder := None))
  {
    ReachableInv(None, s);
    LandKeepsInv(s, w);
    assert Justified(w, s.At(w.base));
    InvJustifiesLog(s);
    a := LastAcquisition(s, |s.log|, w.author);
  }

  lemma {:induction false} LastAcquisition(s: State, v: nat, i: Identity) returns (a: nat)
    requires JustifiedLog(s) && 0 < v <= |s.log| && HeldBy(s.At(v), i)
    ensures a < v && s.log[a].write.Acquires()
    ensures forall m | a <= m < v :: s.log[m].write.author == i
    decreases v
  {
    HolderWroteLast(s, v, i);
    if s.log[v - 1].write.Acquires() {
      a := v - 1;
    } else {
      a := LastAcquisition(s, v - 1, i);
    }
  }

  // ---------------------------------------------------------------------
  // Takeover accounting
  // ---------------------------------------------------------------------

  function Takeovers(log: seq<Entry>): nat {
    if log == [] then 0
    else Takeovers(log[..|log| - 1]) + (if log[|log| - 1].write.kind.Takeover? then 1 else 0)
  }

  /** The captured time of the write that began the tenure the log ends in, or the
      time the initial Lease carried. */
  function TenureBegan(initial: Option<LeaseSpec>, log: seq<Entry>): Option<Time> {
    if log == [] then
      if initial.Some? then initial.value.acquireTime else None
    else
      var w := log[|log| - 1].write;
      if w.kind.Create? || w.kind.Takeover? then Some(w.captured)
      else TenureBegan(initial, log[..|log| - 1])
  }

  lemma {:induction false} Accounting(s: State, v: nat)
    requires JustifiedLog(s) && v <= |s.log| && s.At(v).Some?
    ensures s.At(v).value.transitions.GetOr(0)
         == (if s.initial.Some? then s.initial.value.transitions.GetOr(0) else 0) + Takeovers(s.log[..v])
    ensures s.At(v).value.acquireTime == TenureBegan(s.initial, s.log[..v])
  {
    if v == 0 {
      assert s.log[..0] == [];
    } else {
      assert JustifiedAt(s, v - 1);
      assert s.log[..v][..v - 1] == s.log[..v - 1];
      if s.At(v - 1).Some? {
        Accounting(s, v - 1);
      } else {
        assert s.log[..v - 1] == [];
      }
    }
  }

  /** In every reachable state the transition count is the number of takeovers
      that took effect, on top of what the first Lease carried, and the
      acquisition time is the captured time of the write that began the current
      tenure. */
  lemma LeaseCountsTakeovers(s: State)
    requires Reachable(None, s) && s.Current().Some?
    ensures s.Current().value.transitions.GetOr(0)
         == (if s.initial.Some? then s.initial.value.transitions.GetOr(0) else 0) + Takeovers(s.log)
    ensures s.Current().value.acquireTime == TenureBegan(s.initial, s.log)
  {
    ReachableInv(None, s);
    InvJustifiesLog(s);
    Accounting(s, |s.log|);
    assert s.log[..|s.log|] == s.log;
  }

  /** No takeover, of a held or of a released Lease, takes effect before the last
      written renewal time is more than the Lease's whole seconds old; once any
      replica has written, that means sixteen seconds. */
  lemma NoEarlyTakeover(s: State, n: nat)
    requires Reachable(None, s) && n < |s.log| && s.log[n].write.kind.Takeover?
    ensures s.At(n).Some? && s.At(n).value.holder != Some(s.log[n].write.author)
    ensures Expired(s.At(n).value, s.log[n].at)
    ensures n > 0 ==> (s.At(n).value.renewTime.Some?
                       && s.log[n].at >= s.At(n).value.renewTime.value + 16 * SECOND)
  {
    ReachableInv(None, s);
    InvJustifiesLog(s);
    assert JustifiedAt(s, n);
    assert LandedWell(s, n);
    ExpiryIsPersistent(s.At(n).value, s.log[n].write.checked, s.log[n].at);
    if n > 0 {
      assert LandedWell(s, n - 1);
      ExpiryNeedsSixteenSeconds(s.At(n).value, s.log[n].at);
    }
  }
}
