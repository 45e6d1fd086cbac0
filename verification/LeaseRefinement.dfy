/** The elector's methods are runs of the election machine: whatever other clients get
    accepted in between and whatever is lost, each call is a sequence of the machine's
    steps that leaves the same Lease and reaches the same verdict. */
module LeaseRefinement {
  import opened Prelude
  import opened Lease
  import opened LeaseProtocol
  import L = LeaderElection

  // ---------------------------------------------------------------------
  // Runs
  // ---------------------------------------------------------------------

  lemma {:induction false} RunOn(s: State, first: seq<Event>, t: State, more: seq<Event>, u: State)
    requires Run(None, s, first, t) && Run(None, t, more, u)
    ensures Run(None, s, first + more, u)
    decreases |first|
  {
    if first == [] {
      assert first + more == more;
    } else {
      RunOn(Apply(s, first[0]), first[1..], t, more, u);
      assert (first + more)[1..] == first[1..] + more;
    }
  }

  lemma RunOne(s: State, e: Event)
    requires Enabled(s, e)
    ensures Run(None, s, [e], Apply(s, e))
  {
    assert [e][1..] == [];
  }

  /** The writes can be accepted one after the other. */
  predicate CanLand(s: State, writes: seq<Write>)
    decreases |writes|
  {
    writes == [] || (Enabled(s, Land(writes[0])) && CanLand(Apply(s, Land(writes[0])), writes[1..]))
  }

  function Landed(s: State, writes: seq<Write>): State
    requires CanLand(s, writes)
    decreases |writes|
  {
    if writes == [] then s else Landed(Apply(s, Land(writes[0])), writes[1..])
  }

  function Lands(writes: seq<Write>): (events: seq<Event>)
    ensures |events| == |writes|
  {
    if writes == [] then [] else [Land(writes[0])] + Lands(writes[1..])
  }

  /** Landing changes the log alone, and the last one to land is what the Lease says. */
  lemma {:induction false} LandingRuns(s: State, writes: seq<Write>)
    requires CanLand(s, writes)
    ensures Run(None, s, Lands(writes), Landed(s, writes))
    ensures
      var t := Landed(s, writes);
      && t == s.(log := t.log)
      && |t.log| == |s.log| + |writes|
      && s.log <= t.log
      && (writes != [] ==> t.log[|s.log|].write == writes[0])
      && t.Current() == (if writes == [] then s.Current() else Some(writes[|writes| - 1].lease))
    decreases |writes|
  {
    if writes != [] {
      var next := Apply(s, Land(writes[0]));
      LandingRuns(next, writes[1..]);
      assert Lands(writes)[1..] == Lands(writes[1..]);
    }
  }

  /** The environment of a call, told in the machine's terms: the leases of the writes
      that land while the call is under way. */
  predicate Between(env: L.Env, others: seq<Write>) {
    && |env.between| == |others|
    && forall k | 0 <= k < |others| :: env.between[k] == others[k].lease
  }

  /** A write of the current version, sent and then overtaken by `others`, lands in time
      or has lost its race for good. */
  lemma WriteSettles(s: State, w: Write, others: seq<Write>)
    requires w in s.net && w.base == |s.log| && s.Accepts(w)
    requires CanLand(s, others) && w !in others
    ensures others == [] ==> Enabled(Landed(s, others), Land(w))
    ensures others != [] ==> Landed(s, others).Rejected(w)
  {
    LandingRuns(s, others);
  }

  /** The state in which the sender hears of its write. */
  function AfterPut(s: State, w: Write, others: seq<Write>, fault: Fault): State
    requires CanLand(s, others)
    requires others == [] ==> Enabled(s, Land(w))
  {
    if others == [] && fault.TakesEffect() then Apply(s, Land(w)) else Landed(s, others)
  }

  lemma PutLeaves(s: State, w: Write, others: seq<Write>, fault: Fault) returns (events: seq<Event>)
    requires w in s.net && w.base == |s.log| && s.Accepts(w)
    requires CanLand(s, others) && w !in others
    ensures
      var t := AfterPut(s, w, others, fault);
      && Run(None, s, events, t) && t == s.(log := t.log)
      && t.Current() == (if others != [] then Some(others[|others| - 1].lease)
                         else if fault.TakesEffect() then Some(w.lease) else s.Current())
      && (others == [] && fault.TakesEffect() ==> t.Landed(w))
      && (others != [] ==> t.Rejected(w))
  {
    WriteSettles(s, w, others);
    LandingRuns(s, others);
    events := Lands(others);
    if others == [] && fault.TakesEffect() {
      RunOne(s, Land(w));
      events := [Land(w)];
    }
  }

  /** The Lease after others, and then perhaps the call's own write, have landed. */
  function Afterwards(before: Option<LeaseSpec>, w: Write, others: seq<Write>, fault: Fault): Option<LeaseSpec> {
    if others != [] then Some(others[|others| - 1].lease) else if fault.TakesEffect() then Some(w.lease) else before
  }

  lemma Step(s: State, before: seq<Event>, u: State, e: Event) returns (events: seq<Event>)
    requires Run(None, s, before, u) && Enabled(u, e)
    ensures Run(None, s, events, Apply(u, e))
  {
    RunOne(u, e);
    RunOn(s, before, u, [e], Apply(u, e));
    events := before + [e];
  }

  lemma Lead(s: State, e: Event, more: seq<Event>, t: State) returns (events: seq<Event>)
    requires Enabled(s, e) && Run(None, Apply(s, e), more, t)
    ensures Run(None, s, events, t)
  {
    RunOne(s, e);
    RunOn(s, [e], Apply(s, e), more, t);
    events := [e] + more;
  }

  /** `t` differs from `s` in what replica `i` is doing, in the log and in the writes
      sent; replica `i` is `r`, and the Lease is `lease`. */
  predicate Ends(s: State, i: Identity, r: Replica, lease: Option<LeaseSpec>, t: State)
    requires i in s.replicas
  {
    t == s.(log := t.log, net := t.net, replicas := s.replicas[i := r]) && t.Current() == lease
  }

  lemma EndsFromRead(s: State, read: State, i: Identity, r: Replica, lease: Option<LeaseSpec>, t: State)
    requires i in s.replicas && i in read.replicas && Ends(read, i, r, lease, t)
    requires read == s.(net := read.net, replicas := s.replicas[i := read.replicas[i]])
    ensures Ends(s, i, r, lease, t)
  {
    assert s.replicas[i := read.replicas[i]][i := r] == s.replicas[i := r];
  }

  // ---------------------------------------------------------------------
  // One attempt to acquire
  // ---------------------------------------------------------------------

  /** The machine's state after an attempt has read the current Lease. */
  function AttemptHasRead(s: State, i: Identity): State
    requires i in s.replicas && s.replicas[i].main.AcquireGet?
  {
    Apply(s, AttemptRead(i, s.Version()))
  }

  function AttemptWrite(s: State, i: Identity, d: Decision): Write
    requires i in s.replicas && s.replicas[i].main.AcquireGet? && d.Send?
  {
    Write(i, d.kind, |s.log|, |s.log|, s.replicas[i].main.captured, s.now, d.lease)
  }

  lemma AttemptReads(s: State, i: Identity)
    requires i in s.replicas && s.replicas[i].main.AcquireGet?
    ensures
      var d := AcquireDecision(i, s.replicas[i].main.captured, s.now, s.Current());
      var read := AttemptHasRead(s, i);
      if d.Send? then
        var w := AttemptWrite(s, i, d);
        && read == s.Sending(w).With(i, s.replicas[i].(main := AcquireWrite(w, s.now)))
        && w in read.net && read.Accepts(w)
      else
        read == s.With(i, s.replicas[i].(main := Standby(s.now + RETRY_INTERVAL)))
  {
  }

  function AfterAttempt(r: Replica, now: Time, w: Write, others: seq<Write>, fault: Fault): Replica {
    if fault.Delivered? && others == [] then Replica(Running(w.base), Sleeping(now, w.base), r.flags.MarkLeader())
    else r.(main := Standby(now + RETRY_INTERVAL))
  }

  lemma AttemptPut(read: State, i: Identity, w: Write, others: seq<Write>, fault: Fault)
      returns (events: seq<Event>, t: State)
    requires i in read.replicas && read.replicas[i].main.AcquireWrite? && read.replicas[i].main.write == w
    requires w in read.net && w.base == |read.log| && read.Accepts(w) && CanLand(read, others) && w !in others
    ensures Run(None, read, events, t)
    ensures Ends(read, i, AfterAttempt(read.replicas[i], read.now, w, others, fault),
        Afterwards(read.Current(), w, others, fault), t)
  {
    var put := PutLeaves(read, w, others, fault);
    var u := AfterPut(read, w, others, fault);
    var answer := if !fault.Delivered? then MainError(i) else if others == [] then MainOk(i) else MainConflict(i);
    events := Step(read, put, u, answer);
    t := Apply(u, answer);
  }

  /** The writes that land in between do so after the read, and the call's own is not
      among them. */
  predicate AttemptInterleaves(s: State, i: Identity, others: seq<Write>)
    requires i in s.replicas && s.replicas[i].main.AcquireGet?
  {
    var read := AttemptHasRead(s, i);
    && CanLand(read, others)
    && (read.replicas[i].main.AcquireWrite? ==> read.replicas[i].main.write !in others)
  }

  /** The replica at the end of an attempt. */
  function Attempted(r: Replica, s: State, answer: Result<bool, L.Error>): Replica {
    if answer == Ok(true) then Replica(Running(|s.log|), Sleeping(s.now, |s.log|), r.flags.MarkLeader())
    else r.(main := Standby(s.now + RETRY_INTERVAL))
  }

  /** For every Lease, every set of competing writes and every loss: an attempt is a run
      of the machine that leaves the same Lease. After true the replica leads, its
      tenure beginning with the write just accepted; after anything else it waits for
      its next attempt. */
  lemma AttemptIsAProtocolRun(s: State, i: Identity, env: L.Env, others: seq<Write>)
      returns (events: seq<Event>, t: State)
    requires i in s.replicas && s.replicas[i].main == AcquireGet(env.captured)
    requires env.checked == s.now && Between(env, others)
    requires if env.get.Delivered? then AttemptInterleaves(s, i, others) else CanLand(s, others)
    ensures Run(None, s, events, t)
    ensures
      var (answer, lease) := L.Attempt(i, s.Current(), env);
      Ends(s, i, Attempted(s.replicas[i], s, answer), lease, t)
  {
    if !env.get.Delivered? {
      LandingRuns(s, others);
      events := Step(s, Lands(others), Landed(s, others), MainError(i));
      t := Apply(Landed(s, others), MainError(i));
    } else if AcquireDecision(i, env.captured, s.now, s.Current()).Send? {
      events, t := SentAttempt(s, i, env, others);
    } else {
      var read := AttemptHasRead(s, i);
      AttemptReads(s, i);
      LandingRuns(read, others);
      t := Landed(read, others);
      events := Lead(s, AttemptRead(i, s.Version()), Lands(others), t);
    }
  }

  lemma SentAttempt(s: State, i: Identity, env: L.Env, others: seq<Write>) returns (events: seq<Event>, t: State)
    requires i in s.replicas && s.replicas[i].main == AcquireGet(env.captured)
    requires env.checked == s.now && Between(env, others)
    requires env.get.Delivered? && AttemptInterleaves(s, i, others)
    requires AcquireDecision(i, env.captured, s.now, s.Current()).Send?
    ensures Run(None, s, events, t)
    ensures
      var (answer, lease) := L.Attempt(i, s.Current(), env);
      Ends(s, i, Attempted(s.replicas[i], s, answer), lease, t)
  {
    var d := AcquireDecision(i, env.captured, s.now, s.Current());
    var w, read := AttemptWrite(s, i, d), AttemptHasRead(s, i);
    AttemptReads(s, i);
    events, t := AttemptPut(read, i, w, others, env.put);
    events := Lead(s, AttemptRead(i, s.Version()), events, t);
    EndsFromRead(s, read, i, AfterAttempt(read.replicas[i], read.now, w, others, env.put),
                 Afterwards(read.Current(), w, others, env.put), t);
  }

  // ---------------------------------------------------------------------
  // One renewal
  // ---------------------------------------------------------------------

  function RenewalHasRead(s: State, i: Identity): State
    requires i in s.replicas && s.replicas[i].renew.RenewGet?
  {
    Apply(s, RenewRead(i, s.Version()))
  }

  function WriteNow(s: State, i: Identity, d: Decision): Write
    requires d.Send?
  {
    Write(i, d.kind, |s.log|, |s.log|, s.now, s.now, d.lease)
  }

  lemma RenewalReads(s: State, i: Identity)
    requires i in s.replicas && s.replicas[i].renew.RenewGet?
    ensures
      var d, r := RenewDecision(i, s.now, s.Current()), s.replicas[i];
      var read := RenewalHasRead(s, i);
      if d.Send? then
        var w := WriteNow(s, i, d);
        && read == s.Sending(w).With(i, r.(renew := RenewWrite(w, s.now, r.renew.confirmed)))
        && w in read.net && read.Accepts(w)
      else
        read == s.With(i, r.(renew := Stopped, flags := r.flags.MarkStandby()))
  {
  }

  predicate RenewalInterleaves(s: State, i: Identity, others: seq<Write>)
    requires i in s.replicas && s.replicas[i].renew.RenewGet?
  {
    var read := RenewalHasRead(s, i);
    && CanLand(read, others)
    && (read.replicas[i].renew.RenewWrite? ==> read.replicas[i].renew.write !in others)
  }

  /** The replica at the end of a renewal. */
  function Renewed(r: Replica, s: State, answer: Result<bool, L.Error>): Replica {
    if answer == Ok(true) then r.(renew := Sleeping(s.now, |s.log|))
    else r.(renew := Stopped, flags := r.flags.MarkStandby())
  }

  lemma RenewalPut(read: State, i: Identity, w: Write, others: seq<Write>, fault: Fault)
      returns (events: seq<Event>, t: State)
    requires i in read.replicas && read.replicas[i].renew.RenewWrite? && read.replicas[i].renew.write == w
    requires w in read.net && w.base == |read.log| && read.Accepts(w) && CanLand(read, others) && w !in others
    ensures Run(None, read, events, t)
    ensures Ends(read, i,
        Renewed(read.replicas[i], read, if fault.Delivered? then Ok(others == []) else Err(L.PutFailed)),
                 Afterwards(read.Current(), w, others, fault), t)
  {
    var put := PutLeaves(read, w, others, fault);
    var u := AfterPut(read, w, others, fault);
    var answer := if !fault.Delivered? then RenewError(i) else if others == [] then RenewOk(i) else RenewConflict(i);
    events := Step(read, put, u, answer);
    t := Apply(u, answer);
  }

  /** Likewise for a renewal, whatever is written in between and whatever is lost: the
      same Lease, and a replica that goes on leading after true and has stopped renewing
      and given up the leader flag after anything else. */
  lemma RenewIsAProtocolRun(s: State, i: Identity, env: L.Env, others: seq<Write>)
      returns (events: seq<Event>, t: State)
    requires i in s.replicas && s.replicas[i].renew.RenewGet?
    requires env.captured == s.now && Between(env, others)
    requires if env.get.Delivered? then RenewalInterleaves(s, i, others) else CanLand(s, others)
    ensures Run(None, s, events, t)
    ensures
      var (answer, lease) := L.Renewal(i, s.Current(), env);
      Ends(s, i, Renewed(s.replicas[i], s, answer), lease, t)
  {
    if !env.get.Delivered? {
      LandingRuns(s, others);
      events := Step(s, Lands(others), Landed(s, others), RenewError(i));
      t := Apply(Landed(s, others), RenewError(i));
    } else if RenewDecision(i, s.now, s.Current()).Send? {
      events, t := SentRenewal(s, i, env, others);
    } else {
      var read := RenewalHasRead(s, i);
      RenewalReads(s, i);
      LandingRuns(read, others);
      t := Landed(read, others);
      events := Lead(s, RenewRead(i, s.Version()), Lands(others), t);
    }
  }

  lemma SentRenewal(s: State, i: Identity, env: L.Env, others: seq<Write>) returns (events: seq<Event>, t: State)
    requires i in s.replicas && s.replicas[i].renew.RenewGet?
    requires env.captured == s.now && Between(env, others)
    requires env.get.Delivered? && RenewalInterleaves(s, i, others)
    requires RenewDecision(i, s.now, s.Current()).Send?
    ensures Run(None, s, events, t)
    ensures
      var (answer, lease) := L.Renewal(i, s.Current(), env);
      Ends(s, i, Renewed(s.replicas[i], s, answer), lease, t)
  {
    var d := RenewDecision(i, s.now, s.Current());
    var w, read := WriteNow(s, i, d), RenewalHasRead(s, i);
    RenewalReads(s, i);
    events, t := RenewalPut(read, i, w, others, env.put);
    events := Lead(s, RenewRead(i, s.Version()), events, t);
    EndsFromRead(s, read, i, t.replicas[i], Afterwards(read.Current(), w, others, env.put), t);
  }

  // ---------------------------------------------------------------------
  // One release
  // ---------------------------------------------------------------------

  function ReleaseHasRead(s: State, i: Identity): State
    requires i in s.replicas && s.replicas[i].main.ReleaseGet?
  {
    Apply(s, ReleaseRead(i, s.Version()))
  }

  lemma ReleaseReads(s: State, i: Identity)
    requires i in s.replicas && s.replicas[i].main.ReleaseGet?
    ensures
      var d, r := ReleaseDecision(i, s.Current()), s.replicas[i];
      var read := ReleaseHasRead(s, i);
      if d.Send? then
        var w := WriteNow(s, i, d);
        && read == s.Sending(w).With(i, r.(main := ReleaseWrite(r.main.start, w, s.now)))
        && w in read.net && read.Accepts(w)
      else
        read == s.With(i, EXITED)
  {
  }

  predicate ReleaseInterleaves(s: State, i: Identity, others: seq<Write>)
    requires i in s.replicas && s.replicas[i].main.ReleaseGet?
  {
    var read := ReleaseHasRead(s, i);
    && CanLand(read, others)
    && (read.replicas[i].main.ReleaseWrite? ==> read.replicas[i].main.write !in others)
  }

  lemma ReleasePut(read: State, i: Identity, w: Write, others: seq<Write>, fault: Fault)
      returns (events: seq<Event>, t: State)
    requires i in read.replicas && read.replicas[i].main.ReleaseWrite? && read.replicas[i].main.write == w
    requires w in read.net && w.base == |read.log| && read.Accepts(w) && CanLand(read, others) && w !in others
    ensures Run(None, read, events, t)
    ensures Ends(read, i, EXITED, Afterwards(read.Current(), w, others, fault), t)
  {
    var put := PutLeaves(read, w, others, fault);
    var u := AfterPut(read, w, others, fault);
    var answer := if !fault.Delivered? then MainError(i) else if others == [] then MainOk(i) else MainConflict(i);
    events := Step(read, put, u, answer);
    t := Apply(u, answer);
  }

  /** And for a release: the same Lease, and a replica that has exited. */
  lemma ReleaseIsAProtocolRun(s: State, i: Identity, env: L.Env, others: seq<Write>)
      returns (events: seq<Event>, t: State)
    requires i in s.replicas && s.replicas[i].main.ReleaseGet?
    requires Between(env, others)
    requires if env.get.Delivered? then ReleaseInterleaves(s, i, others) else CanLand(s, others)
    ensures Run(None, s, events, t)
    ensures Ends(s, i, EXITED, L.Released(i, s.Current(), env), t)
  {
    if !env.get.Delivered? {
      LandingRuns(s, others);
      events := Step(s, Lands(others), Landed(s, others), MainError(i));
      t := Apply(Landed(s, others), MainError(i));
    } else {
      var d, read := ReleaseDecision(i, s.Current()), ReleaseHasRead(s, i);
      ReleaseReads(s, i);
      var more: seq<Event>;
      if d.Send? {
        var w := WriteNow(s, i, d);
        more, t := ReleasePut(read, i, w, others, env.put);
        EndsFromRead(s, read, i, EXITED, Afterwards(read.Current(), w, others, env.put), t);
      } else {
        LandingRuns(read, others);
        more, t := Lands(others), Landed(read, others);
      }
      events := Lead(s, ReleaseRead(i, s.Version()), more, t);
    }
  }
}
