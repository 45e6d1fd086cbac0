/** The elector's methods, each one call after another against a server that
    other clients write to in between. */
module LeaderElection {
  import opened Prelude
  import opened Lease

  datatype Reply = Accepted | Conflict | Failed

  datatype ReadReply = Found(lease: LeaseSpec, version: nat) | NotFound | Unread

  /** The Lease object on the API server. */
  class LeaseServer {
    var lease: Option<LeaseSpec>
    var version: nat

    constructor (initial: Option<LeaseSpec>)
      ensures lease == initial && version == 0
    {
      lease, version := initial, 0;
    }

    method Get(fault: Fault) returns (r: ReadReply)
      ensures r == if !fault.Delivered? then Unread
                   else if lease.None? then NotFound
                   else Found(lease.value, version)
    {
      if fault.Delivered? {
        r := if lease.None? then NotFound else Found(lease.value, version);
      } else {
        r := Unread;
      }
    }

    method Create(l: LeaseSpec, fault: Fault) returns (r: Reply)
      modifies this
      ensures var wins := old(lease).None? && fault.TakesEffect();
        && lease == (if wins then Some(l) else old(lease))
        && version == (if wins then old(version) + 1 else old(version))
      ensures r == if !fault.Delivered? then Failed else if old(lease).None? then Accepted else Conflict
    {
      r := if !fault.Delivered? then Failed else if lease.None? then Accepted else Conflict;
      if lease.None? && fault.TakesEffect() {
        lease, version := Some(l), version + 1;
      }
    }

    method Replace(base: nat, l: LeaseSpec, fault: Fault) returns (r: Reply)
      requires lease.Some?
      modifies this
      ensures var wins := base == old(version) && fault.TakesEffect();
        && lease == (if wins then Some(l) else old(lease))
        && version == (if wins then old(version) + 1 else old(version))
      ensures r == if !fault.Delivered? then Failed else if base == old(version) then Accepted else Conflict
    {
      r := if !fault.Delivered? then Failed else if base == version then Accepted else Conflict;
      if base == version && fault.TakesEffect() {
        lease, version := Some(l), version + 1;
      }
    }

    /** The accepted writes of other clients. */
    method Others(writes: seq<LeaseSpec>)
      modifies this
      ensures lease == if writes == [] then old(lease) else Some(writes[|writes| - 1])
      ensures version == old(version) + |writes|
    {
      for k := 0 to |writes|
        invariant lease == if k == 0 then old(lease) else Some(writes[k - 1])
        invariant version == old(version) + k
      {
        lease, version := Some(writes[k]), version + 1;
      }
    }
  }

  /** What the environment contributes to one read-then-write call: the clock
      readings, the fate of both requests, and what other clients get accepted
      between them. */
  datatype Env = Env(captured: Time, checked: Time, get: Fault, between: seq<LeaseSpec>, put: Fault)

  datatype Error = GetFailed | LeaseMissing | PutFailed

  /** The answer of a call whose read was delivered and whose decision was `d`. */
  function Answer(d: Decision, env: Env): Result<bool, Error> {
    match d
    case Missing => Err(LeaseMissing)
    case Decline => Ok(false)
    case Send(_, _) =>
      if !env.put.Delivered? then Err(PutFailed) else Ok(env.between == [])
  }

  /** The Lease such a call leaves behind. */
  function Left(d: Decision, lease: Option<LeaseSpec>, env: Env): Option<LeaseSpec> {
    if env.between != [] then Some(env.between[|env.between| - 1])
    else if d.Send? && env.put.TakesEffect() then Some(d.lease)
    else lease
  }

  function AcquireAt(id: Identity, lease: Option<LeaseSpec>, env: Env): Decision {
    AcquireDecision(id, env.captured, env.checked, lease)
  }

  /** The outcome of one attempt: its answer and the Lease afterwards. */
  function Attempt(id: Identity, lease: Option<LeaseSpec>, env: Env): (Result<bool, Error>, Option<LeaseSpec>) {
    if !env.get.Delivered? then (Err(GetFailed), Left(Decline, lease, env))
    else (Answer(AcquireAt(id, lease, env), env), Left(AcquireAt(id, lease, env), lease, env))
  }

  /** The attempts up to and including the first that succeeds: how many there
      were, whether one did, and the Lease afterwards. */
  function Attempts(id: Identity, lease: Option<LeaseSpec>, envs: seq<Env>): (nat, bool, Option<LeaseSpec>)
    decreases |envs|
  {
    if envs == [] then (0, false, lease)
    else
      var first := Attempt(id, lease, envs[0]);
      if first.0 == Ok(true) then (1, true, first.1)
      else
        var rest := Attempts(id, first.1, envs[1..]);
        (rest.0 + 1, rest.1, rest.2)
  }

  /** The outcome of one renewal likewise. */
  function Renewal(id: Identity, lease: Option<LeaseSpec>, env: Env): (Result<bool, Error>, Option<LeaseSpec>) {
    if !env.get.Delivered? then (Err(GetFailed), Left(Decline, lease, env))
    else
      var d := RenewDecision(id, env.captured, lease);
      (Answer(d, env), Left(d, lease, env))
  }

  /** The Lease that one release leaves. */
  function Released(id: Identity, lease: Option<LeaseSpec>, env: Env): Option<LeaseSpec> {
    Left(if env.get.Delivered? then ReleaseDecision(id, lease) else Decline, lease, env)
  }

  /** An attempt told without its decision: when it succeeds, what it answers otherwise,
      and the Lease it leaves, for every Lease, competing write and lost call. */
  lemma AttemptExactly(id: Identity, lease: Option<LeaseSpec>, env: Env)
    ensures
      var (r, after) := Attempt(id, lease, env);
      var open := Open(id, lease, env.checked);
      && r == (if !env.get.Delivered? then Err(GetFailed)
               else if !open then Ok(false)
               else if !env.put.Delivered? then Err(PutFailed)
               else Ok(env.between == []))
      && (if env.between != [] then after == Some(env.between[|env.between| - 1])
          else if env.get.Delivered? && open && !env.put.LostBefore? then
            after.Some? && Claims(id, lease, env.captured, after.value)
          else after == lease)
  {
    AcquireDecisionExactly(id, env.captured, env.checked, lease);
  }

  class LeaderElector {
    const server: LeaseServer
    const identity: Identity

    constructor (server: LeaseServer, identity: Identity)
      ensures this.server == server && this.identity == identity
    {
      this.server, this.identity := server, identity;
    }

    method UpdateLease(existing: LeaseSpec, version: nat, captured: Time, takeover: bool, fault: Fault)
      returns (r: Result<bool, Error>)
      requires server.lease.Some?
      modifies server
      ensures var wins := version == old(server.version) && fault.TakesEffect();
        && server.lease == (if wins then Some(Lease.UpdateLease(identity, existing, captured, takeover))
            else old(server.lease))
        && server.version == (if wins then old(server.version) + 1 else old(server.version))
      ensures r == if !fault.Delivered? then Err(PutFailed) else Ok(version == old(server.version))
    {
      var reply := server.Replace(version, Lease.UpdateLease(identity, existing, captured, takeover), fault);
      match reply
      case Accepted => r := Ok(true);
      case Conflict => r := Ok(false);
      case Failed => r := Err(PutFailed);
    }

    /** Succeeds exactly when the Lease read is absent, its own or stale, nobody
        writes in between, and both answers arrive; a write whose answer is lost still
        changes the Lease, and whoever may not claim the Lease writes nothing. */
    method TryAcquire(env: Env) returns (r: Result<bool, Error>)
      modifies server
      ensures (r, server.lease) == Attempt(identity, old(server.lease), env)
      ensures r == Ok(true) <==>
        && env.get.Delivered? && env.put.Delivered? && env.between == []
        && Open(identity, old(server.lease), env.checked)
      ensures r == Ok(true) ==> HeldBy(server.lease, identity) && server.version == old(server.version) + 1
      ensures env.get.Delivered? && !Open(identity, old(server.lease), env.checked) ==> r == Ok(false)
      ensures env.get.Delivered? && env.between == [] && !env.put.LostBefore?
              && Open(identity, old(server.lease), env.checked) ==>
                server.lease.Some? && Claims(identity, old(server.lease), env.captured, server.lease.value)
      ensures env.between == []
              && (!env.get.Delivered? || env.put.LostBefore? || !Open(identity, old(server.lease), env.checked)) ==>
                server.lease == old(server.lease) && server.version == old(server.version)
      ensures env.between != [] ==> server.lease == Some(env.between[|env.between| - 1])
    {
      AttemptExactly(identity, server.lease, env);
      var read := server.Get(env.get);
      server.Others(env.between);
      match read
      case Unread => r := Err(GetFailed);
      case NotFound =>
        var reply := server.Create(CreateLease(identity, env.captured), env.put);
        r := match reply case Accepted => Ok(true) case Conflict => Ok(false) case Failed => Err(PutFailed);
      case Found(lease, version) =>
        if lease.holder == Some(identity) {
          r := UpdateLease(lease, version, env.captured, false, env.put);
        } else if Expired(lease, env.checked) {
          r := UpdateLease(lease, version, env.captured, true, env.put);
        } else {
          r := Ok(false);
        }
    }

    /** Retries until an attempt succeeds or the environment runs out. */
    method Acquire(envs: seq<Env>) returns (tries: nat, acquired: bool)
      modifies server
      ensures (tries, acquired, server.lease) == Attempts(identity, old(server.lease), envs)
      ensures acquired ==> 0 < tries <= |envs| && HeldBy(server.lease, identity)
    {
      tries, acquired := 0, false;
      while tries < |envs|
        invariant tries <= |envs|
        invariant var rest := Attempts(identity, server.lease, envs[tries..]);
          Attempts(identity, old(server.lease), envs) == (tries + rest.0, rest.1, rest.2)
      {
        assert envs[tries..][1..] == envs[tries + 1..];
        var r := TryAcquire(envs[tries]);
        tries := tries + 1;
        if r == Ok(true) {
          acquired := true;
          return;
        }
      }
    }

    /** True exactly when the Lease read names this replica, nobody writes in
        between and the answer arrives; the Lease then differs from the one read
        in its renewal time alone. */
    method Renew(env: Env) returns (r: Result<bool, Error>)
      modifies server
      ensures (r, server.lease) == Renewal(identity, old(server.lease), env)
      ensures r == Ok(true) <==>
        && env.get.Delivered? && env.put.Delivered? && env.between == []
        && HeldBy(old(server.lease), identity)
      ensures r ==
        if !env.get.Delivered? then Err(GetFailed)
        else if old(server.lease).None? then Err(LeaseMissing)
        else if old(server.lease).value.holder != Some(identity) then Ok(false)
        else if !env.put.Delivered? then Err(PutFailed)
        else Ok(env.between == [])
      ensures server.lease ==
        if env.between != [] then Some(env.between[|env.between| - 1])
        else if env.get.Delivered? && !env.put.LostBefore? && old(server.lease).Some?
                && old(server.lease).value.holder == Some(identity)
        then Some(old(server.lease).value.(renewTime := Some(env.captured)))
        else old(server.lease)
    {
      var read := server.Get(env.get);
      server.Others(env.between);
      match read
      case Unread => r := Err(GetFailed);
      case NotFound => r := Err(LeaseMissing);
      case Found(lease, version) =>
        if lease.holder != Some(identity) {
          return Ok(false);
        }
        var updated := lease.(renewTime := Some(env.captured));
        var reply := server.Replace(version, updated, env.put);
        r := match reply case Accepted => Ok(true) case Conflict => Ok(false) case Failed => Err(PutFailed);
    }

    /** Clears the holder when the Lease read names this replica and nobody writes
        in between; otherwise it changes nothing. The renewal time stays. */
    method Release(env: Env)
      modifies server
      ensures server.lease == Released(identity, old(server.lease), env)
      ensures server.lease ==
        if env.between != [] then Some(env.between[|env.between| - 1])
        else if env.get.Delivered? && !env.put.LostBefore? && old(server.lease).Some?
                && old(server.lease).value.holder == Some(identity)
        then Some(old(server.lease).value.(holder := None))
        else old(server.lease)
    {
      var read := server.Get(env.get);
      server.Others(env.between);
      if read.Found? && read.lease.holder == Some(identity) {
        var updated := read.lease.(holder := None);
        var _ := server.Replace(read.version, updated, env.put);
      }
    }
  }

  /** `acquire` returns at the first attempt that succeeds: with no success among
      the environments it is still waiting after all of them. */
  lemma {:induction false} AcquireStopsAtFirstSuccess(id: Identity, lease: Option<LeaseSpec>, envs: seq<Env>)
    ensures var out := Attempts(id, lease, envs);
      && out.0 <= |envs|
      && (!out.1 ==> out.0 == |envs|)
      && (out.1 ==>
            && 0 < out.0
            && !Attempts(id, lease, envs[..out.0 - 1]).1
            && Attempt(id, Attempts(id, lease, envs[..out.0 - 1]).2, envs[out.0 - 1]) == (Ok(true), out.2))
    decreases |envs|
  {
    if envs != [] {
      var first := Attempt(id, lease, envs[0]);
      if first.0 == Ok(true) {
        assert envs[..0] == [];
      } else {
        AcquireStopsAtFirstSuccess(id, first.1, envs[1..]);
        var out := Attempts(id, lease, envs);
        if out.1 {
          assert envs[..out.0 - 1][1..] == envs[1..][..out.0 - 2];
        }
      }
    }
  }
}
