/** N replicas, one Lease: every client call is a step of its own, steps of
    different replicas interleave freely, answers may be lost, and writes may
    land long after their sender gave up on them. A replica that exited may come
    back under its identity, with writes of its earlier life still under way. */
module LeaseProtocol {
  import opened Prelude
  import opened Lease

  /** A write on its way to the server. `base` is the version the replica had
      read, `sentAt` the version the server was at when the write was sent. */
  datatype Write = Write(
    author: Identity, kind: Kind, base: nat, sentAt: nat,
    captured: Time, checked: Time, lease: LeaseSpec)
  {
    predicate Acquires() {
      kind.Create? || kind.Acquire? || kind.Takeover?
    }
  }

  /** An accepted write and when it was accepted. */
  datatype Entry = Entry(write: Write, at: Time)

  /** The main task: `acquire`, then the wait for shutdown, then `release`.
      `start` is the log position of the write that `acquire` succeeded with. */
  datatype MainTask =
    | Standby(notBefore: Time)
    | AcquireGet(captured: Time)
    | AcquireWrite(write: Write, since: Time)
    | Running(start: nat)
    | ReleaseGet(start: nat, since: Time)
    | ReleaseWrite(start: nat, write: Write, since: Time)
    | Exited

  /** The renewal task. `confirmed` is the log position of the last write the
      server acknowledged to this replica. */
  datatype RenewTask =
    | Idle
    | Sleeping(since: Time, confirmed: nat)
    | RenewGet(since: Time, confirmed: nat)
    | RenewWrite(write: Write, since: Time, confirmed: nat)
    | Stopped

  /** The two probe flags: `ready` behind `/readyz`, `leader` behind `/leaderz`. */
  datatype Flags = Flags(ready: bool, leader: bool) {
    function MarkLeader(): Flags { this.(leader := true) }
    function MarkStandby(): Flags { this.(leader := false) }
    function MarkUnready(): Flags { Flags(false, false) }
  }

  datatype Replica = Replica(main: MainTask, renew: RenewTask, flags: Flags) {
    /** Between a successful `acquire` and a `renew` that returned false or an
        error, in a process that is still there. */
    predicate Leading() {
      renew.Sleeping? || renew.RenewGet? || renew.RenewWrite?
    }

    predicate Tenured() {
      main.Running? || main.ReleaseGet? || main.ReleaseWrite?
    }
  }

  /** The server keeps the Lease it started with and every write it accepted;
      the resource version is the number of accepted writes. `net` holds every
      write ever sent: one that has landed or lost its race can never land again,
      because versions are not reused. */
  datatype State = State(
    now: Time,
    initial: Option<LeaseSpec>,
    log: seq<Entry>,
    net: set<Write>,
    replicas: map<Identity, Replica>)
  {
    function Version(): nat { |log| }

    function At(v: nat): Option<LeaseSpec>
      requires v <= |log|
    {
      if v == 0 then initial else Some(log[v - 1].write.lease)
    }

    function Current(): Option<LeaseSpec> { At(|log|) }

    predicate Landed(w: Write) {
      w.base < |log| && log[w.base].write == w
    }

    /** The write lost its race: the server answers 409. */
    predicate Rejected(w: Write) {
      w.base < |log| && log[w.base].write != w
    }

    /** `create` succeeds when there is no Lease, `replace` when the version sent
        is the current one. */
    predicate Accepts(w: Write) {
      if w.kind.Create? then Current().None? else Current().Some? && w.base == |log|
    }

    function With(i: Identity, r: Replica): State
      requires i in replicas
    {
      this.(replicas := replicas[i := r])
    }

    function Sending(w: Write): State {
      this.(net := net + {w})
    }
  }

  datatype Event =
    | Tick(d: nat)
    | Land(write: Write)
    | BeginAttempt(i: Identity)
    | AttemptRead(i: Identity, v: nat)
    | MainOk(i: Identity)
    | MainConflict(i: Identity)
    | MainError(i: Identity)
    | Wake(i: Identity)
    | RenewRead(i: Identity, v: nat)
    | RenewOk(i: Identity)
    | RenewConflict(i: Identity)
    | RenewError(i: Identity)
    | Shutdown(i: Identity)
    | ReleaseRead(i: Identity, v: nat)
    | Crash(i: Identity)
    | Restart(i: Identity)

  /** A `get` may answer with any version written so far, so nothing proved here
      rests on reads being current. */
  predicate Enabled(s: State, e: Event) {
    match e
    case Tick(_) => true
    case Land(w) => w in s.net && s.Accepts(w)
    case BeginAttempt(i) =>
      i in s.replicas && s.replicas[i].main.Standby? && s.replicas[i].main.notBefore <= s.now
    case AttemptRead(i, v) => i in s.replicas && s.replicas[i].main.AcquireGet? && v <= s.Version()
    case MainOk(i) =>
      i in s.replicas
      && (s.replicas[i].main.AcquireWrite? || s.replicas[i].main.ReleaseWrite?)
      && s.Landed(s.replicas[i].main.write)
    case MainConflict(i) =>
      i in s.replicas
      && (s.replicas[i].main.AcquireWrite? || s.replicas[i].main.ReleaseWrite?)
      && s.Rejected(s.replicas[i].main.write)
    case MainError(i) =>
      i in s.replicas
      && (var m := s.replicas[i].main;
          m.AcquireGet? || m.AcquireWrite? || m.ReleaseGet? || m.ReleaseWrite?)
    case Wake(i) =>
      i in s.replicas && s.replicas[i].renew.Sleeping?
      && s.replicas[i].renew.since + RENEW_INTERVAL <= s.now
    case RenewRead(i, v) => i in s.replicas && s.replicas[i].renew.RenewGet? && v <= s.Version()
    case RenewOk(i) =>
      i in s.replicas && s.replicas[i].renew.RenewWrite? && s.Landed(s.replicas[i].renew.write)
    case RenewConflict(i) =>
      i in s.replicas && s.replicas[i].renew.RenewWrite? && s.Rejected(s.replicas[i].renew.write)
    case RenewError(i) =>
      i in s.replicas && (s.replicas[i].renew.RenewGet? || s.replicas[i].renew.RenewWrite?)
    case Shutdown(i) => i in s.replicas && s.replicas[i].main.Running?
    case ReleaseRead(i, v) => i in s.replicas && s.replicas[i].main.ReleaseGet? && v <= s.Version()
    case Crash(i) => i in s.replicas
    case Restart(i) => i in s.replicas && s.replicas[i].main.Exited?
  }

  const EXITED := Replica(Exited, Stopped, Flags(false, false))

  function Apply(s: State, e: Event): State
    requires Enabled(s, e)
  {
    match e
    case Tick(d) => s.(now := s.now + d)
    case Land(w) => s.(log := s.log + [Entry(w, s.now)])
    case BeginAttempt(i) => s.With(i, s.replicas[i].(main := AcquireGet(s.now)))
    case AttemptRead(i, v) =>
      var captured := s.replicas[i].main.captured;
      (match AcquireDecision(i, captured, s.now, s.At(v))
       case Send(kind, lease) =>
         var w := Write(i, kind, v, s.Version(), captured, s.now, lease);
         s.Sending(w).With(i, s.replicas[i].(main := AcquireWrite(w, s.now)))
       case _ => s.With(i, s.replicas[i].(main := Standby(s.now + RETRY_INTERVAL))))
    case MainOk(i) =>
      if s.replicas[i].main.AcquireWrite? then
        var k := s.replicas[i].main.write.base;
        s.With(i, Replica(Running(k), Sleeping(s.now, k), s.replicas[i].flags.MarkLeader()))
      else
        s.With(i, EXITED)
    case MainConflict(i) =>
      if s.replicas[i].main.AcquireWrite? then
        s.With(i, s.replicas[i].(main := Standby(s.now + RETRY_INTERVAL)))
      else
        s.With(i, EXITED)
    case MainError(i) =>
      if s.replicas[i].main.AcquireGet? || s.replicas[i].main.AcquireWrite? then
        s.With(i, s.replicas[i].(main := Standby(s.now + RETRY_INTERVAL)))
      else
        s.With(i, EXITED)
    case Wake(i) => s.With(i, s.replicas[i].(renew := RenewGet(s.now, s.replicas[i].renew.confirmed)))
    case RenewRead(i, v) =>
      (match RenewDecision(i, s.now, s.At(v))
       case Send(kind, lease) =>
         var w := Write(i, kind, v, s.Version(), s.now, s.now, lease);
         s.Sending(w).With(i, s.replicas[i].(renew := RenewWrite(w, s.now, s.replicas[i].renew.confirmed)))
       case _ => s.With(i, s.replicas[i].(renew := Stopped, flags := s.replicas[i].flags.MarkStandby())))
    case RenewOk(i) =>
      s.With(i, s.replicas[i].(renew := Sleeping(s.now, s.replicas[i].renew.write.base)))
    case RenewConflict(i) => s.With(i, s.replicas[i].(renew := Stopped, flags := s.replicas[i].flags.MarkStandby()))
    case RenewError(i) => s.With(i, s.replicas[i].(renew := Stopped, flags := s.replicas[i].flags.MarkStandby()))
    case Shutdown(i) => s.With(i, s.replicas[i].(
        main := ReleaseGet(s.replicas[i].main.start, s.now),
        flags := s.replicas[i].flags.MarkUnready()))
    case ReleaseRead(i, v) =>
      (match ReleaseDecision(i, s.At(v))
       case Send(kind, lease) =>
         var w := Write(i, kind, v, s.Version(), s.now, s.now, lease);
         s.Sending(w).With(i, s.replicas[i].(main := ReleaseWrite(s.replicas[i].main.start, w, s.now)))
       case _ => s.With(i, EXITED))
    case Crash(i) => s.With(i, EXITED)
    case Restart(i) => s.With(i, Replica(Standby(s.now), Idle, Flags(true, false)))
  }

  /** Any Lease left behind by an earlier deployment, or none. The replicas serve
      their probes and are marked ready before they wait for the Lease. */
  predicate Initial(s: State) {
    && s.log == []
    && s.net == {}
    && (forall i <- s.replicas ::
          s.replicas[i].main.Standby? && s.replicas[i].renew.Idle? && s.replicas[i].flags == Flags(true, false))
  }

  // ---------------------------------------------------------------------
  // Time bounds
  // ---------------------------------------------------------------------

  /** With a bound on calls, time may not pass the moment by which a pending call
      must have been answered or a sleep must have ended. */
  predicate WithinBound(bound: Time, s: State, now: Time) {
    forall i <- s.replicas :: TasksWithin(bound, s.replicas[i], now)
  }

  predicate TasksWithin(bound: Time, r: Replica, now: Time) {
    && (match r.main
        case AcquireGet(captured) => now <= captured + bound
        case AcquireWrite(_, since) => now <= since + bound
        case _ => true)
    && (match r.renew
        case Sleeping(since, _) => now <= since + RENEW_INTERVAL
        case RenewGet(since, _) => now <= since + bound
        case RenewWrite(_, since, _) => now <= since + bound
        case _ => true)
  }

  /** `bound` is the longest a call may take; None means no assumption at all. */
  predicate EnabledUnder(bound: Option<Time>, s: State, e: Event) {
    && Enabled(s, e)
    && (bound.Some? && e.Tick? ==> WithinBound(bound.value, s, s.now + e.d))
  }

  predicate Run(bound: Option<Time>, s: State, events: seq<Event>, t: State)
    decreases |events|
  {
    if events == [] then s == t
    else EnabledUnder(bound, s, events[0]) && Run(bound, Apply(s, events[0]), events[1..], t)
  }

  ghost predicate Reachable(bound: Option<Time>, t: State) {
    exists s, events :: Initial(s) && Run(bound, s, events, t)
  }
}
