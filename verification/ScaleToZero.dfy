/** Idle detection, scale to zero and cold start, one evaluation per tick. */
module ScaleToZero {
  import opened Prelude

  datatype Config = Config(enabled: bool, idleTimeout: nat, minActiveReplicas: int, cooldown: nat)

  datatype Snapshot = Snapshot(
    messagesPerSecond: real, activeConnections: nat, idleDuration: nat, isIdle: bool)

  datatype ScaleAction = NoAction | ScaleToZero | Activate | InCooldown

  datatype Decision = Decision(action: ScaleAction, targetReplicas: int)

  function BuildActivitySnapshot(
    now: int, messagesPerSecond: real, activeConnections: nat, lastActivity: int, idleTimeout: nat): Snapshot
  {
    var idleDuration := if now - lastActivity >= 0 then now - lastActivity else 0;
    Snapshot(messagesPerSecond, activeConnections, idleDuration,
             messagesPerSecond == 0.0 && activeConnections == 0 && idleDuration >= idleTimeout)
  }

  function SaturatingSub(a: nat, b: nat): nat {
    if a >= b then a - b else 0
  }

  function Evaluate(snapshot: Snapshot, cfg: Config, current: int, lastScaleUp: Option<nat>, now: nat): Decision {
    if !cfg.enabled then Decision(NoAction, current)
    else if current == 0 && !snapshot.isIdle then Decision(Activate, cfg.minActiveReplicas)
    else if lastScaleUp.Some? && SaturatingSub(now, lastScaleUp.value) < cfg.cooldown then Decision(InCooldown, current)
    else if snapshot.isIdle && snapshot.idleDuration >= cfg.idleTimeout then Decision(ScaleToZero, 0)
    else Decision(NoAction, current)
  }

  /** One tick: when the snapshot was taken and when it was evaluated, what was
      seen, and whether patching the StatefulSet succeeded. */
  datatype Tick = Tick(
    snapshotAt: nat, at: nat, messagesPerSecond: real, activeConnections: nat,
    lastActivity: int, applied: bool)
  {
    predicate Active() {
      messagesPerSecond != 0.0 || activeConnections != 0
    }
  }

  datatype Deployment = Deployment(replicas: int, lastScaleUp: Option<nat>)

  function Decide(cfg: Config, d: Deployment, t: Tick): Decision {
    Evaluate(BuildActivitySnapshot(t.snapshotAt, t.messagesPerSecond, t.activeConnections, t.lastActivity,
        cfg.idleTimeout),
             cfg, d.replicas, d.lastScaleUp, t.at)
  }

  /** Only the two scaling actions patch the StatefulSet; the caller records the
      time of each activation. */
  function Step(cfg: Config, d: Deployment, t: Tick): Deployment {
    var decision := Decide(cfg, d, t);
    Deployment(
      if t.applied && (decision.action.ScaleToZero? || decision.action.Activate?)
      then decision.targetReplicas else d.replicas,
      if decision.action.Activate? then Some(t.at) else d.lastScaleUp)
  }

  function After(cfg: Config, d: Deployment, ticks: seq<Tick>): Deployment {
    if ticks == [] then d else Step(cfg, After(cfg, d, ticks[..|ticks| - 1]), ticks[|ticks| - 1])
  }

  /** Clocks and the last activity never go back. */
  predicate Forward(ticks: seq<Tick>) {
    && (forall k | 0 <= k < |ticks| :: ticks[k].snapshotAt <= ticks[k].at)
    && (forall j, k | 0 <= j < k < |ticks| ::
          ticks[j].at <= ticks[k].snapshotAt && ticks[j].lastActivity <= ticks[k].lastActivity)
  }

  lemma AfterOne(cfg: Config, d: Deployment, ticks: seq<Tick>, k: nat)
    requires k < |ticks|
    ensures After(cfg, d, ticks[..k + 1]) == Step(cfg, After(cfg, d, ticks[..k]), ticks[k])
  {
    assert ticks[..k + 1][..k] == ticks[..k];
  }

  predicate Activates(cfg: Config, d: Deployment, ticks: seq<Tick>, k: nat)
    requires k < |ticks|
  {
    Decide(cfg, After(cfg, d, ticks[..k]), ticks[k]).action.Activate?
  }

  predicate GoesToZero(cfg: Config, d: Deployment, ticks: seq<Tick>, k: nat)
    requires k < |ticks|
  {
    After(cfg, d, ticks[..k]).replicas > 0 && After(cfg, d, ticks[..k + 1]).replicas == 0
  }

  lemma {:induction false} ActivationIsRemembered(cfg: Config, d: Deployment, ticks: seq<Tick>, j: nat, k: nat)
    requires Forward(ticks) && j < k <= |ticks| && Activates(cfg, d, ticks, j)
    ensures After(cfg, d, ticks[..k]).lastScaleUp.Some?
    ensures ticks[j].at <= After(cfg, d, ticks[..k]).lastScaleUp.value
    decreases k
  {
    AfterOne(cfg, d, ticks, k - 1);
    if j < k - 1 {
      assert ticks[j].at <= ticks[k - 1].snapshotAt <= ticks[k - 1].at;
      ActivationIsRemembered(cfg, d, ticks, j, k - 1);
    }
  }

  // ---------------------------------------------------------------------
  // What each tick does
  // ---------------------------------------------------------------------

  /** Nothing connected, nothing flowing, and no activity for the idle timeout. */
  predicate Idle(cfg: Config, t: Tick) {
    && t.messagesPerSecond == 0.0 && t.activeConnections == 0
    && (cfg.idleTimeout == 0 || t.snapshotAt - t.lastActivity >= cfg.idleTimeout)
  }

  /** The last activation is less than the cooldown ago. */
  predicate Cooling(cfg: Config, d: Deployment, t: Tick) {
    cfg.cooldown > 0 && d.lastScaleUp.Some? && t.at - d.lastScaleUp.value < cfg.cooldown
  }

  /** Tick `k` in full: an enabled cluster at zero is activated unless it is idle, whatever
      the cooldown; any other that is idle and not cooling down is told to go to zero; a
      patch that fails leaves the replicas, and an activation is remembered in any case. */
  lemma TickExactly(cfg: Config, d: Deployment, ticks: seq<Tick>, k: nat)
    requires k < |ticks|
    ensures
      var before, after, t := After(cfg, d, ticks[..k]), After(cfg, d, ticks[..k + 1]), ticks[k];
      var activates := cfg.enabled && before.replicas == 0 && !Idle(cfg, t);
      && (Activates(cfg, d, ticks, k) <==> activates)
      && after.lastScaleUp == (if activates then Some(t.at) else before.lastScaleUp)
      && after.replicas == (if activates && t.applied then cfg.minActiveReplicas
                            else if cfg.enabled && t.applied && Idle(cfg, t) && !Cooling(cfg, before, t) then 0
                            else before.replicas)
  {
    AfterOne(cfg, d, ticks, k);
  }

  /** The last activation before tick `k`. */
  function LastActivation(cfg: Config, d: Deployment, ticks: seq<Tick>, k: nat): (r: Option<nat>)
    requires k <= |ticks|
    ensures r.None? <==> forall j: nat | j < k :: !Activates(cfg, d, ticks, j)
    ensures r.Some? ==> r.value < k && Activates(cfg, d, ticks, r.value)
  {
    if k == 0 then None
    else if Activates(cfg, d, ticks, k - 1) then Some(k - 1)
    else LastActivation(cfg, d, ticks, k - 1)
  }

  /** What is remembered is the last activation, or what was remembered at the start. */
  lemma {:induction false} LastIsRemembered(cfg: Config, d: Deployment, ticks: seq<Tick>, k: nat)
    requires k <= |ticks|
    ensures After(cfg, d, ticks[..k]).lastScaleUp
         == match LastActivation(cfg, d, ticks, k) case Some(j) => Some(ticks[j].at) case None => d.lastScaleUp
    decreases k
  {
    if k == 0 {
      assert ticks[..0] == [];
    } else {
      LastIsRemembered(cfg, d, ticks, k - 1);
      TickExactly(cfg, d, ticks, k - 1);
    }
  }

  /** A cluster goes to zero exactly when it is up, the feature is on, the patch works, the
      cluster is idle, and every activation is at least the cooldown ago; one remembered from
      before the first tick counts as long as there is no other. */
  lemma GoesToZeroExactly(cfg: Config, d: Deployment, ticks: seq<Tick>, k: nat)
    requires Forward(ticks) && k < |ticks|
    ensures GoesToZero(cfg, d, ticks, k) <==>
            && After(cfg, d, ticks[..k]).replicas > 0
            && cfg.enabled && ticks[k].applied && Idle(cfg, ticks[k])
            && (forall j: nat | j < k && Activates(cfg, d, ticks, j) :: ticks[k].at - ticks[j].at >= cfg.cooldown)
            && (LastActivation(cfg, d, ticks, k).Some? || !Cooling(cfg, d, ticks[k]))
  {
    TickExactly(cfg, d, ticks, k);
    LastIsRemembered(cfg, d, ticks, k);
    if GoesToZero(cfg, d, ticks, k) {
      NoEarlyScaleDown(cfg, d, ticks, k);
    }
  }

  /** No step from positive replicas to zero within the cooldown of any earlier
      activation, nor within the idle timeout of the last activity. */
  lemma NoEarlyScaleDown(cfg: Config, d: Deployment, ticks: seq<Tick>, k: nat)
    requires Forward(ticks) && k < |ticks| && GoesToZero(cfg, d, ticks, k)
    ensures cfg.enabled && ticks[k].applied && !ticks[k].Active()
    ensures ticks[k].snapshotAt - ticks[k].lastActivity >= cfg.idleTimeout || cfg.idleTimeout == 0
    ensures forall j: nat | j < k && Activates(cfg, d, ticks, j) :: ticks[k].at - ticks[j].at >= cfg.cooldown
  {
    AfterOne(cfg, d, ticks, k);
    forall j: nat | j < k && Activates(cfg, d, ticks, j)
      ensures ticks[k].at - ticks[j].at >= cfg.cooldown
    {
      ActivationIsRemembered(cfg, d, ticks, j, k);
    }
  }

  /** When the caller keeps `lastActivity` current, that means activity seen at any
      earlier tick. */
  lemma NoScaleDownSoonAfterActivity(cfg: Config, d: Deployment, ticks: seq<Tick>, j: nat, k: nat)
    requires Forward(ticks) && j < k < |ticks| && GoesToZero(cfg, d, ticks, k)
    requires ticks[j].Active() && ticks[j].lastActivity >= ticks[j].snapshotAt
    ensures ticks[k].snapshotAt - ticks[j].snapshotAt >= cfg.idleTimeout
  {
    NoEarlyScaleDown(cfg, d, ticks, k);
  }

  /** Nothing new was seen since tick `z`. */
  predicate Quiet(ticks: seq<Tick>, z: nat, k: nat)
    requires z < k < |ticks|
  {
    !ticks[k].Active() && ticks[k].lastActivity == ticks[z].lastActivity
  }

  lemma IdleKeepsZero(cfg: Config, d: Deployment, t: Tick)
    requires d.replicas == 0 && !t.Active()
    requires t.snapshotAt - t.lastActivity >= cfg.idleTimeout || cfg.idleTimeout == 0
    ensures Step(cfg, d, t).replicas == 0
  {
  }

  /** Once scaled to zero, the cluster stays there for as long as nothing new is
      seen, whatever the cooldown and whatever fails. */
  lemma {:induction false} StaysAtZero(cfg: Config, d: Deployment, ticks: seq<Tick>, z: nat, k: nat)
    requires Forward(ticks) && z < k <= |ticks| && GoesToZero(cfg, d, ticks, z)
    requires forall j: nat | z < j < k :: Quiet(ticks, z, j)
    ensures After(cfg, d, ticks[..k]).replicas == 0
    decreases k
  {
    if k > z + 1 {
      var before := After(cfg, d, ticks[..k - 1]);
      assert before.replicas == 0 by { StaysAtZero(cfg, d, ticks, z, k - 1); }
      assert Quiet(ticks, z, k - 1);
      assert ticks[z].snapshotAt <= ticks[z].at <= ticks[k - 1].snapshotAt;
      assert ticks[k - 1].snapshotAt - ticks[k - 1].lastActivity >= cfg.idleTimeout || cfg.idleTimeout == 0 by {
        NoEarlyScaleDown(cfg, d, ticks, z);
      }
      IdleKeepsZero(cfg, before, ticks[k - 1]);
      AfterOne(cfg, d, ticks, k - 1);
    }
  }

  /** The first tick that sees traffic, or a last activity within the timeout,
      activates at once, even inside the cooldown. */
  lemma ActivityActivates(cfg: Config, d: Deployment, ticks: seq<Tick>, z: nat, k: nat)
    requires Forward(ticks) && z < k < |ticks| && GoesToZero(cfg, d, ticks, z)
    requires forall j: nat | z < j < k :: Quiet(ticks, z, j)
    requires ticks[k].Active() || ticks[k].snapshotAt - ticks[k].lastActivity < cfg.idleTimeout
    requires cfg.idleTimeout > 0 || ticks[k].Active()
    ensures Activates(cfg, d, ticks, k)
    ensures ticks[k].applied ==> After(cfg, d, ticks[..k + 1]).replicas == cfg.minActiveReplicas
    ensures After(cfg, d, ticks[..k + 1]).lastScaleUp == Some(ticks[k].at)
  {
    StaysAtZero(cfg, d, ticks, z, k);
    NoEarlyScaleDown(cfg, d, ticks, z);
    AfterOne(cfg, d, ticks, k);
  }

  /** A cluster at zero leaves it in no other way: the tick that ends zero replicas
      is an activation that saw traffic or recent activity. */
  lemma OnlyActivityEndsZero(cfg: Config, d: Deployment, ticks: seq<Tick>, k: nat)
    requires k < |ticks|
    requires After(cfg, d, ticks[..k]).replicas == 0 && After(cfg, d, ticks[..k + 1]).replicas != 0
    ensures Activates(cfg, d, ticks, k)
    ensures ticks[k].Active() || ticks[k].snapshotAt - ticks[k].lastActivity < cfg.idleTimeout
  {
    AfterOne(cfg, d, ticks, k);
  }

  /** The controller's loop over one StatefulSet. */
  class Scaler {
    var replicas: int
    var lastScaleUp: Option<nat>

    constructor (replicas: int, lastScaleUp: Option<nat>)
      ensures this.replicas == replicas && this.lastScaleUp == lastScaleUp
    {
      this.replicas, this.lastScaleUp := replicas, lastScaleUp;
    }

    function State(): Deployment
      reads this
    {
      Deployment(replicas, lastScaleUp)
    }

    /** Patches the replica count, for the two scaling actions only. */
    method ApplyScaleAction(decision: Decision, applied: bool)
      modifies this`replicas
      ensures replicas == if applied && (decision.action.ScaleToZero? || decision.action.Activate?)
                          then decision.targetReplicas else old(replicas)
    {
      if decision.action.NoAction? || decision.action.InCooldown? {
        return;
      }
      if applied {
        replicas := decision.targetReplicas;
      }
    }

    method Poll(cfg: Config, ticks: seq<Tick>)
      modifies this
      ensures State() == After(cfg, old(State()), ticks)
    {
      for k := 0 to |ticks|
        invariant State() == After(cfg, old(State()), ticks[..k])
      {
        AfterOne(cfg, old(State()), ticks, k);
        var t := ticks[k];
        var snapshot := BuildActivitySnapshot(
          t.snapshotAt, t.messagesPerSecond, t.activeConnections, t.lastActivity, cfg.idleTimeout);
        var decision := Evaluate(snapshot, cfg, replicas, lastScaleUp, t.at);
        ApplyScaleAction(decision, t.applied);
        if decision.action.Activate? {
          lastScaleUp := Some(t.at);
        }
      }
      assert ticks[..|ticks|] == ticks;
    }
  }
}
