/** Building a status from the one already published, and patching it only when
    it differs: the rule the three controllers share. */
module StatusPublication {
  import opened Prelude
  import opened Conditions

  /** `body` is everything except the conditions and the time of the last change. */
  datatype Status<B> = Status(body: B, conditions: seq<Condition>, lastUpdated: Option<Time>)

  /** What one reconcile decides from its inputs. `owned` lists the only condition
      types to seed from, for the controller that drops foreign ones. */
  datatype Desired<B> = Desired(body: B, updates: seq<Update>, owned: Option<seq<ConditionType>>)

  /** One reconcile reads the clock for each condition and once more at the end. */
  datatype Clock = Clock(readings: seq<Time>, end: Time)

  function Keep(cs: seq<Condition>, owned: Option<seq<ConditionType>>): seq<Condition> {
    if owned.None? then cs
    else if cs == [] then []
    else if cs[0].kind in owned.value then [cs[0]] + Keep(cs[1..], owned)
    else Keep(cs[1..], owned)
  }

  function Seeded<B>(prior: Option<Status<B>>, owned: Option<seq<ConditionType>>): seq<Condition> {
    if prior.None? then [] else Keep(prior.value.conditions, owned)
  }

  function SetAll(cs: seq<Condition>, us: seq<Update>, readings: seq<Time>): seq<Condition>
    requires |us| == |readings|
    decreases |us|
  {
    if us == [] then cs
    else SetAll(SetCondition(cs, BuildCondition(us[0], readings[0])), us[1..], readings[1..])
  }

  /** `lastUpdated` moves only when the rest of the status does. */
  function WithStableTimestamp<B(==)>(prior: Option<Status<B>>, status: Status<B>, now: Time): Status<B> {
    var semanticChange := prior.None? || prior.value.(lastUpdated := None) != status;
    status.(lastUpdated := if semanticChange then Some(now) else prior.value.lastUpdated)
  }

  function Build<B(==)>(prior: Option<Status<B>>, d: Desired<B>, clock: Clock): Status<B>
    requires |clock.readings| == |d.updates|
  {
    WithStableTimestamp(
      prior, Status(d.body, SetAll(Seeded(prior, d.owned), d.updates, clock.readings), None), clock.end)
  }

  /** Each condition type is set once, and only owned types are set. */
  predicate WellFormed<B>(d: Desired<B>) {
    && (forall j, k | 0 <= j < k < |d.updates| :: d.updates[j].kind != d.updates[k].kind)
    && (d.owned.Some? ==> forall u <- d.updates :: u.kind in d.owned.value)
  }

  // ---------------------------------------------------------------------
  // Repeating a reconcile
  // ---------------------------------------------------------------------

  /** The first condition of the update's type already says what the update says. */
  predicate SettledOn(cs: seq<Condition>, u: Update) {
    var c := Find(cs, u.kind);
    c.Some? && c.value.status == u.status && c.value.reason == Some(u.reason) && c.value.message == Some(u.message)
  }

  lemma {:induction false} SettledSetIsIdentity(cs: seq<Condition>, u: Update, now: Time)
    requires SettledOn(cs, u)
    ensures SetCondition(cs, BuildCondition(u, now)) == cs
  {
    if cs[0].kind != u.kind {
      SettledSetIsIdentity(cs[1..], u, now);
    }
  }

  lemma {:induction false} SetAllSettledIsIdentity(cs: seq<Condition>, us: seq<Update>, readings: seq<Time>)
    requires |us| == |readings| && forall u <- us :: SettledOn(cs, u)
    ensures SetAll(cs, us, readings) == cs
    decreases |us|
  {
    if us != [] {
      SettledSetIsIdentity(cs, us[0], readings[0]);
      SetAllSettledIsIdentity(cs, us[1..], readings[1..]);
    }
  }

  lemma {:induction false} SetAllLeavesOthers(cs: seq<Condition>, us: seq<Update>, readings: seq<Time>,
      kind: ConditionType)
    requires |us| == |readings| && forall u <- us :: u.kind != kind
    ensures Find(SetAll(cs, us, readings), kind) == Find(cs, kind)
    decreases |us|
  {
    if us != [] {
      SetThenFind(cs, BuildCondition(us[0], readings[0]), kind);
      SetAllLeavesOthers(SetCondition(cs, BuildCondition(us[0], readings[0])), us[1..], readings[1..], kind);
    }
  }

  lemma {:induction false} SetAllSettles(cs: seq<Condition>, us: seq<Update>, readings: seq<Time>)
    requires |us| == |readings|
    requires forall j, k | 0 <= j < k < |us| :: us[j].kind != us[k].kind
    ensures forall u <- us :: SettledOn(SetAll(cs, us, readings), u)
    decreases |us|
  {
    if us != [] {
      var first := SetCondition(cs, BuildCondition(us[0], readings[0]));
      SetAllSettles(first, us[1..], readings[1..]);
      SetThenFind(cs, BuildCondition(us[0], readings[0]), us[0].kind);
      forall u <- us[1..]
        ensures u.kind != us[0].kind
      {
        var k :| 0 < k < |us| && us[k] == u;
      }
      SetAllLeavesOthers(first, us[1..], readings[1..], us[0].kind);
    }
  }

  predicate Owns(cs: seq<Condition>, owned: Option<seq<ConditionType>>) {
    owned.Some? ==> forall c <- cs :: c.kind in owned.value
  }

  lemma {:induction false} KeepOwns(cs: seq<Condition>, owned: Option<seq<ConditionType>>)
    ensures Owns(Keep(cs, owned), owned)
  {
    if owned.Some? && cs != [] {
      KeepOwns(cs[1..], owned);
    }
  }

  lemma {:induction false} KeepOwnedIsIdentity(cs: seq<Condition>, owned: Option<seq<ConditionType>>)
    requires Owns(cs, owned)
    ensures Keep(cs, owned) == cs
  {
    if owned.Some? && cs != [] {
      KeepOwnedIsIdentity(cs[1..], owned);
    }
  }

  /** Seeding keeps every condition of an owned type, duplicates included, and drops all the
      others; without a list of owned types it keeps everything. */
  lemma {:induction false} KeepExactly(cs: seq<Condition>, owned: Option<seq<ConditionType>>)
    ensures forall c: Condition ::
              multiset(Keep(cs, owned))[c] == if owned.None? || c.kind in owned.value then multiset(cs)[c] else 0
  {
    if owned.Some? && cs != [] {
      KeepExactly(cs[1..], owned);
      assert cs == [cs[0]] + cs[1..];
    }
  }

  /** And it goes piece by piece, so what is kept stays in order. */
  lemma {:induction false} KeepOfConcat(a: seq<Condition>, b: seq<Condition>, owned: Option<seq<ConditionType>>)
    ensures Keep(a + b, owned) == Keep(a, owned) + Keep(b, owned)
  {
    if owned.Some? && a != [] {
      assert (a + b)[1..] == a[1..] + b;
      KeepOfConcat(a[1..], b, owned);
    } else {
      assert a == [] ==> a + b == b;
    }
  }

  lemma {:induction false} SetAllOwns(cs: seq<Condition>, us: seq<Update>, readings: seq<Time>,
      owned: Option<seq<ConditionType>>)
    requires |us| == |readings| && Owns(cs, owned)
    requires owned.Some? ==> forall u <- us :: u.kind in owned.value
    ensures Owns(SetAll(cs, us, readings), owned)
    decreases |us|
  {
    if us != [] {
      SetOwns(cs, BuildCondition(us[0], readings[0]), owned);
      SetAllOwns(SetCondition(cs, BuildCondition(us[0], readings[0])), us[1..], readings[1..], owned);
    }
  }

  lemma {:induction false} SetOwns(cs: seq<Condition>, c: Condition, owned: Option<seq<ConditionType>>)
    requires Owns(cs, owned) && (owned.Some? ==> c.kind in owned.value)
    ensures Owns(SetCondition(cs, c), owned)
  {
    if cs != [] && cs[0].kind != c.kind {
      SetOwns(cs[1..], c, owned);
    }
  }

  /** The published status already says everything the reconcile would publish. */
  predicate Settled<B(==)>(prior: Option<Status<B>>, d: Desired<B>) {
    && prior.Some?
    && prior.value.body == d.body
    && Owns(prior.value.conditions, d.owned)
    && (forall u <- d.updates :: SettledOn(prior.value.conditions, u))
  }

  lemma BuildSettles<B>(prior: Option<Status<B>>, d: Desired<B>, clock: Clock)
    requires WellFormed(d) && |clock.readings| == |d.updates|
    ensures Settled(Some(Build(prior, d, clock)), d)
  {
    var seed := Seeded(prior, d.owned);
    if prior.Some? {
      KeepOwns(prior.value.conditions, d.owned);
    }
    SetAllSettles(seed, d.updates, clock.readings);
    SetAllOwns(seed, d.updates, clock.readings, d.owned);
  }

  lemma SettledBuildIsIdentity<B>(prior: Option<Status<B>>, d: Desired<B>, clock: Clock)
    requires Settled(prior, d) && |clock.readings| == |d.updates|
    ensures Build(prior, d, clock) == prior.value
  {
    KeepOwnedIsIdentity(prior.value.conditions, d.owned);
    SetAllSettledIsIdentity(prior.value.conditions, d.updates, clock.readings);
  }

  /** From any prior status, with duplicate or foreign conditions and whatever the
      clocks say, a second reconcile on the same inputs builds the same status. */
  lemma RepeatedReconcileIsQuiet<B>(prior: Option<Status<B>>, d: Desired<B>, first: Clock, second: Clock)
    requires WellFormed(d) && |first.readings| == |second.readings| == |d.updates|
    ensures Build(Some(Build(prior, d, first)), d, second) == Build(prior, d, first)
  {
    BuildSettles(prior, d, first);
    SettledBuildIsIdentity(Some(Build(prior, d, first)), d, second);
  }

  /** Two desired statuses that set the same condition types in the same order, as all
      those of one controller do. */
  predicate SameShape<B>(d: Desired<B>, e: Desired<B>) {
    && d.owned == e.owned
    && |d.updates| == |e.updates|
    && forall k | 0 <= k < |d.updates| :: d.updates[k].kind == e.updates[k].kind
  }

  /** No status says everything two different desired ones say. */
  lemma SettledOnOne<B>(prior: Option<Status<B>>, d: Desired<B>, e: Desired<B>)
    requires SameShape(d, e) && Settled(prior, d) && Settled(prior, e)
    ensures d == e
  {
    forall k | 0 <= k < |d.updates|
      ensures d.updates[k] == e.updates[k]
    {
      assert d.updates[k] in d.updates && e.updates[k] in e.updates;
    }
    assert d.updates == e.updates;
  }

  /** A pass leaves the published status alone exactly when it already says everything. */
  lemma QuietExactlyWhenSettled<B>(prior: Option<Status<B>>, d: Desired<B>, clock: Clock)
    requires WellFormed(d) && |clock.readings| == |d.updates|
    ensures prior == Some(Build(prior, d, clock)) <==> Settled(prior, d)
  {
    BuildSettles(prior, d, clock);
    if Settled(prior, d) {
      SettledBuildIsIdentity(prior, d, clock);
    }
  }

  /** A pass after another is quiet if and only if both set out to say the same. */
  lemma QuietExactly<B>(prior: Option<Status<B>>, d: Desired<B>, e: Desired<B>, first: Clock, second: Clock)
    requires WellFormed(d) && WellFormed(e) && SameShape(d, e)
    requires |first.readings| == |second.readings| == |d.updates|
    ensures Build(Some(Build(prior, d, first)), e, second) == Build(prior, d, first) <==> d == e
  {
    var published := Some(Build(prior, d, first));
    BuildSettles(prior, d, first);
    QuietExactlyWhenSettled(published, e, second);
    if Settled(published, e) {
      SettledOnOne(published, d, e);
    }
  }

  // ---------------------------------------------------------------------
  // Times
  // ---------------------------------------------------------------------

  /** When `lastUpdated` moves: to the last reading of the clock whenever there was no status
      or the body or the conditions came out different, and not otherwise. */
  lemma LastUpdatedExactly<B>(prior: Option<Status<B>>, d: Desired<B>, clock: Clock)
    requires |clock.readings| == |d.updates|
    ensures
      var built := Build(prior, d, clock);
      built.lastUpdated ==
        if prior.None? || built.body != prior.value.body || built.conditions != prior.value.conditions
        then Some(clock.end) else prior.value.lastUpdated
  {
  }

  /** The condition an update leaves carries its own reading of the clock when it is new or
      its status flipped, and the time it had otherwise; a condition of a type without an
      update is as it was. */
  lemma {:induction false} TransitionsExactly(cs: seq<Condition>, us: seq<Update>, readings: seq<Time>, k: nat)
    requires |us| == |readings| && k < |us|
    requires forall i, j | 0 <= i < j < |us| :: us[i].kind != us[j].kind
    ensures
      var before, after := Find(cs, us[k].kind), Find(SetAll(cs, us, readings), us[k].kind);
      after.Some? && after.value.lastTransition ==
        if before.None? || before.value.status != us[k].status then Some(readings[k]) else before.value.lastTransition
    decreases |us|
  {
    var first := SetCondition(cs, BuildCondition(us[0], readings[0]));
    SetThenFind(cs, BuildCondition(us[0], readings[0]), us[k].kind);
    if k == 0 {
      forall u <- us[1..]
        ensures u.kind != us[0].kind
      {
        var j :| 0 < j < |us| && us[j] == u;
      }
      SetAllLeavesOthers(first, us[1..], readings[1..], us[0].kind);
    } else {
      TransitionsExactly(first, us[1..], readings[1..], k - 1);
    }
  }

  // ---------------------------------------------------------------------
  // Duplicates in the prior status
  // ---------------------------------------------------------------------

  /** Every condition of the type has the status. */
  predicate AllSay(cs: seq<Condition>, kind: ConditionType, status: ConditionStatus) {
    forall c <- cs | c.kind == kind :: c.status == status
  }

  /** Every condition of the type but the first, which is the one updates act on. */
  predicate RestSay(cs: seq<Condition>, kind: ConditionType, status: ConditionStatus) {
    cs != [] ==> if cs[0].kind == kind then AllSay(cs[1..], kind, status) else RestSay(cs[1..], kind, status)
  }

  lemma {:induction false} AllIsFirstAndRest(cs: seq<Condition>, kind: ConditionType, status: ConditionStatus)
    ensures AllSay(cs, kind, status)
       <==> (Find(cs, kind).Some? ==> Find(cs, kind).value.status == status) && RestSay(cs, kind, status)
  {
    if cs != [] {
      AllIsFirstAndRest(cs[1..], kind, status);
      assert cs == [cs[0]] + cs[1..];
    }
  }

  /** No update reaches past the first condition of its type. */
  lemma {:induction false} SetKeepsRest(cs: seq<Condition>, c: Condition, kind: ConditionType, status: ConditionStatus)
    ensures RestSay(SetCondition(cs, c), kind, status) <==> RestSay(cs, kind, status)
  {
    if cs == [] {
      assert [c][1..] == [];
    } else if cs[0].kind != c.kind {
      SetKeepsRest(cs[1..], c, kind, status);
      if cs[0].kind == kind {
        var rest := SetCondition(cs[1..], c);
        SetThenFind(cs[1..], c, kind);
        AllIsFirstAndRest(cs[1..], kind, status);
        AllIsFirstAndRest(rest, kind, status);
      }
    }
  }

  lemma {:induction false} SetAllKeepsRest(cs: seq<Condition>, us: seq<Update>, readings: seq<Time>,
      kind: ConditionType, status: ConditionStatus)
    requires |us| == |readings|
    ensures RestSay(SetAll(cs, us, readings), kind, status) <==> RestSay(cs, kind, status)
    decreases |us|
  {
    if us != [] {
      var c := BuildCondition(us[0], readings[0]);
      SetKeepsRest(cs, c, kind, status);
      SetAllKeepsRest(SetCondition(cs, c), us[1..], readings[1..], kind, status);
    }
  }

  lemma {:induction false} NoDuplicatesNoRest(cs: seq<Condition>, kind: ConditionType, status: ConditionStatus)
    requires Distinct(Kinds(cs))
    ensures RestSay(cs, kind, status)
  {
    if cs != [] {
      KindsAt(cs);
      KindsAt(cs[1..]);
      assert forall j | 0 <= j < |cs| - 1 :: Kinds(cs)[j + 1] == Kinds(cs[1..])[j];
      if cs[0].kind == kind {
        assert forall k | 0 < k < |cs| :: Kinds(cs)[0] != Kinds(cs)[k];
      } else {
        NoDuplicatesNoRest(cs[1..], kind, status);
      }
    }
  }

  /** For every prior status and every update: all the conditions of the update's type
      say what it says exactly when those of the prior status past the first already
      did. Without duplicates that is always so. */
  lemma AllSayExactly<B>(prior: Option<Status<B>>, d: Desired<B>, clock: Clock, u: Update)
    requires WellFormed(d) && |clock.readings| == |d.updates| && u in d.updates
    ensures AllSay(Build(prior, d, clock).conditions, u.kind, u.status)
       <==> RestSay(Seeded(prior, d.owned), u.kind, u.status)
    ensures Distinct(Kinds(Seeded(prior, d.owned))) ==> AllSay(Build(prior, d, clock).conditions, u.kind, u.status)
  {
    var seed := Seeded(prior, d.owned);
    BuildSettles(prior, d, clock);
    SetAllKeepsRest(seed, d.updates, clock.readings, u.kind, u.status);
    AllIsFirstAndRest(Build(prior, d, clock).conditions, u.kind, u.status);
    if Distinct(Kinds(seed)) {
      NoDuplicatesNoRest(seed, u.kind, u.status);
    }
  }

  lemma {:induction false} SetAllKeepsDistinct(cs: seq<Condition>, us: seq<Update>, readings: seq<Time>)
    requires |us| == |readings| && Distinct(Kinds(cs))
    ensures Distinct(Kinds(SetAll(cs, us, readings)))
    decreases |us|
  {
    if us != [] {
      var c := BuildCondition(us[0], readings[0]);
      SetKeepsOrder(cs, c);
      SetAllKeepsDistinct(SetCondition(cs, c), us[1..], readings[1..]);
    }
  }

  // ---------------------------------------------------------------------
  // Whole runs
  // ---------------------------------------------------------------------

  /** One reconcile of a run, and the fate of the patch it may send. */
  datatype Pass<B> = Pass(desired: Desired<B>, clock: Clock, fault: Fault) {
    predicate Valid() {
      WellFormed(desired) && |clock.readings| == |desired.updates|
    }
  }

  /** Reconciles whose inputs differ from those of the one before, counting the
      first. */
  function Changes<B(==)>(passes: seq<Pass<B>>): nat {
    if passes == [] then 0
    else
      var n := |passes| - 1;
      Changes(passes[..n]) + (if n > 0 && passes[n - 1].desired == passes[n].desired then 0 else 1)
  }

  function Published<B(==)>(prior: Option<Status<B>>, passes: seq<Pass<B>>): Option<Status<B>>
    requires forall p <- passes :: p.Valid()
  {
    if passes == [] then prior
    else
      var n := |passes| - 1;
      var before := Published(prior, passes[..n]);
      assert passes[n].Valid();
      var built := Build(before, passes[n].desired, passes[n].clock);
      if before != Some(built) && passes[n].fault.TakesEffect() then Some(built) else before
  }

  /** Patches that took effect. */
  function Patches<B(==)>(prior: Option<Status<B>>, passes: seq<Pass<B>>): nat
    requires forall p <- passes :: p.Valid()
  {
    if passes == [] then 0
    else
      var n := |passes| - 1;
      var before := Published(prior, passes[..n]);
      assert passes[n].Valid();
      var patched := before != Some(Build(before, passes[n].desired, passes[n].clock)) && passes[n].fault.TakesEffect();
      Patches(prior, passes[..n]) + (if patched then 1 else 0)
  }

  lemma {:induction false} PatchesKeepPace<B>(prior: Option<Status<B>>, passes: seq<Pass<B>>)
    requires passes != [] && forall p <- passes :: p.Valid()
    ensures Patches(prior, passes)
            + (if Settled(Published(prior, passes), passes[|passes| - 1].desired) then 0 else 1)
         <= Changes(passes)
  {
    var n := |passes| - 1;
    var before, p := Published(prior, passes[..n]), passes[n];
    assert p.Valid();
    BuildSettles(before, p.desired, p.clock);
    if n > 0 {
      PatchesKeepPace(prior, passes[..n]);
      if Settled(before, p.desired) {
        SettledBuildIsIdentity(before, p.desired, p.clock);
      }
    }
  }

  /** Over any run, with patches failing before or after taking effect, the status
      changes at most as often as what is to be said does: publishing a status is no
      reason of its own to publish again. */
  lemma PatchesFollowInputs<B>(prior: Option<Status<B>>, passes: seq<Pass<B>>)
    requires forall p <- passes :: p.Valid()
    ensures Patches(prior, passes) <= Changes(passes)
  {
    if passes != [] {
      PatchesKeepPace(prior, passes);
    }
  }

  lemma PublishedSettles<B>(prior: Option<Status<B>>, passes: seq<Pass<B>>)
    requires passes != [] && (forall p <- passes :: p.Valid()) && passes[|passes| - 1].fault.TakesEffect()
    ensures Settled(Published(prior, passes), passes[|passes| - 1].desired)
  {
    var n := |passes| - 1;
    var before, p := Published(prior, passes[..n]), passes[n];
    assert p.Valid();
    BuildSettles(before, p.desired, p.clock);
  }

  lemma OneMorePass<B>(prior: Option<Status<B>>, passes: seq<Pass<B>>)
    requires passes != [] && (forall p <- passes :: p.Valid()) && passes[|passes| - 1].fault.TakesEffect()
    ensures
      var n := |passes| - 1;
      Patches(prior, passes)
      == Patches(prior, passes[..n]) + (if Settled(Published(prior, passes[..n]), passes[n].desired) then 0 else 1)
  {
    var n := |passes| - 1;
    var before, p := Published(prior, passes[..n]), passes[n];
    assert p.Valid();
    QuietExactlyWhenSettled(before, p.desired, p.clock);
  }

  /** When patches take effect, the bound is exact: every change of the inputs patches,
      save that the first pass does not where the prior status already said it all. */
  lemma {:induction false} PatchesExactly<B>(prior: Option<Status<B>>, passes: seq<Pass<B>>)
    requires passes != []
    requires forall p <- passes :: p.Valid() && p.fault.TakesEffect() && SameShape(passes[0].desired, p.desired)
    ensures Patches(prior, passes) + (if Settled(prior, passes[0].desired) then 1 else 0) == Changes(passes)
    decreases |passes|
  {
    var n := |passes| - 1;
    assert passes[n].Valid();
    OneMorePass(prior, passes);
    if n > 0 {
      assert passes[n - 1].Valid() && passes[..n][n - 1] == passes[n - 1];
      PatchesExactly(prior, passes[..n]);
      SettledExactlyOnRepeat(prior, passes[..n], passes[n].desired);
    }
  }

  /** After a pass that took effect, what a further pass would say is settled exactly when
      it repeats the pass. */
  lemma SettledExactlyOnRepeat<B>(prior: Option<Status<B>>, passes: seq<Pass<B>>, d: Desired<B>)
    requires passes != [] && (forall p <- passes :: p.Valid()) && passes[|passes| - 1].fault.TakesEffect()
    requires SameShape(passes[|passes| - 1].desired, d)
    ensures Settled(Published(prior, passes), d) <==> passes[|passes| - 1].desired == d
  {
    PublishedSettles(prior, passes);
    if Settled(Published(prior, passes), d) {
      SettledOnOne(Published(prior, passes), passes[|passes| - 1].desired, d);
    }
  }

  /** What one more pass publishes: what it builds, unless its patch is lost. */
  lemma OnePassPublishes<B>(prior: Option<Status<B>>, passes: seq<Pass<B>>, p: Pass<B>)
    requires (forall q <- passes :: q.Valid()) && p.Valid()
    ensures
      var before := Published(prior, passes);
      assert forall q <- passes + [p] :: q.Valid();
      Published(prior, passes + [p])
      == if p.fault.LostBefore? then before else Some(Build(before, p.desired, p.clock))
  {
    assert (passes + [p])[..|passes|] == passes;
  }

  /** Pass `k` of a run changes the published status. */
  predicate PatchesAt<B(==)>(prior: Option<Status<B>>, passes: seq<Pass<B>>, k: nat)
    requires k < |passes| && forall p <- passes :: p.Valid()
  {
    Published(prior, passes[..k + 1]) != Published(prior, passes[..k])
  }

  lemma PassStamps<B>(prior: Option<Status<B>>, passes: seq<Pass<B>>, k: nat)
    requires k < |passes| && (forall p <- passes :: p.Valid()) && PatchesAt(prior, passes, k)
    ensures
      var after := Published(prior, passes[..k + 1]);
      after.Some? && after.value.lastUpdated == Some(passes[k].clock.end)
  {
    var p, before := passes[k], Published(prior, passes[..k]);
    assert p.Valid() && passes[..k + 1][..k] == passes[..k];
    LastUpdatedExactly(before, p.desired, p.clock);
  }

  lemma {:induction false} QuietStretch<B>(prior: Option<Status<B>>, passes: seq<Pass<B>>, k: nat, m: nat)
    requires k <= m <= |passes| && forall p <- passes :: p.Valid()
    requires forall j | k <= j < m :: !PatchesAt(prior, passes, j)
    ensures Published(prior, passes[..m]) == Published(prior, passes[..k])
    decreases m
  {
    if k < m {
      QuietStretch(prior, passes, k, m - 1);
      assert !PatchesAt(prior, passes, m - 1);
    }
  }

  /** Over any run, `lastUpdated` is the last reading of the last pass whose patch took
      effect, and that of the prior status when none did. */
  lemma LastUpdatedIsLastPatch<B>(prior: Option<Status<B>>, passes: seq<Pass<B>>)
    requires forall p <- passes :: p.Valid()
    ensures forall k | 0 <= k < |passes| && PatchesAt(prior, passes, k)
                       && (forall j | k < j < |passes| :: !PatchesAt(prior, passes, j)) ::
              Published(prior, passes).Some?
              && Published(prior, passes).value.lastUpdated == Some(passes[k].clock.end)
    ensures (forall j | 0 <= j < |passes| :: !PatchesAt(prior, passes, j)) ==> Published(prior, passes) == prior
  {
    assert passes[..|passes|] == passes && passes[..0] == [];
    forall k | 0 <= k < |passes| && PatchesAt(prior, passes, k)
               && (forall j | k < j < |passes| :: !PatchesAt(prior, passes, j))
      ensures Published(prior, passes).Some?
      ensures Published(prior, passes).value.lastUpdated == Some(passes[k].clock.end)
    {
      PassStamps(prior, passes, k);
      QuietStretch(prior, passes, k + 1, |passes|);
    }
    if forall j | 0 <= j < |passes| :: !PatchesAt(prior, passes, j) {
      QuietStretch(prior, passes, 0, |passes|);
    }
  }

  /** The published object and the rule that patches it. */
  class Publisher<B(==)> {
    var published: Option<Status<B>>
    var patches: nat

    constructor (prior: Option<Status<B>>)
      ensures published == prior && patches == 0
    {
      published, patches := prior, 0;
    }

    method PatchStatusIfChanged(status: Status<B>, fault: Fault) returns (ok: bool)
      modifies this
      ensures published == if fault.TakesEffect() then Some(status) else old(published)
      ensures patches == if old(published) != Some(status) && fault.TakesEffect() then old(patches) + 1
          else old(patches)
      ensures ok <==> old(published) == Some(status) || fault.Delivered?
    {
      if published == Some(status) {
        return true;
      }
      if fault.TakesEffect() {
        published, patches := Some(status), patches + 1;
      }
      ok := fault.Delivered?;
    }

    method Run(passes: seq<Pass<B>>)
      requires patches == 0
      requires forall p <- passes :: p.Valid()
      modifies this
      ensures published == Published(old(published), passes)
      ensures patches == Patches(old(published), passes) <= Changes(passes)
    {
      ghost var prior := published;
      for k := 0 to |passes|
        invariant forall p <- passes[..k] :: p.Valid()
        invariant published == Published(prior, passes[..k])
        invariant patches == Patches(prior, passes[..k])
      {
        assert passes[..k + 1][..k] == passes[..k];
        assert passes[k].Valid();
        var p := passes[k];
        var list := new ConditionList(Seeded(published, p.desired.owned));
        ghost var seed := list.items;
        for i := 0 to |p.desired.updates|
          invariant SetAll(list.items, p.desired.updates[i..], p.clock.readings[i..])
                 == SetAll(seed, p.desired.updates, p.clock.readings)
          invariant published == Published(prior, passes[..k]) && patches == Patches(prior, passes[..k])
        {
          assert p.desired.updates[i..][1..] == p.desired.updates[i + 1..];
          assert p.clock.readings[i..][1..] == p.clock.readings[i + 1..];
          list.Set(BuildCondition(p.desired.updates[i], p.clock.readings[i]));
        }
        var status := WithStableTimestamp(published, Status(p.desired.body, list.items, None), p.clock.end);
        assert status == Build(published, p.desired, p.clock);
        var _ := PatchStatusIfChanged(status, p.fault);
      }
      assert passes[..|passes|] == passes;
      PatchesFollowInputs(prior, passes);
    }
  }
}
