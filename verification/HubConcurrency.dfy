/** Concurrent callers of the hub: the check of an install and its insert are separate
    steps, and anything may happen in between. */
module HubConcurrency {
  import opened Prelude
  import opened OperatorHubs

  /** A caller that passed the check holds the record it is about to insert. */
  datatype Caller = Idle | Checked(op: InstalledOperator)

  datatype Hub = Hub(operators: Registry, config: HubConfig, installed: Installed, callers: seq<Caller>)

  datatype Event =
    | Check(caller: nat, name: string, now: Time)
    | Insert(caller: nat)
    | Uninstall(name: string)
    | Upgrade(name: string, now: Time)

  function New(operators: Registry, config: HubConfig, k: nat): Hub {
    Hub(operators, config, map[], seq(k, _ => Idle))
  }

  function Step(h: Hub, e: Event): Hub {
    match e
    case Check(c, name, now) =>
      if c >= |h.callers| || h.callers[c].Checked? then h
      else
        var r := CheckInstall(h.operators, h.installed, h.config, name, now);
        if r.Ok? then h.(callers := h.callers[c := Checked(r.value)]) else h
    case Insert(c) =>
      if c >= |h.callers| || h.callers[c].Idle? then h
      else
        var op := h.callers[c].op;
        h.(installed := h.installed[op.name := op], callers := h.callers[c := Idle])
    case Uninstall(name) =>
      h.(installed := Uninstalled(h.installed, name))
    case Upgrade(name, now) =>
      var r := UpgradeDecision(h.operators, h.installed, name, now);
      if r.Ok? then h.(installed := h.installed[name := r.value]) else h
  }

  function Run(h: Hub, events: seq<Event>): Hub {
    if events == [] then h else Step(Run(h, events[..|events| - 1]), events[|events| - 1])
  }

  /** The callers past the check whose insert is still to come. */
  function InFlight(callers: seq<Caller>): (n: nat)
    ensures n <= |callers|
  {
    if callers == [] then 0
    else InFlight(callers[..|callers| - 1]) + (if callers[|callers| - 1].Checked? then 1 else 0)
  }

  lemma {:induction false} InFlightUpdated(callers: seq<Caller>, c: nat, x: Caller)
    requires c < |callers|
    ensures InFlight(callers[c := x]) + (if callers[c].Checked? then 1 else 0)
         == InFlight(callers) + (if x.Checked? then 1 else 0)
  {
    var n := |callers| - 1;
    if c == n {
      assert callers[c := x][..n] == callers[..n];
    } else {
      assert callers[c := x][..n] == callers[..n][c := x];
      InFlightUpdated(callers[..n], c, x);
    }
  }

  // ---------------------------------------------------------------------
  // What every interleaving keeps
  // ---------------------------------------------------------------------

  /** The hub would let the operator in. */
  predicate LetsIn(ops: Registry, config: HubConfig, name: string) {
    name in ops && (config.requireVerified ==> ops[name].verified)
  }

  /** The record is of an operator the hub lets in, at the registry's version. */
  predicate IsCurrent(ops: Registry, config: HubConfig, op: InstalledOperator) {
    LetsIn(ops, config, op.name) && op.version == ops[op.name].version
  }

  predicate Inv(h: Hub) {
    && |h.installed| + InFlight(h.callers)
       <= (if h.config.maxInstalled == 0 then 0 else h.config.maxInstalled - 1 + |h.callers|)
    && (forall name <- h.installed ::
        h.installed[name].name == name && IsCurrent(h.operators, h.config, h.installed[name]))
    && (forall x <- h.callers :: x.Checked? ==> IsCurrent(h.operators, h.config, x.op))
  }

  lemma {:induction false} NobodyInFlight(k: nat)
    ensures InFlight(seq(k, _ => Idle)) == 0
  {
    if k > 0 {
      var all: seq<Caller> := seq(k, _ => Idle);
      var fewer: seq<Caller> := seq(k - 1, _ => Idle);
      assert all[..k - 1] == fewer;
      NobodyInFlight(k - 1);
    }
  }

  lemma NewKeepsInv(ops: Registry, config: HubConfig, k: nat)
    ensures Inv(New(ops, config, k))
  {
    NobodyInFlight(k);
  }

  lemma InsertGrowsByOne(inst: Installed, name: string, op: InstalledOperator)
    ensures |inst[name := op]| <= |inst| + 1
    ensures name in inst ==> |inst[name := op]| == |inst|
    ensures name !in inst ==> |inst[name := op]| == |inst| + 1
  {
    assert inst[name := op].Keys == inst.Keys + {name};
  }

  lemma CheckKeepsInv(h: Hub, c: nat, name: string, now: Time)
    requires Inv(h)
    ensures Inv(Step(h, Check(c, name, now)))
  {
    var r := CheckInstall(h.operators, h.installed, h.config, name, now);
    if c < |h.callers| && h.callers[c].Idle? && r.Ok? {
      InFlightUpdated(h.callers, c, Checked(r.value));
    }
  }

  lemma InsertKeepsInv(h: Hub, c: nat)
    requires Inv(h)
    ensures Inv(Step(h, Insert(c)))
  {
    if c < |h.callers| && h.callers[c].Checked? {
      InFlightUpdated(h.callers, c, Idle);
      assert h.callers[c] in h.callers;
      InsertGrowsByOne(h.installed, h.callers[c].op.name, h.callers[c].op);
    }
  }

  lemma UninstallKeepsInv(h: Hub, name: string)
    requires Inv(h)
    ensures Inv(Step(h, Uninstall(name)))
  {
    assert Uninstalled(h.installed, name).Keys == h.installed.Keys - {name};
  }

  lemma NoUpgrade(h: Hub, name: string, now: Time)
    requires Inv(h)
    ensures Step(h, Upgrade(name, now)) == h
  {
  }

  /** An upgrade of any hub, one that no caller could have reached included: an outdated
      operator gets the registry's version, and everything else stays. */
  lemma UpgradeStepExactly(h: Hub, name: string, now: Time, n: string)
    ensures
      var t := Step(h, Upgrade(name, now));
      var outdated := name in h.operators && name in h.installed
        && h.installed[name].version != h.operators[name].version;
      && t == h.(installed := t.installed)
      && (!outdated || n != name ==> IsSame(h.installed, t.installed, n))
      && (outdated ==> name in t.installed && t.installed[name].version == h.operators[name].version
                       && t.installed[name].lastReconcileAt == Some(now))
  {
    UpgradeExactly(h.operators, h.installed, name, now);
  }

  lemma StepKeepsInv(h: Hub, e: Event)
    requires Inv(h)
    ensures Inv(Step(h, e)) && Step(h, e).operators == h.operators && Step(h, e).config == h.config
    ensures |Step(h, e).callers| == |h.callers|
  {
    match e
    case Check(c, name, now) =>
      CheckKeepsInv(h, c, name, now);
    case Insert(c) =>
      InsertKeepsInv(h, c);
    case Uninstall(name) =>
      UninstallKeepsInv(h, name);
    case Upgrade(name, now) =>
      NoUpgrade(h, name, now);
  }

  lemma {:induction false} RunKeepsInv(h: Hub, events: seq<Event>)
    requires Inv(h)
    ensures Inv(Run(h, events)) && Run(h, events).operators == h.operators && Run(h, events).config == h.config
    ensures |Run(h, events).callers| == |h.callers|
  {
    if events != [] {
      RunKeepsInv(h, events[..|events| - 1]);
      StepKeepsInv(Run(h, events[..|events| - 1]), events[|events| - 1]);
    }
  }

  /** In every interleaving of k callers: the operators installed and about to be
      installed exceed the limit by at most k - 1, and nothing is installed under a
      limit of zero. */
  lemma OverInstallIsBounded(ops: Registry, config: HubConfig, k: nat, events: seq<Event>)
    ensures
      var h := Run(New(ops, config, k), events);
      && |h.installed| + InFlight(h.callers)
         <= (if config.maxInstalled == 0 then 0 else config.maxInstalled - 1 + k)
      && h.installed.Keys <= InstallableNames(ops, config)
  {
    NewKeepsInv(ops, config, k);
    RunKeepsInv(New(ops, config, k), events);
  }

  /** The operators that can be installed at all. */
  function InstallableNames(ops: Registry, config: HubConfig): set<string> {
    set name <- ops | LetsIn(ops, config, name)
  }

  /** The registry never changes, so in every interleaving every installed version is
      the available one: no update is ever listed or counted, and no upgrade ever
      succeeds. */
  lemma NothingIsEverOutdated(ops: Registry, config: HubConfig, k: nat, events: seq<Event>, name: string, now: Time)
    ensures
      var h := Run(New(ops, config, k), events);
      && Outdated(ops, h.installed, h.installed.Keys) == {}
      && UpgradeDecision(ops, h.installed, name, now).Err?
      && (name in h.installed ==> name in ops && h.installed[name].version == ops[name].version)
  {
    NewKeepsInv(ops, config, k);
    RunKeepsInv(New(ops, config, k), events);
  }

  // ---------------------------------------------------------------------
  // The bound is reached
  // ---------------------------------------------------------------------

  predicate Apart(names: seq<string>, i: nat, j: nat) {
    i < j < |names| ==> names[i] != names[j]
  }

  /** Names of different operators the hub would let in. */
  ghost predicate Installable(ops: Registry, config: HubConfig, names: seq<string>) {
    && (forall k: nat | k < |names| :: LetsIn(ops, config, names[k]))
    && (forall i: nat, j: nat :: Apart(names, i, j))
  }

  function Record(ops: Registry, name: string): InstalledOperator
    requires name in ops
  {
    InstalledOperator(name, ops[name].version, "streamline-system", Running, 0, None)
  }

  predicate IsNew(inst: Installed, names: seq<string>, m: nat) {
    m < |names| ==> names[m] !in inst
  }

  /** The first `n` names are installed, the callers from `low` up to `high` hold the
      records of the names from `n` on, and everybody else is idle. */
  ghost predicate Stands(h: Hub, names: seq<string>, n: nat, low: nat, high: nat) {
    && |h.installed| == n
    && (forall m: nat | m >= n :: IsNew(h.installed, names, m))
    && low <= high <= |h.callers|
    && (forall c: nat | c < |h.callers| :: Holds(h, names, n, low, high, c))
  }

  predicate Holds(h: Hub, names: seq<string>, n: nat, low: nat, high: nat, c: nat) {
    c < |h.callers| ==>
      if low <= c < high
      then n + (c - low) < |names| && names[n + (c - low)] in h.operators
           && h.callers[c] == Checked(Record(h.operators, names[n + (c - low)]))
      else h.callers[c].Idle?
  }

  lemma RunMore(h: Hub, events: seq<Event>, e: Event)
    ensures Run(h, events + [e]) == Step(Run(h, events), e)
  {
    assert (events + [e])[..|events|] == events;
  }

  lemma CheckPasses(h: Hub, names: seq<string>, n: nat, c: nat)
    requires Installable(h.operators, h.config, names)
    requires Stands(h, names, n, 0, c) && c < |h.callers| && n + c < |names| && n < h.config.maxInstalled
    ensures
      var h' := Step(h, Check(c, names[n + c], 0));
      && Stands(h', names, n, 0, c + 1)
      && h'.operators == h.operators && h'.config == h.config && |h'.callers| == |h.callers|
  {
    var name := names[n + c];
    assert LetsIn(h.operators, h.config, name) && IsNew(h.installed, names, n + c) && Holds(h, names, n, 0, c, c);
    var h' := Step(h, Check(c, name, 0));
    assert h'.callers == h.callers[c := Checked(Record(h.operators, name))];
    var next := c + 1;
    forall d: nat | d < |h'.callers|
      ensures Holds(h', names, n, 0, next, d)
    {
      assert Holds(h, names, n, 0, c, d);
    }
  }

  lemma InsertLands(h: Hub, names: seq<string>, n: nat, low: nat, high: nat)
    requires Installable(h.operators, h.config, names) && Stands(h, names, n, low, high) && low < high
    ensures
      var h' := Step(h, Insert(low));
      && Stands(h', names, n + 1, low + 1, high)
      && h'.operators == h.operators && h'.config == h.config && |h'.callers| == |h.callers|
  {
    assert Holds(h, names, n, low, high, low) && IsNew(h.installed, names, n);
    var h' := Step(h, Insert(low));
    var op := Record(h.operators, names[n]);
    assert h'.installed == h.installed[names[n] := op] && h'.callers == h.callers[low := Idle];
    InsertGrowsByOne(h.installed, names[n], op);
    forall m: nat | m >= n + 1
      ensures IsNew(h'.installed, names, m)
    {
      assert IsNew(h.installed, names, m) && Apart(names, n, m);
    }
    var more, next := n + 1, low + 1;
    forall d: nat | d < |h'.callers|
      ensures Holds(h', names, more, next, high, d)
    {
      assert Holds(h, names, n, low, high, d);
    }
  }

  /** `h` stands as described after the events, on the hub they started from. */
  ghost predicate Reaches(start: Hub, names: seq<string>, events: seq<Event>, n: nat, low: nat, high: nat) {
    var h := Run(start, events);
    Stands(h, names, n, low, high)
    && h.operators == start.operators && h.config == start.config && |h.callers| == |start.callers|
  }

  lemma ReachCheck(start: Hub, names: seq<string>, events: seq<Event>, n: nat, c: nat) returns (more: seq<Event>)
    requires Installable(start.operators, start.config, names) && Reaches(start, names, events, n, 0, c)
    requires c < |start.callers| && n + c < |names| && n < start.config.maxInstalled
    ensures Reaches(start, names, more, n, 0, c + 1)
  {
    CheckPasses(Run(start, events), names, n, c);
    RunMore(start, events, Check(c, names[n + c], 0));
    more := events + [Check(c, names[n + c], 0)];
  }

  lemma ReachInsert(start: Hub, names: seq<string>, events: seq<Event>, n: nat, low: nat, high: nat)
      returns (more: seq<Event>)
    requires Installable(start.operators, start.config, names) && Reaches(start, names, events, n, low, high)
    requires low < high
    ensures Reaches(start, names, more, n + 1, low + 1, high)
  {
    InsertLands(Run(start, events), names, n, low, high);
    RunMore(start, events, Insert(low));
    more := events + [Insert(low)];
  }

  /** One undisturbed install: with nobody holding a record before or after it. */
  lemma InstallOne(h: Hub, names: seq<string>, n: nat)
    requires Installable(h.operators, h.config, names) && Stands(h, names, n, 0, 0)
    requires n < |names| && n < h.config.maxInstalled && |h.callers| > 0
    ensures
      var h' := Step(Step(h, Check(0, names[n], 0)), Insert(0));
      && Stands(h', names, n + 1, 0, 0)
      && h'.operators == h.operators && h'.config == h.config && |h'.callers| == |h.callers|
  {
    CheckPasses(h, names, n, 0);
    var checked := Step(h, Check(0, names[n], 0));
    InsertLands(checked, names, n, 0, 1);
    NobodyHolds(Step(checked, Insert(0)), names, n + 1, 1, 0);
  }

  /** With nobody holding a record, the idle callers may be counted from anywhere. */
  lemma NobodyHolds(h: Hub, names: seq<string>, n: nat, c: nat, d: nat)
    requires Stands(h, names, n, c, c) && d <= |h.callers|
    ensures Stands(h, names, n, d, d)
  {
    forall b: nat | b < |h.callers|
      ensures Holds(h, names, n, d, d, b)
    {
      assert Holds(h, names, n, c, c, b);
    }
  }

  lemma ReachInstall(start: Hub, names: seq<string>, events: seq<Event>, n: nat) returns (more: seq<Event>)
    requires Installable(start.operators, start.config, names) && Reaches(start, names, events, n, 0, 0)
    requires n < |names| && n < start.config.maxInstalled && |start.callers| > 0
    ensures Reaches(start, names, more, n + 1, 0, 0)
  {
    var check := Check(0, names[n], 0);
    InstallOne(Run(start, events), names, n);
    RunMore(start, events, check);
    RunMore(start, events + [check], Insert(0));
    more := events + [check] + [Insert(0)];
  }

  /** One caller installing the first n, one after the other. */
  lemma {:induction false} OneByOne(start: Hub, names: seq<string>, n: nat) returns (events: seq<Event>)
    requires Installable(start.operators, start.config, names) && Stands(start, names, 0, 0, 0)
    requires n <= |names| && n <= start.config.maxInstalled && |start.callers| > 0
    ensures Reaches(start, names, events, n, 0, 0)
  {
    if n == 0 {
      events := [];
    } else {
      events := OneByOne(start, names, n - 1);
      events := ReachInstall(start, names, events, n - 1);
    }
  }

  /** Then callers 0 to i - 1 passing the check, each for the next name. */
  lemma {:induction false} ThenChecks(start: Hub, names: seq<string>, n: nat, i: nat) returns (events: seq<Event>)
    requires Installable(start.operators, start.config, names) && Stands(start, names, 0, 0, 0)
    requires n + i <= |names| && n < start.config.maxInstalled && i <= |start.callers| && |start.callers| > 0
    ensures Reaches(start, names, events, n, 0, i)
  {
    if i == 0 {
      events := OneByOne(start, names, n);
    } else {
      events := ThenChecks(start, names, n, i - 1);
      events := ReachCheck(start, names, events, n, i - 1);
    }
  }

  /** Then everybody who holds a record inserting it, in order. */
  lemma {:induction false} ThenInserts(start: Hub, names: seq<string>, before: seq<Event>, n: nat, low: nat, high: nat)
    returns (events: seq<Event>)
    requires Installable(start.operators, start.config, names)
    requires low <= high && Reaches(start, names, before, n, low, high)
    ensures |Run(start, events).installed| == n + high - low
    decreases high - low
  {
    if low == high {
      events := before;
    } else {
      events := ReachInsert(start, names, before, n, low, high);
      events := ThenInserts(start, names, events, n + 1, low + 1, high);
    }
  }

  /** `n` installed one by one below the limit, and `i` more by callers that all pass
      the check before any of them inserts. */
  lemma SomeRunInstalls(ops: Registry, config: HubConfig, k: nat, names: seq<string>, n: nat, i: nat)
    returns (events: seq<Event>)
    requires k > 0 && i <= k && n < config.maxInstalled && n + i <= |names| && Installable(ops, config, names)
    ensures |Run(New(ops, config, k), events).installed| == n + i
  {
    var start := New(ops, config, k);
    assert forall c: nat | c < k :: Holds(start, names, 0, 0, 0, c);
    assert Stands(start, names, 0, 0, 0);
    events := ThenChecks(start, names, n, i);
    events := ThenInserts(start, names, events, n, 0, i);
  }

  /** The names of a set, in some order. */
  lemma {:induction false} InSomeOrder(names: set<string>) returns (order: seq<string>)
    ensures |order| == |names| && (forall name :: name in order <==> name in names)
    ensures forall i: nat, j: nat :: Apart(order, i, j)
  {
    if names == {} {
      order := [];
    } else {
      var name :| name in names;
      var rest := InSomeOrder(names - {name});
      order := [name] + rest;
      forall i: nat, j: nat
        ensures Apart(order, i, j)
      {
        if 0 < i < j < |order| {
          assert Apart(rest, i - 1, j - 1);
        }
      }
    }
  }

  /** The most that can ever be installed at once by k callers. */
  function Most(ops: Registry, config: HubConfig, k: nat): nat {
    var all := |InstallableNames(ops, config)|;
    if k == 0 || config.maxInstalled == 0 then 0
    else if config.maxInstalled - 1 + k <= all then config.maxInstalled - 1 + k
    else all
  }

  lemma {:induction false} NobodyInstalls(ops: Registry, config: HubConfig, events: seq<Event>)
    ensures Run(New(ops, config, 0), events).installed == map[]
    decreases |events|
  {
    if events != [] {
      NobodyInstalls(ops, config, events[..|events| - 1]);
      NewKeepsInv(ops, config, 0);
      RunKeepsInv(New(ops, config, 0), events[..|events| - 1]);
    }
  }

  lemma NeverMore(ops: Registry, config: HubConfig, k: nat, events: seq<Event>)
    ensures |Run(New(ops, config, k), events).installed| <= Most(ops, config, k)
  {
    var h := Run(New(ops, config, k), events);
    OverInstallIsBounded(ops, config, k, events);
    FewerKeys(h.installed.Keys, InstallableNames(ops, config));
    if k == 0 {
      NobodyInstalls(ops, config, events);
    }
  }

  lemma {:induction false} FewerKeys(a: set<string>, b: set<string>)
    requires a <= b
    ensures |a| <= |b|
  {
    assert b == a + (b - a);
  }

  lemma SomeRunInstallsMost(ops: Registry, config: HubConfig, k: nat) returns (events: seq<Event>)
    ensures |Run(New(ops, config, k), events).installed| == Most(ops, config, k)
  {
    var most := Most(ops, config, k);
    if most == 0 {
      events := [];
    } else {
      var names := InSomeOrder(InstallableNames(ops, config));
      assert Installable(ops, config, names) by {
        forall j: nat | j < |names|
          ensures LetsIn(ops, config, names[j])
        {
          assert names[j] in names;
        }
      }
      var n := if most < config.maxInstalled then most else config.maxInstalled - 1;
      events := SomeRunInstalls(ops, config, k, names, n, most - n);
    }
  }

  /** For every registry, limit and number of callers, the most that is ever installed at
      once is `Most`, and some interleaving installs as many. */
  lemma OverInstallIsExact(ops: Registry, config: HubConfig, k: nat)
    ensures forall events: seq<Event> :: |Run(New(ops, config, k), events).installed| <= Most(ops, config, k)
    ensures exists events: seq<Event> :: |Run(New(ops, config, k), events).installed| == Most(ops, config, k)
  {
    forall events: seq<Event>
      ensures |Run(New(ops, config, k), events).installed| <= Most(ops, config, k)
    {
      NeverMore(ops, config, k, events);
    }
    var _ := SomeRunInstallsMost(ops, config, k);
  }

  /** The limit holds in every interleaving if and only if there is at most one caller,
      or nothing may be installed, or no more than the limit can be. */
  lemma LimitHoldsExactly(ops: Registry, config: HubConfig, k: nat)
    ensures (forall events: seq<Event> :: |Run(New(ops, config, k), events).installed| <= config.maxInstalled)
       <==> k <= 1 || config.maxInstalled == 0 || |InstallableNames(ops, config)| <= config.maxInstalled
  {
    OverInstallIsExact(ops, config, k);
  }

  /** For every registry with enough operators, every limit and every number of
      callers, some interleaving over-installs by exactly k - 1. */
  lemma OverInstallIsReached(ops: Registry, config: HubConfig, k: nat, names: seq<string>) returns (events: seq<Event>)
    requires k > 0 && config.maxInstalled > 0 && Installable(ops, config, names)
    requires |names| == config.maxInstalled - 1 + k
    ensures |Run(New(ops, config, k), events).installed| == config.maxInstalled - 1 + k
  {
    events := SomeRunInstalls(ops, config, k, names, config.maxInstalled - 1, k);
  }
}
