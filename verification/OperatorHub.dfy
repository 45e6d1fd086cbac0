/** The hub of companion operators: a fixed registry, and a map of installed ones that
    concurrent callers check under one lock and change under a later one. */
module OperatorHubs {
  import opened Prelude

  type Time = int

  datatype Category = Database | Cache | Monitoring | Storage | Custom(name: string)

  datatype Integration = Source | Sink | Sidecar | Standalone

  datatype HubOperator = HubOperator(
    name: string, version: string, description: string, category: Category, integration: Integration, verified: bool)

  datatype InstallStatus = Installing | Running | Failed(reason: string) | Upgrading | Removing

  datatype InstalledOperator = InstalledOperator(
    name: string, version: string, namespace: string, status: InstallStatus,
    installedAt: Time, lastReconcileAt: Option<Time>)

  datatype HubConfig = HubConfig(maxInstalled: nat, requireVerified: bool)

  datatype HubStats = HubStats(availableCount: nat, installedCount: nat, updatesAvailable: nat)

  datatype HubUpdate = HubUpdate(name: string, installed: string, available: string)

  datatype HubError = NotFound | NotVerified | CapacityReached | AlreadyInstalled | NotInstalled | AlreadyLatest

  type Registry = map<string, HubOperator>
  type Installed = map<string, InstalledOperator>

  const BUNDLED_OPERATORS: seq<(string, string, string)> := [
    ("postgresql", "5.0.0", "PostgreSQL operator for CDC source integration"),
    ("redis", "7.0.0", "Redis operator for cache-aside streaming patterns"),
    ("elasticsearch", "8.0.0", "Elasticsearch operator for search sink integration"),
    ("minio", "5.0.0", "MinIO operator for S3-compatible tiered storage"),
    ("prometheus", "0.70.0", "Prometheus operator for metrics collection")]

  function CategoryOf(name: string): Category {
    match name
    case "postgresql" => Database
    case "redis" => Cache
    case "elasticsearch" => Storage
    case "minio" => Storage
    case "prometheus" => Monitoring
    case _ => Custom(name)
  }

  function IntegrationOf(name: string): Integration {
    match name
    case "postgresql" => Source
    case "redis" => Sidecar
    case "elasticsearch" => Sink
    case "minio" => Standalone
    case "prometheus" => Sidecar
    case _ => Standalone
  }

  function Entry(e: (string, string, string)): HubOperator {
    HubOperator(e.0, e.1, e.2, CategoryOf(e.0), IntegrationOf(e.0), true)
  }

  function Seeded(entries: seq<(string, string, string)>): Registry {
    if entries == [] then map[]
    else
      var n := |entries| - 1;
      Seeded(entries[..n])[entries[n].0 := Entry(entries[n])]
  }

  lemma {:induction false} SeededNames(entries: seq<(string, string, string)>, name: string)
    ensures name in Seeded(entries) <==> exists e <- entries :: e.0 == name
  {
    if entries != [] {
      var n := |entries| - 1;
      SeededNames(entries[..n], name);
      assert entries == entries[..n] + [entries[n]];
    }
  }

  lemma OneMoreSeeded(entries: seq<(string, string, string)>, e: (string, string, string))
    ensures Seeded(entries + [e]) == Seeded(entries)[e.0 := Entry(e)]
  {
    assert (entries + [e])[..|entries|] == entries;
  }

  lemma {:induction false} SeededEntry(entries: seq<(string, string, string)>, k: nat)
    requires k < |entries| && forall j | k < j < |entries| :: entries[j].0 != entries[k].0
    ensures entries[k].0 in Seeded(entries) && Seeded(entries)[entries[k].0] == Entry(entries[k])
  {
    var n := |entries| - 1;
    var before, last := entries[..n], entries[n];
    assert entries == before + [last];
    OneMoreSeeded(before, last);
    if k < n {
      SeededEntry(before, k);
      assert before[k] == entries[k] && last.0 != entries[k].0;
    }
  }

  /** The bundled operator of this name: its version, its category, how it is integrated. */
  predicate IsBundled(op: HubOperator, name: string, version: string, category: Category, integration: Integration) {
    && op.name == name && op.version == version && op.verified
    && op.category == category && op.integration == integration
  }

  lemma ItsEntry(e: (string, string, string), category: Category, integration: Integration)
    requires CategoryOf(e.0) == category && IntegrationOf(e.0) == integration
    ensures IsBundled(Entry(e), e.0, e.1, category, integration)
  {
  }

  /** What the hub starts with: five operators and no other, all verified. */
  lemma BundledExactly(name: string)
    ensures
      var ops := Seeded(BUNDLED_OPERATORS);
      && (name in ops <==> name in {"postgresql", "redis", "elasticsearch", "minio", "prometheus"})
      && (name == "postgresql" ==> IsBundled(ops[name], name, "5.0.0", Database, Source))
      && (name == "redis" ==> IsBundled(ops[name], name, "7.0.0", Cache, Sidecar))
      && (name == "elasticsearch" ==> IsBundled(ops[name], name, "8.0.0", Storage, Sink))
      && (name == "minio" ==> IsBundled(ops[name], name, "5.0.0", Storage, Standalone))
      && (name == "prometheus" ==> IsBundled(ops[name], name, "0.70.0", Monitoring, Sidecar))
  {
    SeededNames(BUNDLED_OPERATORS, name);
    BundledNamesAreFive();
    BundledNamesDiffer();
    KindsOfBundled();
    assert name in Seeded(BUNDLED_OPERATORS) <==> name in BundledNames();
    if name == "postgresql" {
      SeededEntry(BUNDLED_OPERATORS, 0);
      ItsEntry(BUNDLED_OPERATORS[0], Database, Source);
    } else if name == "redis" {
      SeededEntry(BUNDLED_OPERATORS, 1);
      ItsEntry(BUNDLED_OPERATORS[1], Cache, Sidecar);
    } else if name == "elasticsearch" {
      SeededEntry(BUNDLED_OPERATORS, 2);
      ItsEntry(BUNDLED_OPERATORS[2], Storage, Sink);
    } else if name == "minio" {
      SeededEntry(BUNDLED_OPERATORS, 3);
      ItsEntry(BUNDLED_OPERATORS[3], Storage, Standalone);
    } else if name == "prometheus" {
      SeededEntry(BUNDLED_OPERATORS, 4);
      ItsEntry(BUNDLED_OPERATORS[4], Monitoring, Sidecar);
    }
  }

  lemma KindsOfBundled()
    ensures CategoryOf("postgresql") == Database && IntegrationOf("postgresql") == Source
    ensures CategoryOf("redis") == Cache && IntegrationOf("redis") == Sidecar
    ensures CategoryOf("elasticsearch") == Storage && IntegrationOf("elasticsearch") == Sink
    ensures CategoryOf("minio") == Storage && IntegrationOf("minio") == Standalone
    ensures CategoryOf("prometheus") == Monitoring && IntegrationOf("prometheus") == Sidecar
  {
    assert "postgresql"[1] == 'o' && "prometheus"[1] == 'r' && "redis"[0] == 'r' && "minio"[0] == 'm';
  }

  function BundledNames(): set<string> {
    set e <- BUNDLED_OPERATORS :: e.0
  }

  lemma BundledNamesAreFive()
    ensures BundledNames() == {"postgresql", "redis", "elasticsearch", "minio", "prometheus"}
  {
    var entries := BUNDLED_OPERATORS;
    assert entries[0].0 == "postgresql" && entries[1].0 == "redis" && entries[2].0 == "elasticsearch";
    assert entries[3].0 == "minio" && entries[4].0 == "prometheus";
    assert entries[0] in entries && entries[1] in entries && entries[2] in entries && entries[3] in entries;
    assert entries[4] in entries;
  }

  lemma NameShapes()
    ensures |"postgresql"| == |"prometheus"| == 10 && "postgresql"[1] == 'o' && "prometheus"[1] == 'r'
    ensures |"redis"| == |"minio"| == 5 && "redis"[0] == 'r' && "minio"[0] == 'm'
    ensures |"elasticsearch"| == 13
  {
  }

  lemma FiveDiffer(names: seq<string>)
    requires |names| == 5 && |names[0]| == |names[4]| == 10 && names[0][1] != names[4][1]
    requires |names[1]| == |names[3]| == 5 && names[1][0] != names[3][0] && |names[2]| == 13
    ensures forall j, k | 0 <= j < k < |names| :: names[j] != names[k]
  {
  }

  lemma BundledNamesDiffer()
    ensures forall j, k | 0 <= j < k < |BUNDLED_OPERATORS| :: BUNDLED_OPERATORS[j].0 != BUNDLED_OPERATORS[k].0
  {
    var names := ["postgresql", "redis", "elasticsearch", "minio", "prometheus"];
    NameShapes();
    FiveDiffer(names);
    assert forall k | 0 <= k < |BUNDLED_OPERATORS| :: BUNDLED_OPERATORS[k].0 == names[k];
  }

  // ---------------------------------------------------------------------
  // The steps
  // ---------------------------------------------------------------------

  /** What `install` decides under its read locks: the record it will insert later. */
  function CheckInstall(
    ops: Registry, inst: Installed, config: HubConfig, name: string, now: Time): Result<InstalledOperator, HubError>
  {
    if name !in ops then Err(NotFound)
    else if config.requireVerified && !ops[name].verified then Err(NotVerified)
    else if |inst| >= config.maxInstalled then Err(CapacityReached)
    else if name in inst then Err(AlreadyInstalled)
    else Ok(InstalledOperator(name, ops[name].version, "streamline-system", Running, now, None))
  }

  function Uninstalled(inst: Installed, name: string): Installed {
    inst - {name}
  }

  function UpgradeDecision(
    ops: Registry, inst: Installed, name: string, now: Time): Result<InstalledOperator, HubError>
  {
    if name !in ops then Err(NotFound)
    else if name !in inst then Err(NotInstalled)
    else if inst[name].version == ops[name].version then Err(AlreadyLatest)
    else Ok(inst[name].(version := ops[name].version, status := Running, lastReconcileAt := Some(now)))
  }

  /** Which answer an install gives: the first refusal that applies, in this order, or the
      record of the registry's version, running. */
  predicate InstallAnswers(ops: Registry, inst: Installed, config: HubConfig, name: string, now: Time,
      r: Result<InstalledOperator, HubError>)
  {
    var verified := name in ops && (ops[name].verified || !config.requireVerified);
    && (r == Err(NotFound) <==> name !in ops)
    && (r == Err(NotVerified) <==> name in ops && config.requireVerified && !ops[name].verified)
    && (r == Err(CapacityReached) <==> verified && |inst| >= config.maxInstalled)
    && (r == Err(AlreadyInstalled) <==> verified && |inst| < config.maxInstalled && name in inst)
    && (r.Ok? <==> verified && |inst| < config.maxInstalled && name !in inst)
    && (r.Ok? ==> r.value.name == name && r.value.version == ops[name].version && r.value.status == Running
                  && r.value.namespace == "streamline-system"
                  && r.value.installedAt == now && r.value.lastReconcileAt == None)
  }

  lemma InstallExactly(ops: Registry, inst: Installed, config: HubConfig, name: string, now: Time)
    ensures InstallAnswers(ops, inst, config, name, now, CheckInstall(ops, inst, config, name, now))
  {
  }

  /** And an upgrade: a refusal, or the record there was with the registry's version. */
  predicate UpgradeAnswers(ops: Registry, inst: Installed, name: string, now: Time,
      r: Result<InstalledOperator, HubError>)
  {
    && (r == Err(NotFound) <==> name !in ops)
    && (r == Err(NotInstalled) <==> name in ops && name !in inst)
    && (r == Err(AlreadyLatest) <==> name in ops && name in inst && inst[name].version == ops[name].version)
    && (r.Ok? <==> name in ops && name in inst && inst[name].version != ops[name].version)
    && (r.Ok? ==> r.value.name == inst[name].name && r.value.namespace == inst[name].namespace
                  && r.value.installedAt == inst[name].installedAt && r.value.version == ops[name].version
                  && r.value.status == Running && r.value.lastReconcileAt == Some(now))
  }

  lemma UpgradeExactly(ops: Registry, inst: Installed, name: string, now: Time)
    ensures UpgradeAnswers(ops, inst, name, now, UpgradeDecision(ops, inst, name, now))
  {
  }

  /** The operator of this name is installed in both as the same record, or in neither. */
  predicate IsSame(a: Installed, b: Installed, name: string) {
    (name in a <==> name in b) && (name in a ==> a[name] == b[name])
  }

  predicate IsOutdated(ops: Registry, inst: Installed, name: string) {
    name in inst && name in ops && ops[name].version != inst[name].version
  }

  /** The installed operators whose version is not the registry's. */
  function Outdated(ops: Registry, inst: Installed, among: set<string>): set<string> {
    set name <- among | IsOutdated(ops, inst, name)
  }

  lemma OneMoreName(ops: Registry, inst: Installed, seen: set<string>, name: string)
    requires name !in seen
    ensures var before, after := Outdated(ops, inst, seen), Outdated(ops, inst, seen + {name});
      && after == (if IsOutdated(ops, inst, name) then before + {name} else before)
      && |after| == |before| + (if IsOutdated(ops, inst, name) then 1 else 0)
  {
  }

  function UpdateOf(ops: Registry, inst: Installed, name: string): HubUpdate
    requires IsOutdated(ops, inst, name)
  {
    HubUpdate(name, inst[name].version, ops[name].version)
  }

  /** The list holds the update of every one of the names, each once. */
  ghost predicate Lists(ops: Registry, inst: Installed, updates: seq<HubUpdate>, names: set<string>) {
    && |updates| == |names|
    && (forall u <- updates :: u.name in names && IsOutdated(ops, inst, u.name) && u == UpdateOf(ops, inst, u.name))
    && (forall name <- names :: IsOutdated(ops, inst, name) && UpdateOf(ops, inst, name) in updates)
  }

  lemma OneMoreUpdate(ops: Registry, inst: Installed, updates: seq<HubUpdate>, names: set<string>, name: string)
    requires Lists(ops, inst, updates, names) && name !in names && IsOutdated(ops, inst, name)
    ensures Lists(ops, inst, updates + [UpdateOf(ops, inst, name)], names + {name})
  {
  }

  class OperatorHub {
    const operators: Registry
    const config: HubConfig
    var installed: Installed

    constructor (config: HubConfig)
      ensures operators == Seeded(BUNDLED_OPERATORS) && this.config == config && installed == map[]
    {
      var ops: Registry := map[];
      for k := 0 to |BUNDLED_OPERATORS|
        invariant ops == Seeded(BUNDLED_OPERATORS[..k])
      {
        assert BUNDLED_OPERATORS[..k + 1][..k] == BUNDLED_OPERATORS[..k];
        var (name, version, description) := BUNDLED_OPERATORS[k];
        ops := ops[name := HubOperator(name, version, description, CategoryOf(name), IntegrationOf(name), true)];
      }
      assert BUNDLED_OPERATORS[..|BUNDLED_OPERATORS|] == BUNDLED_OPERATORS;
      operators, this.config, installed := ops, config, map[];
    }

    method CheckBeforeInstall(name: string, now: Time) returns (r: Result<InstalledOperator, HubError>)
      ensures r == CheckInstall(operators, installed, config, name, now)
    {
      if name !in operators {
        return Err(NotFound);
      }
      var op := operators[name];
      if config.requireVerified && !op.verified {
        return Err(NotVerified);
      }
      if |installed| >= config.maxInstalled {
        return Err(CapacityReached);
      }
      if name in installed {
        return Err(AlreadyInstalled);
      }
      r := Ok(InstalledOperator(name, op.version, "streamline-system", Running, now, None));
    }

    method Insert(op: InstalledOperator)
      modifies this
      ensures installed == old(installed)[op.name := op]
    {
      installed := installed[op.name := op];
    }

    /** With nobody in between, an install respects the limit and installs the
        registry's version. */
    method Install(name: string, now: Time) returns (r: Result<InstalledOperator, HubError>)
      modifies this
      ensures r == CheckInstall(operators, old(installed), config, name, now)
      ensures InstallAnswers(operators, old(installed), config, name, now, r)
      ensures installed == if r.Ok? then old(installed)[name := r.value] else old(installed)
      ensures r.Ok? ==> |installed| == |old(installed)| + 1 <= config.maxInstalled
    {
      InstallExactly(operators, installed, config, name, now);
      r := CheckBeforeInstall(name, now);
      if r.Ok? {
        assert installed[name := r.value].Keys == installed.Keys + {name};
        Insert(r.value);
      }
    }

    method Uninstall(name: string) returns (r: Result<(), HubError>)
      modifies this
      ensures installed == Uninstalled(old(installed), name)
      ensures name !in installed && forall n | n != name :: IsSame(old(installed), installed, n)
      ensures r == if name in old(installed) then Ok(()) else Err(NotInstalled)
    {
      if name in installed {
        installed := installed - {name};
        r := Ok(());
      } else {
        assert installed - {name} == installed;
        r := Err(NotInstalled);
      }
    }

    method Upgrade(name: string, now: Time) returns (r: Result<InstalledOperator, HubError>)
      modifies this
      ensures r == UpgradeDecision(operators, old(installed), name, now)
      ensures UpgradeAnswers(operators, old(installed), name, now, r)
      ensures installed == if r.Ok? then old(installed)[name := r.value] else old(installed)
    {
      UpgradeExactly(operators, installed, name, now);
      if name !in operators {
        return Err(NotFound);
      }
      var latest := operators[name].version;
      if name !in installed {
        return Err(NotInstalled);
      }
      var op := installed[name];
      if op.version == latest {
        return Err(AlreadyLatest);
      }
      op := op.(version := latest, status := Running, lastReconcileAt := Some(now));
      installed := installed[name := op];
      r := Ok(op);
    }

    /** Every outdated operator is listed once, with the version it has and the one it
        could have. */
    method CheckUpdates() returns (updates: seq<HubUpdate>)
      ensures Lists(operators, installed, updates, Outdated(operators, installed, installed.Keys))
    {
      updates := [];
      var rest := installed.Keys;
      ghost var seen: set<string> := {};
      while rest != {}
        invariant seen + rest == installed.Keys && seen !! rest
        invariant Lists(operators, installed, updates, Outdated(operators, installed, seen))
        decreases |rest|
      {
        var name :| name in rest;
        OneMoreName(operators, installed, seen, name);
        if name in operators && operators[name].version != installed[name].version {
          OneMoreUpdate(operators, installed, updates, Outdated(operators, installed, seen), name);
          updates := updates + [HubUpdate(name, installed[name].version, operators[name].version)];
        }
        seen, rest := seen + {name}, rest - {name};
      }
      assert seen == installed.Keys;
    }

    /** The count of updates is the length of the list that `CheckUpdates` gives. */
    method Stats() returns (stats: HubStats)
      ensures stats == HubStats(|operators|, |installed|, |Outdated(operators, installed, installed.Keys)|)
    {
      var count: nat := 0;
      var rest := installed.Keys;
      ghost var seen: set<string> := {};
      while rest != {}
        invariant seen + rest == installed.Keys && seen !! rest
        invariant count == |Outdated(operators, installed, seen)|
        decreases |rest|
      {
        var name :| name in rest;
        OneMoreName(operators, installed, seen, name);
        if name in operators && operators[name].version != installed[name].version {
          count := count + 1;
        }
        seen, rest := seen + {name}, rest - {name};
      }
      assert seen == installed.Keys;
      stats := HubStats(|operators|, |installed|, count);
    }
  }
}
