/** What an accepted spec renders to: configuration, volumes, environment,
    Services and the StatefulSet. */
module ClusterRender {
  import opened Prelude
  import opened ClusterSpecs

  const CONFIG_MOUNT_PATH := "/etc/streamline"
  const CONFIG_FILE_NAME := "streamline.toml"
  const DATA_MOUNT_PATH := "/data"
  const TLS_MOUNT_PATH := "/etc/streamline-tls"
  const TLS_CA_MOUNT_PATH := "/etc/streamline-tls-ca"

  function Join(dir: string, file: string): string {
    dir + "/" + file
  }

  predicate Under(path: string, dir: string) {
    dir + "/" <= path
  }

  // ---------------------------------------------------------------------
  // Configuration file
  // ---------------------------------------------------------------------

  datatype Key =
    | ListenAddr | HttpAddr | DataDir | LogLevel
    | TlsEnabled | Cert | CertKey | RequireClientCert | CaCert

  datatype Value = Text(text: string) | Address(port: int) | Path(path: string) | Flag(flag: bool)

  datatype Line = ServerSection | TlsSection | Entry(key: Key, value: Value)

  function ConfigLines(s: ClusterSpec): seq<Line> {
    [ServerSection] + ServerEntries(s) + TlsLines(s.tls)
  }

  function ServerEntries(s: ClusterSpec): seq<Line> {
    [Entry(ListenAddr, Address(s.kafkaPort)),
     Entry(HttpAddr, Address(s.httpPort)),
     Entry(DataDir, Path(DATA_MOUNT_PATH)),
     Entry(LogLevel, Text(s.logLevel))]
  }

  function TlsLines(tls: Option<ClusterTls>): seq<Line> {
    if tls.None? || !tls.value.enabled then [] else [TlsSection] + TlsEntries(tls.value.mtlsEnabled)
  }

  function TlsEntries(mtls: bool): seq<Line> {
    [Entry(TlsEnabled, Flag(true)),
     Entry(Cert, Path(Join(TLS_MOUNT_PATH, "tls.crt"))),
     Entry(CertKey, Path(Join(TLS_MOUNT_PATH, "tls.key")))]
    + (if mtls then
         [Entry(RequireClientCert, Flag(true)), Entry(CaCert, Path(Join(TLS_CA_MOUNT_PATH, "ca.crt")))]
       else [])
  }

  /** The section a line pushed next would belong to. */
  datatype Section = Preamble | Server | TlsPart

  function SectionAfter(lines: seq<Line>): Section {
    if lines == [] then Preamble
    else
      match lines[|lines| - 1]
      case ServerSection => Server
      case TlsSection => TlsPart
      case Entry(_, _) => SectionAfter(lines[..|lines| - 1])
  }

  /** What a reader of the file finds under a section and a key. */
  function ReadBack(lines: seq<Line>, section: Section, key: Key): Option<Value> {
    if lines == [] then None
    else
      var last, rest := lines[|lines| - 1], lines[..|lines| - 1];
      if last.Entry? && last.key == key && SectionAfter(rest) == section then Some(last.value)
      else ReadBack(rest, section, key)
  }

  /** What the broker is to be told: None for a key that is not its own. */
  function Setting(s: ClusterSpec, section: Section, key: Key): Option<Value> {
    var tls := section.TlsPart? && s.tls.Some? && s.tls.value.enabled;
    match key
    case ListenAddr => if section.Server? then Some(Address(s.kafkaPort)) else None
    case HttpAddr => if section.Server? then Some(Address(s.httpPort)) else None
    case DataDir => if section.Server? then Some(Path(DATA_MOUNT_PATH)) else None
    case LogLevel => if section.Server? then Some(Text(s.logLevel)) else None
    case TlsEnabled => if tls then Some(Flag(true)) else None
    case Cert => if tls then Some(Path(Join(TLS_MOUNT_PATH, "tls.crt"))) else None
    case CertKey => if tls then Some(Path(Join(TLS_MOUNT_PATH, "tls.key"))) else None
    case RequireClientCert => if tls && s.tls.value.mtlsEnabled then Some(Flag(true)) else None
    case CaCert => if tls && s.tls.value.mtlsEnabled then Some(Path(Join(TLS_CA_MOUNT_PATH, "ca.crt"))) else None
  }

  lemma ReadOneMore(lines: seq<Line>, l: Line, section: Section, key: Key)
    ensures ReadBack(lines + [l], section, key)
         == if l.Entry? && l.key == key && SectionAfter(lines) == section then Some(l.value)
             else ReadBack(lines, section, key)
    ensures SectionAfter(lines + [l])
         == match l case ServerSection => Server case TlsSection => TlsPart case Entry(_, _) => SectionAfter(lines)
  {
    assert (lines + [l])[..|lines|] == lines;
  }

  lemma {:induction false} ReadAllEntries(lines: seq<Line>, more: seq<Line>, section: Section, key: Key)
    requires forall l <- more :: l.Entry?
    ensures SectionAfter(lines + more) == SectionAfter(lines)
    ensures ReadBack(lines + more, section, key)
         == if SectionAfter(lines) == section && ValueOf(more, key).Some? then ValueOf(more, key)
            else ReadBack(lines, section, key)
  {
    if more == [] {
      assert lines + more == lines;
    } else {
      var n := |more| - 1;
      assert lines + more == lines + more[..n] + [more[n]];
      ReadAllEntries(lines, more[..n], section, key);
      ReadOneMore(lines + more[..n], more[n], section, key);
    }
  }

  /** The last value among entries of one section. */
  function ValueOf(entries: seq<Line>, key: Key): Option<Value> {
    if entries == [] then None
    else
      var last := entries[|entries| - 1];
      if last.Entry? && last.key == key then Some(last.value) else ValueOf(entries[..|entries| - 1], key)
  }

  lemma OneMoreValue(entries: seq<Line>, k: Key, v: Value, key: Key)
    ensures ValueOf(entries + [Entry(k, v)], key) == if k == key then Some(v) else ValueOf(entries, key)
  {
    assert (entries + [Entry(k, v)])[..|entries|] == entries;
  }

  lemma ServerReadsBack(s: ClusterSpec, key: Key)
    ensures ValueOf(ServerEntries(s), key) == Setting(s, Server, key)
  {
    OneMoreValue([], ListenAddr, Address(s.kafkaPort), key);
    OneMoreValue(ServerEntries(s)[..1], HttpAddr, Address(s.httpPort), key);
    OneMoreValue(ServerEntries(s)[..2], DataDir, Path(DATA_MOUNT_PATH), key);
    OneMoreValue(ServerEntries(s)[..3], LogLevel, Text(s.logLevel), key);
    assert [] + ServerEntries(s)[..1] == ServerEntries(s)[..1];
    assert ServerEntries(s)[..1] + [ServerEntries(s)[1]] == ServerEntries(s)[..2];
    assert ServerEntries(s)[..2] + [ServerEntries(s)[2]] == ServerEntries(s)[..3];
    assert ServerEntries(s)[..3] + [ServerEntries(s)[3]] == ServerEntries(s);
  }

  lemma TwoMoreValues(entries: seq<Line>, k: Key, v: Value, l: Key, w: Value, key: Key)
    ensures ValueOf(entries + [Entry(k, v), Entry(l, w)], key)
         == if l == key then Some(w) else if k == key then Some(v) else ValueOf(entries, key)
  {
    OneMoreValue(entries, k, v, key);
    OneMoreValue(entries + [Entry(k, v)], l, w, key);
    assert entries + [Entry(k, v), Entry(l, w)] == entries + [Entry(k, v)] + [Entry(l, w)];
  }

  lemma TlsBaseReadsBack(key: Key)
    ensures ValueOf(TlsEntries(false), key)
         == match key
            case TlsEnabled => Some(Flag(true))
            case Cert => Some(Path(Join(TLS_MOUNT_PATH, "tls.crt")))
            case CertKey => Some(Path(Join(TLS_MOUNT_PATH, "tls.key")))
            case _ => None
  {
    var first := [Entry(TlsEnabled, Flag(true))];
    OneMoreValue([], TlsEnabled, Flag(true), key);
    assert [] + first == first;
    TwoMoreValues(first, Cert, Path(Join(TLS_MOUNT_PATH, "tls.crt")), CertKey, Path(Join(TLS_MOUNT_PATH, "tls.key")),
        key);
    assert TlsEntries(false) == first + TlsEntries(false)[1..];
  }

  lemma TlsReadsBack(s: ClusterSpec, key: Key)
    requires s.tls.Some? && s.tls.value.enabled
    ensures ValueOf(TlsEntries(s.tls.value.mtlsEnabled), key) == Setting(s, TlsPart, key)
  {
    TlsBaseReadsBack(key);
    if s.tls.value.mtlsEnabled {
      TwoMoreValues(TlsEntries(false), RequireClientCert, Flag(true), CaCert, Path(Join(TLS_CA_MOUNT_PATH, "ca.crt")),
          key);
      assert TlsEntries(true) == TlsEntries(false) + TlsEntries(true)[3..];
    }
  }

  lemma ReadServer(server: seq<Line>, section: Section, key: Key)
    requires forall l <- server :: l.Entry?
    ensures SectionAfter([ServerSection] + server) == Server
    ensures ReadBack([ServerSection] + server, section, key) == if section.Server? then ValueOf(server, key) else None
  {
    assert [] + [ServerSection] == [ServerSection];
    ReadOneMore([], ServerSection, section, key);
    ReadAllEntries([ServerSection], server, section, key);
  }

  lemma ReadBoth(server: seq<Line>, tls: seq<Line>, section: Section, key: Key)
    requires (forall l <- server :: l.Entry?) && (forall l <- tls :: l.Entry?)
    ensures ReadBack([ServerSection] + server + ([TlsSection] + tls), section, key)
         == match section
            case Server => ValueOf(server, key)
            case TlsPart => ValueOf(tls, key)
            case Preamble => None
  {
    var before := [ServerSection] + server;
    ReadServer(server, section, key);
    ReadOneMore(before, TlsSection, section, key);
    ReadAllEntries(before + [TlsSection], tls, section, key);
    assert before + [TlsSection] + tls == before + ([TlsSection] + tls);
  }

  /** The round trip of the configuration file: under every section and key a reader
      finds what the spec asks for, and nothing else. */
  lemma ConfigReadsBack(s: ClusterSpec, section: Section, key: Key)
    ensures ReadBack(ConfigLines(s), section, key) == Setting(s, section, key)
  {
    ServerReadsBack(s, key);
    if s.tls.Some? && s.tls.value.enabled {
      TlsReadsBack(s, key);
      ReadBoth(ServerEntries(s), TlsEntries(s.tls.value.mtlsEnabled), section, key);
    } else {
      ReadServer(ServerEntries(s), section, key);
      assert ConfigLines(s) == [ServerSection] + ServerEntries(s);
    }
  }

  /** What the reader finds under the TLS section: with TLS enabled the two files of the
      keypair, and with mTLS the CA's too; with TLS off, nothing. */
  lemma TlsSettings(s: ClusterSpec)
    ensures
      var lines, on := ConfigLines(s), s.tls.Some? && s.tls.value.enabled;
      var mtls := on && s.tls.value.mtlsEnabled;
      && ReadBack(lines, TlsPart, TlsEnabled) == (if on then Some(Flag(true)) else None)
      && ReadBack(lines, TlsPart, Cert) == (if on then Some(Path("/etc/streamline-tls/tls.crt")) else None)
      && ReadBack(lines, TlsPart, CertKey) == (if on then Some(Path("/etc/streamline-tls/tls.key")) else None)
      && ReadBack(lines, TlsPart, RequireClientCert) == (if mtls then Some(Flag(true)) else None)
      && ReadBack(lines, TlsPart, CaCert) == (if mtls then Some(Path("/etc/streamline-tls-ca/ca.crt")) else None)
  {
    ConfigReadsBack(s, TlsPart, TlsEnabled);
    ConfigReadsBack(s, TlsPart, Cert);
    ConfigReadsBack(s, TlsPart, CertKey);
    ConfigReadsBack(s, TlsPart, RequireClientCert);
    ConfigReadsBack(s, TlsPart, CaCert);
    assert Join(TLS_MOUNT_PATH, "tls.crt") == "/etc/streamline-tls/tls.crt";
    assert Join(TLS_MOUNT_PATH, "tls.key") == "/etc/streamline-tls/tls.key";
    assert Join(TLS_CA_MOUNT_PATH, "ca.crt") == "/etc/streamline-tls-ca/ca.crt";
  }

  /** A reader of the file finds exactly the settings of the spec. */
  method RenderConfig(s: ClusterSpec) returns (config: seq<Line>)
    ensures forall section, key :: ReadBack(config, section, key) == Setting(s, section, key)
    ensures config == ConfigLines(s)
  {
    config := [ServerSection];
    config := config + [Entry(ListenAddr, Address(s.kafkaPort))];
    config := config + [Entry(HttpAddr, Address(s.httpPort))];
    config := config + [Entry(DataDir, Path(DATA_MOUNT_PATH))];
    config := config + [Entry(LogLevel, Text(s.logLevel))];
    if s.tls.Some? && s.tls.value.enabled {
      config := config + [TlsSection];
      config := config + [Entry(TlsEnabled, Flag(true))];
      config := config + [Entry(Cert, Path(Join(TLS_MOUNT_PATH, "tls.crt")))];
      config := config + [Entry(CertKey, Path(Join(TLS_MOUNT_PATH, "tls.key")))];
      if s.tls.value.mtlsEnabled {
        config := config + [Entry(RequireClientCert, Flag(true))];
        config := config + [Entry(CaCert, Path(Join(TLS_CA_MOUNT_PATH, "ca.crt")))];
      }
    }
    assert config == ConfigLines(s);
    forall section, key
      ensures ReadBack(config, section, key) == Setting(s, section, key)
    {
      ConfigReadsBack(s, section, key);
    }
  }

  // ---------------------------------------------------------------------
  // Volumes
  // ---------------------------------------------------------------------

  datatype VolumeName = Data | Config | Tls | TlsCa

  datatype VolumeSource = FromConfigMap(cluster: string) | FromSecret(secret: string)

  datatype Volume = Volume(name: VolumeName, source: VolumeSource)

  datatype Mount = Mount(name: VolumeName, path: string, readOnly: bool)

  predicate MountsTls(s: ClusterSpec) {
    s.tls.Some? && s.tls.value.enabled && !Blank(s.tls.value.secretName)
  }

  predicate MountsCa(s: ClusterSpec) {
    MountsTls(s) && s.tls.value.mtlsEnabled && s.tls.value.caSecretName.Some?
  }

  function Volumes(name: string, s: ClusterSpec): seq<Volume> {
    [Volume(Config, FromConfigMap(name))]
    + (if MountsTls(s) then [Volume(Tls, FromSecret(s.tls.value.secretName))] else [])
    + (if MountsCa(s) then [Volume(TlsCa, FromSecret(s.tls.value.caSecretName.value))] else [])
  }

  function Mounts(s: ClusterSpec): seq<Mount> {
    [Mount(Data, DATA_MOUNT_PATH, false), Mount(Config, CONFIG_MOUNT_PATH, true)]
    + (if MountsTls(s) then [Mount(Tls, TLS_MOUNT_PATH, true)] else [])
    + (if MountsCa(s) then [Mount(TlsCa, TLS_CA_MOUNT_PATH, true)] else [])
  }

  lemma SecretsAreMounted(name: string, s: ClusterSpec)
    ensures MountsTls(s) ==>
              && Mount(Tls, TLS_MOUNT_PATH, true) in Mounts(s)
              && Volume(Tls, FromSecret(s.tls.value.secretName)) in Volumes(name, s)
    ensures MountsCa(s) ==>
              && Mount(TlsCa, TLS_CA_MOUNT_PATH, true) in Mounts(s)
              && Volume(TlsCa, FromSecret(s.tls.value.caSecretName.value)) in Volumes(name, s)
  {
    if MountsTls(s) {
      assert Mounts(s)[2] == Mount(Tls, TLS_MOUNT_PATH, true);
      assert Volumes(name, s)[1] == Volume(Tls, FromSecret(s.tls.value.secretName));
      if MountsCa(s) {
        assert Mounts(s)[3] == Mount(TlsCa, TLS_CA_MOUNT_PATH, true);
        assert Volumes(name, s)[2] == Volume(TlsCa, FromSecret(s.tls.value.caSecretName.value));
      }
    }
  }

  /** Where a volume gets its files from: None when the spec leaves it out. The data
      directory is a claim of its own. */
  function SourceFor(name: string, s: ClusterSpec, volume: VolumeName): Option<VolumeSource> {
    match volume
    case Data => None
    case Config => Some(FromConfigMap(name))
    case Tls => if MountsTls(s) then Some(FromSecret(s.tls.value.secretName)) else None
    case TlsCa => if MountsCa(s) then Some(FromSecret(s.tls.value.caSecretName.value)) else None
  }

  function PathFor(volume: VolumeName): string {
    match volume
    case Data => DATA_MOUNT_PATH
    case Config => CONFIG_MOUNT_PATH
    case Tls => TLS_MOUNT_PATH
    case TlsCa => TLS_CA_MOUNT_PATH
  }

  /** The volumes are exactly those with a source, the mounts exactly those of the
      volumes and of the data directory, only the data directory is writable, and no
      name is used twice. */
  ghost predicate Matched(name: string, s: ClusterSpec, volumes: seq<Volume>, mounts: seq<Mount>) {
    && (forall v: Volume :: v in volumes <==> SourceFor(name, s, v.name) == Some(v.source))
    && (forall m: Mount :: m in mounts <==>
          && (m.name.Data? || SourceFor(name, s, m.name).Some?)
          && m.path == PathFor(m.name) && m.readOnly == !m.name.Data?)
    && (forall i, j | 0 <= i < j < |volumes| :: volumes[i].name != volumes[j].name)
    && (forall i, j | 0 <= i < j < |mounts| :: mounts[i].name != mounts[j].name)
  }

  /** Volumes and mounts match each other and the spec, for every spec. */
  lemma VolumesMatchMounts(name: string, s: ClusterSpec)
    ensures Matched(name, s, Volumes(name, s), Mounts(s))
  {
    var volumes, mounts := Volumes(name, s), Mounts(s);
    assert volumes[0].name.Config? && mounts[0].name.Data? && mounts[1].name.Config?;
    SecretsAreMounted(name, s);
    forall v: Volume
      ensures v in volumes <==> SourceFor(name, s, v.name) == Some(v.source)
    {
      assert volumes[0] in volumes;
    }
    forall m: Mount
      ensures m in mounts <==>
        && (m.name.Data? || SourceFor(name, s, m.name).Some?)
        && m.path == PathFor(m.name) && m.readOnly == !m.name.Data?
    {
      assert mounts[0] in mounts && mounts[1] in mounts;
    }
  }

  method BuildVolumes(name: string, s: ClusterSpec) returns (volumes: seq<Volume>, mounts: seq<Mount>)
    ensures Matched(name, s, volumes, mounts)
    ensures volumes == Volumes(name, s) && mounts == Mounts(s)
  {
    volumes := [Volume(Config, FromConfigMap(name))];
    mounts := [Mount(Config, CONFIG_MOUNT_PATH, true)];
    if s.tls.Some? && s.tls.value.enabled && !Blank(s.tls.value.secretName) {
      volumes := volumes + [Volume(Tls, FromSecret(s.tls.value.secretName))];
      mounts := mounts + [Mount(Tls, TLS_MOUNT_PATH, true)];
      if s.tls.value.mtlsEnabled && s.tls.value.caSecretName.Some? {
        volumes := volumes + [Volume(TlsCa, FromSecret(s.tls.value.caSecretName.value))];
        mounts := mounts + [Mount(TlsCa, TLS_CA_MOUNT_PATH, true)];
      }
    }
    mounts := [Mount(Data, DATA_MOUNT_PATH, false)] + mounts;
    assert volumes == Volumes(name, s) && mounts == Mounts(s);
    VolumesMatchMounts(name, s);
  }

  // ---------------------------------------------------------------------
  // Environment
  // ---------------------------------------------------------------------

  datatype EnvValue = Literal(text: string) | ListenOn(port: int)

  datatype EnvSource = FieldRef(path: string) | SecretKey(ref: KeyRef) | ConfigMapKey(ref: KeyRef)

  datatype ContainerEnv = ContainerEnv(name: string, value: Option<EnvValue>, source: Option<EnvSource>)

  function BaseEnv(s: ClusterSpec): seq<ContainerEnv> {
    [ContainerEnv("STREAMLINE_CONFIG", Some(Literal(Join(CONFIG_MOUNT_PATH, CONFIG_FILE_NAME))), None),
     ContainerEnv("STREAMLINE_DATA_DIR", Some(Literal(DATA_MOUNT_PATH)), None),
     ContainerEnv("STREAMLINE_LISTEN_ADDR", Some(ListenOn(s.kafkaPort)), None),
     ContainerEnv("STREAMLINE_HTTP_ADDR", Some(ListenOn(s.httpPort)), None),
     ContainerEnv("STREAMLINE_LOG_LEVEL", Some(Literal(s.logLevel)), None),
     ContainerEnv("POD_NAME", None, Some(FieldRef("metadata.name"))),
     ContainerEnv("POD_NAMESPACE", None, Some(FieldRef("metadata.namespace")))]
  }

  function BuildEnvVarSource(r: EnvVarRef): EnvSource {
    match r
    case Secret(ref) => SecretKey(ref)
    case ConfigMap(ref) => ConfigMapKey(ref)
  }

  function RenderedEntry(e: EnvVar): ContainerEnv
    requires ResolveSource(e).Ok?
  {
    match ResolveSource(e).value
    case None => ContainerEnv(e.name, if e.value.Some? then Some(Literal(e.value.value)) else None, None)
    case Some(r) => ContainerEnv(e.name, None, Some(BuildEnvVarSource(r)))
  }

  /** Unmappable entries are dropped. */
  function CustomEnv(env: seq<EnvVar>): seq<ContainerEnv> {
    if env == [] then []
    else
      var e := env[|env| - 1];
      CustomEnv(env[..|env| - 1]) + (if ResolveSource(e).Ok? then [RenderedEntry(e)] else [])
  }

  /** Each entry is rendered, or dropped, by itself and in its place. */
  lemma {:induction false} CustomEnvOfConcat(a: seq<EnvVar>, b: seq<EnvVar>)
    ensures CustomEnv(a + b) == CustomEnv(a) + CustomEnv(b)
  {
    if b == [] {
      assert a + b == a;
    } else {
      var n := |b| - 1;
      assert (a + b)[..|a + b| - 1] == a + b[..n];
      CustomEnvOfConcat(a, b[..n]);
    }
  }

  method BuildEnv(s: ClusterSpec) returns (env: seq<ContainerEnv>, dropped: nat)
    ensures env == BaseEnv(s) + CustomEnv(s.env)
    ensures dropped == |EnvErrors(s.env)|
  {
    env, dropped := BaseEnv(s), 0;
    for k := 0 to |s.env|
      invariant env == BaseEnv(s) + CustomEnv(s.env[..k])
      invariant dropped == |EnvErrors(s.env[..k])|
    {
      assert s.env[..k + 1][..k] == s.env[..k];
      match ResolveSource(s.env[k])
      case Ok(_) => env := env + [RenderedEntry(s.env[k])];
      case Err(_) => dropped := dropped + 1;
    }
    assert s.env[..|s.env|] == s.env;
  }

  // ---------------------------------------------------------------------
  // Objects
  // ---------------------------------------------------------------------

  datatype PortName = Kafka | Http | Raft

  datatype ConfigMapObject = ConfigMapObject(cluster: string, lines: seq<Line>)

  datatype Service = Service(cluster: string, headless: bool, ports: seq<(PortName, int)>)

  datatype StatefulSet = StatefulSet(
    cluster: string, replicas: int, image: string, ports: seq<(PortName, int)>,
    env: seq<ContainerEnv>, volumes: seq<Volume>, mounts: seq<Mount>)

  function RenderConfigMap(name: string, s: ClusterSpec): ConfigMapObject {
    ConfigMapObject(name, ConfigLines(s))
  }

  function AllPorts(s: ClusterSpec): seq<(PortName, int)> {
    [(Kafka, s.kafkaPort), (Http, s.httpPort), (Raft, s.raftPort)]
  }

  function RenderHeadless(name: string, s: ClusterSpec): Service {
    Service(name, true, AllPorts(s))
  }

  function RenderClient(name: string, s: ClusterSpec): Service {
    Service(name, false, [(Kafka, s.kafkaPort), (Http, s.httpPort)])
  }

  function RenderStatefulSet(name: string, s: ClusterSpec): StatefulSet {
    StatefulSet(name, s.replicas, s.image, AllPorts(s),
                BaseEnv(s) + CustomEnv(s.env), Volumes(name, s), Mounts(s))
  }

  method BuildStatefulSet(name: string, s: ClusterSpec) returns (r: StatefulSet)
    ensures r == RenderStatefulSet(name, s)
  {
    var env, _ := BuildEnv(s);
    var volumes, mounts := BuildVolumes(name, s);
    r := StatefulSet(name, s.replicas, s.image, AllPorts(s), env, volumes, mounts);
  }

  // ---------------------------------------------------------------------
  // One address everywhere
  // ---------------------------------------------------------------------

  /** The entry that counts: the last of its name. */
  function EnvEntryOf(env: seq<ContainerEnv>, name: string): Option<ContainerEnv> {
    if env == [] then None
    else if env[|env| - 1].name == name then Some(env[|env| - 1])
    else EnvEntryOf(env[..|env| - 1], name)
  }

  lemma {:induction false} EntryOfConcat(a: seq<ContainerEnv>, b: seq<ContainerEnv>, name: string)
    ensures EnvEntryOf(a + b, name) == if EnvEntryOf(b, name).Some? then EnvEntryOf(b, name) else EnvEntryOf(a, name)
  {
    if b == [] {
      assert a + b == a;
    } else {
      var n := |b| - 1;
      assert (a + b)[..|a + b| - 1] == a + b[..n];
      EntryOfConcat(a, b[..n], name);
    }
  }

  lemma {:induction false} NoEntryOf(env: seq<ContainerEnv>, name: string)
    requires forall e <- env :: e.name != name
    ensures EnvEntryOf(env, name).None?
  {
    if env != [] {
      NoEntryOf(env[..|env| - 1], name);
    }
  }

  lemma {:induction false} CustomNames(env: seq<EnvVar>)
    ensures forall e <- CustomEnv(env) :: exists x <- env :: x.name == e.name
  {
    if env != [] {
      var n := |env| - 1;
      CustomNames(env[..n]);
      assert forall x <- env[..n] :: x in env;
      assert env[n] in env;
    }
  }

  lemma {:induction false} UniqueEntry(env: seq<ContainerEnv>, k: nat)
    requires k < |env| && forall j | k < j < |env| :: env[j].name != env[k].name
    ensures EnvEntryOf(env, env[k].name) == Some(env[k])
  {
    if k < |env| - 1 {
      UniqueEntry(env[..|env| - 1], k);
    }
  }

  lemma NamesDiffer(s: ClusterSpec)
    ensures forall j, k | 0 <= j < k < |BaseEnv(s)| :: BaseEnv(s)[k].name != BaseEnv(s)[j].name
  {
    var env := BaseEnv(s);
    assert |env[0].name| == 17 && |env[1].name| == 19 && |env[2].name| == 22 && |env[3].name| == 20;
    assert |env[4].name| == 20 && |env[5].name| == 8 && |env[6].name| == 13;
    assert env[3].name[11] == 'H' && env[4].name[11] == 'L';
  }

  /** The broker is told this, unless the spec has an entry of that name. */
  predicate Tells(env: seq<ContainerEnv>, s: ClusterSpec, entry: ContainerEnv) {
    (forall e <- s.env :: e.name != entry.name) ==> EnvEntryOf(env, entry.name) == Some(entry)
  }

  lemma BaseIsTold(s: ClusterSpec, k: nat)
    requires k < |BaseEnv(s)|
    ensures Tells(BaseEnv(s) + CustomEnv(s.env), s, BaseEnv(s)[k])
  {
    var name := BaseEnv(s)[k].name;
    if forall e <- s.env :: e.name != name {
      NamesDiffer(s);
      CustomNames(s.env);
      UniqueEntry(BaseEnv(s), k);
      NoEntryOf(CustomEnv(s.env), name);
      EntryOfConcat(BaseEnv(s), CustomEnv(s.env), name);
    }
  }

  lemma ServerSettings(s: ClusterSpec)
    ensures
      var lines := ConfigLines(s);
      && ReadBack(lines, Server, ListenAddr) == Some(Address(s.kafkaPort))
      && ReadBack(lines, Server, HttpAddr) == Some(Address(s.httpPort))
      && ReadBack(lines, Server, DataDir) == Some(Path("/data"))
      && ReadBack(lines, Server, LogLevel) == Some(Text(s.logLevel))
  {
    ConfigReadsBack(s, Server, ListenAddr);
    ConfigReadsBack(s, Server, HttpAddr);
    ConfigReadsBack(s, Server, DataDir);
    ConfigReadsBack(s, Server, LogLevel);
  }

  lemma SharedSettings(s: ClusterSpec)
    ensures
      var env := BaseEnv(s) + CustomEnv(s.env);
      && Tells(env, s, ContainerEnv("STREAMLINE_LISTEN_ADDR", Some(ListenOn(s.kafkaPort)), None))
      && Tells(env, s, ContainerEnv("STREAMLINE_HTTP_ADDR", Some(ListenOn(s.httpPort)), None))
      && Tells(env, s, ContainerEnv("STREAMLINE_DATA_DIR", Some(Literal("/data")), None))
      && Tells(env, s, ContainerEnv("STREAMLINE_LOG_LEVEL", Some(Literal(s.logLevel)), None))
  {
    BaseIsTold(s, 1);
    BaseIsTold(s, 2);
    BaseIsTold(s, 3);
    BaseIsTold(s, 4);
  }

  /** Either mechanism yields the same values: what the broker reads in the configuration
      file is what its environment says, unless the spec has an entry of that name; the
      environment points to that file and to the pod's own name and namespace. */
  lemma EnvironmentAgreesWithConfig(name: string, s: ClusterSpec)
    ensures
      var lines := RenderConfigMap(name, s).lines;
      && ReadBack(lines, Server, ListenAddr) == Some(Address(s.kafkaPort))
      && ReadBack(lines, Server, HttpAddr) == Some(Address(s.httpPort))
      && ReadBack(lines, Server, DataDir) == Some(Path("/data"))
      && ReadBack(lines, Server, LogLevel) == Some(Text(s.logLevel))
    ensures
      var env := RenderStatefulSet(name, s).env;
      && Tells(env, s, ContainerEnv("STREAMLINE_LISTEN_ADDR", Some(ListenOn(s.kafkaPort)), None))
      && Tells(env, s, ContainerEnv("STREAMLINE_HTTP_ADDR", Some(ListenOn(s.httpPort)), None))
      && Tells(env, s, ContainerEnv("STREAMLINE_DATA_DIR", Some(Literal("/data")), None))
      && Tells(env, s, ContainerEnv("STREAMLINE_LOG_LEVEL", Some(Literal(s.logLevel)), None))
      && Tells(env, s, ContainerEnv("STREAMLINE_CONFIG", Some(Literal("/etc/streamline/streamline.toml")), None))
      && Tells(env, s, ContainerEnv("POD_NAME", None, Some(FieldRef("metadata.name"))))
      && Tells(env, s, ContainerEnv("POD_NAMESPACE", None, Some(FieldRef("metadata.namespace"))))
  {
    ServerSettings(s);
    SharedSettings(s);
    OwnSettings(s);
  }

  lemma OwnSettings(s: ClusterSpec)
    ensures
      var env := BaseEnv(s) + CustomEnv(s.env);
      && Tells(env, s, ContainerEnv("STREAMLINE_CONFIG", Some(Literal("/etc/streamline/streamline.toml")), None))
      && Tells(env, s, ContainerEnv("POD_NAME", None, Some(FieldRef("metadata.name"))))
      && Tells(env, s, ContainerEnv("POD_NAMESPACE", None, Some(FieldRef("metadata.namespace"))))
  {
    BaseIsTold(s, 0);
    BaseIsTold(s, 5);
    BaseIsTold(s, 6);
    assert Join(CONFIG_MOUNT_PATH, CONFIG_FILE_NAME) == "/etc/streamline/streamline.toml";
  }

  /** The ports that container and Services publish are the spec's, each under its own name
      and once; clients do not see the Raft port, and a port is published only where the
      container listens. */
  lemma PortsAreTheSpecs(name: string, s: ClusterSpec, p: int)
    ensures
      var pods, headless, client := RenderStatefulSet(name, s), RenderHeadless(name, s), RenderClient(name, s);
      && pods.cluster == headless.cluster == client.cluster == RenderConfigMap(name, s).cluster == name
      && pods.replicas == s.replicas && pods.image == s.image && headless.headless && !client.headless
      && |pods.ports| == |headless.ports| == 3 && |client.ports| == 2
      && ((Kafka, p) in pods.ports <==> p == s.kafkaPort) && ((Http, p) in pods.ports <==> p == s.httpPort)
      && ((Raft, p) in pods.ports <==> p == s.raftPort)
      && (forall n: PortName :: (n, p) in headless.ports <==> (n, p) in pods.ports)
      && (forall n: PortName :: (n, p) in client.ports <==> !n.Raft? && (n, p) in pods.ports)
  {
    var pods, headless, client := RenderStatefulSet(name, s), RenderHeadless(name, s), RenderClient(name, s);
    assert pods.ports[0] == (Kafka, s.kafkaPort) && pods.ports[1] == (Http, s.httpPort);
    assert pods.ports[2] == (Raft, s.raftPort) && headless.ports == pods.ports;
    assert client.ports[0] == pods.ports[0] && client.ports[1] == pods.ports[1];
  }

  // ---------------------------------------------------------------------
  // The renderer agrees with the validator
  // ---------------------------------------------------------------------

  predicate IsTlsPath(l: Line) {
    l.Entry? && (l.key.Cert? || l.key.CertKey? || l.key.CaCert?)
  }

  /** The Secret a TLS path has to come from. */
  function SecretBehind(l: Line, tls: ClusterTls): Option<string>
    requires IsTlsPath(l)
  {
    if l.key.CaCert? then tls.caSecretName else Some(tls.secretName)
  }

  /** The path lies under a read-only mount whose volume is the Secret meant for it. */
  predicate MountedFromItsSecret(name: string, s: ClusterSpec, l: Line)
    requires IsTlsPath(l) && l.value.Path? && s.tls.Some?
  {
    exists m <- Mounts(s), v <- Volumes(name, s) ::
      m.readOnly && Under(l.value.path, m.path) && v.name == m.name
      && v.source.FromSecret? && Some(v.source.secret) == SecretBehind(l, s.tls.value)
  }

  /** A path named in the configuration is there for the broker to read: it is mounted
      from the Secret meant for it, and that Secret has a name. */
  predicate Mounted(name: string, s: ClusterSpec, l: Line)
    requires IsTlsPath(l) && l.value.Path? && s.tls.Some?
  {
    && MountedFromItsSecret(name, s, l)
    && SecretBehind(l, s.tls.value).Some? && !Blank(SecretBehind(l, s.tls.value).value)
  }

  /** A CA Secret is given, and its name is blank. */
  predicate UnnamedCa(s: ClusterSpec) {
    && s.tls.Some? && s.tls.value.enabled && s.tls.value.mtlsEnabled
    && s.tls.value.caSecretName.Some? && Blank(s.tls.value.caSecretName.value)
  }

  lemma TlsPathsArePaths(s: ClusterSpec, l: Line)
    requires l in ConfigLines(s) && IsTlsPath(l)
    ensures l.value.Path? && s.tls.Some? && s.tls.value.enabled
    ensures l.key.CaCert? ==> s.tls.value.mtlsEnabled
    ensures l.value.path == if l.key.CaCert? then Join(TLS_CA_MOUNT_PATH, "ca.crt")
                            else Join(TLS_MOUNT_PATH, if l.key.Cert? then "tls.crt" else "tls.key")
  {
  }

  lemma TlsLinesExactly(s: ClusterSpec)
    ensures var on := s.tls.Some? && s.tls.value.enabled;
      && ((exists l <- ConfigLines(s) :: l.Entry? && l.key.Cert?) <==> on)
      && ((exists l <- ConfigLines(s) :: l.Entry? && l.key.CertKey?) <==> on)
      && ((exists l <- ConfigLines(s) :: l.Entry? && l.key.CaCert?) <==> on && s.tls.value.mtlsEnabled)
  {
    var lines := ConfigLines(s);
    if s.tls.Some? && s.tls.value.enabled {
      assert lines[7].key.Cert? && lines[8].key.CertKey?;
      if s.tls.value.mtlsEnabled {
        assert lines[10].key.CaCert?;
      }
    }
  }

  lemma MountsExactly(s: ClusterSpec)
    ensures (exists m <- Mounts(s) :: m.name.Tls?) <==> MountsTls(s)
    ensures (exists m <- Mounts(s) :: m.name.TlsCa?) <==> MountsCa(s)
    ensures forall m <- Mounts(s) :: !m.name.Data? ==> m.readOnly
  {
    if MountsTls(s) {
      assert Mounts(s)[2].name.Tls?;
      if MountsCa(s) {
        assert Mounts(s)[3].name.TlsCa?;
      }
    }
  }

  /** Some TLS path has no Secret to fill it: the Secret is not given, or has no name. */
  predicate LacksSecret(s: ClusterSpec) {
    s.tls.Some? && s.tls.value.enabled
    && (Blank(s.tls.value.secretName) || (s.tls.value.mtlsEnabled && s.tls.value.caSecretName.None?) || UnnamedCa(s))
  }

  /** For every spec, accepted or not: every TLS path in the configuration is mounted
      from a Secret with a name if and only if no Secret is missing or unnamed. */
  lemma TlsPathsMountedExactly(name: string, s: ClusterSpec)
    ensures
      (forall l <- ConfigLines(s) | IsTlsPath(l) :: l.value.Path? && s.tls.Some? && Mounted(name, s, l))
      <==> !LacksSecret(s)
    ensures
      (forall l <- ConfigLines(s) | IsTlsPath(l) :: l.value.Path? && s.tls.Some? && MountedFromItsSecret(name, s, l))
      <==> !LacksSecret(s) || (UnnamedCa(s) && !Blank(s.tls.value.secretName))
  {
    if LacksSecret(s) {
      UnmountedPath(name, s);
      if UnnamedCa(s) && !Blank(s.tls.value.secretName) {
        GivenSecretsAreMounted(name, s);
      }
    } else {
      forall l <- ConfigLines(s) | IsTlsPath(l)
        ensures l.value.Path? && s.tls.Some? && Mounted(name, s, l)
      {
        TlsPathsArePaths(s, l);
        MountedPath(name, s, l);
      }
    }
  }

  lemma UnderItsMount(dir: string, file: string)
    ensures Under(Join(dir, file), dir)
  {
  }

  lemma MountedBy(name: string, s: ClusterSpec, l: Line, m: Mount, v: Volume)
    requires IsTlsPath(l) && l.value.Path? && s.tls.Some?
    requires m in Mounts(s) && v in Volumes(name, s) && m.readOnly && v.name == m.name
    requires Under(l.value.path, m.path)
    requires v.source.FromSecret? && Some(v.source.secret) == SecretBehind(l, s.tls.value)
    ensures MountedFromItsSecret(name, s, l)
  {
  }

  lemma MountedPath(name: string, s: ClusterSpec, l: Line)
    requires l in ConfigLines(s) && IsTlsPath(l)
    requires MountsTls(s) && (s.tls.value.mtlsEnabled ==> MountsCa(s))
    ensures l.value.Path? && MountedFromItsSecret(name, s, l)
  {
    TlsPathsArePaths(s, l);
    SecretsAreMounted(name, s);
    if l.key.CaCert? {
      UnderItsMount(TLS_CA_MOUNT_PATH, "ca.crt");
      MountedBy(name, s, l, Mount(TlsCa, TLS_CA_MOUNT_PATH, true),
          Volume(TlsCa, FromSecret(s.tls.value.caSecretName.value)));
    } else {
      UnderItsMount(TLS_MOUNT_PATH, if l.key.Cert? then "tls.crt" else "tls.key");
      MountedBy(name, s, l, Mount(Tls, TLS_MOUNT_PATH, true), Volume(Tls, FromSecret(s.tls.value.secretName)));
    }
  }

  lemma GivenSecretsAreMounted(name: string, s: ClusterSpec)
    requires MountsTls(s) && (s.tls.value.mtlsEnabled ==> MountsCa(s))
    ensures forall l <- ConfigLines(s) | IsTlsPath(l) ::
              l.value.Path? && s.tls.Some? && MountedFromItsSecret(name, s, l)
  {
    forall l <- ConfigLines(s) | IsTlsPath(l)
      ensures l.value.Path? && s.tls.Some? && MountedFromItsSecret(name, s, l)
    {
      TlsPathsArePaths(s, l);
      MountedPath(name, s, l);
    }
  }

  lemma UnmountedPath(name: string, s: ClusterSpec)
    requires LacksSecret(s)
    ensures exists l <- ConfigLines(s) | IsTlsPath(l) :: l.value.Path? && !Mounted(name, s, l)
    ensures !UnnamedCa(s) || Blank(s.tls.value.secretName) ==>
              exists l <- ConfigLines(s) | IsTlsPath(l) :: l.value.Path? && !MountedFromItsSecret(name, s, l)
  {
    var lines := ConfigLines(s);
    var k := if Blank(s.tls.value.secretName) then 7 else 10;
    assert IsTlsPath(lines[k]) && lines[k] in lines;
    TlsPathsArePaths(s, lines[k]);
    assert SecretBehind(lines[k], s.tls.value).None? || Blank(SecretBehind(lines[k], s.tls.value).value);
  }

  lemma {:induction false} CustomEnvDropsTheReported(env: seq<EnvVar>)
    ensures |CustomEnv(env)| + |EnvErrors(env)| == |env|
  {
    if env != [] {
      CustomEnvDropsTheReported(env[..|env| - 1]);
    }
  }

  lemma {:induction false} AcceptedEnvInOrder(env: seq<EnvVar>)
    requires forall e <- env :: ResolveSource(e).Ok?
    ensures |CustomEnv(env)| == |env|
    ensures forall k | 0 <= k < |env| :: CustomEnv(env)[k] == RenderedEntry(env[k])
  {
    if env != [] {
      AcceptedEnvInOrder(env[..|env| - 1]);
    }
  }

  /** An accepted entry is rendered as exactly one of the literal or the reference
      it was written with. */
  lemma RenderedEntryIsFaithful(e: EnvVar)
    requires ResolveSource(e).Ok?
    ensures
      var r := RenderedEntry(e);
      && r.name == e.name
      && (r.value.Some? <==> r.source.None?)
      && (e.value.Some? ==> r.value == Some(Literal(e.value.value)))
      && (e.valueFrom.Some? ==>
            r.source == if e.valueFrom.value.secretKeyRef.Some?
                        then Some(SecretKey(e.valueFrom.value.secretKeyRef.value))
                        else if e.valueFrom.value.configMapKeyRef.Some?
                        then Some(ConfigMapKey(e.valueFrom.value.configMapKeyRef.value))
                        else None)
  {
  }

  /** With the Secrets given, every TLS path is mounted from its own, and TLS mounts and
      TLS keys come and go together. */
  lemma AcceptedTlsIsMounted(name: string, s: ClusterSpec)
    requires s.tls.Some? ==> CompleteTls(s.tls.value)
    ensures forall l <- ConfigLines(s) | IsTlsPath(l) ::
              l.value.Path? && s.tls.Some? && MountedFromItsSecret(name, s, l)
    ensures (exists m <- Mounts(s) :: m.name.Tls?) <==> (exists l <- ConfigLines(s) :: l.Entry? && l.key.Cert?)
    ensures (exists m <- Mounts(s) :: m.name.TlsCa?) <==> (exists l <- ConfigLines(s) :: l.Entry? && l.key.CaCert?)
  {
    if s.tls.Some? && s.tls.value.enabled {
      GivenSecretsAreMounted(name, s);
    }
    TlsLinesExactly(s);
    MountsExactly(s);
  }

  /** Validated means faithfully rendered: every TLS path is mounted read-only from its
      own Secret, each TLS mount exists exactly when its keys are rendered, and every
      environment entry appears once, in order, so nothing is dropped. The one thing an
      accepted spec may lack is a name for its CA Secret: each path's Secret has a name
      if and only if it does not. */
  lemma ValidatedIsFaithfullyRendered(name: string, s: ClusterSpec)
    requires SpecErrors(s) == []
    ensures forall l <- ConfigLines(s) | IsTlsPath(l) ::
              l.value.Path? && s.tls.Some? && MountedFromItsSecret(name, s, l)
    ensures
      (forall l <- ConfigLines(s) | IsTlsPath(l) :: l.value.Path? && s.tls.Some? && Mounted(name, s, l))
      <==> !UnnamedCa(s)
    ensures (exists m <- Mounts(s) :: m.name.Tls?) <==> (exists l <- ConfigLines(s) :: l.Entry? && l.key.Cert?)
    ensures (exists m <- Mounts(s) :: m.name.TlsCa?) <==> (exists l <- ConfigLines(s) :: l.Entry? && l.key.CaCert?)
    ensures |CustomEnv(s.env)| == |s.env| && EnvErrors(s.env) == []
    ensures forall k | 0 <= k < |s.env| ::
              ResolveSource(s.env[k]).Ok? && CustomEnv(s.env)[k] == RenderedEntry(s.env[k])
  {
    AcceptedMeansSupported(s);
    AcceptedTlsIsMounted(name, s);
    TlsPathsMountedExactly(name, s);
    AcceptedEnvInOrder(s.env);
    EnvErrorsNameTheUnmappable(s.env);
  }

  const UNNAMED_CA_SPEC := ClusterSpec(
    1, "streamline", 9092, 9094, 9095, [], false, None, [], "info", None,
    Some(ClusterTls(true, "server-tls", true, Some(""), false)))

  /** Validation asks only that a CA Secret is given, so this spec passes, and it is
      rendered with a volume of a Secret without a name. */
  lemma UnnamedCaIsAccepted(name: string)
    ensures SpecErrors(UNNAMED_CA_SPEC) == [] && UnnamedCa(UNNAMED_CA_SPEC)
    ensures Volume(TlsCa, FromSecret("")) in Volumes(name, UNNAMED_CA_SPEC)
    ensures exists l <- ConfigLines(UNNAMED_CA_SPEC) | IsTlsPath(l) ::
        l.value.Path? && !Mounted(name, UNNAMED_CA_SPEC, l)
  {
    var s := UNNAMED_CA_SPEC;
    assert !Blank("server-tls") by {
      assert "server-tls"[0] == 's' && 's' in "server-tls";
    }
    AcceptedMeansSupported(s);
    UnmountedPath(name, s);
    assert Volumes(name, s)[2] == Volume(TlsCa, FromSecret(""));
  }

  /** The mount points are siblings: none lies inside another. */
  lemma MountsAreSiblings(s: ClusterSpec)
    ensures forall m <- Mounts(s), n <- Mounts(s) :: !Under(m.path, n.path)
  {
    forall m <- Mounts(s), n <- Mounts(s)
      ensures !Under(m.path, n.path)
    {
      if |m.path| > |n.path| {
        var k := |n.path|;
        assert (n.path + "/")[k] == '/';
        assert (CONFIG_MOUNT_PATH + "/")[1] == 'e' && (DATA_MOUNT_PATH + "/")[1] == 'd';
        assert TLS_MOUNT_PATH[15] == '-' && TLS_CA_MOUNT_PATH[15] == '-' && TLS_CA_MOUNT_PATH[19] == '-';
        assert CONFIG_MOUNT_PATH[1] == 'e' && TLS_MOUNT_PATH[1] == 'e' && TLS_CA_MOUNT_PATH[1] == 'e';
      }
    }
  }
}
