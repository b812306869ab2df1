/** The `apps` array: seven service descriptors, each assembled from the
    install root, the `.env` overlay and the service's resolved version. The
    seven object literals are written here as data (one ServiceSpec each)
    and one builder turns a spec into the descriptor its literal evaluates to. */
module Catalog {
  import opened Wrappers
  import opened Paths
  import opened Versions
  import opened EnvFile

  /** `envVars.key || fallback`: the overlay value unless it is absent or empty. */
  function OrDefault(envVars: map<string, string>, key: string, fallback: string): string {
    if key in envVars && envVars[key] != [] then envVars[key] else fallback
  }

  /** How one entry after `...envVars` in a service's `env` literal is computed. */
  datatype EnvValue =
    | Literal(text: string)                      // `NODE_ENV: 'production'`
    | Overlaid(source: string, fallback: string) // `envVars.source || 'fallback'`
    | ProjectDir                                 // `path.join(INSTALL_ROOT, dir)`

  datatype EnvSetting = EnvSetting(key: string, value: EnvValue)

  /** The `args` string: a literal, or a literal with the port spliced in. */
  datatype ArgsTemplate =
    | PlainArgs(text: string)
    | PortArgs(before: string, portKey: string, portDefault: string, after: string)

  /** Which extractor computes the `version` field. */
  datatype VersionStrategy = PythonProject | NodePackage

  /** One object literal of the `apps` array, with the parts that vary. */
  datatype ServiceSpec = ServiceSpec(
    name: string,
    dir: string,
    script: string,
    args: ArgsTemplate,
    strategy: VersionStrategy,
    env: seq<EnvSetting>,
    logTag: string)

  /** The restart and resource policy every descriptor carries. */
  datatype RestartPolicy = RestartPolicy(
    autorestart: bool,
    maxMemoryRestart: string,
    maxRestarts: nat,
    minUptime: string,
    restartDelay: nat,
    killTimeout: nat)

  const SharedPolicy: RestartPolicy := RestartPolicy(true, "1G", 10, "10s", 1000, 5000)

  /** A resolved descriptor as the supervisor receives it. */
  datatype Descriptor = Descriptor(
    name: string,
    cwd: string,
    script: string,
    args: string,
    interpreter: string,
    version: string,
    env: map<string, string>,
    policy: RestartPolicy,
    errorFile: string,
    outFile: string,
    logFile: string)

  /** A setting that reads the overlay variable of its own name. */
  function Own(key: string, fallback: string): EnvSetting {
    EnvSetting(key, Overlaid(key, fallback))
  }

  const NodeEnv: EnvSetting := EnvSetting("NODE_ENV", Literal("production"))
  const PythonPath: EnvSetting := EnvSetting("PYTHONPATH", ProjectDir)

  const AgentsLabs: ServiceSpec := ServiceSpec(
    "am-agents-labs", "am-agents-labs", ".venv/bin/python", PlainArgs("-m src"), PythonProject,
    [PythonPath,
     Own("AUTOMAGIK_AGENTS_API_PORT", "8881"),
     Own("AUTOMAGIK_AGENTS_API_HOST", "0.0.0.0"),
     Own("AUTOMAGIK_AGENTS_API_KEY", "namastex888"),
     Own("AUTOMAGIK_AGENTS_ENV", "production"),
     NodeEnv],
    "")

  const SparkApi: ServiceSpec := ServiceSpec(
    "automagik-spark-api", "automagik-spark", ".venv/bin/uvicorn",
    PortArgs("automagik_spark.api.app:app --host 0.0.0.0 --port ", "AUTOMAGIK_SPARK_API_PORT", "8883", ""),
    PythonProject,
    [PythonPath,
     Own("AUTOMAGIK_SPARK_API_PORT", "8883"),
     Own("AUTOMAGIK_SPARK_API_HOST", "0.0.0.0"),
     Own("AUTOMAGIK_SPARK_API_KEY", "namastex888"),
     NodeEnv],
    "api-")

  const SparkWorker: ServiceSpec := ServiceSpec(
    "automagik-spark-worker", "automagik-spark", ".venv/bin/python",
    PlainArgs("-m automagik_spark.worker.app"), PythonProject,
    [PythonPath,
     Own("AUTOMAGIK_SPARK_API_KEY", "namastex888"),
     NodeEnv],
    "worker-")

  const Omni: ServiceSpec := ServiceSpec(
    "automagik-omni", "automagik-omni", ".venv/bin/uvicorn",
    PortArgs("src.api.app:app --host 0.0.0.0 --port ", "AUTOMAGIK_OMNI_API_PORT", "8882", ""),
    PythonProject,
    [PythonPath,
     Own("AUTOMAGIK_OMNI_API_PORT", "8882"),
     Own("AUTOMAGIK_OMNI_API_HOST", "0.0.0.0"),
     Own("AUTOMAGIK_OMNI_API_KEY", "namastex888"),
     NodeEnv],
    "")

  const ToolsSse: ServiceSpec := ServiceSpec(
    "automagik-tools-sse", "automagik-tools", ".venv/bin/automagik-tools",
    PortArgs("hub --host 0.0.0.0 --port ", "AUTOMAGIK_TOOLS_SSE_PORT", "8884", " --transport sse"),
    PythonProject,
    [PythonPath,
     Own("AUTOMAGIK_TOOLS_SSE_PORT", "8884"),
     Own("HOST", "0.0.0.0"),
     NodeEnv],
    "sse-")

  const ToolsHttp: ServiceSpec := ServiceSpec(
    "automagik-tools-http", "automagik-tools", ".venv/bin/automagik-tools",
    PortArgs("hub --host 0.0.0.0 --port ", "AUTOMAGIK_TOOLS_HTTP_PORT", "8885", " --transport http"),
    PythonProject,
    [PythonPath,
     Own("AUTOMAGIK_TOOLS_HTTP_PORT", "8885"),
     Own("HOST", "0.0.0.0"),
     NodeEnv],
    "http-")

  const Ui: ServiceSpec := ServiceSpec(
    "automagik-ui", "automagik-ui", "pnpm", PlainArgs("start"), NodePackage,
    [NodeEnv,
     EnvSetting("PORT", Overlaid("AUTOMAGIK_UI_PORT", "8888"))],
    "")

  /** The `apps` array, in its order. */
  const Services: seq<ServiceSpec> := [AgentsLabs, SparkApi, SparkWorker, Omni, ToolsSse, ToolsHttp, Ui]

  /** A log file of the service: `<dir>/logs/<tag><kind>`, e.g.
      `automagik-spark/logs/api-err.log`. */
  function LogFile(spec: ServiceSpec, kind: string): (r: string)
    ensures spec.dir + "/logs/" <= r
    ensures r[|spec.dir| + 6..] == spec.logTag + kind
  {
    spec.dir + "/logs/" + spec.logTag + kind
  }

  /** The value one setting contributes. */
  function SettingValue(v: EnvValue, envVars: map<string, string>, cwd: string): string {
    match v
    case Literal(t) => t
    case Overlaid(source, fallback) => OrDefault(envVars, source, fallback)
    case ProjectDir => cwd
  }

  function SettingKeys(settings: seq<EnvSetting>): set<string> {
    set i | 0 <= i < |settings| :: settings[i].key
  }

  /** The keys written after the spread, left to right, each overriding what
      is already there. */
  function ApplySettings(env: map<string, string>, settings: seq<EnvSetting>,
                         envVars: map<string, string>, cwd: string): map<string, string>
    decreases |settings|
  {
    if settings == [] then env
    else ApplySettings(env[settings[0].key := SettingValue(settings[0].value, envVars, cwd)],
                       settings[1..], envVars, cwd)
  }

  /** Settings keep the keys they do not name, and add exactly their own. */
  lemma {:induction false} ApplySettingsKeeps(env: map<string, string>, settings: seq<EnvSetting>,
                                              envVars: map<string, string>, cwd: string)
    ensures ApplySettings(env, settings, envVars, cwd).Keys == env.Keys + SettingKeys(settings)
    ensures forall k | k in env && k !in SettingKeys(settings) ::
      ApplySettings(env, settings, envVars, cwd)[k] == env[k]
    decreases |settings|
  {
    if settings != [] {
      var s := settings[0];
      var env' := env[s.key := SettingValue(s.value, envVars, cwd)];
      ApplySettingsKeeps(env', settings[1..], envVars, cwd);
      assert SettingKeys(settings) == {s.key} + SettingKeys(settings[1..]) by {
        forall k | k in SettingKeys(settings) ensures k in {s.key} + SettingKeys(settings[1..]) {
          var i :| 0 <= i < |settings| && settings[i].key == k;
          if i > 0 {
            assert settings[1..][i - 1].key == k;
          }
        }
        forall k | k in SettingKeys(settings[1..]) ensures k in SettingKeys(settings) {
          var i :| 0 <= i < |settings[1..]| && settings[1..][i].key == k;
          assert settings[i + 1].key == k;
        }
      }
    }
  }

  /** A key takes the value of the last setting that names it. */
  lemma {:induction false} ApplySettingsLastWins(env: map<string, string>, settings: seq<EnvSetting>,
                                                 envVars: map<string, string>, cwd: string, i: nat)
    requires i < |settings|
    requires forall j | i < j < |settings| :: settings[j].key != settings[i].key
    ensures settings[i].key in ApplySettings(env, settings, envVars, cwd)
    ensures ApplySettings(env, settings, envVars, cwd)[settings[i].key] ==
      SettingValue(settings[i].value, envVars, cwd)
    decreases |settings|
  {
    var s := settings[0];
    var env' := env[s.key := SettingValue(s.value, envVars, cwd)];
    if i == 0 {
      var rest := settings[1..];
      assert forall j | 0 <= j < |rest| :: rest[j].key != s.key by {
        assert forall j | 0 <= j < |rest| :: rest[j] == settings[j + 1];
      }
      ApplySettingsKeeps(env', rest, envVars, cwd);
    } else {
      assert settings[1..][i - 1] == settings[i];
      ApplySettingsLastWins(env', settings[1..], envVars, cwd, i - 1);
    }
  }

  /** The `env` of a descriptor: the spread overlay, then the spec's settings. */
  function ServiceEnv(spec: ServiceSpec, envVars: map<string, string>, cwd: string): map<string, string> {
    ApplySettings(envVars, spec.env, envVars, cwd)
  }

  /** The `args` string. */
  function ArgsText(t: ArgsTemplate, envVars: map<string, string>): string {
    match t
    case PlainArgs(text) => text
    case PortArgs(before, portKey, portDefault, after) =>
      before + OrDefault(envVars, portKey, portDefault) + after
  }

  /** The descriptor one object literal evaluates to. */
  function Build(spec: ServiceSpec, envVars: map<string, string>, root: string, version: string): Descriptor {
    var cwd := Join(root, spec.dir);
    Descriptor(
      spec.name,
      cwd,
      spec.script,
      ArgsText(spec.args, envVars),
      "none",
      version,
      ServiceEnv(spec, envVars, cwd),
      SharedPolicy,
      Join(root, LogFile(spec, "err.log")),
      Join(root, LogFile(spec, "out.log")),
      Join(root, LogFile(spec, "combined.log")))
  }

  /** The `apps` array. */
  function Apps(envVars: map<string, string>, root: string, versions: seq<string>): (apps: seq<Descriptor>)
    requires |versions| == |Services|
    ensures |apps| == |Services|
    ensures forall i | 0 <= i < |Services| :: apps[i] == Build(Services[i], envVars, root, versions[i])
  {
    seq(|Services|, i requires 0 <= i < |Services| => Build(Services[i], envVars, root, versions[i]))
  }

  /** The `version` field of each service, in catalog order. */
  function ServiceVersion(spec: ServiceSpec, root: string, host: Host): string {
    match spec.strategy
    case PythonProject => ResolvePython(host, Join(root, spec.dir))
    case NodePackage => ResolvePackageJson(host, Join(root, spec.dir))
  }

  function ResolvedVersions(root: string, host: Host): (versions: seq<string>)
    ensures |versions| == |Services|
    ensures forall i | 0 <= i < |Services| :: versions[i] == ServiceVersion(Services[i], root, host)
  {
    seq(|Services|, i requires 0 <= i < |Services| => ServiceVersion(Services[i], root, host))
  }

  /** Evaluating the configuration file: load the overlay (which throws when
      `.env` exists but cannot be read), then assemble the `apps` array. */
  method LoadEcosystem(root: string, envFile: EnvSource, host: Host)
    returns (apps: Option<seq<Descriptor>>)
    ensures apps.None? <==> envFile.Unreadable?
    ensures apps.Some? ==> apps.value == Apps(Overlay(envFile).value, root, ResolvedVersions(root, host))
  {
    var envVars := LoadEnvFile(envFile);
    if envVars.None? {
      return None;
    }
    apps := Some(Apps(envVars.value, root, ResolvedVersions(root, host)));
  }
}
