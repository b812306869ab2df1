/** What the assembled `apps` array guarantees: its shape and order, the
    shared policy, where its paths lie, and how each environment is layered
    from the overlay and the literal keys written after it. */
module CatalogProperties {
  import opened Wrappers
  import opened JsText
  import opened Paths
  import opened Versions
  import opened EnvFile
  import opened Catalog

  /** No two settings of a spec name the same key, so none is overwritten
      inside its own literal. */
  predicate DistinctKeys(spec: ServiceSpec) {
    forall a, b | 0 <= a < b < |spec.env| :: spec.env[a].key != spec.env[b].key
  }

  /** The port spliced into `args` is read with the same variable and the
      same default as a setting of the same name. */
  predicate PortMirrored(spec: ServiceSpec) {
    spec.args.PortArgs? ==>
      exists j | 0 <= j < |spec.env| ::
        spec.env[j] == Own(spec.args.portKey, spec.args.portDefault)
  }

  /** Every Python service sets `PYTHONPATH` to its directory, and every
      service sets `NODE_ENV` to `production`. */
  predicate ComputedKeys(spec: ServiceSpec) {
    && NodeEnv in spec.env
    && (spec.strategy.PythonProject? ==> PythonPath in spec.env)
  }

  predicate WellFormed(spec: ServiceSpec) {
    DistinctKeys(spec) && PortMirrored(spec) && ComputedKeys(spec)
  }

  lemma AgentsLabsWellFormed() ensures WellFormed(AgentsLabs) {
    assert AgentsLabs.env[0] == PythonPath && AgentsLabs.env[5] == NodeEnv;
  }

  lemma SparkApiWellFormed() ensures WellFormed(SparkApi) {
    assert SparkApi.env[1] == Own(SparkApi.args.portKey, SparkApi.args.portDefault);
    assert SparkApi.env[0] == PythonPath && SparkApi.env[4] == NodeEnv;
  }

  lemma SparkWorkerWellFormed() ensures WellFormed(SparkWorker) {
    assert SparkWorker.env[0] == PythonPath && SparkWorker.env[2] == NodeEnv;
  }

  lemma OmniWellFormed() ensures WellFormed(Omni) {
    assert Omni.env[1] == Own(Omni.args.portKey, Omni.args.portDefault);
    assert Omni.env[0] == PythonPath && Omni.env[4] == NodeEnv;
  }

  lemma ToolsSseWellFormed() ensures WellFormed(ToolsSse) {
    assert ToolsSse.env[1] == Own(ToolsSse.args.portKey, ToolsSse.args.portDefault);
    assert ToolsSse.env[0] == PythonPath && ToolsSse.env[3] == NodeEnv;
  }

  lemma ToolsHttpWellFormed() ensures WellFormed(ToolsHttp) {
    assert ToolsHttp.env[1] == Own(ToolsHttp.args.portKey, ToolsHttp.args.portDefault);
    assert ToolsHttp.env[0] == PythonPath && ToolsHttp.env[3] == NodeEnv;
  }

  lemma UiWellFormed() ensures WellFormed(Ui) {
    assert Ui.env[0] == NodeEnv;
  }

  /** Every spec of the catalog is well formed. */
  lemma ServiceWellFormed(i: nat)
    requires i < |Services|
    ensures WellFormed(Services[i])
  {
    if i == 0 { AgentsLabsWellFormed(); }
    else if i == 1 { SparkApiWellFormed(); }
    else if i == 2 { SparkWorkerWellFormed(); }
    else if i == 3 { OmniWellFormed(); }
    else if i == 4 { ToolsSseWellFormed(); }
    else if i == 5 { ToolsHttpWellFormed(); }
    else { UiWellFormed(); }
  }

  /** Seven descriptors, in the order of the `apps` array. */
  lemma CatalogOrder(envVars: map<string, string>, root: string, versions: seq<string>)
    requires |versions| == |Services|
    ensures var apps := Apps(envVars, root, versions);
      && |apps| == 7
      && apps[0].name == "am-agents-labs"
      && apps[1].name == "automagik-spark-api"
      && apps[2].name == "automagik-spark-worker"
      && apps[3].name == "automagik-omni"
      && apps[4].name == "automagik-tools-sse"
      && apps[5].name == "automagik-tools-http"
      && apps[6].name == "automagik-ui"
  {
    var apps := Apps(envVars, root, versions);
    assert forall i | 0 <= i < 7 :: apps[i].name == Services[i].name;
    ServiceNames();
  }

  lemma ServiceNames()
    ensures Services[0].name == "am-agents-labs"
    ensures Services[1].name == "automagik-spark-api"
    ensures Services[2].name == "automagik-spark-worker"
    ensures Services[3].name == "automagik-omni"
    ensures Services[4].name == "automagik-tools-sse"
    ensures Services[5].name == "automagik-tools-http"
    ensures Services[6].name == "automagik-ui"
  {
  }

  /** A descriptor carries the shared restart and resource policy and the
      version it is given, runs without an interpreter, and has its working
      directory under the install root and its three log files in that
      directory's `logs`. */
  lemma BuildPolicyAndPaths(spec: ServiceSpec, envVars: map<string, string>, root: string, version: string)
    ensures var d := Build(spec, envVars, root, version);
      && d.policy == RestartPolicy(true, "1G", 10, "10s", 1000, 5000)
      && d.interpreter == "none"
      && d.version == version
      && d.cwd == Join(root, spec.dir)
      && root + "/" <= d.cwd
      && d.cwd + "/logs/" <= d.errorFile
      && d.cwd + "/logs/" <= d.outFile
      && d.cwd + "/logs/" <= d.logFile
  {
    PrefixJoin(root, spec.dir + "/logs/", LogFile(spec, "err.log"));
    PrefixJoin(root, spec.dir + "/logs/", LogFile(spec, "out.log"));
    PrefixJoin(root, spec.dir + "/logs/", LogFile(spec, "combined.log"));
  }

  lemma PrefixJoin(root: string, p: string, s: string)
    requires p <= s
    ensures root + "/" + p <= Join(root, s)
  {
    assert Join(root, s) == root + "/" + p + s[|p|..];
  }

  /** The whole catalog shares one policy, lives under the install root and
      carries the versions resolved for it, in order. */
  lemma CatalogPolicyAndPaths(envVars: map<string, string>, root: string, versions: seq<string>)
    requires |versions| == |Services|
    ensures var apps := Apps(envVars, root, versions);
      forall i | 0 <= i < |apps| ::
        && apps[i].policy == RestartPolicy(true, "1G", 10, "10s", 1000, 5000)
        && apps[i].interpreter == "none"
        && apps[i].version == versions[i]
        && root + "/" <= apps[i].cwd
        && apps[i].cwd + "/logs/" <= apps[i].errorFile
        && apps[i].cwd + "/logs/" <= apps[i].outFile
        && apps[i].cwd + "/logs/" <= apps[i].logFile
  {
    var apps := Apps(envVars, root, versions);
    forall i | 0 <= i < |apps|
      ensures apps[i].policy == RestartPolicy(true, "1G", 10, "10s", 1000, 5000)
      ensures apps[i].interpreter == "none"
      ensures apps[i].version == versions[i]
      ensures root + "/" <= apps[i].cwd
      ensures apps[i].cwd + "/logs/" <= apps[i].errorFile
      ensures apps[i].cwd + "/logs/" <= apps[i].outFile
      ensures apps[i].cwd + "/logs/" <= apps[i].logFile
    {
      BuildPolicyAndPaths(Services[i], envVars, root, versions[i]);
    }
  }

  /** Each key written after the spread decides its own entry; every overlay
      key the spec does not name is carried over unchanged; the final keys
      are the overlay's plus the spec's. */
  lemma BuildEnvLayering(spec: ServiceSpec, envVars: map<string, string>, root: string, version: string)
    requires DistinctKeys(spec)
    ensures var d := Build(spec, envVars, root, version);
      && d.env.Keys == envVars.Keys + SettingKeys(spec.env)
      && (forall k | k in envVars && k !in SettingKeys(spec.env) :: d.env[k] == envVars[k])
      && (forall j | 0 <= j < |spec.env| ::
            d.env[spec.env[j].key] == SettingValue(spec.env[j].value, envVars, d.cwd))
  {
    var cwd := Join(root, spec.dir);
    ApplySettingsKeeps(envVars, spec.env, envVars, cwd);
    forall j | 0 <= j < |spec.env|
      ensures ServiceEnv(spec, envVars, cwd)[spec.env[j].key] ==
        SettingValue(spec.env[j].value, envVars, cwd)
    {
      ApplySettingsLastWins(envVars, spec.env, envVars, cwd, j);
    }
  }

  /** The layering, for each descriptor of the catalog. */
  lemma EnvLayering(envVars: map<string, string>, root: string, versions: seq<string>, i: nat)
    requires |versions| == |Services| && i < |Services|
    ensures var d := Apps(envVars, root, versions)[i];
      && d.env.Keys == envVars.Keys + SettingKeys(Services[i].env)
      && (forall k | k in envVars && k !in SettingKeys(Services[i].env) :: d.env[k] == envVars[k])
      && (forall j | 0 <= j < |Services[i].env| ::
            d.env[Services[i].env[j].key] == SettingValue(Services[i].env[j].value, envVars, d.cwd))
  {
    ServiceWellFormed(i);
    BuildEnvLayering(Services[i], envVars, root, versions[i]);
  }

  /** Whatever the overlay says, `NODE_ENV` is `production` and a Python
      service's `PYTHONPATH` is its working directory. */
  lemma BuildComputedKeys(spec: ServiceSpec, envVars: map<string, string>, root: string, version: string)
    requires DistinctKeys(spec) && ComputedKeys(spec)
    ensures var d := Build(spec, envVars, root, version);
      && "NODE_ENV" in d.env && d.env["NODE_ENV"] == "production"
      && (spec.strategy.PythonProject? ==> "PYTHONPATH" in d.env && d.env["PYTHONPATH"] == d.cwd)
  {
    BuildEnvLayering(spec, envVars, root, version);
    var j :| 0 <= j < |spec.env| && spec.env[j] == NodeEnv;
    if spec.strategy.PythonProject? {
      var j' :| 0 <= j' < |spec.env| && spec.env[j'] == PythonPath;
    }
  }

  lemma ComputedKeysWin(envVars: map<string, string>, root: string, versions: seq<string>)
    requires |versions| == |Services|
    ensures var apps := Apps(envVars, root, versions);
      forall i | 0 <= i < |apps| ::
        && "NODE_ENV" in apps[i].env && apps[i].env["NODE_ENV"] == "production"
        && (Services[i].strategy.PythonProject? ==>
              "PYTHONPATH" in apps[i].env && apps[i].env["PYTHONPATH"] == apps[i].cwd)
  {
    var apps := Apps(envVars, root, versions);
    forall i | 0 <= i < |apps|
      ensures "NODE_ENV" in apps[i].env && apps[i].env["NODE_ENV"] == "production"
      ensures Services[i].strategy.PythonProject? ==>
        "PYTHONPATH" in apps[i].env && apps[i].env["PYTHONPATH"] == apps[i].cwd
    {
      ServiceWellFormed(i);
      BuildComputedKeys(Services[i], envVars, root, versions[i]);
    }
  }

  /** A defaulted entry is the overlay value when that is non-empty and the
      literal default otherwise, so `KEY=` with an empty value (or quotes
      only) yields the default. */
  lemma DefaultedEntries(spec: ServiceSpec, envVars: map<string, string>, root: string, version: string, j: nat)
    requires DistinctKeys(spec)
    requires j < |spec.env| && spec.env[j].value.Overlaid?
    ensures var setting := spec.env[j];
      var source := setting.value.source;
      var d := Build(spec, envVars, root, version);
      && setting.key in d.env
      && (source in envVars && envVars[source] != [] ==> d.env[setting.key] == envVars[source])
      && (source !in envVars || envVars[source] == [] ==> d.env[setting.key] == setting.value.fallback)
  {
    BuildEnvLayering(spec, envVars, root, version);
  }

  /** The port in `args` is the very string stored under the port variable
      in the same descriptor's `env`. */
  lemma BuildPortArgs(spec: ServiceSpec, envVars: map<string, string>, root: string, version: string)
    requires DistinctKeys(spec) && PortMirrored(spec) && spec.args.PortArgs?
    ensures var t := spec.args;
      var d := Build(spec, envVars, root, version);
      && t.portKey in d.env
      && d.args == t.before + d.env[t.portKey] + t.after
  {
    var j :| 0 <= j < |spec.env| && spec.env[j] == Own(spec.args.portKey, spec.args.portDefault);
    BuildEnvLayering(spec, envVars, root, version);
  }

  lemma PortArgsMatchEnv(envVars: map<string, string>, root: string, versions: seq<string>, i: nat)
    requires |versions| == |Services| && i < |Services| && Services[i].args.PortArgs?
    ensures var t := Services[i].args;
      var d := Apps(envVars, root, versions)[i];
      && t.portKey in d.env
      && d.args == t.before + d.env[t.portKey] + t.after
  {
    ServiceWellFormed(i);
    BuildPortArgs(Services[i], envVars, root, versions[i]);
  }

  /** The UI's `PORT` comes from `AUTOMAGIK_UI_PORT` (or `8888`), and an
      overlay `PORT` never reaches it. */
  lemma UiPortIgnoresOverlayPort(envVars: map<string, string>, root: string, version: string)
    ensures "PORT" in Build(Ui, envVars, root, version).env
    ensures Build(Ui, envVars, root, version).env["PORT"] ==
      if "AUTOMAGIK_UI_PORT" in envVars && envVars["AUTOMAGIK_UI_PORT"] != [] then
        envVars["AUTOMAGIK_UI_PORT"] else "8888"
  {
    UiWellFormed();
    BuildEnvLayering(Ui, envVars, root, version);
    assert Ui.env[1] == EnvSetting("PORT", Overlaid("AUTOMAGIK_UI_PORT", "8888"));
  }

  /** The six Python services resolve their version with the Python chain in
      their own directory, the UI from its `package.json`. */
  lemma CatalogVersions(root: string, host: Host)
    ensures var versions := ResolvedVersions(root, host);
      && (forall i | 0 <= i < 6 :: versions[i] == ResolvePython(host, Join(root, Services[i].dir)))
      && versions[6] == ResolvePackageJson(host, Join(root, Services[6].dir))
  {
    var versions := ResolvedVersions(root, host);
    forall i | 0 <= i < 6
      ensures versions[i] == ResolvePython(host, Join(root, Services[i].dir))
    {
      PythonServices(i);
    }
    assert Services[6].strategy == NodePackage;
  }

  lemma PythonServices(i: nat)
    requires i < 6
    ensures Services[i].strategy == PythonProject
  {
  }

  /** An overlay setting the Spark API port moves the port in its command
      line to that value. */
  lemma SparkPortFollowsOverlay(envVars: map<string, string>, root: string, version: string, port: string)
    requires "AUTOMAGIK_SPARK_API_PORT" in envVars && envVars["AUTOMAGIK_SPARK_API_PORT"] == port
    requires port != []
    ensures Build(SparkApi, envVars, root, version).args ==
      "automagik_spark.api.app:app --host 0.0.0.0 --port " + port
  {
    assert "automagik_spark.api.app:app --host 0.0.0.0 --port " + port + [] ==
      "automagik_spark.api.app:app --host 0.0.0.0 --port " + port;
  }

  /** The name of the Spark API port variable is a plain `.env` key. */
  lemma SparkPortKeyPlain()
    ensures var key := "AUTOMAGIK_SPARK_API_PORT";
      && key != [] && '=' !in key && '\n' !in key
      && !IsSpace(key[0]) && !IsSpace(key[|key| - 1])
  {
  }

  /** The `.env` file made of the one line `AUTOMAGIK_SPARK_API_PORT=<port>`,
      for a plain port such as `9000`, makes the Spark API listen on that
      port instead of its default 8883. */
  lemma SparkPortFromEnvFile(port: string, root: string, version: string)
    requires port != [] && '=' !in port && '\n' !in port
    requires !IsSpace(port[0]) && !IsSpace(port[|port| - 1])
    requires !IsQuote(port[0]) && !IsQuote(port[|port| - 1])
    ensures var overlay := Overlay(Readable("AUTOMAGIK_SPARK_API_PORT=" + port));
      && overlay.Some?
      && Build(SparkApi, overlay.value, root, version).args ==
           "automagik_spark.api.app:app --host 0.0.0.0 --port " + port
  {
    var key := "AUTOMAGIK_SPARK_API_PORT";
    SparkPortKeyPlain();
    SingleLineOverlay(key, port);
    assert key + "=" + port == "AUTOMAGIK_SPARK_API_PORT=" + port;
    SparkPortFollowsOverlay(map[key := port], root, version, port);
  }
}
