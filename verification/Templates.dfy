/** What the `add*` reconcilers want each workload and Service to be: the part of
    a pod template that is computed rather than copied. */
module Templates {
  import opened Text
  import opened Flags
  import opened Arguments
  import opened Ports
  import opened HMeta
  import opened Agreement
  import opened Api
  import opened HServer

  datatype Mount = Mount(subPath: string, mountPath: string)

  datatype Template = Template(
    replicas: int,
    name: string,
    command: seq<string>,
    args: seq<string>,
    ports: seq<Port>,
    env: seq<EnvVar>,
    mounts: seq<Mount>,
    copied: seq<string>)

  // ---------- environment variables ----------

  function MissingEnvs(envs: seq<EnvVar>, external: seq<EnvVar>): seq<EnvVar> {
    if external == [] then []
    else
      (if exists e :: e in envs && e.name == external[0].name then [] else [external[0]]) + MissingEnvs(envs, external[1..])
  }

  function ExtendedEnvs(envs: seq<EnvVar>, external: seq<EnvVar>): seq<EnvVar> {
    envs + MissingEnvs(envs, external)
  }

  method ExtendEnvs(envs: seq<EnvVar>, externalEnvs: seq<EnvVar>) returns (r: seq<EnvVar>)
    ensures r == ExtendedEnvs(envs, externalEnvs)
  {
    var existingVars: set<string> := {};
    for i := 0 to |envs|
      invariant existingVars == set e | e in envs[..i] :: e.name
    {
      existingVars := existingVars + {envs[i].name};
      assert envs[..i + 1] == envs[..i] + [envs[i]];
    }
    assert envs[..|envs|] == envs;
    r := envs;
    for i := 0 to |externalEnvs|
      invariant r + MissingEnvs(envs, externalEnvs[i..]) == ExtendedEnvs(envs, externalEnvs)
    {
      assert externalEnvs[i..][1..] == externalEnvs[i + 1..];
      assert externalEnvs[i].name in existingVars <==> exists e :: e in envs && e.name == externalEnvs[i].name;
      if externalEnvs[i].name !in existingVars {
        r := r + [externalEnvs[i]];
      }
    }
  }

  // ---------- shared pieces ----------

  function NameOr(name: string, default: string): string { if name == "" then default else name }

  function CommandOr(command: seq<string>, default: string): seq<string> { if command == [] then [default] else command }

  /** `GetMinNShards`. */
  function MinNShards(nShards: int): int { if nShards == 0 then 1 else nShards }

  /** The shard mounts of an HStore container. */
  function ShardMounts(n: int): seq<Mount> {
    seq(if n < 0 then 0 else n, i => Mount("shard" + Itoa(i), "/data/logdevice" + "/shard" + Itoa(i)))
  }

  /** As many mounts as shards, all on different paths. */
  lemma ShardMountsDistinct(n: int)
    requires 0 <= n <= INT64_MAX
    ensures |ShardMounts(n)| == n
    ensures forall i, j :: 0 <= i < j < n ==> ShardMounts(n)[i].mountPath != ShardMounts(n)[j].mountPath
  {
    var m := ShardMounts(n);
    forall i, j | 0 <= i < j < n ensures m[i].mountPath != m[j].mountPath {
      var prefix := "/data/logdevice" + "/shard";
      assert m[i].mountPath[|prefix|..] == Itoa(i) && m[j].mountPath[|prefix|..] == Itoa(j);
      if Itoa(i) == Itoa(j) { ItoaInjective(i, j); }
    }
  }

  const POD_NAME := EnvVar("POD_NAME", "metadata.name")
  const POD_IP := EnvVar("POD_IP", "status.podIP")

  // ---------- the six workloads ----------

  /** HMeta, AdminServer and HStore: arguments merged with defaults, ports by `ports`. */
  ghost function Built(c: Component, name: string, command: seq<string>, args: Result<seq<string>>, ports: Result<seq<Port>>,
                       env: seq<EnvVar>, mounts: seq<Mount>): Result<Template> {
    if args.Ok? && ports.Ok?
    then Ok(Template(c.replicas, NameOr(c.container.name, name), command, args.value, ports.value, env, mounts, [c.copied, c.container.copied]))
    else Panic
  }

  ghost function HMetaTemplate(spec: Spec): Result<Template> {
    var c, defaults := spec.hMeta.container, HMetaDefaults(spec.instance, spec.hMeta.replicas);
    Built(spec.hMeta, "hmeta", c.command, ContainerArgs(c.args, defaults), HMetaWorkloadPorts(c.args, c.ports, defaults), c.env, [])
  }

  ghost function AdminServerTemplate(spec: Spec): Result<Template> {
    var c := spec.adminServer.container;
    Built(spec.adminServer, "admin-server", CommandOr(c.command, "/usr/local/bin/ld-admin-server"),
          ContainerArgs(c.args, ADMIN_SERVER_DEFAULTS),
          WorkloadPorts(c.args, c.ports, ADMIN_SERVER_DEFAULTS, ADMIN_SERVER_PORTS), c.env, [])
  }

  ghost function HStoreTemplate(spec: Spec, nShard: int): Result<Template> {
    var c, defaults := spec.hStore.container, HStoreDefaults(nShard);
    Built(spec.hStore, "hstore", CommandOr(c.command, "/usr/local/bin/logdeviced"),
          ContainerArgs(c.args, defaults), WorkloadPorts(c.args, c.ports, defaults, HSTORE_PORTS),
          ExtendedEnvs(c.env, [POD_NAME, POD_IP]), ShardMounts(nShard))
  }

  /** Command, arguments and ports of the HServer container. */
  function CommandArgsAndPorts(spec: Spec): Result<(seq<string>, seq<string>, seq<Port>)> {
    var c := spec.hServer.container;
    var flags := Parse(c.args).flags;
    match StatefulSetPorts(spec)
    case Ok(ports) =>
      if OwnCommand(c) then Ok((c.command, c.args, ports))
      else if "--metastore-uri" !in flags && HServerView(spec.instance, spec.externalHMeta, spec.hMeta.container.args).Panic? then Panic
      else if "--seed-nodes" !in flags && spec.hServer.replicas < 0 then Panic
      else Ok((["bash", "-c"], [Join(Tokens(spec), " ")], ports))
    case r => Panic
  }

  ghost function HServerTemplate(spec: Spec): Result<Template> {
    var c := spec.hServer.container;
    match CommandArgsAndPorts(spec)
    case Ok((command, args, ports)) =>
      Built(spec.hServer, "hserver", command, Ok(args), Ok(ports), ExtendedEnvs(c.env, [POD_NAME]), [])
    case r => Panic
  }

  function ServiceUrl(hdb: Instance, port: int): string {
    "hstream://" + HeadlessName(hdb, "hserver") + "." + hdb.namespace + ":" + Itoa(port)
  }

  function TlsEnvs(secretRef: Option<string>): seq<EnvVar> {
    match secretRef
    case None => [EnvVar("ENABLE_TLS", "false")]
    case Some(_) => [EnvVar("ENABLE_TLS", "true"), EnvVar("TLS_KEY_PATH", "/certs/tls.key"),
                     EnvVar("TLS_CERT_PATH", "/certs/tls.crt"), EnvVar("TLS_CA_PATH", "/certs/ca.crt")]
  }

  /** The gateway, told to use the given HServer port. */
  function GatewayTemplate(hdb: Instance, g: Gateway, hserverPort: int): Template {
    var c := g.component.container;
    Template(g.component.replicas, NameOr(c.name, "gateway"), c.command, c.args,
             ExtendWith(c.ports, [Port("port", g.port, "")]),
             ExtendedEnvs(ExtendedEnvs(c.env, [EnvVar("ENDPOINT_HOST", g.endpoint), EnvVar("HSTREAM_SERVICE_URL", ServiceUrl(hdb, hserverPort))]),
                          TlsEnvs(g.secretRef)),
             [], [g.component.copied, c.copied] + (if g.secretRef.Some? then [g.secretRef.value] else []))
  }

  const CONSOLE_PORT := Port("server-port", 5177, "TCP")

  function EnvNamed(envs: seq<EnvVar>, name: string): Option<string> {
    if envs == [] then None
    else if envs[0].name == name then Some(envs[0].value)
    else EnvNamed(envs[1..], name)
  }

  /** The port the console is told in its arguments or, failing that, its environment. */
  function ConsoleToldPort(flags: map<string, string>, envs: seq<EnvVar>): Option<string> {
    if "-Dserver.port" in flags then Some(flags["-Dserver.port"]) else EnvNamed(envs, "SERVER_PORT")
  }

  function ConsolePort(told: Option<string>): Result<Port> {
    match told
    case None => Ok(CONSOLE_PORT)
    case Some(p) =>
      match Atoi(p)
      case Some(n) => Ok(CONSOLE_PORT.(containerPort := Int32(n)))
      case None => Err
  }

  /** The number of the first port named `port`, if there is one. */
  function FirstNamedPort(ports: seq<Port>): Option<int> {
    if ports == [] then None
    else if ports[0].name == "port" then Some(ports[0].containerPort)
    else FirstNamedPort(ports[1..])
  }

  /** The number of the last port named `port`. */
  function LastPort(ports: seq<Port>): int {
    if ports == [] then 0
    else if ports[|ports| - 1].name == "port" then ports[|ports| - 1].containerPort
    else LastPort(ports[..|ports| - 1])
  }

  function ConsoleTemplate(spec: Spec, console: Component): Result<Template> {
    var c, server := console.container, spec.hServer.container;
    var flags := Parse(c.args).flags;
    var told := ConsoleToldPort(flags, c.env);
    var covered := Covered(server.args, ExtendWith(server.ports, [HSERVER_PORT]));
    if Parse(c.args).status == Panicked then Panic
    else if ConsolePort(told).Err? then Err
    else if "-Dplain.hstream.privateAddress" !in flags && !covered.Ok? then Panic
    else
      var env := if told.None? then ExtendedEnvs(c.env, [EnvVar("SERVER_PORT", Itoa(5177))]) else c.env;
      var address := if "-Dplain.hstream.privateAddress" in flags then []
                     else [EnvVar("HSTREAM_PRIVATE_ADDRESS",
                                  HeadlessName(spec.instance, "hserver") + ":" + Itoa(LastPort(covered.value)))];
      Ok(Template(console.replicas, NameOr(c.name, "console"), c.command, c.args,
                  ExtendWith(c.ports, [ConsolePort(told).value]), ExtendedEnvs(env, address), [], [console.copied, c.copied]))
  }

  // ---------- who panics ----------

  /** Building the HServer container panics: on its own arguments, or, when the operator
      writes the command line, on HMeta's while looking up the metastore's address, or on
      the seed nodes of a negative replica count. */
  ghost predicate HServerPanics(spec: Spec) {
    var flags := Parse(spec.hServer.container.args).flags;
    || ReachesLoneDash(spec.hServer.container.args)
    || (!OwnCommand(spec.hServer.container) &&
          (|| ("--metastore-uri" !in flags && spec.externalHMeta.None? && ReachesLoneDash(spec.hMeta.container.args))
           || ("--seed-nodes" !in flags && spec.hServer.replicas < 0)))
  }

  function ConsoleTold(console: Component): Option<string> {
    ConsoleToldPort(Parse(console.container.args).flags, console.container.env)
  }

  /** Building the console panics: on its own arguments, or on HServer's while looking up the address to give it. */
  ghost predicate ConsolePanics(spec: Spec, console: Component) {
    || ReachesLoneDash(console.container.args)
    || (ConsolePort(ConsoleTold(console)).Ok?
        && "-Dplain.hstream.privateAddress" !in Parse(console.container.args).flags
        && ReachesLoneDash(spec.hServer.container.args))
  }

  /** Building a workload panics exactly in these cases, and only the console can fail otherwise:
      when it is told a port that is no number. */
  lemma PanicsExactly(spec: Spec, n: int)
    ensures HMetaTemplate(spec).Panic? <==> ReachesLoneDash(spec.hMeta.container.args)
    ensures AdminServerTemplate(spec).Panic? <==> ReachesLoneDash(spec.adminServer.container.args)
    ensures HStoreTemplate(spec, n).Panic? <==> ReachesLoneDash(spec.hStore.container.args)
    ensures HServerTemplate(spec).Panic? <==> HServerPanics(spec)
    ensures !HMetaTemplate(spec).Err? && !AdminServerTemplate(spec).Err? && !HStoreTemplate(spec, n).Err? && !HServerTemplate(spec).Err?
    ensures spec.console.Some? ==>
              var c := spec.console.value;
              && (ConsoleTemplate(spec, c).Panic? <==> ConsolePanics(spec, c))
              && (ConsoleTemplate(spec, c).Err? <==> !ReachesLoneDash(c.container.args) && ConsolePort(ConsoleTold(c)).Err?)
  {
    hide Run, LoneDashAt, HMetaTemplate, AdminServerTemplate, HStoreTemplate, HServerTemplate, ConsoleTemplate, ConsolePanics, HServerPanics;
    PanicExactlyAtLoneDash(spec.hMeta.container.args);
    PanicExactlyAtLoneDash(spec.adminServer.container.args);
    PanicExactlyAtLoneDash(spec.hStore.container.args);
    HMetaPanicsWithParser(spec);
    AdminServerPanicsWithParser(spec);
    HStorePanicsWithParser(spec, n);
    HServerPanicsExactly(spec);
    if spec.console.Some? { ConsolePanicsExactly(spec, spec.console.value); }
  }

  lemma HMetaPanicsWithParser(spec: Spec)
    ensures HMetaTemplate(spec).Panic? <==> Parse(spec.hMeta.container.args).status == Panicked
    ensures !HMetaTemplate(spec).Err?
  {
    hide Run, ContainerArgs;
    HMetaKeys();
    ContainerArgsNeverPanic(spec.hMeta.container.args, HMetaDefaults(spec.instance, spec.hMeta.replicas));
  }

  lemma AdminServerPanicsWithParser(spec: Spec)
    ensures AdminServerTemplate(spec).Panic? <==> Parse(spec.adminServer.container.args).status == Panicked
    ensures !AdminServerTemplate(spec).Err?
  {
    hide Run, ContainerArgs;
    LongKeys();
    ContainerArgsNeverPanic(spec.adminServer.container.args, ADMIN_SERVER_DEFAULTS);
  }

  lemma HStorePanicsWithParser(spec: Spec, n: int)
    ensures HStoreTemplate(spec, n).Panic? <==> Parse(spec.hStore.container.args).status == Panicked
    ensures !HStoreTemplate(spec, n).Err?
  {
    hide Run, ContainerArgs;
    HStoreKeys();
    ContainerArgsNeverPanic(spec.hStore.container.args, HStoreDefaults(n));
  }

  lemma HServerPanicsExactly(spec: Spec)
    ensures HServerTemplate(spec).Panic? <==> HServerPanics(spec)
    ensures !HServerTemplate(spec).Err?
  {
    hide Run, Managed, Tokens, LoneDashAt;
    PanicExactlyAtLoneDash(spec.hMeta.container.args);
    PanicExactlyAtLoneDash(spec.hServer.container.args);
    if !OwnCommand(spec.hServer.container) && Parse(spec.hServer.container.args).status != Panicked { StatefulSetSettles(spec); }
  }

  lemma ConsolePanicsExactly(spec: Spec, c: Component)
    ensures ConsoleTemplate(spec, c).Panic? <==> ConsolePanics(spec, c)
    ensures ConsoleTemplate(spec, c).Err? <==> !ReachesLoneDash(c.container.args) && ConsolePort(ConsoleTold(c)).Err?
  {
    hide Run, LoneDashAt, LastPort, ExtendWith, ExtendedEnvs, Atoi;
    PanicExactlyAtLoneDash(c.container.args);
    PanicExactlyAtLoneDash(spec.hServer.container.args);
  }

  /** A negative replica count that panics, and one that does not because the seed nodes are given. */
  lemma NegativeReplicas(spec: Spec)
    requires spec.hServer.replicas < 0 && spec.hServer.container.command == []
    ensures spec.hServer.container.args == [] ==> HServerTemplate(spec).Panic?
    ensures spec.hServer.container.args == ["--seed-nodes", "a:1"] && spec.externalHMeta.Some? ==> HServerTemplate(spec).Ok?
  {
    hide HServerTemplate, Run;
    PanicExactlyAtLoneDash(spec.hServer.container.args);
    SeedsParsed();
    HServerPanicsExactly(spec);
  }

  lemma SeedsParsed()
    ensures Parse(["--seed-nodes", "a:1"]) == Scan(map["--seed-nodes" := "a:1"], [], "", Exhausted)
    ensures Parse([]) == Scan(map[], [], "", Exhausted)
  {
    var entries := [("--seed-nodes", "a:1")];
    assert IsKey("--seed-nodes");
    ParsedDefaults(entries);
    assert entries[1..] == [] && Pairs(entries) == ["--seed-nodes", "a:1"];
    assert Put(map[], entries) == Put(map[]["--seed-nodes" := "a:1"], entries[1..]);
  }

  /** Something the resource asks for makes the program panic when it is built. */
  ghost predicate CanPanic(spec: Spec) {
    || (spec.externalHMeta.None? && ReachesLoneDash(spec.hMeta.container.args))
    || ReachesLoneDash(spec.adminServer.container.args)
    || ReachesLoneDash(spec.hStore.container.args)
    || HServerPanics(spec)
    || (spec.console.Some? && ConsolePanics(spec, spec.console.value))
  }

  // ---------- the shard count in a template ----------

  lemma ShardDefaultMerged(user: map<string, string>, n: int)
    requires "num-shards" !in Names(user)
    ensures var m := Merge(user, Put(map[], HStoreDefaults(n)));
            "--num-shards" in m && m["--num-shards"] == Itoa(n)
  {
    NameDefault(n);
    assert TrimDashes("--num-shards") == "num-shards" && NameOf("--num-shards") == "num-shards";
    MergeHolds(user, Put(map[], HStoreDefaults(n)), "--num-shards");
  }

  /** The HStore template for `n` shards: that many distinct mounts, and
      `--num-shards n` unless the user's arguments name it or are rejected. */
  lemma ShardsInTemplate(spec: Spec, n: int32)
    requires HStoreTemplate(spec, n).Ok?
    ensures var t, user := HStoreTemplate(spec, n).value, Parse(spec.hStore.container.args);
            && t.mounts == ShardMounts(n)
            && (n >= 0 && user.Accepted() && "num-shards" !in Names(user.flags) ==> PassesOn(t.args, "--num-shards", Itoa(n)))
  {
    hide Print, HStoreDefaults, PassesOn;
    var user := Parse(spec.hStore.container.args);
    if n >= 0 && user.Accepted() && "num-shards" !in Names(user.flags) {
      GoodHStoreDefaults(n);
      ContainerArgsOfAccepted(spec.hStore.container.args, HStoreDefaults(n));
      ShardDefaultMerged(user.flags, n);
      PrintPasses(Merge(user.flags, Put(map[], HStoreDefaults(n))), "--num-shards");
    }
  }
}
