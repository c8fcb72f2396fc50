/** The container builders of internal/controller/add_*.go, step by step as the
    source writes them, each proved to build the template of module Templates. */
module Builders {
  import opened Text
  import opened Flags
  import opened Arguments
  import opened Ports
  import opened HMeta
  import opened Agreement
  import opened Api
  import opened HServer
  import opened Templates

  /** `extendPorts` with a fresh variadic slice. */
  method WithPorts(ports: seq<Port>, external: seq<Port>) returns (r: seq<Port>)
    ensures r == ExtendWith(ports, external)
  {
    var externalPorts := new Port[|external|](i requires 0 <= i < |external| => external[i]);
    assert externalPorts[..] == external;
    r := ExtendPorts(ports, externalPorts);
  }

  /** `container.Args, _ = extendArgs(...)`: a rejected list leaves no arguments. */
  method MergedArgs(args: seq<string>, defaults: seq<string>, ghost entries: seq<Entry>) returns (r: Result<seq<string>>)
    requires defaults == Pairs(entries)
    ensures r == ContainerArgs(args, entries)
  {
    var merged := ExtendArgs(args, defaults);
    match merged
    case Ok(a) => return Ok(a);
    case Err => return Ok([]);
    case Panic => return Panic;
  }

  method ParsePort(args: seq<string>) returns (port: Port, status: Status)
    ensures status == Parse(args).status
    ensures status != Panicked ==> port == PortOrDefault(ParseHMetaPort(args))
  {
    var flags := new FlagSet();
    status := flags.Parse(args);
    if status == Rejected || status == Panicked {
      return DefaultHMetaPort, status;
    }
    if "--http-addr" in flags.actual {
      var slice := Split(flags.actual["--http-addr"], ':');
      if |slice| == 2 {
        return Port("port", IntVal(slice[1]), "TCP"), status;
      }
    }
    return DefaultHMetaPort, status;
  }

  method BuildHMeta(spec: Spec) returns (r: Result<Template>)
    ensures r == HMetaTemplate(spec)
  {
    hide ContainerArgs, HMetaPortOf, ExtendWith, HMetaDefaults, Itoa, HeadlessName;
    var container := spec.hMeta.container;
    if container.name == "" {
      container := container.(name := "hmeta");
    }
    var args := ["--disco-mode", "dns", "--join-interval", "1s", "--join-attempts", "120"];
    args := args + ["--bootstrap-expect", Itoa(spec.hMeta.replicas)];
    args := args + ["--disco-config", "{\"name\":\"" + HeadlessName(spec.instance, "hmeta") + "\"}"];
    HMetaArgList(spec);
    var merged := MergedArgs(container.args, args, HMetaDefaults(spec.instance, spec.hMeta.replicas));
    if !merged.Ok? { return Panic; }
    container := container.(args := merged.value);
    var port, status := ParsePort(container.args);
    if status == Panicked { return Panic; }
    var ports := WithPorts(container.ports, [port]);
    return Ok(Template(spec.hMeta.replicas, container.name, container.command, container.args, ports, container.env, [],
                       [spec.hMeta.copied, container.copied]));
  }

  lemma HMetaArgList(spec: Spec)
    ensures ["--disco-mode", "dns", "--join-interval", "1s", "--join-attempts", "120"]
            + ["--bootstrap-expect", Itoa(spec.hMeta.replicas)]
            + ["--disco-config", "{\"name\":\"" + HeadlessName(spec.instance, "hmeta") + "\"}"]
            == Pairs(HMetaDefaults(spec.instance, spec.hMeta.replicas))
  {
    hide Itoa, HeadlessName;
    var es := HMetaDefaults(spec.instance, spec.hMeta.replicas);
    FivePairs(es);
  }

  lemma FivePairs(es: seq<Entry>)
    requires |es| == 5
    ensures Pairs(es) == [es[0].0, es[0].1, es[1].0, es[1].1, es[2].0, es[2].1, es[3].0, es[3].1, es[4].0, es[4].1]
  {
    FourPairs(es[1..]);
  }

  lemma FourPairs(es: seq<Entry>)
    requires |es| == 4
    ensures Pairs(es) == [es[0].0, es[0].1, es[1].0, es[1].1, es[2].0, es[2].1, es[3].0, es[3].1]
  {
    assert Pairs(es[2..]) == [es[2].0, es[2].1] + Pairs(es[2..][1..]);
    assert Pairs(es[2..][1..]) == [es[3].0, es[3].1] + Pairs(es[2..][1..][1..]);
    assert es[1..][1..] == es[2..];
    assert Pairs(es[1..]) == [es[1].0, es[1].1] + Pairs(es[1..][1..]);
  }

  method BuildAdminServer(spec: Spec) returns (r: Result<Template>)
    ensures r == AdminServerTemplate(spec)
  {
    var container := spec.adminServer.container;
    if container.name == "" {
      container := container.(name := "admin-server");
    }
    if |container.command| == 0 {
      container := container.(command := ["/usr/local/bin/ld-admin-server"]);
    }
    FourPairs(ADMIN_SERVER_DEFAULTS);
    var merged := MergedArgs(container.args,
                             ["--config-path", "/etc/logdevice/config.json", "--enable-maintenance-manager", "",
                              "--maintenance-log-snapshotting", "", "--enable-safety-check-periodic-metadata-update", ""],
                             ADMIN_SERVER_DEFAULTS);
    if !merged.Ok? { return Panic; }
    container := container.(args := merged.value);
    var ports := WithPorts(container.ports, ADMIN_SERVER_PORTS);
    var covered := CoverPortsFromArgs(container.args, ports);
    if !covered.Ok? { return Panic; }
    return Ok(Template(spec.adminServer.replicas, container.name, container.command, container.args, covered.value, container.env, [],
                       [spec.adminServer.copied, container.copied]));
  }

  method BuildHStore(spec: Spec, nShard: int32) returns (r: Result<Template>)
    ensures r == HStoreTemplate(spec, nShard)
  {
    var container := spec.hStore.container;
    var env := ExtendEnvs(container.env, [POD_NAME, POD_IP]);
    container := container.(env := env);
    if container.name == "" {
      container := container.(name := "hstore");
    }
    if |container.command| == 0 {
      container := container.(command := ["/usr/local/bin/logdeviced"]);
    }
    var args := ["--config-path", "/etc/logdevice/config.json", "--address", "$(POD_IP)", "--name", "$(POD_NAME)",
                 "--local-log-store-path", "/data/logdevice"];
    args := args + ["--num-shards", Itoa(nShard)];
    FivePairs(HStoreDefaults(nShard));
    var merged := MergedArgs(container.args, args, HStoreDefaults(nShard));
    if !merged.Ok? { return Panic; }
    container := container.(args := merged.value);
    var ports := WithPorts(container.ports, HSTORE_PORTS);
    var covered := CoverPortsFromArgs(container.args, ports);
    if !covered.Ok? { return Panic; }
    var mounts := MountShards(nShard);
    return Ok(Template(spec.hStore.replicas, container.name, container.command, container.args, covered.value, container.env, mounts,
                       [spec.hStore.copied, container.copied]));
  }

  method MountShards(nShard: int32) returns (mounts: seq<Mount>)
    ensures mounts == ShardMounts(nShard)
  {
    mounts := [];
    var i := 0;
    while i < nShard
      invariant i == |mounts| && (i <= nShard || i == 0)
      invariant forall j :: 0 <= j < i ==> mounts[j] == ShardMounts(nShard)[j]
    {
      mounts := mounts + [Mount("shard" + Itoa(i), "/data/logdevice" + "/shard" + Itoa(i))];
      i := i + 1;
    }
  }

  /** `getPorts`. */
  method GetPorts(container: Container, defaultPorts: seq<Port>) returns (r: Result<seq<ServicePort>>)
    ensures r == ServicePortsOf(container.args, container.ports, defaultPorts)
  {
    var extended := WithPorts(container.ports, defaultPorts);
    var ports := CoverPortsFromArgs(container.args, extended);
    if !ports.Ok? { return Panic; }
    var servicePorts := ConvertToServicePort(ports.value);
    return Ok(servicePorts);
  }

  /** The ports of the HMeta Service; rejected arguments are an error here. */
  method GetHMetaPorts(container: Container) returns (r: Result<seq<ServicePort>>)
    ensures r == HMetaServicePorts(container.args, container.ports)
  {
    var port, status := ParsePort(container.args);
    if status == Panicked { return Panic; }
    if status == Rejected { return Err; }
    var ports := WithPorts(container.ports, [port]);
    var servicePorts := ConvertToServicePort(ports);
    return Ok(servicePorts);
  }

  // ---------- HServer ----------

  lemma {:induction false} MissingAppends(flags: map<string, string>, entries: seq<Entry>, e: Entry)
    ensures Missing(flags, entries + [e]) == Missing(flags, entries) + (if e.0 in flags then [] else [e])
    decreases |entries|
  {
    if entries == [] {
      assert entries + [e] == [e] && [e][1..] == [];
    } else {
      assert (entries + [e])[1..] == entries[1..] + [e] && (entries + [e])[0] == entries[0];
      MissingAppends(flags, entries[1..], e);
    }
  }

  /** The argument list grows by each managed flag the user did not give. */
  lemma ArgsGrow(spec: Spec, n: nat)
    requires n < 10
    ensures var flags, e := Parse(spec.hServer.container.args).flags, Managed(spec)[n];
            ArgsSoFar(spec, n + 1) == ArgsSoFar(spec, n) + (if e.0 in flags then [] else [e.0, e.1])
  {
    hide Managed, Run;
    var flags, entries, e := Parse(spec.hServer.container.args).flags, Managed(spec)[..n], Managed(spec)[n];
    assert Managed(spec)[..n + 1] == entries + [e];
    MissingAppends(flags, entries, e);
    PairsAppend(Missing(flags, entries), if e.0 in flags then [] else [e]);
  }

  method GetHMetaAddr(spec: Spec) returns (r: Result<string>)
    ensures r == HServerView(spec.instance, spec.externalHMeta, spec.hMeta.container.args)
  {
    if spec.externalHMeta.Some? {
      return Ok(spec.externalHMeta.value.Addr());
    }
    var port, status := ParsePort(spec.hMeta.container.args);
    if status == Panicked { return Panic; }
    if status == Rejected { return Err; }
    return Ok(InternalAddr(spec.instance, port.containerPort));
  }

  method GetSeedNodes(spec: Spec) returns (seedNodes: seq<string>)
    requires spec.hServer.replicas >= 0
    ensures seedNodes == SeedNodes(spec.instance, spec.hServer.replicas)
  {
    var nodes := new string[spec.hServer.replicas];
    for i := 0 to nodes.Length
      invariant forall j :: 0 <= j < i ==> nodes[j] == SeedNode(spec.instance, j)
    {
      nodes[i] := SeedNode(spec.instance, i);
    }
    return nodes[..];
  }

  /** One managed flag: appended with its default unless the user gave it. */
  method AddManaged(spec: Spec, flags: map<string, string>, args: seq<string>, flag: string, value: string, ghost n: nat) returns (r: seq<string>)
    requires n < 10 && args == ArgsSoFar(spec, n) && Managed(spec)[n] == (flag, value)
    requires flags == Parse(spec.hServer.container.args).flags
    ensures r == ArgsSoFar(spec, n + 1)
  {
    hide Managed, Run;
    ArgsGrow(spec, n);
    r := args;
    if flag !in flags {
      r := r + [flag, value];
    }
  }

  /** `coverPortsFromArgs(…, extendPorts(ports, p))`: from the user's arguments if
      they name the port's flag, from the list generated so far if not. */
  method SettlePort(user: seq<string>, flags: map<string, string>, soFar: seq<string>, ports: seq<Port>, p: Port) returns (r: Result<seq<Port>>)
    ensures r == OneMorePort(flags, user, soFar, ports, p)
  {
    var extended := WithPorts(ports, [p]);
    if "--" + p.name !in flags {
      r := CoverPortsFromArgs(soFar, extended);
    } else {
      r := CoverPortsFromArgs(user, extended);
    }
  }

  /** `defaultCommandArgsAndPorts`. */
  method DefaultCommandArgsAndPorts(spec: Spec) returns (r: Result<(seq<string>, seq<string>, seq<Port>)>)
    ensures r == CommandArgsAndPorts(spec)
  {
    hide Managed, Run;
    var container := spec.hServer.container;
    if OwnCommand(container) {
      var extended := WithPorts(container.ports, [HSERVER_PORT, INTERNAL_PORT]);
      var own := CoverPortsFromArgs(container.args, extended);
      if !own.Ok? { return Panic; }
      return Ok((container.command, container.args, own.value));
    }
    var parser := new FlagSet();
    var status := parser.Parse(container.args);
    if status == Panicked { return Panic; }
    r := GenerateCommand(spec, parser.actual);
  }

  /** The managed flags up to `--store-admin-host`. */
  method LeadingManaged(spec: Spec, flags: map<string, string>) returns (args: seq<string>)
    requires flags == Parse(spec.hServer.container.args).flags
    ensures args == ArgsSoFar(spec, 5)
  {
    hide Run, HServerView, ArgsSoFar;
    var hdb := spec.instance;
    args := [BINARY];
    NoArgsSoFar(spec);
    args := AddManaged(spec, flags, args, "--config-path", "/etc/hstream/config.yaml", 0);
    args := AddManaged(spec, flags, args, "--bind-address", "0.0.0.0", 1);
    args := AddManaged(spec, flags, args, "--advertised-address", "$(POD_NAME)." + HeadlessName(hdb, "hserver") + "." + hdb.namespace, 2);
    args := AddManaged(spec, flags, args, "--store-config", "/etc/logdevice/config.json", 3);
    args := AddManaged(spec, flags, args, "--store-admin-host", hdb.name + "-admin-server" + "." + hdb.namespace, 4);
  }

  /** The managed flags up to `--port`. */
  method FirstManaged(spec: Spec, flags: map<string, string>) returns (r: Result<seq<string>>)
    requires flags == Parse(spec.hServer.container.args).flags
    ensures r == if "--metastore-uri" !in flags && HServerView(spec.instance, spec.externalHMeta, spec.hMeta.container.args).Panic?
                 then Panic else Ok(ArgsSoFar(spec, 8))
  {
    hide Run, HServerView, ArgsSoFar;
    var args := LeadingManaged(spec, flags);
    if "--metastore-uri" !in flags {
      var hmeta := GetHMetaAddr(spec);
      if hmeta.Panic? { return Panic; }
      args := AddManaged(spec, flags, args, "--metastore-uri", "rq://" + MetastoreAddr(hmeta), 5);
    } else {
      ArgsGrow(spec, 5);
    }
    args := AddManaged(spec, flags, args, "--server-id", "$(hostname | grep -o '[0-9]*$')", 6);
    args := AddManaged(spec, flags, args, "--port", Itoa(HSERVER_PORT.containerPort), 7);
    return Ok(args);
  }

  lemma AllArgs(spec: Spec)
    ensures ArgsSoFar(spec, 10) + spec.hServer.container.args == Tokens(spec)
  {
    hide Managed, Run;
    assert Managed(spec)[..10] == Managed(spec);
  }

  lemma NoArgsSoFar(spec: Spec)
    ensures ArgsSoFar(spec, 0) == [BINARY]
  {
  }

  /** The command line and ports when the user gave no command. */
  method GenerateCommand(spec: Spec, flags: map<string, string>) returns (r: Result<(seq<string>, seq<string>, seq<Port>)>)
    requires !OwnCommand(spec.hServer.container)
    requires Parse(spec.hServer.container.args).status != Panicked && flags == Parse(spec.hServer.container.args).flags
    ensures r == CommandArgsAndPorts(spec)
  {
    hide Run, Join, OwnCommand, Covered, ExtendWith;
    var user := spec.hServer.container.args;
    var first := FirstManaged(spec, flags);
    if first.Panic? { return Panic; }
    var args := first.value;
    var ports := SettlePort(user, flags, args, spec.hServer.container.ports, HSERVER_PORT);
    if !ports.Ok? { return Panic; }
    args := AddManaged(spec, flags, args, "--internal-port", Itoa(INTERNAL_PORT.containerPort), 8);
    ports := SettlePort(user, flags, args, ports.value, INTERNAL_PORT);
    if !ports.Ok? { return Panic; }
    if "--seed-nodes" !in flags {
      if spec.hServer.replicas < 0 { return Panic; }
      var seedNodes := GetSeedNodes(spec);
      args := AddManaged(spec, flags, args, "--seed-nodes", Join(seedNodes, ","), 9);
    } else {
      ArgsGrow(spec, 9);
    }
    AllArgs(spec);
    assert StatefulSetPorts(spec) == ports;
    assert args + user == Tokens(spec);
    return Ok((["bash", "-c"], [Join(args + user, " ")], ports.value));
  }

  method BuildHServer(spec: Spec) returns (r: Result<Template>)
    ensures r == HServerTemplate(spec)
  {
    hide CommandArgsAndPorts;
    var container := spec.hServer.container;
    var env := ExtendEnvs(container.env, [POD_NAME]);
    container := container.(env := env);
    if container.name == "" {
      container := container.(name := "hserver");
    }
    var line := DefaultCommandArgsAndPorts(spec);
    if !line.Ok? { return Panic; }
    var (command, args, ports) := line.value;
    return Ok(Template(spec.hServer.replicas, container.name, command, args, ports, container.env, [],
                       [spec.hServer.copied, container.copied]));
  }

  // ---------- gateway and console ----------

  /** The port loop of `findHServerPort`. */
  method FindPort(ports: seq<Port>) returns (r: Option<int>)
    ensures r == FirstNamedPort(ports)
  {
    for i := 0 to |ports|
      invariant FirstNamedPort(ports[i..]) == FirstNamedPort(ports)
    {
      assert ports[i..][0] == ports[i] && ports[i..][1..] == ports[i + 1..];
      if ports[i].name == "port" {
        return Some(ports[i].containerPort);
      }
    }
    return None;
  }

  method BuildGateway(hdb: Instance, gateway: Gateway, hserverPort: int) returns (t: Template)
    ensures t == GatewayTemplate(hdb, gateway, hserverPort)
  {
    var container := gateway.component.container;
    if container.name == "" {
      container := container.(name := "gateway");
    }
    var ports := WithPorts(container.ports, [Port("port", gateway.port, "")]);
    var address := "hstream://" + HeadlessName(hdb, "hserver") + "." + hdb.namespace + ":" + Itoa(hserverPort);
    var env := ExtendEnvs(container.env, [EnvVar("ENDPOINT_HOST", gateway.endpoint), EnvVar("HSTREAM_SERVICE_URL", address)]);
    var volumes := [gateway.component.copied, container.copied];
    if gateway.secretRef.None? {
      env := ExtendEnvs(env, [EnvVar("ENABLE_TLS", "false")]);
    } else {
      env := ExtendEnvs(env, [EnvVar("ENABLE_TLS", "true"), EnvVar("TLS_KEY_PATH", "/certs/tls.key"),
                              EnvVar("TLS_CERT_PATH", "/certs/tls.crt"), EnvVar("TLS_CA_PATH", "/certs/ca.crt")]);
      volumes := volumes + [gateway.secretRef.value];
    }
    return Template(gateway.component.replicas, container.name, container.command, container.args, ports, env, [], volumes);
  }

  method GenerateContainerPort(p: string) returns (r: Result<Port>)
    ensures r == ConsolePort(Some(p))
  {
    var port := Atoi(p);
    if port.None? { return Err; }
    return Ok(CONSOLE_PORT.(containerPort := Int32(port.value)));
  }

  method HasDefinedPortInEnv(env: seq<EnvVar>) returns (port: Option<string>)
    ensures port == EnvNamed(env, "SERVER_PORT")
  {
    for i := 0 to |env|
      invariant EnvNamed(env[i..], "SERVER_PORT") == EnvNamed(env, "SERVER_PORT")
    {
      assert env[i..][0] == env[i] && env[i..][1..] == env[i + 1..];
      if env[i].name == "SERVER_PORT" {
        return Some(env[i].value);
      }
    }
    return None;
  }

  /** The loop that keeps the last port named `port`. */
  method LastNamedPort(ports: seq<Port>) returns (port: int)
    ensures port == LastPort(ports)
  {
    port := 0;
    for i := 0 to |ports|
      invariant port == LastPort(ports[..i])
    {
      assert ports[..i + 1][..i] == ports[..i];
      if ports[i].name == "port" {
        port := ports[i].containerPort;
      }
    }
    assert ports[..|ports|] == ports;
  }

  method BuildConsole(spec: Spec, console: Component) returns (r: Result<Template>)
    ensures r == ConsoleTemplate(spec, console)
  {
    hide Run, Covered, LastPort, ExtendWith, ExtendedEnvs, EnvNamed, Int32, Atoi;
    var container := console.container;
    if container.name == "" {
      container := container.(name := "console");
    }
    var parser := new FlagSet();
    var status := parser.Parse(container.args);
    if status == Panicked { return Panic; }
    var flags := parser.actual;

    var told: Option<string>;
    if "-Dserver.port" in flags {
      told := Some(flags["-Dserver.port"]);
    } else {
      told := HasDefinedPortInEnv(container.env);
    }
    if told.Some? {
      var port := GenerateContainerPort(told.value);
      if port.Err? { return Err; }
      var ports := WithPorts(container.ports, [port.value]);
      container := container.(ports := ports);
    } else {
      var ports := WithPorts(container.ports, [CONSOLE_PORT]);
      var env := ExtendEnvs(container.env, [EnvVar("SERVER_PORT", Itoa(5177))]);
      container := container.(ports := ports, env := env);
    }

    var address: seq<EnvVar> := [];
    if "-Dplain.hstream.privateAddress" !in flags {
      var server := spec.hServer.container;
      var extended := WithPorts(server.ports, [HSERVER_PORT]);
      var ports := CoverPortsFromArgs(server.args, extended);
      if !ports.Ok? { return Panic; }
      var port := LastNamedPort(ports.value);
      address := [EnvVar("HSTREAM_PRIVATE_ADDRESS", HeadlessName(spec.instance, "hserver") + ":" + Itoa(port))];
    }
    var env := ExtendEnvs(container.env, address);
    return Ok(Template(console.replicas, container.name, container.command, container.args, container.ports, env, [],
                       [console.copied, container.copied]));
  }
}
