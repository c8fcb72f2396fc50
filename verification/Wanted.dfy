/** What the workloads are told and what is recorded, written out: laws of the templates and of
    the first step, in the terms of whoever reads a container or a ConfigMap. */
module Wanted {
  import opened Text
  import opened Flags
  import opened Arguments
  import opened Ports
  import opened HMeta
  import opened Agreement
  import opened Api
  import opened HServer
  import opened Templates
  import opened Cluster
  import opened Steps

  // ---------- default arguments ----------

  /** The user gave no flag of this flag's name. */
  ghost predicate Absent(args: seq<string>, flag: string) { Unnamed(Parse(args).flags, TrimDashes(flag)) }

  /** The flags of a default list are all different. */
  ghost predicate Once(defaults: seq<Entry>) {
    forall x, y :: x in defaults && y in defaults && x.0 == y.0 ==> x == y
  }

  lemma Passed(args: seq<string>, defaults: seq<Entry>, i: nat)
    requires Parse(args).Accepted() && GoodDefaults(defaults) && Once(defaults) && i < |defaults|
    ensures ContainerArgs(args, defaults).Ok?
    ensures Absent(args, defaults[i].0) ==> PassesOn(ContainerArgs(args, defaults).value, defaults[i].0, defaults[i].1)
  {
    hide Run, PassesOn, GoodDefaults;
    ContainerArgsOfAccepted(args, defaults);
    assert defaults[i] in defaults;
    if Absent(args, defaults[i].0) { DefaultPassed(args, defaults, defaults[i]); }
  }

  lemma HStoreDefaultsOnce(n: int)
    ensures Once(HStoreDefaultsRead(n)) && |HStoreDefaultsRead(n)| == 5
    ensures HStoreDefaultsRead(n)[0] == ("--config-path", "/etc/logdevice/config.json")
    ensures HStoreDefaultsRead(n)[1] == ("--address", "$(POD_IP)") && HStoreDefaultsRead(n)[2] == ("--name", "$(POD_NAME)")
    ensures HStoreDefaultsRead(n)[3] == ("--local-log-store-path", "/data/logdevice")
    ensures HStoreDefaultsRead(n)[4] == ("--num-shards", if n < 0 then "" else Itoa(n))
  {
    hide Itoa;
    var es := HStoreDefaultsRead(n);
    assert |es[0].0| == 13 && |es[1].0| == 9 && |es[2].0| == 6 && |es[3].0| == 22 && |es[4].0| == 12;
  }

  /** HStore is told these defaults, each unless the user's arguments name it; a negative shard count is lost on the way. */
  lemma HStoreIsTold(spec: Spec, n: int32)
    requires Parse(spec.hStore.container.args).Accepted() && HStoreTemplate(spec, n).Ok?
    ensures var user, args := spec.hStore.container.args, HStoreTemplate(spec, n).value.args;
            && (Absent(user, "--config-path") ==> PassesOn(args, "--config-path", "/etc/logdevice/config.json"))
            && (Absent(user, "--address") ==> PassesOn(args, "--address", "$(POD_IP)"))
            && (Absent(user, "--name") ==> PassesOn(args, "--name", "$(POD_NAME)"))
            && (Absent(user, "--local-log-store-path") ==> PassesOn(args, "--local-log-store-path", "/data/logdevice"))
            && (Absent(user, "--num-shards") ==> PassesOn(args, "--num-shards", if n < 0 then "" else Itoa(n)))
  {
    hide Run, PassesOn, ContainerArgs, Itoa, Absent, Once, GoodDefaults, WorkloadPorts, ShardMounts, ExtendedEnvs, CommandOr, HStoreDefaultsRead;
    var user := spec.hStore.container.args;
    HStoreDefaultsAreRead(user, n);
    HStoreDefaultsOnce(n);
    Passed(user, HStoreDefaultsRead(n), 0);
    Passed(user, HStoreDefaultsRead(n), 1);
    Passed(user, HStoreDefaultsRead(n), 2);
    Passed(user, HStoreDefaultsRead(n), 3);
    Passed(user, HStoreDefaultsRead(n), 4);
  }

  lemma AdminServerDefaultsOnce()
    ensures Once(ADMIN_SERVER_DEFAULTS)
  {
    var es := ADMIN_SERVER_DEFAULTS;
    assert es[0].0[2] == 'c' && es[1].0[2] == 'e' && es[2].0[2] == 'm' && es[3].0[2] == 'e';
    assert es[1].0[9] == 'm' && es[3].0[9] == 's';
  }

  /** AdminServer is told these, three of them switches with an empty value. */
  lemma AdminServerIsTold(spec: Spec)
    requires Parse(spec.adminServer.container.args).Accepted() && AdminServerTemplate(spec).Ok?
    ensures var user, args := spec.adminServer.container.args, AdminServerTemplate(spec).value.args;
            && (Absent(user, "--config-path") ==> PassesOn(args, "--config-path", "/etc/logdevice/config.json"))
            && (Absent(user, "--enable-maintenance-manager") ==> PassesOn(args, "--enable-maintenance-manager", ""))
            && (Absent(user, "--maintenance-log-snapshotting") ==> PassesOn(args, "--maintenance-log-snapshotting", ""))
            && (Absent(user, "--enable-safety-check-periodic-metadata-update") ==>
                  PassesOn(args, "--enable-safety-check-periodic-metadata-update", ""))
  {
    hide Run, PassesOn, ContainerArgs, Absent, Once, GoodDefaults;
    GoodAdminServerDefaults();
    AdminServerDefaultsOnce();
    Passed(spec.adminServer.container.args, ADMIN_SERVER_DEFAULTS, 0);
    Passed(spec.adminServer.container.args, ADMIN_SERVER_DEFAULTS, 1);
    Passed(spec.adminServer.container.args, ADMIN_SERVER_DEFAULTS, 2);
    Passed(spec.adminServer.container.args, ADMIN_SERVER_DEFAULTS, 3);
  }

  lemma HMetaDefaultsOnce(hdb: Instance, replicas: int)
    ensures Once(HMetaDefaults(hdb, replicas)) && Once(HMetaDefaults(hdb, replicas)[..3] + [("--bootstrap-expect", "")])
  {
    hide Itoa, HeadlessName;
    var es := HMetaDefaults(hdb, replicas);
    assert es[0].0[2] == 'd' && es[1].0[2] == 'j' && es[2].0[2] == 'j' && es[3].0[2] == 'b' && es[4].0[2] == 'd';
    assert |es[0].0| == 12 && |es[4].0| == 14 && es[1].0[7] == 'i' && es[2].0[7] == 'a';
  }

  /** HMeta is told these: how many servers to expect, and the headless name to find them under;
      a negative count, and the name after it, are lost on the way. */
  lemma HMetaIsTold(spec: Spec)
    requires Parse(spec.hMeta.container.args).Accepted() && HMetaTemplate(spec).Ok?
    ensures var user, args, n := spec.hMeta.container.args, HMetaTemplate(spec).value.args, spec.hMeta.replicas;
            && (Absent(user, "--disco-mode") ==> PassesOn(args, "--disco-mode", "dns"))
            && (Absent(user, "--join-interval") ==> PassesOn(args, "--join-interval", "1s"))
            && (Absent(user, "--join-attempts") ==> PassesOn(args, "--join-attempts", "120"))
            && (Absent(user, "--bootstrap-expect") ==> PassesOn(args, "--bootstrap-expect", if n < 0 then "" else Itoa(n)))
            && (Absent(user, "--disco-config") && n >= 0 ==>
                  PassesOn(args, "--disco-config", "{\"name\":\"" + (spec.instance.name + "-internal-hmeta") + "\"}"))
  {
    hide Run, PassesOn, ContainerArgs, Itoa, Absent, Once, GoodDefaults, HeadlessName, HMetaWorkloadPorts;
    var user, ds := spec.hMeta.container.args, HMetaDefaults(spec.instance, spec.hMeta.replicas);
    var negative := spec.hMeta.replicas < 0;
    var told := if negative then ds[..3] + [("--bootstrap-expect", "")] else ds;
    if negative { NegativeHMetaDefaults(spec.instance, spec.hMeta.replicas, user); } else { GoodHMetaDefaults(spec.instance, spec.hMeta.replicas); }
    HMetaDefaultsOnce(spec.instance, spec.hMeta.replicas);
    HeadlessOfHMeta(spec.instance);
    Passed(user, told, 0);
    Passed(user, told, 1);
    Passed(user, told, 2);
    Passed(user, told, 3);
    if !negative { Passed(user, told, 4); }
    assert told[..3] == ds[..3] && told[0] == ds[0] && told[1] == ds[1] && told[2] == ds[2];
  }

  lemma HeadlessOfHMeta(hdb: Instance)
    ensures HeadlessName(hdb, "hmeta") == hdb.name + "-internal-hmeta"
  {
    assert "-internal-" + "hmeta" == "-internal-hmeta";
  }

  // ---------- environment ----------

  /** The value of a variable is that of the first one of its name. */
  lemma {:induction false} EnvNamedFirst(envs: seq<EnvVar>, name: string)
    ensures EnvNamed(envs, name) == None <==> forall e :: e in envs ==> e.name != name
    ensures EnvNamed(envs, name).Some? ==>
              exists i :: 0 <= i < |envs| && envs[i] == EnvVar(name, EnvNamed(envs, name).value) && forall j :: 0 <= j < i ==> envs[j].name != name
    decreases |envs|
  {
    if envs != [] && envs[0].name != name {
      EnvNamedFirst(envs[1..], name);
      assert envs == [envs[0]] + envs[1..];
      if EnvNamed(envs, name).Some? {
        var i :| 0 <= i < |envs[1..]| && envs[1..][i] == EnvVar(name, EnvNamed(envs, name).value)
                 && forall j :: 0 <= j < i ==> envs[1..][j].name != name;
        assert envs[i + 1] == envs[1..][i];
        forall j | 0 <= j < i + 1 ensures envs[j].name != name { if j > 0 { assert envs[j] == envs[1..][j - 1]; } }
      }
    }
  }

  lemma {:induction false} EnvOfBoth(a: seq<EnvVar>, b: seq<EnvVar>, name: string)
    ensures EnvNamed(a + b, name) == if EnvNamed(a, name).Some? then EnvNamed(a, name) else EnvNamed(b, name)
    decreases |a|
  {
    if a == [] {
      assert a + b == b;
    } else {
      assert (a + b)[0] == a[0] && (a + b)[1..] == a[1..] + b;
      EnvOfBoth(a[1..], b, name);
    }
  }

  lemma {:induction false} MissingNamed(envs: seq<EnvVar>, external: seq<EnvVar>, name: string)
    ensures EnvNamed(MissingEnvs(envs, external), name) ==
            if EnvNamed(envs, name).Some? then None else EnvNamed(external, name)
    decreases |external|
  {
    EnvNamedFirst(envs, name);
    if external != [] {
      MissingNamed(envs, external[1..], name);
      var first := if exists e :: e in envs && e.name == external[0].name then [] else [external[0]];
      EnvOfBoth(first, MissingEnvs(envs, external[1..]), name);
      assert first != [] ==> first[0] == external[0] && first[1..] == [];
    }
  }

  /** Extending keeps the given variables in front, and adds a value only for a name they do not have. */
  lemma ExtendedNamed(envs: seq<EnvVar>, external: seq<EnvVar>, name: string)
    ensures EnvNamed(ExtendedEnvs(envs, external), name) ==
            if EnvNamed(envs, name).Some? then EnvNamed(envs, name) else EnvNamed(external, name)
    ensures |ExtendedEnvs(envs, external)| >= |envs| && ExtendedEnvs(envs, external)[..|envs|] == envs
  {
    MissingNamed(envs, external, name);
    EnvOfBoth(envs, MissingEnvs(envs, external), name);
  }

  /** The user's own value of a variable, or the given one. */
  function OwnOr(envs: seq<EnvVar>, name: string, value: Option<string>): Option<string> {
    if EnvNamed(envs, name).Some? then EnvNamed(envs, name) else value
  }

  /** The gateway is told its endpoint, the HServer to use, and TLS on with three paths or off, each unless the user sets it. */
  lemma GatewayIsTold(hdb: Instance, g: Gateway, port: int)
    ensures var mine, env := g.component.container.env, GatewayTemplate(hdb, g, port).env;
            && EnvNamed(env, "ENDPOINT_HOST") == OwnOr(mine, "ENDPOINT_HOST", Some(g.endpoint))
            && EnvNamed(env, "HSTREAM_SERVICE_URL")
               == OwnOr(mine, "HSTREAM_SERVICE_URL", Some("hstream://" + (hdb.name + "-internal-hserver") + "." + hdb.namespace + ":" + Itoa(port)))
            && EnvNamed(env, "ENABLE_TLS") == OwnOr(mine, "ENABLE_TLS", Some(if g.secretRef.Some? then "true" else "false"))
            && EnvNamed(env, "TLS_KEY_PATH") == OwnOr(mine, "TLS_KEY_PATH", if g.secretRef.Some? then Some("/certs/tls.key") else None)
            && EnvNamed(env, "TLS_CERT_PATH") == OwnOr(mine, "TLS_CERT_PATH", if g.secretRef.Some? then Some("/certs/tls.crt") else None)
            && EnvNamed(env, "TLS_CA_PATH") == OwnOr(mine, "TLS_CA_PATH", if g.secretRef.Some? then Some("/certs/ca.crt") else None)
  {
    hide ExtendWith, ExtendedEnvs, EnvNamed, TlsEnvs, ServiceUrl;
    GatewayFinds(hdb, g, port, "ENDPOINT_HOST");
    GatewayFinds(hdb, g, port, "HSTREAM_SERVICE_URL");
    GatewayFinds(hdb, g, port, "ENABLE_TLS");
    GatewayFinds(hdb, g, port, "TLS_KEY_PATH");
    GatewayFinds(hdb, g, port, "TLS_CERT_PATH");
    GatewayFinds(hdb, g, port, "TLS_CA_PATH");
    OwnGatewayEnvs(g.endpoint, ServiceUrl(hdb, port));
    TlsNamed(g.secretRef);
    UrlSays(hdb, port);
  }

  lemma GatewayFinds(hdb: Instance, g: Gateway, port: int, name: string)
    ensures var own := [EnvVar("ENDPOINT_HOST", g.endpoint), EnvVar("HSTREAM_SERVICE_URL", ServiceUrl(hdb, port))];
            EnvNamed(GatewayTemplate(hdb, g, port).env, name)
            == OwnOr(g.component.container.env, name, OwnOr(own, name, EnvNamed(TlsEnvs(g.secretRef), name)))
  {
    hide ExtendWith, ExtendedEnvs, EnvNamed, TlsEnvs, ServiceUrl;
    var mine := g.component.container.env;
    var own := [EnvVar("ENDPOINT_HOST", g.endpoint), EnvVar("HSTREAM_SERVICE_URL", ServiceUrl(hdb, port))];
    ExtendedNamed(mine, own, name);
    ExtendedNamed(ExtendedEnvs(mine, own), TlsEnvs(g.secretRef), name);
  }

  lemma UrlSays(hdb: Instance, port: int)
    ensures ServiceUrl(hdb, port) == "hstream://" + (hdb.name + "-internal-hserver") + "." + hdb.namespace + ":" + Itoa(port)
  {
    HeadlessSays(hdb);
  }

  lemma OwnGatewayEnvs(endpoint: string, url: string)
    ensures var own := [EnvVar("ENDPOINT_HOST", endpoint), EnvVar("HSTREAM_SERVICE_URL", url)];
            && EnvNamed(own, "ENDPOINT_HOST") == Some(endpoint) && EnvNamed(own, "HSTREAM_SERVICE_URL") == Some(url)
            && EnvNamed(own, "ENABLE_TLS") == None && EnvNamed(own, "TLS_KEY_PATH") == None
            && EnvNamed(own, "TLS_CERT_PATH") == None && EnvNamed(own, "TLS_CA_PATH") == None
  {
    var own := [EnvVar("ENDPOINT_HOST", endpoint), EnvVar("HSTREAM_SERVICE_URL", url)];
    assert own[1..] == [EnvVar("HSTREAM_SERVICE_URL", url)] && own[1..][1..] == [];
    assert "HSTREAM_SERVICE_URL"[0] == 'H' && "ENABLE_TLS"[1] == 'N' && "ENABLE_TLS"[2] == 'A' && "ENDPOINT_HOST"[2] == 'D';
    assert "TLS_KEY_PATH"[0] == 'T' && "TLS_CERT_PATH"[0] == 'T' && "TLS_CA_PATH"[0] == 'T';
    NotNamed(own, "ENABLE_TLS");
    NotNamed(own, "TLS_KEY_PATH");
    NotNamed(own, "TLS_CERT_PATH");
    NotNamed(own, "TLS_CA_PATH");
  }

  lemma TlsNamed(secretRef: Option<string>)
    ensures var tls := TlsEnvs(secretRef);
            && EnvNamed(tls, "ENDPOINT_HOST") == None && EnvNamed(tls, "HSTREAM_SERVICE_URL") == None
            && EnvNamed(tls, "ENABLE_TLS") == Some(if secretRef.Some? then "true" else "false")
            && EnvNamed(tls, "TLS_KEY_PATH") == (if secretRef.Some? then Some("/certs/tls.key") else None)
            && EnvNamed(tls, "TLS_CERT_PATH") == (if secretRef.Some? then Some("/certs/tls.crt") else None)
            && EnvNamed(tls, "TLS_CA_PATH") == (if secretRef.Some? then Some("/certs/ca.crt") else None)
  {
    var tls := TlsEnvs(secretRef);
    assert "HSTREAM_SERVICE_URL"[0] == 'H' && "ENABLE_TLS"[1] == 'N' && "ENABLE_TLS"[2] == 'A' && "ENDPOINT_HOST"[2] == 'D';
    assert "TLS_KEY_PATH"[4] == 'K' && |"TLS_CERT_PATH"| == 13 && |"TLS_CA_PATH"| == 11 && |"TLS_KEY_PATH"| == 12;
    if secretRef.Some? {
      assert tls[1..][1..] == tls[2..] && tls[2..][1..] == tls[3..] && tls[3..][1..] == [];
      assert EnvNamed(tls[3..], "TLS_CA_PATH") == Some("/certs/ca.crt");
      assert EnvNamed(tls[2..], "TLS_CERT_PATH") == Some("/certs/tls.crt");
      assert EnvNamed(tls[2..], "TLS_CA_PATH") == EnvNamed(tls[3..], "TLS_CA_PATH");
      assert EnvNamed(tls[1..], "TLS_KEY_PATH") == Some("/certs/tls.key");
      assert EnvNamed(tls[1..], "TLS_CERT_PATH") == EnvNamed(tls[2..], "TLS_CERT_PATH");
      assert EnvNamed(tls[1..], "TLS_CA_PATH") == EnvNamed(tls[2..], "TLS_CA_PATH");
      NotNamed(tls, "ENDPOINT_HOST");
      NotNamed(tls, "HSTREAM_SERVICE_URL");
    } else {
      assert tls[1..] == [];
    }
  }

  lemma NotNamed(envs: seq<EnvVar>, name: string)
    requires forall i :: 0 <= i < |envs| ==> envs[i].name != name
    ensures EnvNamed(envs, name) == None
  {
    EnvNamedFirst(envs, name);
  }

  // ---------- ports and mounts ----------

  /** The number of the first port named `port`. */
  lemma {:induction false} FirstPortFirst(ports: seq<Port>)
    ensures FirstNamedPort(ports) == None <==> forall p :: p in ports ==> p.name != "port"
    ensures FirstNamedPort(ports).Some? ==>
              exists i :: 0 <= i < |ports| && ports[i].name == "port" && FirstNamedPort(ports) == Some(ports[i].containerPort)
                          && forall j :: 0 <= j < i ==> ports[j].name != "port"
    decreases |ports|
  {
    if ports != [] && ports[0].name != "port" {
      var rest := ports[1..];
      FirstPortFirst(rest);
      assert ports == [ports[0]] + rest;
      if FirstNamedPort(rest).Some? {
        var i :| 0 <= i < |rest| && rest[i].name == "port" && FirstNamedPort(rest) == Some(rest[i].containerPort)
                 && forall j :: 0 <= j < i ==> rest[j].name != "port";
        assert ports[i + 1] == rest[i];
        forall j | 0 <= j < i + 1 ensures ports[j].name != "port" { if j > 0 { assert ports[j] == rest[j - 1]; } }
      }
    }
  }

  /** The number of the last port named `port`, or 0. */
  lemma {:induction false} LastPortLast(ports: seq<Port>)
    ensures (forall p :: p in ports ==> p.name != "port") ==> LastPort(ports) == 0
    ensures (exists p :: p in ports && p.name == "port") ==>
              exists i :: 0 <= i < |ports| && ports[i].name == "port" && LastPort(ports) == ports[i].containerPort
                          && forall j :: i < j < |ports| ==> ports[j].name != "port"
    decreases |ports|
  {
    if ports != [] && ports[|ports| - 1].name != "port" {
      var rest := ports[..|ports| - 1];
      LastPortLast(rest);
      assert ports == rest + [ports[|ports| - 1]];
      if exists p :: p in ports && p.name == "port" {
        var i :| 0 <= i < |rest| && rest[i].name == "port" && LastPort(rest) == rest[i].containerPort
                 && forall j :: i < j < |rest| ==> rest[j].name != "port";
        assert ports[i] == rest[i];
        forall j | i < j < |ports| ensures ports[j].name != "port" { if j < |rest| { assert ports[j] == rest[j]; } }
      }
    }
  }

  /** Shard `i` is mounted under its own name, in the directory HStore is told. */
  lemma ShardMounted(n: int, i: nat)
    requires i < n
    ensures |ShardMounts(n)| == n
    ensures ShardMounts(n)[i] == Mount("shard" + Itoa(i), "/data/logdevice/shard" + Itoa(i))
  {
    assert "/data/logdevice" + "/shard" == "/data/logdevice/shard";
  }

  // ---------- the console ----------

  /** The variables that tell the console where HServer is. */
  function AddressEnv(spec: Spec, console: Component): seq<EnvVar> {
    var server := spec.hServer.container;
    var covered := Covered(server.args, ExtendWith(server.ports, [HSERVER_PORT]));
    if "-Dplain.hstream.privateAddress" in Parse(console.container.args).flags || !covered.Ok? then []
    else [EnvVar("HSTREAM_PRIVATE_ADDRESS", (spec.instance.name + "-internal-hserver") + ":" + Itoa(LastPort(covered.value)))]
  }

  function PortEnv(console: Component): seq<EnvVar> {
    if ConsoleTold(console).None? then [EnvVar("SERVER_PORT", "5177")] else []
  }

  lemma ConsoleEnv(spec: Spec, console: Component, name: string)
    requires ConsoleTemplate(spec, console).Ok?
    ensures EnvNamed(ConsoleTemplate(spec, console).value.env, name)
            == OwnOr(console.container.env, name, OwnOr(PortEnv(console), name, EnvNamed(AddressEnv(spec, console), name)))
  {
    hide Run, ExtendWith, ExtendedEnvs, LastPort, Itoa, Covered, Atoi, HeadlessName;
    var mine := console.container.env;
    FiveDigits();
    HeadlessSays(spec.instance);
    ExtendedNamed(mine, PortEnv(console), name);
    ExtendedNamed(if ConsoleTold(console).None? then ExtendedEnvs(mine, PortEnv(console)) else mine, AddressEnv(spec, console), name);
  }

  lemma FiveDigits()
    ensures Itoa(5177) == "5177"
  {
    assert Digits(5) == "5" && Digits(51) == "51" && Digits(517) == "517" && Digits(5177) == "5177";
  }

  lemma NamedOnly(e: EnvVar, name: string)
    ensures EnvNamed([e], name) == if e.name == name then Some(e.value) else None
    ensures EnvNamed([], name) == None
  {
    assert [e][1..] == [];
  }

  /** The console's port: the argument comes before the variable, and the variable before 5177,
      which is then put into the environment too. */
  lemma ConsoleListens(spec: Spec, console: Component)
    requires ConsoleTemplate(spec, console).Ok?
    ensures var c, t := console.container, ConsoleTemplate(spec, console).value;
            var flags := Parse(c.args).flags;
            var variable := EnvNamed(c.env, "SERVER_PORT");
            && ("-Dserver.port" in flags ==>
                  && t.ports == ExtendWith(c.ports, [Port("server-port", IntVal(flags["-Dserver.port"]), "TCP")])
                  && EnvNamed(t.env, "SERVER_PORT") == variable)
            && ("-Dserver.port" !in flags && variable.Some? ==>
                  && t.ports == ExtendWith(c.ports, [Port("server-port", IntVal(variable.value), "TCP")])
                  && EnvNamed(t.env, "SERVER_PORT") == variable)
            && ("-Dserver.port" !in flags && variable.None? ==>
                  && t.ports == ExtendWith(c.ports, [Port("server-port", 5177, "TCP")])
                  && EnvNamed(t.env, "SERVER_PORT") == Some("5177"))
  {
    hide Run, ExtendWith, ExtendedEnvs, EnvNamed, LastPort, Itoa, Covered, Atoi;
    ConsoleEnv(spec, console, "SERVER_PORT");
    NamedOnly(EnvVar("SERVER_PORT", "5177"), "SERVER_PORT");
    AddressNamed(spec, console);
  }

  lemma AddressNamed(spec: Spec, console: Component)
    ensures var envs := AddressEnv(spec, console);
            && EnvNamed(envs, "SERVER_PORT") == None
            && EnvNamed(envs, "HSTREAM_PRIVATE_ADDRESS") == if envs == [] then None else Some(envs[0].value)
    ensures EnvNamed(PortEnv(console), "HSTREAM_PRIVATE_ADDRESS") == None
  {
    hide Run, ExtendWith, LastPort, Itoa, Covered, EnvNamed;
    assert "SERVER_PORT"[0] == 'S' && "HSTREAM_PRIVATE_ADDRESS"[0] == 'H';
    var envs := AddressEnv(spec, console);
    if envs != [] {
      NamedOnly(envs[0], "SERVER_PORT");
      NamedOnly(envs[0], "HSTREAM_PRIVATE_ADDRESS");
    } else {
      NamedOnly(EnvVar("", ""), "SERVER_PORT");
      NamedOnly(EnvVar("", ""), "HSTREAM_PRIVATE_ADDRESS");
    }
    NamedOnly(EnvVar("SERVER_PORT", "5177"), "HSTREAM_PRIVATE_ADDRESS");
  }

  /** The console cannot be built exactly when the port it is told, by the argument or else by the variable, is no number. */
  lemma ConsoleFails(spec: Spec, console: Component)
    requires Parse(console.container.args).status != Panicked
    ensures var flags, variable := Parse(console.container.args).flags, EnvNamed(console.container.env, "SERVER_PORT");
            ConsoleTemplate(spec, console).Err? <==>
              if "-Dserver.port" in flags then Atoi(flags["-Dserver.port"]).None? else variable.Some? && Atoi(variable.value).None?
  {
    hide Run, ExtendWith, ExtendedEnvs, EnvNamed, LastPort, Itoa, Covered, Atoi;
  }

  /** The console is told HServer's headless name and the last port named `port` of HServer's
      Service ports, unless its arguments or its environment name an address. */
  lemma ConsoleIsToldAddress(spec: Spec, console: Component)
    requires ConsoleTemplate(spec, console).Ok?
    ensures var c, t := console.container, ConsoleTemplate(spec, console).value;
            var server := spec.hServer.container;
            var covered := Covered(server.args, ExtendWith(server.ports, [Port("port", 6570, "TCP")]));
            EnvNamed(t.env, "HSTREAM_PRIVATE_ADDRESS") ==
            OwnOr(c.env, "HSTREAM_PRIVATE_ADDRESS",
                  if "-Dplain.hstream.privateAddress" in Parse(c.args).flags || !covered.Ok? then None
                  else Some((spec.instance.name + "-internal-hserver") + ":" + Itoa(LastPort(covered.value))))
  {
    hide Run, ExtendWith, ExtendedEnvs, EnvNamed, LastPort, Itoa, Covered, ConsoleTemplate;
    ConsoleEnv(spec, console, "HSTREAM_PRIVATE_ADDRESS");
    AddressNamed(spec, console);
  }

  // ---------- the Services of a plain resource ----------

  /** Without arguments and ports of the user each Service lists these. */
  lemma DefaultServices(c: Container)
    requires c.args == [] && c.ports == []
    ensures ServicePortsOf([], [], ADMIN_SERVER_PORTS) == Ok([ServicePort("admin-port", "", 6440)])
    ensures ServicePortsOf([], [], HSTORE_PORTS)
            == Ok([ServicePort("port", "TCP", 4440), ServicePort("gossip-port", "TCP", 4441), ServicePort("admin-port", "TCP", 6440)])
    ensures ServicePorts(c) == Ok([ServicePort("port", "TCP", 6570), ServicePort("internal-port", "TCP", 6571)])
    ensures HMetaServicePorts([], []) == Ok([ServicePort("rqlite", "TCP", 4001)])
  {
    hide ExtendWith, Cover, ToService, Run;
    NothingParsed();
    OnePort(ADMIN_SERVER_PORTS[0]);
    OnePort(HMetaPortOf(map[]));
    assert |"port"| == 4 && |"internal-port"| == 13;
    TwoPorts(HSERVER_PORT, INTERNAL_PORT);
    ThreePorts();
    assert [ADMIN_SERVER_PORTS[0]] == ADMIN_SERVER_PORTS;
    CoverNothing(ADMIN_SERVER_PORTS);
    CoverNothing(HSTORE_PORTS);
    CoverNothing([HSERVER_PORT, INTERNAL_PORT]);
    Shown(ADMIN_SERVER_PORTS, [ServicePort("admin-port", "", 6440)]);
    Shown(HSTORE_PORTS, [ServicePort("port", "TCP", 4440), ServicePort("gossip-port", "TCP", 4441), ServicePort("admin-port", "TCP", 6440)]);
    Shown([HSERVER_PORT, INTERNAL_PORT], [ServicePort("port", "TCP", 6570), ServicePort("internal-port", "TCP", 6571)]);
    Shown([HMetaPortOf(map[])], [ServicePort("rqlite", "TCP", 4001)]);
  }

  lemma Shown(ports: seq<Port>, service: seq<ServicePort>)
    requires |ports| == |service|
    requires forall i :: 0 <= i < |ports| ==>
               service[i].name == ports[i].name && service[i].protocol == ports[i].protocol && service[i].port == ports[i].containerPort
    ensures ToService(ports) == service
  {
  }

  lemma OnePort(p: Port)
    requires p.name != ""
    ensures ExtendWith([], [p]) == [p]
  {
    ExtendByOne([], p);
    assert [] + [p] == [p];
  }

  lemma TwoPorts(p: Port, q: Port)
    requires p.name != "" && q.name != "" && p.name != q.name
    ensures ExtendWith([], [p, q]) == [p, q]
  {
    hide ExtendWith;
    OnePort(p);
    ExtendsInTurn([], [p], [q]);
    ExtendByOne([p], q);
    assert [p] + [q] == [p, q];
  }

  lemma ThreePorts()
    ensures ExtendWith([], HSTORE_PORTS) == HSTORE_PORTS
  {
    hide ExtendWith;
    var p, q, r := HSTORE_PORTS[0], HSTORE_PORTS[1], HSTORE_PORTS[2];
    assert p.name[0] == 'p' && q.name[0] == 'g' && r.name[0] == 'a';
    TwoPorts(p, q);
    ExtendsInTurn([], [p, q], [r]);
    ExtendByOne([p, q], r);
    assert [p, q] + [r] == HSTORE_PORTS;
  }

  // ---------- what each workload is made of ----------

  /** Replicas, names, commands and variables of the workloads built from merged arguments. */
  lemma BuiltFromResource(spec: Spec, n: int)
    ensures HMetaTemplate(spec).Ok? ==>
              var t, c := HMetaTemplate(spec).value, spec.hMeta;
              && t.replicas == c.replicas && t.name == OwnName(c, "hmeta") && t.command == c.container.command
              && t.env == c.container.env && t.mounts == [] && t.copied == [c.copied, c.container.copied]
    ensures AdminServerTemplate(spec).Ok? ==>
              var t, c := AdminServerTemplate(spec).value, spec.adminServer;
              && t.replicas == c.replicas && t.name == OwnName(c, "admin-server") && t.env == c.container.env
              && t.command == OwnProgram(c, "/usr/local/bin/ld-admin-server")
              && t.mounts == [] && t.copied == [c.copied, c.container.copied]
    ensures HStoreTemplate(spec, n).Ok? ==>
              var t, c := HStoreTemplate(spec, n).value, spec.hStore;
              && t.replicas == c.replicas && t.name == OwnName(c, "hstore")
              && t.command == OwnProgram(c, "/usr/local/bin/logdeviced")
              && EnvNamed(t.env, "POD_NAME") == OwnOr(c.container.env, "POD_NAME", Some("metadata.name"))
              && EnvNamed(t.env, "POD_IP") == OwnOr(c.container.env, "POD_IP", Some("status.podIP"))
              && t.copied == [c.copied, c.container.copied]
  {
    hide ContainerArgs, WorkloadPorts, HMetaWorkloadPorts, HStoreDefaults, HMetaDefaults, ExtendedEnvs, ShardMounts, EnvNamed;
    ExtendedNamed(spec.hStore.container.env, [POD_NAME, POD_IP], "POD_NAME");
    ExtendedNamed(spec.hStore.container.env, [POD_NAME, POD_IP], "POD_IP");
    PodNamed();
  }

  lemma PodNamed()
    ensures EnvNamed([POD_NAME, POD_IP], "POD_NAME") == Some("metadata.name")
    ensures EnvNamed([POD_NAME, POD_IP], "POD_IP") == Some("status.podIP")
    ensures EnvNamed([POD_NAME], "POD_NAME") == Some("metadata.name")
  {
    assert [POD_NAME, POD_IP][1..] == [POD_IP] && |POD_NAME.name| == 8 && |POD_IP.name| == 6;
  }

  function OwnName(c: Component, otherwise: string): string {
    if |c.container.name| > 0 then c.container.name else otherwise
  }

  function OwnProgram(c: Component, otherwise: string): seq<string> {
    if |c.container.command| > 0 then c.container.command else [otherwise]
  }

  /** The HServer container runs the user's command as it is given, and else one shell line: the
      binary, the managed flags the user did not give, and the user's arguments. */
  lemma HServerRuns(spec: Spec)
    requires HServerTemplate(spec).Ok?
    ensures var t, c := HServerTemplate(spec).value, spec.hServer;
            var own := |c.container.command| > 0 || (|c.container.args| > 0 && RunsShell(c.container.args[0]));
            && t.replicas == c.replicas && t.name == OwnName(c, "hserver") && t.copied == [c.copied, c.container.copied]
            && EnvNamed(t.env, "POD_NAME") == OwnOr(c.container.env, "POD_NAME", Some("metadata.name"))
            && (own ==> t.command == c.container.command && t.args == c.container.args)
            && (!own ==> t.command == ["bash", "-c"] && |t.args| == 1
                         && exists managed :: t.args[0] == Join(["/usr/local/bin/hstream-server"] + managed + c.container.args, " ")
                                              && managed == Pairs(HServer.Missing(Parse(c.container.args).flags, Managed(spec))))
  {
    hide Run, Managed, HServer.Missing, Join, ExtendedEnvs, EnvNamed, StatefulSetPorts, HServerView;
    ExtendedNamed(spec.hServer.container.env, [POD_NAME], "POD_NAME");
    PodNamed();
  }

  /** The first argument starts like a shell line. */
  ghost predicate RunsShell(arg: string) {
    || (|arg| >= 4 && arg[..4] == "bash")
    || (|arg| >= 2 && (arg[..2] == "sh" || arg[..2] == "-c"))
  }

  /** The gateway runs the user's command, and lists its own port unless the user names a port so. */
  lemma GatewayRuns(hdb: Instance, g: Gateway, port: int)
    ensures var t, c := GatewayTemplate(hdb, g, port), g.component;
            && t.replicas == c.replicas && t.name == OwnName(c, "gateway") && t.command == c.container.command
            && t.args == c.container.args && t.mounts == []
            && t.ports == (if exists p :: p in c.container.ports && p.name == "port" then c.container.ports
                           else c.container.ports + [Port("port", g.port, "")])
            && t.copied == (if g.secretRef.Some? then [c.copied, c.container.copied, g.secretRef.value] else [c.copied, c.container.copied])
  {
    hide ExtendWith, ExtendedEnvs, TlsEnvs, ServiceUrl;
    var ports := g.component.container.ports;
    ExtendByOne(ports, Port("port", g.port, ""));
    NamedIn(ports, "port");
  }

  lemma NamedIn(ports: seq<Port>, name: string)
    ensures Named(ports, name) <==> exists p :: p in ports && p.name == name
  {
    if Named(ports, name) {
      var j :| 0 <= j < |ports| && ports[j].name == name;
      assert ports[j] in ports;
    }
  }

  lemma ConsoleRuns(spec: Spec, console: Component)
    requires ConsoleTemplate(spec, console).Ok?
    ensures var t, c := ConsoleTemplate(spec, console).value, console;
            && t.replicas == c.replicas && t.name == OwnName(c, "console") && t.command == c.container.command
            && t.args == c.container.args && t.mounts == [] && t.copied == [c.copied, c.container.copied]
  {
    hide Run, ExtendWith, ExtendedEnvs, EnvNamed, LastPort, Itoa, Covered, Atoi;
  }

  // ---------- the first step ----------

  /** The LogDevice config is written once, from the resource as the copy shows it. */
  lemma ConfigRecorded(e: Surroundings, s: State)
    ensures var (t, v) := LogDeviceStep(e, s);
            && (s.w.logDevice.Some? ==> t.w.logDevice == s.w.logDevice)
            && (v == Go ==> t.w.logDevice.Some?)
            && (s.w.logDevice.None? && t.w.logDevice.Some? ==>
                  var spec, config := s.copy.spec, t.w.logDevice.value;
                  && config.nodeNum == spec.hStore.replicas && config.existing == spec.logDeviceConfig
                  && (spec.externalHMeta.Some? ==> config.hmetaAddr == spec.externalHMeta.value.Addr())
                  && (spec.externalHMeta.None? ==>
                        config.hmetaAddr == InternalAddr(spec.instance, PortTold(LastBare("--http-addr", spec.hMeta.container.args)))))
  {
    hide Itoa, MinNShards, PortTold, LastBare, HMeta.Read, InternalAddr, HMetaPortOf;
    ReadPort(s.copy.spec.hMeta.container.args);
  }

  lemma ReadPort(args: seq<string>)
    ensures ContainerPortNumber(args) == PortTold(LastBare("--http-addr", args))
  {
    hide HMeta.Read, LastBare, Split, IntVal;
    ReadSetting(map[], "", args, "--http-addr");
  }

  /** The shard count is recorded once, as a numeral: the resource's, or 1 if that is zero; only a failed read leaves it out. */
  lemma CountRecorded(e: Surroundings, s: State)
    ensures var (t, v) := LogDeviceStep(e, s);
            && (s.w.nshards.Some? ==> t.w.nshards == s.w.nshards)
            && (s.w.nshards.None? && t.w.nshards.Some? ==>
                  t.w.nshards.value == Itoa(if s.copy.spec.nShards == 0 then 1 else s.copy.spec.nShards))
            && (v == Go && (forall i :: s.clock <= i < t.clock ==> !e.tape(i).shardReadFails) ==> t.w.nshards.Some?)
  {
    hide Itoa, ConfigFor;
  }

  /** HStore is built for the recorded count if the record is read and is a numeral, and else for the resource's. */
  lemma CountSeen(e: Surroundings, s: State, n: int32)
    requires s.clock > 0
    ensures e.tape(s.clock - 1).shardReadFails || s.w.nshards.None? ==> ShardsSeen(e, s) == s.copy.spec.nShards
    ensures s.w.nshards.Some? && Atoi(s.w.nshards.value).None? ==> ShardsSeen(e, s) == s.copy.spec.nShards
    ensures !e.tape(s.clock - 1).shardReadFails && s.w.nshards == Some(Itoa(n)) ==> ShardsSeen(e, s) == n
  {
    hide Atoi, Itoa, Int32;
    AtoiItoa(n);
  }

  // ---------- the gateway's question ----------

  /** The gateway is told the number of the first port named `port` of the live HServer container, if the read
      succeeds and the container has its expected name and such a port; and 6570 otherwise. */
  lemma GatewayAsks(e: Surroundings, s: State)
    requires s.clock > 0
    ensures var seen := HServerPortSeen(e, s);
            var asked := !e.tape(s.clock - 1).portReadFails && Workload(KHServer) in s.w.objects
                         && s.w.objects[Workload(KHServer)].body.WorkloadBody?
                         && s.w.objects[Workload(KHServer)].body.template.name == OwnName(s.copy.spec.hServer, "hserver");
            && (!asked ==> seen == 6570)
            && (asked ==>
                  var ports := s.w.objects[Workload(KHServer)].body.template.ports;
                  || (seen == 6570 && forall p :: p in ports ==> p.name != "port")
                  || exists i :: 0 <= i < |ports| && ports[i].name == "port" && ports[i].containerPort == seen
                                 && forall j :: 0 <= j < i ==> ports[j].name != "port")
  {
    hide FirstNamedPort;
    if Workload(KHServer) in s.w.objects && s.w.objects[Workload(KHServer)].body.WorkloadBody? {
      FirstPortFirst(s.w.objects[Workload(KHServer)].body.template.ports);
    }
  }
}
