/** The HServer command line and ports: internal/controller/add_hserver.go against
    `addHServerService` of internal/controller/add_services.go. */
module HServer {
  import opened Text
  import opened Flags
  import opened Ports
  import opened HMeta
  import opened Agreement
  import opened Api

  const HSERVER_PORT := Port("port", 6570, "TCP")
  const INTERNAL_PORT := Port("internal-port", 6571, "TCP")
  const BINARY := "/usr/local/bin/hstream-server"

  /** The user runs a command of their own, or a shell line. */
  predicate OwnCommand(c: Container) {
    || |c.command| > 0
    || (|c.args| > 0 && ("bash" <= c.args[0] || "sh" <= c.args[0] || "-c" <= c.args[0]))
  }

  // ---------- the command line ----------

  /** Where a server is reached by the others. */
  function ServerAddress(hdb: Instance, i: int, port: int): string {
    hdb.name + "-hserver" + "-" + Itoa(i) + "." + HeadlessName(hdb, "hserver") + "." + hdb.namespace + ":" + Itoa(port)
  }

  function SeedNode(hdb: Instance, i: int): string { ServerAddress(hdb, i, INTERNAL_PORT.containerPort) }

  function SeedNodes(hdb: Instance, replicas: int): seq<string> {
    seq(if replicas < 0 then 0 else replicas, i => SeedNode(hdb, i))
  }

  /** The address for `--metastore-uri`; an error leaves it empty. */
  function MetastoreAddr(r: Result<string>): string {
    match r
    case Ok(a) => a
    case _ => ""
  }

  /** The flags the operator manages, in order, with their default values. (A
      negative replica count makes the program panic; see `CommandArgsAndPorts`.) */
  function Managed(spec: Spec): (entries: seq<Entry>)
    ensures |entries| == 10
  {
    var hdb := spec.instance;
    [ ("--config-path", "/etc/hstream/config.yaml"),
      ("--bind-address", "0.0.0.0"),
      ("--advertised-address", "$(POD_NAME)." + HeadlessName(hdb, "hserver") + "." + hdb.namespace),
      ("--store-config", "/etc/logdevice/config.json"),
      ("--store-admin-host", hdb.name + "-admin-server" + "." + hdb.namespace),
      ("--metastore-uri", "rq://" + MetastoreAddr(HServerView(hdb, spec.externalHMeta, spec.hMeta.container.args))),
      ("--server-id", "$(hostname | grep -o '[0-9]*$')"),
      ("--port", Itoa(HSERVER_PORT.containerPort)),
      ("--internal-port", Itoa(INTERNAL_PORT.containerPort)),
      ("--seed-nodes", Join(SeedNodes(hdb, spec.hServer.replicas), ",")) ]
  }

  /** The entries whose flag the user did not give. */
  function Missing(flags: map<string, string>, entries: seq<Entry>): seq<Entry> {
    if entries == [] then []
    else (if entries[0].0 in flags then [] else [entries[0]]) + Missing(flags, entries[1..])
  }

  /** The tokens of the generated command line, before they are joined. */
  function Tokens(spec: Spec): seq<string> {
    var user := spec.hServer.container.args;
    [BINARY] + Pairs(Missing(Parse(user).flags, Managed(spec))) + user
  }

  /** Parsing on top of flags already held only overrides them. */
  lemma {:induction false} RunOver(base: map<string, string>, flags: map<string, string>, last: string, args: seq<string>)
    ensures var r := Run(flags, last, args);
            Run(base + flags, last, args) == r.(flags := base + r.flags)
    decreases |args|
  {
    if args != [] {
      var s := args[0];
      if !(Dashed(s) && last != "") {
        match Classify(s)
        case Blank => RunOver(base, flags, "", args[1..]);
        case Flag(k) =>
          assert (base + flags)[k := ""] == base + flags[k := ""];
          RunOver(base, flags[k := ""], k, args[1..]);
        case Assign(k, v) =>
          assert (base + flags)[k := v] == base + flags[k := v];
          RunOver(base, flags[k := v], last, args[1..]);
        case Word(w) =>
          if last != "" {
            assert (base + flags)[last := w] == base + flags[last := w];
            RunOver(base, flags[last := w], "", args[1..]);
          }
        case _ =>
      }
    }
  }

  lemma {:induction false} MissingOnly(flags: map<string, string>, entries: seq<Entry>)
    ensures forall e :: e in Missing(flags, entries) <==> e in entries && e.0 !in flags
    decreases |entries|
  {
    if entries != [] {
      MissingOnly(flags, entries[1..]);
      assert entries == [entries[0]] + entries[1..];
    }
  }

  lemma ManagedKeys()
    ensures IsKey("--config-path") && IsKey("--bind-address") && IsKey("--advertised-address")
    ensures IsKey("--store-config") && IsKey("--store-admin-host") && IsKey("--metastore-uri")
    ensures IsKey("--server-id") && IsKey("--port") && IsKey("--internal-port") && IsKey("--seed-nodes")
  {
  }

  lemma JoinedSeedsPlain(hdb: Instance, replicas: int)
    requires hdb.name != "" && Plain(hdb.name)
    ensures Plain(Join(SeedNodes(hdb, replicas), ","))
  {
    if replicas > 0 {
      var nodes := SeedNodes(hdb, replicas);
      assert nodes[0] == SeedNode(hdb, 0) && SeedNode(hdb, 0)[0] == hdb.name[0];
      assert Join(nodes, ",")[0] == nodes[0][0];
    }
  }

  lemma GoodManaged(spec: Spec)
    requires spec.instance.name != "" && Plain(spec.instance.name)
    ensures GoodDefaults(Managed(spec))
  {
    var es := Managed(spec);
    ManagedKeys();
    JoinedSeedsPlain(spec.instance, spec.hServer.replicas);
    DigitsDenote(6570);
    DigitsDenote(6571);
    assert es[2].1[0] == '$' && es[4].1[0] == spec.instance.name[0] && es[5].1[0] == 'r' && es[6].1[0] == '$';
    assert forall i :: 0 <= i < |es| ==> IsKey(es[i].0) && Plain(es[i].1);
  }

  /** Defaults for the missing flags, then the user's arguments: the parse is the
      disjoint union, and ends as the parse of the user's arguments does. */
  lemma MissingThenUser(entries: seq<Entry>, args: seq<string>)
    requires GoodDefaults(entries)
    ensures var user := Parse(args);
            var added := Put(map[], Missing(user.flags, entries));
            && Parse(Pairs(Missing(user.flags, entries)) + args) == user.(flags := added + user.flags)
            && added.Keys !! user.flags.Keys
            && (forall e :: e in entries ==> e.0 in added || e.0 in user.flags)
  {
    var flags := Parse(args).flags;
    var missing := Missing(flags, entries);
    var added := Put(map[], missing);
    MissingOnly(flags, entries);
    RunPairs(map[], missing, args);
    assert added + map[] == added;
    RunOver(added, map[], "", args);
    PutFrom(map[], missing);
  }

  /** The generated command line composes: whatever the user's arguments are,
      the tokens after the binary parse to the disjoint union of the user's
      flags and the managed flags the user did not give, and stop as the user's do. */
  lemma CommandLineComposes(spec: Spec)
    requires spec.instance.name != "" && Plain(spec.instance.name)
    ensures var user := Parse(spec.hServer.container.args);
            var added := Put(map[], Missing(user.flags, Managed(spec)));
            && Parse(Tokens(spec)[1..]) == user.(flags := added + user.flags)
            && added.Keys !! user.flags.Keys
            && (forall e :: e in Managed(spec) ==> e.0 in added || e.0 in user.flags)
  {
    var args, managed := spec.hServer.container.args, Managed(spec);
    GoodManaged(spec);
    MissingThenUser(managed, args);
    TokensAfterBinary(managed, args);
  }

  lemma TokensAfterBinary(managed: seq<Entry>, args: seq<string>)
    ensures ([BINARY] + Pairs(Missing(Parse(args).flags, managed)) + args)[1..] == Pairs(Missing(Parse(args).flags, managed)) + args
  {
  }

  // ---------- what the server is told ----------

  /** The flags of the generated command line, as the server reads them. */
  function ToldFlags(spec: Spec): map<string, string> { Parse(Tokens(spec)[1..]).flags }

  lemma {:induction false} MissingPut(flags: map<string, string>, entries: seq<Entry>, e: Entry)
    requires e in entries && e.0 !in flags && forall x :: x in entries && x.0 == e.0 ==> x == e
    ensures var added := Put(map[], Missing(flags, entries));
            e.0 in added && added[e.0] == e.1
  {
    MissingOnly(flags, entries);
    PutHolds(map[], Missing(flags, entries), e);
  }

  /** A managed flag is read with the user's value if the user gave it, and else with the operator's. */
  lemma ToldOf(spec: Spec, e: Entry)
    requires spec.instance.name != "" && Plain(spec.instance.name) && e in Managed(spec)
    ensures var user := Parse(spec.hServer.container.args).flags;
            e.0 in ToldFlags(spec) && ToldFlags(spec)[e.0] == if e.0 in user then user[e.0] else e.1
  {
    hide Run, Managed, Tokens;
    CommandLineComposes(spec);
    ManagedOnce(spec);
    var user := Parse(spec.hServer.container.args).flags;
    if e.0 !in user { MissingPut(user, Managed(spec), e); }
  }

  const MANAGED_FLAGS: seq<string> :=
    ["--config-path", "--bind-address", "--advertised-address", "--store-config", "--store-admin-host",
     "--metastore-uri", "--server-id", "--port", "--internal-port", "--seed-nodes"]

  lemma ManagedFlags(spec: Spec)
    ensures forall i :: 0 <= i < 10 ==> Managed(spec)[i].0 == MANAGED_FLAGS[i]
  {
    hide HeadlessName, Itoa, Join, SeedNodes, HServerView, MetastoreAddr;
  }

  /** Ten flags, told apart by their length and third character. */
  lemma TenFlags(i: nat, j: nat)
    requires i < j < 10
    ensures MANAGED_FLAGS[i] != MANAGED_FLAGS[j]
  {
    var sizes, thirds := [13, 14, 20, 14, 18, 15, 11, 6, 15, 12], "cbassmspis";
    assert forall k: nat | k < 10 :: |MANAGED_FLAGS[k]| == sizes[k] && MANAGED_FLAGS[k][2] == thirds[k];
  }

  lemma ManagedOnce(spec: Spec)
    ensures forall x, y :: x in Managed(spec) && y in Managed(spec) && x.0 == y.0 ==> x == y
  {
    hide Managed;
    ManagedFlags(spec);
    var es := Managed(spec);
    forall x, y | x in es && y in es && x.0 == y.0 ensures x == y {
      var i :| 0 <= i < 10 && es[i] == x;
      var j :| 0 <= j < 10 && es[j] == y;
      if i < j { TenFlags(i, j); }
      if j < i { TenFlags(j, i); }
    }
  }

  /** Every flag the operator manages, with the value the server reads when the user did not give it. */
  lemma ServerIsTold(spec: Spec)
    requires spec.instance.name != "" && Plain(spec.instance.name)
    ensures var hdb, user, told := spec.instance, Parse(spec.hServer.container.args).flags, ToldFlags(spec);
            && (forall f :: f in user ==> f in told && told[f] == user[f])
            && "--port" in told && ("--port" !in user ==> told["--port"] == "6570")
            && "--internal-port" in told && ("--internal-port" !in user ==> told["--internal-port"] == "6571")
            && "--config-path" in told && ("--config-path" !in user ==> told["--config-path"] == "/etc/hstream/config.yaml")
            && "--bind-address" in told && ("--bind-address" !in user ==> told["--bind-address"] == "0.0.0.0")
            && "--store-config" in told && ("--store-config" !in user ==> told["--store-config"] == "/etc/logdevice/config.json")
  {
    hide Run, Tokens, ToldFlags;
    CommandLineComposes(spec);
    Numerals();
    var es := Managed(spec);
    assert es[7] in es && es[8] in es && es[0] in es && es[1] in es && es[3] in es;
    ToldOf(spec, es[7]);
    ToldOf(spec, es[8]);
    ToldOf(spec, es[0]);
    ToldOf(spec, es[1]);
    ToldOf(spec, es[3]);
    UserIsTold(spec);
  }

  lemma UserIsTold(spec: Spec)
    requires spec.instance.name != "" && Plain(spec.instance.name)
    ensures forall f :: f in Parse(spec.hServer.container.args).flags ==>
              f in ToldFlags(spec) && ToldFlags(spec)[f] == Parse(spec.hServer.container.args).flags[f]
  {
    hide Run, Tokens, Managed;
    CommandLineComposes(spec);
  }

  lemma ServerIsToldNames(spec: Spec)
    requires spec.instance.name != "" && Plain(spec.instance.name)
    ensures var hdb, user, told := spec.instance, Parse(spec.hServer.container.args).flags, ToldFlags(spec);
            && "--advertised-address" in told
            && ("--advertised-address" !in user ==>
                  told["--advertised-address"] == "$(POD_NAME)." + (hdb.name + "-internal-hserver") + "." + hdb.namespace)
            && "--store-admin-host" in told
            && ("--store-admin-host" !in user ==> told["--store-admin-host"] == hdb.name + "-admin-server" + "." + hdb.namespace)
            && "--server-id" in told && ("--server-id" !in user ==> told["--server-id"] == "$(hostname | grep -o '[0-9]*$')")
            && "--seed-nodes" in told
            && ("--seed-nodes" !in user ==> told["--seed-nodes"] == Join(SeedNodes(hdb, spec.hServer.replicas), ","))
  {
    hide Run, Tokens, ToldFlags, SeedNodes, Join, HeadlessName, Itoa, HServerView, MetastoreAddr;
    var hdb, es := spec.instance, Managed(spec);
    assert es[2] in es && es[4] in es && es[6] in es && es[9] in es;
    HeadlessSays(hdb);
    ToldOf(spec, es[2]);
    ToldOf(spec, es[4]);
    ToldOf(spec, es[6]);
    ToldOf(spec, es[9]);
  }

  lemma HeadlessSays(hdb: Instance)
    ensures HeadlessName(hdb, "hserver") == hdb.name + "-internal-hserver"
  {
    assert "-internal-" + "hserver" == "-internal-hserver";
  }

  /** HServer is told the HMeta address that is in the LogDevice config exactly when the two views agree. */
  lemma ServerIsToldMeta(spec: Spec)
    requires spec.instance.name != "" && Plain(spec.instance.name)
    requires "--metastore-uri" !in Parse(spec.hServer.container.args).flags
    ensures var view := HServerView(spec.instance, spec.externalHMeta, spec.hMeta.container.args);
            var shared := LogDeviceView(spec.instance, spec.externalHMeta, spec.hMeta.container.args);
            var told := ToldFlags(spec);
            && "--metastore-uri" in told
            && (view.Ok? ==> told["--metastore-uri"] == "rq://" + view.value)
            && (!view.Ok? ==> told["--metastore-uri"] == "rq://")
            && (told["--metastore-uri"] == "rq://" + shared <==> view == Ok(shared))
  {
    hide Run, Tokens, ToldFlags, HServerView, LogDeviceView;
    var es := Managed(spec);
    assert es[5] in es;
    ToldOf(spec, es[5]);
    var view := HServerView(spec.instance, spec.externalHMeta, spec.hMeta.container.args);
    var shared := LogDeviceView(spec.instance, spec.externalHMeta, spec.hMeta.container.args);
    assert "rq://" + "" == "rq://";
    assert ("rq://" + MetastoreAddr(view))[5..] == MetastoreAddr(view) && ("rq://" + shared)[5..] == shared;
    AddressNotEmpty(spec.instance, spec.externalHMeta, spec.hMeta.container.args);
  }

  lemma AddressNotEmpty(hdb: Instance, external: Option<ExternalHMeta>, args: seq<string>)
    ensures LogDeviceView(hdb, external, args) != ""
  {
  }

  lemma Numerals()
    ensures Itoa(6570) == "6570" && Itoa(6571) == "6571" && IntVal("6570") == 6570 && IntVal("6571") == 6571
  {
    assert Digits(6) == "6" && Digits(65) == "65" && Digits(657) == "657" && Digits(6570) == "6570" && Digits(6571) == "6571";
    AtoiItoa(6570);
    AtoiItoa(6571);
  }

  // ---------- the ports ----------

  /** The StatefulSet's ports when the operator writes the command line: `soFar`
      is the argument list at the moment each port is settled. */
  function OneMorePort(flags: map<string, string>, user: seq<string>, soFar: seq<string>, ports: seq<Port>, p: Port): Result<seq<Port>> {
    Covered(if "--" + p.name in flags then user else soFar, ExtendWith(ports, [p]))
  }

  function SettledPorts(c: Container, soFar: seq<string>, soFarInternal: seq<string>): Result<seq<Port>> {
    if OwnCommand(c) then Covered(c.args, ExtendWith(c.ports, [HSERVER_PORT, INTERNAL_PORT]))
    else if Parse(c.args).status == Panicked then Panic
    else
      match OneMorePort(Parse(c.args).flags, c.args, soFar, c.ports, HSERVER_PORT)
      case Ok(first) => OneMorePort(Parse(c.args).flags, c.args, soFarInternal, first, INTERNAL_PORT)
      case r => Panic
  }

  /** The arguments before `--port` and before `--internal-port` are settled. */
  function ArgsSoFar(spec: Spec, n: nat): seq<string>
    requires n <= 10
  {
    [BINARY] + Pairs(Missing(Parse(spec.hServer.container.args).flags, Managed(spec)[..n]))
  }

  function StatefulSetPorts(spec: Spec): Result<seq<Port>> {
    SettledPorts(spec.hServer.container, ArgsSoFar(spec, 8), ArgsSoFar(spec, 9))
  }

  function ServicePorts(c: Container): Result<seq<ServicePort>> {
    ServicePortsOf(c.args, c.ports, [HSERVER_PORT, INTERNAL_PORT])
  }

  /** Covering from the generated arguments does nothing: the first token is the binary's name. */
  lemma BinaryStopsParser(rest: seq<string>)
    ensures Parse([BINARY] + rest).flags == map[] && Parse([BINARY] + rest).status == Rejected
  {
    assert ([BINARY] + rest)[0] == BINARY;
    assert Classify(BINARY) == Word(BINARY);
  }

  lemma CoverNothing(ports: seq<Port>)
    ensures Cover(map[], ports) == ports
  {
  }

  /** The ports of the operator's own command line in closed form. */
  lemma SettledClosedForm(c: Container, soFar: seq<string>, soFarInternal: seq<string>)
    requires !OwnCommand(c) && Parse(c.args).status != Panicked
    ensures var f := Parse(c.args).flags;
            var first := ExtendWith(c.ports, [HSERVER_PORT]);
            var covered := if "--port" in f then Cover(f, first) else first;
            var second := ExtendWith(covered, [INTERNAL_PORT]);
            SettledPorts(c, [BINARY] + soFar, [BINARY] + soFarInternal)
            == Ok(if "--internal-port" in f then Cover(f, second) else second)
  {
    BinaryStopsParser(soFar);
    BinaryStopsParser(soFarInternal);
    var first := ExtendWith(c.ports, [HSERVER_PORT]);
    CoverNothing(first);
    var f := Parse(c.args).flags;
    var covered := if "--port" in f then Cover(f, first) else first;
    CoverNothing(ExtendWith(covered, [INTERNAL_PORT]));
    assert "--" + "port" == "--port" && "--" + "internal-port" == "--internal-port";
    assert OneMorePort(f, c.args, [BINARY] + soFar, c.ports, HSERVER_PORT) == Ok(covered);
  }

  lemma ExtendByTwo(ports: seq<Port>)
    ensures ExtendWith(ports, [HSERVER_PORT, INTERNAL_PORT]) == ExtendWith(ExtendWith(ports, [HSERVER_PORT]), [INTERNAL_PORT])
  {
    assert [HSERVER_PORT, INTERNAL_PORT][1..] == [INTERNAL_PORT] && [HSERVER_PORT][1..] == [];
  }

  /** Covering the partly covered list once more gives the Service's list, in every branch. */
  lemma CoverCompletes(c: Container, f: map<string, string>, twice: bool, last: bool)
    ensures var first := ExtendWith(c.ports, [HSERVER_PORT]);
            var second := ExtendWith(if twice then Cover(f, first) else first, [INTERNAL_PORT]);
            var mine := if last then Cover(f, second) else second;
            Cover(f, mine) == Cover(f, ExtendWith(c.ports, [HSERVER_PORT, INTERNAL_PORT]))
  {
    var first := ExtendWith(c.ports, [HSERVER_PORT]);
    var covered := if twice then Cover(f, first) else first;
    CoverIdempotent(f, first);
    CoverExtend(f, covered, first, [INTERNAL_PORT]);
    ExtendByTwo(c.ports);
    CoverIdempotent(f, ExtendWith(covered, [INTERNAL_PORT]));
  }

  /** The list the operator settles on, before and after the last covering. */
  ghost predicate Settles(c: Container, mine: seq<Port>) {
    var f := Parse(c.args).flags;
    var first := ExtendWith(c.ports, [HSERVER_PORT]);
    var second := ExtendWith(if "--port" in f then Cover(f, first) else first, [INTERNAL_PORT]);
    mine == if "--internal-port" in f then Cover(f, second) else second
  }

  /** Every port the operator settles but the flags would still renumber has a name of the user's own. */
  lemma OnlyUserPortsDiffer(c: Container, mine: seq<Port>)
    requires Settles(c, mine)
    ensures var f := Parse(c.args).flags;
            && ("--port" in f || "--internal-port" in f ==> forall p :: p in mine ==> Agrees(f, p))
            && ("--port" !in f && "--internal-port" !in f ==>
                  ((forall p :: p in mine ==> Agrees(f, p)) <==> forall p :: p in c.ports ==> Agrees(f, p)))
            && (forall p :: p in mine && (p.name == "port" || p.name == "internal-port") ==> Agrees(f, p))
  {
    var f := Parse(c.args).flags;
    assert "--" + "port" == "--port" && "--" + "internal-port" == "--internal-port";
    if "--internal-port" in f {
      AllAgree(f, ExtendWith(if "--port" in f then Cover(f, ExtendWith(c.ports, [HSERVER_PORT])) else ExtendWith(c.ports, [HSERVER_PORT]),
                             [INTERNAL_PORT]));
    } else if "--port" in f {
      var covered := Cover(f, ExtendWith(c.ports, [HSERVER_PORT]));
      AllAgree(f, ExtendWith(c.ports, [HSERVER_PORT]));
      ExtendByOne(covered, INTERNAL_PORT);
    } else {
      ExtendByOne(c.ports, HSERVER_PORT);
      var first := ExtendWith(c.ports, [HSERVER_PORT]);
      ExtendByOne(first, INTERNAL_PORT);
      assert forall p :: p in mine ==> p in c.ports || p == HSERVER_PORT || p == INTERNAL_PORT;
      assert forall p :: p in c.ports ==> p in mine;
    }
  }

  lemma AllAgree(f: map<string, string>, ports: seq<Port>)
    ensures forall p :: p in Cover(f, ports) ==> Agrees(f, p)
  {
    CoverIdempotent(f, ports);
    CoverFixed(f, Cover(f, ports));
  }

  lemma CoveredHasSameNames(f: map<string, string>, mine: seq<Port>)
    ensures forall i :: 0 <= i < |mine| ==>
              Cover(f, mine)[i].name == mine[i].name && Cover(f, mine)[i].protocol == mine[i].protocol
    ensures forall i :: 0 <= i < |mine| ==>
              (Agrees(f, mine[i]) <==> Cover(f, mine)[i].containerPort == mine[i].containerPort)
  {
  }

  lemma StatefulSetSettles(spec: Spec)
    requires Parse(spec.hServer.container.args).status != Panicked
    requires !OwnCommand(spec.hServer.container)
    ensures StatefulSetPorts(spec).Ok? && Settles(spec.hServer.container, StatefulSetPorts(spec).value)
  {
    var c, f := spec.hServer.container, Parse(spec.hServer.container.args).flags;
    SettledClosedForm(c, Pairs(Missing(f, Managed(spec)[..8])), Pairs(Missing(f, Managed(spec)[..9])));
  }

  // ---------- the seed nodes ----------

  /** The internal port of the servers is the default one. */
  predicate InternalPortIsDefault(c: Container) {
    var f := Parse(c.args).flags;
    if "--internal-port" in f then IntVal(f["--internal-port"]) == INTERNAL_PORT.containerPort
    else forall p :: p in c.ports && p.name == "internal-port" ==> p.containerPort == INTERNAL_PORT.containerPort
  }

  lemma AddressTellsPort(hdb: Instance, i: int, p: int, q: int)
    ensures ServerAddress(hdb, i, p) == ServerAddress(hdb, i, q) <==> p == q
  {
    var prefix := hdb.name + "-hserver" + "-" + Itoa(i) + "." + HeadlessName(hdb, "hserver") + "." + hdb.namespace + ":";
    assert ServerAddress(hdb, i, p)[|prefix|..] == Itoa(p) && ServerAddress(hdb, i, q)[|prefix|..] == Itoa(q);
    if Itoa(p) == Itoa(q) { ItoaInjective(p, q); }
  }

  /** The seed nodes are as many as the replicas, in order, each with its index and the default internal port. */
  lemma SeedNodesInOrder(hdb: Instance, replicas: nat)
    ensures |SeedNodes(hdb, replicas)| == replicas
    ensures forall i :: 0 <= i < replicas ==>
              SeedNodes(hdb, replicas)[i]
              == hdb.name + "-hserver" + "-" + Itoa(i) + "." + (hdb.name + "-internal-hserver") + "." + hdb.namespace + ":" + "6571"
  {
    Numerals();
    HeadlessSays(hdb);
  }

  /** Every settled port named `internal-port` has the default number exactly when no flag or port of the user says another. */
  lemma SettledInternalPort(spec: Spec)
    requires Parse(spec.hServer.container.args).status != Panicked && !OwnCommand(spec.hServer.container)
    ensures StatefulSetPorts(spec).Ok?
    ensures exists p :: p in StatefulSetPorts(spec).value && p.name == "internal-port"
    ensures (forall p :: p in StatefulSetPorts(spec).value && p.name == "internal-port" ==> p.containerPort == INTERNAL_PORT.containerPort)
            <==> InternalPortIsDefault(spec.hServer.container)
    ensures var f := Parse(spec.hServer.container.args).flags;
            "--internal-port" in f ==>
              forall p :: p in StatefulSetPorts(spec).value && p.name == "internal-port" ==> p.containerPort == IntVal(f["--internal-port"])
  {
    hide Run, Managed, InternalPortIsDefault;
    var c, f := spec.hServer.container, Parse(spec.hServer.container.args).flags;
    SettledClosedForm(c, Pairs(Missing(f, Managed(spec)[..8])), Pairs(Missing(f, Managed(spec)[..9])));
    InternalPortOf(c, f);
  }

  lemma InternalPortOf(c: Container, f: map<string, string>)
    requires f == Parse(c.args).flags
    ensures var first := ExtendWith(c.ports, [HSERVER_PORT]);
            var covered := if "--port" in f then Cover(f, first) else first;
            var second := ExtendWith(covered, [INTERNAL_PORT]);
            var mine := if "--internal-port" in f then Cover(f, second) else second;
            && (exists p :: p in mine && p.name == "internal-port")
            && ((forall p :: p in mine && p.name == "internal-port" ==> p.containerPort == INTERNAL_PORT.containerPort)
                <==> InternalPortIsDefault(c))
            && ("--internal-port" in f ==>
                  forall p :: p in mine && p.name == "internal-port" ==> p.containerPort == IntVal(f["--internal-port"]))
  {
    hide Run, IntVal, ExtendWith;
    ExtendByOne(c.ports, HSERVER_PORT);
    assert "--" + "internal-port" == "--internal-port";
    var first := ExtendWith(c.ports, [HSERVER_PORT]);
    var covered := if "--port" in f then Cover(f, first) else first;
    var second := ExtendWith(covered, [INTERNAL_PORT]);
    ExtendByOne(covered, INTERNAL_PORT);
    var mine := if "--internal-port" in f then Cover(f, second) else second;
    var j := InternalAt(covered, second);
    assert mine[j].name == "internal-port" && mine[j] in mine;
    if "--internal-port" !in f { InternalPortKept(c, f, first, covered, second); }
  }

  /** Without `--internal-port` the ports of that name are the user's, or the default one. */
  lemma InternalPortKept(c: Container, f: map<string, string>, first: seq<Port>, covered: seq<Port>, second: seq<Port>)
    requires "--internal-port" !in f
    requires first == c.ports || first == c.ports + [HSERVER_PORT]
    requires covered == first || covered == Cover(f, first)
    requires second == covered || second == covered + [INTERNAL_PORT]
    ensures forall p :: p in c.ports && p.name == "internal-port" ==> p in second
    ensures forall p :: p in second && p.name == "internal-port" ==> p in c.ports || p == INTERNAL_PORT
  {
    assert "--" + "internal-port" == "--internal-port";
    forall p | p in c.ports && p.name == "internal-port" ensures p in second {
      var k :| 0 <= k < |c.ports| && c.ports[k] == p;
      assert first[k] == p && covered[k] == p && second[k] == p;
    }
    forall p | p in second && p.name == "internal-port" ensures p in c.ports || p == INTERNAL_PORT {
      var k :| 0 <= k < |second| && second[k] == p;
      if k < |covered| { assert covered[k] == first[k] == p; }
    }
  }

  lemma InternalAt(covered: seq<Port>, second: seq<Port>) returns (j: nat)
    requires second == if Named(covered, "internal-port") then covered else covered + [INTERNAL_PORT]
    ensures j < |second| && second[j].name == "internal-port"
  {
    if Named(covered, "internal-port") {
      j :| 0 <= j < |covered| && covered[j].name == "internal-port";
    } else {
      j := |covered|;
    }
  }

  /** The generated seed nodes are the servers' addresses exactly when the internal port is the default one. */
  lemma SeedNodesRight(spec: Spec)
    requires Parse(spec.hServer.container.args).status != Panicked && !OwnCommand(spec.hServer.container)
    requires "--seed-nodes" !in Parse(spec.hServer.container.args).flags && spec.hServer.replicas >= 1
    ensures var hdb, nodes := spec.instance, SeedNodes(spec.instance, spec.hServer.replicas);
            && ("--seed-nodes", Join(nodes, ",")) in Missing(Parse(spec.hServer.container.args).flags, Managed(spec))
            && StatefulSetPorts(spec).Ok?
            && ((forall i, p :: 0 <= i < |nodes| && p in StatefulSetPorts(spec).value && p.name == "internal-port" ==>
                   nodes[i] == ServerAddress(hdb, i, p.containerPort))
                <==> InternalPortIsDefault(spec.hServer.container))
  {
    hide Run, ServerAddress, StatefulSetPorts, InternalPortIsDefault;
    var hdb, nodes := spec.instance, SeedNodes(spec.instance, spec.hServer.replicas);
    MissingOnly(Parse(spec.hServer.container.args).flags, Managed(spec));
    assert Managed(spec)[9] == ("--seed-nodes", Join(nodes, ","));
    SettledInternalPort(spec);
    var ports := StatefulSetPorts(spec).value;
    forall i: nat, p | i < |nodes| && p in ports ensures nodes[i] == ServerAddress(hdb, i, p.containerPort) <==> p.containerPort == INTERNAL_PORT.containerPort {
      AddressTellsPort(hdb, i, INTERNAL_PORT.containerPort, p.containerPort);
    }
    assert 0 < |nodes|;
  }

  /** With `--internal-port 7000` no seed node is a server's address. */
  lemma SeedNodesWrong(spec: Spec, i: nat)
    requires spec.hServer.container.args == ["--internal-port", "7000"] && spec.hServer.container.command == []
    requires i < spec.hServer.replicas
    ensures StatefulSetPorts(spec).Ok?
    ensures "--seed-nodes" !in Parse(spec.hServer.container.args).flags && !OwnCommand(spec.hServer.container)
    ensures exists p :: p in StatefulSetPorts(spec).value && p.name == "internal-port"
    ensures forall p :: p in StatefulSetPorts(spec).value && p.name == "internal-port" ==>
              p.containerPort == 7000 && SeedNode(spec.instance, i) != ServerAddress(spec.instance, i, p.containerPort)
  {
    hide Run, Managed, ServerAddress, StatefulSetPorts, IntVal, InternalPortIsDefault;
    InternalPortParsed();
    assert spec.hServer.container.args[0][0] == '-' && spec.hServer.container.args[0][1] == '-';
    SettledInternalPort(spec);
    AddressTellsPort(spec.instance, i, INTERNAL_PORT.containerPort, 7000);
  }

  lemma InternalPortParsed()
    ensures Parse(["--internal-port", "7000"]) == Scan(map["--internal-port" := "7000"], [], "", Exhausted)
    ensures IntVal("7000") == 7000
  {
    hide Run, IsKey;
    var entries := [("--internal-port", "7000")];
    ManagedKeys();
    ParsedDefaults(entries);
    assert entries[1..] == [] && Pairs(entries) == ["--internal-port", "7000"];
    assert Put(map[], entries) == Put(map[]["--internal-port" := "7000"], entries[1..]);
    SevenThousand();
  }

  lemma SevenThousand()
    ensures IntVal("7000") == 7000
  {
    assert Digits(7) == "7" && Digits(70) == "70" && Digits(700) == "700" && Digits(7000) == "7000";
    AtoiItoa(7000);
  }

  // ---------- listed and listened on ----------

  /** The ports named `port`: with `--port` its number, and else the user's or the default one. */
  lemma MainPortOf(c: Container, f: map<string, string>)
    requires f == Parse(c.args).flags
    ensures var first := ExtendWith(c.ports, [HSERVER_PORT]);
            var covered := if "--port" in f then Cover(f, first) else first;
            var second := ExtendWith(covered, [INTERNAL_PORT]);
            var mine := if "--internal-port" in f then Cover(f, second) else second;
            && (exists p :: p in mine && p.name == "port")
            && ("--port" in f ==> forall p :: p in mine && p.name == "port" ==> p.containerPort == IntVal(f["--port"]))
            && ("--port" !in f ==>
                  && (forall p :: p in c.ports && p.name == "port" ==> p in mine)
                  && (forall p :: p in mine && p.name == "port" ==> p in c.ports || p == HSERVER_PORT))
  {
    hide Run, IntVal, ExtendWith;
    ExtendByOne(c.ports, HSERVER_PORT);
    assert "--" + "port" == "--port";
    var first := ExtendWith(c.ports, [HSERVER_PORT]);
    var covered := if "--port" in f then Cover(f, first) else first;
    var second := ExtendWith(covered, [INTERNAL_PORT]);
    ExtendByOne(covered, INTERNAL_PORT);
    var mine := if "--internal-port" in f then Cover(f, second) else second;
    var j := MainAt(c.ports, first);
    assert covered[j].name == "port" && second[j].name == "port" && mine[j].name == "port" && mine[j] in mine;
    if "--port" in f {
      MainPortCovered(f, covered, second, mine);
    } else {
      MainPortKept(c, f, first, second, mine);
    }
  }

  lemma MainAt(ports: seq<Port>, first: seq<Port>) returns (j: nat)
    requires first == if Named(ports, "port") then ports else ports + [HSERVER_PORT]
    ensures j < |first| && first[j].name == "port"
  {
    if Named(ports, "port") {
      j :| 0 <= j < |ports| && ports[j].name == "port";
    } else {
      j := |ports|;
    }
  }

  lemma MainPortCovered(f: map<string, string>, covered: seq<Port>, second: seq<Port>, mine: seq<Port>)
    requires "--port" in f && (second == covered || second == covered + [INTERNAL_PORT]) && (mine == second || mine == Cover(f, second))
    requires forall k :: 0 <= k < |covered| && covered[k].name == "port" ==> covered[k].containerPort == IntVal(f["--port"])
    ensures forall p :: p in mine && p.name == "port" ==> p.containerPort == IntVal(f["--port"])
  {
    assert "--" + "port" == "--port";
    forall p | p in mine && p.name == "port" ensures p.containerPort == IntVal(f["--port"]) {
      var k :| 0 <= k < |mine| && mine[k] == p;
      assert second[k].name == "port";
      if mine == second { assert k < |covered| && covered[k] == p; }
    }
  }

  lemma MainPortKept(c: Container, f: map<string, string>, first: seq<Port>, second: seq<Port>, mine: seq<Port>)
    requires "--port" !in f && (first == c.ports || first == c.ports + [HSERVER_PORT])
    requires (second == first || second == first + [INTERNAL_PORT]) && (mine == second || mine == Cover(f, second))
    ensures forall p :: p in c.ports && p.name == "port" ==> p in mine
    ensures forall p :: p in mine && p.name == "port" ==> p in c.ports || p == HSERVER_PORT
  {
    assert "--" + "port" == "--port";
    forall p | p in c.ports && p.name == "port" ensures p in mine {
      var k :| 0 <= k < |c.ports| && c.ports[k] == p;
      assert first[k] == p && second[k] == p && mine[k] == p;
    }
    forall p | p in mine && p.name == "port" ensures p in c.ports || p == HSERVER_PORT {
      var k :| 0 <= k < |mine| && mine[k] == p;
      assert second[k] == p;
    }
  }

  /** The settled ports and the command line: every port listed as `port` is the one the server is told
      to listen on exactly when the user gives `--port`, or names no port `port` with another number
      than 6570; and so for `internal-port` and 6571. */
  lemma ListedIsTold(spec: Spec)
    requires spec.instance.name != "" && Plain(spec.instance.name)
    requires !OwnCommand(spec.hServer.container) && Parse(spec.hServer.container.args).status != Panicked
    ensures StatefulSetPorts(spec).Ok?
    ensures var c, ports, told := spec.hServer.container, StatefulSetPorts(spec).value, ToldFlags(spec);
            var user := Parse(c.args).flags;
            && "--port" in told && "--internal-port" in told
            && (exists p :: p in ports && p.name == "port") && (exists p :: p in ports && p.name == "internal-port")
            && ((forall p :: p in ports && p.name == "port" ==> p.containerPort == IntVal(told["--port"]))
                <==> "--port" in user || forall p :: p in c.ports && p.name == "port" ==> p.containerPort == 6570)
            && ((forall p :: p in ports && p.name == "internal-port" ==> p.containerPort == IntVal(told["--internal-port"]))
                <==> "--internal-port" in user || forall p :: p in c.ports && p.name == "internal-port" ==> p.containerPort == 6571)
  {
    hide Run, Managed, ToldFlags, IntVal, ExtendWith, Cover;
    var c, f := spec.hServer.container, Parse(spec.hServer.container.args).flags;
    ServerIsTold(spec);
    Numerals();
    SettledClosedForm(c, Pairs(Missing(f, Managed(spec)[..8])), Pairs(Missing(f, Managed(spec)[..9])));
    MainPortOf(c, f);
    SettledInternalPort(spec);
  }

  /** A user port named `port` is listed with the user's number, but the server is told to listen on the default one. */
  lemma ListedNotListened(spec: Spec)
    requires spec.instance.name != "" && Plain(spec.instance.name)
    requires spec.hServer.container.args == [] && spec.hServer.container.command == []
    requires spec.hServer.container.ports == [Port("port", 7000, "TCP")]
    ensures StatefulSetPorts(spec) == Ok([Port("port", 7000, "TCP"), Port("internal-port", 6571, "TCP")])
    ensures "--port" in ToldFlags(spec) && ToldFlags(spec)["--port"] == "6570"
  {
    hide Run, Managed, ToldFlags;
    NothingParsed();
    ServerIsTold(spec);
    PortsWithoutArgs(spec, Port("port", 7000, "TCP"));
  }

  lemma NothingParsed()
    ensures Parse([]) == Scan(map[], [], "", Exhausted)
  {
  }

  lemma PortsWithoutArgs(spec: Spec, p: Port)
    requires spec.hServer.container.args == [] && spec.hServer.container.command == [] && spec.hServer.container.ports == [p]
    requires p.name == "port"
    ensures StatefulSetPorts(spec) == Ok([p, INTERNAL_PORT])
  {
    hide Managed, ExtendWith, Cover, Run;
    NothingParsed();
    SettledClosedForm(spec.hServer.container, Pairs(Missing(map[], Managed(spec)[..8])), Pairs(Missing(map[], Managed(spec)[..9])));
    ExtendByOne([p], HSERVER_PORT);
    ExtendByOne([p], INTERNAL_PORT);
    assert [p][0].name == "port";
    assert !Named([p], "internal-port");
    assert [p] + [INTERNAL_PORT] == [p, INTERNAL_PORT];
    assert StatefulSetPorts(spec) == SettledPorts(spec.hServer.container, ArgsSoFar(spec, 8), ArgsSoFar(spec, 9));
  }

  // ---------- StatefulSet and Service ----------

  /** The same ports in the same order, with the same numbers for the two the operator needs. */
  predicate SameEssentials(mine: seq<Port>, service: seq<ServicePort>) {
    && |mine| == |service|
    && forall i :: 0 <= i < |mine| ==>
         && mine[i].name == service[i].name && mine[i].protocol == service[i].protocol
         && (mine[i].name == "port" || mine[i].name == "internal-port" ==> mine[i].containerPort == service[i].port)
  }

  lemma SettledAgainstService(c: Container, mine: seq<Port>)
    requires Settles(c, mine)
    ensures var f := Parse(c.args).flags;
            var service := ToService(Cover(f, ExtendWith(c.ports, [HSERVER_PORT, INTERNAL_PORT])));
            && SameEssentials(mine, service)
            && (ToService(mine) == service <==>
                  "--port" in f || "--internal-port" in f || forall p :: p in c.ports ==> Agrees(f, p))
  {
    var f := Parse(c.args).flags;
    CoverCompletes(c, f, "--port" in f, "--internal-port" in f);
    OnlyUserPortsDiffer(c, mine);
    CoveredHasSameNames(f, mine);
    ToServiceInjective(mine, Cover(f, mine));
    CoverFixed(f, mine);
  }

  /** HServer ports agree in every branch: StatefulSet and Service list the
      same ports in the same order, and give `port` and `internal-port` the
      same numbers. The whole lists are equal exactly when the user runs a
      command of their own, or gives `--port` or `--internal-port`, or no other
      flag is named like a port of theirs and says another number. */
  lemma HServerPortsAgree(spec: Spec)
    requires Parse(spec.hServer.container.args).status != Panicked
    ensures var c := spec.hServer.container;
            var f := Parse(c.args).flags;
            && StatefulSetPorts(spec).Ok? && ServicePorts(c).Ok?
            && SameEssentials(StatefulSetPorts(spec).value, ServicePorts(c).value)
            && (Agree(StatefulSetPorts(spec), ServicePorts(c)) <==>
                  OwnCommand(c) || "--port" in f || "--internal-port" in f || forall p :: p in c.ports ==> Agrees(f, p))
  {
    var c := spec.hServer.container;
    if !OwnCommand(c) {
      StatefulSetSettles(spec);
      SettledAgainstService(c, StatefulSetPorts(spec).value);
    }
  }
}
